/**
 * The prescription list (src/pages/Prescriptions.tsx): which rows a viewer sees, in what order,
 * and how the age of a prescription and its medications are shown.
 */
module Prescriptions {
  import opened Wrappers
  import opened Records
  import Seqs

  /** `isRecentPrescription`: written within the last thirty days. */
  predicate IsRecent(createdAt: int, now: int)
  {
    createdAt > now - ThirtyDaysMs
  }

  /** A prescription recent now was recent at every earlier moment, and one issued at `now` is
      recent until thirty days have passed. */
  lemma RecencyOnlyLapses(createdAt: int, earlier: int, later: int)
    requires earlier <= later
    ensures IsRecent(createdAt, later) ==> IsRecent(createdAt, earlier)
    ensures IsRecent(createdAt, createdAt + 2592000000 - 1) && !IsRecent(createdAt, createdAt + 2592000000)
  {
  }

  /** The badge of a card and whether the refill reminder shows. */
  datatype RecencyView = RecencyView(badge: string, color: string, reminder: bool)

  function Recency(createdAt: int, now: int): (v: RecencyView)
    ensures v.badge == "ACTIVE" <==> IsRecent(createdAt, now)
    ensures v.badge == "OLDER" <==> !IsRecent(createdAt, now)
    ensures v.reminder <==> IsRecent(createdAt, now)
    ensures v.color == if IsRecent(createdAt, now) then "bg-green-100 text-green-800" else GrayBadge
  {
    if IsRecent(createdAt, now) then RecencyView("ACTIVE", "bg-green-100 text-green-800", true)
    else RecencyView("OLDER", GrayBadge, false)
  }

  /** The text the patient filter compares `patient_name` with: the profile's full name, or the
      word 'undefined' that the template literal produces while no profile is loaded. */
  function NameFilter(fullName: Option<string>): (t: string)
    ensures fullName.Some? ==> t == fullName.value
    ensures fullName.None? ==> t == "undefined"
  {
    fullName.GetOr("undefined")
  }

  /** The query's filter: a patient's own rows by id or by name; a doctor's rows by author. */
  predicate Visible(p: Prescription, viewer: Role, userId: string, fullName: Option<string>)
  {
    match viewer
    case Patient => p.patientId == userId || p.patientName == NameFilter(fullName)
    case Doctor => p.doctorId == userId
  }

  /** `.order('created_at', { ascending: false })`. */
  predicate NewestFirst(a: Prescription, b: Prescription)
  {
    a.createdAt >= b.createdAt
  }

  lemma NewestFirstIsTotalPreorder()
    ensures Seqs.TotalPreorder(NewestFirst)
  {
  }

  /** `fetchPrescriptions`: the visible rows, newest first. */
  function FetchPrescriptions(rows: seq<Prescription>, viewer: Role, userId: string, fullName: Option<string>): seq<Prescription>
  {
    Seqs.SortBy(Seqs.Filter((p: Prescription) => Visible(p, viewer, userId, fullName), rows), NewestFirst)
  }

  /** The list holds every visible row, each as often as it is stored, and no other, from the
      newest to the oldest. */
  lemma FetchPrescriptionsCorrect(rows: seq<Prescription>, viewer: Role, userId: string, fullName: Option<string>)
    ensures var r := FetchPrescriptions(rows, viewer, userId, fullName);
            multiset(r) == multiset(Seqs.Filter((p: Prescription) => Visible(p, viewer, userId, fullName), rows))
    ensures forall p :: p in FetchPrescriptions(rows, viewer, userId, fullName) <==>
              p in rows && Visible(p, viewer, userId, fullName)
    ensures forall i, j :: 0 <= i < j < |FetchPrescriptions(rows, viewer, userId, fullName)| ==>
              FetchPrescriptions(rows, viewer, userId, fullName)[i].createdAt >= FetchPrescriptions(rows, viewer, userId, fullName)[j].createdAt
  {
    var r := FetchPrescriptions(rows, viewer, userId, fullName);
    var visible := Seqs.Filter((p: Prescription) => Visible(p, viewer, userId, fullName), rows);
    NewestFirstIsTotalPreorder();
    Seqs.SortBySorted(visible, NewestFirst);
    forall p
      ensures p in r <==> p in visible
    {
      assert p in r <==> p in multiset(r);
    }
  }

  /** A doctor sees only the prescriptions they wrote; a patient sees every prescription made out
      to their account, whatever name it carries. */
  lemma ViewersSeeTheirOwn(rows: seq<Prescription>, userId: string, fullName: Option<string>)
    ensures forall p :: p in FetchPrescriptions(rows, Doctor, userId, fullName) ==> p.doctorId == userId
    ensures forall p :: p in rows && p.patientId == userId ==> p in FetchPrescriptions(rows, Patient, userId, fullName)
  {
    FetchPrescriptionsCorrect(rows, Doctor, userId, fullName);
    FetchPrescriptionsCorrect(rows, Patient, userId, fullName);
  }

  /** `medication.instructions || 'As directed'`. */
  function InstructionText(m: Medication): (text: string)
    ensures m.instructions != [] ==> text == m.instructions
    ensures m.instructions == [] ==> text == "As directed"
  {
    if m.instructions != [] then m.instructions else "As directed"
  }
}
