/**
 * The doctor's patient list (src/pages/Patients.tsx): the age shown on each card, the search
 * box, the summary cards and the access rule of the page. The page lists fixed sample records;
 * the model takes the list as a parameter.
 */
module Patients {
  import opened Wrappers
  import opened Records
  import opened Strings
  import Seqs

  /** A calendar date as `Date` reports it: year, month and day of the month. */
  datatype Date = Date(year: int, month: int, day: int)

  /** An entry of the patient list. `lastAppointment` is the last visit in milliseconds since
      the epoch, `None` when the record has none. */
  datatype Patient = Patient(
    id: string,
    fullName: string,
    phone: Option<string>,
    email: Option<string>,
    dateOfBirth: Option<Date>,
    gender: Option<string>,
    emergencyContact: Option<string>,
    lastAppointment: Option<int>,
    upcomingAppointments: int,
    totalAppointments: int,
    medicalNotes: Option<string>)

  /** Calendar order: by year, then month, then day. */
  predicate NotAfter(a: Date, b: Date)
  {
    a.year < b.year || (a.year == b.year && (a.month < b.month || (a.month == b.month && a.day <= b.day)))
  }

  /** The day `k` years after `birth`. */
  function Anniversary(birth: Date, k: int): Date
  {
    Date(birth.year + k, birth.month, birth.day)
  }

  /** `calculateAge`: the difference of the years, less one while this year's birthday is still
      to come. */
  function CalculateAge(birth: Date, today: Date): int
  {
    var age := today.year - birth.year;
    var monthDiff := today.month - birth.month;
    if monthDiff < 0 || (monthDiff == 0 && today.day < birth.day) then age - 1 else age
  }

  /** The age is the number of birthdays reached: the `age`-th anniversary is on or before today
      and the next one is after it. */
  lemma AgeIsCompletedYears(birth: Date, today: Date)
    ensures NotAfter(Anniversary(birth, CalculateAge(birth, today)), today)
    ensures !NotAfter(Anniversary(birth, CalculateAge(birth, today) + 1), today)
  {
  }

  /** Only one age fits that description, so the age is well defined. */
  lemma AgeIsUnique(birth: Date, today: Date, k: int)
    requires NotAfter(Anniversary(birth, k), today) && !NotAfter(Anniversary(birth, k + 1), today)
    ensures k == CalculateAge(birth, today)
  {
  }

  /** The test of the search box: the lowercased name or email contains the lowercased term, or
      the phone contains the term as typed. */
  predicate MatchesSearch(p: Patient, term: string)
  {
    || Includes(ToLower(p.fullName), ToLower(term))
    || (p.phone.Some? && Includes(p.phone.value, term))
    || (p.email.Some? && Includes(ToLower(p.email.value), ToLower(term)))
  }

  /** `t` occurs somewhere in `s`. */
  ghost predicate Mentions(s: string, t: string)
  {
    exists i :: OccursAt(s, t, i)
  }

  /** The search test, restated with "occurs at some position" in place of the left-to-right scan. */
  lemma MatchesSearchMeaning(p: Patient, term: string)
    ensures MatchesSearch(p, term) <==>
              || Mentions(ToLower(p.fullName), ToLower(term))
              || (p.phone.Some? && Mentions(p.phone.value, term))
              || (p.email.Some? && Mentions(ToLower(p.email.value), ToLower(term)))
  {
    IncludesIffOccurs(ToLower(p.fullName), ToLower(term));
    if p.phone.Some? {
      IncludesIffOccurs(p.phone.value, term);
    }
    if p.email.Some? {
      IncludesIffOccurs(ToLower(p.email.value), ToLower(term));
    }
  }

  /** The search is case-insensitive on name and email: a patient whose name contains `term`
      verbatim is found by any `typed` text that differs from `term` only in letter case. */
  lemma NameSearchIgnoresCase(p: Patient, term: string, typed: string)
    requires Includes(p.fullName, term)
    requires ToLower(typed) == ToLower(term)
    ensures MatchesSearch(p, typed)
  {
    IncludesLowered(p.fullName, term);
  }

  /** The effect on `searchTerm`: an empty term lists every patient; any other keeps, in order,
      the patients that match. */
  function SearchPatients(patients: seq<Patient>, term: string): (r: seq<Patient>)
    ensures term == [] ==> r == patients
    ensures term != [] ==> forall p :: p in r <==> p in patients && MatchesSearch(p, term)
    ensures |r| <= |patients|
  {
    if term == [] then patients else Seqs.Filter((p: Patient) => MatchesSearch(p, term), patients)
  }

  /** The search keeps the list's order: searching a concatenation searches each part. */
  lemma SearchPreservesOrder(a: seq<Patient>, b: seq<Patient>, term: string)
    ensures SearchPatients(a + b, term) == SearchPatients(a, term) + SearchPatients(b, term)
  {
    if term != [] {
      Seqs.FilterConcat((p: Patient) => MatchesSearch(p, term), a, b);
    }
  }

  /** `patients.reduce((sum, p) => sum + p.upcoming_appointments, 0)`. */
  function SumUpcoming(patients: seq<Patient>): int
  {
    if patients == [] then 0 else patients[0].upcomingAppointments + SumUpcoming(patients[1..])
  }

  /** `patients.reduce((sum, p) => sum + p.total_appointments, 0)`. */
  function SumTotal(patients: seq<Patient>): int
  {
    if patients == [] then 0 else patients[0].totalAppointments + SumTotal(patients[1..])
  }

  /** The stat cards add up over any split of the list. */
  lemma {:induction false} SumsOfConcat(a: seq<Patient>, b: seq<Patient>)
    ensures SumUpcoming(a + b) == SumUpcoming(a) + SumUpcoming(b)
    ensures SumTotal(a + b) == SumTotal(a) + SumTotal(b)
  {
    if a == [] {
      assert a + b == b;
    } else {
      assert (a + b)[1..] == a[1..] + b;
      SumsOfConcat(a[1..], b);
    }
  }

  /** If no patient has more upcoming than total appointments, the upcoming card never exceeds
      the total card. */
  lemma {:induction false} UpcomingAtMostTotal(patients: seq<Patient>)
    requires forall i :: 0 <= i < |patients| ==> patients[i].upcomingAppointments <= patients[i].totalAppointments
    ensures SumUpcoming(patients) <= SumTotal(patients)
  {
    if patients != [] {
      UpcomingAtMostTotal(patients[1..]);
    }
  }

  /** The test of the "active" card: an upcoming appointment, or a last visit within thirty days. */
  predicate IsActive(p: Patient, now: int)
  {
    p.upcomingAppointments > 0 || (p.lastAppointment.Some? && p.lastAppointment.value > now - ThirtyDaysMs)
  }

  /** The "active" card. */
  function ActiveCount(patients: seq<Patient>, now: int): (n: nat)
    ensures n <= |patients|
  {
    |Seqs.Filter((p: Patient) => IsActive(p, now), patients)|
  }

  /** A patient active now was active at every earlier moment: activity only lapses. */
  lemma ActivityOnlyLapses(p: Patient, earlier: int, later: int)
    requires earlier <= later && IsActive(p, later)
    ensures IsActive(p, earlier)
  {
  }

  /** The card counts each active patient once: one patient adds one exactly when active, and the
      counts of two lists add up. */
  lemma ActiveCountAdds(p: Patient, a: seq<Patient>, b: seq<Patient>, now: int)
    ensures ActiveCount([p], now) == (if IsActive(p, now) then 1 else 0)
    ensures ActiveCount(a + b, now) == ActiveCount(a, now) + ActiveCount(b, now)
  {
    assert [p][1..] == [];
    Seqs.FilterConcat((q: Patient) => IsActive(q, now), a, b);
  }

  /** As time passes the active card can only fall, never rise, for the same patient list. */
  lemma {:induction false} ActiveCountOnlyFalls(patients: seq<Patient>, earlier: int, later: int)
    requires earlier <= later
    ensures ActiveCount(patients, later) <= ActiveCount(patients, earlier)
  {
    if patients != [] {
      var p := patients[0];
      ActiveCountOnlyFalls(patients[1..], earlier, later);
      if IsActive(p, later) {
        ActivityOnlyLapses(p, earlier, later);
      }
      assert patients == [p] + patients[1..];
      ActiveCountAdds(p, [p], patients[1..], earlier);
      ActiveCountAdds(p, [p], patients[1..], later);
    }
  }

  /** A visit exactly thirty days ago no longer counts; one a millisecond later does. */
  lemma ThirtyDayBoundary(p: Patient, now: int)
    requires p.upcomingAppointments <= 0 && p.lastAppointment.Some?
    ensures IsActive(p, now) <==> p.lastAppointment.value >= now - 2592000000 + 1
  {
  }

  /** Where a non-doctor is sent from the patient list. */
  const RedirectTarget := "/"
}
