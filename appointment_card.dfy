/**
 * The card that shows one appointment (src/components/AppointmentCard.tsx): the status badge,
 * the other party, the notes each role may read, and the action buttons.
 */
module AppointmentCard {
  import opened Wrappers
  import opened Records
  import opened Strings

  /** The doctor or patient profile joined onto an appointment row. */
  datatype Party = Party(fullName: string, specialization: Option<string>, phone: Option<string>)

  /** An appointment as the card receives it: the row and the joined profiles, either of which
      may be missing. */
  datatype CardInput = CardInput(appointment: Appointment, doctor: Option<Party>, patient: Option<Party>)

  /** Which callbacks the parent passed. */
  datatype Handlers = Handlers(onReschedule: bool, onCancel: bool, onContact: bool)

  /** `getStatusColor`: blue, green and red for scheduled, completed and cancelled; gray for
      'no_show' and for anything else. */
  function StatusColor(status: string): (r: string)
    ensures r == GrayBadge <==> status !in {"scheduled", "completed", "cancelled"}
  {
    match status
    case "scheduled" => "bg-blue-100 text-blue-800"
    case "completed" => "bg-green-100 text-green-800"
    case "cancelled" => "bg-red-100 text-red-800"
    case "no_show" => GrayBadge
    case _ => GrayBadge
  }

  /** `canReschedule`. */
  predicate CanReschedule(a: Appointment)
  {
    a.status == Scheduled
  }

  /** `showContactInfo`: a doctor sees the patient, anyone else the doctor. */
  function Counterpart(viewer: Role, c: CardInput): (p: Option<Party>)
    ensures viewer == Doctor ==> p == c.patient
    ensures viewer == Patient ==> p == c.doctor
  {
    if viewer == Doctor then c.patient else c.doctor
  }

  /** The card's content. */
  datatype CardView = CardView(
    badge: string,
    color: string,
    counterpartName: Option<string>,
    counterpartSpecialization: Option<string>,
    contactButtons: bool,
    notes: Option<string>,
    patientNotes: Option<string>,
    doctorNotes: Option<string>,
    rescheduleButton: bool,
    cancelButton: bool,
    messageButton: bool)

  /** `x && ...` on an optional text: the text when it is set and non-empty. */
  function Shown(x: Option<string>, when: bool): (r: Option<string>)
    ensures r.Some? <==> when && Truthy(x)
    ensures r.Some? ==> r == x
  {
    if when && Truthy(x) then x else None
  }

  /** The card for the signed-in profile's role (`profileRole`, none until loaded). */
  function View(c: CardInput, profileRole: Option<Role>, h: Handlers): CardView
  {
    var viewer := ViewerRole(profileRole);
    var a := c.appointment;
    var other := Counterpart(viewer, c);
    var reachable := other.Some? && Truthy(other.value.phone) && h.onContact;
    CardView(
      BadgeText(a.status.Name()),
      StatusColor(a.status.Name()),
      if other.None? then None
      else if viewer == Patient then Some("Dr. " + other.value.fullName)
      else Some(other.value.fullName),
      if other.Some? && viewer == Patient && c.doctor.Some? then Shown(c.doctor.value.specialization, true) else None,
      reachable,
      Shown(a.notes, true),
      Shown(a.patientNotes, viewer == Doctor),
      Shown(a.doctorNotes, viewer == Patient),
      CanReschedule(a) && h.onReschedule,
      CanReschedule(a) && h.onCancel,
      reachable)
  }

  /** Only a scheduled appointment offers rescheduling or cancelling, and it offers each exactly
      when the parent handles it. */
  lemma ActionsOnlyWhileScheduled(c: CardInput, profileRole: Option<Role>, h: Handlers)
    ensures View(c, profileRole, h).rescheduleButton <==> c.appointment.status == Scheduled && h.onReschedule
    ensures View(c, profileRole, h).cancelButton <==> c.appointment.status == Scheduled && h.onCancel
  {
  }

  /** The patient's own notes are shown to doctors only and the doctor's notes to patients only;
      no one sees both. A card whose profile has not loaded acts for a patient. */
  lemma NotesAreRoleGated(c: CardInput, profileRole: Option<Role>, h: Handlers)
    ensures View(c, profileRole, h).patientNotes.Some? ==> profileRole == Some(Doctor)
    ensures View(c, profileRole, h).doctorNotes.Some? ==> profileRole != Some(Doctor)
    ensures View(c, profileRole, h).patientNotes.None? || View(c, profileRole, h).doctorNotes.None?
    ensures profileRole == Some(Doctor) && Truthy(c.appointment.patientNotes) ==>
              View(c, profileRole, h).patientNotes == c.appointment.patientNotes
    ensures profileRole != Some(Doctor) && Truthy(c.appointment.doctorNotes) ==>
              View(c, profileRole, h).doctorNotes == c.appointment.doctorNotes
  {
  }

  /** A doctor's card names the patient; anyone else's names the doctor with the 'Dr. ' prefix
      and, when set, the specialization. The contact and message buttons need a phone and a
      handler. */
  lemma CounterpartShown(c: CardInput, profileRole: Option<Role>, h: Handlers)
    ensures profileRole == Some(Doctor) ==>
              View(c, profileRole, h).counterpartName == (if c.patient.Some? then Some(c.patient.value.fullName) else None)
    ensures profileRole != Some(Doctor) ==>
              View(c, profileRole, h).counterpartName == (if c.doctor.Some? then Some("Dr. " + c.doctor.value.fullName) else None)
    ensures View(c, profileRole, h).counterpartSpecialization.Some? ==>
              profileRole != Some(Doctor) && c.doctor.Some? && View(c, profileRole, h).counterpartSpecialization == c.doctor.value.specialization
    ensures View(c, profileRole, h).messageButton == View(c, profileRole, h).contactButtons
    ensures View(c, profileRole, h).messageButton ==> h.onContact
  {
  }

  /** The badge: 'no_show' reads NO SHOW and the other statuses their upper-cased names. */
  lemma StatusBadges(s: AppointmentStatus)
    ensures s == NoShow ==> BadgeText(s.Name()) == ToUpper("no") + " " + ToUpper("show")
    ensures s != NoShow ==> BadgeText(s.Name()) == ToUpper(s.Name())
  {
    if s == NoShow {
      assert s.Name() == "no" + ['_'] + "show";
      BadgeTextOfTwoWords("no", "show");
    } else {
      assert '_' !in s.Name();
      BadgeTextOfWord(s.Name());
    }
  }

  /** Every status gets a colour of its own except that 'no_show' shares the fallback gray. */
  lemma StatusColors(s: AppointmentStatus, t: AppointmentStatus)
    ensures StatusColor(s.Name()) == GrayBadge <==> s == NoShow
    ensures s != t && StatusColor(s.Name()) == StatusColor(t.Name()) ==> s == NoShow || t == NoShow
  {
  }
}
