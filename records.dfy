/**
 * The rows of the hosted database's tables, as the pages read and write them, and the enums of
 * its schema (`user_role`, `appointment_status`, `announcement_category`).
 */
module Records {
  import opened Wrappers
  import Seqs

  datatype Role = Patient | Doctor

  /** Thirty days in milliseconds, the window of the pages' "recent" tests. */
  const ThirtyDaysMs: int := 30 * 24 * 60 * 60 * 1000

  /** The badge classes the pages fall back to for a status or category they do not know. */
  const GrayBadge := "bg-gray-100 text-gray-800"

  /** `profile?.role || 'patient'`: the role a page acts as, 'patient' until a profile is loaded. */
  function ViewerRole(profileRole: Option<Role>): (r: Role)
    ensures profileRole.Some? ==> r == profileRole.value
    ensures profileRole.None? ==> r == Patient
  {
    profileRole.GetOr(Patient)
  }

  /** The doctors-only pages' role effect, `if (profile?.role) { ... if (profile.role !== 'doctor')
      navigate(target) }`: a loaded profile that is not a doctor's is sent to the page's `target`;
      a doctor, or a page whose profile has not loaded, stays. */
  function DoctorsOnlyRedirect(role: Option<Role>, target: string): (r: Option<string>)
    ensures r.Some? <==> role.Some? && role.value != Doctor
    ensures r.Some? ==> r.value == target
  {
    match role
    case Some(Doctor) => None
    case Some(_) => Some(target)
    case None => None
  }

  /** `doctor_schedules.status`: 'available' | 'booked' | 'blocked'. */
  datatype SlotStatus = Available | Booked | Blocked
  {
    function Name(): string
    {
      match this
      case Available => "available"
      case Booked => "booked"
      case Blocked => "blocked"
    }
  }

  /** The statuses a slot form can hold: its selector offers only 'available' and 'blocked'. */
  type FormStatus = s: SlotStatus | s != Booked witness Available

  /** The form both slot dialogs edit; its status selector offers 'available' and 'blocked' only. */
  datatype SlotForm = SlotForm(date: string, startTime: string, endTime: string, status: FormStatus, notes: string)

  /** The browser's own checks before either slot dialog's `onSubmit` runs: the date input is
      `required` with `min` set to today, and both time inputs are `required`. Dates compare as
      their 'YYYY-MM-DD' text. */
  predicate InputsAccepted(f: SlotForm, today: string)
  {
    f.date != [] && Seqs.LexLeq(today, f.date) && f.startTime != [] && f.endTime != []
  }

  /** A row of `doctor_schedules`. */
  datatype Slot = Slot(
    id: string,
    doctorId: string,
    date: string,        // 'YYYY-MM-DD'
    startTime: string,   // 'HH:MM'
    endTime: string,
    status: SlotStatus,
    maxAppointments: int,
    notes: Option<string>)

  datatype AppointmentStatus = Scheduled | Completed | Cancelled | NoShow
  {
    function Name(): string
    {
      match this
      case Scheduled => "scheduled"
      case Completed => "completed"
      case Cancelled => "cancelled"
      case NoShow => "no_show"
    }
  }

  /** A row of `appointments`. */
  datatype Appointment = Appointment(
    id: string,
    doctorId: string,
    patientId: string,
    appointmentDate: string,  // the slot's date and start time, 'YYYY-MM-DDTHH:MM'
    durationMinutes: int,
    status: AppointmentStatus,
    notes: Option<string>,
    patientNotes: Option<string>,
    doctorNotes: Option<string>)

  datatype Category = HealthTip | News | Emergency | General
  {
    function Name(): string
    {
      match this
      case HealthTip => "health_tip"
      case News => "news"
      case Emergency => "emergency"
      case General => "general"
    }
  }

  /** A row of `announcements`; times are milliseconds since the epoch. */
  datatype Announcement = Announcement(
    id: string,
    title: string,
    content: string,
    category: Category,
    authorId: string,
    isPublished: bool,
    publishedAt: Option<int>,
    createdAt: int)

  /** One entry of a prescription's `medications` list. */
  datatype Medication = Medication(
    name: string,
    dosage: string,
    frequency: string,
    duration: string,
    instructions: string)

  /** A row of `prescriptions`. */
  datatype Prescription = Prescription(
    id: string,
    doctorId: string,
    patientId: string,
    patientName: string,
    patientPhone: Option<string>,
    diagnosis: string,
    medications: seq<Medication>,
    notes: Option<string>,
    createdAt: int)

  /** A row of `profiles`. */
  datatype Profile = Profile(
    userId: string,
    fullName: string,
    role: Role,
    phone: Option<string>,
    bio: Option<string>,
    dateOfBirth: Option<string>,
    gender: Option<string>,
    emergencyContact: Option<string>,
    specialization: Option<string>,
    qualifications: Option<string>,
    experienceYears: Option<int>,
    consultationFee: Option<int>)
}
