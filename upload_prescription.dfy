/**
 * The page on which a doctor writes a prescription (src/pages/UploadPrescription.tsx): the form
 * with its list of medications, the three-step validation, the patient lookup, the insert and
 * the WhatsApp notification that follows it.
 */
module UploadPrescription {
  import opened Wrappers
  import opened Records
  import opened Strings
  import Seqs
  import Database

  /** The five inputs of a medication entry. */
  datatype MedField = Name | Dosage | Frequency | Duration | Instructions

  function Get(m: Medication, f: MedField): string
  {
    match f
    case Name => m.name
    case Dosage => m.dosage
    case Frequency => m.frequency
    case Duration => m.duration
    case Instructions => m.instructions
  }

  /** `{ ...med, [field]: value }`. */
  function WithField(m: Medication, f: MedField, value: string): (r: Medication)
    ensures forall g :: Get(r, g) == if g == f then value else Get(m, g)
  {
    match f
    case Name => m.(name := value)
    case Dosage => m.(dosage := value)
    case Frequency => m.(frequency := value)
    case Duration => m.(duration := value)
    case Instructions => m.(instructions := value)
  }

  /** The entry `addMedication` appends and the form starts with. */
  const EmptyMedication := Medication("", "", "", "", "")

  /** `handleMedicationChange`: `medications.map((med, i) => i === index ? { ...med, [field]: value } : med)`. */
  function UpdateMedication(meds: seq<Medication>, index: int, f: MedField, value: string): (r: seq<Medication>)
    ensures |r| == |meds|
    ensures forall j, g :: 0 <= j < |meds| ==>
              Get(r[j], g) == if j == index && g == f then value else Get(meds[j], g)
    decreases |meds|
  {
    if meds == [] then []
    else [if index == 0 then WithField(meds[0], f, value) else meds[0]] + UpdateMedication(meds[1..], index - 1, f, value)
  }

  /** `medications.filter((_, i) => i !== index)`. */
  function WithoutIndex(meds: seq<Medication>, index: int): (r: seq<Medication>)
    ensures 0 <= index < |meds| ==> r == meds[..index] + meds[index + 1..]
    ensures !(0 <= index < |meds|) ==> r == meds
    decreases |meds|
  {
    if meds == [] then []
    else
      var rest := WithoutIndex(meds[1..], index - 1);
      if index == 0 then rest
      else
        assert index != 0 && 0 <= index < |meds| ==> rest == meds[1..][..index - 1] + meds[1..][index..];
        assert 0 <= index < |meds| ==> meds[..index] == [meds[0]] + meds[1..][..index - 1];
        [meds[0]] + rest
  }

  /** `removeMedication`: nothing happens while the list holds one entry; otherwise the entry at
      `index` goes and the others keep their order. The list therefore never becomes empty. */
  function RemoveMedication(meds: seq<Medication>, index: int): (r: seq<Medication>)
    ensures |meds| <= 1 ==> r == meds
    ensures |meds| > 1 && 0 <= index < |meds| ==> r == meds[..index] + meds[index + 1..]
    ensures |meds| > 1 && !(0 <= index < |meds|) ==> r == meds
    ensures |meds| >= 1 ==> |r| >= 1
  {
    if |meds| > 1 then WithoutIndex(meds, index) else meds
  }

  /** A removal takes out exactly one occurrence of the entry removed. */
  lemma RemoveTakesOneEntry(meds: seq<Medication>, index: int)
    requires |meds| > 1 && 0 <= index < |meds|
    ensures multiset(RemoveMedication(meds, index)) + multiset{meds[index]} == multiset(meds)
    ensures |RemoveMedication(meds, index)| == |meds| - 1
  {
    assert meds == meds[..index] + [meds[index]] + meds[index + 1..];
  }

  /** `med.name.trim() && med.dosage.trim() && med.frequency.trim() && med.duration.trim()`;
      instructions are optional. */
  predicate IsComplete(m: Medication)
  {
    !IsBlank(m.name) && !IsBlank(m.dosage) && !IsBlank(m.frequency) && !IsBlank(m.duration)
  }

  /** `validMedications`: the complete entries, in the order of the form. */
  function CompleteMedications(meds: seq<Medication>): (r: seq<Medication>)
    ensures forall m :: m in r <==> m in meds && IsComplete(m)
  {
    Seqs.Filter(IsComplete, meds)
  }

  /** The complete entries keep the order of the form and appear once each: a single entry is
      kept exactly when it is complete, and the entries of a list's first part come before those
      of the rest. */
  lemma CompleteMedicationsKeepOrder(a: seq<Medication>, b: seq<Medication>, m: Medication)
    ensures CompleteMedications([m]) == if IsComplete(m) then [m] else []
    ensures CompleteMedications(a + b) == CompleteMedications(a) + CompleteMedications(b)
  {
    assert [m][1..] == [];
    Seqs.FilterConcat(IsComplete, a, b);
  }

  /** A list whose entries are all complete is submitted as it is. */
  lemma AllCompleteKept(meds: seq<Medication>)
    requires forall i :: 0 <= i < |meds| ==> IsComplete(meds[i])
    ensures CompleteMedications(meds) == meds
  {
    Seqs.FilterKeepsAll(IsComplete, meds);
  }

  /** The form's contents. */
  datatype FormData = FormData(
    patientName: string,
    patientPhone: string,
    diagnosis: string,
    notes: string,
    medications: seq<Medication>)

  const EmptyForm := FormData("", "", "", "", [EmptyMedication])

  datatype FormError = MissingPatientName | MissingDiagnosis | NoCompleteMedication

  /** `validateForm`: the first failing check, in the order name, diagnosis, medications. */
  function Validate(data: FormData): Option<FormError>
  {
    if IsBlank(data.patientName) then Some(MissingPatientName)
    else if IsBlank(data.diagnosis) then Some(MissingDiagnosis)
    else if CompleteMedications(data.medications) == [] then Some(NoCompleteMedication)
    else None
  }

  /** Each error is reported exactly when every earlier check passes and its own fails; a form
      passes when name and diagnosis are filled in and at least one medication is complete. */
  lemma ValidateMeaning(data: FormData)
    ensures Validate(data) == Some(MissingPatientName) <==> IsBlank(data.patientName)
    ensures Validate(data) == Some(MissingDiagnosis) <==> !IsBlank(data.patientName) && IsBlank(data.diagnosis)
    ensures Validate(data) == Some(NoCompleteMedication) <==>
              !IsBlank(data.patientName) && !IsBlank(data.diagnosis) && forall m :: m in data.medications ==> !IsComplete(m)
    ensures Validate(data).None? <==>
              !IsBlank(data.patientName) && !IsBlank(data.diagnosis) && exists m :: m in data.medications && IsComplete(m)
  {
    var complete := CompleteMedications(data.medications);
    if complete != [] {
      assert complete[0] in complete;
    }
  }

  /** The form the page starts with never passes validation. */
  lemma EmptyFormIsInvalid()
    ensures Validate(EmptyForm) == Some(MissingPatientName)
  {
  }

  /** The result of the `maybeSingle()` lookup of the patient by name. */
  datatype Lookup = LookupFailed | NotFound | Found(userId: string)

  /** The profiles the lookup's filters keep: role 'patient' and exactly this full name. */
  function PatientsNamed(profiles: seq<Profile>, name: string): (r: seq<Profile>)
    ensures forall p :: p in r <==> p in profiles && p.fullName == name && p.role == Patient
  {
    Seqs.Filter((p: Profile) => p.fullName == name && p.role == Patient, profiles)
  }

  /** `maybeSingle()`: no row is "not found", one row is that patient, and more than one is an
      error; `reachable` is false when the backend cannot be reached. */
  function FindPatient(profiles: seq<Profile>, name: string, reachable: bool): Lookup
  {
    var matches := PatientsNamed(profiles, name);
    if !reachable || |matches| > 1 then LookupFailed
    else if |matches| == 0 then NotFound
    else Found(matches[0].userId)
  }

  /** The lookup finds a patient exactly when one profile has role 'patient' and that full name,
      and then it is that profile's user; it reports "not found" exactly when none has. */
  lemma FindPatientMeaning(profiles: seq<Profile>, name: string, reachable: bool)
    ensures var r := FindPatient(profiles, name, reachable);
            && (r.Found? <==> reachable && |PatientsNamed(profiles, name)| == 1)
            && (r.Found? ==> exists p :: p in profiles && p.fullName == name && p.role == Patient && p.userId == r.userId)
            && (r == NotFound <==> reachable && forall p :: p in profiles ==> !(p.fullName == name && p.role == Patient))
  {
    var matches := PatientsNamed(profiles, name);
    if matches != [] {
      assert matches[0] in matches;
    }
  }

  /** The row the insert writes: name and diagnosis trimmed, phone and notes trimmed or null, the
      complete medications only, the author as doctor and the looked-up patient's id. */
  function NewPrescription(id: string, doctorId: string, patientId: string, data: FormData, now: int): Prescription
  {
    Prescription(id, doctorId, patientId, Trim(data.patientName), OrNull(Trim(data.patientPhone)),
                 Trim(data.diagnosis), CompleteMedications(data.medications), OrNull(Trim(data.notes)), now)
  }

  /** What the row holds, field by field. */
  lemma NewPrescriptionFields(id: string, doctorId: string, patientId: string, data: FormData, now: int)
    ensures var p := NewPrescription(id, doctorId, patientId, data, now);
            && p.doctorId == doctorId && p.patientId == patientId
            && p.patientName == Trim(data.patientName) && p.diagnosis == Trim(data.diagnosis)
            && (p.patientPhone.None? <==> IsBlank(data.patientPhone))
            && (p.patientPhone.Some? ==> p.patientPhone.value == Trim(data.patientPhone))
            && (p.notes.None? <==> IsBlank(data.notes))
            && (p.notes.Some? ==> p.notes.value == Trim(data.notes))
            && p.medications == CompleteMedications(data.medications)
  {
    BlankIffTrimEmpty(data.patientPhone);
    BlankIffTrimEmpty(data.notes);
  }

  /** Every prescription written from a validated form names its patient and diagnosis and lists
      at least one complete medication. */
  lemma ValidatedPayloadIsSound(id: string, doctorId: string, patientId: string, data: FormData, now: int)
    requires Validate(data).None?
    ensures var p := NewPrescription(id, doctorId, patientId, data, now);
            && p.patientName != [] && p.diagnosis != []
            && |p.medications| >= 1
            && forall m :: m in p.medications ==> IsComplete(m)
  {
    ValidateMeaning(data);
    var m :| m in data.medications && IsComplete(m);
    assert m in CompleteMedications(data.medications);
    NewPrescriptionFields(id, doctorId, patientId, data, now);
    BlankIffTrimEmpty(data.patientName);
    BlankIffTrimEmpty(data.diagnosis);
  }

  /** A line of the notification's medication list. */
  function MedicationLine(m: Medication): string
  {
    "• " + m.name + " - " + m.dosage + " " + m.frequency + " for " + m.duration
  }

  /** The entries the notification lists: those whose name is not blank, complete or not. */
  function NamedMedications(meds: seq<Medication>): seq<Medication>
  {
    Seqs.Filter((m: Medication) => !IsBlank(m.name), meds)
  }

  /** The notification's medication list: one line per named entry, in the order of the form. */
  function MedicationLines(meds: seq<Medication>): seq<string>
  {
    var named := NamedMedications(meds);
    seq(|named|, k requires 0 <= k < |named| => MedicationLine(named[k]))
  }

  /** The list has a line for every entry with a name, including an incomplete one that the
      prescription itself leaves out, and no other line. */
  lemma MedicationLinesMeaning(meds: seq<Medication>)
    ensures |MedicationLines(meds)| <= |meds|
    ensures forall m :: m in meds && !IsBlank(m.name) ==> MedicationLine(m) in MedicationLines(meds)
    ensures forall l :: l in MedicationLines(meds) ==> exists m :: m in meds && !IsBlank(m.name) && l == MedicationLine(m)
  {
    var named := NamedMedications(meds);
    var lines := MedicationLines(meds);
    forall m | m in meds && !IsBlank(m.name)
      ensures MedicationLine(m) in lines
    {
      var k :| 0 <= k < |named| && named[k] == m;
      assert lines[k] == MedicationLine(m);
    }
    forall l | l in lines
      ensures exists m :: m in meds && !IsBlank(m.name) && l == MedicationLine(m)
    {
      var k :| 0 <= k < |lines| && lines[k] == l;
      assert named[k] in named;
    }
  }

  /** The notification about a saved prescription: the phone as typed and the form's medication
      entries, from which the number and the list are drawn. */
  datatype Notice = Notice(phone: string, medications: seq<Medication>)
  {
    /** The number the message goes to: the phone's digits only. */
    function Recipient(): string
    {
      DigitsOnly(phone)
    }

    /** The medication list of the message. */
    function Lines(): seq<string>
    {
      MedicationLines(medications)
    }
  }

  /** The notification: sent when the phone field is non-empty as typed. */
  function Notification(data: FormData): Option<Notice>
  {
    if data.patientPhone != [] then Some(Notice(data.patientPhone, data.medications)) else None
  }

  /** A notification goes out exactly when a phone was typed, even one without digits; it goes
      to a number made of digits only, and lists the entries of the form that have a name. */
  lemma NotificationMeaning(data: FormData)
    ensures Notification(data).Some? <==> data.patientPhone != []
    ensures Notification(data).Some? ==>
              && Notification(data).value.Recipient() == DigitsOnly(data.patientPhone)
              && (forall c :: c in Notification(data).value.Recipient() ==> IsDigit(c))
              && Notification(data).value.Lines() == MedicationLines(data.medications)
  {
    assert forall c :: c in DigitsOnly(data.patientPhone) ==> IsDigit(c);
  }

  /** Where a non-doctor is sent from the upload page: the prescription list. */
  const RedirectTarget := "/prescriptions"

  /** The inputs `handleInputChange` serves. */
  datatype TextField = PatientNameField | PatientPhoneField | DiagnosisField | NotesField

  datatype SubmitOutcome =
    | Invalid(error: FormError)
    | AuthenticationError
    | PatientLookupError
    | PatientNotFound
    | InsertError
    | Created(notice: Option<Notice>, redirect: string)

  class PrescriptionForm {
    var patientName: string
    var patientPhone: string
    var diagnosis: string
    var notes: string
    var medications: seq<Medication>

    /** The form always holds at least one medication entry. */
    predicate Valid()
      reads this
    {
      |medications| >= 1
    }

    function Data(): FormData
      reads this
    {
      FormData(patientName, patientPhone, diagnosis, notes, medications)
    }

    constructor ()
      ensures Valid() && Data() == EmptyForm
    {
      patientName, patientPhone, diagnosis, notes := "", "", "", "";
      medications := [EmptyMedication];
    }

    /** `handleInputChange`: one text field takes the value; nothing else changes. */
    method SetField(field: TextField, value: string)
      requires Valid()
      modifies this
      ensures Valid()
      ensures Data() == match field
                        case PatientNameField => old(Data()).(patientName := value)
                        case PatientPhoneField => old(Data()).(patientPhone := value)
                        case DiagnosisField => old(Data()).(diagnosis := value)
                        case NotesField => old(Data()).(notes := value)
    {
      match field
      case PatientNameField => patientName := value;
      case PatientPhoneField => patientPhone := value;
      case DiagnosisField => diagnosis := value;
      case NotesField => notes := value;
    }

    /** `handleMedicationChange`. */
    method ChangeMedication(index: int, f: MedField, value: string)
      requires Valid()
      modifies this
      ensures Valid()
      ensures Data() == old(Data()).(medications := UpdateMedication(old(medications), index, f, value))
    {
      medications := UpdateMedication(medications, index, f, value);
    }

    /** `addMedication`: one empty entry at the end; the others are untouched. */
    method AddMedication()
      requires Valid()
      modifies this
      ensures Valid()
      ensures Data() == old(Data()).(medications := old(medications) + [EmptyMedication])
    {
      medications := medications + [EmptyMedication];
    }

    /** `removeMedication`. */
    method RemoveMedicationAt(index: int)
      requires Valid()
      modifies this
      ensures Valid()
      ensures Data() == old(Data()).(medications := RemoveMedication(old(medications), index))
    {
      medications := RemoveMedication(medications, index);
    }

    /** `handleSubmit`. The steps run in order: validation, the signed-in user, the patient
        lookup (`lookupOk` is false when the backend cannot be reached), the insert (`writeOk` is
        the backend's answer). Only a successful insert writes a row, resets the form and leaves
        for the prescription list; every failure leaves the form and the tables as they were. */
    method Submit(user: Option<string>, db: Database.Tables, lookupOk: bool, writeOk: bool, newId: string, now: int)
      returns (outcome: SubmitOutcome)
      requires Valid()
      modifies this, db
      ensures Valid()
      ensures outcome.Invalid? <==> Validate(old(Data())).Some?
      ensures outcome.Invalid? ==> outcome.error == Validate(old(Data())).value
      ensures outcome == InsertError <==>
                Validate(old(Data())).None? && user.Some? &&
                FindPatient(old(db.profiles), Trim(old(patientName)), lookupOk).Found? && !writeOk
      ensures outcome.Created? ==> writeOk
      ensures outcome == AuthenticationError <==> Validate(old(Data())).None? && user.None?
      ensures outcome == PatientNotFound <==>
                Validate(old(Data())).None? && user.Some? &&
                FindPatient(old(db.profiles), Trim(old(patientName)), lookupOk) == NotFound
      ensures outcome == PatientLookupError <==>
                Validate(old(Data())).None? && user.Some? &&
                FindPatient(old(db.profiles), Trim(old(patientName)), lookupOk) == LookupFailed
      ensures !outcome.Created? ==> db.View() == old(db.View()) && Data() == old(Data())
      ensures outcome.Created? ==>
                && user.Some?
                && FindPatient(old(db.profiles), Trim(old(patientName)), lookupOk).Found?
                && db.View() == old(db.View()).(prescriptions := old(db.prescriptions) +
                     [NewPrescription(newId, user.value, FindPatient(old(db.profiles), Trim(old(patientName)), lookupOk).userId, old(Data()), now)])
                && outcome == Created(Notification(old(Data())), "/prescriptions")
                && Data() == EmptyForm
    {
      var data := Data();
      var check := Validate(data);
      var lookup := FindPatient(db.profiles, Trim(data.patientName), lookupOk);
      if check.Some? {
        outcome := Invalid(check.value);
      } else if user.None? {
        outcome := AuthenticationError;
      } else if lookup == LookupFailed {
        outcome := PatientLookupError;
      } else if lookup == NotFound {
        outcome := PatientNotFound;
      } else if !writeOk {
        outcome := InsertError;
      } else {
        db.prescriptions := db.prescriptions + [NewPrescription(newId, user.value, lookup.userId, data, now)];
        outcome := Created(Notification(data), "/prescriptions");
        Reset();
      }
    }

    /** The form cleared after a successful submission. */
    method Reset()
      modifies this
      ensures Valid() && Data() == EmptyForm
    {
      patientName, patientPhone, diagnosis, notes := "", "", "", "";
      medications := [EmptyMedication];
    }
  }
}
