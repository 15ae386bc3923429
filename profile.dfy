/**
 * The profile settings page (src/pages/Profile.tsx): the form filled from the stored profile,
 * the update it sends, and the initials of the avatar.
 */
module ProfileSettings {
  import opened Wrappers
  import opened Records
  import opened Strings

  /** The text fields of the form; numbers are edited as text. */
  datatype ProfileForm = ProfileForm(
    fullName: string,
    phone: string,
    bio: string,
    dateOfBirth: string,
    gender: string,
    emergencyContact: string,
    specialization: string,
    qualifications: string,
    experienceYears: string,
    consultationFee: string)

  const BlankForm := ProfileForm("", "", "", "", "", "", "", "", "", "")

  /** `n?.toString() || ''` for an optional number. */
  function NumberText(n: Option<int>): (t: string)
    ensures t == [] <==> n.None?
  {
    match n
    case None => ""
    case Some(v) => IntToString(v)
  }

  /** The form the page fills in once the profile has loaded: missing text becomes '' and a
      number its decimal notation. */
  function FormFromProfile(p: Profile): ProfileForm
  {
    ProfileForm(p.fullName, OrEmpty(p.phone), OrEmpty(p.bio), OrEmpty(p.dateOfBirth), OrEmpty(p.gender),
                OrEmpty(p.emergencyContact), OrEmpty(p.specialization), OrEmpty(p.qualifications),
                NumberText(p.experienceYears), NumberText(p.consultationFee))
  }

  /** The fields only a doctor's update carries. The fee is the text handed to `parseFloat`. */
  datatype DoctorUpdate = DoctorUpdate(
    specialization: Option<string>,
    qualifications: Option<string>,
    experienceYears: Option<int>,
    consultationFeeText: Option<string>)

  /** The `updates` object `handleSubmit` passes on. */
  datatype ProfileUpdate = ProfileUpdate(
    fullName: string,
    phone: Option<string>,
    bio: Option<string>,
    dateOfBirth: Option<string>,
    gender: Option<string>,
    emergencyContact: Option<string>,
    doctorFields: Option<DoctorUpdate>)

  /** `formData.experience_years ? parseInt(formData.experience_years) : null`; text that does not
      parse gives NaN, which the payload carries as null. */
  function ExperienceUpdate(text: string): Option<int>
  {
    if text == [] then None else ParseInt(text)
  }

  /** `handleSubmit`: the name as typed, every other common field with '' sent as null, and the
      doctor fields only when the loaded profile's role is 'doctor'. */
  function Updates(f: ProfileForm, role: Option<Role>): ProfileUpdate
  {
    var doctor :=
      if role == Some(Doctor) then
        Some(DoctorUpdate(OrNull(f.specialization), OrNull(f.qualifications),
                          ExperienceUpdate(f.experienceYears), OrNull(f.consultationFee)))
      else None;
    ProfileUpdate(f.fullName, OrNull(f.phone), OrNull(f.bio), OrNull(f.dateOfBirth), OrNull(f.gender),
                  OrNull(f.emergencyContact), doctor)
  }

  /** What the update holds: an empty field is sent as null and any other as typed, the name is
      never nulled, and the doctor fields are present exactly for a doctor. */
  lemma UpdatesMeaning(f: ProfileForm, role: Option<Role>)
    ensures var u := Updates(f, role);
            && u.fullName == f.fullName
            && u.phone == (if f.phone == [] then None else Some(f.phone))
            && u.bio == (if f.bio == [] then None else Some(f.bio))
            && u.dateOfBirth == (if f.dateOfBirth == [] then None else Some(f.dateOfBirth))
            && u.gender == (if f.gender == [] then None else Some(f.gender))
            && u.emergencyContact == (if f.emergencyContact == [] then None else Some(f.emergencyContact))
            && (u.doctorFields.Some? <==> role == Some(Doctor))
            && (u.doctorFields.Some? ==>
                  && u.doctorFields.value.specialization == (if f.specialization == [] then None else Some(f.specialization))
                  && u.doctorFields.value.qualifications == (if f.qualifications == [] then None else Some(f.qualifications))
                  && u.doctorFields.value.experienceYears == (if f.experienceYears == [] then None else ParseInt(f.experienceYears))
                  && u.doctorFields.value.consultationFeeText == (if f.consultationFee == [] then None else Some(f.consultationFee)))
  {
  }

  /** The form's submission: the browser refuses it while the `required` full name is empty;
      otherwise `handleSubmit` sends `Updates`, which then never blanks the name. */
  function SubmittedUpdate(f: ProfileForm, role: Option<Role>): (r: Option<ProfileUpdate>)
    ensures r.Some? <==> f.fullName != []
    ensures r.Some? ==> r.value == Updates(f, role) && r.value.fullName != []
  {
    if f.fullName == [] then None else Some(Updates(f, role))
  }

  /** An optional text column that is null or non-empty, as the update itself writes them. */
  predicate Stored(x: Option<string>)
  {
    x.None? || x.value != []
  }

  /** Saving the form unedited writes back what was loaded: every text column, the years of
      experience through `parseInt`, and the fee's decimal text. */
  lemma UneditedSaveKeepsProfile(p: Profile)
    requires Stored(p.phone) && Stored(p.bio) && Stored(p.dateOfBirth) && Stored(p.gender)
    requires Stored(p.emergencyContact) && Stored(p.specialization) && Stored(p.qualifications)
    ensures var u := Updates(FormFromProfile(p), Some(p.role));
            && u.fullName == p.fullName
            && u.phone == p.phone && u.bio == p.bio && u.dateOfBirth == p.dateOfBirth
            && u.gender == p.gender && u.emergencyContact == p.emergencyContact
            && (p.role == Doctor ==>
                  && u.doctorFields.Some?
                  && u.doctorFields.value.specialization == p.specialization
                  && u.doctorFields.value.qualifications == p.qualifications
                  && u.doctorFields.value.experienceYears == p.experienceYears
                  && (u.doctorFields.value.consultationFeeText.Some? <==> p.consultationFee.Some?)
                  && (p.consultationFee.Some? ==>
                        u.doctorFields.value.consultationFeeText.value == IntToString(p.consultationFee.value)))
            && (p.role == Patient ==> u.doctorFields.None?)
  {
    OrNullOrEmpty(p.phone);
    OrNullOrEmpty(p.bio);
    OrNullOrEmpty(p.dateOfBirth);
    OrNullOrEmpty(p.gender);
    OrNullOrEmpty(p.emergencyContact);
    OrNullOrEmpty(p.specialization);
    OrNullOrEmpty(p.qualifications);
    if p.experienceYears.Some? {
      ParseIntToString(p.experienceYears.value);
    }
  }

  /** The inputs `handleInputChange` serves. */
  datatype FormField =
    | FullNameField | PhoneField | BioField | DateOfBirthField | GenderField | EmergencyContactField
    | SpecializationField | QualificationsField | ExperienceYearsField | ConsultationFeeField

  /** `{ ...prev, [field]: value }`. */
  function WithField(f: ProfileForm, field: FormField, value: string): ProfileForm
  {
    match field
    case FullNameField => f.(fullName := value)
    case PhoneField => f.(phone := value)
    case BioField => f.(bio := value)
    case DateOfBirthField => f.(dateOfBirth := value)
    case GenderField => f.(gender := value)
    case EmergencyContactField => f.(emergencyContact := value)
    case SpecializationField => f.(specialization := value)
    case QualificationsField => f.(qualifications := value)
    case ExperienceYearsField => f.(experienceYears := value)
    case ConsultationFeeField => f.(consultationFee := value)
  }

  /** Editing a field and saving sends that field's new value; an edit to a doctor field leaves a
      patient's update as it was. */
  lemma EditedPhoneIsSent(f: ProfileForm, role: Option<Role>, value: string)
    ensures Updates(WithField(f, PhoneField, value), role).phone == OrNull(value)
    ensures Updates(WithField(f, PhoneField, value), role).fullName == f.fullName
  {
  }

  lemma DoctorFieldsIgnoredForPatients(f: ProfileForm, field: FormField, value: string, role: Option<Role>)
    requires field in {SpecializationField, QualificationsField, ExperienceYearsField, ConsultationFeeField}
    requires role != Some(Doctor)
    ensures Updates(WithField(f, field, value), role) == Updates(f, role)
  {
  }

  /** The page's form state. */
  class ProfileFormState {
    var form: ProfileForm

    constructor ()
      ensures form == BlankForm
    {
      form := BlankForm;
    }

    /** The effect on `profile`: a loaded profile replaces the whole form; none leaves it. */
    method Load(profile: Option<Profile>)
      modifies this
      ensures profile.Some? ==> form == FormFromProfile(profile.value)
      ensures profile.None? ==> form == old(form)
    {
      if profile.Some? {
        form := FormFromProfile(profile.value);
      }
    }

    /** `handleInputChange`. */
    method Edit(field: FormField, value: string)
      modifies this
      ensures form == WithField(old(form), field, value)
    {
      form := WithField(form, field, value);
    }
  }

  /** The first characters of the parts; `n[0]` of an empty part is `undefined`, which `join`
      writes as nothing. */
  function FirstChars(parts: seq<string>): (r: string)
    ensures |r| <= |parts|
  {
    if parts == [] then []
    else (if parts[0] == [] then [] else [parts[0][0]]) + FirstChars(parts[1..])
  }

  lemma {:induction false} FirstCharsConcat(a: seq<string>, b: seq<string>)
    ensures FirstChars(a + b) == FirstChars(a) + FirstChars(b)
  {
    if a == [] {
      assert a + b == b;
    } else {
      assert (a + b)[1..] == a[1..] + b;
      FirstCharsConcat(a[1..], b);
    }
  }

  /** `getInitials`: the first character of each space-separated part, upper-cased. */
  function Initials(name: string): string
  {
    ToUpper(FirstChars(Split(name, ' ')))
  }

  /** A word without spaces gives its first letter, upper-cased; an empty one gives nothing. */
  lemma InitialsOfWord(w: string)
    requires ' ' !in w
    ensures w == [] ==> Initials(w) == []
    ensures w != [] ==> Initials(w) == [UpperChar(w[0])]
  {
    SplitWithoutSeparator(w, ' ');
    assert FirstChars([w]) == (if w == [] then [] else [w[0]]) + FirstChars([]);
  }

  /** The initials of words joined by a space are the initials of each in turn; runs of spaces
      add nothing. */
  lemma InitialsOfJoin(a: string, b: string)
    ensures Initials(a + " " + b) == Initials(a) + Initials(b)
  {
    assert a + " " + b == a + [' '] + b;
    SplitAroundSeparator(a, b, ' ');
    FirstCharsConcat(Split(a, ' '), Split(b, ' '));
    ToUpperConcat(FirstChars(Split(a, ' ')), FirstChars(Split(b, ' ')));
  }

  /** The avatar's fallback text: the initials of the full name, or of 'User' while it is empty. */
  function AvatarText(fullName: string): string
  {
    Initials(if fullName == [] then "User" else fullName)
  }

  lemma InitialsOfUser(placeholder: string)
    requires placeholder == "User"
    ensures Initials(placeholder) == "U"
  {
    assert ' ' !in placeholder;
    InitialsOfWord(placeholder);
  }

  /** A profile without a name shows 'U'; two names show their two initials. */
  lemma AvatarTextCases(fullName: string, first: string, last: string)
    ensures fullName == [] ==> AvatarText(fullName) == "U"
    ensures fullName == first + " " + last && first != [] && last != [] && ' ' !in first && ' ' !in last ==>
              AvatarText(fullName) == [UpperChar(first[0]), UpperChar(last[0])]
  {
    if fullName == [] {
      InitialsOfUser("User");
    }
    if fullName == first + " " + last && first != [] && last != [] && ' ' !in first && ' ' !in last {
      InitialsOfJoin(first, last);
      InitialsOfWord(first);
      InitialsOfWord(last);
    }
  }
}
