# Health_P telehealth front end — a Dafny model

This project models the page logic of Health_P, a telehealth web application in which patients
book appointments with doctors, read announcements and see their prescriptions, and doctors
manage a schedule of time slots, post announcements, write prescriptions and look after their
patients. The application is a React front end over a hosted Postgres database. The model
covers what its pages and dialogs decide:

- the rows they read: filters and sort orders of the queries;
- the rows they write: inserts, updates and deletes, and the order in which their checks run;
- the form state they keep and how each input changes it;
- what a card, badge or button shows for a given row and role;
- where the route guard, the navigation bar and the landing section send a user.

Files, one module each:

| file | models |
|---|---|
| `wrappers.dfy` | `Option` |
| `seqs.dfy` | order-preserving filter, stable insertion sort, lexicographic order of strings |
| `strings.dfy` | the JavaScript string operations the pages use: `trim`, `toLowerCase`/`toUpperCase`, `includes`, `replace` of the first occurrence, `split`/`join`, `parseInt`, `x \|\| null`, `x \|\| ''` |
| `records.dfy` | the rows of the `profiles`, `doctor_schedules`, `appointments`, `announcements` and `prescriptions` tables and their enums |
| `database.dfy` | the tables as one mutable object (`Tables`) that the dialogs write |
| `protected_route.dfy` | `ProtectedRoute` |
| `navigation.dfy` | `Navigation` (items, route map, mobile menu) |
| `hero.dfy` | `Hero` (service cards and their buttons) |
| `appointment_card.dfy` | `AppointmentCard` |
| `add_time_slot.dfy`, `edit_time_slot.dfy` | `AddTimeSlotDialog`, `EditTimeSlotDialog` |
| `book_appointment.dfy` | `BookAppointmentDialog` |
| `schedule.dfy` | the `Schedule` page |
| `patients.dfy` | the `Patients` page |
| `doctors.dfy` | the `Doctors` page |
| `announcements.dfy`, `post_announcement.dfy` | the `Announcements` and `PostAnnouncement` pages |
| `prescriptions.dfy`, `upload_prescription.dfy` | the `Prescriptions` and `UploadPrescription` pages |
| `profile.dfy` | the `Profile` page |

Components whose state changes step by step are classes:

- the form of each dialog and page (`AddSlotDialog`, `EditSlotDialog`, `BookingDialog`, `AnnouncementForm`, `PrescriptionForm`, `ProfileFormState`);
- the mobile menu (`MobileMenu`);
- the database (`Tables`).

Their methods state the whole new state. Each one is written against a function of the old
state, and the lemmas next to that function prove the promised properties. Queries, filters and
rendering decisions are functions, with lemmas for what the page promises. Several things are
parameters rather than modelled:

- the backend's success or failure (`writeOk`, `insertOk`, `updateOk`, `lookupOk`);
- the clock (`now`, `today`);
- ids the database assigns (`newId`);
- the signed-in user (`user`) and the loaded profile's role (`profileRole`).

## Model

| member | source | states |
|---|---|---|
| Records.ViewerRole | src/components/AppointmentCard.tsx:35 | a page acts for the loaded profile's role, and for a patient while no profile is loaded |
| ProtectedRoute.GuardMeaning | src/components/ProtectedRoute.tsx:13-32 | the loading screen exactly while auth loads; '/auth' exactly when loaded without a user; '/' exactly when a user lacks the required role; the page otherwise |
| ProtectedRoute.RequiredRoleIsEnforced | src/components/ProtectedRoute.tsx:28-30 | a role-restricted page is shown only to a signed-in user whose loaded profile has that role; a user without a loaded profile is sent to '/' |
| ProtectedRoute.UnrestrictedPagesNeedOnlyAUser | src/components/ProtectedRoute.tsx:24-32 | without a required role every signed-in user gets the page |
| Navigation.FallbackOnlyForUnknownIds | src/components/Navigation.tsx:45-58 | an item's route is '/' exactly when its id is not in the route map (ids naming prototype members excepted, see Left out) |
| Navigation.RenderedItemsAreRouted | src/components/Navigation.tsx:27-58 | each role sees five items, every one has a mapped route, and the five routes differ |
| Navigation.MobileLinks | src/components/Navigation.tsx:193-207 | the mobile menu lists links exactly when a user is signed in; then it lists every item of the desktop bar, in the bar's order, and nothing else |
| Navigation.MobileMenu.constructor | src/components/Navigation.tsx:24 | the mobile menu starts closed |
| Navigation.MobileMenu.Toggle | src/components/Navigation.tsx:138 | the menu button flips the menu |
| Navigation.MobileMenu.Follow | src/components/Navigation.tsx:196-200 | following a link closes the menu and goes to the item's route |
| Hero.ActionMeaning | src/components/Hero.tsx:36-55 | a card's button navigates exactly when its title is in the route map, and opens the WhatsApp booking otherwise |
| Hero.RenderedCardsNavigate | src/components/Hero.tsx:57-111 | each role sees four cards; all of them navigate (the WhatsApp fallback is unreachable from a card) and to four different pages |
| Hero.CardsAgreeWithNavigation | src/components/Hero.tsx:36-111 | every page a card leads to is also reachable from the same role's navigation bar |
| Hero.PrimaryRoute | src/components/Hero.tsx:175 | the primary button goes where the role's first card goes |
| AppointmentCard.StatusColor | src/components/AppointmentCard.tsx:37-45 | the gray class is returned exactly for a status other than scheduled, completed and cancelled |
| AppointmentCard.StatusColors | src/components/AppointmentCard.tsx:37-45 | among the four statuses only 'no_show' is gray, and two statuses share a colour only through 'no_show' |
| AppointmentCard.StatusBadges | src/components/AppointmentCard.tsx:76 | 'no_show' reads NO SHOW and every other status its upper-cased name |
| AppointmentCard.Counterpart | src/components/AppointmentCard.tsx:48 | a doctor sees the patient, a patient the doctor |
| AppointmentCard.CounterpartShown | src/components/AppointmentCard.tsx:83-115 | a doctor's card names the patient; a patient's card names 'Dr. ' and the doctor, and shows only the doctor's specialization; contact buttons need a phone and a handler |
| AppointmentCard.NotesAreRoleGated | src/components/AppointmentCard.tsx:129-145 | patient notes are shown to doctors only and doctor notes to non-doctors only, never both, and a set note is shown to its reader |
| AppointmentCard.ActionsOnlyWhileScheduled | src/components/AppointmentCard.tsx:149-170 | reschedule and cancel are offered exactly for a scheduled appointment whose parent handles them |
| AddTimeSlot.DefaultForm | src/components/AddTimeSlotDialog.tsx:23-29 | the initial form is the selected date (today when none), 09:00 to 09:30, available, no notes |
| AddTimeSlot.NewSlotRow | src/components/AddTimeSlotDialog.tsx:37-46 | the inserted row carries the doctor and the form's fields, an empty note as null, and is never booked |
| AddTimeSlot.AddSlotDialog.constructor | src/components/AddTimeSlotDialog.tsx:23-29 | the dialog starts with the default form |
| AddTimeSlot.AddSlotDialog.Edit | src/components/AddTimeSlotDialog.tsx:96-146 | the inputs replace the form and cannot select 'booked' |
| AddTimeSlot.AddSlotDialog.Submit | src/components/AddTimeSlotDialog.tsx:31-135 | the browser first refuses an empty date or time or a date before today; then only a signed-in user's successful insert appends the row, closes the dialog and resets the form from the `selectedDate` prop current at that moment; otherwise tables and form are unchanged |
| EditTimeSlot.FormFromSlot | src/components/EditTimeSlotDialog.tsx:40-50 | the form copies date and times, shows a booked slot as available, and a missing note as '' |
| EditTimeSlot.ApplyForm | src/components/EditTimeSlotDialog.tsx:58-67 | the update writes the five form columns (empty note as null) and keeps id, doctor and capacity |
| EditTimeSlot.SaveUntouchedForm | src/components/EditTimeSlotDialog.tsx:40-67 | saving an unedited form only re-opens a booked slot and nulls an empty note |
| EditTimeSlot.BookedSlotReopens | src/components/EditTimeSlotDialog.tsx:46 | saving the form of a booked slot makes that slot available again |
| EditTimeSlot.UpdateById | src/components/EditTimeSlotDialog.tsx:58-67 | rows with the slot's id are updated, every other row is kept in place |
| EditTimeSlot.DeleteById | src/components/EditTimeSlotDialog.tsx:94-97 | the delete removes exactly the rows with the slot's id |
| EditTimeSlot.DeleteKeepsOrder | src/components/EditTimeSlotDialog.tsx:94-97 | the delete distributes over a split of the table, so the remaining rows keep their order |
| EditTimeSlot.EditSlotDialog.constructor | src/components/EditTimeSlotDialog.tsx:32-38 | the form starts empty and available |
| EditTimeSlot.EditSlotDialog.LoadSlot | src/components/EditTimeSlotDialog.tsx:40-50 | a new slot reloads the form; no slot leaves it |
| EditTimeSlot.EditSlotDialog.SelectStatus | src/components/EditTimeSlotDialog.tsx:149-150 | the status can be changed only for a slot that is not booked |
| EditTimeSlot.EditSlotDialog.EditFields | src/components/EditTimeSlotDialog.tsx:139-196 | date, times and notes take the typed values; the status is kept |
| EditTimeSlot.EditSlotDialog.Submit | src/components/EditTimeSlotDialog.tsx:52-185 | the browser first refuses an empty date or time or a date before today, so a past-dated slot is not saved as it stands; then with a slot and a successful update the row is updated and the dialog closes; otherwise nothing changes |
| EditTimeSlot.EditSlotDialog.ClickDelete | src/components/EditTimeSlotDialog.tsx:89-117 | a booked slot can never be deleted; otherwise a successful delete removes its rows and closes the dialog |
| BookAppointment.SlotOrderIsTotalPreorder | src/components/BookAppointmentDialog.tsx:61-62 | ordering by date then start time is total and transitive |
| BookAppointment.OfferedSlotsCorrect | src/components/BookAppointmentDialog.tsx:53-63 | only this doctor's available slots dated today or later are offered, each at most as often as it is stored, in (date, time) order, at most 20; a slot left out means 20 no-later ones are shown |
| BookAppointment.NewAppointment | src/components/BookAppointmentDialog.tsx:95-106 | the appointment is for the slot's date and time, 30 minutes, scheduled, with the trimmed notes or null when blank |
| BookAppointment.MarkBooked | src/components/BookAppointmentDialog.tsx:117-123 | the slot's rows become booked only when it takes one appointment; every other row is kept |
| BookAppointment.BookingFlipsOnlySingleSlots | src/components/BookAppointmentDialog.tsx:117-123 | the booked slot's status flips exactly when its capacity is one |
| BookAppointment.AfterBooking | src/components/BookAppointmentDialog.tsx:97-123 | a booking appends the appointment and touches slots only if the slot update succeeded |
| BookAppointment.BookingDialog.constructor | src/components/BookAppointmentDialog.tsx:37-41 | the dialog starts closed with no slot and no notes |
| BookAppointment.BookingDialog.Select | src/components/BookAppointmentDialog.tsx:245 | a click selects the slot |
| BookAppointment.BookingDialog.EditNotes | src/components/BookAppointmentDialog.tsx:281 | the notes take the typed text |
| BookAppointment.BookingDialog.Book | src/components/BookAppointmentDialog.tsx:82-133 | rejected without a slot, a user or the patient role; nothing changes on a failed insert; on success the tables advance by one booking and the dialog resets |
| Schedule.DaySlots | src/pages/Schedule.tsx:94 | the day's list holds exactly the slots of the selected date |
| Schedule.StartsNoLaterIsTotalPreorder | src/pages/Schedule.tsx:188 | the start-time comparison is total and transitive |
| Schedule.DayViewCorrect | src/pages/Schedule.tsx:187-188 | the cards are a permutation of the day's slots, sorted by start time |
| Schedule.StatusCountsAddUp | src/pages/Schedule.tsx:294-326 | the three summary counts add up to the slots of the day |
| Schedule.StatusColor | src/pages/Schedule.tsx:96-102 | the gray class is returned exactly for an unknown status |
| Schedule.StatusColorsDistinct | src/pages/Schedule.tsx:96-102 | the three statuses get three different colours |
| Schedule.SlotCardBody | src/pages/Schedule.tsx:225-276 | patient details appear exactly on a booked slot's card |
| Patients.AgeIsCompletedYears | src/pages/Patients.tsx:114-125 | the age is the number of birthdays reached: that anniversary is on or before today and the next is after |
| Patients.AgeIsUnique | src/pages/Patients.tsx:114-125 | no other number of years has that property |
| Patients.MatchesSearchMeaning | src/pages/Patients.tsx:102-107 | a patient matches when the term occurs in the lowercased name or email, or in the phone as typed |
| Patients.NameSearchIgnoresCase | src/pages/Patients.tsx:104 | a name containing the term is found by any text that differs from the term only in letter case |
| Patients.SearchPatients | src/pages/Patients.tsx:101-111 | an empty term lists everyone; otherwise exactly the matching patients |
| Patients.SearchPreservesOrder | src/pages/Patients.tsx:103-108 | the search keeps the list order |
| Patients.SumsOfConcat | src/pages/Patients.tsx:200-216 | the upcoming and total cards add up over any split of the list |
| Patients.UpcomingAtMostTotal | src/pages/Patients.tsx:200-216 | the upcoming card never exceeds the total card when no record has more upcoming than total |
| Patients.ActiveCount | src/pages/Patients.tsx:232-234 | the active count never exceeds the number of patients |
| Patients.ActiveCountAdds | src/pages/Patients.tsx:232-234 | one patient adds one to the card exactly when active, and the counts of two lists add up |
| Patients.ActiveCountOnlyFalls | src/pages/Patients.tsx:232-234 | for the same patients, the active card at a later moment is never larger than at an earlier one |
| Patients.ActivityOnlyLapses | src/pages/Patients.tsx:232-234 | a patient active now was active at every earlier time |
| Patients.ThirtyDayBoundary | src/pages/Patients.tsx:233 | without upcoming visits, a patient is active exactly when the last visit is strictly within thirty days |
| Doctors.NameOrderIsTotalPreorder | src/pages/Doctors.tsx:63 | ordering by full name is total and transitive |
| Doctors.FetchDoctorsCorrect | src/pages/Doctors.tsx:57-75 | the directory is a permutation of the doctor profiles, in ascending name order |
| Doctors.SearchDoctors | src/pages/Doctors.tsx:44-55 | an empty term lists every doctor; otherwise exactly those whose name, specialization or bio contains it, ignoring case |
| Doctors.SearchPreservesOrder | src/pages/Doctors.tsx:46-51 | the search keeps the directory order |
| Doctors.SpecializationSearchIgnoresCase | src/pages/Doctors.tsx:48 | a specialization containing the term is found by any text that differs from the term only in letter case |
| Doctors.SupportMessage | src/pages/Doctors.tsx:84 | the support message opens with the greeting and the doctor's name and ends with the closing |
| Doctors.SupportMessageNamesSpecialization | src/pages/Doctors.tsx:84 | the parenthesised specialization follows the name exactly when it is set and non-empty |
| Doctors.CallDoctor | src/pages/Doctors.tsx:88-98 | the call dials 'tel:' and the phone exactly when a phone is set, and reports it unavailable otherwise |
| Announcements.NewestFirstIsTotalPreorder | src/pages/Announcements.tsx:53 | newest-first with unpublished times first is total and transitive |
| Announcements.FetchAnnouncementsCorrect | src/pages/Announcements.tsx:44-64 | the board is a permutation of the published rows, with no draft, newest first |
| Announcements.FilterByTab | src/pages/Announcements.tsx:72-74 | 'all' shows every announcement and a category tab exactly those of its category |
| Announcements.CategoryTabsPartition | src/pages/Announcements.tsx:72-74 | the four category tabs together hold as many announcements as 'all' |
| Announcements.HealthTipLabel | src/pages/Announcements.tsx:174 | the health-tip badge reads HEALTH TIP |
| Announcements.PlainLabels | src/pages/Announcements.tsx:174 | the other badges are the upper-cased category names |
| Announcements.CategoryColor | src/pages/Announcements.tsx:86-94 | the gray class is returned exactly for 'general' and unknown categories |
| Announcements.EmptyTabMessages | src/pages/Announcements.tsx:148-151 | the 'All' tab reads "No announcements have been posted yet."; the health-tip tab names 'health tip' with a space; every other category its plain name |
| Announcements.Card | src/pages/Announcements.tsx:171-202 | the card shows badge, colour, publication (or creation) date and title; its paragraphs rejoin to the content; the emergency notice appears exactly for emergencies |
| Announcements.ParagraphsOfLines | src/pages/Announcements.tsx:195-199 | content without a line break is one paragraph, and each break starts another |
| PostAnnouncement.NewAnnouncement | src/pages/PostAnnouncement.tsx:71-80 | the row has trimmed title and content, the author, and a publication time exactly when published |
| PostAnnouncement.SuccessMessage | src/pages/PostAnnouncement.tsx:91-96 | the success toast distinguishes publishing from saving a draft |
| PostAnnouncement.EnabledPostIsStoredTrimmed | src/pages/PostAnnouncement.tsx:272 | a post the enabled button sends is stored with non-empty title and content that neither start nor end with whitespace |
| PostAnnouncement.AnnouncementForm.constructor | src/pages/PostAnnouncement.tsx:20-25 | the form starts empty, 'general', unpublished |
| PostAnnouncement.AnnouncementForm.SetTitle | src/pages/PostAnnouncement.tsx:166 | the title takes the typed value; the other fields are kept |
| PostAnnouncement.AnnouncementForm.SetContent | src/pages/PostAnnouncement.tsx:219 | the content takes the typed value; the other fields are kept |
| PostAnnouncement.AnnouncementForm.SetCategory | src/pages/PostAnnouncement.tsx:175 | the category takes the chosen value; the other fields are kept |
| PostAnnouncement.AnnouncementForm.SetPublished | src/pages/PostAnnouncement.tsx:254 | the publish flag takes the checkbox value; the other fields are kept |
| PostAnnouncement.AnnouncementForm.Submit | src/pages/PostAnnouncement.tsx:49-107 | blank fields, then a missing user, then a failed insert each stop the post with nothing changed; only success appends the row, resets the form and returns to the board |
| Prescriptions.RecencyOnlyLapses | src/pages/Prescriptions.tsx:90-94 | recency only lapses, and lasts exactly thirty days less a millisecond |
| Prescriptions.Recency | src/pages/Prescriptions.tsx:187-188 | the badge reads ACTIVE with green, and the refill reminder shows, exactly for a recent prescription; OLDER and gray otherwise |
| Prescriptions.NameFilter | src/pages/Prescriptions.tsx:53 | the name filter is the profile's name, or the text 'undefined' when none is loaded |
| Prescriptions.NewestFirstIsTotalPreorder | src/pages/Prescriptions.tsx:58 | newest-first is total and transitive |
| Prescriptions.FetchPrescriptionsCorrect | src/pages/Prescriptions.tsx:44-69 | the list is a permutation of the rows the role filter admits, newest first |
| Prescriptions.ViewersSeeTheirOwn | src/pages/Prescriptions.tsx:51-56 | a doctor sees only prescriptions they wrote; a patient sees every prescription made out to their id |
| Prescriptions.InstructionText | src/pages/Prescriptions.tsx:222 | missing instructions read 'As directed' |
| Records.DoctorsOnlyRedirect | src/pages/UploadPrescription.tsx:38-51 | a loaded profile that is not a doctor's is sent to the page's target and a doctor or an unloaded profile stays; the upload page's target is the prescription list, and the same effect guards the patient list (src/pages/Patients.tsx:76-89, target '/') and the posting page (src/pages/PostAnnouncement.tsx:27-40, target the board), each page's `RedirectTarget` |
| UploadPrescription.WithField | src/pages/UploadPrescription.tsx:63-64 | the chosen field takes the value and the other four are kept |
| UploadPrescription.UpdateMedication | src/pages/UploadPrescription.tsx:60-67 | exactly the chosen field of the chosen entry changes; the length is kept |
| UploadPrescription.WithoutIndex | src/pages/UploadPrescription.tsx:80 | filtering out an index in range removes that entry, keeping the others in order; an index out of range removes nothing |
| UploadPrescription.RemoveMedication | src/pages/UploadPrescription.tsx:76-83 | the last remaining entry is never removed, so the list never empties |
| UploadPrescription.RemoveTakesOneEntry | src/pages/UploadPrescription.tsx:76-83 | a removal takes out exactly one occurrence of the removed entry |
| UploadPrescription.CompleteMedications | src/pages/UploadPrescription.tsx:104-106 | the valid medications are exactly the entries with name, dosage, frequency and duration filled in |
| UploadPrescription.CompleteMedicationsKeepOrder | src/pages/UploadPrescription.tsx:104-106 | the filter keeps one entry exactly when it is complete and distributes over concatenation, so the submitted entries keep the form's order and are not repeated |
| UploadPrescription.AllCompleteKept | src/pages/UploadPrescription.tsx:104-106 | a form whose entries are all complete submits them all, unchanged |
| UploadPrescription.ValidateMeaning | src/pages/UploadPrescription.tsx:85-118 | each error is reported exactly when the earlier checks pass and its own fails; a form passes exactly with name, diagnosis and one complete medication |
| UploadPrescription.EmptyFormIsInvalid | src/pages/UploadPrescription.tsx:28-36 | the initial form fails on the patient name |
| UploadPrescription.PatientsNamed | src/pages/UploadPrescription.tsx:141-146 | the lookup keeps exactly the patient profiles with that full name |
| UploadPrescription.FindPatientMeaning | src/pages/UploadPrescription.tsx:141-164 | the patient is found exactly when one patient profile has the name, and is that profile's user; "not found" exactly when none has |
| UploadPrescription.NewPrescriptionFields | src/pages/UploadPrescription.tsx:166-176 | the row has trimmed name and diagnosis, trimmed or null phone and notes, the complete medications, the author and the looked-up patient |
| UploadPrescription.ValidatedPayloadIsSound | src/pages/UploadPrescription.tsx:166-176 | a row written from a validated form has a non-empty name and diagnosis and at least one medication, all complete |
| UploadPrescription.MedicationLinesMeaning | src/pages/UploadPrescription.tsx:194-197 | the message lists every entry with a name, complete or not, and nothing else |
| UploadPrescription.NotificationMeaning | src/pages/UploadPrescription.tsx:193-210 | a notification goes out exactly when a phone was typed, to its digits only, with the medication lines |
| UploadPrescription.PrescriptionForm.constructor | src/pages/UploadPrescription.tsx:28-36 | the form starts empty with one empty medication |
| UploadPrescription.PrescriptionForm.SetField | src/pages/UploadPrescription.tsx:53-58 | one text field takes the value; the rest of the form is kept |
| UploadPrescription.PrescriptionForm.ChangeMedication | src/pages/UploadPrescription.tsx:60-67 | the medications become the updated list; the form keeps at least one entry |
| UploadPrescription.PrescriptionForm.AddMedication | src/pages/UploadPrescription.tsx:69-74 | one empty entry is appended |
| UploadPrescription.PrescriptionForm.RemoveMedicationAt | src/pages/UploadPrescription.tsx:76-83 | the medications become the list with the entry removed, never empty |
| UploadPrescription.PrescriptionForm.Submit | src/pages/UploadPrescription.tsx:120-237 | validation, then the user, then the lookup, then the insert each stop the submit with nothing changed, a failed insert reporting InsertError; only a successful insert appends the row for the found patient, notifies, resets and returns to the list |
| UploadPrescription.PrescriptionForm.Reset | src/pages/UploadPrescription.tsx:213-222 | after a successful submission the form is empty again, with one empty medication |
| ProfileSettings.NumberText | src/pages/Profile.tsx:39-40 | a missing number becomes '' and a present one non-empty text |
| ProfileSettings.UpdatesMeaning | src/pages/Profile.tsx:45-64 | every common field is sent as typed or null when empty, the name as typed; doctor fields are sent exactly for a doctor, years through parseInt |
| ProfileSettings.SubmittedUpdate | src/pages/Profile.tsx:45-146 | the browser refuses the form while the required full name is empty; otherwise the update is sent, and its name is never empty |
| ProfileSettings.UneditedSaveKeepsProfile | src/pages/Profile.tsx:28-64 | saving the loaded form unedited writes the stored profile back, years and fee included |
| ProfileSettings.EditedPhoneIsSent | src/pages/Profile.tsx:74-76 | an edited phone is what the update sends; the name is kept |
| ProfileSettings.DoctorFieldsIgnoredForPatients | src/pages/Profile.tsx:59-64 | editing a doctor field does not change a non-doctor's update |
| ProfileSettings.ProfileFormState.constructor | src/pages/Profile.tsx:15-26 | the form starts blank |
| ProfileSettings.ProfileFormState.Load | src/pages/Profile.tsx:28-43 | a loaded profile replaces the form; none leaves it |
| ProfileSettings.ProfileFormState.Edit | src/pages/Profile.tsx:74-76 | one field takes the typed value |
| ProfileSettings.InitialsOfWord | src/pages/Profile.tsx:89-91 | a one-word name gives its upper-cased first letter, an empty one nothing |
| ProfileSettings.InitialsOfJoin | src/pages/Profile.tsx:89-91 | the initials of words joined by a space are those of each word in turn |
| ProfileSettings.AvatarTextCases | src/pages/Profile.tsx:113 | a nameless profile shows 'U'; a two-word name shows its two initials |

## Left out

- Network calls to the hosted database and the auth service are not modelled. Their outcome is a boolean parameter, and the database is a set of in-memory sequences of rows.
- Loading flags, spinners, toasts and `console.error` are left out, because they do not change data.
- Concurrency is left out: two patients booking the same slot at once, or a slot updated between fetch and booking. Each operation is modelled as one atomic step.
- URL encoding, `window.open` and the WhatsApp links are left out; the call button's `tel:` address is modelled (`Doctors.CallDoctor`). The WhatsApp support and contact messages are not modelled, except the text of the doctors' support message and the recipient and medication lines of the prescription notice.
- The notification's other text (greeting, diagnosis, notes) is not modelled.
- Dates and times are left out:
  - Timestamps are integers in milliseconds and dates are 'YYYY-MM-DD' strings.
  - Time zones, `toISOString` and `toLocaleDateString` are not modelled.
  - An appointment's date is kept as the slot's date, 'T' and start time, rather than the UTC instant the page computes from it.
  - Today's date is a parameter.
- Patients' ages take the birth date as year, month and day, rather than parsing a date string.
- The creation time of an inserted announcement is the database's default. The model takes it to be the submission instant `now`.
- Sort orders are compared codepoint by codepoint. The database's collation and `localeCompare`'s locale rules are not modelled; they agree on the zero-padded times and ISO dates.
- Announcements without a publication time sort first, as the database does in descending order.
- Prescriptions.NameFilter: the patient's or-filter is modelled as written, including the text 'undefined' that it compares with while no profile is loaded. The filter syntax breaks on names containing a comma or a parenthesis; that is not modelled.
- ProfileSettings.ExperienceUpdate: `parseInt` is modelled for decimal text. The hexadecimal reading of a '0x' prefix is not modelled.
- The consultation fee goes through `parseFloat`. Floating point is not modelled, so the fee is carried as the text handed to it. A stored fee is a whole number (`Profile.consultationFee: Option<int>`), so the fee clause of `ProfileSettings.UneditedSaveKeepsProfile` covers whole-number fees only; a fee such as 49.99 is not represented.
- The browser's checks on the profile's number inputs (`min="0"`, and `step="0.01"` on the fee) are not modelled; only the `required` full name is (`ProfileSettings.SubmittedUpdate`).
- The route maps of the navigation bar and the hero cards are plain objects, so an id or title naming a member of their prototype (such as 'toString') would not fall back. Such keys are not modelled; no rendered item or card has one.
- Case mapping (`toLowerCase`, `toUpperCase`) is modelled for ASCII letters only. Unicode case mapping and special casing are not modelled.
- Whitespace for `trim` is the ECMAScript set of white space and line terminators.
- The patient list on the Patients page and the schedule on the Schedule page are fixed sample data in the application. Both are parameters here.
- The Schedule page's own add and edit buttons show only a "coming soon" toast. The slot dialogs are modelled on their own.
- Rendering is left out: JSX layout, icons, class names other than the status and category badges, and the avatar image.
- The joined author and doctor profiles on announcement and prescription cards are left out, except the appointment card's counterpart.
- `useAuth`, `App.tsx` (the routing table), `LazyRoute`, `Index` and the `Appointments` page are not part of this model. The route guard takes the auth state as parameters.
- Navigation's Patient/Doctor switch and its sign-out button are not modelled. The switch hands the chosen role to the parent page, which the model takes as the `userType` parameter; sign-out calls the auth hook.
