/**
 * The landing section (src/components/Hero.tsx): the service cards each role sees, where their
 * buttons lead, and the signed-in user's primary button.
 */
module Hero {
  import opened Records
  import Navigation

  /** The routes of `handleServiceAction`, by card title. */
  const ServiceRoutes: map<string, string> := map[
    "Book an Appointment" := "/appointments",
    "Find Specialists" := "/doctors",
    "Health Updates" := "/announcements",
    "Prescription Access" := "/prescriptions",
    "Manage Schedule" := "/schedule",
    "Post Updates" := "/post-announcement",
    "Upload Prescriptions" := "/upload-prescription",
    "Patient Management" := "/patients"
  ]

  /** What a card's button does. */
  datatype ServiceAction = Navigate(route: string) | WhatsAppBooking

  /** `handleServiceAction`: the mapped route, or the WhatsApp booking link for a title the map
      does not know. As with the navigation bar's map, titles naming members of a plain object's
      prototype are not modelled; no rendered card has one. */
  function ActionFor(title: string): ServiceAction
  {
    if title in ServiceRoutes then Navigate(ServiceRoutes[title]) else WhatsAppBooking
  }

  const PatientServices: seq<string> :=
    ["Book an Appointment", "Find Specialists", "Health Updates", "Prescription Access"]

  const DoctorFeatures: seq<string> :=
    ["Manage Schedule", "Post Updates", "Upload Prescriptions", "Patient Management"]

  /** `currentServices`: the titles of the cards, the patient services for a patient and the
      doctor features otherwise. */
  function Services(userType: Role): seq<string>
  {
    if userType == Patient then PatientServices else DoctorFeatures
  }

  /** A title leads to a page exactly when the map knows it; otherwise the button opens the
      WhatsApp booking. */
  lemma ActionMeaning(title: string)
    ensures ActionFor(title).Navigate? <==> title in ServiceRoutes
    ensures ActionFor(title) == WhatsAppBooking <==> title !in ServiceRoutes
  {
  }

  /** Each role sees four cards, every card's title is in the map, so the WhatsApp fallback is
      never reached from a card, and the four cards lead to four different pages. */
  lemma RenderedCardsNavigate(userType: Role)
    ensures |Services(userType)| == 4
    ensures forall i :: 0 <= i < |Services(userType)| ==> ActionFor(Services(userType)[i]).Navigate?
    ensures forall i, j :: 0 <= i < j < |Services(userType)| ==>
              ActionFor(Services(userType)[i]) != ActionFor(Services(userType)[j])
  {
  }

  /** Every page a card leads to is also an item of the same role's navigation bar. */
  lemma CardsAgreeWithNavigation(userType: Role, i: int)
    requires 0 <= i < |Services(userType)|
    ensures exists k :: 0 <= k < |Navigation.NavItems(userType)| &&
              ActionFor(Services(userType)[i]).route == Navigation.RouteFor(Navigation.NavItems(userType)[k].id)
  {
    var items := Navigation.NavItems(userType);
    assert ActionFor(Services(userType)[i]).route == Navigation.RouteFor(items[i + 1].id);
  }

  /** The signed-in user's primary button: a patient's appointments or a doctor's schedule. */
  function PrimaryRoute(userType: Role): (route: string)
    ensures route == ActionFor(Services(userType)[0]).route
  {
    if userType == Patient then "/appointments" else "/schedule"
  }
}
