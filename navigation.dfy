/**
 * The navigation bar (src/components/Navigation.tsx): the items each role sees, the route each
 * item leads to, and the mobile menu.
 */
module Navigation {
  import opened Records

  /** An entry of the bar: its text and the id its route is looked up by. */
  datatype NavItem = NavItem(text: string, id: string)

  const PatientItems: seq<NavItem> := [
    NavItem("My Profile", "profile"),
    NavItem("Book Appointment", "appointments"),
    NavItem("Find Doctors", "doctors"),
    NavItem("Announcements", "announcements"),
    NavItem("Prescriptions", "prescriptions")
  ]

  const DoctorItems: seq<NavItem> := [
    NavItem("My Profile", "profile"),
    NavItem("My Schedule", "schedule"),
    NavItem("Post Announcement", "post"),
    NavItem("Upload Prescription", "upload"),
    NavItem("My Patients", "patients")
  ]

  /** `currentNavItems`: the patient items for a patient, the doctor items otherwise. The desktop
      bar lists these items whether or not a user is signed in. */
  function NavItems(userType: Role): seq<NavItem>
  {
    if userType == Patient then PatientItems else DoctorItems
  }

  /** The route map of `getRouteForNavItem`. */
  const RouteMap: map<string, string> := map[
    "profile" := "/profile",
    "appointments" := "/appointments",
    "doctors" := "/doctors",
    "announcements" := "/announcements",
    "prescriptions" := "/prescriptions",
    "schedule" := "/schedule",
    "post" := "/post-announcement",
    "upload" := "/upload-prescription",
    "patients" := "/patients"
  ]

  /** `getRouteForNavItem`: the mapped route, '/' for an id the map does not know. The map is a
      plain object, so an id naming one of its prototype's members ('toString', say) would not
      fall back; no rendered item has such an id, and such ids are not modelled. */
  function RouteFor(id: string): string
  {
    if id in RouteMap then RouteMap[id] else "/"
  }

  /** No mapped route is '/', so an item leads to the home page exactly when its id is not in the map. */
  lemma FallbackOnlyForUnknownIds(id: string)
    ensures RouteFor(id) == "/" <==> id !in RouteMap
  {
    assert forall k :: k in RouteMap ==> RouteMap[k] != "/";
  }

  /** Every item either role sees has a mapped route, so the fallback is never used from the bar;
      each role sees five items leading to five different pages. */
  lemma RenderedItemsAreRouted(userType: Role)
    ensures |NavItems(userType)| == 5
    ensures forall i :: 0 <= i < |NavItems(userType)| ==> NavItems(userType)[i].id in RouteMap
    ensures forall i, j :: 0 <= i < j < |NavItems(userType)| ==>
              RouteFor(NavItems(userType)[i].id) != RouteFor(NavItems(userType)[j].id)
  {
  }

  /** The links of the mobile menu: for a signed-in user the desktop bar's items, all of them and
      in the same order; none otherwise. */
  function MobileLinks(signedIn: bool, userType: Role): (links: seq<NavItem>)
    ensures links != [] <==> signedIn
    ensures forall item :: item in links ==> item in NavItems(userType)
    ensures signedIn ==> forall item :: item in NavItems(userType) ==> item in links
    ensures signedIn ==> |links| == |NavItems(userType)|
    ensures signedIn ==> forall i :: 0 <= i < |links| ==> links[i] == NavItems(userType)[i]
  {
    if signedIn then NavItems(userType) else []
  }

  /** `isMobileMenuOpen`. */
  class MobileMenu {
    var open: bool

    constructor ()
      ensures !open
    {
      open := false;
    }

    /** The menu button flips the menu. */
    method Toggle()
      modifies this
      ensures open == !old(open)
    {
      open := !open;
    }

    /** Following a link of the mobile menu closes it and yields the link's route. */
    method Follow(item: NavItem) returns (route: string)
      modifies this
      ensures !open
      ensures route == RouteFor(item.id)
    {
      open := false;
      route := RouteFor(item.id);
    }
  }
}
