/**
 * The route guard (src/components/ProtectedRoute.tsx): what a protected page shows, decided from
 * the auth state in three checks taken in order.
 */
module ProtectedRoute {
  import opened Wrappers
  import opened Records

  /** What the guard renders. */
  datatype Decision = LoadingScreen | Redirect(to: string) | Children

  /** The guard: the loading screen while auth is loading; then '/auth' without a user; then '/'
      when a role is required and the profile's role (none while no profile is loaded) differs;
      otherwise the protected page. */
  function Guard(loading: bool, signedIn: bool, profileRole: Option<Role>, requiredRole: Option<Role>): Decision
  {
    if loading then LoadingScreen
    else if !signedIn then Redirect("/auth")
    else if requiredRole.Some? && profileRole != requiredRole then Redirect("/")
    else Children
  }

  /** Each outcome happens exactly when every earlier check passes and its own fails. */
  lemma GuardMeaning(loading: bool, signedIn: bool, profileRole: Option<Role>, requiredRole: Option<Role>)
    ensures Guard(loading, signedIn, profileRole, requiredRole) == LoadingScreen <==> loading
    ensures Guard(loading, signedIn, profileRole, requiredRole) == Redirect("/auth") <==> !loading && !signedIn
    ensures Guard(loading, signedIn, profileRole, requiredRole) == Redirect("/") <==>
              !loading && signedIn && requiredRole.Some? && profileRole != requiredRole
    ensures Guard(loading, signedIn, profileRole, requiredRole) == Children <==>
              !loading && signedIn && (requiredRole.None? || profileRole == requiredRole)
  {
  }

  /** A page that requires a role is shown only to a signed-in user whose loaded profile has that
      role; a missing profile never passes. */
  lemma RequiredRoleIsEnforced(signedIn: bool, profileRole: Option<Role>, role: Role)
    ensures Guard(false, signedIn, profileRole, Some(role)) == Children ==> signedIn && profileRole == Some(role)
    ensures signedIn ==> Guard(false, signedIn, None, Some(role)) == Redirect("/")
  {
  }

  /** Without a required role, every signed-in user gets the page, whatever the profile. */
  lemma UnrestrictedPagesNeedOnlyAUser(profileRole: Option<Role>)
    ensures Guard(false, true, profileRole, None) == Children
  {
  }
}
