/** app/login/page.tsx: signing in and choosing where to go next. */
module Login {

  import opened Wrappers
  import opened Strings
  import opened Roles

  const DefaultRedirect := "/dashboard"
  const AdminHome := "/admin/dashboard"

  /** `searchParams.get('redirectTo') || '/dashboard'`: a missing or empty parameter gives the dashboard. */
  function RedirectTarget(param: Option<string>): (target: string)
    ensures param.Some? && param.value != "" ==> target == param.value
    ensures param.None? || param == Some("") ==> target == DefaultRedirect
  {
    OrElse(param, DefaultRedirect)
  }

  /** Staff go to the admin dashboard; everyone else, with or without a profile, to `redirectTo`. */
  function PostLoginTarget(profileRole: Option<string>, redirectTo: string): (target: string)
    ensures IsStaff(profileRole) ==> target == AdminHome
    ensures !IsStaff(profileRole) ==> target == redirectTo
  {
    if IsStaff(profileRole) then AdminHome else redirectTo
  }

  class LoginPage {
    const redirectTo: string
    var loading: bool
    var error: string
    /** The last navigation requested with `router.push`. */
    var navigation: Option<string>

    /** The page as opened with the given `redirectTo` query parameter. */
    constructor (redirectParam: Option<string>)
      ensures redirectTo == RedirectTarget(redirectParam)
      ensures !loading && error == "" && navigation == None
    {
      redirectTo := RedirectTarget(redirectParam);
      loading, error, navigation := false, "", None;
    }

    /**
     * `handleLogin` with the sign-in error, whether a user is then found, and
     * that user's profile role. A failed sign-in shows its message, a missing
     * user just stops; otherwise the role picks the next page.
     */
    method HandleLogin(signInError: Option<string>, userPresent: bool, profileRole: Option<string>)
      modifies this
      ensures signInError.Some? ==> error == signInError.value && !loading && navigation == old(navigation)
      ensures signInError.None? ==> error == ""
      ensures signInError.None? && !userPresent ==> !loading && navigation == old(navigation)
      ensures signInError.None? && userPresent ==>
        loading && navigation == Some(PostLoginTarget(profileRole, redirectTo))
    {
      loading := true;
      error := "";
      if signInError.Some? {
        error := signInError.value;
        loading := false;
      } else if !userPresent {
        loading := false;
      } else {
        navigation := Some(PostLoginTarget(profileRole, redirectTo));
      }
    }
  }
}
