/** app/update-password/page.tsx: choosing a new password after a reset link. */
module UpdatePassword {

  import opened Wrappers
  import opened PasswordRules

  const DashboardPath := "/dashboard"

  class UpdatePasswordPage {
    var password: string
    var confirmPassword: string
    var loading: bool
    var error: string
    var success: bool
    /** The navigation scheduled with `setTimeout`, if any. */
    var scheduledNavigation: Option<string>

    constructor ()
      ensures password == "" && confirmPassword == ""
      ensures !loading && error == "" && !success && scheduledNavigation == None
    {
      password, confirmPassword := "", "";
      loading, error, success, scheduledNavigation := false, "", false, None;
    }

    /**
     * `handleUpdate` with the update call's error, if any: `requested` tells
     * whether the call was made. On success the page keeps `loading` set and
     * schedules the move to the dashboard.
     */
    method HandleUpdate(updateError: Option<string>) returns (requested: bool)
      modifies this
      ensures password == old(password) && confirmPassword == old(confirmPassword)
      ensures var check := ValidatePassword(password, confirmPassword);
        && (requested <==> check.None?)
        && (check.Some? ==> error == check.value && !loading)
        && (check.None? && updateError.Some? ==> error == updateError.value && !loading)
        && (check.None? && updateError.None? ==> error == "" && loading && success)
        && (check.None? && updateError.None? ==> scheduledNavigation == Some(DashboardPath))
        && (check.Some? || updateError.Some? ==>
              success == old(success) && scheduledNavigation == old(scheduledNavigation))
    {
      loading := true;
      error := "";
      var check := ValidatePassword(password, confirmPassword);
      if check.Some? {
        error := check.value;
        loading := false;
        return false;
      }
      requested := true;
      if updateError.Some? {
        error := updateError.value;
        loading := false;
      } else {
        success := true;
        scheduledNavigation := Some(DashboardPath);
      }
    }
  }
}
