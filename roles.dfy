/** The staff test shared by the route guard, the admin layout and the login page. */
module Roles {

  import opened Wrappers

  /**
   * A profile role of `admin` or `designer`. `None` stands for a missing
   * profile or a missing role (`profile?.role` is `undefined`).
   */
  predicate IsStaff(role: Option<string>): (staff: bool)
    ensures staff ==> role.Some?
    ensures role == Some("client") ==> !staff
  {
    role == Some("admin") || role == Some("designer")
  }
}
