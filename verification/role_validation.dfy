/**
 * The role helpers of the authentication test suite ("Role Validation Tests" and the
 * redirect case of "Authentication Flow Tests"): a three-role whitelist, and copies
 * of the page's role label and sign-up destination over the suite's `Role` type.
 */
module RoleValidation {
  import opened RoleRouting

  /** The suite's `Role` type: 'student' | 'parent' | 'admin'. */
  datatype Role = Student | Parent | Admin

  function RoleName(r: Role): string {
    match r
    case Student => "student"
    case Parent => "parent"
    case Admin => "admin"
  }

  const ValidRoles: seq<string> := ["student", "parent", "admin"]

  /** `isValidRole`: membership in the three-element whitelist, i.e. naming one of the three roles. */
  function IsValidRole(role: string): (ok: bool)
    ensures ok <==> exists r :: RoleName(r) == role
  {
    if role in ValidRoles then
      assert role == RoleName(Student) || role == RoleName(Parent) || role == RoleName(Admin);
      true
    else
      false
  }

  /** The suite's copy of `getRoleDisplay`, over its `Role` type. */
  function GetRoleDisplay(role: Role): (shown: string)
    ensures shown == ParentLabel || shown == StudentLabel
    ensures shown == ParentLabel <==> role == Parent
  {
    assert |ParentLabel| != |StudentLabel|;
    if role == Parent then ParentLabel else StudentLabel
  }

  /** `getRedirectUrl`, whose parameter type admits only 'student' and 'parent'. */
  function GetRedirectUrl(role: Role): (url: string)
    requires role != Admin
    ensures url == StudentDashboard <==> role == Student
    ensures url == ParentDashboard <==> role == Parent
  {
    assert ParentDashboard[1] != StudentDashboard[1];
    if role == Parent then ParentDashboard else assert role == Student; StudentDashboard
  }

  /** The suite's copies agree with the page: same label, same destination after sign-up. */
  lemma SuiteHelpersAgreeWithPage(role: Role)
    ensures GetRoleDisplay(role) == RoleDisplay(RoleName(role))
    ensures role != Admin ==> GetRedirectUrl(role) == SignUpRedirect(RoleName(role))
  {
  }

  // The suite's cases

  /** The suite's role cases. */
  lemma RoleCases()
    ensures IsValidRole("student") && IsValidRole("parent") && IsValidRole("admin")
    ensures !IsValidRole("teacher")
    ensures GetRoleDisplay(Student) == StudentLabel && GetRoleDisplay(Parent) == ParentLabel
    ensures GetRedirectUrl(Student) == "/student/dashboard"
    ensures GetRedirectUrl(Parent) == "/parent/dashboard"
  {
    assert RoleName(Student) == "student" && RoleName(Parent) == "parent" && RoleName(Admin) == "admin";
  }
}
