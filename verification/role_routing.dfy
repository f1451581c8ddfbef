/**
 * How the auth page picks and shows the account role, and where it navigates after
 * signing in or up. The role is a plain string: the page reads it from the `role`
 * query parameter through an unchecked cast, so any non-empty value reaches the
 * state, and every decision below only compares it with "parent" or "student".
 */
module RoleRouting {
  import opened JsText

  const ParentDashboard: string := "/parent/dashboard"
  const StudentDashboard: string := "/student/dashboard"
  const GenericDashboard: string := "/dashboard"

  const ParentLabel: string := "\U{1F468}\U{200D}\U{1F469}\U{200D}\U{1F467} Эцэг эх"
  const StudentLabel: string := "\U{1F468}\U{200D}\U{1F393} Сурагч"

  const ParentGradient: string := "linear-gradient(135deg, rgb(244, 114, 182) 0%, rgb(239, 68, 68) 100%)"
  const StudentGradient: string := "linear-gradient(135deg, rgb(45, 212, 191) 0%, rgb(34, 197, 94) 100%)"

  /** `roleFromUrl || 'student'`: a missing or empty parameter falls back to "student". */
  function InitialRole(roleFromUrl: Option<string>): (role: string)
    ensures role != []
    ensures roleFromUrl.Some? && roleFromUrl.value != [] ==> role == roleFromUrl.value
    ensures (roleFromUrl == None || roleFromUrl == Some([])) ==> role == "student"
  {
    match roleFromUrl
    case Some(r) => OrElse(r, "student")
    case None => "student"
  }

  /** `getRoleDisplay`: the parent label exactly for "parent", the student label otherwise. */
  function RoleDisplay(role: string): (shown: string)
    ensures shown == ParentLabel || shown == StudentLabel
    ensures shown == ParentLabel <==> role == "parent"
  {
    assert |ParentLabel| != |StudentLabel|;
    if role == "parent" then ParentLabel else StudentLabel
  }

  /** `getRoleGradient`: the pink-to-red gradient exactly for "parent", teal-to-green otherwise. */
  function RoleGradient(role: string): (gradient: string)
    ensures gradient == ParentGradient || gradient == StudentGradient
    ensures gradient == ParentGradient <==> role == "parent"
  {
    assert ParentGradient[28] != StudentGradient[28];
    if role == "parent" then ParentGradient else StudentGradient
  }

  /**
   * Destination after a successful sign-in, from the role column of the user's profile
   * (`None` when the profile row or its role is missing): a total three-way choice.
   */
  function SignInRedirect(profileRole: Option<string>): (path: string)
    ensures path in {ParentDashboard, StudentDashboard, GenericDashboard}
    ensures path == ParentDashboard <==> profileRole == Some("parent")
    ensures path == StudentDashboard <==> profileRole == Some("student")
    ensures path == GenericDashboard <==> profileRole != Some("parent") && profileRole != Some("student")
  {
    if profileRole == Some("parent") then ParentDashboard
    else if profileRole == Some("student") then StudentDashboard
    else GenericDashboard
  }

  /** Destination after a successful sign-up: only "parent" differs from the student dashboard. */
  function SignUpRedirect(role: string): (path: string)
    ensures path == ParentDashboard || path == StudentDashboard
    ensures path == ParentDashboard <==> role == "parent"
  {
    if role == "parent" then ParentDashboard else StudentDashboard
  }

  /**
   * The label, the gradient and the sign-up destination all make the same choice:
   * each picks its parent variant exactly when the other two do.
   */
  lemma RoleViewsAgree(role: string)
    ensures (RoleDisplay(role) == ParentLabel) == (RoleGradient(role) == ParentGradient)
    ensures (RoleGradient(role) == ParentGradient) == (SignUpRedirect(role) == ParentDashboard)
  {
  }

  /**
   * For the two roles the URL is meant to carry, signing in (with a profile holding
   * the role chosen at sign-up) and signing up lead to the same dashboard; any other
   * role leads to the student dashboard after sign-up but the generic one after sign-in.
   */
  lemma RedirectsAgreeOnKnownRoles(role: string)
    ensures role == "parent" || role == "student" ==> SignInRedirect(Some(role)) == SignUpRedirect(role)
    ensures role != "parent" && role != "student" ==>
      SignUpRedirect(role) == StudentDashboard && SignInRedirect(Some(role)) == GenericDashboard
  {
  }
}
