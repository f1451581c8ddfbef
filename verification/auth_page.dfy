/**
 * The state and event handlers of the auth page component (`AuthPage`, and its copy
 * `AuthPageContent`, whose handlers are the same). Each `useState` variable is a field
 * of `AuthForm`; each handler is a method that updates the fields step by step.
 * The hosted backend is not modelled: its reply to sign-in or sign-up is an input
 * (`SignInReply`, `SignUpReply`), and navigation is the path a method returns.
 */
module AuthPage {
  import opened JsText
  import opened PasswordPolicy
  import opened RoleRouting

  datatype Tab = SignIn | SignUp

  /** The three synchronous checks of sign-up, in the order they run. */
  datatype GateFailure = WeakPassword | PasswordMismatch | MissingName

  const WeakPasswordMessage: string := "Нууц үг шаардлага хангахгүй байна"
  const MismatchMessage: string := "Нууц үг таарахгүй байна"
  const MissingNameMessage: string := "Нэрээ оруулна уу"
  const SignInFailedMessage: string := "Нэвтрэлт амжилтгүй боллоо"
  const SignUpFailedMessage: string := "Бүртгэл амжилтгүй боллоо"

  /** The fixed error text shown for each failed check; distinct checks show distinct texts. */
  function GateMessage(f: GateFailure): (m: string)
    ensures m != []
    ensures m == WeakPasswordMessage <==> f == WeakPassword
    ensures m == MismatchMessage <==> f == PasswordMismatch
    ensures m == MissingNameMessage <==> f == MissingName
  {
    assert WeakPasswordMessage[8] != MismatchMessage[8] && WeakPasswordMessage[8] != MissingNameMessage[8];
    assert MismatchMessage[8] != MissingNameMessage[8];
    match f
    case WeakPassword => WeakPasswordMessage
    case PasswordMismatch => MismatchMessage
    case MissingName => MissingNameMessage
  }

  /**
   * The first check of `handleSignUp` that fails, or `None` when all pass: password
   * strength, then `password === confirmPassword`, then a non-blank trimmed name.
   */
  function SignUpGate(password: string, confirmPassword: string, fullName: string): (r: Option<GateFailure>)
    ensures r == None <==> IsPasswordValid(password) && password == confirmPassword && !IsBlank(fullName)
    ensures r == Some(WeakPassword) <==> !IsPasswordValid(password)
    ensures r == Some(PasswordMismatch) <==> IsPasswordValid(password) && password != confirmPassword
    ensures r == Some(MissingName) <==>
      IsPasswordValid(password) && password == confirmPassword && IsBlank(fullName)
  {
    TrimEmptyIffBlank(fullName);
    if !IsPasswordValid(password) then Some(WeakPassword)
    else if password != confirmPassword then Some(PasswordMismatch)
    else if Trim(fullName) == [] then Some(MissingName)
    else None
  }

  /** What the backend answers to `signInWithPassword`, followed by the profile lookup. */
  datatype SignInReply =
    | SignInFailed(message: string)            // the call returned an error
    | SignInNoUser                             // no error, but no user either
    | SignedIn(profileRole: Option<string>)    // the role column of the profile, if any

  /** What the backend answers to `signUp`, followed by the profile insert. */
  datatype SignUpReply =
    | SignUpFailed(message: string)            // `signUp` returned an error
    | SignUpNoUser                             // no error, but no user either
    | ProfileInsertFailed(message: string)     // the profile insert returned an error
    | SignedUp                                 // account and profile both created

  class AuthForm {
    var activeTab: Tab
    var role: string
    var email: string
    var password: string
    var confirmPassword: string
    var fullName: string
    var loading: bool
    var error: string
    var passwordStrength: PasswordStrength

    /** The initial state: sign-in tab, empty fields, all strength flags false. */
    constructor (roleFromUrl: Option<string>)
      ensures activeTab == SignIn && role == InitialRole(roleFromUrl)
      ensures email == [] && password == [] && confirmPassword == [] && fullName == []
      ensures !loading && error == [] && passwordStrength == Unchecked
    {
      activeTab := SignIn;
      role := InitialRole(roleFromUrl);
      email, password, confirmPassword, fullName := [], [], [], [];
      loading := false;
      error := [];
      passwordStrength := Unchecked;
    }

    /** The effect run when the `role` query parameter changes: a non-empty value replaces the role. */
    method SyncRoleFromUrl(roleFromUrl: Option<string>)
      modifies this`role
      ensures roleFromUrl.Some? && roleFromUrl.value != [] ==> role == roleFromUrl.value
      ensures roleFromUrl == None || roleFromUrl == Some([]) ==> role == old(role)
    {
      if roleFromUrl.Some? && roleFromUrl.value != [] {
        role := roleFromUrl.value;
      }
    }

    method SelectTab(tab: Tab)
      modifies this`activeTab
      ensures activeTab == tab
    {
      activeTab := tab;
    }

    method EditEmail(value: string)
      modifies this`email
      ensures email == value
    {
      email := value;
    }

    method EditFullName(value: string)
      modifies this`fullName
      ensures fullName == value
    {
      fullName := value;
    }

    method EditConfirmPassword(value: string)
      modifies this`confirmPassword
      ensures confirmPassword == value
    {
      confirmPassword := value;
    }

    /** `validatePassword`: stores the computed flags and reports whether all of them hold. */
    method ValidatePassword(pwd: string) returns (ok: bool)
      modifies this`passwordStrength
      ensures passwordStrength == Strength(pwd)
      ensures ok <==> passwordStrength.AllHold()
      ensures ok <==> IsPasswordValid(pwd)
    {
      var strength := Strength(pwd);
      passwordStrength := strength;
      ok := strength.hasMinLength && strength.hasUpperCase && strength.hasLowerCase
        && strength.hasNumber && strength.hasSpecialChar;
    }

    /**
     * `handlePasswordChange`: the password always follows the input; the strength
     * flags are recomputed only while the sign-up tab is active.
     */
    method HandlePasswordChange(pwd: string)
      modifies this`password, this`passwordStrength
      ensures password == pwd
      ensures activeTab == SignUp ==> passwordStrength == Strength(pwd)
      ensures activeTab == SignIn ==> passwordStrength == old(passwordStrength)
    {
      password := pwd;
      if activeTab == SignUp {
        var _ := ValidatePassword(pwd);
      }
    }

    /**
     * The synchronous part of `handleSignUp`: clears the error, then runs the checks
     * in order and stops at the first failure, showing its message and clearing
     * `loading`. `proceed` tells whether the backend would be called; in that case
     * `loading` stays set and the error stays empty.
     */
    method SubmitSignUp() returns (proceed: bool)
      modifies this`loading, this`error, this`passwordStrength
      ensures proceed <==> SignUpGate(password, confirmPassword, fullName) == None
      ensures passwordStrength == Strength(password)
      ensures loading == proceed
      ensures proceed ==> error == []
      ensures !proceed ==> error == GateMessage(SignUpGate(password, confirmPassword, fullName).value)
    {
      loading := true;
      error := [];
      var strong := ValidatePassword(password);
      if !strong {
        error := WeakPasswordMessage;
        loading := false;
        return false;
      }
      if password != confirmPassword {
        error := MismatchMessage;
        loading := false;
        return false;
      }
      TrimEmptyIffBlank(fullName);
      if Trim(fullName) == [] {
        error := MissingNameMessage;
        loading := false;
        return false;
      }
      proceed := true;
    }

    /**
     * The asynchronous rest of `handleSignUp`, given the backend's reply: a failure
     * shows the backend's message (or the generic one when it is empty), a full success
     * navigates by role, and `loading` is cleared in every case.
     */
    method CompleteSignUp(reply: SignUpReply) returns (redirect: Option<string>)
      modifies this`loading, this`error
      ensures !loading
      ensures reply == SignedUp ==> redirect == Some(SignUpRedirect(role)) && error == old(error)
      ensures reply == SignUpNoUser ==> redirect == None && error == old(error)
      ensures (reply.SignUpFailed? || reply.ProfileInsertFailed?) ==>
        redirect == None && error == OrElse(reply.message, SignUpFailedMessage)
    {
      redirect := None;
      match reply {
        case SignUpFailed(m) =>
          error := OrElse(m, SignUpFailedMessage);
        case SignUpNoUser =>
        case ProfileInsertFailed(m) =>
          error := OrElse(m, SignUpFailedMessage);
        case SignedUp =>
          redirect := Some(SignUpRedirect(role));
      }
      loading := false;
    }

    /**
     * `handleSignUp` as a whole: the backend is reached (and its reply used) only
     * when every synchronous check passes.
     */
    method HandleSignUp(reply: SignUpReply) returns (backendCalled: bool, redirect: Option<string>)
      modifies this`loading, this`error, this`passwordStrength
      ensures backendCalled <==> SignUpGate(password, confirmPassword, fullName) == None
      ensures passwordStrength == Strength(password)
      ensures !loading
      ensures !backendCalled ==>
        redirect == None && error == GateMessage(SignUpGate(password, confirmPassword, fullName).value)
      ensures backendCalled && reply == SignedUp ==> redirect == Some(SignUpRedirect(role)) && error == []
      ensures backendCalled && reply == SignUpNoUser ==> redirect == None && error == []
      ensures backendCalled && (reply.SignUpFailed? || reply.ProfileInsertFailed?) ==>
        redirect == None && error == OrElse(reply.message, SignUpFailedMessage)
    {
      backendCalled := SubmitSignUp();
      redirect := None;
      if backendCalled {
        redirect := CompleteSignUp(reply);
      }
    }

    /**
     * `handleSignIn`, given the backend's reply: the error is cleared first; a failure
     * shows the backend's message (or the generic one when it is empty); a user with
     * a profile is sent to the dashboard of the profile's role; `loading` ends cleared.
     */
    method HandleSignIn(reply: SignInReply) returns (redirect: Option<string>)
      modifies this`loading, this`error
      ensures !loading
      ensures reply.SignInFailed? ==> redirect == None && error == OrElse(reply.message, SignInFailedMessage)
      ensures reply == SignInNoUser ==> redirect == None && error == []
      ensures reply.SignedIn? ==> redirect == Some(SignInRedirect(reply.profileRole)) && error == []
    {
      loading := true;
      error := [];
      redirect := None;
      match reply {
        case SignInFailed(m) =>
          error := OrElse(m, SignInFailedMessage);
        case SignInNoUser =>
        case SignedIn(profileRole) =>
          redirect := Some(SignInRedirect(profileRole));
      }
      loading := false;
    }
  }

  /**
   * A sign-up that gets past the checks always leaves the last computed strength flags
   * all true, so the checklist shown beside the password field is fully ticked.
   */
  lemma GatePassShowsFullChecklist(password: string, confirmPassword: string, fullName: string)
    requires SignUpGate(password, confirmPassword, fullName) == None
    ensures Strength(password).AllHold()
    ensures password == confirmPassword && Trim(fullName) != []
  {
    TrimEmptyIffBlank(fullName);
  }
}
