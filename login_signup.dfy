/**
 * The login/signup dialog: its client-side checks, the call it makes, and
 * what a submit or a mode switch does to its state.
 */
module LoginSignup {
  import opened Wrappers
  import opened Strings
  import Joi
  import opened AuthController

  datatype Credentials = Credentials(name: string, email: string, password: string, confirmPassword: string)

  const BlankCredentials: Credentials := Credentials("", "", "", "")

  /** The call handleSubmit makes on the auth context. */
  datatype Call = SignupCall(email: string, password: string, name: string) | LoginCall(email: string, password: string)

  /** The first failing client check; the name, length and confirmation checks apply to signup only. */
  function ClientError(isSignup: bool, c: Credentials): (r: Option<string>)
    ensures r.None? <==> c.email != "" && c.password != ""
                         && (isSignup ==> Trim(c.name) != "" && 6 <= |c.password| && c.password == c.confirmPassword)
    ensures c.email == "" || c.password == "" ==> r == Some("Email and password are required.")
    ensures c.email != "" && c.password != "" && isSignup && Trim(c.name) == "" ==> r == Some("Name is required.")
    ensures c.email != "" && c.password != "" && isSignup && Trim(c.name) != "" && |c.password| < 6 ==>
      r == Some("Password must be at least 6 characters.")
    ensures c.email != "" && c.password != "" && isSignup && Trim(c.name) != "" && 6 <= |c.password| && c.password != c.confirmPassword ==>
      r == Some("Passwords do not match.")
  {
    if c.email == "" || c.password == "" then Some("Email and password are required.")
    else if isSignup && Trim(c.name) == "" then Some("Name is required.")
    else if isSignup && |c.password| < 6 then Some("Password must be at least 6 characters.")
    else if isSignup && c.password != c.confirmPassword then Some("Passwords do not match.")
    else None
  }

  /** The call for a checked form: signup gets the trimmed name. */
  function ClientCall(isSignup: bool, c: Credentials): (r: Call)
    ensures r.SignupCall? <==> isSignup
    ensures r.email == c.email && r.password == c.password
    ensures isSignup ==> r.name == Trim(c.name)
  {
    if isSignup then SignupCall(c.email, c.password, Trim(c.name)) else LoginCall(c.email, c.password)
  }

  /** A signup the client lets through fails the server's schema only on the email's form or the name's length. */
  lemma SignupChecksMeetSchema(c: Credentials)
    requires ClientError(true, c).None?
    ensures ValidateSignup(SignupBody(Some(c.email), Some(c.password), Some(Trim(c.name)))).Success? <==>
      Joi.IsEmail(c.email) && 2 <= |Trim(c.name)| <= 50
  {
  }

  /** A login the client lets through fails the server's schema only on the email's form. */
  lemma LoginChecksMeetSchema(c: Credentials)
    requires ClientError(false, c).None?
    ensures ValidateLogin(LoginBody(Some(c.email), Some(c.password))).Success? <==> Joi.IsEmail(c.email)
  {
  }

  /** The error shown when the call is rejected: the server's message, else the mode's default. */
  function FailureMessage(isSignup: bool, m: Option<string>): (r: string)
    ensures r != ""
    ensures m.Some? && m.value != "" ==> r == m.value
    ensures (m.None? || m == Some("")) && isSignup ==> r == "Signup failed. Try again."
    ensures (m.None? || m == Some("")) && !isSignup ==> r == "Invalid email or password."
  {
    if m.Some? && m.value != "" then m.value
    else if isSignup then "Signup failed. Try again." else "Invalid email or password."
  }

  function SuccessMessage(isSignup: bool): string {
    if isSignup then "Account created! Welcome to SecretDiary \U{1F389}" else "Welcome back! \U{1F44B}"
  }

  /** The dialog's state. */
  class LoginDialog {
    var isSignup: bool
    var form: Credentials
    var error: string
    var success: string
    var showPassword: bool
    var showConfirmPassword: bool

    constructor ()
      ensures !isSignup && form == BlankCredentials && error == "" && success == ""
      ensures !showPassword && !showConfirmPassword
    {
      isSignup := false;
      form := BlankCredentials;
      error := "";
      success := "";
      showPassword := false;
      showConfirmPassword := false;
    }

    /** handleChange: clears the error and sets the named field. */
    method HandleChange(name: string, value: string)
      modifies this
      ensures error == "" && isSignup == old(isSignup) && success == old(success)
      ensures showPassword == old(showPassword) && showConfirmPassword == old(showConfirmPassword)
      ensures form == match name
        case "name" => old(form).(name := value)
        case "email" => old(form).(email := value)
        case "password" => old(form).(password := value)
        case "confirmPassword" => old(form).(confirmPassword := value)
        case _ => old(form)
    {
      error := "";
      match name
      case "name" => form := form.(name := value);
      case "email" => form := form.(email := value);
      case "password" => form := form.(password := value);
      case "confirmPassword" => form := form.(confirmPassword := value);
      case _ =>
    }

    /**
     * handleSubmit. `outcome` is how the call settles: resolved, or rejected
     * with the server's `error` field when the response has one. Returns the
     * call made, if any; the form and the mode are left as they were.
     */
    method HandleSubmit(outcome: Result<(), Option<string>>) returns (call: Option<Call>)
      modifies this
      ensures isSignup == old(isSignup) && form == old(form)
      ensures showPassword == old(showPassword) && showConfirmPassword == old(showConfirmPassword)
      ensures call.None? <==> ClientError(isSignup, form).Some?
      ensures call.None? ==> error == ClientError(isSignup, form).value && success == ""
      ensures call.Some? ==> call.value == ClientCall(isSignup, form)
      ensures call.Some? && outcome.Success? ==> success == SuccessMessage(isSignup) && error == ""
      ensures call.Some? && outcome.Failure? ==> error == FailureMessage(isSignup, outcome.error) && success == ""
    {
      error := "";
      success := "";
      var failed := ClientError(isSignup, form);
      if failed.Some? {
        error := failed.value;
        return None;
      }
      call := Some(ClientCall(isSignup, form));
      if outcome.Success? {
        success := SuccessMessage(isSignup);
      } else {
        error := FailureMessage(isSignup, outcome.error);
      }
    }

    /** switchMode: the other mode, with a blank form, no messages and both passwords hidden. */
    method SwitchMode()
      modifies this
      ensures isSignup == !old(isSignup)
      ensures form == BlankCredentials && error == "" && success == ""
      ensures !showPassword && !showConfirmPassword
    {
      isSignup := !isSignup;
      error := "";
      success := "";
      form := BlankCredentials;
      showPassword := false;
      showConfirmPassword := false;
    }
  }
}
