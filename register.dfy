/**
 * The registration form (src/components/Register.js): the input validation and
 * the gate it puts in front of `POST /auth/register`.
 */
module Register {
  import opened Web
  import Login

  const PasswordsDiffer := "Passwords do not match"

  /** The registration form's five checks, in the order `validateInput` tries them. */
  function RegisterChecks(username: string, password: string, confirmPassword: string): (checks: seq<Login.Check>)
    ensures checks == Login.LoginChecks(username, password) + [Login.Check(password == confirmPassword, PasswordsDiffer)]
  {
    [ Login.Check(username != "", Login.UsernameRequired),
      Login.Check(|username| > 5, Login.UsernameTooShort),
      Login.Check(password != "", Login.PasswordRequired),
      Login.Check(|password| > 5, Login.PasswordTooShort),
      Login.Check(password == confirmPassword, PasswordsDiffer) ]
  }

  /**
   * `validateInput({ username, password, confirmPassword })`: the same four
   * checks as the login form, then the confirmation. The source returns `true`
   * on success and falls off the end (`undefined`) otherwise, never `false`;
   * only its truthiness is used.
   */
  function ValidateInput(username: string, password: string, confirmPassword: string): (v: Login.Validation)
    ensures v == Login.Valid <==> |username| >= 6 && |password| >= 6 && password == confirmPassword
    ensures v == Login.FirstFailure(RegisterChecks(username, password, confirmPassword))
    ensures username == "" ==> v == Login.Invalid(Login.UsernameRequired)
    ensures 0 < |username| <= 5 ==> v == Login.Invalid(Login.UsernameTooShort)
    ensures |username| >= 6 && password == "" ==> v == Login.Invalid(Login.PasswordRequired)
    ensures |username| >= 6 && 0 < |password| <= 5 ==> v == Login.Invalid(Login.PasswordTooShort)
    ensures |username| >= 6 && |password| >= 6 && password != confirmPassword ==> v == Login.Invalid(PasswordsDiffer)
  {
    var checks := RegisterChecks(username, password, confirmPassword);
    assert Login.FirstFailing(checks[4..]) == (if checks[4].passes then 1 else 0);
    assert Login.FirstFailing(checks[3..]) == (if checks[3].passes then 1 + Login.FirstFailing(checks[4..]) else 0);
    assert Login.FirstFailing(checks[2..]) == (if checks[2].passes then 1 + Login.FirstFailing(checks[3..]) else 0);
    assert Login.FirstFailing(checks[1..]) == (if checks[1].passes then 1 + Login.FirstFailing(checks[2..]) else 0);
    if username == "" then Login.Invalid(Login.UsernameRequired)
    else if |username| <= 5 then Login.Invalid(Login.UsernameTooShort)
    else if password == "" then Login.Invalid(Login.PasswordRequired)
    else if |password| <= 5 then Login.Invalid(Login.PasswordTooShort)
    else if password != confirmPassword then Login.Invalid(PasswordsDiffer)
    else Login.Valid
  }

  /**
   * The registration checks are the login checks followed by the confirmation:
   * a login failure is reported word for word, and the confirmation is reached
   * only once the login checks pass.
   */
  lemma {:induction false} ExtendsLoginValidation(username: string, password: string, confirmPassword: string)
    ensures Login.ValidateInput(username, password).Invalid? ==>
              ValidateInput(username, password, confirmPassword) == Login.ValidateInput(username, password)
    ensures Login.ValidateInput(username, password) == Login.Valid ==>
              ValidateInput(username, password, confirmPassword) ==
                if password == confirmPassword then Login.Valid else Login.Invalid(PasswordsDiffer)
  {
    var tail := [Login.Check(password == confirmPassword, PasswordsDiffer)];
    assert RegisterChecks(username, password, confirmPassword) == Login.LoginChecks(username, password) + tail;
    Login.FirstFailureAppend(Login.LoginChecks(username, password), tail);
    assert Login.FirstFailing(tail[1..]) == 0;
  }

  /** Whatever the registration form accepts, the login form accepts too. */
  lemma AcceptedByLogin(username: string, password: string, confirmPassword: string)
    requires ValidateInput(username, password, confirmPassword) == Login.Valid
    ensures Login.ValidateInput(username, password) == Login.Valid
  {
    ExtendsLoginValidation(username, password, confirmPassword);
  }

  /** The `Register` component's `formStatus` state. */
  class RegisterPage {
    var formStatus: Login.FormStatus

    constructor ()
      ensures formStatus == Login.Unsubmitted
    {
      formStatus := Login.Unsubmitted;
    }

    /**
     * `register(userDetail)` up to the request: an input that fails validation
     * shows its one message and sends nothing; a valid one marks the form
     * submitted and posts only the username and password, never the
     * confirmation.
     */
    method Register(username: string, password: string, confirmPassword: string)
      returns (request: Option<Login.Credentials>, notice: Option<Notice>)
      modifies this
      ensures request.Some? <==> ValidateInput(username, password, confirmPassword) == Login.Valid
      ensures request.Some? ==> request.value == Login.Credentials(username, password) && formStatus == Login.Submitted && notice == None
      ensures request.None? ==> formStatus == old(formStatus) &&
                                notice == Some(Notice(ValidateInput(username, password, confirmPassword).message, Plain))
    {
      var v := ValidateInput(username, password, confirmPassword);
      if v == Login.Valid {
        formStatus := Login.Submitted;
        request, notice := Some(Login.Credentials(username, password)), None;
      } else {
        request, notice := None, Some(Notice(v.message, Plain));
      }
    }
  }
}
