/**
 * The login form (src/components/Login.js): the input validation and the gate
 * it puts in front of `POST /auth/login`.
 */
module Login {
  import opened Web

  const UsernameRequired := "Username is a required field"
  const UsernameTooShort := "Username must be at least 6 characters"
  const PasswordRequired := "Password is a required field"
  const PasswordTooShort := "Password must be at least 6 characters"

  /** The verdict of a validator: pass, or the one message of the check that failed first. */
  datatype Validation = Valid | Invalid(message: string)

  /** One check of a validator: whether the input passes it and the message shown when it does not. */
  datatype Check = Check(passes: bool, message: string)

  /** The position of the first check that fails, or |checks| when all pass. */
  function FirstFailing(checks: seq<Check>): (k: nat)
    ensures k <= |checks|
    ensures k < |checks| ==> !checks[k].passes
    ensures forall j :: 0 <= j < k ==> checks[j].passes
  {
    if checks == [] then 0
    else if !checks[0].passes then 0
    else 1 + FirstFailing(checks[1..])
  }

  /** Checks run in order and the first one that fails decides the message. */
  function FirstFailure(checks: seq<Check>): (v: Validation)
    ensures v == Valid <==> forall i :: 0 <= i < |checks| ==> checks[i].passes
    ensures v.Invalid? ==> exists k :: 0 <= k < |checks| && !checks[k].passes && v.message == checks[k].message &&
                                       forall j :: 0 <= j < k ==> checks[j].passes
  {
    var k := FirstFailing(checks);
    if k < |checks| then Invalid(checks[k].message) else Valid
  }

  /** Running one list of checks after another: the first list decides unless it passes entirely. */
  lemma FirstFailureAppend(a: seq<Check>, b: seq<Check>)
    ensures FirstFailure(a + b) == if FirstFailure(a).Invalid? then FirstFailure(a) else FirstFailure(b)
  {
    FirstFailingAppend(a, b);
    var k := FirstFailing(a);
    if k < |a| {
      assert (a + b)[k] == a[k];
    } else {
      var m := FirstFailing(b);
      if m < |b| { assert (a + b)[|a| + m] == b[m]; }
    }
  }

  lemma {:induction false} FirstFailingAppend(a: seq<Check>, b: seq<Check>)
    ensures FirstFailing(a + b) == if FirstFailing(a) < |a| then FirstFailing(a) else |a| + FirstFailing(b)
  {
    if a != [] {
      assert (a + b)[1..] == a[1..] + b;
      assert (a + b)[0] == a[0];
      FirstFailingAppend(a[1..], b);
    } else {
      assert a + b == b;
    }
  }

  /** The login form's four checks, in the order `validateInput` tries them. */
  function LoginChecks(username: string, password: string): (checks: seq<Check>)
    ensures |checks| == 4
    ensures (forall i :: 0 <= i < 4 ==> checks[i].passes) <==> |username| >= 6 && |password| >= 6
    ensures !checks[1].passes ==> checks[1].message == UsernameTooShort && |username| < 6
    ensures !checks[3].passes ==> checks[3].message == PasswordTooShort && |password| < 6
  {
    var checks := [ Check(username != "", UsernameRequired),
                    Check(|username| > 5, UsernameTooShort),
                    Check(password != "", PasswordRequired),
                    Check(|password| > 5, PasswordTooShort) ];
    assert (forall i :: 0 <= i < 4 ==> checks[i].passes) ==> checks[1].passes && checks[3].passes;
    checks
  }

  /**
   * `validateInput({ username, password })`: the if/else-if chain; the string
   * lengths are taken as they are, with no trimming.
   */
  function ValidateInput(username: string, password: string): (v: Validation)
    ensures v == Valid <==> |username| >= 6 && |password| >= 6
    ensures v == FirstFailure(LoginChecks(username, password))
    ensures username == "" ==> v == Invalid(UsernameRequired)
    ensures 0 < |username| <= 5 ==> v == Invalid(UsernameTooShort)
    ensures |username| >= 6 && password == "" ==> v == Invalid(PasswordRequired)
    ensures |username| >= 6 && 0 < |password| <= 5 ==> v == Invalid(PasswordTooShort)
  {
    var checks := LoginChecks(username, password);
    assert FirstFailing(checks[3..]) == (if checks[3].passes then 1 else 0);
    assert FirstFailing(checks[2..]) == (if checks[2].passes then 1 + FirstFailing(checks[3..]) else 0);
    assert FirstFailing(checks[1..]) == (if checks[1].passes then 1 + FirstFailing(checks[2..]) else 0);
    if username == "" then Invalid(UsernameRequired)
    else if |username| <= 5 then Invalid(UsernameTooShort)
    else if password == "" then Invalid(PasswordRequired)
    else if |password| <= 5 then Invalid(PasswordTooShort)
    else Valid
  }

  /** The `username` and `password` fields of the JSON the form posts. */
  datatype Credentials = Credentials(username: string, password: string)

  datatype FormStatus = Unsubmitted | Submitted

  /** The `formStatus` state of the `Login` component. */
  class LoginPage {
    var formStatus: FormStatus

    constructor ()
      ensures formStatus == Unsubmitted
    {
      formStatus := Unsubmitted;
    }

    /**
     * `login(formData)` up to the request: an input that fails validation shows
     * its one message and sends nothing; a valid one marks the form submitted
     * and posts the username and password.
     */
    method Login(username: string, password: string) returns (request: Option<Credentials>, notice: Option<Notice>)
      modifies this
      ensures request.Some? <==> ValidateInput(username, password) == Valid
      ensures request.Some? ==> request.value == Credentials(username, password) && formStatus == Submitted && notice == None
      ensures request.None? ==> formStatus == old(formStatus) &&
                                notice == Some(Notice(ValidateInput(username, password).message, Plain))
    {
      var v := ValidateInput(username, password);
      if v == Valid {
        formStatus := Submitted;
        request, notice := Some(Credentials(username, password)), None;
      } else {
        request, notice := None, Some(Notice(v.message, Plain));
      }
    }
  }
}
