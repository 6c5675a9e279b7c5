/**
 * The registration form: three checks on the fields, run in a fixed order,
 * the first failure shown as the form's error, and the account request made
 * only when every check passes.
 */
module Registration {
  import opened Wrappers

  datatype RegisterError = AllFieldsRequired | PasswordsDoNotMatch | PasswordTooShort

  /** The shortest password the form accepts. */
  const MinPasswordLength := 3

  /** The text shown for each error. */
  function Message(e: RegisterError): (m: string)
    ensures m != ""
  {
    match e
    case AllFieldsRequired => "All fields are required"
    case PasswordsDoNotMatch => "Passwords do not match"
    case PasswordTooShort => "Password must be at least 3 characters long"
  }

  /** The three messages differ, so the text shown names the check that failed. */
  lemma MessagesDistinct(a: RegisterError, b: RegisterError)
    ensures Message(a) == Message(b) <==> a == b
  {
    if a != b {
      assert Message(a)[0..5] != Message(b)[0..5] || Message(a)[9] != Message(b)[9];
    }
  }

  /** The validation cascade: empty fields first, then the confirmation, then the length. */
  function Validate(username: string, password: string, confirmPassword: string): (r: Option<RegisterError>)
    ensures r == Some(AllFieldsRequired) <==> username == [] || password == [] || confirmPassword == []
    ensures r == Some(PasswordsDoNotMatch) <==>
      username != [] && password != [] && confirmPassword != [] && password != confirmPassword
    ensures r == Some(PasswordTooShort) <==>
      username != [] && password != [] && confirmPassword != [] && password == confirmPassword
      && |password| < MinPasswordLength
    ensures r.None? <==>
      username != [] && password == confirmPassword && |password| >= MinPasswordLength
  {
    if username == [] || password == [] || confirmPassword == [] then Some(AllFieldsRequired)
    else if password != confirmPassword then Some(PasswordsDoNotMatch)
    else if |password| < MinPasswordLength then Some(PasswordTooShort)
    else None
  }

  /** The form's fields and its local error text (empty when there is none). */
  class RegisterForm {
    var username: string
    var password: string
    var confirmPassword: string
    var localError: string

    constructor ()
      ensures username == [] && password == [] && confirmPassword == [] && localError == []
    {
      username, password, confirmPassword, localError := [], [], [], [];
    }

    /**
     * Submitting clears the error, then shows the first failed check; the
     * account request is made exactly when no check fails, and then no error
     * is shown.
     */
    method HandleSubmit() returns (callsRegister: bool)
      modifies this`localError
      ensures callsRegister <==> Validate(username, password, confirmPassword).None?
      ensures callsRegister ==> localError == []
      ensures !callsRegister ==> localError == Message(Validate(username, password, confirmPassword).value)
    {
      localError := [];
      var outcome := Validate(username, password, confirmPassword);
      if outcome.Some? {
        localError := Message(outcome.value);
        return false;
      }
      return true;
    }
  }
}
