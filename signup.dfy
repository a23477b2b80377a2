/** The sign-up form: three early-return checks on the fields, in a fixed order,
    before the account is requested; the button is disabled while the request is
    outstanding. */
module Signup {
  import opened Optional

  const MinPasswordLength: nat := 6

  datatype SignupError = MissingField | PasswordMismatch | PasswordTooShort

  /** The alert shown for a rejected form. */
  function ErrorMessage(e: SignupError): string
  {
    match e
    case MissingField => "Please fill in all fields"
    case PasswordMismatch => "Passwords do not match"
    case PasswordTooShort => "Password must be at least 6 characters"
  }

  /** The outcome of the checks: the first failing check, or the request to make. */
  datatype Checked = Rejected(error: SignupError) | Request(email: string, password: string)

  /** The guard chain of `handleSignup`: empty fields first, then the confirmation,
      then the length. The request carries exactly the email and the password. */
  function CheckForm(email: string, password: string, confirm: string): (r: Checked)
    ensures r.Request? <==>
      email != [] && password != [] && confirm != [] && password == confirm && |password| >= MinPasswordLength
    ensures r.Request? ==> r.email == email && r.password == password
  {
    if email == [] || password == [] || confirm == [] then Rejected(MissingField)
    else if password != confirm then Rejected(PasswordMismatch)
    else if |password| < MinPasswordLength then Rejected(PasswordTooShort)
    else Request(email, password)
  }

  /** Each rejection names the first check that fails: an empty field wins over a
      mismatch, and a mismatch wins over a short password. */
  lemma FirstFailingCheckWins(email: string, password: string, confirm: string)
    ensures CheckForm(email, password, confirm) == Rejected(MissingField) <==>
      email == [] || password == [] || confirm == []
    ensures CheckForm(email, password, confirm) == Rejected(PasswordMismatch) <==>
      email != [] && password != [] && confirm != [] && password != confirm
    ensures CheckForm(email, password, confirm) == Rejected(PasswordTooShort) <==>
      email != [] && password != [] && confirm != [] && password == confirm && |password| < MinPasswordLength
  {
  }

  datatype Alert = Alert(title: string, message: string)

  /** The answer of the account service. */
  datatype SignupOutcome = Succeeded | Failed(error: string)

  const SuccessAlert: Alert :=
    Alert("Success", "Account created! Please check your email to verify your account.")

  class SignupForm {
    var email: string
    var password: string
    var confirmPassword: string
    var isLoading: bool
    /** The request awaiting its answer. */
    var pending: Option<(string, string)>
    /** The last alert shown. */
    var alert: Option<Alert>

    ghost predicate Valid()
      reads this
    {
      isLoading <==> pending.Some?
    }

    constructor()
      ensures Valid()
      ensures email == [] && password == [] && confirmPassword == []
      ensures !isLoading && alert == None
    {
      email, password, confirmPassword := [], [], [];
      isLoading := false;
      pending := None;
      alert := None;
    }

    /** Typing in the three fields. */
    method Edit(email: string, password: string, confirmPassword: string)
      requires Valid()
      modifies this
      ensures Valid()
      ensures this.email == email && this.password == password && this.confirmPassword == confirmPassword
      ensures isLoading == old(isLoading) && pending == old(pending) && alert == old(alert)
    {
      this.email, this.password, this.confirmPassword := email, password, confirmPassword;
    }

    /** Pressing CREATE ACCOUNT (disabled while loading): a rejected form shows its
        error and requests nothing; an accepted one starts the request with the email
        and password and raises the loading flag. */
    method Submit() returns (request: Option<(string, string)>)
      requires Valid() && !isLoading
      modifies this
      ensures Valid()
      ensures CheckForm(email, password, confirmPassword).Rejected? ==>
        && request == None && !isLoading
        && alert == Some(Alert("Error", ErrorMessage(CheckForm(email, password, confirmPassword).error)))
      ensures CheckForm(email, password, confirmPassword).Request? ==>
        && request == Some((email, password)) && isLoading && pending == request
        && alert == old(alert)
      ensures email == old(email) && password == old(password) && confirmPassword == old(confirmPassword)
    {
      var checked := CheckForm(email, password, confirmPassword);
      match checked
      case Rejected(e) =>
        alert := Some(Alert("Error", ErrorMessage(e)));
        request := None;
      case Request(em, pw) =>
        isLoading := true;
        request := Some((em, pw));
        pending := request;
    }

    /** The answer arrives: the loading flag drops and the outcome is announced. */
    method Answer(outcome: SignupOutcome)
      requires Valid() && isLoading
      modifies this
      ensures Valid() && !isLoading
      ensures alert == Some(if outcome.Succeeded? then SuccessAlert else Alert("Signup Failed", outcome.error))
      ensures email == old(email) && password == old(password) && confirmPassword == old(confirmPassword)
    {
      isLoading := false;
      pending := None;
      alert := Some(if outcome.Succeeded? then SuccessAlert else Alert("Signup Failed", outcome.error));
    }
  }
}
