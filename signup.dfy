/** The sign-up form: four fields, an error line, and the two checks made before
    the (simulated) account creation. */
module Signup {
  import opened Wrappers

  datatype Field = FullName | Email | Password | ConfirmPassword

  const Mismatch := "Passwords don't match"
  const TooShort := "Password must be at least 8 characters"

  /** The first check that fails, in the order `handleSubmit` makes them. */
  function SignupError(password: string, confirm: string): Option<string> {
    if password != confirm then Some(Mismatch)
    else if |password| < 8 then Some(TooShort)
    else None
  }

  /** A submission goes through exactly when the two passwords agree and are at
      least eight characters long; a mismatch is reported even when the password
      is also too short. */
  lemma SignupErrorIff(password: string, confirm: string)
    ensures SignupError(password, confirm) == None <==> password == confirm && |password| >= 8
    ensures password != confirm ==> SignupError(password, confirm) == Some(Mismatch)
    ensures password == confirm && |password| < 8 ==> SignupError(password, confirm) == Some(TooShort)
  {
  }

  class SignupForm {
    var fullName: string
    var email: string
    var password: string
    var confirmPassword: string
    var error: string
    var isLoading: bool
    /** A redirect scheduled by a successful submission and not yet fired. */
    var redirectPending: bool
    var navigatedTo: Option<string>

    constructor ()
      ensures fullName == "" && email == "" && password == "" && confirmPassword == ""
      ensures error == "" && !isLoading && !redirectPending && navigatedTo == None
    {
      fullName := "";
      email := "";
      password := "";
      confirmPassword := "";
      error := "";
      isLoading := false;
      redirectPending := false;
      navigatedTo := None;
    }

    function Value(f: Field): string
      reads this
    {
      match f
      case FullName => fullName
      case Email => email
      case Password => password
      case ConfirmPassword => confirmPassword
    }

    /** `handleChange`: the edited field takes the new value, every other field
        keeps its own, and the error is cleared. */
    method HandleChange(f: Field, value: string)
      modifies this
      ensures Value(f) == value
      ensures forall g :: g != f ==> Value(g) == old(Value(g))
      ensures error == ""
      ensures isLoading == old(isLoading) && redirectPending == old(redirectPending)
      ensures navigatedTo == old(navigatedTo)
    {
      match f {
        case FullName => fullName := value;
        case Email => email := value;
        case Password => password := value;
        case ConfirmPassword => confirmPassword := value;
      }
      error := "";
    }

    /** `handleSubmit`: the error shows the first failing check, and only when both
        pass does loading start and the redirect get scheduled. */
    method HandleSubmit()
      modifies this
      ensures SignupError(password, confirmPassword).Some? ==>
                error == SignupError(password, confirmPassword).value
                && isLoading == old(isLoading) && redirectPending == old(redirectPending)
      ensures SignupError(password, confirmPassword).None? ==> error == "" && isLoading && redirectPending
      ensures fullName == old(fullName) && email == old(email)
      ensures password == old(password) && confirmPassword == old(confirmPassword)
      ensures navigatedTo == old(navigatedTo)
    {
      error := "";
      if password != confirmPassword {
        error := Mismatch;
        return;
      }
      if |password| < 8 {
        error := TooShort;
        return;
      }
      isLoading := true;
      redirectPending := true;
    }

    /** The scheduled timeout: loading ends and the dashboard opens. */
    method RedirectFired()
      requires redirectPending
      modifies this
      ensures !isLoading && !redirectPending && navigatedTo == Some("/dashboard")
      ensures fullName == old(fullName) && email == old(email) && error == old(error)
      ensures password == old(password) && confirmPassword == old(confirmPassword)
    {
      isLoading := false;
      redirectPending := false;
      navigatedTo := Some("/dashboard");
    }
  }
}
