/** The sign-up form (app/auth/signup/page.tsx). Submitting runs in two
    steps, split where the handler waits for the authentication service:
    `Submit` clears the error and validates, and `SignUpFinished` records the
    service's answer. */
module Signup {
  import opened Wrappers
  import opened Passwords

  const LoginAfterSignup := "/auth/login?message=Compte créé avec succès"

  class SignupForm {
    var email: string
    var password: string
    var confirmPassword: string
    var error: Option<string>
    var loading: bool

    constructor ()
      ensures email == "" && password == "" && confirmPassword == ""
      ensures error.None? && !loading
    {
      email, password, confirmPassword := "", "", "";
      error, loading := None, false;
    }

    /** The first half of `handleSignup`: any earlier error is cleared; a
        rejected pair sets its message and stops before the service is
        called; an accepted pair turns `loading` on and calls it.
        `called` says whether the sign-up request is sent. */
    method Submit() returns (called: bool)
      modifies this`error, this`loading
      ensures called <==> Check(password, confirmPassword) == Acceptable
      ensures error == RejectionMessage(Check(password, confirmPassword), SignupTooShortMessage)
      ensures loading == (called || old(loading))
    {
      error := None;
      if password != confirmPassword {
        error := Some(MismatchMessage);
        return false;
      }
      if |password| < MinLength {
        error := Some(SignupTooShortMessage);
        return false;
      }
      loading := true;
      called := true;
    }

    /** The second half: on success the page moves to the login page with a
        confirmation message, on failure the service's message (or the
        generic one) is shown; either way `loading` ends false. */
    method SignUpFinished(outcome: Outcome) returns (redirect: Option<string>)
      modifies this`error, this`loading
      ensures !loading
      ensures outcome.Succeeded? ==> redirect == Some(LoginAfterSignup) && error == old(error)
      ensures outcome.Failed? ==> redirect.None? && error == Some(ErrorText(outcome.message))
    {
      if outcome.Succeeded? {
        redirect := Some(LoginAfterSignup);
      } else {
        error := Some(ErrorText(outcome.message));
        redirect := None;
      }
      loading := false;
    }
  }

  /** A whole submission from an idle form: the service is reached only for
      an accepted pair, a short mismatched pair reports the mismatch, and
      the form ends idle with an error exactly when the pair was rejected or
      the service failed. */
  method SubmitAndWait(form: SignupForm, outcome: Outcome) returns (called: bool, redirect: Option<string>)
    requires !form.loading
    modifies form
    ensures called <==> Check(form.password, form.confirmPassword) == Acceptable
    ensures !form.loading
    ensures !called ==> redirect.None? && form.error == RejectionMessage(Check(form.password, form.confirmPassword), SignupTooShortMessage)
    ensures called ==> (form.error.None? <==> outcome.Succeeded?)
    ensures called && outcome.Succeeded? ==> redirect == Some(LoginAfterSignup)
  {
    called := form.Submit();
    redirect := None;
    if called {
      redirect := form.SignUpFinished(outcome);
    }
  }
}
