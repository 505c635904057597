/** The password-reset page (app/auth/reset-password/page.tsx). Two sources
    can mark the recovery session valid: the one-off session check when the
    page opens and the authentication service's state-change callback. Only
    an existing session or a `PASSWORD_RECOVERY` event does so. The form is
    offered only once checking is over and the session is valid. */
module ResetPassword {
  import opened Wrappers
  import opened Passwords

  const PasswordRecovery := "PASSWORD_RECOVERY"

  /** What reaches the page: the session check's answer, or a state-change
      event with its name. */
  datatype SessionEvent = SessionChecked(found: bool) | AuthStateChanged(name: string)

  /** The pair (`isValidSession`, `checkingSession`). */
  datatype SessionFlags = SessionFlags(valid: bool, checking: bool)

  const Opening := SessionFlags(false, true)

  function Step(f: SessionFlags, e: SessionEvent): SessionFlags {
    match e
    case SessionChecked(found) => SessionFlags(f.valid || found, false)
    case AuthStateChanged(name) =>
      if name == PasswordRecovery then SessionFlags(true, false) else f
  }

  /** The flags after the events so far, oldest first. */
  function Replay(events: seq<SessionEvent>): SessionFlags {
    if events == [] then Opening else Step(Replay(events[..|events| - 1]), events[|events| - 1])
  }

  predicate Validates(e: SessionEvent) {
    e == SessionChecked(true) || e == AuthStateChanged(PasswordRecovery)
  }

  predicate EndsCheck(e: SessionEvent) {
    e.SessionChecked? || e == AuthStateChanged(PasswordRecovery)
  }

  /** Whatever the order of arrival, the session is valid exactly when a
      session was found or a recovery event arrived, and checking is over
      exactly when the session check answered or a recovery event arrived. */
  lemma {:induction false} ReplayMeaning(events: seq<SessionEvent>)
    ensures Replay(events).valid <==> exists k :: 0 <= k < |events| && Validates(events[k])
    ensures !Replay(events).checking <==> exists k :: 0 <= k < |events| && EndsCheck(events[k])
  {
    if events != [] {
      var init := events[..|events| - 1];
      ReplayMeaning(init);
      assert forall k :: 0 <= k < |init| ==> init[k] == events[k];
    }
  }

  /** Any other state-change event leaves both flags as they were. */
  lemma OtherEventsIgnored(f: SessionFlags, name: string)
    requires name != PasswordRecovery
    ensures Step(f, AuthStateChanged(name)) == f
  {
  }

  datatype View = CheckingSession | InvalidLink | ResetForm | Done

  class ResetPasswordPage {
    var password: string
    var confirmPassword: string
    var error: Option<string>
    var success: bool
    var loading: bool
    var isValidSession: bool
    var checkingSession: bool

    constructor ()
      ensures password == "" && confirmPassword == "" && error.None?
      ensures !success && !loading
      ensures SessionFlags(isValidSession, checkingSession) == Opening
    {
      password, confirmPassword, error := "", "", None;
      success, loading := false, false;
      isValidSession, checkingSession := false, true;
    }

    /** `checkSession`: a found session makes it valid; checking ends either way. */
    method SessionCheckAnswered(found: bool)
      modifies this`isValidSession, this`checkingSession
      ensures SessionFlags(isValidSession, checkingSession) ==
              Step(old(SessionFlags(isValidSession, checkingSession)), SessionChecked(found))
    {
      if found {
        isValidSession := true;
      }
      checkingSession := false;
    }

    /** The `onAuthStateChange` callback. */
    method AuthStateChange(name: string)
      modifies this`isValidSession, this`checkingSession
      ensures SessionFlags(isValidSession, checkingSession) ==
              Step(old(SessionFlags(isValidSession, checkingSession)), AuthStateChanged(name))
    {
      if name == PasswordRecovery {
        isValidSession := true;
        checkingSession := false;
      }
    }

    function CurrentView(): (v: View)
      reads this
      ensures v == ResetForm <==> !checkingSession && isValidSession && !success
      ensures v == Done <==> !checkingSession && isValidSession && success
      ensures v == InvalidLink <==> !checkingSession && !isValidSession
      ensures v == CheckingSession <==> checkingSession
    {
      if checkingSession then CheckingSession
      else if !isValidSession then InvalidLink
      else if success then Done
      else ResetForm
    }

    /** The first half of `handleSubmit`: the same checks as sign-up, in the
        same order, with this form's wording; the update is requested only
        for an accepted pair. */
    method Submit() returns (called: bool)
      modifies this`error, this`loading
      ensures called <==> Check(password, confirmPassword) == Acceptable
      ensures error == RejectionMessage(Check(password, confirmPassword), ResetTooShortMessage)
      ensures loading == (called || old(loading))
    {
      error := None;
      if password != confirmPassword {
        error := Some(MismatchMessage);
        return false;
      }
      if |password| < MinLength {
        error := Some(ResetTooShortMessage);
        return false;
      }
      loading := true;
      called := true;
    }

    /** The second half: success shows the confirmation, a failure the
        service's message or the generic one; `loading` ends false. */
    method UpdateFinished(outcome: Outcome)
      modifies this`error, this`loading, this`success
      ensures !loading
      ensures outcome.Succeeded? ==> success && error == old(error)
      ensures outcome.Failed? ==> success == old(success) && error == Some(ErrorText(outcome.message))
    {
      if outcome.Succeeded? {
        success := true;
      } else {
        error := Some(ErrorText(outcome.message));
      }
      loading := false;
    }
  }
}
