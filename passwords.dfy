/** The password checks shared by the sign-up and password-reset forms
    (app/auth/signup/page.tsx, app/auth/reset-password/page.tsx): the two
    entries must agree, and only then is the length checked against the
    minimum of six characters. */
module Passwords {
  import opened Wrappers

  const MinLength: nat := 6

  const MismatchMessage := "Les mots de passe ne correspondent pas"
  /** The sign-up form's wording, with the accent. */
  const SignupTooShortMessage := "Le mot de passe doit contenir au moins 6 caractères"
  /** The reset form's wording, without the accent. */
  const ResetTooShortMessage := "Le mot de passe doit contenir au moins 6 caracteres"
  const GenericErrorMessage := "Une erreur est survenue"

  datatype Verdict = Mismatch | TooShort | Acceptable

  function Check(password: string, confirmation: string): (v: Verdict)
    ensures v == Mismatch <==> password != confirmation
    ensures v == TooShort <==> password == confirmation && |password| < MinLength
    ensures v == Acceptable <==> password == confirmation && |password| >= MinLength
  {
    if password != confirmation then Mismatch
    else if |password| < MinLength then TooShort
    else Acceptable
  }

  /** The mismatch is reported first, even when the password is also too
      short; six characters are enough and five are not. */
  lemma CheckExamples()
    ensures Check("abc", "abd") == Mismatch
    ensures Check("abcde", "abcde") == TooShort
    ensures Check("abcdef", "abcdef") == Acceptable
  {
  }

  /** The message shown for a rejected pair; `tooShort` is the form's own wording. */
  function RejectionMessage(v: Verdict, tooShort: string): (m: Option<string>)
    ensures m.None? <==> v == Acceptable
    ensures v == Mismatch ==> m == Some(MismatchMessage)
    ensures v == TooShort ==> m == Some(tooShort)
  {
    match v
    case Mismatch => Some(MismatchMessage)
    case TooShort => Some(tooShort)
    case Acceptable => None
  }

  /** `err.message || 'Une erreur est survenue'`: an absent or empty message
      falls back to the generic one, so the error shown is never empty. */
  function ErrorText(message: Option<string>): (r: string)
    ensures message.None? || message.value == "" ==> r == GenericErrorMessage
    ensures message.Some? && message.value != "" ==> r == message.value
    ensures r != ""
  {
    if message.Some? && message.value != "" then message.value else GenericErrorMessage
  }

  /** What a call to the authentication service answers. */
  datatype Outcome = Succeeded | Failed(message: Option<string>)
}
