/**
 * The password checks shared by the sign-up and update-password pages:
 * the confirmation must match, then the password needs six characters.
 */
module PasswordRules {

  import opened Wrappers

  const MismatchMessage := "Les mots de passe ne correspondent pas"
  const TooShortMessage := "Le mot de passe doit contenir au moins 6 caractères"
  const MinLength := 6

  /** The first failing check's message, or `None` when the password is accepted. */
  function ValidatePassword(password: string, confirmation: string): (error: Option<string>)
    ensures error == Some(MismatchMessage) <==> password != confirmation
    ensures error == Some(TooShortMessage) <==> password == confirmation && |password| < MinLength
    ensures error.None? <==> password == confirmation && |password| >= MinLength
  {
    if password != confirmation then Some(MismatchMessage)
    else if |password| < MinLength then Some(TooShortMessage)
    else None
  }

  /** The mismatch is reported even when the password is also too short. */
  lemma MismatchBeforeLength()
    ensures ValidatePassword("abc", "abd") == Some(MismatchMessage)
  {
  }

  /** Six characters are enough; five are not. */
  lemma LengthBoundary()
    ensures ValidatePassword("abcdef", "abcdef") == None
    ensures ValidatePassword("abcde", "abcde") == Some(TooShortMessage)
  {
  }
}
