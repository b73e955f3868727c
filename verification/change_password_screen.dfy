/** The change-password screen's live validation: four strength
    requirements on the new password, the confirmation match, the form's
    validity (which enables the save button) and when the mismatch error
    and the requirements panel are shown. */
module ChangePasswordScreen {
  import opened Seqs
  import opened Text

  datatype PasswordForm = PasswordForm(current: string, newPassword: string, confirm: string)

  const MinStrongLength := 8

  predicate HasMinLength(f: PasswordForm) {
    |f.newPassword| >= MinStrongLength
  }

  /** The new password contains some upper-case letter. */
  function HasUpperCase(f: PasswordForm): (b: bool)
    ensures b <==> exists i :: 0 <= i < |f.newPassword| && IsUpper(f.newPassword[i])
  {
    Any(f.newPassword, IsUpper)
  }

  /** The new password contains some lower-case letter. */
  function HasLowerCase(f: PasswordForm): (b: bool)
    ensures b <==> exists i :: 0 <= i < |f.newPassword| && IsLower(f.newPassword[i])
  {
    Any(f.newPassword, IsLower)
  }

  /** The new password contains some digit. */
  function HasNumber(f: PasswordForm): (b: bool)
    ensures b <==> exists i :: 0 <= i < |f.newPassword| && IsDigit(f.newPassword[i])
  {
    Any(f.newPassword, IsDigit)
  }

  /** Confirmation equals the new password and is not empty: two empty
      fields do not match. */
  function PasswordsMatch(f: PasswordForm): (b: bool)
    ensures b ==> |f.newPassword| > 0
    ensures b <==> f.newPassword == f.confirm && f.confirm != ""
  {
    f.newPassword == f.confirm && |f.confirm| > 0
  }

  /** The form may be submitted (the save button is enabled). */
  function IsFormValid(f: PasswordForm): (b: bool)
    ensures b ==> |f.current| > 0 && |f.newPassword| >= MinStrongLength && f.newPassword == f.confirm
    ensures b <==> |f.current| > 0 && HasMinLength(f) && HasUpperCase(f) && HasLowerCase(f)
                   && HasNumber(f) && PasswordsMatch(f)
  {
    |f.current| > 0 && HasMinLength(f) && HasUpperCase(f) && HasLowerCase(f) && HasNumber(f) && PasswordsMatch(f)
  }

  /** The "passwords do not match" error under the confirmation field. */
  predicate ShowsMismatchError(f: PasswordForm) {
    |f.confirm| > 0 && !PasswordsMatch(f)
  }

  /** The requirements panel is shown once something is typed as new password. */
  predicate ShowsRequirements(f: PasswordForm) {
    |f.newPassword| > 0
  }

  /** A submittable form shows the requirements panel (all satisfied) and no
      mismatch error; and the mismatch error appears exactly when a
      non-empty confirmation differs from the new password. */
  lemma ValidFormDisplay(f: PasswordForm)
    ensures IsFormValid(f) ==> ShowsRequirements(f) && !ShowsMismatchError(f)
    ensures ShowsMismatchError(f) <==> f.confirm != "" && f.confirm != f.newPassword
  {
  }
}
