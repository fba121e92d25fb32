/**
 * The submit handler of `src/pages/ResetPasswordPage.tsx`: two checks in a fixed order,
 * then the password update, whose outcome is a parameter.
 */
module ResetPassword {
  import opened Common

  const TooShort := "Password must be at least 6 characters long"
  const Mismatch := "Passwords do not match"
  const UpdateFailed := "Failed to update password. Please try again."

  /** The checks before the update: the length check is made first, then the match. */
  function Validate(password: string, confirm: string): (r: Option<string>)
    ensures r == Some(TooShort) <==> |password| < 6
    ensures r == Some(Mismatch) <==> |password| >= 6 && password != confirm
    ensures r.None? <==> |password| >= 6 && password == confirm
  {
    if |password| < 6 then Some(TooShort)
    else if password != confirm then Some(Mismatch)
    else None
  }

  /** The form's state, with the passwords handed to `updatePassword` so far. */
  class ResetForm {
    var password: string
    var confirmPassword: string
    var error: string
    var success: bool
    var updates: seq<string>

    constructor()
      ensures password == "" && confirmPassword == "" && error == "" && !success && updates == []
    {
      password := "";
      confirmPassword := "";
      error := "";
      success := false;
      updates := [];
    }

    /**
     * `handleSubmit`. The error is cleared first; a failed check shows its message and makes
     * no update; otherwise the password is sent once, and `outcome` is how that call ended.
     */
    method HandleSubmit(outcome: Outcome)
      modifies this
      ensures password == old(password) && confirmPassword == old(confirmPassword)
      ensures Validate(password, confirmPassword).Some? ==>
        error == Validate(password, confirmPassword).value && success == old(success) && updates == old(updates)
      ensures Validate(password, confirmPassword).None? ==> updates == old(updates) + [password]
      ensures Validate(password, confirmPassword).None? && outcome.Done? ==> success && error == ""
      ensures Validate(password, confirmPassword).None? && outcome.Failed? ==>
        success == old(success) && error == (if outcome.message != "" then outcome.message else UpdateFailed)
    {
      error := "";
      if |password| < 6 {
        error := TooShort;
        return;
      }
      if password != confirmPassword {
        error := Mismatch;
        return;
      }
      updates := updates + [password];
      match outcome
      case Done =>
        success := true;
      case Failed(m) =>
        error := if m != "" then m else UpdateFailed;
    }
  }
}
