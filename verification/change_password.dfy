/** The password-change form (frontend/src/components/ChangePassword.js): its
    three inputs, the per-field messages, and the banners, updated by the
    change and submit handlers. The form checks the new password with the
    same rule as the server's `validatePassword`. */
module ChangePasswordForm {
  import opened Common
  import opened Validation

  const CurrentRequired := "Current password is required"
  const PasswordsMismatch := "Passwords do not match"
  const MustDiffer := "New password must be different from current password"
  const Changed := "Password changed successfully!"

  /** The inputs' `name`s. */
  datatype Field = CurrentField | NewField | ConfirmField

  /** A message is shown when it is present and not empty. */
  predicate Shown(m: map<Field, Option<string>>, f: Field) {
    f in m && m[f].Some? && m[f].value != ""
  }

  /** What the three inputs may hold for the form to be sent. */
  predicate FormValid(current: string, next: string, confirm: string) {
    current != "" && ValidatePassword(next).None? && next == confirm && current != next
  }

  /** The messages `validateForm` records for the inputs: one per failed check,
      the "must differ" message replacing the password rule's. */
  predicate FormErrors(m: map<Field, Option<string>>, current: string, next: string, confirm: string) {
    && (CurrentField in m <==> current == "")
    && (CurrentField in m ==> m[CurrentField] == Some(CurrentRequired))
    && (NewField in m <==> ValidatePassword(next).Some? || current == next)
    && (NewField in m ==> m[NewField] == Some(if current == next then MustDiffer else ValidatePassword(next).value))
    && (ConfirmField in m <==> next != confirm)
    && (ConfirmField in m ==> m[ConfirmField] == Some(PasswordsMismatch))
  }

  /** A form the client sends passes the server's checks before the current
      password is compared: both passwords present, the new one well formed. */
  lemma ValidFormPassesServerChecks(current: string, next: string, confirm: string)
    requires FormValid(current, next, confirm)
    ensures current != "" && next != "" && ValidatePassword(next).None?
  {
  }

  class Form {
    var currentPassword: string
    var newPassword: string
    var confirmPassword: string
    var error: string
    var success: string
    var validationErrors: map<Field, Option<string>>

    function Value(f: Field): string
      reads this
    {
      match f
      case CurrentField => currentPassword
      case NewField => newPassword
      case ConfirmField => confirmPassword
    }

    constructor ()
      ensures currentPassword == "" && newPassword == "" && confirmPassword == ""
      ensures error == "" && success == "" && validationErrors == map[]
    {
      currentPassword, newPassword, confirmPassword := "", "", "";
      error, success := "", "";
      validationErrors := map[];
    }

    /** `handleChange`: store the input, hide its own message (others stay),
        and clear both banners. */
    method HandleChange(name: Field, value: string)
      modifies this
      ensures Value(name) == value
      ensures forall f :: f != name ==> Value(f) == old(Value(f))
      ensures !Shown(validationErrors, name)
      ensures forall f :: f != name ==> (f in validationErrors <==> f in old(validationErrors))
      ensures forall f | f != name && f in validationErrors :: validationErrors[f] == old(validationErrors)[f]
      ensures name in validationErrors <==> name in old(validationErrors)
      ensures error == "" && success == ""
    {
      match name {
        case CurrentField => currentPassword := value;
        case NewField => newPassword := value;
        case ConfirmField => confirmPassword := value;
      }
      if Shown(validationErrors, name) {
        validationErrors := validationErrors[name := None];
      }
      error, success := "", "";
    }

    /** `validateForm`: the checks in order, each adding its message; the last
        one overwrites the password rule's message. */
    method ValidateForm() returns (valid: bool)
      modifies this
      ensures FormErrors(validationErrors, currentPassword, newPassword, confirmPassword)
      ensures valid <==> validationErrors == map[]
      ensures valid <==> FormValid(currentPassword, newPassword, confirmPassword)
      ensures currentPassword == old(currentPassword) && newPassword == old(newPassword)
      ensures confirmPassword == old(confirmPassword)
      ensures error == old(error) && success == old(success)
    {
      var errors: map<Field, Option<string>> := map[];
      if currentPassword == "" {
        errors := errors[CurrentField := Some(CurrentRequired)];
      }
      var passwordError := ValidatePassword(newPassword);
      if passwordError.Some? {
        errors := errors[NewField := passwordError];
      }
      if newPassword != confirmPassword {
        errors := errors[ConfirmField := Some(PasswordsMismatch)];
      }
      if currentPassword == newPassword {
        errors := errors[NewField := Some(MustDiffer)];
      }
      validationErrors := errors;
      valid := |errors.Keys| == 0;
      // a map with no keys is the empty map
      assert valid <==> errors == map[] by {
        if !valid {
          var f :| f in errors.Keys;
          assert errors != map[];
        }
      }
    }

    /** `handleSubmit`. `changePassword` is the session's request: `None` when
        the server accepted it, the message to show otherwise. An invalid form
        is not sent and shows its messages; a sent form clears its inputs on
        success and keeps them, with the message, on failure. */
    method HandleSubmit(changePassword: (string, string) -> Option<string>) returns (submitted: bool)
      modifies this
      ensures submitted <==> FormValid(old(currentPassword), old(newPassword), old(confirmPassword))
      ensures !submitted ==>
                && error == "" && success == ""
                && currentPassword == old(currentPassword) && newPassword == old(newPassword)
                && confirmPassword == old(confirmPassword)
                && FormErrors(validationErrors, currentPassword, newPassword, confirmPassword)
      ensures submitted ==> validationErrors == map[]
      ensures submitted && changePassword(old(currentPassword), old(newPassword)).None? ==>
                && success == Changed && error == ""
                && currentPassword == "" && newPassword == "" && confirmPassword == ""
      ensures submitted && changePassword(old(currentPassword), old(newPassword)).Some? ==>
                && error == changePassword(old(currentPassword), old(newPassword)).value && success == ""
                && currentPassword == old(currentPassword) && newPassword == old(newPassword)
                && confirmPassword == old(confirmPassword)
    {
      error, success := "", "";
      var valid := ValidateForm();
      if !valid {
        return false;
      }
      var result := changePassword(currentPassword, newPassword);
      if result.None? {
        success := Changed;
        currentPassword, newPassword, confirmPassword := "", "", "";
        validationErrors := map[];
      } else {
        error := result.value;
      }
      submitted := true;
    }
  }
}
