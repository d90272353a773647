/**
 Request validation of the `Password` model: both fields have a minimum
 length, and the `check_passwords_match` validator, which runs after the field
 checks, rejects a pair that differs. A request that fails this validation is
 answered 422 before any controller runs.
 */
module AccountModel {

  datatype PasswordError = TooShort | Mismatch

  datatype Validated = Valid(password: string, confirmPassword: string) | Invalid(error: PasswordError)

  /** Validate a (password, confirm_password) pair against the configured
      minimum length. */
  function ValidatePassword(password: string, confirm: string, minLength: int): (r: Validated)
    ensures r.Valid? <==> |password| >= minLength && |confirm| >= minLength && password == confirm
    ensures r.Valid? ==> r.password == password && r.confirmPassword == confirm
    ensures r == Invalid(Mismatch) <==>
              |password| >= minLength && |confirm| >= minLength && password != confirm
  {
    if |password| < minLength || |confirm| < minLength then Invalid(TooShort)
    else if password != confirm then Invalid(Mismatch)
    else Valid(password, confirm)
  }

  /** The validation does not care which field is which. */
  lemma ValidationSymmetric(password: string, confirm: string, minLength: int)
    ensures ValidatePassword(password, confirm, minLength).Valid?
        <==> ValidatePassword(confirm, password, minLength).Valid?
    ensures ValidatePassword(password, confirm, minLength).Invalid?
        ==> ValidatePassword(confirm, password, minLength) == ValidatePassword(password, confirm, minLength)
  {
  }
}
