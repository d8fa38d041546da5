/** The password validators of `UserCreate` and `UserUpdate`
    (app/modules/users/schemas.py). Character classes are the ASCII ones. */
module Passwords {
  import opened Common

  /** The four reasons a password is rejected, in the order they are checked. */
  datatype PasswordError = TooShort | NoUppercase | NoLowercase | NoDigit

  /** The `ValueError` message for each rejection. */
  function Message(e: PasswordError): string
  {
    match e
    case TooShort => "Password must be at least 8 characters long"
    case NoUppercase => "Password must contain at least one uppercase letter"
    case NoLowercase => "Password must contain at least one lowercase letter"
    case NoDigit => "Password must contain at least one number"
  }

  predicate IsUpper(c: char) { 'A' <= c <= 'Z' }
  predicate IsLower(c: char) { 'a' <= c <= 'z' }
  predicate IsDigit(c: char) { '0' <= c <= '9' }

  /** `any(p(c) for c in v)`. */
  function Any(v: string, p: char -> bool): (b: bool)
    ensures b <==> exists k :: 0 <= k < |v| && p(v[k])
  {
    if v == [] then false
    else if p(v[0]) then true
    else
      var b := Any(v[1..], p);
      assert forall k :: 1 <= k < |v| ==> v[k] == v[1..][k - 1];
      b
  }

  predicate HasUpper(v: string) { exists k :: 0 <= k < |v| && IsUpper(v[k]) }
  predicate HasLower(v: string) { exists k :: 0 <= k < |v| && IsLower(v[k]) }
  predicate HasDigit(v: string) { exists k :: 0 <= k < |v| && IsDigit(v[k]) }

  /** `UserCreate.validate_password`: the length check first, then the
      uppercase, lowercase and digit checks; the value is returned as is. */
  function ValidatePassword(v: string): (r: Result<string, PasswordError>)
    ensures r.Ok? ==> r.value == v
    ensures r.Ok? <==> |v| >= 8 && HasUpper(v) && HasLower(v) && HasDigit(v)
    ensures |v| < 8 ==> r == Err(TooShort)
    ensures |v| >= 8 && !HasUpper(v) ==> r == Err(NoUppercase)
    ensures |v| >= 8 && HasUpper(v) && !HasLower(v) ==> r == Err(NoLowercase)
    ensures |v| >= 8 && HasUpper(v) && HasLower(v) && !HasDigit(v) ==> r == Err(NoDigit)
  {
    if |v| < 8 then Err(TooShort)
    else if !Any(v, IsUpper) then Err(NoUppercase)
    else if !Any(v, IsLower) then Err(NoLowercase)
    else if !Any(v, IsDigit) then Err(NoDigit)
    else Ok(v)
  }

  /** `UserUpdate.validate_password`: `None` passes; a given password must
      pass the same four checks. */
  function ValidateOptionalPassword(v: Option<string>): (r: Result<Option<string>, PasswordError>)
    ensures v.None? ==> r == Ok(None)
    ensures v.Some? ==> (r.Ok? <==> ValidatePassword(v.value).Ok?)
    ensures v.Some? && r.Ok? ==> r.value == v
    ensures v.Some? && r.Err? ==> ValidatePassword(v.value) == Err(r.error)
  {
    match v
    case None => Ok(None)
    case Some(p) =>
      match ValidatePassword(p)
      case Ok(_) => Ok(v)
      case Err(e) => Err(e)
  }

  lemma AcceptsMixedPassword()
    ensures ValidatePassword("Secret12") == Ok("Secret12")
  {
    assert IsUpper("Secret12"[0]) && IsLower("Secret12"[1]) && IsDigit("Secret12"[6]);
  }

  lemma RejectsLengthFirst()
    ensures ValidatePassword("short") == Err(TooShort)
  {
  }
}
