/**
 * The client's form validators. Each returns a result that is either valid
 * or invalid with the message the form shows.
 */
module Validation {
  import opened Wrappers
  import opened JsText

  datatype ValidationResult = Valid | Invalid(error: string)

  /** The argument of `validateAmount`: the raw text of an input or an already numeric value. */
  datatype AmountInput = Text(text: string) | Number(number: JsNumber)

  /** `typeof amount === "string" ? parseFloat(amount) : amount`. */
  function NumericAmount(amount: AmountInput): JsNumber {
    match amount
    case Text(s) => ParseFloat(s)
    case Number(n) => n
  }

  /** `n > 0` for a JavaScript number that is not NaN. */
  predicate Positive(n: JsNumber) {
    n.PosInf? || (n.Finite? && n.value > 0.0)
  }

  /**
   * `validateAmount`: an amount that is not a number is reported as such;
   * a number is accepted exactly when it is greater than zero.
   */
  function ValidateAmount(amount: AmountInput): (r: ValidationResult)
    ensures NumericAmount(amount).NaN? <==> r == Invalid("Please enter a valid number")
    ensures r.Valid? <==> Positive(NumericAmount(amount))
    ensures r.Invalid? && !NumericAmount(amount).NaN? ==> r.error == "Amount must be greater than 0"
  {
    var n := NumericAmount(amount);
    if n.NaN? then Invalid("Please enter a valid number")
    else if n.NegInf? || (n.Finite? && n.value <= 0.0) then Invalid("Amount must be greater than 0")
    else Valid
  }

  /** A whole amount typed in decimal digits is valid exactly when it is positive. */
  lemma ValidateWholeAmount(n: int)
    ensures ValidateAmount(Text(IntToString(n))).Valid? <==> n > 0
    ensures n <= 0 ==> ValidateAmount(Text(IntToString(n))) == Invalid("Amount must be greater than 0")
  {
    ParseIntToString(n);
  }

  /** The field name a validator uses when the caller passes none. */
  const DefaultFieldName := "This field"

  /** `validateRequired(value, fieldName)`: invalid exactly for an empty or whitespace-only value. */
  function ValidateRequired(value: string, fieldName: Option<string>): (r: ValidationResult)
    ensures r.Valid? <==> !AllWhitespace(value)
    ensures r.Invalid? ==> r.error == fieldName.GetOr(DefaultFieldName) + " is required"
  {
    TrimEmptyIffBlank(value);
    if value == "" || Trim(value) == "" then Invalid(fieldName.GetOr(DefaultFieldName) + " is required")
    else Valid
  }

  /** `validateMinLength(value, minLength, fieldName)`: valid exactly when the value is long enough. */
  function ValidateMinLength(value: string, minLength: int, fieldName: Option<string>): (r: ValidationResult)
    ensures r.Valid? <==> |value| >= minLength
    ensures r.Invalid? ==>
      r.error == fieldName.GetOr(DefaultFieldName) + " must be at least " + IntToString(minLength) + " characters"
  {
    if |value| < minLength then
      Invalid(fieldName.GetOr(DefaultFieldName) + " must be at least " + IntToString(minLength) + " characters")
    else Valid
  }

  /** `validatePassword`: a password needs at least four characters. */
  function ValidatePassword(password: string): (r: ValidationResult)
    ensures r.Valid? <==> |password| >= 4
    ensures r == ValidateMinLength(password, 4, Some("Password"))
  {
    ValidateMinLength(password, 4, Some("Password"))
  }

  /** The message a short password gets, spelled out. */
  lemma ShortPasswordMessage(password: string)
    requires |password| < 4
    ensures ValidatePassword(password) == Invalid("Password must be at least 4 characters")
  {
    assert ValidatePassword(password) == Invalid("Password" + " must be at least " + IntToString(4) + " characters");
    assert IntToString(4) == NatToString(4) == "4";
    assert "Password" + " must be at least " + "4" + " characters" == "Password must be at least 4 characters";
  }

  /** `validatePasswordMatch`: valid exactly when the confirmation equals the password. */
  function ValidatePasswordMatch(password: string, confirmPassword: string): (r: ValidationResult)
    ensures r.Valid? <==> password == confirmPassword
    ensures r.Invalid? ==> r.error == "Passwords do not match"
  {
    if password != confirmPassword then Invalid("Passwords do not match") else Valid
  }

  /**
   * `validateUsername`: a blank name is reported as missing before its
   * length is checked, and the length counts the untrimmed name.
   */
  function ValidateUsername(username: string): (r: ValidationResult)
    ensures r.Valid? <==> !AllWhitespace(username) && |username| >= 3
    ensures AllWhitespace(username) ==> r == Invalid("Username is required")
    ensures !AllWhitespace(username) && |username| < 3 ==> r == Invalid("Username must be at least 3 characters")
  {
    TrimEmptyIffBlank(username);
    if username == "" || Trim(username) == "" then Invalid("Username is required")
    else if |username| < 3 then Invalid("Username must be at least 3 characters")
    else Valid
  }

  /**
   * Surrounding whitespace counts toward the length: " a " passes although
   * its trimmed name has one character, while "ab" fails.
   */
  lemma UsernameCountsWhitespace()
    ensures ValidateUsername(" a ").Valid?
    ensures Trim(" a ") == "a"
    ensures ValidateUsername("ab") == Invalid("Username must be at least 3 characters")
  {
    assert !IsWhitespace(" a "[1]);
    assert !IsWhitespace("ab"[0]);
    assert TrimStart(" a ") == TrimStart("a ");
    assert TrimStart("a ") == "a ";
    assert TrimEnd("a ") == TrimEnd("a");
  }
}
