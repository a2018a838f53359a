/** The phone-number validator of the store app (store/validators.py). */
module StoreValidators {
  import opened Errors

  const NotDigitsMessage := "Phone number must contain only digits."

  /** An ASCII decimal digit. */
  predicate IsDigit(c: char) {
    '0' <= c <= '9'
  }

  /** Python's `str.isdigit` restricted to ASCII: true for a non-empty
      string whose every character is a digit. */
  function IsDigitString(s: string): (b: bool)
    ensures b <==> |s| > 0 && forall i :: 0 <= i < |s| ==> IsDigit(s[i])
  {
    if |s| == 0 then false
    else if |s| == 1 then IsDigit(s[0])
    else IsDigit(s[0]) && IsDigitString(s[1..])
  }

  /** `validate_mobile_number`: raises unless the string is all digits. */
  function ValidateMobileNumber(phone: string): (o: Outcome)
    ensures o.Pass? <==> |phone| > 0 && forall i :: 0 <= i < |phone| ==> IsDigit(phone[i])
    ensures o.Fail? ==> o.error == Invalid(NotDigitsMessage)
  {
    if !IsDigitString(phone) then Fail(Invalid(NotDigitsMessage)) else Pass
  }

  /** A non-digit anywhere is rejected: '+', '-' and ' ' among others. */
  lemma NonDigitRejected(phone: string, i: nat)
    requires i < |phone| && !IsDigit(phone[i])
    ensures ValidateMobileNumber(phone).Fail?
  {
  }

  /** Accepted numbers stay accepted when concatenated. */
  lemma ConcatenationAccepted(a: string, b: string)
    requires ValidateMobileNumber(a).Pass? && ValidateMobileNumber(b).Pass?
    ensures ValidateMobileNumber(a + b).Pass?
  {
  }

  /** Examples: leading zeros pass, the empty string and a '+' prefix fail. */
  lemma Examples()
    ensures ValidateMobileNumber("09171234567").Pass?
    ensures ValidateMobileNumber("").Fail?
    ensures ValidateMobileNumber("+6391712345").Fail?
    ensures ValidateMobileNumber("0917 123456").Fail?
  {
    assert !IsDigit("+6391712345"[0]);
    assert !IsDigit("0917 123456"[4]);
  }
}
