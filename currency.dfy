/** The currency validator shared by both serializers
    (payments/payments/utils/utils_serializers.py). */
module Currency {
  import opened Support

  const CURRENCY_ERROR_MESSAGE: string := "Currency must be a 3 character ISO code"

  /** The only length a currency code may have. */
  const CURRENCY_CODE_LENGTH: nat := 3

  /** Accepts exactly the strings of three characters and hands them back unchanged;
      every other string is refused with CURRENCY_ERROR_MESSAGE. No list of real
      ISO 4217 codes is consulted. */
  function ValidateCurrency(value: string): (r: Result<string, string>)
    ensures r.Ok? <==> |value| == CURRENCY_CODE_LENGTH
    ensures r.Ok? ==> r.value == value
    ensures r.Err? ==> r.error == CURRENCY_ERROR_MESSAGE
  {
    if |value| != CURRENCY_CODE_LENGTH then Err(CURRENCY_ERROR_MESSAGE) else Ok(value)
  }

  /** Validating an accepted code again gives the same result. */
  lemma ValidateCurrencyIdempotent(value: string)
    requires ValidateCurrency(value).Ok?
    ensures ValidateCurrency(ValidateCurrency(value).value) == ValidateCurrency(value)
  {
  }

  /** Codes that are not real currencies pass, and two- and four-letter codes fail. */
  lemma ValidateCurrencyExamples()
    ensures ValidateCurrency("ZZZ") == Ok("ZZZ")
    ensures ValidateCurrency("US") == Err(CURRENCY_ERROR_MESSAGE)
    ensures ValidateCurrency("JPAN") == Err(CURRENCY_ERROR_MESSAGE)
    ensures ValidateCurrency("EU") == Err(CURRENCY_ERROR_MESSAGE)
  {
  }
}
