/** The behaviour of the serializer field kinds the two serializers declare, written
    out as functions: what each field makes of the value it is given (missing key,
    null, a value of the wrong kind, a value that breaks a limit, a good value). */
module Fields {
  import opened Support
  import opened Decimals
  import Currency

  /** One value of a request body. Values arrive already decoded into the kind of
      the field they are aimed at: a number is a Number or Integer, a date-time a
      Moment, a UUID a Uuid, and Text is text that is none of these. */
  datatype Value =
    | Null
    | Text(text: string)
    | Integer(integer: int)
    | Number(number: Decimal)
    | Moment(moment: Timestamp)
    | Uuid(uuid: Guid)

  /** A request body, or the data handed to a serializer, or a serialised record. */
  type Payload = map<string, Value>

  /** The reasons a field refuses its input. */
  datatype FieldError =
    | Required                             // "This field is required."
    | NotNull                              // "This field may not be null."
    | NotBlank                             // "This field may not be blank."
    | NotAString                           // "Not a valid string."
    | TooLong(maxLength: nat)              // "Ensure this field has no more than N characters."
    | InvalidChoice(input: Value)          // "\"X\" is not a valid choice."
    | NotANumber                           // "A valid number is required."
    | TooManyDigits(maxDigits: nat)        // "... no more than N digits in total."
    | TooManyDecimalPlaces(places: nat)    // "... no more than N decimal places."
    | TooManyWholeDigits(maxWhole: nat)    // "... no more than N digits before the decimal point."
    | NotADateTime                         // "Datetime has wrong format. ..."
    | IncorrectPkType                      // "Incorrect type. Expected pk value, ..."
    | NoSuchObject(pk: int)                // "Invalid pk \"N\" - object does not exist."
    | Message(text: string)                // a validator's own message

  /** The per-field error map of a refused serializer. */
  type Errors = map<string, FieldError>

  /** What one field makes of its input: left out of the validated data (a field that is
      not required and was not given), a validated value, or an error. */
  datatype Outcome<+T> = Skipped | Valid(value: T) | Invalid(error: FieldError)

  /** What a field that did not refuse its input contributes: its value, or nothing
      when it was skipped. */
  function Given<T>(o: Outcome<T>): (r: Option<T>)
    requires !o.Invalid?
    ensures r.Some? <==> o.Valid?
    ensures r.Some? ==> r.value == o.value
  {
    if o.Valid? then Some(o.value) else None
  }

  /** The input a field sees: the value under its name, or nothing. */
  function Input(data: Payload, key: string): Option<Value>
  {
    if key in data then Some(data[key]) else None
  }

  /** The one-entry error map of a refused field, empty otherwise. */
  function ErrorOf<T>(key: string, o: Outcome<T>): (e: Errors)
    ensures key in e <==> o.Invalid?
    ensures e.Keys <= {key}
    ensures o.Invalid? ==> e[key] == o.error
  {
    if o.Invalid? then map[key := o.error] else map[]
  }

  /** The error map with the refusal of one more field added under its name. */
  function AddError<T>(e: Errors, key: string, o: Outcome<T>): (r: Errors)
    ensures r.Keys == if o.Invalid? then e.Keys + {key} else e.Keys
    ensures o.Invalid? ==> r[key] == o.error
    ensures forall k | k in e && k != key :: r[k] == e[k]
  {
    if o.Invalid? then e[key := o.error] else e
  }

  /** The character of one decimal digit. */
  function DigitChar(d: nat): (c: char)
    requires d < 10
    ensures '0' <= c <= '9' && c as int - '0' as int == d
  {
    ('0' as int + d) as char
  }

  /** The decimal digits of n, most significant first, with no leading zero: the text
      `str()` gives for a non-negative integer. */
  function NatText(n: nat): (s: string)
    ensures s != []
    ensures forall i | 0 <= i < |s| :: '0' <= s[i] <= '9'
  {
    if n < 10 then [DigitChar(n)] else NatText(n / 10) + [DigitChar(n % 10)]
  }

  /** The text of n has exactly as many characters as n has digits. */
  lemma {:induction false} NatTextLength(n: nat)
    ensures |NatText(n)| == Digits(n)
  {
    if n >= 10 {
      NatTextLength(n / 10);
    }
  }

  /** The number a string of decimal digits denotes. */
  function NatValue(s: string): nat
    requires forall i | 0 <= i < |s| :: '0' <= s[i] <= '9'
  {
    if s == [] then 0 else 10 * NatValue(s[..|s| - 1]) + (s[|s| - 1] as int - '0' as int)
  }

  /** Reading the digits of n back gives n: the rendering loses nothing. */
  lemma {:induction false} NatTextRoundTrip(n: nat)
    ensures NatValue(NatText(n)) == n
  {
    if n >= 10 {
      NatTextRoundTrip(n / 10);
      var s := NatText(n);
      assert s == NatText(n / 10) + [DigitChar(n % 10)];
      assert s[..|s| - 1] == NatText(n / 10);
      assert s[|s| - 1] as int - '0' as int == n % 10;
    }
  }

  /** The text `str()` gives for an integer: its digits, after a minus sign when negative. */
  function IntText(i: int): (s: string)
    ensures s != []
    ensures i < 0 <==> s[0] == '-'
  {
    if i < 0 then "-" + NatText(-i) else NatText(i)
  }

  /** An integer's text is its sign followed by exactly its digits: reading them back
      gives the integer, and there are as many as it has digits. */
  lemma IntTextRoundTrip(i: int)
    ensures i >= 0 ==> NatValue(IntText(i)) == i && |IntText(i)| == Digits(i)
    ensures i < 0 ==> IntText(i)[1..] == NatText(-i) && NatValue(IntText(i)[1..]) == -i
    ensures |IntText(i)| == Digits(Abs(i)) + (if i < 0 then 1 else 0)
  {
    NatTextRoundTrip(Abs(i));
    NatTextLength(Abs(i));
    if i < 0 {
      assert IntText(i)[1..] == NatText(-i);
    }
  }

  /** What a text field reads from a value: text as it is, and an integer as its decimal
      text (the field converts it with `str()`). Other kinds are not text. */
  function AsText(v: Value): (r: Option<string>)
    ensures v.Text? ==> r == Some(v.text)
    ensures v.Integer? ==> r == Some(IntText(v.integer)) && r.value != []
    ensures r.Some? <==> v.Text? || v.Integer?
  {
    match v
    case Text(s) => Some(s)
    case Integer(i) => Some(IntText(i))
    case _ => None
  }

  /** A required, non-null, non-blank text field with an optional maximum length. An
      integer is taken as its decimal text. */
  function CharField(input: Option<Value>, maxLength: Option<nat>): (r: Outcome<string>)
    ensures r.Valid? <==>
      input.Some? && AsText(input.value).Some? && AsText(input.value).value != [] &&
      (maxLength.Some? ==> |AsText(input.value).value| <= maxLength.value)
    ensures r.Valid? ==> input.Some? && AsText(input.value) == Some(r.value)
    ensures !r.Skipped?
  {
    if input.None? then Invalid(Required)
    else if input.value.Null? then Invalid(NotNull)
    else if AsText(input.value).None? then Invalid(NotAString)
    else
      var s := AsText(input.value).value;
      if s == [] then Invalid(NotBlank)
      else if maxLength.Some? && |s| > maxLength.value then Invalid(TooLong(maxLength.value))
      else Valid(s)
  }

  /** Why a text field refuses a value that is there: a value that does not read as
      text, such as a number with a fraction, is not a string, and over-long text is
      too long. */
  lemma CharFieldRefusal(v: Value, maxLength: Option<nat>)
    ensures !v.Null? && AsText(v).None? ==> CharField(Some(v), maxLength) == Invalid(NotAString)
    ensures v.Text? && maxLength.Some? && |v.text| > maxLength.value ==>
              CharField(Some(v), maxLength) == Invalid(TooLong(maxLength.value))
  {
  }

  /** The currency field both serializers declare: a required text field whose one
      validator is ValidateCurrency. */
  function CurrencyField(input: Option<Value>): (r: Outcome<string>)
    ensures r.Valid? <==>
      input.Some? && AsText(input.value).Some? && |AsText(input.value).value| == Currency.CURRENCY_CODE_LENGTH
    ensures r.Valid? ==> input.Some? && AsText(input.value) == Some(r.value)
    ensures input.Some? && AsText(input.value).Some? && AsText(input.value).value != [] &&
            |AsText(input.value).value| != Currency.CURRENCY_CODE_LENGTH ==>
              r == Invalid(Message(Currency.CURRENCY_ERROR_MESSAGE))
    ensures !r.Skipped?
  {
    match CharField(input, None)
    case Valid(s) =>
      (match Currency.ValidateCurrency(s)
       case Ok(v) => Valid(v)
       case Err(m) => Invalid(Message(m)))
    case Invalid(e) => Invalid(e)
  }

  /** A three-digit integer passes as a currency, as its text; a longer one is refused
      with the validator's message. */
  lemma NumericCurrency()
    ensures CurrencyField(Some(Integer(978))) == Valid("978")
    ensures CurrencyField(Some(Integer(9780))) == Invalid(Message(Currency.CURRENCY_ERROR_MESSAGE))
  {
    assert NatText(97) == NatText(9) + [DigitChar(7)];
    assert NatText(978) == "978";
  }

  /** A field restricted to the names of an enumeration, parsed by `parse`. Not required
      when the model gives it a default; null is refused either way. */
  function ChoiceField<E>(input: Option<Value>, required: bool, parse: string -> Option<E>): (r: Outcome<E>)
    ensures r.Skipped? <==> input.None? && !required
    ensures r.Valid? <==> input.Some? && input.value.Text? && parse(input.value.text).Some?
    ensures r.Valid? ==> r.value == parse(input.value.text).value
  {
    match input
    case None => if required then Invalid(Required) else Skipped
    case Some(Null) => Invalid(NotNull)
    case Some(Text(s)) =>
      (match parse(s)
       case Some(e) => Valid(e)
       case None => Invalid(InvalidChoice(Text(s))))
    case Some(v) => Invalid(InvalidChoice(v))
  }

  /** The precision checks and quantization of a decimal field. */
  function CheckDecimal(d: Decimal, maxDigits: nat, places: nat): (r: Outcome<Decimal>)
    requires places <= maxDigits
    ensures r.Valid? <==> WithinPrecision(d, maxDigits, places)
    ensures r.Valid? ==> Fits(r.value, maxDigits, places) && SameValue(d, r.value)
    ensures !r.Skipped?
  {
    var s := ShapeOf(d);
    if s.total > maxDigits then Invalid(TooManyDigits(maxDigits))
    else if s.places > places then Invalid(TooManyDecimalPlaces(places))
    else if s.whole > maxDigits - places then Invalid(TooManyWholeDigits(maxDigits - places))
    else
      QuantizeFits(d, maxDigits, places);
      Valid(Quantize(d, places))
  }

  /** A refused decimal is refused for the first precision check it fails, in the
      order total digits, decimal places, whole digits. */
  lemma CheckDecimalRefusal(d: Decimal, maxDigits: nat, places: nat)
    requires places <= maxDigits
    ensures ShapeOf(d).total > maxDigits ==> CheckDecimal(d, maxDigits, places) == Invalid(TooManyDigits(maxDigits))
    ensures ShapeOf(d).total <= maxDigits && ShapeOf(d).places > places ==>
              CheckDecimal(d, maxDigits, places) == Invalid(TooManyDecimalPlaces(places))
    ensures ShapeOf(d).total <= maxDigits && ShapeOf(d).places <= places && ShapeOf(d).whole > maxDigits - places ==>
              CheckDecimal(d, maxDigits, places) == Invalid(TooManyWholeDigits(maxDigits - places))
  {
  }

  /** A required decimal field with the given precision; integers are decimals with no
      places. The value passed on is the quantized one. */
  function DecimalField(input: Option<Value>, maxDigits: nat, places: nat): (r: Outcome<Decimal>)
    requires places <= maxDigits
    ensures r.Valid? ==> Fits(r.value, maxDigits, places)
    ensures r.Valid? <==> (input.Some? &&
      (|| (input.value.Number? && WithinPrecision(input.value.number, maxDigits, places))
       || (input.value.Integer? && WithinPrecision(Decimal(input.value.integer, 0), maxDigits, places))))
    ensures input.Some? && input.value.Number? ==> r == CheckDecimal(input.value.number, maxDigits, places)
    ensures input.Some? && input.value.Integer? ==> r == CheckDecimal(Decimal(input.value.integer, 0), maxDigits, places)
    ensures !r.Skipped?
  {
    match input
    case None => Invalid(Required)
    case Some(Null) => Invalid(NotNull)
    case Some(Number(d)) => CheckDecimal(d, maxDigits, places)
    case Some(Integer(i)) => CheckDecimal(Decimal(i, 0), maxDigits, places)
    case Some(_) => Invalid(NotANumber)
  }

  /** A date-time field that is not required and accepts null (the result None). */
  function NullableDateTimeField(input: Option<Value>): (r: Outcome<Option<Timestamp>>)
    ensures r.Skipped? <==> input.None?
    ensures input == Some(Null) ==> r == Valid(None)
    ensures r.Valid? && r.value.Some? ==> input == Some(Moment(r.value.value))
  {
    match input
    case None => Skipped
    case Some(Null) => Valid(None)
    case Some(Moment(t)) => Valid(Some(t))
    case Some(_) => Invalid(NotADateTime)
  }

  /** A date-time field that is not required (the model gives a default) and refuses null. */
  function DateTimeField(input: Option<Value>): (r: Outcome<Timestamp>)
    ensures r.Skipped? <==> input.None?
    ensures r.Valid? ==> input == Some(Moment(r.value))
  {
    match input
    case None => Skipped
    case Some(Null) => Invalid(NotNull)
    case Some(Moment(t)) => Valid(t)
    case Some(_) => Invalid(NotADateTime)
  }

  /** A required reference given as the primary key of an existing row. */
  function PrimaryKeyField(input: Option<Value>, existing: set<Id>): (r: Outcome<Id>)
    ensures r.Valid? <==> input.Some? && input.value.Integer? && input.value.integer in existing
    ensures r.Valid? ==> input == Some(Integer(r.value))
    ensures input.Some? && input.value.Integer? && input.value.integer !in existing ==>
              r == Invalid(NoSuchObject(input.value.integer))
    ensures !r.Skipped?
  {
    match input
    case None => Invalid(Required)
    case Some(Null) => Invalid(NotNull)
    case Some(Integer(i)) => if i >= 0 && i as Id in existing then Valid(i as Id) else Invalid(NoSuchObject(i))
    case Some(_) => Invalid(IncorrectPkType)
  }
}
