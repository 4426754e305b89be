/** AccountSerializer (payments/accounts_api/serializers.py): the fields it exposes,
    the read-only ones, the currency validator, validation of incoming data and the
    serialised form of a stored account. */
module AccountSerializer {
  import opened Support
  import opened Decimals
  import opened Fields
  import Currency
  import opened AccountModel

  /** The exposed fields. The integer id and status_valid_from are not among them. */
  const FIELDS: set<string> :=
    {"account_guid", "created_on", "account_name", "status", "last_updated", "balance", "currency", "status_valid_to"}

  /** Exposed but never taken from input. */
  const READ_ONLY_FIELDS: set<string> := {"account_guid", "last_updated", "created_on"}

  /** The fields validation reads. */
  const WRITABLE_FIELDS: set<string> := {"account_name", "status", "status_valid_to", "balance", "currency"}

  lemma WritableFieldsAreTheRest()
    ensures WRITABLE_FIELDS == FIELDS - READ_ONLY_FIELDS
  {
  }

  /** The serialised form of an account: exactly the exposed fields. */
  function Serialize(a: Account): (r: Payload)
    ensures r.Keys == FIELDS
    ensures "id" !in r && "status_valid_from" !in r
    ensures r["account_guid"] == Uuid(a.accountGuid) && r["account_name"] == Text(a.accountName)
  {
    map[
      "account_guid" := Uuid(a.accountGuid),
      "created_on" := Moment(a.createdOn),
      "account_name" := Text(a.accountName),
      "status" := Text(StatusText(a.status)),
      "last_updated" := Moment(a.lastUpdated),
      "balance" := Number(a.balance),
      "currency" := Text(a.currency),
      "status_valid_to" := if a.statusValidTo.Some? then Moment(a.statusValidTo.value) else Null]
  }

  /** Independent statement of which data validation accepts, field by field: a
      non-blank name of at most 100 characters; a status that is absent or names a
      Status; an end of validity that is absent, null or a date-time; a balance within
      19 digits and 2 decimal places; a currency of exactly three characters. */
  predicate Acceptable(data: Payload)
  {
    && ("account_name" in data && AsText(data["account_name"]).Some? &&
        0 < |AsText(data["account_name"]).value| <= NAME_MAX_LENGTH)
    && ("status" in data ==> data["status"].Text? && ParseStatus(data["status"].text).Some?)
    && ("status_valid_to" in data ==> data["status_valid_to"].Null? || data["status_valid_to"].Moment?)
    && ("balance" in data &&
        (|| (data["balance"].Number? &&
             WithinPrecision(data["balance"].number, BALANCE_MAX_DIGITS, BALANCE_DECIMAL_PLACES))
         || (data["balance"].Integer? &&
             WithinPrecision(Decimal(data["balance"].integer, 0), BALANCE_MAX_DIGITS, BALANCE_DECIMAL_PLACES))))
    && ("currency" in data && AsText(data["currency"]).Some? &&
        |AsText(data["currency"]).value| == Currency.CURRENCY_CODE_LENGTH)
  }

  /** What each writable field makes of the data. */
  datatype Outcomes = Outcomes(
    name: Outcome<string>,
    status: Outcome<Status>,
    validTo: Outcome<Option<Timestamp>>,
    balance: Outcome<Decimal>,
    currency: Outcome<string>)

  /** Runs every writable field on its input. */
  function Check(data: Payload): (o: Outcomes)
    ensures o.name.Valid? ==> 0 < |o.name.value| <= NAME_MAX_LENGTH
    ensures o.balance.Valid? ==> Fits(o.balance.value, BALANCE_MAX_DIGITS, BALANCE_DECIMAL_PLACES)
    ensures o.currency.Valid? ==> |o.currency.value| == Currency.CURRENCY_CODE_LENGTH
    ensures !o.name.Skipped? && !o.balance.Skipped? && !o.currency.Skipped?
  {
    Outcomes(
      CharField(Input(data, "account_name"), Some(NAME_MAX_LENGTH)),
      ChoiceField(Input(data, "status"), false, ParseStatus),
      NullableDateTimeField(Input(data, "status_valid_to")),
      DecimalField(Input(data, "balance"), BALANCE_MAX_DIGITS, BALANCE_DECIMAL_PLACES),
      CurrencyField(Input(data, "currency")))
  }

  predicate NoneInvalid(o: Outcomes)
  {
    !o.name.Invalid? && !o.status.Invalid? && !o.validTo.Invalid? && !o.balance.Invalid? && !o.currency.Invalid?
  }

  /** Every refusal among the outcomes, under the name of its field. */
  function ErrorsOf(o: Outcomes): (e: Errors)
    ensures e.Keys <= WRITABLE_FIELDS
    ensures "account_name" in e <==> o.name.Invalid?
    ensures "status" in e <==> o.status.Invalid?
    ensures "status_valid_to" in e <==> o.validTo.Invalid?
    ensures "balance" in e <==> o.balance.Invalid?
    ensures "currency" in e <==> o.currency.Invalid?
    ensures o.name.Invalid? ==> e["account_name"] == o.name.error
    ensures o.status.Invalid? ==> e["status"] == o.status.error
    ensures o.validTo.Invalid? ==> e["status_valid_to"] == o.validTo.error
    ensures o.balance.Invalid? ==> e["balance"] == o.balance.error
    ensures o.currency.Invalid? ==> e["currency"] == o.currency.error
  {
    var e1 := AddError(map[], "currency", o.currency);
    var e2 := AddError(e1, "balance", o.balance);
    var e3 := AddError(e2, "status_valid_to", o.validTo);
    var e4 := AddError(e3, "status", o.status);
    AddError(e4, "account_name", o.name)
  }

  /** The validated fields when no field refused its input; otherwise every refusal. */
  function Combine(o: Outcomes): (r: Result<AccountFields, Errors>)
    requires !o.name.Skipped? && !o.balance.Skipped? && !o.currency.Skipped?
    ensures r.Ok? <==> NoneInvalid(o)
    ensures r.Err? ==> r.error == ErrorsOf(o) && r.error != map[]
    ensures r.Ok? ==> (r.value ==
      AccountFields(o.name.value, Given(o.status), Given(o.validTo), o.balance.value, o.currency.value))
  {
    if NoneInvalid(o) then
      Ok(AccountFields(o.name.value, Given(o.status), Given(o.validTo), o.balance.value, o.currency.value))
    else
      var e := ErrorsOf(o);
      assert exists k :: k in e;
      Err(e)
  }

  /** `is_valid`: either the validated fields, or the error of every field that refused
      its input. */
  function Validate(data: Payload): (r: Result<AccountFields, Errors>)
    ensures r.Ok? ==> FieldsWellFormed(r.value)
    ensures r.Err? ==> r.error != map[] && r.error.Keys <= WRITABLE_FIELDS
  {
    Combine(Check(data))
  }

  /** Validation accepts exactly the data that Acceptable describes. */
  lemma ValidateAcceptsExactly(data: Payload)
    ensures Validate(data).Ok? <==> Acceptable(data)
  {
  }

  /** Accepted data is taken over as given: the name and currency are the texts sent
      (an integer's decimal text), the status is the one named, the balance has the
      value sent, decimal or integer, and the optional fields are present in the
      result exactly when they were present in the data. */
  lemma ValidatedFieldsAreTheGivenOnes(data: Payload)
    requires Validate(data).Ok?
    ensures var f := Validate(data).value;
      && "account_name" in data && AsText(data["account_name"]) == Some(f.accountName)
      && "currency" in data && AsText(data["currency"]) == Some(f.currency)
      && (f.status.Some? <==> "status" in data)
      && (f.status.Some? ==> data["status"] == Text(StatusText(f.status.value)))
      && (f.statusValidTo.Some? <==> "status_valid_to" in data)
      && "balance" in data
      && (data["balance"].Number? ==> SameValue(data["balance"].number, f.balance))
      && (data["balance"].Integer? ==> SameValue(Decimal(data["balance"].integer, 0), f.balance))
  {
  }

  /** A currency that is not three characters long is refused with exactly the
      validator's message, whatever the other fields hold. */
  lemma BadCurrencyRefused(data: Payload)
    requires "currency" in data && data["currency"].Text?
    requires data["currency"].text != [] && |data["currency"].text| != Currency.CURRENCY_CODE_LENGTH
    ensures Validate(data).Err?
    ensures "currency" in Validate(data).error
    ensures Validate(data).error["currency"] == Message(Currency.CURRENCY_ERROR_MESSAGE)
  {
  }

  /** A status text outside the enumeration is refused as an invalid choice. */
  lemma BadStatusRefused(data: Payload)
    requires "status" in data && data["status"].Text? && ParseStatus(data["status"].text).None?
    ensures Validate(data).Err?
    ensures "status" in Validate(data).error
    ensures Validate(data).error["status"] == InvalidChoice(data["status"])
  {
  }

  /** A balance that breaks the precision rule is refused on the balance field. */
  lemma BadBalanceRefused(data: Payload)
    requires "balance" in data && data["balance"].Number?
    requires !WithinPrecision(data["balance"].number, BALANCE_MAX_DIGITS, BALANCE_DECIMAL_PLACES)
    ensures Validate(data).Err? && "balance" in Validate(data).error
  {
  }

  /** A name longer than 100 characters is refused. */
  lemma LongNameRefused(data: Payload)
    requires "account_name" in data && data["account_name"].Text?
    requires |data["account_name"].text| > NAME_MAX_LENGTH
    ensures Validate(data).Err?
    ensures "account_name" in Validate(data).error
    ensures Validate(data).error["account_name"] == TooLong(NAME_MAX_LENGTH)
  {
    CharFieldRefusal(data["account_name"], Some(NAME_MAX_LENGTH));
  }

  /** With none of the writable fields given, the three required ones are reported. */
  lemma EmptyDataRefused(data: Payload)
    requires data.Keys !! WRITABLE_FIELDS
    ensures Validate(data) == Err(map["account_name" := Required, "balance" := Required, "currency" := Required])
  {
    var expected := map["account_name" := Required, "balance" := Required, "currency" := Required];
    var r := Validate(data);
    assert r.Err?;
    assert r.error.Keys == expected.Keys;
    assert forall k | k in expected :: r.error[k] == expected[k];
    assert r.error == expected;
  }

  /** Validation reads only the writable fields: a value under any other key, such as
      created_on or account_guid, is ignored. */
  lemma ValidateIgnoresOtherKeys(data: Payload, key: string, v: Value)
    requires key !in WRITABLE_FIELDS
    ensures Validate(data[key := v]) == Validate(data)
    ensures Validate(data - {key}) == Validate(data)
  {
    assert forall k | k in WRITABLE_FIELDS :: Input(data[key := v], k) == Input(data, k);
    assert forall k | k in WRITABLE_FIELDS :: Input(data - {key}, k) == Input(data, k);
  }

  /** The serialised form of a stored account is itself accepted, and gives back that
      account's written fields unchanged. */
  lemma {:induction false} ValidateSerialized(a: Account)
    requires WellFormed(a)
    ensures Validate(Serialize(a)) == Ok(AccountFields(a.accountName, Some(a.status), Some(a.statusValidTo), a.balance, a.currency))
  {
    FitsWithinPrecision(a.balance, BALANCE_MAX_DIGITS, BALANCE_DECIMAL_PLACES);
    ParseStatusText(a.status, "");
  }

  /** Writing back an account's own serialised form changes nothing but last_updated. */
  lemma SaveSerializedTouchesOnlyLastUpdated(a: Account, now: Timestamp)
    requires WellFormed(a) && a.lastUpdated <= now
    ensures Validate(Serialize(a)).Ok?
    ensures Save(a, Validate(Serialize(a)).value, now) == a.(lastUpdated := now)
  {
    ValidateSerialized(a);
  }
}
