/** TransactionSerializer (payments/transactions_api/serializers.py): the fields it
    exposes, the currency validator, validation of incoming data against the accounts
    that exist, and the serialised form of a stored transaction. */
module TransactionSerializer {
  import opened Support
  import opened Decimals
  import opened Fields
  import Currency
  import opened TransactionModel

  /** The exposed fields. The integer id and created_on are not among them. */
  const FIELDS: set<string> :=
    {"transaction_guid", "transaction_type", "credit_from", "debit_to", "amount", "currency",
     "transaction_date", "status", "last_updated"}

  /** Exposed but never taken from input. The serializer's Meta names them under
      `read_only`, an option the serializer does not read; they are read-only because
      the model makes the guid not editable and last_updated automatic. */
  const READ_ONLY_FIELDS: set<string> := {"transaction_guid", "last_updated"}

  /** The fields validation reads. */
  const WRITABLE_FIELDS: set<string> :=
    {"transaction_type", "credit_from", "debit_to", "amount", "currency", "transaction_date", "status"}

  lemma WritableFieldsAreTheRest()
    ensures WRITABLE_FIELDS == FIELDS - READ_ONLY_FIELDS
  {
  }

  /** The serialised form of a transaction: exactly the exposed fields, with the two
      account references given by their ids. */
  function Serialize(t: Transaction): (r: Payload)
    ensures r.Keys == FIELDS
    ensures "id" !in r && "created_on" !in r
    ensures r["credit_from"] == Integer(t.creditFrom) && r["debit_to"] == Integer(t.debitTo)
  {
    map[
      "transaction_guid" := Uuid(t.transactionGuid),
      "transaction_type" := Text(TransactionTypeText(t.transactionType)),
      "credit_from" := Integer(t.creditFrom),
      "debit_to" := Integer(t.debitTo),
      "amount" := Number(t.amount),
      "currency" := Text(t.currency),
      "transaction_date" := Moment(t.transactionDate),
      "status" := Text(StatusText(t.status)),
      "last_updated" := Moment(t.lastUpdated)]
  }

  /** Independent statement of which data validation accepts, given the ids of the
      existing accounts: a transaction type that is absent or names a TransactionType;
      both references the id of an existing account; an amount within 19 digits and 2
      decimal places; a currency of exactly three characters; a transaction date that
      is absent or a date-time; a status that is absent or names a Status. */
  predicate Acceptable(data: Payload, accounts: set<Id>)
  {
    && ("transaction_type" in data ==>
          data["transaction_type"].Text? && ParseTransactionType(data["transaction_type"].text).Some?)
    && ("credit_from" in data && data["credit_from"].Integer? && data["credit_from"].integer in accounts)
    && ("debit_to" in data && data["debit_to"].Integer? && data["debit_to"].integer in accounts)
    && ("amount" in data &&
        (|| (data["amount"].Number? &&
             WithinPrecision(data["amount"].number, AMOUNT_MAX_DIGITS, AMOUNT_DECIMAL_PLACES))
         || (data["amount"].Integer? &&
             WithinPrecision(Decimal(data["amount"].integer, 0), AMOUNT_MAX_DIGITS, AMOUNT_DECIMAL_PLACES))))
    && ("currency" in data && AsText(data["currency"]).Some? &&
        |AsText(data["currency"]).value| == Currency.CURRENCY_CODE_LENGTH)
    && ("transaction_date" in data ==> data["transaction_date"].Moment?)
    && ("status" in data ==> data["status"].Text? && ParseStatus(data["status"].text).Some?)
  }

  /** What each writable field makes of the data. */
  datatype Outcomes = Outcomes(
    transactionType: Outcome<TransactionType>,
    creditFrom: Outcome<Id>,
    debitTo: Outcome<Id>,
    amount: Outcome<Decimal>,
    currency: Outcome<string>,
    transactionDate: Outcome<Timestamp>,
    status: Outcome<Status>)

  /** Runs every writable field on its input. References are checked against the
      accounts that exist. */
  function Check(data: Payload, accounts: set<Id>): (o: Outcomes)
    ensures o.creditFrom.Valid? ==> o.creditFrom.value in accounts
    ensures o.debitTo.Valid? ==> o.debitTo.value in accounts
    ensures o.amount.Valid? ==> Fits(o.amount.value, AMOUNT_MAX_DIGITS, AMOUNT_DECIMAL_PLACES)
    ensures o.currency.Valid? ==> |o.currency.value| == Currency.CURRENCY_CODE_LENGTH
    ensures !o.creditFrom.Skipped? && !o.debitTo.Skipped? && !o.amount.Skipped? && !o.currency.Skipped?
  {
    Outcomes(
      ChoiceField(Input(data, "transaction_type"), false, ParseTransactionType),
      PrimaryKeyField(Input(data, "credit_from"), accounts),
      PrimaryKeyField(Input(data, "debit_to"), accounts),
      DecimalField(Input(data, "amount"), AMOUNT_MAX_DIGITS, AMOUNT_DECIMAL_PLACES),
      CurrencyField(Input(data, "currency")),
      DateTimeField(Input(data, "transaction_date")),
      ChoiceField(Input(data, "status"), false, ParseStatus))
  }

  predicate NoneInvalid(o: Outcomes)
  {
    && !o.transactionType.Invalid? && !o.creditFrom.Invalid? && !o.debitTo.Invalid?
    && !o.amount.Invalid? && !o.currency.Invalid? && !o.transactionDate.Invalid? && !o.status.Invalid?
  }

  /** Every refusal among the outcomes, under the name of its field. */
  function ErrorsOf(o: Outcomes): (e: Errors)
    ensures e.Keys <= WRITABLE_FIELDS
    ensures "transaction_type" in e <==> o.transactionType.Invalid?
    ensures "credit_from" in e <==> o.creditFrom.Invalid?
    ensures "debit_to" in e <==> o.debitTo.Invalid?
    ensures "amount" in e <==> o.amount.Invalid?
    ensures "currency" in e <==> o.currency.Invalid?
    ensures "transaction_date" in e <==> o.transactionDate.Invalid?
    ensures "status" in e <==> o.status.Invalid?
    ensures o.transactionType.Invalid? ==> e["transaction_type"] == o.transactionType.error
    ensures o.creditFrom.Invalid? ==> e["credit_from"] == o.creditFrom.error
    ensures o.debitTo.Invalid? ==> e["debit_to"] == o.debitTo.error
    ensures o.currency.Invalid? ==> e["currency"] == o.currency.error
    ensures o.amount.Invalid? ==> e["amount"] == o.amount.error
    ensures o.transactionDate.Invalid? ==> e["transaction_date"] == o.transactionDate.error
    ensures o.status.Invalid? ==> e["status"] == o.status.error
  {
    var e1 := AddError(map[], "status", o.status);
    var e2 := AddError(e1, "transaction_date", o.transactionDate);
    var e3 := AddError(e2, "amount", o.amount);
    var e4 := AddError(e3, "currency", o.currency);
    var e5 := AddError(e4, "debit_to", o.debitTo);
    var e6 := AddError(e5, "credit_from", o.creditFrom);
    AddError(e6, "transaction_type", o.transactionType)
  }

  /** The validated fields when no field refused its input; otherwise every refusal. */
  function Combine(o: Outcomes): (r: Result<TransactionFields, Errors>)
    requires !o.creditFrom.Skipped? && !o.debitTo.Skipped? && !o.amount.Skipped? && !o.currency.Skipped?
    ensures r.Ok? <==> NoneInvalid(o)
    ensures r.Err? ==> r.error == ErrorsOf(o) && r.error != map[]
    ensures r.Ok? ==> (r.value ==
      TransactionFields(Given(o.transactionType), o.creditFrom.value, o.debitTo.value, o.amount.value,
                        o.currency.value, Given(o.transactionDate), Given(o.status)))
  {
    if NoneInvalid(o) then
      Ok(TransactionFields(Given(o.transactionType), o.creditFrom.value, o.debitTo.value, o.amount.value,
                           o.currency.value, Given(o.transactionDate), Given(o.status)))
    else
      var e := ErrorsOf(o);
      assert exists k :: k in e;
      Err(e)
  }

  /** `is_valid`: either the validated fields, or the error of every field that refused
      its input. */
  function Validate(data: Payload, accounts: set<Id>): (r: Result<TransactionFields, Errors>)
    ensures r.Ok? ==> FieldsWellFormed(r.value)
    ensures r.Ok? ==> r.value.creditFrom in accounts && r.value.debitTo in accounts
    ensures r.Err? ==> r.error != map[] && r.error.Keys <= WRITABLE_FIELDS
  {
    Combine(Check(data, accounts))
  }

  /** Validation accepts exactly the data that Acceptable describes. */
  lemma ValidateAcceptsExactly(data: Payload, accounts: set<Id>)
    ensures Validate(data, accounts).Ok? <==> Acceptable(data, accounts)
  {
  }

  /** Accepted data is taken over as given: the references are the ids sent, the
      currency is the text sent (an integer's decimal text), the amount has the value
      sent, decimal or integer, and each optional field is present in the
      result exactly when it was present in the data. */
  lemma ValidatedFieldsAreTheGivenOnes(data: Payload, accounts: set<Id>)
    requires Validate(data, accounts).Ok?
    ensures var f := Validate(data, accounts).value;
      && Input(data, "credit_from") == Some(Integer(f.creditFrom))
      && Input(data, "debit_to") == Some(Integer(f.debitTo))
      && "currency" in data && AsText(data["currency"]) == Some(f.currency)
      && (f.transactionType.Some? <==> "transaction_type" in data)
      && (f.transactionType.Some? ==> data["transaction_type"] == Text(TransactionTypeText(f.transactionType.value)))
      && (f.transactionDate.Some? <==> "transaction_date" in data)
      && (f.status.Some? <==> "status" in data)
      && (f.status.Some? ==> data["status"] == Text(StatusText(f.status.value)))
      && "amount" in data
      && (data["amount"].Number? ==> SameValue(data["amount"].number, f.amount))
      && (data["amount"].Integer? ==> SameValue(Decimal(data["amount"].integer, 0), f.amount))
  {
  }

  /** A reference to an account that does not exist is refused on that field. */
  lemma MissingAccountRefused(data: Payload, accounts: set<Id>, side: string)
    requires side == "credit_from" || side == "debit_to"
    requires side in data && data[side].Integer? && data[side].integer !in accounts
    ensures Validate(data, accounts).Err?
    ensures side in Validate(data, accounts).error
    ensures Validate(data, accounts).error[side] == NoSuchObject(data[side].integer)
  {
  }

  /** A transaction type outside the enumeration, such as "CREDITS", is refused. */
  lemma BadTransactionTypeRefused(data: Payload, accounts: set<Id>)
    requires "transaction_type" in data && data["transaction_type"].Text?
    requires ParseTransactionType(data["transaction_type"].text).None?
    ensures Validate(data, accounts).Err?
    ensures "transaction_type" in Validate(data, accounts).error
    ensures Validate(data, accounts).error["transaction_type"] == InvalidChoice(data["transaction_type"])
  {
  }

  /** A currency that is not three characters long is refused with the validator's message. */
  lemma BadCurrencyRefused(data: Payload, accounts: set<Id>)
    requires "currency" in data && data["currency"].Text?
    requires data["currency"].text != [] && |data["currency"].text| != Currency.CURRENCY_CODE_LENGTH
    ensures Validate(data, accounts).Err?
    ensures "currency" in Validate(data, accounts).error
    ensures Validate(data, accounts).error["currency"] == Message(Currency.CURRENCY_ERROR_MESSAGE)
  {
  }

  /** An amount that breaks the precision rule is refused on the amount field. */
  lemma BadAmountRefused(data: Payload, accounts: set<Id>)
    requires "amount" in data && data["amount"].Number?
    requires !WithinPrecision(data["amount"].number, AMOUNT_MAX_DIGITS, AMOUNT_DECIMAL_PLACES)
    ensures Validate(data, accounts).Err? && "amount" in Validate(data, accounts).error
  {
  }

  /** Validation reads only the writable fields: a value under any other key, such as
      transaction_guid, last_updated or created_on, is ignored. */
  lemma ValidateIgnoresOtherKeys(data: Payload, accounts: set<Id>, key: string, v: Value)
    requires key !in WRITABLE_FIELDS
    ensures Validate(data[key := v], accounts) == Validate(data, accounts)
    ensures Validate(data - {key}, accounts) == Validate(data, accounts)
  {
    assert forall k | k in WRITABLE_FIELDS :: Input(data[key := v], k) == Input(data, k);
    assert forall k | k in WRITABLE_FIELDS :: Input(data - {key}, k) == Input(data, k);
  }

  /** The serialised form of a stored transaction whose accounts exist is itself
      accepted, and gives back that transaction's written fields unchanged. */
  lemma {:induction false} ValidateSerialized(t: Transaction, accounts: set<Id>)
    requires WellFormed(t) && t.creditFrom in accounts && t.debitTo in accounts
    ensures Validate(Serialize(t), accounts) ==
      Ok(TransactionFields(Some(t.transactionType), t.creditFrom, t.debitTo, t.amount, t.currency,
                           Some(t.transactionDate), Some(t.status)))
  {
    FitsWithinPrecision(t.amount, AMOUNT_MAX_DIGITS, AMOUNT_DECIMAL_PLACES);
    ParseText(t.transactionType, t.status, "");
    var data := Serialize(t);
    assert Input(data, "amount") == Some(Number(t.amount));
    assert Input(data, "currency") == Some(Text(t.currency));
    assert Check(data, accounts) ==
      Outcomes(Valid(t.transactionType), Valid(t.creditFrom), Valid(t.debitTo), Valid(t.amount),
               Valid(t.currency), Valid(t.transactionDate), Valid(t.status));
  }

  /** Writing back a transaction's own serialised form changes nothing but last_updated. */
  lemma SaveSerializedTouchesOnlyLastUpdated(t: Transaction, accounts: set<Id>, now: Timestamp)
    requires WellFormed(t) && t.creditFrom in accounts && t.debitTo in accounts && t.lastUpdated <= now
    ensures Validate(Serialize(t), accounts).Ok?
    ensures Save(t, Validate(Serialize(t), accounts).value, now) == t.(lastUpdated := now)
  {
    ValidateSerialized(t, accounts);
  }
}
