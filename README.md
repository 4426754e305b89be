# django-payments-api: accounts and transactions, modelled in Dafny

This project models the core of a small payments API built with Django REST
Framework. The API has two resources. **Accounts** have a name, a status (ACTIVE or
INACTIVE), a balance, a currency and a validity period. **Transactions** have a type
(CREDIT or DEBIT), a status (CLEARED or UNCLEARED), an amount, a currency, a date, and
two references to accounts (`credit_from`, `debit_to`) that cascade on delete.

Each resource has the usual endpoints:

- list and create on the collection;
- retrieve, update and delete on one record by id.

Every endpoint needs an authenticated request. A write is validated by the resource's
serializer, which checks:

- field kinds, enumeration names, the name length and the decimal precision (19 digits, 2 of them places);
- the shared currency validator (exactly three characters);
- for transactions, that both referenced accounts exist.

A write is then either saved or refused with 400 and the per-field errors. A missing
id is answered with 400 and a `res` message.

The modules, one per file:

| file | models |
|---|---|
| `support.dfy` | Option, Result, and the scalar types (ids, guids, timestamps) |
| `decimals.dfy` | exact decimals; the decimal field's precision checks (total digits, decimal places, whole digits, in that order) and quantization to the column's two places |
| `currency.dfy` | `validate_currency` and its error message |
| `fields.dfy` | what each serializer field kind makes of its input: missing, null, the wrong kind, over a limit, or good |
| `account_model.dfy`, `transaction_model.dfy` | the two records, their enumerations, limits and defaults, creation and saving, and the cascade |
| `account_serializer.dfy`, `transaction_serializer.dfy` | the exposed fields, validation and serialisation |
| `database.dfy` | the class `Store`: the two tables and the write operations the views perform on them |
| `http.dfy` | responses, and the fixed-key dictionary each write view builds from the request |
| `account_views.dfy`, `transaction_views.dfy` | the ten endpoints |
| `scenarios.dfy` | runs that follow the repository's view tests |

The views are modelled as the code has them: each write view builds its dictionary
with `request.data.get(k)`, so a key missing from the request reaches the serializer
as null. Where the code and other parts of the repository disagree, the model follows
the code:

- The model defaults for account `status` and transaction `transaction_type` never apply
  through the views: a missing key is refused as null ("may not be null"). A default
  applies only when the key is absent from the serializer's input. The transaction test
  at payments/transactions_api/tests/test_views.py:58-78 posts without a type and
  expects 201; the model answers 400 there (`TransactionViews.MissingTransactionTypeRefused`).
- Currency has no default. An early migration gave accounts a `base_currency` field with
  a default; the current Account model has a plain `currency` field with none.
- Transactions are keyed by the integer auto id, as in the current model and the tests.
  The first transactions migration made the guid the primary key.
- The transaction views forward `date`, which the serializer does not know, so a
  client's `transaction_date` never reaches validation.
- An account update that leaves out `status_valid_to` clears it: null is forwarded and
  accepted. Every other omitted field is refused, as a required or non-null field.

## Model

| member | source | states |
|---|---|---|
| Currency.ValidateCurrency | payments/payments/utils/utils_serializers.py:5-15 | accepted exactly when the value has three characters; an accepted value is returned unchanged; a refusal carries exactly 'Currency must be a 3 character ISO code' |
| Currency.ValidateCurrencyIdempotent | payments/payments/utils/utils_serializers.py:10-15 | validating an accepted value again gives the same result |
| Currency.ValidateCurrencyExamples | payments/payments/utils/utils_serializers.py:11-13 | any three characters pass ("ZZZ"), with no lookup of real codes; "US", "EU" and "JPAN" fail with the message |
| Decimals.Digits | payments/accounts_api/models.py:16 | the digit count of a coefficient is the k with 10^(k-1) <= n < 10^k |
| Decimals.ShapeOf | payments/accounts_api/models.py:16 | the decimal places equal the exponent's magnitude, and whole digits plus places never exceed the total |
| Decimals.WithinPrecision | payments/accounts_api/models.py:16 | the precision rule: at most max_digits digits in all, at most decimal_places after the point, at most the difference before it; a passing value never needs rounding to fit the places |
| Decimals.Quantize | payments/transactions_api/models.py:19 | rewriting with two places keeps the value and gives exactly two places |
| Decimals.QuantizeFits | payments/transactions_api/models.py:19 | a decimal that passes the three precision checks, once quantized, fits numeric(19, 2) |
| Decimals.FitsWithinPrecision | payments/accounts_api/models.py:16 | a stored numeric(19, 2) value passes the checks again and is its own quantization |
| Decimals.PrecisionExamples | payments/accounts_api/tests/test_views.py:184-200 | 600000.0001 and 6000.545 fail a (19, 2) field; 12500.00 passes |
| Decimals.WholeNumberWithinPrecision | payments/transactions_api/models.py:19 | a whole number of at most 17 digits passes a (19, 2) field |
| Fields.CharField | payments/accounts_api/models.py:11 | accepted exactly when the value reads as non-blank text within the maximum length (text, or an integer as its decimal text), and that text is passed on; a number with a fraction is refused as not a string; over-long text is refused as too long |
| Fields.CharFieldRefusal | payments/accounts_api/models.py:11 | a value that does not read as text is refused as not a string; text over the maximum length is refused as too long, naming the limit |
| Fields.CurrencyField | payments/accounts_api/serializers.py:9 | accepted exactly when the value reads as three characters of text (so the integer 978 passes as "978"); other non-blank text is refused with the validator's message |
| Fields.ChoiceField | payments/accounts_api/models.py:12 | skipped only when absent and not required; accepted exactly when the text names a choice, giving that choice |
| Fields.CheckDecimal | payments/accounts_api/models.py:16 | accepted exactly when the precision rule holds, then passed on quantized with the same value and fitting the column; never skipped |
| Fields.CheckDecimalRefusal | payments/accounts_api/models.py:16 | a refusal names the first check that fails, in order: too many digits, too many decimal places, too many whole digits, each with its limit |
| Fields.DecimalField | payments/accounts_api/models.py:16 | accepted exactly for a decimal or an integer within the precision; either is checked as that number (an integer with no places), and the value passed on fits the column |
| Fields.NullableDateTimeField | payments/accounts_api/models.py:15 | skipped only when absent; null is accepted as "no end of validity" |
| Fields.DateTimeField | payments/transactions_api/models.py:21 | skipped only when absent (the default applies); null and non-dates are refused |
| Fields.PrimaryKeyField | payments/transactions_api/models.py:17-18 | accepted exactly for the id of an existing row; any other integer is refused as a missing object |
| Fields.AddError | payments/accounts_api/serializers.py:8 | adding a field's outcome to an error map adds its key, with its error, exactly when it refused; every other entry is kept |
| Fields.ErrorOf | payments/accounts_api/serializers.py:8 | a field appears in the error map exactly when it refused its input, with its error |
| Fields.NatTextRoundTrip | payments/accounts_api/serializers.py:9 | reading back the decimal text an integer is converted to gives the integer again |
| Fields.IntText | payments/accounts_api/serializers.py:9 | an integer's text is never empty and starts with a minus sign exactly when the integer is negative |
| Fields.NatTextLength | payments/accounts_api/serializers.py:9 | a natural number's text has as many characters as the number has digits |
| Fields.IntTextRoundTrip | payments/accounts_api/serializers.py:9 | reading back an integer's text (after the sign, when negative) gives its magnitude; the text is its digit count long, plus one for the sign |
| Fields.AsText | payments/transactions_api/serializers.py:8 | a text field reads text as it is and an integer as its non-empty decimal text; no other kind reads as text |
| Fields.NumericCurrency | payments/transactions_api/serializers.py:8 | the integer 978 passes as the currency "978"; 9780 is refused with the validator's message |
| AccountModel.ParseStatusText | payments/accounts_api/models.py:6-8 | every status is named by its own text, and only ACTIVE and INACTIVE name one |
| AccountModel.StatusText | payments/accounts_api/models.py:12 | a status text fits the 8-character column |
| AccountModel.Create | payments/accounts_api/models.py:10-18 | a new account stores the given name, balance and currency, gets the fresh guid, status ACTIVE unless given, no end of validity unless given, and creation time = status_valid_from = last_updated = now; valid fields give a well-formed row |
| AccountModel.Save | payments/accounts_api/models.py:10-18 | a save never changes the guid, created_on or status_valid_from; it replaces the given fields, keeps the rest, and sets last_updated to now; well-formedness is kept |
| TransactionModel.ParseText | payments/transactions_api/models.py:6-12 | each type and status is named by its own text, and only CREDIT/DEBIT and CLEARED/UNCLEARED name one |
| TransactionModel.TransactionTypeText | payments/transactions_api/models.py:16 | a type text fits the 6-character column |
| TransactionModel.StatusText | payments/transactions_api/models.py:22 | a status text fits the 9-character column |
| TransactionModel.Create | payments/transactions_api/models.py:14-23 | a new transaction stores the given references, amount and currency, gets the fresh guid, type CREDIT, status UNCLEARED and date now unless given, and both timestamps now |
| TransactionModel.Save | payments/transactions_api/models.py:14-23 | a save never changes the guid or created_on; it replaces the given fields, keeps the rest, and sets last_updated to now |
| TransactionModel.CascadeFrom | payments/transactions_api/models.py:17-18 | deleting an account removes exactly the transactions that reference it on either side; every other row stays as it was |
| AccountSerializer.WritableFieldsAreTheRest | payments/accounts_api/serializers.py:13-15 | the fields read from input are the exposed fields minus the read-only ones |
| AccountSerializer.Serialize | payments/accounts_api/serializers.py:13 | exposes exactly the eight listed fields; neither id nor status_valid_from appears |
| AccountSerializer.Check | payments/accounts_api/serializers.py:8-15 | an accepted name is 1 to 100 characters, an accepted balance fits numeric(19, 2), an accepted currency has three characters; the required fields are never skipped |
| AccountSerializer.ErrorsOf | payments/accounts_api/serializers.py:8-15 | the error map holds exactly the refusing fields, each of the five under its own name with its own error |
| AccountSerializer.Combine | payments/accounts_api/serializers.py:8-15 | fields are accepted exactly when no field refused, and are then the fields' values; otherwise the errors are reported and are never empty |
| AccountSerializer.Validate | payments/accounts_api/serializers.py:8-15 | accepted fields obey every limit; a refusal names at least one field, and only writable ones |
| AccountSerializer.ValidateAcceptsExactly | payments/accounts_api/serializers.py:8-15 | validation accepts exactly the data the field-by-field rule `Acceptable` describes |
| AccountSerializer.ValidatedFieldsAreTheGivenOnes | payments/accounts_api/serializers.py:8-15 | accepted name and currency are the text sent (an integer as its decimal text), the status is the one named, the balance has the value sent, decimal or integer, and optional fields are present exactly when sent |
| AccountSerializer.BadCurrencyRefused | payments/accounts_api/serializers.py:9 | a non-blank currency that is not three characters is refused under `currency` with the validator's message |
| AccountSerializer.BadStatusRefused | payments/accounts_api/tests/test_views.py:106-119 | a status such as 'INACTIVITY' is refused as an invalid choice |
| AccountSerializer.BadBalanceRefused | payments/accounts_api/tests/test_views.py:184-200 | a balance that breaks the precision rule is refused under `balance` |
| AccountSerializer.LongNameRefused | payments/accounts_api/models.py:11 | a name over 100 characters is refused as too long |
| AccountSerializer.EmptyDataRefused | payments/accounts_api/serializers.py:8-15 | with no writable key, exactly name, balance and currency are reported as required |
| AccountSerializer.ValidateIgnoresOtherKeys | payments/accounts_api/serializers.py:15 | values under read-only or unknown keys (created_on, account_guid) never change the result |
| AccountSerializer.ValidateSerialized | payments/accounts_api/serializers.py:8-15 | the serialised form of a stored account is accepted and gives back its written fields |
| AccountSerializer.SaveSerializedTouchesOnlyLastUpdated | payments/accounts_api/serializers.py:8-15 | writing an account's own serialised form back changes nothing but last_updated |
| TransactionSerializer.WritableFieldsAreTheRest | payments/transactions_api/serializers.py:12-13 | the fields read from input are the exposed fields minus the guid and last_updated |
| TransactionSerializer.Serialize | payments/transactions_api/serializers.py:12 | exposes exactly the nine listed fields, with references as account ids; neither id nor created_on appears |
| TransactionSerializer.Check | payments/transactions_api/serializers.py:6-13 | accepted references name existing accounts, an accepted amount fits the column, an accepted currency has three characters |
| TransactionSerializer.ErrorsOf | payments/transactions_api/serializers.py:6-13 | the error map holds exactly the refusing fields, each of the seven under its own name with its own error |
| TransactionSerializer.Combine | payments/transactions_api/serializers.py:6-13 | fields are accepted exactly when no field refused; otherwise the errors are reported and are never empty |
| TransactionSerializer.Validate | payments/transactions_api/serializers.py:6-13 | accepted fields obey every limit and reference existing accounts; a refusal names at least one writable field |
| TransactionSerializer.ValidateAcceptsExactly | payments/transactions_api/serializers.py:6-13 | validation accepts exactly the data the field-by-field rule `Acceptable` describes |
| TransactionSerializer.ValidatedFieldsAreTheGivenOnes | payments/transactions_api/serializers.py:6-13 | accepted references are the account ids sent, the currency is the text sent, the type and status are the ones named, the amount has the value sent, decimal or integer, and optional fields are present exactly when sent |
| TransactionSerializer.MissingAccountRefused | payments/transactions_api/tests/test_models.py:61-67 | a reference to an account that does not exist is refused on that side, naming the id |
| TransactionSerializer.BadTransactionTypeRefused | payments/transactions_api/tests/test_views.py:120-136 | a type such as 'CREDITS' is refused as an invalid choice |
| TransactionSerializer.BadCurrencyRefused | payments/transactions_api/serializers.py:8 | a non-blank currency that is not three characters is refused with the validator's message |
| TransactionSerializer.BadAmountRefused | payments/transactions_api/tests/test_views.py:207-226 | an amount that breaks the precision rule is refused under `amount` |
| TransactionSerializer.ValidateIgnoresOtherKeys | payments/transactions_api/serializers.py:13 | values under the guid, last_updated or unknown keys never change the result |
| TransactionSerializer.ValidateSerialized | payments/transactions_api/serializers.py:6-13 | the serialised form of a stored transaction whose accounts exist is accepted and gives back its written fields |
| TransactionSerializer.SaveSerializedTouchesOnlyLastUpdated | payments/transactions_api/serializers.py:6-13 | writing a transaction's own serialised form back changes nothing but last_updated |
| Database.IdsBelow | payments/accounts_api/views.py:57-58 | the listed ids are strictly ascending, all stored, and include every stored id in range |
| Database.IdsBelowCount | payments/accounts_api/views.py:57-58 | the listing has one entry per stored id |
| Database.ListsAllKeys | payments/transactions_api/views.py:59-60 | when every id is in range, the listing holds exactly the stored ids, once each |
| Database.Listing | payments/accounts_api/views.py:57-59 | a serialised table has one entry per row; every row's serialised form is in it, and every entry is some row's |
| Database.Store.constructor | payments/accounts_api/models.py:5-18 | an empty database satisfies the invariant |
| Database.Store.InsertAccount | payments/accounts_api/views.py:75 | saving a new account adds one row under the next id with a fresh guid and keeps the invariant |
| Database.Store.UpdateAccount | payments/accounts_api/views.py:200 | saving an existing account replaces just that row by the model's save |
| Database.Store.DeleteAccount | payments/transactions_api/models.py:17-18 | deleting an account removes it and, by cascade, every transaction that references it, keeping all references valid |
| Database.Store.InsertTransaction | payments/transactions_api/views.py:80 | saving a new transaction adds one row under the next id with a fresh guid; accounts are untouched |
| Database.Store.UpdateTransaction | payments/transactions_api/views.py:207 | saving an existing transaction replaces just that row; accounts are untouched |
| Database.Store.DeleteTransaction | payments/transactions_api/views.py:222 | deleting a transaction removes that row only |
| Http.Unauthorized | payments/accounts_api/views.py:49-50 | a request without credentials gets 401 with a `detail` message |
| Http.Forward | payments/accounts_api/views.py:66-71 | the view's dictionary has exactly its fixed keys, with the request's value or null |
| Http.ForwardDropsOtherKeys | payments/accounts_api/views.py:191-197 | keys outside the fixed set never reach the serializer |
| AccountViews.GetObject | payments/accounts_api/views.py:156-164 | finds the account exactly when the id is stored |
| AccountViews.CreateInput | payments/accounts_api/views.py:66-76 | the create view's validation: errors only ever name the four forwarded fields; accepted data always names a status and never an end of validity |
| AccountViews.UpdateInput | payments/accounts_api/views.py:191-198 | the update view's validation: errors only ever name the five forwarded fields; accepted data always names a status and an end of validity, which is "none" when the request left it out |
| AccountViews.List | payments/accounts_api/views.py:53-59 | 200 with every stored account serialised, once each and nothing else; 401 without credentials |
| AccountViews.Retrieve | payments/accounts_api/views.py:167-179 | 200 with the stored account's serialised form, or 400 'Object with account id does not exist' |
| AccountViews.Create | payments/accounts_api/views.py:62-78 | valid data: 201, exactly one new account, and the answer is its serialised form; invalid data: 400 with the field errors and no change; no credentials: 401 and no change |
| AccountViews.Update | payments/accounts_api/views.py:182-202 | missing id: 400 'Object with given account id does not exist', no change; invalid data: 400, no change; otherwise the account is saved and the answer equals its new serialised form |
| AccountViews.Delete | payments/accounts_api/views.py:205-219 | missing id: 400, no change; otherwise the account and its transactions are removed and the answer is 'Account deleted' |
| AccountViews.InputIgnoresOtherKeys | payments/accounts_api/views.py:66-71 | create never reads status_valid_to, created_on or any other key outside its four; update reads only its five |
| AccountViews.CreateLeavesValidToUnset | payments/accounts_api/views.py:66-71 | an account created through the view has no end of validity |
| AccountViews.MissingStatusRefused | payments/accounts_api/views.py:68 | a request without a status is refused, as a null status |
| AccountViews.EmptyBodyRefused | payments/accounts_api/tests/test_views.py:138-144 | an empty request body is refused with a null error on each of the four forwarded fields |
| TransactionViews.GetObject | payments/transactions_api/views.py:161-168 | finds the transaction exactly when the id is stored |
| TransactionViews.WriteInputShape | payments/transactions_api/views.py:68-79 | the write views' validation: errors only ever name the forwarded fields the serializer knows; accepted data always names a type and a status and never a transaction date |
| TransactionViews.List | payments/transactions_api/views.py:55-61 | 200 with every stored transaction serialised, once each and nothing else; 401 without credentials |
| TransactionViews.Retrieve | payments/transactions_api/views.py:171-183 | 200 with the stored transaction's serialised form, or 400 'Object with transaction id does not exist' |
| TransactionViews.Create | payments/transactions_api/views.py:64-83 | valid data: 201, exactly one new transaction, and the answer is its serialised form; invalid data: 400, no change; accounts never change |
| TransactionViews.Update | payments/transactions_api/views.py:186-209 | missing id: 400 'Object with given transaction id does not exist', no change; invalid data: 400, no change; otherwise the row is saved and the answer equals its new serialised form; accounts never change |
| TransactionViews.Delete | payments/transactions_api/views.py:212-226 | missing id: 400, no change; otherwise that row alone goes and the answer is 'Transaction deleted'; accounts never change |
| TransactionViews.InputIgnoresOtherKeys | payments/transactions_api/views.py:68-76 | keys outside the seven forwarded ones never change what validation decides |
| TransactionViews.ForwardedOutcomes | payments/transactions_api/views.py:68-76 | the forwarded data always reaches the type and status fields (null when left out) and never the transaction date field |
| TransactionViews.TransactionDateNeverValidated | payments/transactions_api/views.py:196-204 | the forwarded data has no transaction_date, so an accepted write never sets the date |
| TransactionViews.MissingTransactionTypeRefused | payments/transactions_api/views.py:69 | a request without a transaction type is refused, as a null type |
| Scenarios.AccountBodyAccepted | payments/accounts_api/tests/test_views.py:122-135 | an account body is accepted exactly when the name is 1 to 100 characters and the currency 3 |
| Scenarios.AccountBodyOutcomes | payments/accounts_api/tests/test_views.py:122-135 | in a test account body the status and balance always pass and the end of validity is skipped; the name passes exactly when it is 1 to 100 characters, the currency exactly when it is 3, each giving the text sent |
| Scenarios.AccountBodyFields | payments/accounts_api/tests/test_views.py:122-135 | an accepted account body gives the account the name and currency it carries |
| Scenarios.AddAccount | payments/accounts_api/tests/test_views.py:122-135 | creating an account through the view adds exactly one row, under the next id, with the name and currency sent; every other row and the transactions stay |
| Scenarios.AddTransaction | payments/transactions_api/tests/test_views.py:13-18 | creating a transaction between two existing accounts adds exactly one row, under the next id, with those references; accounts stay |
| Scenarios.TransactionBodyAccepted | payments/transactions_api/tests/test_views.py:13-18 | a body like the fixture's, sent through the create view, is accepted exactly when both referenced accounts exist |
| Scenarios.RefusedBodiesRefused | payments/accounts_api/tests/test_views.py:106-144 | the test bodies with a bad currency, status or balance, and the empty body, are all refused |
| Scenarios.TransactionBodyAcceptable | payments/transactions_api/tests/test_views.py:13-18 | a transaction body like the fixture's (CREDIT, 230, EUR, UNCLEARED) passes the field-by-field rule exactly when both referenced accounts exist |
| Scenarios.StatusBodyRefused | payments/accounts_api/tests/test_views.py:106-119 | the body with status 'INACTIVITY' is refused |
| Scenarios.BalanceBodyRefused | payments/accounts_api/tests/test_views.py:184-200 | the body whose balance has too many places is refused |
| Scenarios.ValidatedReferences | payments/transactions_api/tests/test_views.py:13-18 | an accepted transaction body keeps the account ids it was sent on both sides |
| Scenarios.TwoAccountsOneTransaction | payments/transactions_api/tests/test_views.py:13-24 | accounts created through the views get ids 1 and 2 with the currencies and name sent; a transaction between them gets id 1 and runs from account 1 to account 2 |
| Scenarios.IdenticalAccounts | payments/accounts_api/tests/test_models.py:39-44 | two accounts created from identical data have the same name and different guids |
| Scenarios.RefusedCreates | payments/accounts_api/tests/test_views.py:122-144 | each refused create answers 400 and the number of accounts stays the same |
| Scenarios.DeleteThenRetrieve | payments/accounts_api/tests/test_views.py:284-293 | delete answers 'Account deleted', and a later retrieve answers 400 |
| Scenarios.CascadeOnAccountDelete | payments/transactions_api/models.py:17-18 | after deleting account 1, which the transaction references, no transactions are listed and the account list is account 2 alone, with its name and currency |
| Scenarios.TransactionToMissingAccount | payments/transactions_api/tests/test_models.py:61-67 | a transaction to a missing account is refused on `debit_to` and nothing is stored |
| Scenarios.UpdateThenRetrieve | payments/transactions_api/tests/test_views.py:259-279 | after a successful update, retrieve answers exactly what the update answered |

## Left out

- Authentication: the JWT check and the permission class are reduced to a boolean. The 401 body for an invalid (not just absent) token is not distinguished.
- Content negotiation (406), method routing (405), response headers, URL routing, the API documentation decorators, migrations and the djoser user serializers are not part of this model.
- UUIDs: a guid is drawn from a counter that never repeats, not from uuid4. Random collisions are not modelled.
- Time: the wall clock is a counter that advances by one on each save. created_on and status_valid_from of a new account are the same instant. The real values differ by microseconds.
- Fields.CharField: a JSON number with a fraction sent to a text field is refused as not a string. The framework stores the `str()` of the float, and float formatting is not modelled. Integers are converted as the framework does.
- Fields.CurrencyField: the same gap for a currency sent as a number with a fraction.
- Request parsing: payload values arrive already decoded as text, integer, decimal, date-time, UUID or null. The framework's coercion of text into numbers, dates and ids is not modelled, nor its whitespace trimming or its NUL-character validator. Framework error messages are kinds, not their English text.
- Database.Listing: the list views give ascending id order. The ORM query has no ordering, so the real order is the storage default.
- Concurrency: requests are processed one at a time.
- Database.Store.InsertTransaction: requires both references to exist. The ORM's own refusal of an unsaved or missing account (a ValueError or an integrity error) is not modelled, because the views only save after validation has checked the references.
- The test fixtures (BaseAPITestCase, setUpTestData) are not modelled. The scenarios start from an empty database and create what they need through the views.
