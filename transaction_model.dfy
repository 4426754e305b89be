/** The Transaction record (payments/transactions_api/models.py): its fields, the
    TransactionType and Status enumerations, the two references to accounts and the
    cascade rule that removes a transaction with either account it references. */
module TransactionModel {
  import opened Support
  import opened Decimals

  datatype TransactionType = CREDIT | DEBIT

  datatype Status = CLEARED | UNCLEARED

  const DEFAULT_TRANSACTION_TYPE: TransactionType := CREDIT
  const DEFAULT_STATUS: Status := UNCLEARED
  const TRANSACTION_TYPE_MAX_LENGTH: nat := 6
  const STATUS_MAX_LENGTH: nat := 9
  const CURRENCY_MAX_LENGTH: nat := 3
  const AMOUNT_MAX_DIGITS: nat := 19
  const AMOUNT_DECIMAL_PLACES: nat := 2

  function TransactionTypeText(t: TransactionType): (s: string)
    ensures 0 < |s| <= TRANSACTION_TYPE_MAX_LENGTH
  {
    match t
    case CREDIT => "CREDIT"
    case DEBIT => "DEBIT"
  }

  function ParseTransactionType(s: string): (r: Option<TransactionType>)
    ensures r.Some? ==> TransactionTypeText(r.value) == s
  {
    if s == "CREDIT" then Some(CREDIT)
    else if s == "DEBIT" then Some(DEBIT)
    else None
  }

  function StatusText(s: Status): (t: string)
    ensures 0 < |t| <= STATUS_MAX_LENGTH
  {
    match s
    case CLEARED => "CLEARED"
    case UNCLEARED => "UNCLEARED"
  }

  function ParseStatus(t: string): (r: Option<Status>)
    ensures r.Some? ==> StatusText(r.value) == t
  {
    if t == "CLEARED" then Some(CLEARED)
    else if t == "UNCLEARED" then Some(UNCLEARED)
    else None
  }

  /** Each enumeration value is named by its own text, and only those texts name one. */
  lemma ParseText(t: TransactionType, s: Status, text: string)
    ensures ParseTransactionType(TransactionTypeText(t)) == Some(t)
    ensures ParseStatus(StatusText(s)) == Some(s)
    ensures ParseTransactionType(text).Some? <==> text == "CREDIT" || text == "DEBIT"
    ensures ParseStatus(text).Some? <==> text == "CLEARED" || text == "UNCLEARED"
  {
  }

  /** One stored transaction. The integer id is the key it is stored under; the two
      references are ids of accounts. */
  datatype Transaction = Transaction(
    transactionGuid: Guid,            // generated at creation, not editable
    createdOn: Timestamp,             // set once, at creation
    transactionType: TransactionType, // default CREDIT
    creditFrom: Id,                   // an account; deleting it deletes this row
    debitTo: Id,                      // an account; deleting it deletes this row
    amount: Decimal,                  // 19 digits, 2 of them decimal places
    currency: string,                 // at most 3 characters
    transactionDate: Timestamp,       // defaults to the creation time
    status: Status,                   // default UNCLEARED
    lastUpdated: Timestamp)           // refreshed on every save

  /** The fields a client may write; None in an optional field means "not given". */
  datatype TransactionFields = TransactionFields(
    transactionType: Option<TransactionType>,
    creditFrom: Id,
    debitTo: Id,
    amount: Decimal,
    currency: string,
    transactionDate: Option<Timestamp>,
    status: Option<Status>)

  predicate FieldsWellFormed(f: TransactionFields)
  {
    && |f.currency| == CURRENCY_MAX_LENGTH
    && Fits(f.amount, AMOUNT_MAX_DIGITS, AMOUNT_DECIMAL_PLACES)
  }

  predicate WellFormed(t: Transaction)
  {
    && |t.currency| == CURRENCY_MAX_LENGTH
    && Fits(t.amount, AMOUNT_MAX_DIGITS, AMOUNT_DECIMAL_PLACES)
    && t.createdOn <= t.lastUpdated
  }

  /** The transaction refers to the account on one side or the other. */
  predicate References(t: Transaction, account: Id)
  {
    t.creditFrom == account || t.debitTo == account
  }

  /** A new row: the given fields, the defaults for the ones not given (CREDIT,
      UNCLEARED, transaction_date now), the fresh guid, and both timestamps now. */
  function Create(guid: Guid, now: Timestamp, f: TransactionFields): (t: Transaction)
    ensures t.transactionGuid == guid && t.createdOn == now && t.lastUpdated == now
    ensures t.creditFrom == f.creditFrom && t.debitTo == f.debitTo
    ensures t.amount == f.amount && t.currency == f.currency
    ensures t.transactionType == (if f.transactionType.Some? then f.transactionType.value else DEFAULT_TRANSACTION_TYPE)
    ensures t.status == (if f.status.Some? then f.status.value else DEFAULT_STATUS)
    ensures t.transactionDate == (if f.transactionDate.Some? then f.transactionDate.value else now)
    ensures FieldsWellFormed(f) ==> WellFormed(t)
  {
    Transaction(guid, now, f.transactionType.GetOr(DEFAULT_TRANSACTION_TYPE), f.creditFrom, f.debitTo,
                f.amount, f.currency, f.transactionDate.GetOr(now), f.status.GetOr(DEFAULT_STATUS), now)
  }

  /** Saving new field values into an existing row: given fields replace the old ones,
      the others stay, last_updated becomes now, guid and created_on never change. */
  function Save(t: Transaction, f: TransactionFields, now: Timestamp): (r: Transaction)
    requires t.lastUpdated <= now
    ensures r.transactionGuid == t.transactionGuid && r.createdOn == t.createdOn
    ensures r.lastUpdated == now && t.lastUpdated <= r.lastUpdated
    ensures r.creditFrom == f.creditFrom && r.debitTo == f.debitTo
    ensures r.amount == f.amount && r.currency == f.currency
    ensures r.transactionType == (if f.transactionType.Some? then f.transactionType.value else t.transactionType)
    ensures r.status == (if f.status.Some? then f.status.value else t.status)
    ensures r.transactionDate == (if f.transactionDate.Some? then f.transactionDate.value else t.transactionDate)
    ensures WellFormed(t) && FieldsWellFormed(f) ==> WellFormed(r)
  {
    t.(transactionType := f.transactionType.GetOr(t.transactionType),
       creditFrom := f.creditFrom,
       debitTo := f.debitTo,
       amount := f.amount,
       currency := f.currency,
       transactionDate := f.transactionDate.GetOr(t.transactionDate),
       status := f.status.GetOr(t.status),
       lastUpdated := now)
  }

  /** The transactions left when `account` is deleted: CASCADE on both references
      removes every row that refers to it, on either side, and keeps every other row
      exactly as it was. */
  function CascadeFrom(rows: map<Id, Transaction>, account: Id): (r: map<Id, Transaction>)
    ensures r.Keys <= rows.Keys
    ensures forall id | id in r :: r[id] == rows[id] && !References(rows[id], account)
    ensures forall id | id in rows && !References(rows[id], account) :: id in r
  {
    map id | id in rows && !References(rows[id], account) :: rows[id]
  }
}
