/** The Account record (payments/accounts_api/models.py): its fields, the Status
    enumeration, the field limits, the defaults and the automatic timestamps. */
module AccountModel {
  import opened Support
  import opened Decimals

  datatype Status = ACTIVE | INACTIVE

  const DEFAULT_STATUS: Status := ACTIVE
  const NAME_MAX_LENGTH: nat := 100
  const STATUS_MAX_LENGTH: nat := 8
  const CURRENCY_MAX_LENGTH: nat := 3
  const BALANCE_MAX_DIGITS: nat := 19
  const BALANCE_DECIMAL_PLACES: nat := 2

  /** The stored text of a status. */
  function StatusText(s: Status): (t: string)
    ensures 0 < |t| <= STATUS_MAX_LENGTH
  {
    match s
    case ACTIVE => "ACTIVE"
    case INACTIVE => "INACTIVE"
  }

  /** The status a text names, if it names one. */
  function ParseStatus(t: string): (r: Option<Status>)
    ensures r.Some? ==> StatusText(r.value) == t
  {
    if t == "ACTIVE" then Some(ACTIVE)
    else if t == "INACTIVE" then Some(INACTIVE)
    else None
  }

  /** Every status is named by its own text, and only the two texts name a status. */
  lemma ParseStatusText(s: Status, t: string)
    ensures ParseStatus(StatusText(s)) == Some(s)
    ensures ParseStatus(t).Some? <==> t == "ACTIVE" || t == "INACTIVE"
  {
  }

  /** One stored account. The integer id is the key it is stored under. */
  datatype Account = Account(
    accountGuid: Guid,               // generated at creation, not editable
    accountName: string,             // at most 100 characters
    status: Status,                  // default ACTIVE
    createdOn: Timestamp,            // set once, at creation
    statusValidFrom: Timestamp,      // defaults to the creation time
    statusValidTo: Option<Timestamp>, // may be null
    balance: Decimal,                // 19 digits, 2 of them decimal places
    currency: string,                // at most 3 characters
    lastUpdated: Timestamp)          // refreshed on every save

  /** The fields a client may write. In an optional field None means "not given",
      and the model's default (or, on an update, the current value) stands. */
  datatype AccountFields = AccountFields(
    accountName: string,
    status: Option<Status>,
    statusValidTo: Option<Option<Timestamp>>,
    balance: Decimal,
    currency: string)

  /** Limits every written field obeys once it has passed the serializer. */
  predicate FieldsWellFormed(f: AccountFields)
  {
    && 0 < |f.accountName| <= NAME_MAX_LENGTH
    && |f.currency| == CURRENCY_MAX_LENGTH
    && Fits(f.balance, BALANCE_MAX_DIGITS, BALANCE_DECIMAL_PLACES)
  }

  /** What a stored account satisfies: its written fields obey the limits, and it was
      not updated before it was created. */
  predicate WellFormed(a: Account)
  {
    && 0 < |a.accountName| <= NAME_MAX_LENGTH
    && |a.currency| == CURRENCY_MAX_LENGTH
    && Fits(a.balance, BALANCE_MAX_DIGITS, BALANCE_DECIMAL_PLACES)
    && a.createdOn == a.statusValidFrom <= a.lastUpdated
  }

  /** A new row: the given fields, the model's defaults for the ones not given (status
      ACTIVE, no end of validity), the fresh guid, and every timestamp set to now. */
  function Create(guid: Guid, now: Timestamp, f: AccountFields): (a: Account)
    ensures a.accountGuid == guid
    ensures a.accountName == f.accountName && a.balance == f.balance && a.currency == f.currency
    ensures a.createdOn == now && a.statusValidFrom == now && a.lastUpdated == now
    ensures a.status == (if f.status.Some? then f.status.value else DEFAULT_STATUS)
    ensures a.statusValidTo == (if f.statusValidTo.Some? then f.statusValidTo.value else None)
    ensures FieldsWellFormed(f) ==> WellFormed(a)
  {
    Account(guid, f.accountName, f.status.GetOr(DEFAULT_STATUS), now, now,
            f.statusValidTo.GetOr(None), f.balance, f.currency, now)
  }

  /** Saving new field values into an existing row: the fields given replace the old
      ones, the others stay, last_updated becomes now, and the guid, the creation time
      and status_valid_from are never touched. */
  function Save(a: Account, f: AccountFields, now: Timestamp): (r: Account)
    requires a.lastUpdated <= now
    ensures r.accountGuid == a.accountGuid && r.createdOn == a.createdOn
    ensures r.statusValidFrom == a.statusValidFrom
    ensures r.lastUpdated == now && a.lastUpdated <= r.lastUpdated
    ensures r.accountName == f.accountName && r.balance == f.balance && r.currency == f.currency
    ensures r.status == (if f.status.Some? then f.status.value else a.status)
    ensures r.statusValidTo == (if f.statusValidTo.Some? then f.statusValidTo.value else a.statusValidTo)
    ensures WellFormed(a) && FieldsWellFormed(f) ==> WellFormed(r)
  {
    a.(accountName := f.accountName,
       status := f.status.GetOr(a.status),
       statusValidTo := f.statusValidTo.GetOr(a.statusValidTo),
       balance := f.balance,
       currency := f.currency,
       lastUpdated := now)
  }
}
