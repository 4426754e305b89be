/** The transaction endpoints (payments/transactions_api/views.py): list and create on
    the collection, retrieve, update and delete on one transaction by id. Every
    endpoint first requires an authenticated request; no endpoint touches the accounts. */
module TransactionViews {
  import opened Support
  import opened Fields
  import opened Http
  import opened TransactionModel
  import opened TransactionSerializer
  import Database

  /** The keys both write handlers read from the request body. The date is read under
      `date`, a name the serializer does not know. */
  const KEYS: set<string> := {"transaction_type", "credit_from", "debit_to", "amount", "currency", "date", "status"}

  const NOT_FOUND: string := "Object with transaction id does not exist"
  const NOT_FOUND_GIVEN: string := "Object with given transaction id does not exist"
  const DELETED: string := "Transaction deleted"

  /** What validation makes of a request body, given the accounts that exist. */
  function WriteInput(body: Payload, accounts: set<Id>): Result<TransactionFields, Errors>
  {
    Validate(Forward(body, KEYS), accounts)
  }

  /** Errors only ever name forwarded fields the serializer knows, and accepted data
      always names a type and a status, both forwarded (null when left out), and never
      a transaction date. */
  lemma WriteInputShape(body: Payload, accounts: set<Id>)
    ensures WriteInput(body, accounts).Err? ==> WriteInput(body, accounts).error.Keys <= KEYS - {"date"}
    ensures WriteInput(body, accounts).Ok? ==>
      var f := WriteInput(body, accounts).value;
      f.transactionType.Some? && f.status.Some? && f.transactionDate.None?
  {
    var o := Check(Forward(body, KEYS), accounts);
    ForwardedOutcomes(body, accounts);
    assert WriteInput(body, accounts) == Combine(o);
    if WriteInput(body, accounts).Err? {
      var e := ErrorsOf(o);
      assert "transaction_date" !in e;
      WritableFieldsForwarded();
    }
  }

  /** Every writable field but the transaction date is forwarded. */
  lemma WritableFieldsForwarded()
    ensures WRITABLE_FIELDS - {"transaction_date"} <= KEYS - {"date"}
  {
    assert WRITABLE_FIELDS == {"transaction_type", "credit_from", "debit_to", "amount", "currency", "transaction_date", "status"};
  }

  /** The forwarded body always carries a type and a status, and never a transaction
      date. */
  lemma ForwardedOutcomes(body: Payload, accounts: set<Id>)
    ensures var o := Check(Forward(body, KEYS), accounts);
      o.transactionDate == Skipped && !o.transactionType.Skipped? && !o.status.Skipped?
  {
    var data := Forward(body, KEYS);
    assert Fields.Input(data, "transaction_date") == None;
    assert "transaction_type" in data && "status" in data;
  }

  /** `get_object`: the transaction stored under `id`, or nothing. */
  function GetObject(store: Database.Store, id: Id): (r: Option<Transaction>)
    reads store
    ensures r.Some? <==> id in store.transactions
    ensures r.Some? ==> r.value == store.transactions[id]
  {
    if id in store.transactions then Some(store.transactions[id]) else None
  }

  /** GET on the collection: every stored transaction, serialised, once each. */
  function List(store: Database.Store, authenticated: bool): (resp: Response)
    requires store.Valid()
    reads store
    ensures !authenticated ==> resp == Unauthorized()
    ensures authenticated ==> resp.status == HTTP_200_OK && resp.body.Records?
    ensures authenticated ==> |resp.body.records| == |store.transactions|
    ensures authenticated ==>
      forall id | id in store.transactions :: Serialize(store.transactions[id]) in resp.body.records
    ensures authenticated ==>
      forall p | p in resp.body.records :: exists id | id in store.transactions :: p == Serialize(store.transactions[id])
  {
    if !authenticated then Unauthorized()
    else Response(HTTP_200_OK, Records(Database.Listing(store.transactions, store.nextTransactionId, Serialize)))
  }

  /** GET on one transaction: its serialised form, or 400 with a `res` message. */
  function Retrieve(store: Database.Store, authenticated: bool, id: Id): (resp: Response)
    reads store
    ensures !authenticated ==> resp == Unauthorized()
    ensures authenticated && id !in store.transactions ==> resp == Response(HTTP_400_BAD_REQUEST, Res(NOT_FOUND))
    ensures authenticated && id in store.transactions ==>
      resp == Response(HTTP_200_OK, Record(Serialize(store.transactions[id])))
  {
    if !authenticated then Unauthorized()
    else
      match GetObject(store, id)
      case None => Response(HTTP_400_BAD_REQUEST, Res(NOT_FOUND))
      case Some(t) => Response(HTTP_200_OK, Record(Serialize(t)))
  }

  /** POST on the collection: 201 with the new transaction when the forwarded data is
      valid against the existing accounts, which adds exactly one transaction;
      otherwise 400 with the field errors and no change at all. */
  method Create(store: Database.Store, authenticated: bool, body: Payload) returns (resp: Response)
    requires store.Valid()
    modifies store
    ensures store.Valid()
    ensures store.accounts == old(store.accounts)
    ensures !authenticated ==> resp == Unauthorized() && unchanged(store)
    ensures authenticated && WriteInput(body, old(store.accounts).Keys).Err? ==>
      resp == Response(HTTP_400_BAD_REQUEST, FieldErrors(WriteInput(body, old(store.accounts).Keys).error))
      && unchanged(store)
    ensures authenticated && WriteInput(body, old(store.accounts).Keys).Ok? ==>
      var id := old(store.nextTransactionId);
      && id !in old(store.transactions)
      && store.nextTransactionId == id + 1 && store.nextAccountId == old(store.nextAccountId)
      && store.nextGuid == old(store.nextGuid) + 1 && store.clock == old(store.clock) + 1
      && store.transactions == old(store.transactions)[id :=
           TransactionModel.Create(old(store.nextGuid), old(store.clock) + 1, WriteInput(body, old(store.accounts).Keys).value)]
      && |store.transactions| == |old(store.transactions)| + 1
      && resp == Response(HTTP_201_CREATED, Record(Serialize(store.transactions[id])))
  {
    if !authenticated {
      return Unauthorized();
    }
    match WriteInput(body, store.accounts.Keys)
    case Err(e) =>
      resp := Response(HTTP_400_BAD_REQUEST, FieldErrors(e));
    case Ok(f) =>
      var id := store.InsertTransaction(f);
      resp := Response(HTTP_201_CREATED, Record(Serialize(store.transactions[id])));
  }

  /** PUT on one transaction: 400 with a `res` message when there is no such
      transaction; 400 with the field errors and no change when the forwarded data is
      invalid; otherwise the transaction saved with the validated fields and 200 with
      its new serialised form. */
  method Update(store: Database.Store, authenticated: bool, id: Id, body: Payload) returns (resp: Response)
    requires store.Valid()
    modifies store
    ensures store.Valid()
    ensures store.accounts == old(store.accounts)
    ensures !authenticated ==> resp == Unauthorized() && unchanged(store)
    ensures authenticated && id !in old(store.transactions) ==>
      resp == Response(HTTP_400_BAD_REQUEST, Res(NOT_FOUND_GIVEN)) && unchanged(store)
    ensures authenticated && id in old(store.transactions) && WriteInput(body, old(store.accounts).Keys).Err? ==>
      resp == Response(HTTP_400_BAD_REQUEST, FieldErrors(WriteInput(body, old(store.accounts).Keys).error))
      && unchanged(store)
    ensures authenticated && id in old(store.transactions) && WriteInput(body, old(store.accounts).Keys).Ok? ==>
      && store.transactions == old(store.transactions)[id :=
           Save(old(store.transactions)[id], WriteInput(body, old(store.accounts).Keys).value, old(store.clock) + 1)]
      && store.nextAccountId == old(store.nextAccountId) && store.nextTransactionId == old(store.nextTransactionId)
      && store.nextGuid == old(store.nextGuid) && store.clock == old(store.clock) + 1
      && resp == Response(HTTP_200_OK, Record(Serialize(store.transactions[id])))
  {
    if !authenticated {
      return Unauthorized();
    }
    if GetObject(store, id).None? {
      return Response(HTTP_400_BAD_REQUEST, Res(NOT_FOUND_GIVEN));
    }
    match WriteInput(body, store.accounts.Keys)
    case Err(e) =>
      resp := Response(HTTP_400_BAD_REQUEST, FieldErrors(e));
    case Ok(f) =>
      store.UpdateTransaction(id, f);
      resp := Response(HTTP_200_OK, Record(Serialize(store.transactions[id])));
  }

  /** DELETE on one transaction: 400 with a `res` message when there is no such
      transaction; otherwise that row alone is removed and the answer is a `res`
      message rather than the transaction. */
  method Delete(store: Database.Store, authenticated: bool, id: Id) returns (resp: Response)
    requires store.Valid()
    modifies store
    ensures store.Valid()
    ensures store.accounts == old(store.accounts)
    ensures !authenticated ==> resp == Unauthorized() && unchanged(store)
    ensures authenticated && id !in old(store.transactions) ==>
      resp == Response(HTTP_400_BAD_REQUEST, Res(NOT_FOUND_GIVEN)) && unchanged(store)
    ensures authenticated && id in old(store.transactions) ==>
      && store.transactions == old(store.transactions) - {id}
      && store.nextAccountId == old(store.nextAccountId) && store.nextTransactionId == old(store.nextTransactionId)
      && store.nextGuid == old(store.nextGuid) && store.clock == old(store.clock)
      && resp == Response(HTTP_200_OK, Res(DELETED))
  {
    if !authenticated {
      return Unauthorized();
    }
    if GetObject(store, id).None? {
      return Response(HTTP_400_BAD_REQUEST, Res(NOT_FOUND_GIVEN));
    }
    store.DeleteTransaction(id);
    resp := Response(HTTP_200_OK, Res(DELETED));
  }

  /** Only the forwarded keys reach validation. In particular a transaction_date in the
      request body is dropped, so a created transaction is always dated at its creation
      and an update always keeps the stored date. */
  lemma InputIgnoresOtherKeys(body: Payload, accounts: set<Id>, key: string, v: Value)
    requires key !in KEYS
    ensures WriteInput(body[key := v], accounts) == WriteInput(body, accounts)
  {
    ForwardDropsOtherKeys(body, KEYS, key, v);
  }

  lemma TransactionDateNeverValidated(body: Payload, accounts: set<Id>)
    ensures "transaction_date" !in Forward(body, KEYS)
    ensures WriteInput(body, accounts).Ok? ==> WriteInput(body, accounts).value.transactionDate.None?
  {
    var data := Forward(body, KEYS);
    assert Fields.Input(data, "transaction_date") == None;
    assert Check(data, accounts).transactionDate == Skipped;
  }

  /** A missing transaction type reaches the serializer as null, which the type field
      refuses: through this endpoint the type must be given, its model default
      notwithstanding. */
  lemma MissingTransactionTypeRefused(body: Payload, accounts: set<Id>)
    requires "transaction_type" !in body
    ensures WriteInput(body, accounts).Err? && "transaction_type" in WriteInput(body, accounts).error
    ensures WriteInput(body, accounts).error["transaction_type"] == NotNull
  {
  }
}
