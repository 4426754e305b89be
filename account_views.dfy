/** The account endpoints (payments/accounts_api/views.py): list and create on the
    collection, retrieve, update and delete on one account by id. Every endpoint first
    requires an authenticated request; a rejected write leaves the database as it was. */
module AccountViews {
  import opened Support
  import opened Fields
  import opened Http
  import opened AccountModel
  import opened AccountSerializer
  import Database
  import TransactionModel

  /** The keys the create handler reads from the request body. */
  const CREATE_KEYS: set<string> := {"account_name", "status", "balance", "currency"}

  /** The keys the update handler reads: the create keys and the end of validity. */
  const UPDATE_KEYS: set<string> := {"account_name", "status", "status_valid_to", "balance", "currency"}

  const NOT_FOUND: string := "Object with account id does not exist"
  const NOT_FOUND_GIVEN: string := "Object with given account id does not exist"
  const DELETED: string := "Account deleted"

  /** What validation makes of a request body sent to create an account. */
  function CreateInput(body: Payload): (r: Result<AccountFields, Errors>)
    ensures r.Err? ==> r.error.Keys <= CREATE_KEYS
    ensures r.Ok? ==> r.value.status.Some? && r.value.statusValidTo.None?
  {
    Validate(Forward(body, CREATE_KEYS))
  }

  /** What validation makes of a request body sent to update an account. */
  function UpdateInput(body: Payload): (r: Result<AccountFields, Errors>)
    ensures r.Err? ==> r.error.Keys <= UPDATE_KEYS
    ensures r.Ok? ==> r.value.status.Some? && r.value.statusValidTo.Some?
    ensures r.Ok? && "status_valid_to" !in body ==> r.value.statusValidTo == Some(None)
  {
    Validate(Forward(body, UPDATE_KEYS))
  }

  /** `get_object`: the account stored under `id`, or nothing. */
  function GetObject(store: Database.Store, id: Id): (r: Option<Account>)
    reads store
    ensures r.Some? <==> id in store.accounts
    ensures r.Some? ==> r.value == store.accounts[id]
  {
    if id in store.accounts then Some(store.accounts[id]) else None
  }

  /** GET on the collection: every stored account, serialised, once each. */
  function List(store: Database.Store, authenticated: bool): (resp: Response)
    requires store.Valid()
    reads store
    ensures !authenticated ==> resp == Unauthorized()
    ensures authenticated ==> resp.status == HTTP_200_OK && resp.body.Records?
    ensures authenticated ==> |resp.body.records| == |store.accounts|
    ensures authenticated ==> forall id | id in store.accounts :: Serialize(store.accounts[id]) in resp.body.records
    ensures authenticated ==>
      forall p | p in resp.body.records :: exists id | id in store.accounts :: p == Serialize(store.accounts[id])
  {
    if !authenticated then Unauthorized()
    else Response(HTTP_200_OK, Records(Database.Listing(store.accounts, store.nextAccountId, Serialize)))
  }

  /** GET on one account: its serialised form, or 400 with a `res` message. */
  function Retrieve(store: Database.Store, authenticated: bool, id: Id): (resp: Response)
    reads store
    ensures !authenticated ==> resp == Unauthorized()
    ensures authenticated && id !in store.accounts ==> resp == Response(HTTP_400_BAD_REQUEST, Res(NOT_FOUND))
    ensures authenticated && id in store.accounts ==>
      resp == Response(HTTP_200_OK, Record(Serialize(store.accounts[id])))
  {
    if !authenticated then Unauthorized()
    else
      match GetObject(store, id)
      case None => Response(HTTP_400_BAD_REQUEST, Res(NOT_FOUND))
      case Some(a) => Response(HTTP_200_OK, Record(Serialize(a)))
  }

  /** POST on the collection: 201 with the new account when the forwarded data is
      valid, which adds exactly one account; otherwise 400 with the field errors and
      no change at all. */
  method Create(store: Database.Store, authenticated: bool, body: Payload) returns (resp: Response)
    requires store.Valid()
    modifies store
    ensures store.Valid()
    ensures !authenticated ==> resp == Unauthorized() && unchanged(store)
    ensures authenticated && CreateInput(body).Err? ==>
      resp == Response(HTTP_400_BAD_REQUEST, FieldErrors(CreateInput(body).error)) && unchanged(store)
    ensures authenticated && CreateInput(body).Ok? ==>
      var id := old(store.nextAccountId);
      && id !in old(store.accounts)
      && store.nextAccountId == id + 1 && store.nextTransactionId == old(store.nextTransactionId)
      && store.nextGuid == old(store.nextGuid) + 1 && store.clock == old(store.clock) + 1
      && store.accounts == old(store.accounts)[id := AccountModel.Create(old(store.nextGuid), old(store.clock) + 1, CreateInput(body).value)]
      && |store.accounts| == |old(store.accounts)| + 1
      && store.transactions == old(store.transactions)
      && resp == Response(HTTP_201_CREATED, Record(Serialize(store.accounts[id])))
  {
    if !authenticated {
      return Unauthorized();
    }
    match CreateInput(body)
    case Err(e) =>
      resp := Response(HTTP_400_BAD_REQUEST, FieldErrors(e));
    case Ok(f) =>
      var id := store.InsertAccount(f);
      resp := Response(HTTP_201_CREATED, Record(Serialize(store.accounts[id])));
  }

  /** PUT on one account: 400 with a `res` message when there is no such account; 400
      with the field errors and no change when the forwarded data is invalid; otherwise
      the account saved with the validated fields and 200 with its new serialised form. */
  method Update(store: Database.Store, authenticated: bool, id: Id, body: Payload) returns (resp: Response)
    requires store.Valid()
    modifies store
    ensures store.Valid()
    ensures !authenticated ==> resp == Unauthorized() && unchanged(store)
    ensures authenticated && id !in old(store.accounts) ==>
      resp == Response(HTTP_400_BAD_REQUEST, Res(NOT_FOUND_GIVEN)) && unchanged(store)
    ensures authenticated && id in old(store.accounts) && UpdateInput(body).Err? ==>
      resp == Response(HTTP_400_BAD_REQUEST, FieldErrors(UpdateInput(body).error)) && unchanged(store)
    ensures authenticated && id in old(store.accounts) && UpdateInput(body).Ok? ==>
      && store.accounts == old(store.accounts)[id := Save(old(store.accounts)[id], UpdateInput(body).value, old(store.clock) + 1)]
      && store.transactions == old(store.transactions)
      && store.nextAccountId == old(store.nextAccountId) && store.nextTransactionId == old(store.nextTransactionId)
      && store.nextGuid == old(store.nextGuid) && store.clock == old(store.clock) + 1
      && resp == Response(HTTP_200_OK, Record(Serialize(store.accounts[id])))
  {
    if !authenticated {
      return Unauthorized();
    }
    if GetObject(store, id).None? {
      return Response(HTTP_400_BAD_REQUEST, Res(NOT_FOUND_GIVEN));
    }
    match UpdateInput(body)
    case Err(e) =>
      resp := Response(HTTP_400_BAD_REQUEST, FieldErrors(e));
    case Ok(f) =>
      store.UpdateAccount(id, f);
      resp := Response(HTTP_200_OK, Record(Serialize(store.accounts[id])));
  }

  /** DELETE on one account: 400 with a `res` message when there is no such account;
      otherwise the account is removed, with every transaction that references it, and
      the answer is a `res` message rather than the account. */
  method Delete(store: Database.Store, authenticated: bool, id: Id) returns (resp: Response)
    requires store.Valid()
    modifies store
    ensures store.Valid()
    ensures !authenticated ==> resp == Unauthorized() && unchanged(store)
    ensures authenticated && id !in old(store.accounts) ==>
      resp == Response(HTTP_400_BAD_REQUEST, Res(NOT_FOUND_GIVEN)) && unchanged(store)
    ensures authenticated && id in old(store.accounts) ==>
      && store.accounts == old(store.accounts) - {id}
      && store.transactions == TransactionModel.CascadeFrom(old(store.transactions), id)
      && store.nextAccountId == old(store.nextAccountId) && store.nextTransactionId == old(store.nextTransactionId)
      && store.nextGuid == old(store.nextGuid) && store.clock == old(store.clock)
      && resp == Response(HTTP_200_OK, Res(DELETED))
  {
    if !authenticated {
      return Unauthorized();
    }
    if GetObject(store, id).None? {
      return Response(HTTP_400_BAD_REQUEST, Res(NOT_FOUND_GIVEN));
    }
    store.DeleteAccount(id);
    resp := Response(HTTP_200_OK, Res(DELETED));
  }

  /** Only the forwarded keys reach validation: any other key in the request body,
      such as created_on, account_guid or (on create) status_valid_to, is dropped. */
  lemma InputIgnoresOtherKeys(body: Payload, key: string, v: Value)
    ensures key !in CREATE_KEYS ==> CreateInput(body[key := v]) == CreateInput(body)
    ensures key !in UPDATE_KEYS ==> UpdateInput(body[key := v]) == UpdateInput(body)
  {
    if key !in CREATE_KEYS {
      ForwardDropsOtherKeys(body, CREATE_KEYS, key, v);
    }
    if key !in UPDATE_KEYS {
      ForwardDropsOtherKeys(body, UPDATE_KEYS, key, v);
    }
  }

  /** A new account never gets an end of validity: create does not forward it. */
  lemma CreateLeavesValidToUnset(body: Payload)
    requires CreateInput(body).Ok?
    ensures CreateInput(body).value.statusValidTo.None?
    ensures AccountModel.Create(0, 0, CreateInput(body).value).statusValidTo.None?
  {
    ValidatedFieldsAreTheGivenOnes(Forward(body, CREATE_KEYS));
  }

  /** The view hands the serializer a null for a missing status, which the status field
      refuses: through this endpoint the status must be given, its model default
      notwithstanding. */
  lemma MissingStatusRefused(body: Payload)
    requires "status" !in body
    ensures CreateInput(body).Err? && "status" in CreateInput(body).error
    ensures CreateInput(body).error["status"] == NotNull
    ensures UpdateInput(body).Err? && "status" in UpdateInput(body).error
  {
    assert Input(Forward(body, CREATE_KEYS), "status") == Some(Null);
    assert Input(Forward(body, UPDATE_KEYS), "status") == Some(Null);
  }

  /** An empty request body is refused, every forwarded field reporting a null. */
  lemma EmptyBodyRefused()
    ensures CreateInput(map[]) ==
      Err(map["account_name" := NotNull, "status" := NotNull, "balance" := NotNull, "currency" := NotNull])
  {
    var expected := map["account_name" := NotNull, "status" := NotNull, "balance" := NotNull, "currency" := NotNull];
    var r := CreateInput(map[]);
    assert r.Err?;
    assert r.error.Keys == expected.Keys;
    assert forall k | k in expected :: r.error[k] == expected[k];
    assert r.error == expected;
  }
}
