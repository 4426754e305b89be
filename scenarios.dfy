/** Runs of the endpoints over a fresh database, each following one of the request
    sequences the repository's view tests make, with the outcome those tests check
    stated as a postcondition. */
module Scenarios {
  import opened Support
  import opened Decimals
  import opened Fields
  import opened Http
  import AccountModel
  import AccountSerializer
  import TransactionModel
  import TransactionSerializer
  import AV = AccountViews
  import TV = TransactionViews
  import opened Database

  /** The body of a request to create an account, as the tests send it. */
  function AccountBody(name: string, currency: string): Payload
  {
    map["account_name" := Text(name), "status" := Text("ACTIVE"), "balance" := Integer(5000),
        "currency" := Text(currency)]
  }

  /** The create view forwards such a body as it is. */
  lemma AccountBodyForwarded(name: string, currency: string)
    ensures Forward(AccountBody(name, currency), AV.CREATE_KEYS) == AccountBody(name, currency)
  {
  }

  /** What each field makes of such a body. */
  lemma AccountBodyOutcomes(name: string, currency: string)
    ensures AccountSerializer.Check(AccountBody(name, currency)).status.Valid?
    ensures AccountSerializer.Check(AccountBody(name, currency)).validTo.Skipped?
    ensures AccountSerializer.Check(AccountBody(name, currency)).balance.Valid?
    ensures AccountSerializer.Check(AccountBody(name, currency)).name.Valid? <==>
      0 < |name| <= AccountModel.NAME_MAX_LENGTH
    ensures AccountSerializer.Check(AccountBody(name, currency)).currency.Valid? <==> |currency| == 3
    ensures AccountSerializer.Check(AccountBody(name, currency)).name.Valid? ==>
      AccountSerializer.Check(AccountBody(name, currency)).name.value == name
    ensures AccountSerializer.Check(AccountBody(name, currency)).currency.Valid? ==>
      AccountSerializer.Check(AccountBody(name, currency)).currency.value == currency
  {
    var body := AccountBody(name, currency);
    AccountModel.ParseStatusText(AccountModel.ACTIVE, "ACTIVE");
    assert Input(body, "status") == Some(Text("ACTIVE"));
    assert Input(body, "status_valid_to") == None;
    assert Input(body, "balance") == Some(Integer(5000)) by {
      assert Pow10(4) == 10000;
      Pow10Monotone(4, 17);
      WholeNumberWithinPrecision(5000, 19, 2);
    }
    assert Input(body, "account_name") == Some(Text(name));
    assert Input(body, "currency") == Some(Text(currency));
  }

  /** Such a body is accepted exactly when the name is 1 to 100 characters and the
      currency 3. */
  lemma AccountBodyAccepted(name: string, currency: string)
    ensures AV.CreateInput(AccountBody(name, currency)).Ok? <==>
      0 < |name| <= AccountModel.NAME_MAX_LENGTH && |currency| == 3
  {
    AccountBodyForwarded(name, currency);
    AccountBodyOutcomes(name, currency);
  }

  /** The body of a request to create a transaction between two accounts. */
  function TransactionBody(creditFrom: int, debitTo: int): Payload
  {
    map["transaction_type" := Text("CREDIT"), "credit_from" := Integer(creditFrom),
        "debit_to" := Integer(debitTo), "amount" := Integer(230), "currency" := Text("EUR"),
        "status" := Text("UNCLEARED")]
  }

  /** The entries of such a body, one by one. */
  lemma TransactionBodyEntries(creditFrom: int, debitTo: int)
    ensures var body := TransactionBody(creditFrom, debitTo);
      && "transaction_type" in body && body["transaction_type"] == Text("CREDIT")
      && "credit_from" in body && body["credit_from"] == Integer(creditFrom)
      && "debit_to" in body && body["debit_to"] == Integer(debitTo)
      && "amount" in body && body["amount"] == Integer(230)
      && "currency" in body && body["currency"] == Text("EUR")
      && "status" in body && body["status"] == Text("UNCLEARED")
      && "transaction_date" !in body
  {
  }

  lemma TransactionBodyAcceptable(creditFrom: int, debitTo: int, accounts: set<Id>)
    ensures TransactionSerializer.Acceptable(TransactionBody(creditFrom, debitTo), accounts) <==>
      creditFrom >= 0 && debitTo >= 0 && creditFrom in accounts && debitTo in accounts
  {
    TransactionBodyEntries(creditFrom, debitTo);
    assert Pow10(3) == 1000;
    Pow10Monotone(3, 17);
    WholeNumberWithinPrecision(230, 19, 2);
  }

  /** Such a body is accepted exactly when both accounts exist. */
  lemma TransactionBodyAccepted(creditFrom: int, debitTo: int, accounts: set<Id>)
    ensures TV.WriteInput(TransactionBody(creditFrom, debitTo), accounts).Ok? <==>
      creditFrom >= 0 && debitTo >= 0 && creditFrom in accounts && debitTo in accounts
  {
    var body := TransactionBody(creditFrom, debitTo);
    assert Forward(body, TV.KEYS) == body["date" := Null];
    TransactionSerializer.ValidateIgnoresOtherKeys(body, accounts, "date", Null);
    TransactionBodyAcceptable(creditFrom, debitTo, accounts);
    TransactionSerializer.ValidateAcceptsExactly(body, accounts);
  }

  /** Two accounts created from identical data are two records: same name, distinct
      guids. */
  method IdenticalAccounts(name: string) returns (first: Response, second: Response)
    requires 0 < |name| <= AccountModel.NAME_MAX_LENGTH
    ensures first.status == HTTP_201_CREATED && second.status == HTTP_201_CREATED
    ensures first.body.Record? && second.body.Record?
    ensures first.body.record.Keys == second.body.record.Keys == AccountSerializer.FIELDS
    ensures first.body.record["account_name"] == second.body.record["account_name"]
    ensures first.body.record["account_guid"] != second.body.record["account_guid"]
  {
    var store := new Store();
    AccountBodyAccepted(name, "GBP");
    first := AV.Create(store, true, AccountBody(name, "GBP"));
    second := AV.Create(store, true, AccountBody(name, "GBP"));
  }

  /** The refused bodies of the account tests: a two- and a four-letter currency, an
      unknown status, a balance with four decimal places (600000.0001), nothing at all. */
  function RefusedBodies(name: string): seq<Payload>
  {
    [ AccountBody(name, "US"),
      AccountBody(name, "JPAN"),
      AccountBody(name, "GBP")["status" := Text("INACTIVITY")],
      AccountBody(name, "GBP")["balance" := Number(Decimal(6000000001, 4))],
      map[] ]
  }

  lemma StatusBodyRefused(name: string)
    ensures AV.CreateInput(RefusedBodies(name)[2]).Err?
  {
    var data := Forward(RefusedBodies(name)[2], AV.CREATE_KEYS);
    assert data["status"] == Text("INACTIVITY");
    AccountSerializer.BadStatusRefused(data);
  }

  lemma BalanceBodyRefused(name: string)
    ensures AV.CreateInput(RefusedBodies(name)[3]).Err?
  {
    var data := Forward(RefusedBodies(name)[3], AV.CREATE_KEYS);
    assert data["balance"] == Number(Decimal(6000000001, 4));
    PrecisionExamples();
    AccountSerializer.BadBalanceRefused(data);
  }

  lemma RefusedBodiesRefused(name: string)
    requires 0 < |name| <= AccountModel.NAME_MAX_LENGTH
    ensures forall i | 0 <= i < |RefusedBodies(name)| :: AV.CreateInput(RefusedBodies(name)[i]).Err?
  {
    var bodies := RefusedBodies(name);
    forall i | 0 <= i < |bodies|
      ensures AV.CreateInput(bodies[i]).Err?
    {
      if i == 0 {
        AccountBodyAccepted(name, "US");
      } else if i == 1 {
        AccountBodyAccepted(name, "JPAN");
      } else if i == 2 {
        StatusBodyRefused(name);
      } else if i == 3 {
        BalanceBodyRefused(name);
      } else {
        AV.EmptyBodyRefused();
      }
    }
  }

  /** An accepted account body gives the account the name and currency it carries. */
  lemma AccountBodyFields(name: string, currency: string)
    requires AV.CreateInput(AccountBody(name, currency)).Ok?
    ensures AV.CreateInput(AccountBody(name, currency)).value.accountName == name
    ensures AV.CreateInput(AccountBody(name, currency)).value.currency == currency
  {
    AccountBodyForwarded(name, currency);
    AccountBodyOutcomes(name, currency);
  }

  /** Creates an account from a valid body: one more account, under the next id. */
  method AddAccount(store: Store, name: string, currency: string) returns (id: Id)
    requires store.Valid() && 0 < |name| <= AccountModel.NAME_MAX_LENGTH && |currency| == 3
    modifies store
    ensures store.Valid()
    ensures id == old(store.nextAccountId) && store.nextAccountId == id + 1
    ensures store.accounts.Keys == old(store.accounts.Keys) + {id} && id !in old(store.accounts)
    ensures store.accounts[id].accountName == name && store.accounts[id].currency == currency
    ensures forall k | k in old(store.accounts) :: store.accounts[k] == old(store.accounts)[k]
    ensures store.transactions == old(store.transactions)
    ensures store.nextTransactionId == old(store.nextTransactionId)
  {
    AccountBodyAccepted(name, currency);
    AccountBodyFields(name, currency);
    id := store.nextAccountId;
    ghost var before := store.accounts;
    ghost var account := AccountModel.Create(store.nextGuid, store.clock + 1, AV.CreateInput(AccountBody(name, currency)).value);
    var created := AV.Create(store, true, AccountBody(name, currency));
    assert store.accounts == before[id := account];
    RowAdded(before, id, account);
  }

  /** Adding a row under a new id keeps every other row. */
  lemma RowAdded<R>(before: map<Id, R>, id: Id, row: R)
    requires id !in before
    ensures before[id := row].Keys == before.Keys + {id}
    ensures forall k | k in before :: before[id := row][k] == before[k]
  {
  }

  /** A create the serializer refuses answers 400 and leaves the accounts as they were. */
  method RefusedCreate(store: Store, body: Payload) returns (resp: Response)
    requires store.Valid() && AV.CreateInput(body).Err?
    modifies store
    ensures store.Valid() && store.accounts == old(store.accounts)
    ensures resp.status == HTTP_400_BAD_REQUEST
  {
    resp := AV.Create(store, true, body);
  }

  /** A fresh database holding one account. */
  method OneAccount(name: string) returns (store: Store)
    requires 0 < |name| <= AccountModel.NAME_MAX_LENGTH
    ensures fresh(store) && store.Valid() && |store.accounts| == 1
  {
    store := new Store();
    var id := AddAccount(store, name, "GBP");
    assert store.accounts.Keys == {id};
  }

  /** Each refused create answers 400 and the one existing account stays the only one. */
  method RefusedCreates(name: string) returns (responses: seq<Response>, count: nat)
    requires 0 < |name| <= AccountModel.NAME_MAX_LENGTH
    ensures |responses| == |RefusedBodies(name)|
    ensures forall i | 0 <= i < |responses| :: responses[i].status == HTTP_400_BAD_REQUEST
    ensures count == 1
  {
    var store := OneAccount(name);
    var bodies := RefusedBodies(name);
    RefusedBodiesRefused(name);
    responses := [];
    for i := 0 to |bodies|
      invariant store.Valid() && |store.accounts| == 1
      invariant |responses| == i
      invariant forall j | 0 <= j < i :: responses[j].status == HTTP_400_BAD_REQUEST
    {
      var r := RefusedCreate(store, bodies[i]);
      responses := responses + [r];
    }
    count := |store.accounts|;
  }

  /** A deleted account answers `Account deleted`, and a later retrieve finds nothing. */
  method DeleteThenRetrieve(name: string) returns (deleted: Response, retrieved: Response)
    requires 0 < |name| <= AccountModel.NAME_MAX_LENGTH
    ensures deleted == Response(HTTP_200_OK, Res("Account deleted"))
    ensures retrieved == Response(HTTP_400_BAD_REQUEST, Res("Object with account id does not exist"))
  {
    var store := new Store();
    AccountBodyAccepted(name, "GBP");
    var created := AV.Create(store, true, AccountBody(name, "GBP"));
    deleted := AV.Delete(store, true, 1);
    retrieved := AV.Retrieve(store, true, 1);
  }

  /** Creates a transaction between two existing accounts: one more transaction, under
      the next id, with those two references. */
  method AddTransaction(store: Store, creditFrom: Id, debitTo: Id) returns (id: Id)
    requires store.Valid() && creditFrom in store.accounts && debitTo in store.accounts
    modifies store
    ensures store.Valid()
    ensures id == old(store.nextTransactionId) && id !in old(store.transactions)
    ensures store.transactions.Keys == old(store.transactions.Keys) + {id}
    ensures store.transactions[id].creditFrom == creditFrom && store.transactions[id].debitTo == debitTo
    ensures store.accounts == old(store.accounts)
  {
    TransactionBodyAccepted(creditFrom, debitTo, store.accounts.Keys);
    id := store.nextTransactionId;
    var created := TV.Create(store, true, TransactionBody(creditFrom, debitTo));
    ValidatedReferences(creditFrom, debitTo, old(store.accounts).Keys);
  }

  /** The references of an accepted transaction body are the ones it names. */
  lemma ValidatedReferences(creditFrom: Id, debitTo: Id, accounts: set<Id>)
    requires TV.WriteInput(TransactionBody(creditFrom, debitTo), accounts).Ok?
    ensures TV.WriteInput(TransactionBody(creditFrom, debitTo), accounts).value.creditFrom == creditFrom
    ensures TV.WriteInput(TransactionBody(creditFrom, debitTo), accounts).value.debitTo == debitTo
  {
    var body := TransactionBody(creditFrom, debitTo);
    var data := Forward(body, TV.KEYS);
    TransactionBodyEntries(creditFrom, debitTo);
    assert data["credit_from"] == Integer(creditFrom) && data["debit_to"] == Integer(debitTo);
    var o := TransactionSerializer.Check(data, accounts);
    assert o.creditFrom == PrimaryKeyField(Some(Integer(creditFrom)), accounts);
    assert o.debitTo == PrimaryKeyField(Some(Integer(debitTo)), accounts);
    assert TV.WriteInput(body, accounts) == TransactionSerializer.Combine(o);
  }

  /** A fresh database holding accounts 1 and 2 and one transaction from 1 to 2. */
  method TwoAccountsOneTransaction(name: string) returns (store: Store)
    requires 0 < |name| <= AccountModel.NAME_MAX_LENGTH
    ensures fresh(store) && store.Valid()
    ensures store.accounts.Keys == {1, 2} && store.transactions.Keys == {1}
    ensures store.transactions[1].creditFrom == 1 && store.transactions[1].debitTo == 2
    ensures store.accounts[1].currency == "GBP" && store.accounts[2].currency == "EUR"
    ensures store.accounts[2].accountName == name
  {
    store := new Store();
    var a1 := AddAccount(store, name, "GBP");
    var a2 := AddAccount(store, name, "EUR");
    var t := AddTransaction(store, a1, a2);
  }

  /** Deleting an account of a transaction deletes the transaction; the other account
      stays. */
  method CascadeOnAccountDelete(name: string) returns (transactionsLeft: Response, accountsLeft: Response)
    requires 0 < |name| <= AccountModel.NAME_MAX_LENGTH
    ensures transactionsLeft == Response(HTTP_200_OK, Records([]))
    ensures accountsLeft.status == HTTP_200_OK && accountsLeft.body.Records?
    ensures |accountsLeft.body.records| == 1
    ensures "account_name" in accountsLeft.body.records[0] && accountsLeft.body.records[0]["account_name"] == Text(name)
    ensures "currency" in accountsLeft.body.records[0] && accountsLeft.body.records[0]["currency"] == Text("EUR")
  {
    var store := TwoAccountsOneTransaction(name);
    var survivor := store.accounts[2];
    DeleteReferencedAccount(store);
    transactionsLeft := TV.List(store, true);
    accountsLeft := AV.List(store, true);
    OnlyAccountListed(store, 2);
    assert accountsLeft == Response(HTTP_200_OK, Records([AccountSerializer.Serialize(survivor)]));
    SurvivorRecord(survivor, name);
  }

  /** The record of an account named `name` in euros carries that name and currency. */
  lemma SurvivorRecord(a: AccountModel.Account, name: string)
    requires a.accountName == name && a.currency == "EUR"
    ensures "account_name" in AccountSerializer.Serialize(a) && AccountSerializer.Serialize(a)["account_name"] == Text(name)
    ensures "currency" in AccountSerializer.Serialize(a) && AccountSerializer.Serialize(a)["currency"] == Text("EUR")
  {
  }

  /** Deletes account 1 of a database whose one transaction references it. */
  method DeleteReferencedAccount(store: Store)
    requires store.Valid() && store.accounts.Keys == {1, 2} && store.transactions.Keys == {1}
    requires TransactionModel.References(store.transactions[1], 1)
    modifies store
    ensures store.Valid() && store.transactions == map[]
    ensures store.accounts.Keys == {2} && store.accounts[2] == old(store.accounts[2])
  {
    var d := AV.Delete(store, true, 1);
    assert store.transactions.Keys == {};
  }

  /** With one account stored, the account list is that account's record alone. */
  lemma OnlyAccountListed(store: Store, id: Id)
    requires store.Valid() && store.accounts.Keys == {id}
    ensures AV.List(store, true).body.records == [AccountSerializer.Serialize(store.accounts[id])]
  {
    var records := AV.List(store, true).body.records;
    assert records[0] in records;
  }

  /** A transaction to an account that does not exist is refused on that reference,
      and no transaction is stored. */
  method TransactionToMissingAccount(name: string) returns (resp: Response, count: nat)
    requires 0 < |name| <= AccountModel.NAME_MAX_LENGTH
    ensures resp.status == HTTP_400_BAD_REQUEST && resp.body.FieldErrors?
    ensures "debit_to" in resp.body.errors && resp.body.errors["debit_to"] == NoSuchObject(99)
    ensures count == 0
  {
    var store := new Store();
    var a1 := AddAccount(store, name, "GBP");
    assert store.accounts.Keys == {1} && store.transactions == map[];
    TransactionSerializer.MissingAccountRefused(Forward(TransactionBody(1, 99), TV.KEYS), store.accounts.Keys, "debit_to");
    resp := TV.Create(store, true, TransactionBody(1, 99));
    count := |store.transactions|;
  }

  /** After a successful update, retrieving the same transaction answers with exactly
      the record the update answered with; a second retrieve answers the same again. */
  method UpdateThenRetrieve(store: Store, id: Id, body: Payload) returns (updated: Response, retrieved: Response)
    requires store.Valid()
    modifies store
    ensures updated.status == HTTP_200_OK ==>
      retrieved == updated && TV.Retrieve(store, true, id) == retrieved
  {
    updated := TV.Update(store, true, id, body);
    retrieved := TV.Retrieve(store, true, id);
  }
}
