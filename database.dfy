/** The two tables the views read and write, held as one store: accounts and
    transactions keyed by their auto-increment ids, the supply of fresh guids and the
    clock that stamps every write. Each write method is one ORM operation the views
    perform (`save()` of a new or an existing row, `delete()`), stated as the new
    contents of the tables in terms of the old. */
module Database {
  import opened Support
  import opened Fields
  import AM = AccountModel
  import TM = TransactionModel

  /** Ids of the account rows, each below `nextId`; every row well formed, stamped no
      later than `clock`, and holding a guid already drawn from the supply. */
  predicate AccountsConsistent(accounts: map<Id, AM.Account>, nextId: Id, nextGuid: Guid, clock: Timestamp)
  {
    forall id | id in accounts ::
      && 1 <= id < nextId
      && AM.WellFormed(accounts[id])
      && accounts[id].accountGuid < nextGuid
      && accounts[id].lastUpdated <= clock
  }

  /** The same for the transaction rows, and both references name existing accounts. */
  predicate TransactionsConsistent(transactions: map<Id, TM.Transaction>, accounts: set<Id>,
                                   nextId: Id, nextGuid: Guid, clock: Timestamp)
  {
    forall id | id in transactions ::
      && 1 <= id < nextId
      && TM.WellFormed(transactions[id])
      && transactions[id].creditFrom in accounts
      && transactions[id].debitTo in accounts
      && transactions[id].transactionGuid < nextGuid
      && transactions[id].lastUpdated <= clock
  }

  /** No two rows, in the same table or across the two, share a guid. */
  predicate GuidsDistinct(accounts: map<Id, AM.Account>, transactions: map<Id, TM.Transaction>)
  {
    && (forall i, j | i in accounts && j in accounts && i != j ::
          accounts[i].accountGuid != accounts[j].accountGuid)
    && (forall i, j | i in transactions && j in transactions && i != j ::
          transactions[i].transactionGuid != transactions[j].transactionGuid)
    && (forall i, j | i in accounts && j in transactions ::
          accounts[i].accountGuid != transactions[j].transactionGuid)
  }

  /** The ids in `keys` below `n`, in ascending order: the order the list views give. */
  function IdsBelow(keys: set<Id>, n: nat): (r: seq<Id>)
    ensures forall i | 0 <= i < |r| :: r[i] in keys && r[i] < n
    ensures forall i, j | 0 <= i < j < |r| :: r[i] < r[j]
    ensures forall k | k in keys && k < n :: k in r
  {
    if n == 0 then []
    else IdsBelow(keys, n - 1) + (if n - 1 in keys then [n - 1] else [])
  }

  /** The ids in `keys` below `n`. */
  function KeysBelow(keys: set<Id>, n: nat): set<Id>
  {
    set k | k in keys && k < n
  }

  lemma KeysBelowStep(keys: set<Id>, n: nat)
    requires n > 0
    ensures |KeysBelow(keys, n)| == |KeysBelow(keys, n - 1)| + (if n - 1 in keys then 1 else 0)
  {
    if n - 1 in keys {
      assert KeysBelow(keys, n) == KeysBelow(keys, n - 1) + {n - 1};
    } else {
      assert KeysBelow(keys, n) == KeysBelow(keys, n - 1);
    }
  }

  /** Each id below `n` is listed once: as many entries as ids. */
  lemma {:induction false} IdsBelowCount(keys: set<Id>, n: nat)
    ensures |IdsBelow(keys, n)| == |KeysBelow(keys, n)|
  {
    if n > 0 {
      IdsBelowCount(keys, n - 1);
      KeysBelowStep(keys, n);
    }
  }

  /** When every key is below `n`, the listing holds every key exactly once. */
  lemma ListsAllKeys(keys: set<Id>, n: nat)
    requires forall k | k in keys :: k < n
    ensures |IdsBelow(keys, n)| == |keys|
    ensures forall k :: k in keys <==> k in IdsBelow(keys, n)
  {
    IdsBelowCount(keys, n);
    assert KeysBelow(keys, n) == keys;
  }

  /** The serialised form of the rows under `ids`, in that order. */
  function SerializeRows<T>(rows: map<Id, T>, ids: seq<Id>, serialize: T -> Payload): (r: seq<Payload>)
    requires forall i | 0 <= i < |ids| :: ids[i] in rows
    ensures |r| == |ids|
    ensures forall i | 0 <= i < |ids| :: r[i] == serialize(rows[ids[i]])
  {
    if ids == [] then [] else [serialize(rows[ids[0]])] + SerializeRows(rows, ids[1..], serialize)
  }

  /** A table serialised whole (`many=True` over all rows), in ascending id order: one
      entry per row, each the serialised form of a stored row. */
  function Listing<T>(rows: map<Id, T>, nextId: Id, serialize: T -> Payload): (r: seq<Payload>)
    requires forall id | id in rows :: id < nextId
    ensures |r| == |rows|
    ensures forall id | id in rows :: serialize(rows[id]) in r
    ensures forall p | p in r :: exists id | id in rows :: p == serialize(rows[id])
  {
    var ids := IdsBelow(rows.Keys, nextId);
    ListsAllKeys(rows.Keys, nextId);
    var r := SerializeRows(rows, ids, serialize);
    assert forall id | id in rows :: serialize(rows[id]) in r by {
      forall id | id in rows
        ensures serialize(rows[id]) in r
      {
        var i :| 0 <= i < |ids| && ids[i] == id;
        assert r[i] == serialize(rows[id]);
      }
    }
    r
  }

  class Store {
    var accounts: map<Id, AM.Account>
    var transactions: map<Id, TM.Transaction>
    var nextAccountId: Id
    var nextTransactionId: Id
    var nextGuid: Guid
    var clock: Timestamp

    /** The invariant every operation keeps. */
    predicate Valid()
      reads this
    {
      && 1 <= nextAccountId && 1 <= nextTransactionId
      && AccountsConsistent(accounts, nextAccountId, nextGuid, clock)
      && TransactionsConsistent(transactions, accounts.Keys, nextTransactionId, nextGuid, clock)
      && GuidsDistinct(accounts, transactions)
    }

    /** An empty database. */
    constructor()
      ensures Valid()
      ensures accounts == map[] && transactions == map[]
      ensures nextAccountId == 1 && nextTransactionId == 1
    {
      accounts := map[];
      transactions := map[];
      nextAccountId := 1;
      nextTransactionId := 1;
      nextGuid := 0;
      clock := 0;
    }

    /** `save()` of a new account: the next id, a fresh guid, the model's defaults,
        and every timestamp the time of this write. */
    method InsertAccount(f: AM.AccountFields) returns (id: Id)
      requires Valid() && AM.FieldsWellFormed(f)
      modifies this
      ensures Valid()
      ensures id == old(nextAccountId) && id !in old(accounts)
      ensures accounts == old(accounts)[id := AM.Create(old(nextGuid), old(clock) + 1, f)]
      ensures transactions == old(transactions)
      ensures nextAccountId == old(nextAccountId) + 1 && nextTransactionId == old(nextTransactionId)
      ensures nextGuid == old(nextGuid) + 1 && clock == old(clock) + 1
    {
      id := nextAccountId;
      clock := clock + 1;
      accounts := accounts[id := AM.Create(nextGuid, clock, f)];
      nextGuid := nextGuid + 1;
      nextAccountId := nextAccountId + 1;
    }

    /** `save()` of an existing account with validated fields. */
    method UpdateAccount(id: Id, f: AM.AccountFields)
      requires Valid() && id in accounts && AM.FieldsWellFormed(f)
      modifies this
      ensures Valid()
      ensures accounts == old(accounts)[id := AM.Save(old(accounts)[id], f, old(clock) + 1)]
      ensures transactions == old(transactions)
      ensures nextAccountId == old(nextAccountId) && nextTransactionId == old(nextTransactionId)
      ensures nextGuid == old(nextGuid) && clock == old(clock) + 1
    {
      clock := clock + 1;
      accounts := accounts[id := AM.Save(accounts[id], f, clock)];
    }

    /** `delete()` of an account, cascading to every transaction that references it. */
    method DeleteAccount(id: Id)
      requires Valid() && id in accounts
      modifies this
      ensures Valid()
      ensures accounts == old(accounts) - {id}
      ensures transactions == TM.CascadeFrom(old(transactions), id)
      ensures nextAccountId == old(nextAccountId) && nextTransactionId == old(nextTransactionId)
      ensures nextGuid == old(nextGuid) && clock == old(clock)
    {
      accounts := accounts - {id};
      transactions := TM.CascadeFrom(transactions, id);
    }

    /** `save()` of a new transaction between two existing accounts. */
    method InsertTransaction(f: TM.TransactionFields) returns (id: Id)
      requires Valid() && TM.FieldsWellFormed(f)
      requires f.creditFrom in accounts && f.debitTo in accounts
      modifies this
      ensures Valid()
      ensures id == old(nextTransactionId) && id !in old(transactions)
      ensures transactions == old(transactions)[id := TM.Create(old(nextGuid), old(clock) + 1, f)]
      ensures accounts == old(accounts)
      ensures nextAccountId == old(nextAccountId) && nextTransactionId == old(nextTransactionId) + 1
      ensures nextGuid == old(nextGuid) + 1 && clock == old(clock) + 1
    {
      id := nextTransactionId;
      clock := clock + 1;
      transactions := transactions[id := TM.Create(nextGuid, clock, f)];
      nextGuid := nextGuid + 1;
      nextTransactionId := nextTransactionId + 1;
    }

    /** `save()` of an existing transaction with validated fields. */
    method UpdateTransaction(id: Id, f: TM.TransactionFields)
      requires Valid() && id in transactions && TM.FieldsWellFormed(f)
      requires f.creditFrom in accounts && f.debitTo in accounts
      modifies this
      ensures Valid()
      ensures transactions == old(transactions)[id := TM.Save(old(transactions)[id], f, old(clock) + 1)]
      ensures accounts == old(accounts)
      ensures nextAccountId == old(nextAccountId) && nextTransactionId == old(nextTransactionId)
      ensures nextGuid == old(nextGuid) && clock == old(clock) + 1
    {
      clock := clock + 1;
      transactions := transactions[id := TM.Save(transactions[id], f, clock)];
    }

    /** `delete()` of a transaction: that row goes, nothing else changes. */
    method DeleteTransaction(id: Id)
      requires Valid() && id in transactions
      modifies this
      ensures Valid()
      ensures transactions == old(transactions) - {id}
      ensures accounts == old(accounts)
      ensures nextAccountId == old(nextAccountId) && nextTransactionId == old(nextTransactionId)
      ensures nextGuid == old(nextGuid) && clock == old(clock)
    {
      transactions := transactions - {id};
    }
  }
}
