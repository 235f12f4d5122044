/**
 * Transactions over the storage backend: a bounded table of at most 8 open
 * transactions, each recording up to 32 pending store and delete
 * operations, with a per-key conflict rule between transactions.
 *
 * The backend calls inside commit and rollback are empty in the firmware
 * (the operations are only recorded), so the model keeps the transaction
 * table alone.  Every `async` step runs to completion before the next one
 * starts, so each operation is a plain method.
 */
module StorageAtomic {
  import opened Wrappers
  import opened Ints
  import opened StorageTraits

  const MAX_OPERATIONS: nat := 32
  const MAX_TRANSACTIONS: nat := 8
  const DEFAULT_TIMEOUT_MS: u64 := 30000

  datatype TransactionState = Active | Committing | Committed | RollingBack | RolledBack | Failed

  datatype Operation =
    | Store(key: StorageKey, value: StorageValue, originalValue: Option<StorageValue>)
    | Delete(key: StorageKey, deletedValue: StorageValue)

  datatype Transaction = Transaction(
    id: u32, state: TransactionState, operations: seq<Operation>, createdAt: u64, timeoutMs: u64)
  {
    /**
     * `add_operation`: only an Active transaction accepts an operation, and
     * at most 32 operations fit.
     */
    function AddOperation(op: Operation): (r: Result<Transaction, StorageError>)
      ensures state != Active ==> r == Err(TransactionConflict)
      ensures state == Active && |operations| >= MAX_OPERATIONS ==> r == Err(CapacityExceeded)
      ensures r.Ok? <==> state == Active && |operations| < MAX_OPERATIONS
      ensures r.Ok? ==> r.value == this.(operations := operations + [op])
    {
      if state != Active then Err(TransactionConflict)
      else if |operations| >= MAX_OPERATIONS then Err(CapacityExceeded)
      else Ok(this.(operations := operations + [op]))
    }

    /**
     * `is_timed_out`: more than the timeout has elapsed since creation
     * (saturating): exactly the readings past creation time plus timeout,
     * so a clock reading before the creation never times a transaction out.
     */
    predicate IsTimedOut(now: u64)
      ensures IsTimedOut(now) <==> now > createdAt + timeoutMs
    {
      SatSub(now, createdAt) > timeoutMs
    }

    /** `is_terminal` */
    predicate IsTerminal()
      ensures IsTerminal() <==> state in {Committed, RolledBack, Failed}
    {
      match state
      case Committed => true
      case RolledBack => true
      case Failed => true
      case _ => false
    }

    function MarkFailed(): (r: Transaction)
      ensures r.state == Failed && r.IsTerminal() && r.operations == operations
    {
      this.(state := Failed)
    }

    function OperationCount(): nat { |operations| }
  }

  /** `StorageTransaction::new`: Active, no operations, created at time 0. */
  function NewTransaction(id: u32, timeoutMs: u64): (r: Transaction)
    ensures r.state == Active && r.operations == [] && !r.IsTerminal()
    ensures !r.IsTimedOut(0)
  {
    Transaction(id, Active, [], 0, timeoutMs)
  }

  /** An Active transaction holds a pending operation on `key`. */
  predicate Holds(t: Transaction, key: StorageKey) {
    t.state == Active && exists i :: 0 <= i < |t.operations| && t.operations[i].key == key
  }

  /** Appending an operation to an Active transaction adds exactly that operation's key to what it holds. */
  lemma HoldsAfterAdd(t: Transaction, op: Operation, k: StorageKey)
    requires t.state == Active
    ensures Holds(t.(operations := t.operations + [op]), k) <==> Holds(t, k) || op.key == k
  {
    var t' := t.(operations := t.operations + [op]);
    if Holds(t, k) {
      var i :| 0 <= i < |t.operations| && t.operations[i].key == k;
      assert t'.operations[i] == t.operations[i];
    }
    if op.key == k {
      assert t'.operations[|t.operations|] == op;
    }
  }

  /**
   * The lookup `atomic_retrieve` performs in a transaction's pending
   * operations: the earliest operation on the key decides, a Store giving
   * its value and a Delete giving `KeyNotFound`; no operation on the key is
   * `KeyNotFound` as well.
   */
  function PendingLookup(ops: seq<Operation>, key: StorageKey): Result<StorageValue, StorageError> {
    if ops == [] then Err(KeyNotFound)
    else if ops[0].key == key then
      (if ops[0].Store? then Ok(ops[0].value) else Err(KeyNotFound))
    else PendingLookup(ops[1..], key)
  }

  /** Index `i` holds the earliest pending operation on `key`. */
  predicate EarliestOn(ops: seq<Operation>, key: StorageKey, i: int) {
    0 <= i < |ops| && ops[i].key == key && forall j :: 0 <= j < i ==> ops[j].key != key
  }

  /** `PendingLookup` finds a value exactly when the earliest operation on the key is a Store of that value. */
  lemma {:induction false} PendingLookupIsEarliestStore(ops: seq<Operation>, key: StorageKey, v: StorageValue)
    ensures PendingLookup(ops, key) == Ok(v) <==>
      exists i :: EarliestOn(ops, key, i) && ops[i].Store? && ops[i].value == v
  {
    if ops != [] {
      PendingLookupIsEarliestStore(ops[1..], key, v);
      if ops[0].key != key {
        forall i | 0 <= i < |ops[1..]|
          ensures EarliestOn(ops[1..], key, i) <==> EarliestOn(ops, key, i + 1)
        {
          assert ops[1..][i] == ops[i + 1];
          assert forall j :: 0 <= j < i ==> ops[1..][j] == ops[j + 1];
        }
        if exists i :: EarliestOn(ops, key, i) && ops[i].Store? && ops[i].value == v {
          var i :| EarliestOn(ops, key, i) && ops[i].Store? && ops[i].value == v;
          assert i > 0 && EarliestOn(ops[1..], key, i - 1);
        }
      } else {
        assert EarliestOn(ops, key, 0);
        if exists i :: EarliestOn(ops, key, i) && ops[i].Store? && ops[i].value == v {
          var i :| EarliestOn(ops, key, i) && ops[i].Store? && ops[i].value == v;
          assert i == 0;
        }
      }
    }
  }

  /**
   * Reading a key back after storing it in the same transaction: the new
   * value, unless an earlier pending operation on the key decides first.
   */
  lemma {:induction false} LookupAfterStore(ops: seq<Operation>, key: StorageKey, v: StorageValue, orig: Option<StorageValue>)
    ensures PendingLookup(ops + [Store(key, v, orig)], key) ==
      if exists i :: 0 <= i < |ops| && ops[i].key == key then PendingLookup(ops, key) else Ok(v)
  {
    if ops == [] {
      assert [] + [Store(key, v, orig)] == [Store(key, v, orig)];
    } else {
      assert (ops + [Store(key, v, orig)])[1..] == ops[1..] + [Store(key, v, orig)];
      LookupAfterStore(ops[1..], key, v, orig);
      if ops[0].key != key {
        assert (exists i :: 0 <= i < |ops| && ops[i].key == key) <==>
          (exists i :: 0 <= i < |ops[1..]| && ops[1..][i].key == key) by {
          if exists i :: 0 <= i < |ops| && ops[i].key == key {
            var i :| 0 <= i < |ops| && ops[i].key == key;
            assert ops[1..][i - 1] == ops[i];
          }
          if exists i :: 0 <= i < |ops[1..]| && ops[1..][i].key == key {
            var i :| 0 <= i < |ops[1..]| && ops[1..][i].key == key;
            assert ops[i + 1] == ops[1..][i];
          }
        }
      }
    }
  }

  /** A Delete recorded before any other operation on the key hides the key from later reads in the transaction. */
  lemma LookupAfterDelete(ops: seq<Operation>, key: StorageKey, orig: StorageValue)
    requires forall i :: 0 <= i < |ops| ==> ops[i].key != key
    ensures PendingLookup(ops + [Delete(key, orig)], key) == Err(KeyNotFound)
  {
    if ops != [] {
      assert (ops + [Delete(key, orig)])[1..] == ops[1..] + [Delete(key, orig)];
      LookupAfterDelete(ops[1..], key, orig);
    } else {
      assert [] + [Delete(key, orig)] == [Delete(key, orig)];
    }
  }

  /** The value `atomic_delete` records as the deleted original: the two bytes of "{}". */
  function PlaceholderOriginal(): StorageValue {
    StorageValue([0x7B, 0x7D])
  }

  class AtomicStorageManager {
    var transactions: map<u32, Transaction>
    var nextTransactionId: u32

    /**
     * The table fits its 8 slots, every entry is stored under its own id
     * with at most 32 operations, and no two Active transactions hold
     * pending operations on the same key.
     */
    ghost predicate Valid()
      reads this
    {
      |transactions| <= MAX_TRANSACTIONS &&
      (forall id :: id in transactions ==>
        transactions[id].id == id && |transactions[id].operations| <= MAX_OPERATIONS &&
        transactions[id].createdAt == 0 && transactions[id].timeoutMs == DEFAULT_TIMEOUT_MS) &&
      (forall a, b, k :: a in transactions && b in transactions && Holds(transactions[a], k) && Holds(transactions[b], k) ==> a == b)
    }

    /** Every transaction in the table is Active: commit and rollback remove the ones they finish. */
    ghost predicate AllActive()
      reads this
    {
      forall id :: id in transactions ==> transactions[id].state == Active
    }

    constructor()
      ensures Valid() && AllActive()
      ensures transactions == map[] && nextTransactionId == 1
    {
      transactions := map[];
      nextTransactionId := 1;
    }

    /** `next_id`: hands out the counter and advances it, wrapping at 2^32. */
    method NextId() returns (id: u32)
      modifies this
      ensures id == old(nextTransactionId)
      ensures nextTransactionId == Wrap32(old(nextTransactionId) + 1)
      ensures transactions == old(transactions)
    {
      id := nextTransactionId;
      nextTransactionId := Wrap32(nextTransactionId + 1);
    }

    /**
     * `cleanup_expired_transactions` with the clock fixed at 0: no
     * transaction has timed out, so nothing is rolled back.
     */
    method CleanupExpiredTransactions() returns (cleaned: nat)
      requires Valid()
      ensures cleaned == |set id | id in transactions && transactions[id].IsTimedOut(0)|
      ensures cleaned == 0
    {
      var expired := set id | id in transactions && transactions[id].IsTimedOut(0);
      assert expired == {} by {
        forall id | id in transactions ensures !transactions[id].IsTimedOut(0) { }
      }
      cleaned := |expired|;
    }

    /** Whether transaction `t` has a pending operation on `key` (the inner loop of `check_conflict`). */
    static method HasOperationOn(t: Transaction, key: StorageKey) returns (found: bool)
      ensures found <==> exists i :: 0 <= i < |t.operations| && t.operations[i].key == key
    {
      found := false;
      var i := 0;
      while i < |t.operations|
        invariant 0 <= i <= |t.operations|
        invariant forall j :: 0 <= j < i ==> t.operations[j].key != key
      {
        if t.operations[i].key == key {
          return true;
        }
        i := i + 1;
      }
    }

    /**
     * `check_conflict`: an Active transaction with a pending operation on
     * `key`, if there is one.  The table is searched in an unspecified
     * order; with at most one holder per key the answer does not depend on it.
     */
    method CheckConflict(key: StorageKey) returns (r: Option<u32>)
      requires Valid()
      ensures r.Some? ==> r.value in transactions && Holds(transactions[r.value], key)
      ensures r.None? <==> forall id :: id in transactions ==> !Holds(transactions[id], key)
    {
      var ids := transactions.Keys;
      while ids != {}
        invariant ids <= transactions.Keys
        invariant forall id :: id in transactions && id !in ids ==> !Holds(transactions[id], key)
        decreases ids
      {
        var id :| id in ids;
        var t := transactions[id];
        if t.state == Active {
          var found := HasOperationOn(t, key);
          if found {
            return Some(id);
          }
        }
        ids := ids - {id};
      }
      return None;
    }

    /** The ids of the Active transactions (`list_active_transactions`, as a set). */
    function ActiveTransactions(): (r: set<u32>)
      reads this
      ensures forall id :: id in r <==> id in transactions && transactions[id].state == Active
    {
      set id | id in transactions && transactions[id].state == Active
    }

    /** With every stored transaction Active, the Active list is the whole table. */
    lemma ActiveIsAll()
      requires AllActive()
      ensures ActiveTransactions() == transactions.Keys
    {
    }

    /**
     * `begin_transaction`: refused with `CapacityExceeded` when 8 are open;
     * otherwise a new Active transaction is stored under the next id (an
     * entry already under that id, possible once the counter wraps, is
     * replaced).
     */
    method Begin() returns (r: Result<u32, StorageError>)
      requires Valid()
      modifies this
      ensures Valid()
      ensures old(AllActive()) ==> AllActive()
      ensures |old(transactions)| >= MAX_TRANSACTIONS ==>
        r == Err(CapacityExceeded) && transactions == old(transactions) && nextTransactionId == old(nextTransactionId)
      ensures |old(transactions)| < MAX_TRANSACTIONS ==>
        r == Ok(old(nextTransactionId)) &&
        transactions == old(transactions)[old(nextTransactionId) := NewTransaction(old(nextTransactionId), DEFAULT_TIMEOUT_MS)] &&
        nextTransactionId == Wrap32(old(nextTransactionId) + 1)
    {
      if |transactions| >= MAX_TRANSACTIONS {
        return Err(CapacityExceeded);
      }
      var _ := CleanupExpiredTransactions();
      var id := NextId();
      var t := NewTransaction(id, DEFAULT_TIMEOUT_MS);
      transactions := transactions[id := t];
      return Ok(id);
    }

    /**
     * `commit_transaction`: an unknown or non-Active id is a
     * `TransactionConflict`; otherwise the transaction passes through
     * Committing and Committed and is removed.
     */
    method Commit(id: u32) returns (r: Result<(), StorageError>)
      requires Valid()
      modifies this
      ensures Valid()
      ensures old(AllActive()) ==> AllActive()
      ensures nextTransactionId == old(nextTransactionId)
      ensures r.Ok? <==> id in old(transactions) && old(transactions)[id].state == Active
      ensures r.Ok? ==> transactions == old(transactions) - {id}
      ensures r.Err? ==> r.error == TransactionConflict && transactions == old(transactions)
    {
      if id !in transactions || transactions[id].state != Active {
        return Err(TransactionConflict);
      }
      ghost var before := transactions;
      transactions := transactions[id := transactions[id].(state := Committing)];
      transactions := transactions[id := transactions[id].(state := Committed)];
      transactions := transactions - {id};
      assert transactions == before - {id};
      return Ok(());
    }

    /**
     * `rollback_transaction`: an unknown id or a terminal transaction is a
     * `TransactionConflict`; otherwise it passes through RollingBack and
     * RolledBack and is removed.
     */
    method Rollback(id: u32) returns (r: Result<(), StorageError>)
      requires Valid()
      modifies this
      ensures Valid()
      ensures old(AllActive()) ==> AllActive()
      ensures nextTransactionId == old(nextTransactionId)
      ensures r.Ok? <==> id in old(transactions) && !old(transactions)[id].IsTerminal()
      ensures r.Ok? ==> transactions == old(transactions) - {id}
      ensures r.Err? ==> r.error == TransactionConflict && transactions == old(transactions)
    {
      if id !in transactions || transactions[id].IsTerminal() {
        return Err(TransactionConflict);
      }
      ghost var before := transactions;
      transactions := transactions[id := transactions[id].(state := RollingBack)];
      transactions := transactions[id := transactions[id].(state := RolledBack)];
      transactions := transactions - {id};
      assert transactions == before - {id};
      return Ok(());
    }

    /** Another Active transaction than `id` holds a pending operation on `key`. */
    ghost predicate HeldByOther(id: u32, key: StorageKey)
      reads this
    {
      exists other :: other in transactions && other != id && Holds(transactions[other], key)
    }

    /** Records `op` in transaction `id` after the checks `atomic_store` and `atomic_delete` share. */
    method Record(id: u32, op: Operation) returns (r: Result<(), StorageError>)
      requires Valid()
      modifies this`transactions
      ensures Valid()
      ensures old(AllActive()) ==> AllActive()
      ensures nextTransactionId == old(nextTransactionId)
      ensures r.Ok? <==> (id in old(transactions) && old(transactions)[id].state == Active &&
        !old(HeldByOther(id, op.key)) && |old(transactions)[id].operations| < MAX_OPERATIONS)
      ensures r.Ok? ==> transactions == old(transactions)[id := old(transactions)[id].(operations := old(transactions)[id].operations + [op])]
      ensures r.Err? ==> transactions == old(transactions)
      ensures r.Err? && (id !in old(transactions) || old(transactions)[id].state != Active || old(HeldByOther(id, op.key))) ==>
        r.error == TransactionConflict
      ensures r.Err? && id in old(transactions) && old(transactions)[id].state == Active && !old(HeldByOther(id, op.key)) ==>
        r.error == CapacityExceeded
    {
      if id !in transactions || transactions[id].state != Active {
        return Err(TransactionConflict);
      }
      var conflicting := CheckConflict(op.key);
      if conflicting.Some? && conflicting.value != id {
        return Err(TransactionConflict);
      }
      assert !HeldByOther(id, op.key);
      var t := transactions[id];
      var added := t.AddOperation(op);
      if added.Err? {
        return Err(added.error);
      }
      RecordKeepsValid(id, op);
      transactions := transactions[id := added.value];
      assert Valid() && !old(HeldByOther(id, op.key));
      return Ok(());
    }

    /** Adding an operation on a key no other Active transaction holds keeps the table valid. */
    lemma RecordKeepsValid(id: u32, op: Operation)
      requires Valid() && id in transactions && transactions[id].state == Active
      requires |transactions[id].operations| < MAX_OPERATIONS && !HeldByOther(id, op.key)
      ensures var t := transactions[id];
        var ts := transactions[id := t.(operations := t.operations + [op])];
        |ts| == |transactions| &&
        (forall i :: i in ts ==> (ts[i].id == i && |ts[i].operations| <= MAX_OPERATIONS &&
          ts[i].createdAt == 0 && ts[i].timeoutMs == DEFAULT_TIMEOUT_MS)) &&
        (AllActive() ==> forall i :: i in ts ==> ts[i].state == Active) &&
        forall a, b, k :: a in ts && b in ts && Holds(ts[a], k) && Holds(ts[b], k) ==> a == b
    {
      var t := transactions[id];
      var ts := transactions[id := t.(operations := t.operations + [op])];
      assert ts.Keys == transactions.Keys;
      forall a, b, k | a in ts && b in ts && Holds(ts[a], k) && Holds(ts[b], k)
        ensures a == b
      {
        HoldsAfterAdd(t, op, k);
      }
    }

    /**
     * `atomic_store`: records a Store of `value` under `key` (with no
     * original value) in transaction `id`.
     */
    method AtomicStore(id: u32, key: StorageKey, value: StorageValue) returns (r: Result<(), StorageError>)
      requires Valid()
      modifies this
      ensures Valid()
      ensures old(AllActive()) ==> AllActive()
      ensures r.Ok? <==> (id in old(transactions) && old(transactions)[id].state == Active &&
        !old(HeldByOther(id, key)) && |old(transactions)[id].operations| < MAX_OPERATIONS)
      ensures r.Ok? ==> transactions == old(transactions)[id := old(transactions)[id].(operations := old(transactions)[id].operations + [Store(key, value, None)])]
      ensures r.Err? ==> transactions == old(transactions)
      ensures old(HeldByOther(id, key)) ==> r == Err(TransactionConflict)
    {
      r := Record(id, Store(key, value, None));
    }

    /**
     * `atomic_delete`: records a Delete of `key` in transaction `id`, with
     * the placeholder "{}" as the original value.
     */
    method AtomicDelete(id: u32, key: StorageKey) returns (r: Result<(), StorageError>)
      requires Valid()
      modifies this
      ensures Valid()
      ensures old(AllActive()) ==> AllActive()
      ensures r.Ok? <==> (id in old(transactions) && old(transactions)[id].state == Active &&
        !old(HeldByOther(id, key)) && |old(transactions)[id].operations| < MAX_OPERATIONS)
      ensures r.Ok? ==> transactions == old(transactions)[id := old(transactions)[id].(operations := old(transactions)[id].operations + [Delete(key, PlaceholderOriginal())])]
      ensures r.Err? ==> transactions == old(transactions)
      ensures old(HeldByOther(id, key)) ==> r == Err(TransactionConflict)
    {
      r := Record(id, Delete(key, PlaceholderOriginal()));
    }

    /**
     * `atomic_retrieve`: an unknown or non-Active id is a
     * `TransactionConflict`; otherwise the pending operations decide.
     */
    method AtomicRetrieve(id: u32, key: StorageKey) returns (r: Result<StorageValue, StorageError>)
      ensures id !in transactions || transactions[id].state != Active ==> r == Err(TransactionConflict)
      ensures id in transactions && transactions[id].state == Active ==> r == PendingLookup(transactions[id].operations, key)
    {
      if id !in transactions || transactions[id].state != Active {
        return Err(TransactionConflict);
      }
      var ops := transactions[id].operations;
      var i := 0;
      while i < |ops|
        invariant 0 <= i <= |ops|
        invariant PendingLookup(ops[i..], key) == PendingLookup(ops, key)
      {
        assert ops[i..][1..] == ops[i + 1..];
        if ops[i].key == key {
          if ops[i].Store? {
            return Ok(ops[i].value);
          }
          return Err(KeyNotFound);
        }
        i := i + 1;
      }
      return Err(KeyNotFound);
    }
  }
}
