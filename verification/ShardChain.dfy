/** The shard's chain as objects updated in place: account state, lock tables, pending
    tables and the block producer. Each method is proved to compute the function of the
    same name in ShardSpec. */
module ShardChain {
  import opened Protocol
  import opened EvmState
  import opened RwItems
  import opened ShardSpec
  import opened LockIndex
  import opened SlotLocks

  // ---------------------------------------------------------------------------
  // Account state
  // ---------------------------------------------------------------------------

  /** What has been stored before item j of variable i. */
  ghost function StoredBefore(storage: map<SlotKey, Word>, rwSet: seq<RwVariable>, i: nat, j: nat): map<SlotKey, Word>
    requires i < |rwSet| && j <= |rwSet[i].writeSet|
  {
    Store(Store(storage, WriteEntries(rwSet[..i])), WritesOf(rwSet[i].address, rwSet[i].writeSet[..j]))
  }

  lemma StoreItem(storage: map<SlotKey, Word>, rwSet: seq<RwVariable>, i: nat, j: nat)
    requires i < |rwSet| && j < |rwSet[i].writeSet|
    ensures StoredBefore(storage, rwSet, i, j + 1)
         == StoredBefore(storage, rwSet, i, j)[SlotKey(rwSet[i].address,
             rwSet[i].writeSet[j].slot) := rwSet[i].writeSet[j].newValue]
  {
    var a, items := rwSet[i].address, rwSet[i].writeSet;
    var e := Entry(SlotKey(a, items[j].slot), items[j].newValue);
    assert items[..j + 1] == items[..j] + [items[j]];
    WritesOfConcat(a, items[..j], [items[j]]);
    assert [items[j]][1..] == [] && WritesOf(a, [items[j]]) == [e];
    StoreConcat(Store(storage, WriteEntries(rwSet[..i])), WritesOf(a, items[..j]), [e]);
    assert [e][1..] == [];
  }

  lemma StoreVariable(storage: map<SlotKey, Word>, rwSet: seq<RwVariable>, i: nat)
    requires i < |rwSet|
    ensures Store(storage, WriteEntries(rwSet[..i + 1])) == StoredBefore(storage, rwSet, i, |rwSet[i].writeSet|)
    ensures StoredBefore(storage, rwSet, i, 0) == Store(storage, WriteEntries(rwSet[..i]))
  {
    var a, items := rwSet[i].address, rwSet[i].writeSet;
    assert rwSet[..i + 1] == rwSet[..i] + [rwSet[i]];
    WriteEntriesConcat(rwSet[..i], [rwSet[i]]);
    assert [rwSet[i]][1..] == [];
    assert WriteEntries([rwSet[i]]) == WritesOf(a, items) + [] == WritesOf(a, items);
    StoreConcat(storage, WriteEntries(rwSet[..i]), WritesOf(a, items));
    assert items[..|items|] == items && items[..0] == [];
  }

  class EVMState {
    var balances: map<Address, int>
    var storage: map<SlotKey, Word>
    const call: Call

    ghost function Current(): World
      reads this
    {
      World(balances, storage)
    }

    constructor (balances: map<Address, int>, storage: map<SlotKey, Word>, call: Call)
      ensures Current() == World(balances, storage) && this.call == call
    {
      this.balances, this.storage, this.call := balances, storage, call;
    }

    function GetBalance(a: Address): int
      reads this
    {
      if a in balances then balances[a] else 0
    }

    method ChangeBalance(a: Address, amount: int)
      modifies this`balances
      ensures Current() == AddBalance(old(Current()), a, amount)
    {
      balances := balances[a := GetBalance(a) + amount];
    }

    /** Whether a debit would leave at least the locked amount. */
    method CanDebit(a: Address, amount: int, lockedAmount: int) returns (ok: bool)
      ensures ok <==> Balance(AddBalance(Current(), a, -amount), a) >= lockedAmount
      ensures ok <==> EvmState.CanDebit(Current(), a, amount, lockedAmount)
    {
      ok := GetBalance(a) - lockedAmount >= amount;
    }

    /** Fails, changing nothing, when the balance is too small. */
    method Debit(a: Address, amount: int) returns (ok: bool)
      modifies this`balances
      ensures ok <==> Balance(old(Current()), a) >= amount
      ensures Current() == if ok then AddBalance(old(Current()), a, -amount) else old(Current())
    {
      if GetBalance(a) < amount {
        return false;
      }
      ChangeBalance(a, -amount);
      ok := true;
    }

    method ApplyWriteSet(rwSet: seq<RwVariable>)
      modifies this`storage
      ensures storage == Store(old(storage), WriteEntries(rwSet))
    {
      for i := 0 to |rwSet|
        invariant storage == Store(old(storage), WriteEntries(rwSet[..i]))
      {
        StoreVariable(old(storage), rwSet, i);
        for j := 0 to |rwSet[i].writeSet|
          invariant storage == StoredBefore(old(storage), rwSet, i, j)
        {
          StoreItem(old(storage), rwSet, i, j);
          storage := storage[SlotKey(rwSet[i].address, rwSet[i].writeSet[j].slot) := rwSet[i].writeSet[j].newValue];
        }
      }
      assert rwSet[..|rwSet|] == rwSet;
    }

    method ExecuteLocalTx(tx: Transaction) returns (ok: bool)
      requires tx.txType.Local?
      modifies this
      ensures ok <==> ExecuteTx(call, old(Current()), tx).Some?
      ensures Current() == if ok then ExecuteTx(call, old(Current()), tx).value else old(Current())
    {
      if tx.value < 0 {
        return false;
      }
      if tx.data != [] {
        var outcome := call(tx, World(balances, storage));
        if outcome.None? {
          return false;
        }
        balances, storage := outcome.value.balances, outcome.value.storage;
      } else {
        if GetBalance(tx.from) < tx.value {
          return false;
        }
        ChangeBalance(tx.from, -tx.value);
        ChangeBalance(tx.to, tx.value);
      }
      ok := true;
    }

    method Snapshot() returns (w: World)
      ensures w == Current()
    {
      w := World(balances, storage);
    }

    method RevertToSnapshot(w: World)
      modifies this
      ensures Current() == w
    {
      balances, storage := w.balances, w.storage;
    }

    /** The state after a failure is left open: callers go back to a snapshot. */
    method Execute(tx: Transaction) returns (ok: bool)
      modifies this
      ensures ok <==> ExecuteTx(call, old(Current()), tx).Some?
      ensures ok ==> Current() == ExecuteTx(call, old(Current()), tx).value
    {
      ok := true;
      match tx.txType {
        case Local => ok := ExecuteLocalTx(tx);
        case CrossDebit => ok := Debit(tx.from, tx.value);
        case CrossCredit => ChangeBalance(tx.to, tx.value);
        case CrossWriteSet => ApplyWriteSet(tx.rwSet);
        case Finalize => ApplyWriteSet(tx.rwSet);
        case CrossAbort =>
        case Lock =>
        case Unlock =>
        case SimError =>
        case _ => ok := false;
      }
    }
  }

  // ---------------------------------------------------------------------------
  // The chain
  // ---------------------------------------------------------------------------

  /** No Lock is executed for an id that already holds a fund lock. */
  ghost predicate FreshLocks(call: Call, x: Exec, txs: seq<Transaction>)
    decreases txs
  {
    txs == [] || ((txs[0].txType.Lock? ==> txs[0].txId !in x.tables.locked)
        && FreshLocks(call, Step(call, x, txs[0]), txs[1..]))
  }

  class Chain {
    const shardID: int
    const funds: FundLocks
    const slotTable: SlotTable
    var currentTxs: seq<Transaction>
    var prepares: map<TxId, bool>
    var pendingCredits: map<TxId, seq<Funds>>
    var pendingCalls: map<TxId, CrossShardTx>
    var pendingRwSets: map<TxId, seq<RwVariable>>
    var lastOrchestratorHeight: nat
    var processedCommits: set<TxId>
    var blocks: seq<ShardBlock>

    ghost predicate Valid()
      reads this, funds, slotTable
    {
      funds.Valid() && slotTable.Valid()
    }

    ghost function Content(): Tables
      reads this, funds, slotTable
    {
      Tables(funds.locked, pendingCredits, pendingCalls, slotTable.flat, pendingRwSets, prepares)
    }

    ghost function Model(evm: EVMState): Shard
      reads this, funds, slotTable, evm
    {
      Shard(shardID, evm.Current(), Content(), currentTxs, processedCommits, lastOrchestratorHeight, blocks)
    }

    constructor (shardID: int)
      ensures Valid() && fresh(funds) && fresh(slotTable)
      ensures Content() == NO_TABLES && currentTxs == [] && processedCommits == {} && lastOrchestratorHeight == 0
      ensures blocks == [ShardBlock(0, [], map[])] && this.shardID == shardID
    {
      this.shardID := shardID;
      funds := new FundLocks();
      slotTable := new SlotTable();
      currentTxs, prepares, pendingCredits, pendingCalls, pendingRwSets := [], map[], map[], map[], map[];
      lastOrchestratorHeight, processedCommits, blocks := 0, {}, [ShardBlock(0, [], map[])];
    }

    method AddTx(tx: Transaction)
      modifies this`currentTxs
      ensures currentTxs == old(currentTxs) + [tx]
    {
      currentTxs := currentTxs + [tx];
    }

    method StorePendingCredit(t: TxId, f: Funds)
      modifies this`pendingCredits
      ensures pendingCredits == AddCredit(old(pendingCredits), t, f)
    {
      var credits := if t in pendingCredits then pendingCredits[t] else [];
      pendingCredits := pendingCredits[t := credits + [f]];
    }

    method StorePendingCall(tx: CrossShardTx)
      modifies this`pendingCalls
      ensures pendingCalls == old(pendingCalls)[tx.id := tx]
    {
      pendingCalls := pendingCalls[tx.id := tx];
    }

    /** Drops t's credits to one address and keeps the others. */
    method ClearPendingCreditForAddress(t: TxId, a: Address)
      modifies this`pendingCredits
      ensures pendingCredits == ClearCredit(old(pendingCredits), t, a)
    {
      if t !in pendingCredits {
        return;
      }
      var credits := pendingCredits[t];
      var remaining: seq<Funds> := [];
      for i := 0 to |credits|
        invariant remaining + OtherCredits(credits[i..], a) == OtherCredits(credits, a)
      {
        assert credits[i..][1..] == credits[i + 1..];
        if credits[i].address != a {
          remaining := remaining + [credits[i]];
        }
      }
      assert credits[|credits|..] == [] && remaining == remaining + [];
      if |remaining| == 0 {
        pendingCredits := pendingCredits - {t};
      } else {
        pendingCredits := pendingCredits[t := remaining];
      }
    }

    method ClearAllMetadata(t: TxId)
      requires Valid()
      modifies this`pendingCredits, this`pendingCalls, this`pendingRwSets, funds, slotTable
      ensures Valid() && Content() == ClearAll(old(Content()), t)
    {
      funds.ClearLockLocked(t);
      pendingCredits := pendingCredits - {t};
      pendingCalls := pendingCalls - {t};
      slotTable.UnlockAllSlotsForTx(t);
      pendingRwSets := pendingRwSets - {t};
    }

    method CleanupAfterExecution(tx: Transaction)
      requires Valid()
      modifies this`prepares, this`pendingCredits, this`pendingCalls, this`pendingRwSets, funds, slotTable
      ensures Valid() && Content() == ShardSpec.CleanupAfterExecution(old(Content()), tx)
    {
      if tx.txId == EMPTY_ID {
        return;
      }
      match tx.txType {
        case CrossDebit => funds.ClearLockLocked(tx.txId);
        case CrossCredit => ClearPendingCreditForAddress(tx.txId, tx.to);
        case CrossWriteSet => pendingCalls := pendingCalls - {tx.txId};
        case CrossAbort => ClearAllMetadata(tx.txId);
        case Lock => prepares := prepares[tx.txId := true];
        case Finalize =>
          slotTable.UnlockAllSlotsForTx(tx.txId);
          pendingRwSets := pendingRwSets - {tx.txId};
        case Unlock =>
          ReleaseTwice(slotTable.flat, tx.txId);
          slotTable.UnlockAllSlotsForTx(tx.txId);
          pendingRwSets := pendingRwSets - {tx.txId};
          ClearAllMetadata(tx.txId);
        case _ =>
      }
    }

    /** A failed Lock leaves nothing behind but a NO vote. */
    method CleanupAfterFailure(tx: Transaction)
      requires Valid()
      modifies this`prepares, this`pendingCredits, this`pendingCalls, this`pendingRwSets, funds, slotTable
      ensures Valid() && Content() == if tx.txType.Lock? then FailLock(old(Content()), tx.txId) else old(Content())
    {
      if tx.txType.Lock? {
        ClearAllMetadata(tx.txId);
        prepares := prepares[tx.txId := false];
      }
    }

    method CheckLocalTxLockConflict(tx: Transaction) returns (conflict: bool)
      requires Valid()
      ensures conflict <==> LocalConflict(Content(), tx)
    {
      if !tx.txType.Local? {
        return false;
      }
      conflict := slotTable.IsAddressLocked(tx.from);
      if !conflict {
        conflict := slotTable.IsAddressLocked(tx.to);
      }
    }

    /** Validate balance and read set and take the locks, or vote NO. */
    method ExecuteLock(tx: Transaction, evm: EVMState) returns (ok: bool)
      requires Valid() && tx.txType.Lock? && tx.txId !in funds.locked
      modifies this`prepares, this`pendingCredits, this`pendingCalls, this`pendingRwSets, funds, slotTable
      ensures Valid()
      ensures ok <==> LockSucceeds(Exec(evm.Current(), old(Content()), []), tx)
      ensures Content() == StepLock(Exec(evm.Current(), old(Content()), []), tx).tables
    {
      ghost var x := Exec(evm.Current(), Content(), []);
      if tx.value > 0 {
        var lockedAmount := funds.GetLockedAmountForAddr(tx.from);
        var can := evm.CanDebit(tx.from, tx.value, lockedAmount);
        if !can {
          CleanupAfterFailure(tx);
          return false;
        }
        funds.LockFunds(tx.txId, tx.from, tx.value);
      }
      ghost var funded := Content();
      var err := slotTable.ValidateAndLockReadSet(tx.txId, tx.rwSet, evm.storage);
      if err.Some? {
        FailedLock(x.tables, funded, Content(), tx,
            Keys(ReadEntries(tx.rwSet)[..PassCount(x.world.storage, x.tables.slots, tx.txId, ReadEntries(tx.rwSet))]));
        funds.ClearLockLocked(tx.txId);
        CleanupAfterFailure(tx);
        ok := false;
      } else {
        pendingRwSets := pendingRwSets[tx.txId := tx.rwSet];
        CleanupAfterExecution(tx);
        ok := true;
      }
    }

    /** One transaction of a block; `log` stands for those included before it. */
    method ExecuteOne(tx: Transaction, evm: EVMState, ghost log: seq<Transaction>) returns (ok: bool)
      requires Valid() && (tx.txType.Lock? ==> tx.txId !in funds.locked)
      modifies this`prepares, this`pendingCredits, this`pendingCalls, this`pendingRwSets, funds, slotTable, evm
      ensures Valid()
      ensures Exec(evm.Current(), Content(), if ok then log + [tx] else log)
           == Step(evm.call, Exec(old(evm.Current()), old(Content()), log), tx)
    {
      var conflict := CheckLocalTxLockConflict(tx);
      if conflict {
        return false;
      }
      if tx.txType.Lock? {
        LockIgnoresLog(Exec(evm.Current(), Content(), []), Exec(evm.Current(), Content(), log), tx);
        ok := ExecuteLock(tx, evm);
        return;
      }
      var snapshot := evm.Snapshot();
      ok := evm.Execute(tx);
      if ok {
        CleanupAfterExecution(tx);
      } else {
        evm.RevertToSnapshot(snapshot);
        CleanupAfterFailure(tx);
      }
    }

    /** Transactions one after the other; those that succeed are returned. */
    method ExecuteAll(txs: seq<Transaction>, evm: EVMState) returns (included: seq<Transaction>)
      requires Valid() && FreshLocks(evm.call, Exec(evm.Current(), Content(), []), txs)
      modifies this`prepares, this`pendingCredits, this`pendingCalls, this`pendingRwSets, funds, slotTable, evm
      ensures Valid()
      ensures Exec(evm.Current(), Content(), included) ==
          Steps(evm.call, Exec(old(evm.Current()), old(Content()), []), txs)
    {
      ghost var x := Exec(evm.Current(), Content(), []);
      ghost var final := Steps(evm.call, x, txs);
      included := [];
      assert txs[0..] == txs;
      for i := 0 to |txs|
        invariant Valid() && x == Exec(evm.Current(), Content(), included)
        invariant Steps(evm.call, x, txs[i..]) == final && FreshLocks(evm.call, x, txs[i..])
      {
        NextTransaction(evm.call, x, txs, i);
        var ok := ExecuteOne(txs[i], evm, included);
        if ok {
          included := included + [txs[i]];
        }
        x := Step(evm.call, x, txs[i]);
      }
      assert txs[|txs|..] == [];
    }

    /** The next block: all queued transactions in priority order, the successful ones
        included, the votes of the Locks recorded, the queue emptied. */
    method ProduceBlock(evm: EVMState) returns (block: ShardBlock)
      requires Valid() && FreshLocks(evm.call, Exec(evm.Current(), Content(), []), ByPriority(currentTxs))
      modifies this, funds, slotTable, evm
      ensures Valid()
      ensures Model(evm) == ShardSpec.ProduceBlock(evm.call, old(Model(evm)))
      ensures blocks == old(blocks) + [block]
    {
      var successfulTxs := ExecuteAll(ByPriority(currentTxs), evm);
      block := ShardBlock(|blocks|, successfulTxs, prepares);
      blocks := blocks + [block];
      currentTxs := [];
      prepares := map[];
    }

    /** True, and remembered, the first time; false afterwards. */
    method CheckAndMarkCommitProcessed(t: TxId) returns (isNew: bool)
      modifies this`processedCommits
      ensures isNew <==> t !in old(processedCommits)
      ensures processedCommits == old(processedCommits) + {t}
    {
      if t in processedCommits {
        return false;
      }
      processedCommits := processedCommits + {t};
      isNew := true;
    }
  }

  lemma NextTransaction(call: Call, x: Exec, txs: seq<Transaction>, i: nat)
    requires i < |txs| && FreshLocks(call, x, txs[i..])
    ensures txs[i].txType.Lock? ==> txs[i].txId !in x.tables.locked
    ensures FreshLocks(call, Step(call, x, txs[i]), txs[i + 1..])
    ensures Steps(call, x, txs[i..]) == Steps(call, Step(call, x, txs[i]), txs[i + 1..])
  {
    assert txs[i..][0] == txs[i] && txs[i..][1..] == txs[i + 1..];
  }

  lemma ReleaseTwice(slots: map<SlotKey, TxId>, t: TxId)
    ensures Release(Release(slots, t), t) == Release(slots, t)
  {
  }

  /** Whatever the failed validation left behind is cleared with the rest. */
  lemma FailedLock(before: Tables, funded: Tables, after: Tables, tx: Transaction, keys: set<SlotKey>)
    requires funded == LockFunds(before, tx) && after == funded.(slots := ReleaseSome(before.slots, tx.txId, keys))
    ensures FailLock(after.(locked := after.locked - {tx.txId}), tx.txId) == FailLock(before, tx.txId)
  {
    var t := tx.txId;
    assert after.locked - {t} - {t} == before.locked - {t};
    assert Release(after.slots, t) == Release(before.slots, t);
  }

  lemma LockIgnoresLog(x: Exec, y: Exec, tx: Transaction)
    requires x.world == y.world && x.tables == y.tables
    ensures LockSucceeds(x, tx) == LockSucceeds(y, tx)
    ensures StepLock(x, tx).tables == StepLock(y, tx).tables
  {
  }
}
