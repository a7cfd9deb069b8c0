/** Every step of block production keeps the shard invariant. */
module ShardSteps {
  import opened Protocol
  import opened EvmState
  import opened ShardSpec
  import opened History
  import opened ShardInvariant

  // ---------------------------------------------------------------------------
  // Reservations
  // ---------------------------------------------------------------------------

  lemma ReservedWithout(locked: map<TxId, Funds>, t: TxId, a: Address)
    requires Positive(locked)
    ensures Reserved(locked - {t}, a)
         == Reserved(locked, a) - (if t in locked && locked[t].address == a then locked[t].amount else 0)
    ensures Reserved(locked - {t}, a) <= Reserved(locked, a)
  {
    assert LocksOn(locked - {t}, a) == LocksOn(locked, a) - {t};
    if t in locked && locked[t].address == a {
      SumWithout(LocksOn(locked, a), t);
    } else {
      assert LocksOn(locked, a) - {t} == LocksOn(locked, a);
    }
  }

  lemma ReservedWith(locked: map<TxId, Funds>, t: TxId, f: Funds, a: Address)
    requires t !in locked
    ensures Reserved(locked[t := f], a) == Reserved(locked, a) + (if f.address == a then f.amount else 0)
  {
    if f.address == a {
      assert LocksOn(locked[t := f], a) == LocksOn(locked, a)[t := f.amount];
      SumUpdate(LocksOn(locked, a), t, f.amount);
    } else {
      assert LocksOn(locked[t := f], a) == LocksOn(locked, a);
    }
  }

  /** One reservation is part of its address's total. */
  lemma ReservedCovers(locked: map<TxId, Funds>, t: TxId)
    requires Positive(locked) && t in locked
    ensures locked[t].amount <= Reserved(locked, locked[t].address)
  {
    var m := LocksOn(locked, locked[t].address);
    SumNonNegative(m);
    assert m[t] == locked[t].amount;
  }

  lemma DebitCovered(locked: map<TxId, Funds>, w: World, t: TxId)
    requires Positive(locked) && t in locked && Covered(locked, w)
    ensures Balance(w, locked[t].address) >= locked[t].amount
    ensures Covered(locked - {t}, AddBalance(w, locked[t].address, -locked[t].amount))
  {
    ReservedCovers(locked, t);
    forall a: Address { ReservedWithout(locked, t, a); }
  }

  lemma ClearCovered(locked: map<TxId, Funds>, w: World, t: TxId)
    requires Positive(locked) && Covered(locked, w)
    ensures Covered(locked - {t}, w)
  {
    forall a: Address { ReservedWithout(locked, t, a); }
  }

  /** The balance check grants a new reservation exactly when every address can still pay
      all of its reservations afterwards. */
  lemma LockCoveredIff(locked: map<TxId, Funds>, w: World, t: TxId, f: Funds)
    requires t !in locked && Covered(locked, w)
    ensures CanDebit(w, f.address, f.amount, Reserved(locked, f.address)) <==> Covered(locked[t := f], w)
  {
    forall a: Address
      ensures Reserved(locked[t := f], a) == Reserved(locked, a) + (if f.address == a then f.amount else 0)
    {
      ReservedWith(locked, t, f, a);
    }
    if Covered(locked[t := f], w) {
      assert Reserved(locked[t := f], f.address) <= Balance(w, f.address);
    }
  }

  /** A plain local transfer keeps all reservations covered exactly when it spends
      only unreserved money (or pays itself). */
  lemma TransferCoveredIff(locked: map<TxId, Funds>, w: World, from: Address, to: Address, amount: int)
    requires Covered(locked, w) && amount >= 0
    ensures Covered(locked, Transfer(w, from, to, amount))
       <==> from == to || CanDebit(w, from, amount, Reserved(locked, from))
  {
    var w' := Transfer(w, from, to, amount);
    if Covered(locked, w') && from != to {
      assert Reserved(locked, from) <= Balance(w', from);
    }
    if from == to || CanDebit(w, from, amount, Reserved(locked, from)) {
      forall a: Address ensures Reserved(locked, a) <= Balance(w', a) {
        assert Reserved(locked, a) <= Balance(w, a);
      }
    }
  }

  lemma CleanupLocked(tb: Tables, e: Transaction)
    ensures CleanupAfterExecution(tb, e).locked == tb.locked
        || CleanupAfterExecution(tb, e).locked == tb.locked - {e.txId}
  {
    match e.txType {
      case CrossDebit =>
      case CrossAbort =>
      case Unlock =>
      case _ =>
    }
  }

  lemma LockLocked(x: Exec, e: Transaction)
    requires e.txType.Lock?
    ensures StepLock(x, e).tables.locked == if LockSucceeds(x, e) then LockFunds(x.tables,
        e).locked else x.tables.locked - {e.txId}
  {
  }

  lemma StepLocked(call: Call, x: Exec, e: Transaction)
    ensures var locked' := Step(call, x, e).tables.locked;
            || locked' == x.tables.locked
            || locked' == x.tables.locked - {e.txId}
            || (e.value > 0 && locked' == x.tables.locked[e.txId := Funds(e.from, e.value)])
  {
    if e.txType.Lock? {
      assert Step(call, x, e) == StepLock(x, e);
      LockLocked(x, e);
    } else {
      CleanupLocked(x.tables, e);
    }
  }

  lemma StepPositive(call: Call, x: Exec, e: Transaction)
    requires Positive(x.tables.locked)
    ensures Positive(Step(call, x, e).tables.locked)
  {
    StepLocked(call, x, e);
  }

  // ---------------------------------------------------------------------------
  // Frames: a step touches only its own transaction's entries
  // ---------------------------------------------------------------------------

  lemma ReleaseFrame(slots: map<SlotKey, TxId>, t0: TxId, t: TxId)
    ensures SlotsHeld(Release(slots, t0), t) == if t == t0 then {} else SlotsHeld(slots, t)
  {
  }

  lemma AcquireFrame(storage: map<SlotKey, Word>, slots: map<SlotKey, TxId>, t0: TxId, entries: seq<Entry>, t: TxId)
    requires PassCount(storage, slots, t0, entries) == |entries|
    ensures t != t0 ==> SlotsHeld(Acquire(slots, t0, Keys(entries)), t) == SlotsHeld(slots, t)
    ensures SlotsHeld(Acquire(slots, t0, Keys(entries)), t0) == SlotsHeld(slots, t0) + Keys(entries)
  {
    var slots' := Acquire(slots, t0, Keys(entries));
    forall k | k in Keys(entries) ensures k in slots ==> slots[k] == t0 {
      var i :| 0 <= i < |entries| && entries[i].key == k;
      assert Passes(storage, slots, t0, entries[i]);
    }
  }

  lemma ClearAllView(tb: Tables, t0: TxId, t: TxId)
    ensures ViewOf(ClearAll(tb, t0), t) == if t == t0 then NOTHING.(vote := Get(tb.prepares, t)) else ViewOf(tb, t)
  {
    ReleaseFrame(tb.slots, t0, t);
  }

  lemma CreditFrame(credits: map<TxId, seq<Funds>>, t0: TxId, a: Address, t: TxId)
    requires t != t0
    ensures Get(ClearCredit(credits, t0, a), t) == Get(credits, t)
  {
  }

  lemma CleanupFrame(tb: Tables, e: Transaction, t: TxId)
    requires t != e.txId
    ensures ViewOf(CleanupAfterExecution(tb, e), t) == ViewOf(tb, t)
  {
    if e.txType.CrossAbort? || e.txType.Unlock? {
      ClearAllView(tb, e.txId, t);
    } else {
      PartialFrame(tb, e, t);
    }
  }

  lemma PartialFrame(tb: Tables, e: Transaction, t: TxId)
    requires t != e.txId && !e.txType.CrossAbort? && !e.txType.Unlock?
    ensures ViewOf(CleanupAfterExecution(tb, e), t) == ViewOf(tb, t)
  {
    match e.txType {
      case CrossDebit =>
      case CrossCredit => CreditFrame(tb.credits, e.txId, e.to, t);
      case CrossWriteSet =>
      case Lock =>
      case Finalize => ReleaseFrame(tb.slots, e.txId, t);
      case _ =>
    }
  }

  lemma StepFrame(call: Call, x: Exec, e: Transaction, t: TxId)
    requires t != e.txId
    ensures ViewOf(Step(call, x, e).tables, t) == ViewOf(x.tables, t)
  {
    if e.txType.Lock? && LockSucceeds(x, e) {
      AcquireFrame(x.world.storage, x.tables.slots, e.txId, ReadEntries(e.rwSet), t);
      var funded := LockFunds(x.tables, e);
      var held := funded.(slots := Acquire(funded.slots, e.txId, ReadKeys(e.rwSet)),
          rwSets := funded.rwSets[e.txId := e.rwSet]);
      CleanupFrame(held, e, t);
    } else {
      ClearAllView(x.tables, e.txId, t);
      CleanupFrame(x.tables, e, t);
    }
  }

  /** A step either leaves log and state alone or appends itself to the log. */
  lemma StepLog(call: Call, x: Exec, e: Transaction)
    ensures var x' := Step(call, x, e);
            (x'.included == x.included && x'.world == x.world)
            || (x'.included == x.included + [e] && ExecuteTx(call, x.world, e) == Some(x'.world))
  {
  }

  lemma ReplayStep(c: Ctx, x: Exec, e: Transaction)
    requires Replay(c.call, c.init, FullLog(c, x)) == Some(x.world)
    ensures var x' := Step(c.call, x, e);
            Replay(c.call, c.init, FullLog(c, x')) == Some(x'.world)
  {
    var x' := Step(c.call, x, e);
    StepLog(c.call, x, e);
    if x'.included == x.included + [e] {
      var log' := FullLog(c, x');
      assert log'[..|log'| - 1] == FullLog(c, x);
    }
  }

  // ---------------------------------------------------------------------------
  // The shape of a commit
  // ---------------------------------------------------------------------------

  /** In the list of commit operations the debit comes first, the Finalize last,
      and both kinds of write carry the local read/write set. */
  lemma OpsShape(tx: CrossShardTx, s: int, ops: seq<Transaction>, i: nat)
    requires (ops == Ops(tx, s) || ops == OtherOps(tx, s)) && i < |ops|
    ensures ops[i].txId == tx.id && IsCommitOp(ops[i])
    ensures ops[i].txType.CrossDebit? ==> i == 0 && ops == Ops(tx, s) && FundsFor(tx, s).Some?
                                          && ops[i] == Debit(tx.id, FundsFor(tx, s).value)
    ensures ops[i].txType.CrossCredit? ==> tx.value > 0 && ops[i] == Credit(tx.id, Funds(tx.to, tx.value))
    ensures ops[i].txType.Finalize? ==> i == |ops| - 1
    ensures IsWriteOp(ops[i]) ==> ops[i].rwSet == LocalRwSet(tx.rwSet, s)
    ensures ops[i].txType.CrossWriteSet? ==> i < |ops| - 1
  {
    assert CreditAll(tx.id, [Funds(tx.to, tx.value)]) == [Credit(tx.id, Funds(tx.to, tx.value))] by {
      assert [Funds(tx.to, tx.value)][1..] == [];
    }
  }

  lemma {:induction false} CommitOpsMember(txs: seq<Transaction>, t: TxId, e: Transaction)
    ensures e in CommitOps(txs, t) <==> e in txs && e.txId == t && IsCommitOp(e)
  {
    if txs != [] {
      CommitOpsMember(txs[1..], t, e);
    }
  }

  lemma AppendCommitOps(log: seq<Transaction>, e: Transaction, t: TxId)
    ensures CommitOps(log + [e], t) == CommitOps(log, t) + (if e.txId == t && IsCommitOp(e) then [e] else [])
  {
    CommitOpsConcat(log, [e], t);
    assert [e][1..] == [];
  }

  lemma AppendWriteOps(ops: seq<Transaction>, e: Transaction)
    ensures WriteOps(ops + [e]) == WriteOps(ops) + (if IsWriteOp(e) then [e] else [])
  {
    WriteOpsConcat(ops, [e]);
    assert [e][1..] == [];
  }

  /** Moving the next operation from the queue to the log leaves the whole unchanged. */
  lemma NextOp(done: seq<Transaction>, rest: seq<Transaction>)
    requires |rest| > 1
    ensures var n := |rest| - 1;
            && done + [rest[0]] + rest[1..][..n - 1] == done + rest[..n]
            && done + rest[1..][..n - 1] == done + rest[..n][1..]
            && (done == [] ==> rest[1..][..n - 1] == (done + rest[..n])[1..])
            && rest[1..][n - 1] == rest[n]
  {
    var n := |rest| - 1;
    assert rest[..n] == [rest[0]] + rest[1..][..n - 1];
    assert rest[..n][1..] == rest[1..][..n - 1];
  }

  // ---------------------------------------------------------------------------
  // A step seen from its own transaction
  // ---------------------------------------------------------------------------

  ghost predicate AtHead(c: Ctx, v: View, st: map<SlotKey, Word>, rest: seq<Transaction>, log: seq<Transaction>,
                         t: TxId) {
    rest != [] && rest[0].txId == t && t != EMPTY_ID && Phase(c, v, st, rest, log, t)
  }

  /** A commit operation is only ever executed for a committed transaction, and is
      the next one of its list. */
  lemma CommitHead(c: Ctx, v: View, st: map<SlotKey, Word>, rest: seq<Transaction>, log: seq<Transaction>, t: TxId)
    requires AtHead(c, v, st, rest, log, t) && IsCommitOp(rest[0])
    ensures OrderOf(c.hist, t).Some? && Involved(OrderOf(c.hist, t).value, c.s) && DecisionOf(c.hist, t) == Some(true)
    ensures var tx := OrderOf(c.hist, t).value;
            var e := rest[0];
            && tx.id == t
            && Committing(c, v, st, rest, log, tx)
            && |rest| > 1
            && !rest[1].txType.CrossDebit?
            && (e.txType.CrossDebit? ==> v.funds == FundsFor(tx, c.s) && v.funds.Some? && e == Debit(t, v.funds.value)
                                          && CommitOps(log, t) == []
                                              && CommitOps(log, t) + rest[..|rest| - 1] == Ops(tx, c.s))
            && (e.txType.CrossCredit? ==> e.value > 0)
            && (e.txType.Finalize? ==> |rest| == 2)
            && (IsWriteOp(e) ==> e.rwSet == LocalRwSet(tx.rwSet, c.s) && v.slots == ReadKeys(e.rwSet))
  {
    OrderHasId(c.hist, t);
    var tx := OrderOf(c.hist, t).value;
    assert Committing(c, v, st, rest, log, tx);
    HeadShape(tx, c.s, CommitOps(log, t), rest);
  }

  /** The next operation of a commit, given those done and those still queued before the Unlock. */
  lemma HeadShape(tx: CrossShardTx, s: int, done: seq<Transaction>, rest: seq<Transaction>)
    requires rest != [] && IsCommitOp(rest[0]) && rest[|rest| - 1].txType.Unlock?
    requires var ops := done + rest[..|rest| - 1]; ops == Ops(tx, s) || ops == OtherOps(tx, s)
    ensures |rest| > 1 && !rest[1].txType.CrossDebit?
    ensures rest[0].txType.CrossDebit? ==>
              FundsFor(tx, s).Some? && rest[0] == Debit(tx.id, FundsFor(tx, s).value) && done == []
                  && done + rest[..|rest| - 1] == Ops(tx, s)
    ensures rest[0].txType.CrossCredit? ==> rest[0].value > 0
    ensures rest[0].txType.Finalize? ==> |rest| == 2
    ensures IsWriteOp(rest[0]) ==> rest[0].rwSet == LocalRwSet(tx.rwSet, s)
  {
    var n, ops := |rest| - 1, done + rest[..|rest| - 1];
    assert n > 0;
    assert ops[|done|] == rest[0];
    OpsShape(tx, s, ops, |done|);
    if n > 1 {
      assert ops[|done| + 1] == rest[1];
      OpsShape(tx, s, ops, |done| + 1);
    }
  }

  /** Executing a commit operation moves it from the queue to the log; a debit that
      finds the money gone is dropped instead. */
  lemma CommitAdvance(c: Ctx, v: View, st: map<SlotKey, Word>, rest: seq<Transaction>, log: seq<Transaction>, t: TxId,
                      v': View, st': map<SlotKey, Word>, log': seq<Transaction>)
    requires AtHead(c, v, st, rest, log, t) && IsCommitOp(rest[0])
    requires log' == log + [rest[0]] || (log' == log && rest[0].txType.CrossDebit? && !c.safe)
    requires v'.vote == v.vote && (log' == log ==> v' == v)
    requires |rest| > 2 ==> v'.slots == v.slots
    requires !IsWriteOp(rest[0]) ==> st' == st
    ensures Phase(c, v', st', rest[1..], log', t)
  {
    CommitHead(c, v, st, rest, log, t);
    var tx := OrderOf(c.hist, t).value;
    var done := CommitOps(log, t);
    AppendCommitOps(log, rest[0], t);
    AppendWriteOps(done, rest[0]);
    NextOp(done, rest);
    assert Committing(c, v', st', rest[1..], log', tx);
  }

  lemma UnlockAdvance(c: Ctx, v: View, st: map<SlotKey, Word>, rest: seq<Transaction>, log: seq<Transaction>, t: TxId)
    requires AtHead(c, v, st, rest, log, t) && rest[0].txType.Unlock?
    ensures Phase(c, NOTHING.(vote := v.vote), st, rest[1..], log + [rest[0]], t)
  {
    OrderHasId(c.hist, t);
    AppendCommitOps(log, rest[0], t);
    var order := OrderOf(c.hist, t);
    if order.Some? && Involved(order.value, c.s) && DecisionOf(c.hist, t) == Some(true) {
      var tx, n := order.value, |rest| - 1;
      var done := CommitOps(log, tx.id);
      if n > 0 {
        assert (done + rest[..n])[|done|] == rest[0];
        OpsShape(tx, c.s, done + rest[..n], |done|);
      }
      assert done + rest[..n] == done;
    }
  }

  lemma AbortAdvance(c: Ctx, v: View, st: map<SlotKey, Word>, rest: seq<Transaction>, log: seq<Transaction>, t: TxId)
    requires AtHead(c, v, st, rest, log, t) && rest[0].txType.CrossAbort?
    ensures Phase(c, NOTHING.(vote := v.vote), st, rest[1..], log + [rest[0]], t)
  {
    OrderHasId(c.hist, t);
    AppendCommitOps(log, rest[0], t);
    var order := OrderOf(c.hist, t);
    if order.Some? && Involved(order.value, c.s) && DecisionOf(c.hist, t) == Some(true) {
      var tx, n := order.value, |rest| - 1;
      var done := CommitOps(log, tx.id);
      assert (done + rest[..n])[|done|] == rest[0];
      OpsShape(tx, c.s, done + rest[..n], |done|);
    }
  }

  lemma LockHead(c: Ctx, v: View, st: map<SlotKey, Word>, rest: seq<Transaction>, log: seq<Transaction>, t: TxId)
    requires AtHead(c, v, st, rest, log, t) && rest[0].txType.Lock?
    ensures OrderOf(c.hist, t).Some? && Involved(OrderOf(c.hist, t).value, c.s) && OrderOf(c.hist, t).value.id == t
    ensures rest[0] == LockTx(OrderOf(c.hist, t).value, c.s)
    ensures DecisionOf(c.hist, t) != Some(true)
    ensures Unheld(v) && v.vote.None? && VoteOf(c.blocks, t).None?
    ensures DecisionOf(c.hist, t).None? ==> Waiting(v, OrderOf(c.hist, t).value, c.s)
  {
    OrderHasId(c.hist, t);
    var order := OrderOf(c.hist, t);
    if order.Some? && Involved(order.value, c.s) && DecisionOf(c.hist, t) == Some(true) {
      var tx, n := order.value, |rest| - 1;
      var done := CommitOps(log, tx.id);
      assert (done + rest[..n])[|done|] == rest[0];
      OpsShape(tx, c.s, done + rest[..n], |done|);
    }
  }

  lemma LockAdvance(c: Ctx, v: View, st: map<SlotKey, Word>, rest: seq<Transaction>, log: seq<Transaction>, t: TxId)
    requires AtHead(c, v, st, rest, log, t) && rest[0].txType.Lock?
    requires ReadsMatch(st, rest[0].rwSet)
    ensures var tx := OrderOf(c.hist, t);
            tx.Some? && Phase(c, v.(funds := FundsFor(tx.value, c.s), rw := Some(rest[0].rwSet),
                slots := ReadKeys(rest[0].rwSet), vote := Some(true)),
                              st, rest[1..], log + [rest[0]], t)
  {
    LockHead(c, v, st, rest, log, t);
    AppendCommitOps(log, rest[0], t);
  }

  lemma LockFailAdvance(c: Ctx, v: View, st: map<SlotKey, Word>, rest: seq<Transaction>, log: seq<Transaction>, t: TxId)
    requires AtHead(c, v, st, rest, log, t) && rest[0].txType.Lock?
    ensures Phase(c, NOTHING.(vote := Some(false)), st, rest[1..], log, t)
  {
    LockHead(c, v, st, rest, log, t);
  }

  // ---------------------------------------------------------------------------
  // A step seen from the other transactions
  // ---------------------------------------------------------------------------

  lemma HeadOfTx(rest: seq<Transaction>, t: TxId)
    requires rest != []
    ensures OfTx(rest, t) == if rest[0].txId == t then [rest[0]] + OfTx(rest[1..], t) else OfTx(rest[1..], t)
    ensures rest[0].txId == t ==> OfTx(rest, t)[1..] == OfTx(rest[1..], t)
  {
  }

  lemma ReadsMatchFrame(st: map<SlotKey, Word>, st': map<SlotKey, Word>, rwSet: seq<RwVariable>)
    requires ReadsMatch(st, rwSet)
    requires forall k :: k in ReadKeys(rwSet) ==> Load(st', k) == Load(st, k)
    ensures ReadsMatch(st', rwSet)
  {
    forall i | 0 <= i < |ReadEntries(rwSet)| ensures Load(st', ReadEntries(rwSet)[i].key) ==
        ReadEntries(rwSet)[i].value {
      assert ReadEntries(rwSet)[i].key in ReadKeys(rwSet);
    }
  }

  lemma PhaseFrame(c: Ctx, v: View, st: map<SlotKey, Word>, rest: seq<Transaction>, log: seq<Transaction>, t: TxId,
                   st': map<SlotKey, Word>, log': seq<Transaction>)
    requires Phase(c, v, st, rest, log, t)
    requires CommitOps(log', t) == CommitOps(log, t)
    requires forall e :: e in log ==> e in log'
    requires c.framed ==> forall k :: k in v.slots ==> Load(st', k) == Load(st, k)
    ensures Phase(c, v, st', rest, log', t)
  {
    OrderHasId(c.hist, t);
    var order := OrderOf(c.hist, t);
    if c.framed && order.Some? && Involved(order.value, c.s) && v.slots == ReadKeys(LocalRwSet(order.value.rwSet, c.s))
       && ReadsMatch(st, LocalRwSet(order.value.rwSet, c.s)) {
      ReadsMatchFrame(st, st', LocalRwSet(order.value.rwSet, c.s));
    }
  }

  /** Slots held by someone else keep their value. */
  lemma StorageFrame(c: Ctx, x: Exec, rest: seq<Transaction>, t: TxId, k: SlotKey)
    requires CtxOK(c) && c.framed && rest != [] && Inv(c, x, rest)
    requires t != EMPTY_ID && t != rest[0].txId && k in x.tables.slots && x.tables.slots[k] == t
    ensures Load(Step(c.call, x, rest[0]).world.storage, k) == Load(x.world.storage, k)
  {
    var e := rest[0];
    if IsWriteOp(e) {
      assert PhaseAt(c, x, rest, e.txId);
      HeadOfTx(rest, e.txId);
      CommitHead(c, ViewOf(x.tables, e.txId), x.world.storage, OfTx(rest, e.txId), FullLog(c, x), e.txId);
      var tx := OrderOf(c.hist, e.txId).value;
      assert WriteKeys(e.rwSet) <= ReadKeys(e.rwSet) by { assert WritesRead(tx); }
      assert k !in SlotsHeld(x.tables.slots, e.txId);
      StoreFrame(x.world.storage, WriteEntries(e.rwSet), k);
    } else if e.txType.Local? && e.data != [] && e.value >= 0 && !LocalConflict(x.tables, e) {
      assert k.addr != e.from && k.addr != e.to;
    }
  }

  lemma OtherPhase(c: Ctx, x: Exec, rest: seq<Transaction>, t: TxId)
    requires CtxOK(c) && rest != [] && Inv(c, x, rest)
    requires t != EMPTY_ID && t != rest[0].txId
    ensures PhaseAt(c, Step(c.call, x, rest[0]), rest[1..], t)
  {
    var e := rest[0];
    var x' := Step(c.call, x, e);
    HeadOfTx(rest, t);
    StepFrame(c.call, x, e, t);
    StepLog(c.call, x, e);
    var log, log' := FullLog(c, x), FullLog(c, x');
    if x'.included == x.included + [e] {
      assert log' == log + [e];
      AppendCommitOps(log, e, t);
    }
    if c.framed {
      forall k | k in SlotsHeld(x.tables.slots, t) ensures Load(x'.world.storage, k) == Load(x.world.storage, k) {
        StorageFrame(c, x, rest, t, k);
      }
    }
    assert PhaseAt(c, x, rest, t);
    PhaseFrame(c, ViewOf(x.tables, t), x.world.storage, OfTx(rest, t), log, t, x'.world.storage, log');
  }

  // ---------------------------------------------------------------------------
  // Own transaction, type by type
  // ---------------------------------------------------------------------------

  /** The step at hand belongs to cross-shard transaction t. */
  ghost predicate OwnStep(c: Ctx, x: Exec, rest: seq<Transaction>, t: TxId) {
    CtxOK(c) && rest != [] && Inv(c, x, rest) && t != EMPTY_ID && t == rest[0].txId
  }

  lemma OwnHead(c: Ctx, x: Exec, rest: seq<Transaction>, t: TxId)
    requires OwnStep(c, x, rest, t)
    ensures AtHead(c, ViewOf(x.tables, t), x.world.storage, OfTx(rest, t), FullLog(c, x), t)
    ensures OfTx(rest, t)[0] == rest[0] && OfTx(rest, t)[1..] == OfTx(rest[1..], t)
    ensures !rest[0].txType.Local?
    ensures FullLog(c, x.(included := x.included + [rest[0]])) == FullLog(c, x) + [rest[0]]
  {
    assert PhaseAt(c, x, rest, t);
    HeadOfTx(rest, t);
  }

  /** A commit operation changes nothing but its own transaction's entries and its own
      part of the state; only a debit can fail, and then nothing changes. */
  lemma CommitOpEffect(call: Call, x: Exec, e: Transaction)
    requires IsCommitOp(e) && e.txId != EMPTY_ID
    ensures var x' := Step(call, x, e);
            var v, v' := ViewOf(x.tables, e.txId), ViewOf(x'.tables, e.txId);
            && v'.vote == v.vote
            && (!e.txType.Finalize? ==> v'.slots == v.slots)
            && (!IsWriteOp(e) ==> x'.world.storage == x.world.storage)
            && (x' == x || x'.included == x.included + [e])
            && (x' == x ==> e.txType.CrossDebit? && Balance(x.world, e.from) < e.value)
  {
    match e.txType {
      case CrossDebit =>
      case CrossCredit =>
      case CrossWriteSet =>
      case Finalize =>
    }
  }

  lemma OwnCommitOp(c: Ctx, x: Exec, rest: seq<Transaction>, t: TxId)
    requires OwnStep(c, x, rest, t) && IsCommitOp(rest[0])
    ensures PhaseAt(c, Step(c.call, x, rest[0]), rest[1..], t)
  {
    OwnHead(c, x, rest, t);
    var e, v, mine, log := rest[0], ViewOf(x.tables, t), OfTx(rest, t), FullLog(c, x);
    CommitHead(c, v, x.world.storage, mine, log, t);
    var x' := Step(c.call, x, e);
    CommitOpEffect(c.call, x, e);
    if e.txType.CrossDebit? && c.safe {
      DebitCovered(x.tables.locked, x.world, t);
    }
    CommitAdvance(c, v, x.world.storage, mine, log, t, ViewOf(x'.tables, t), x'.world.storage, FullLog(c, x'));
  }

  lemma OwnRelease(c: Ctx, x: Exec, rest: seq<Transaction>, t: TxId)
    requires OwnStep(c, x, rest, t) && (rest[0].txType.Unlock? || rest[0].txType.CrossAbort?)
    ensures PhaseAt(c, Step(c.call, x, rest[0]), rest[1..], t)
  {
    OwnHead(c, x, rest, t);
    var e, v, mine, log := rest[0], ViewOf(x.tables, t), OfTx(rest, t), FullLog(c, x);
    ClearAllView(x.tables, t, t);
    if e.txType.Unlock? {
      UnlockAdvance(c, v, x.world.storage, mine, log, t);
    } else {
      AbortAdvance(c, v, x.world.storage, mine, log, t);
    }
  }

  lemma LockView(call: Call, x: Exec, e: Transaction)
    requires e.txType.Lock? && e.txId != EMPTY_ID && LockSucceeds(x, e)
    ensures var v := ViewOf(x.tables, e.txId);
            ViewOf(Step(call, x, e).tables, e.txId)
            == v.(funds := if e.value > 0 then Some(Funds(e.from, e.value)) else v.funds, rw := Some(e.rwSet),
                  slots := v.slots + ReadKeys(e.rwSet), vote := Some(true))
    ensures ReadsMatch(x.world.storage, e.rwSet)
  {
    AcquireFrame(x.world.storage, x.tables.slots, e.txId, ReadEntries(e.rwSet), e.txId);
    PassedReadsMatch(x.world.storage, x.tables.slots, e.txId, e.rwSet);
    LockTables(call, x, e);
  }

  lemma PassedReadsMatch(storage: map<SlotKey, Word>, slots: map<SlotKey, TxId>, t: TxId, rwSet: seq<RwVariable>)
    requires PassCount(storage, slots, t, ReadEntries(rwSet)) == |ReadEntries(rwSet)|
    ensures ReadsMatch(storage, rwSet)
  {
    assert forall i :: 0 <= i < |ReadEntries(rwSet)| ==> Passes(storage, slots, t, ReadEntries(rwSet)[i]);
  }

  /** The tables after a successful Lock, field by field. */
  lemma LockTables(call: Call, x: Exec, e: Transaction)
    requires e.txType.Lock? && e.txId != EMPTY_ID && LockSucceeds(x, e)
    ensures var tb, tb' := x.tables, Step(call, x, e).tables;
            && tb'.locked == LockFunds(tb, e).locked && tb'.credits == tb.credits && tb'.calls == tb.calls
            && tb'.slots == Acquire(tb.slots, e.txId, ReadKeys(e.rwSet))
            && tb'.rwSets == tb.rwSets[e.txId := e.rwSet] && tb'.prepares == tb.prepares[e.txId := true]
  {
    var funded := LockFunds(x.tables, e);
    var held := funded.(slots := Acquire(funded.slots, e.txId, ReadKeys(e.rwSet)),
        rwSets := funded.rwSets[e.txId := e.rwSet]);
    assert Step(call, x, e) == StepLock(x, e);
    assert CleanupAfterExecution(held, e) == held.(prepares := held.prepares[e.txId := true]);
    assert StepLock(x, e).tables == CleanupAfterExecution(held, e);
  }

  lemma OwnLock(c: Ctx, x: Exec, rest: seq<Transaction>, t: TxId)
    requires OwnStep(c, x, rest, t) && rest[0].txType.Lock?
    ensures PhaseAt(c, Step(c.call, x, rest[0]), rest[1..], t)
  {
    OwnHead(c, x, rest, t);
    var e, v, st, mine, log := rest[0], ViewOf(x.tables, t), x.world.storage, OfTx(rest, t), FullLog(c, x);
    LockHead(c, v, st, mine, log, t);
    if LockSucceeds(x, e) {
      LockView(c.call, x, e);
      LockAdvance(c, v, st, mine, log, t);
    } else {
      ClearAllView(x.tables, t, t);
      LockFailAdvance(c, v, st, mine, log, t);
    }
  }

  /** The queue holds only the types the intake produces. */
  lemma HeadType(c: Ctx, v: View, st: map<SlotKey, Word>, rest: seq<Transaction>, log: seq<Transaction>, t: TxId)
    requires AtHead(c, v, st, rest, log, t)
    ensures IsCommitOp(rest[0]) || rest[0].txType.Unlock? || rest[0].txType.CrossAbort? || rest[0].txType.Lock?
  {
    OrderHasId(c.hist, t);
    var order := OrderOf(c.hist, t);
    if order.Some? && Involved(order.value, c.s) && DecisionOf(c.hist, t) == Some(true) {
      var tx, n := order.value, |rest| - 1;
      var done := CommitOps(log, tx.id);
      if n > 0 {
        assert (done + rest[..n])[|done|] == rest[0];
        OpsShape(tx, c.s, done + rest[..n], |done|);
      }
    }
  }

  lemma OwnType(c: Ctx, x: Exec, rest: seq<Transaction>, t: TxId)
    requires OwnStep(c, x, rest, t)
    ensures IsCommitOp(rest[0]) || rest[0].txType.Unlock? || rest[0].txType.CrossAbort? || rest[0].txType.Lock?
  {
    OwnHead(c, x, rest, t);
    HeadType(c, ViewOf(x.tables, t), x.world.storage, OfTx(rest, t), FullLog(c, x), t);
  }

  lemma StepPhase(c: Ctx, x: Exec, rest: seq<Transaction>, t: TxId)
    requires CtxOK(c) && rest != [] && Inv(c, x, rest) && t != EMPTY_ID
    ensures PhaseAt(c, Step(c.call, x, rest[0]), rest[1..], t)
  {
    if t != rest[0].txId {
      OtherPhase(c, x, rest, t);
    } else {
      OwnType(c, x, rest, t);
      if IsCommitOp(rest[0]) {
        OwnCommitOp(c, x, rest, t);
      } else if rest[0].txType.Lock? {
        OwnLock(c, x, rest, t);
      } else {
        OwnRelease(c, x, rest, t);
      }
    }
  }

  // ---------------------------------------------------------------------------
  // The whole invariant
  // ---------------------------------------------------------------------------

  lemma LocalCovered(call: Call, x: Exec, e: Transaction)
    requires e.txType.Local? && Covered(x.tables.locked, x.world) && Respects(call, x, e)
    ensures var x' := Step(call, x, e); Covered(x'.tables.locked, x'.world)
  {
    if !LocalConflict(x.tables, e) && ExecuteTx(call, x.world, e).Some? {
      assert Step(call, x, e).tables == x.tables;
      if e.data == [] {
        TransferCoveredIff(x.tables.locked, x.world, e.from, e.to, e.value);
      }
    }
  }

  lemma DebitStep(call: Call, x: Exec, e: Transaction)
    requires e.txType.CrossDebit? && e.txId != EMPTY_ID && Balance(x.world, e.from) >= e.value
    ensures var x' := Step(call, x, e); x'.world == AddBalance(x.world, e.from, -e.value)
                                        && x'.tables.locked == x.tables.locked - {e.txId}
  {
  }

  lemma OtherOpStep(call: Call, x: Exec, e: Transaction)
    requires e.txType.CrossCredit? || IsWriteOp(e)
    ensures var x' := Step(call, x, e);
            x'.tables.locked == x.tables.locked && x'.world.balances ==
                if e.txType.CrossCredit? then AddBalance(x.world, e.to, e.value).balances else x.world.balances
  {
  }

  lemma CommitOpCoveredStep(call: Call, x: Exec, e: Transaction)
    requires IsCommitOp(e) && e.txId != EMPTY_ID
    requires e.txType.CrossDebit? ==> Get(x.tables.locked, e.txId) == Some(Funds(e.from, e.value))
    requires e.txType.CrossCredit? ==> e.value > 0
    requires Positive(x.tables.locked) && Covered(x.tables.locked, x.world)
    ensures var x' := Step(call, x, e); Covered(x'.tables.locked, x'.world)
  {
    var x' := Step(call, x, e);
    if e.txType.CrossDebit? {
      DebitCovered(x.tables.locked, x.world, e.txId);
      DebitStep(call, x, e);
    } else {
      OtherOpStep(call, x, e);
      forall a: Address ensures Reserved(x'.tables.locked, a) <= Balance(x'.world, a) {
        assert Reserved(x.tables.locked, a) <= Balance(x.world, a);
      }
    }
  }

  lemma CommitOpCovered(c: Ctx, x: Exec, rest: seq<Transaction>)
    requires rest != [] && OwnStep(c, x, rest, rest[0].txId) && c.safe && IsCommitOp(rest[0])
    ensures var x' := Step(c.call, x, rest[0]); Covered(x'.tables.locked, x'.world)
  {
    var e, t := rest[0], rest[0].txId;
    OwnHead(c, x, rest, t);
    CommitHead(c, ViewOf(x.tables, t), x.world.storage, OfTx(rest, t), FullLog(c, x), t);
    CommitOpCoveredStep(c.call, x, e);
  }

  lemma LockCoveredStep(call: Call, x: Exec, e: Transaction)
    requires e.txType.Lock? && e.txId !in x.tables.locked
    requires Positive(x.tables.locked) && Covered(x.tables.locked, x.world)
    ensures var x' := Step(call, x, e); Covered(x'.tables.locked, x'.world)
  {
    assert Step(call, x, e) == StepLock(x, e) && StepLock(x, e).world == x.world;
    LockLocked(x, e);
    if !LockSucceeds(x, e) {
      ClearCovered(x.tables.locked, x.world, e.txId);
    } else if e.value > 0 {
      LockCoveredIff(x.tables.locked, x.world, e.txId, Funds(e.from, e.value));
    }
  }

  lemma LockStepCovered(c: Ctx, x: Exec, rest: seq<Transaction>)
    requires rest != [] && OwnStep(c, x, rest, rest[0].txId) && c.safe && rest[0].txType.Lock?
    ensures var x' := Step(c.call, x, rest[0]); Covered(x'.tables.locked, x'.world)
  {
    var e, t := rest[0], rest[0].txId;
    OwnHead(c, x, rest, t);
    LockHead(c, ViewOf(x.tables, t), x.world.storage, OfTx(rest, t), FullLog(c, x), t);
    LockCoveredStep(c.call, x, e);
  }

  lemma StepCovered(c: Ctx, x: Exec, rest: seq<Transaction>)
    requires CtxOK(c) && rest != [] && Inv(c, x, rest) && c.safe && Respects(c.call, x, rest[0])
    ensures var x' := Step(c.call, x, rest[0]); Covered(x'.tables.locked, x'.world)
  {
    if rest[0].txType.Local? {
      LocalCovered(c.call, x, rest[0]);
    } else {
      OwnType(c, x, rest, rest[0].txId);
      if IsCommitOp(rest[0]) {
        CommitOpCovered(c, x, rest);
      } else if rest[0].txType.Lock? {
        LockStepCovered(c, x, rest);
      } else {
        ClearCovered(x.tables.locked, x.world, rest[0].txId);
      }
    }
  }

  lemma FirstWriteBefore(log: seq<Transaction>, e: Transaction, i: nat)
    requires i < |log| && FirstWrite(log + [e], i)
    ensures FirstWrite(log, i)
  {
    forall j | 0 <= j < i && log[j].txId == log[i].txId ensures !IsWriteOp(log[j]) {
      assert (log + [e])[j] == log[j];
    }
  }

  lemma AppendReadsHeld(call: Call, init: World, log: seq<Transaction>, e: Transaction, w: World)
    requires ReadsHeld(call, init, log) && Replay(call, init, log) == Some(w)
    requires FirstWrite(log + [e], |log|) ==> ReadsMatch(w.storage, e.rwSet)
    ensures ReadsHeld(call, init, log + [e])
  {
    var log' := log + [e];
    forall i | 0 <= i < |log'| && FirstWrite(log', i) ensures CurrentAfter(call, init, log'[..i], log'[i].rwSet) {
      if i < |log| {
        assert log'[..i] == log[..i];
        FirstWriteBefore(log, e, i);
      } else {
        assert log'[..i] == log;
      }
    }
  }

  lemma StepReadsHeld(c: Ctx, x: Exec, rest: seq<Transaction>)
    requires CtxOK(c) && rest != [] && Inv(c, x, rest) && c.framed
    ensures ReadsHeld(c.call, c.init, FullLog(c, Step(c.call, x, rest[0])))
  {
    var e := rest[0];
    var x' := Step(c.call, x, e);
    var log := FullLog(c, x);
    StepLog(c.call, x, e);
    if x'.included == x.included + [e] {
      assert FullLog(c, x') == log + [e];
      if FirstWrite(log + [e], |log|) {
        forall j | 0 <= j < |log| && log[j].txId == e.txId ensures !IsWriteOp(log[j]) {
          assert (log + [e])[j] == log[j];
        }
        FirstWriteMatches(c, x, rest);
      }
      AppendReadsHeld(c.call, c.init, log, e, x.world);
    }
  }

  lemma FirstWriteMatches(c: Ctx, x: Exec, rest: seq<Transaction>)
    requires CtxOK(c) && rest != [] && Inv(c, x, rest) && c.framed
    requires IsWriteOp(rest[0])
    requires forall j :: 0 <= j < |FullLog(c, x)| && FullLog(c, x)[j].txId == rest[0].txId ==>
        !IsWriteOp(FullLog(c, x)[j])
    ensures ReadsMatch(x.world.storage, rest[0].rwSet)
  {
    var t, log := rest[0].txId, FullLog(c, x);
    OwnHead(c, x, rest, t);
    CommitHead(c, ViewOf(x.tables, t), x.world.storage, OfTx(rest, t), log, t);
    if WriteOps(CommitOps(log, t)) != [] {
      var w := WriteOps(CommitOps(log, t))[0];
      WriteOpsMember(CommitOps(log, t), w);
      CommitOpsMember(log, t, w);
      assert false;
    }
  }

  lemma {:induction false} WriteOpsMember(txs: seq<Transaction>, e: Transaction)
    ensures e in WriteOps(txs) <==> e in txs && IsWriteOp(e)
  {
    if txs != [] {
      WriteOpsMember(txs[1..], e);
    }
  }

  lemma LogStaysOK(c: Ctx, x: Exec, e: Transaction)
    requires QueueOK(FullLog(c, x)) && (e.txType.Local? <==> e.txId == EMPTY_ID)
    ensures QueueOK(FullLog(c, Step(c.call, x, e)))
  {
    StepLog(c.call, x, e);
    var x' := Step(c.call, x, e);
    assert x'.included == x.included + [e] ==> FullLog(c, x') == FullLog(c, x) + [e];
  }

  lemma StepInv(c: Ctx, x: Exec, rest: seq<Transaction>)
    requires CtxOK(c) && rest != [] && Inv(c, x, rest)
    requires c.safe ==> Respects(c.call, x, rest[0])
    ensures Inv(c, Step(c.call, x, rest[0]), rest[1..])
  {
    ReplayStep(c, x, rest[0]);
    LogStaysOK(c, x, rest[0]);
    if c.framed { StepReadsHeld(c, x, rest); }
    StepPositive(c.call, x, rest[0]);
    if c.safe { StepCovered(c, x, rest); }
    forall t | t != EMPTY_ID ensures PhaseAt(c, Step(c.call, x, rest[0]), rest[1..], t) {
      StepPhase(c, x, rest, t);
    }
  }

  lemma {:induction false} StepsConcat(call: Call, x: Exec, xs: seq<Transaction>, ys: seq<Transaction>)
    ensures Steps(call, x, xs + ys) == Steps(call, Steps(call, x, xs), ys)
    decreases xs
  {
    if xs == [] {
      assert xs + ys == ys;
    } else {
      assert (xs + ys)[1..] == xs[1..] + ys;
      StepsConcat(call, Step(call, x, xs[0]), xs[1..], ys);
    }
  }

  lemma {:induction false} RespectConcat(call: Call, x: Exec, xs: seq<Transaction>, ys: seq<Transaction>)
    ensures AllRespect(call, x, xs + ys) <==> AllRespect(call, x, xs) && AllRespect(call, Steps(call, x, xs), ys)
    decreases xs
  {
    if xs == [] {
      assert xs + ys == ys;
    } else {
      assert (xs + ys)[1..] == xs[1..] + ys;
      RespectConcat(call, Step(call, x, xs[0]), xs[1..], ys);
    }
  }

  /** Executing the first part of a list keeps the invariant. */
  lemma {:induction false} StepsInvUpTo(c: Ctx, x: Exec, done: seq<Transaction>, rest: seq<Transaction>)
    requires CtxOK(c) && Inv(c, x, done + rest)
    requires c.safe ==> AllRespect(c.call, x, done)
    ensures Inv(c, Steps(c.call, x, done), rest)
    decreases done
  {
    if done == [] {
      assert done + rest == rest;
    } else {
      assert (done + rest)[1..] == done[1..] + rest;
      StepInv(c, x, done + rest);
      StepsInvUpTo(c, Step(c.call, x, done[0]), done[1..], rest);
    }
  }

  /** Executing a whole list keeps the invariant. */
  lemma StepsInv(c: Ctx, x: Exec, rest: seq<Transaction>)
    requires CtxOK(c) && Inv(c, x, rest)
    requires c.safe ==> AllRespect(c.call, x, rest)
    ensures Inv(c, Steps(c.call, x, rest), [])
  {
    assert rest + [] == rest;
    StepsInvUpTo(c, x, rest, []);
  }

  // ---------------------------------------------------------------------------
  // Lists without local transactions respect every reservation
  // ---------------------------------------------------------------------------

  ghost predicate NoLocals(txs: seq<Transaction>) {
    forall e :: e in txs ==> !e.txType.Local?
  }

  lemma {:induction false} NoLocalsRespect(call: Call, x: Exec, txs: seq<Transaction>)
    requires NoLocals(txs)
    ensures AllRespect(call, x, txs)
    decreases txs
  {
    if txs != [] {
      assert txs[0] in txs && forall e :: e in txs[1..] ==> e in txs;
      NoLocalsRespect(call, Step(call, x, txs[0]), txs[1..]);
    }
  }
}
