/** When a decision frees what a shard holds for a transaction, and when it does not. */
module LockRelease {
  import opened Protocol
  import opened EvmState
  import opened ShardSpec
  import opened History
  import opened ShardInvariant
  import opened ShardSteps
  import opened ShardIntake
  import opened ShardBlocks
  import opened BlockBuffer
  import opened Network

  ghost predicate Queued(txs: seq<Transaction>, t: TxId, ty: TxType) {
    exists i :: 0 <= i < |txs| && txs[i].txId == t && txs[i].txType == ty
  }

  lemma QueuedHead(txs: seq<Transaction>, t: TxId, ty: TxType)
    requires txs != []
    ensures Queued(txs, t, ty) <==> (txs[0].txId == t && txs[0].txType == ty) || Queued(txs[1..], t, ty)
  {
    if i :| 0 <= i < |txs| && txs[i].txId == t && txs[i].txType == ty {
      assert i > 0 ==> txs[1..][i - 1] == txs[i];
    }
    if j :| 0 <= j < |txs[1..]| && txs[1..][j].txId == t && txs[1..][j].txType == ty {
      assert txs[j + 1] == txs[1..][j];
    }
  }

  /** Executing txs from x, the Lock of t succeeds when its turn comes. */
  ghost predicate LocksAt(call: Call, x: Exec, txs: seq<Transaction>, t: TxId) {
    exists i :: 0 <= i < |txs| && txs[i].txId == t && txs[i].txType.Lock?
                && LockSucceeds(Steps(call, x, txs[..i]), txs[i])
  }

  lemma LocksAtHead(call: Call, x: Exec, txs: seq<Transaction>, t: TxId)
    requires txs != []
    ensures LocksAt(call, x, txs, t)
       <==> (txs[0].txId == t && txs[0].txType.Lock? && LockSucceeds(x, txs[0]))
            || LocksAt(call, Step(call, x, txs[0]), txs[1..], t)
  {
    var x1, rest := Step(call, x, txs[0]), txs[1..];
    assert txs[..0] == [];
    forall i | 0 <= i < |rest| ensures Steps(call, x, txs[..i + 1]) == Steps(call, x1, rest[..i]) {
      assert txs[..i + 1][0] == txs[0] && txs[..i + 1][1..] == rest[..i];
    }
    if i :| 0 <= i < |txs| && txs[i].txId == t && txs[i].txType.Lock?
            && LockSucceeds(Steps(call, x, txs[..i]), txs[i]) {
      assert i > 0 ==> rest[i - 1] == txs[i] && Steps(call, x, txs[..i]) == Steps(call, x1, rest[..i - 1]);
    }
    if j :| 0 <= j < |rest| && rest[j].txId == t && rest[j].txType.Lock?
            && LockSucceeds(Steps(call, x1, rest[..j]), rest[j]) {
      assert txs[j + 1] == rest[j];
    }
  }

  /** Sorted entries; those of t only release, except for at most one Lock. */
  ghost predicate ReleaseList(txs: seq<Transaction>, t: TxId) {
    && Ascending(txs)
    && (forall i :: 0 <= i < |txs| && txs[i].txId == t ==>
        txs[i].txType.Unlock? || txs[i].txType.CrossAbort? || txs[i].txType.Lock?)
    && (forall i, j :: 0 <= i < j < |txs| && txs[i].txId == t == txs[j].txId && txs[i].txType.Lock? ==>
        !txs[j].txType.Lock?)
  }

  lemma ReleaseListTail(txs: seq<Transaction>, t: TxId)
    requires txs != [] && ReleaseList(txs, t)
    ensures ReleaseList(txs[1..], t)
    ensures txs[0].txId == t && !txs[0].txType.Unlock? ==> !Queued(txs[1..], t, Unlock) && !Queued(txs[1..], t, Lock)
  {
    assert forall i :: 0 <= i < |txs[1..]| ==> txs[1..][i] == txs[i + 1];
  }

  lemma NoLockNoLocksAt(call: Call, x: Exec, txs: seq<Transaction>, t: TxId)
    requires !Queued(txs, t, Lock)
    ensures !LocksAt(call, x, txs, t)
  {
  }

  /** Whether anything of t is left after the whole list. */
  lemma {:induction false} ReleaseOutcome(call: Call, x: Exec, txs: seq<Transaction>, t: TxId)
    requires t != EMPTY_ID && ReleaseList(txs, t)
    ensures Cleared(ViewOf(Steps(call, x, txs).tables, t))
       <==> if Queued(txs, t, CrossAbort) then true
            else if Queued(txs, t, Lock) then !LocksAt(call, x, txs, t)
            else if Queued(txs, t, Unlock) then true
            else Cleared(ViewOf(x.tables, t))
    decreases txs
  {
    if txs != [] {
      var e, x1, rest := txs[0], Step(call, x, txs[0]), txs[1..];
      ReleaseListTail(txs, t);
      ReleaseOutcome(call, x1, rest, t);
      LocksAtHead(call, x, txs, t);
      QueuedHead(txs, t, CrossAbort);
      QueuedHead(txs, t, Lock);
      QueuedHead(txs, t, Unlock);
      if e.txId != t {
        StepFrame(call, x, e, t);
      } else if e.txType.Lock? {
        LockClears(call, x, e);
        NoLockNoLocksAt(call, x1, rest, t);
      } else {
        ClearAllView(x.tables, t, t);
        assert x1.tables == ClearAll(x.tables, t);
      }
    }
  }

  lemma LockClears(call: Call, x: Exec, e: Transaction)
    requires e.txType.Lock? && e.txId != EMPTY_ID
    ensures Cleared(ViewOf(Step(call, x, e).tables, e.txId)) <==> !LockSucceeds(x, e)
  {
    if LockSucceeds(x, e) {
      LockView(call, x, e);
    } else {
      ClearAllView(x.tables, e.txId, e.txId);
    }
  }

  /** The entries a shard has queued for an aborted transaction. */
  ghost predicate AbortEntriesOnly(mine: seq<Transaction>) {
    && (forall k :: 0 <= k < |mine| ==> mine[k].txType.Unlock? || mine[k].txType.CrossAbort? || mine[k].txType.Lock?)
    && (forall a, b :: 0 <= a < b < |mine| && mine[a].txType.Lock? ==> !mine[b].txType.Lock?)
  }

  lemma AbortedEntries(c: Ctx, v: View, st: map<SlotKey, Word>, mine: seq<Transaction>, log: seq<Transaction>, t: TxId)
    requires Phase(c, v, st, mine, log, t) && DecisionOf(c.hist, t) == Some(false)
    ensures AbortEntriesOnly(mine)
  {
  }

  lemma AbortedList(call: Call, init: World, sh: Shard, hist: seq<OrchestratorBlock>, safe: bool, framed: bool, t: TxId)
    requires ShardInv(call, init, sh, hist, safe, framed) && t != EMPTY_ID && DecisionOf(hist, t) == Some(false)
    ensures ReleaseList(ByPriority(sh.queue), t)
  {
    var c, q := CtxOf(call, init, sh, hist, safe, framed), ByPriority(sh.queue);
    assert PhaseAt(c, Boundary(sh), q, t);
    AbortedEntries(c, ViewOf(sh.tables, t), sh.world.storage, OfTx(q, t), FullLog(c, Boundary(sh)), t);
    ByPriorityIsStableSort(sh.queue);
    FromEntries(q, t);
  }

  lemma FromEntries(q: seq<Transaction>, t: TxId)
    requires Ascending(q) && AbortEntriesOnly(OfTx(q, t))
    ensures ReleaseList(q, t)
  {
    var mine := OfTx(q, t);
    forall i | 0 <= i < |q| && q[i].txId == t ensures q[i].txType.Unlock? || q[i].txType.CrossAbort?
        || q[i].txType.Lock? {
      OfTxMember(q, t, q[i]);
      var k :| 0 <= k < |mine| && mine[k] == q[i];
    }
    forall i, j | 0 <= i < j < |q| && q[i].txId == t == q[j].txId && q[i].txType.Lock? ensures !q[j].txType.Lock? {
      PickTwo(q, t, i, j);
    }
  }

  /** Two entries of t are two entries of its own list, in the same order. */
  lemma PickTwo(q: seq<Transaction>, t: TxId, i: nat, j: nat)
    requires i < j < |q| && q[i].txId == t == q[j].txId
    ensures exists a, b :: 0 <= a < b < |OfTx(q, t)| && OfTx(q, t)[a] == q[i] && OfTx(q, t)[b] == q[j]
  {
    var l, m, r := OfTx(q[..i], t), OfTx(q[i + 1..j], t), OfTx(q[j + 1..], t);
    assert q == q[..i] + [q[i]] + q[i + 1..j] + [q[j]] + q[j + 1..];
    OfTxConcat(q[..i] + [q[i]] + q[i + 1..j] + [q[j]], q[j + 1..], t);
    OfTxConcat(q[..i] + [q[i]] + q[i + 1..j], [q[j]], t);
    OfTxConcat(q[..i] + [q[i]], q[i + 1..j], t);
    OfTxConcat(q[..i], [q[i]], t);
    OfTxAll([q[i]], t);
    OfTxAll([q[j]], t);
    assert OfTx(q, t) == l + [q[i]] + m + [q[j]] + r;
    assert OfTx(q, t)[|l|] == q[i] && OfTx(q, t)[|l| + 1 + |m|] == q[j];
  }

  lemma SameQueued(txs: seq<Transaction>, t: TxId, ty: TxType)
    ensures Queued(ByPriority(txs), t, ty) <==> Queued(txs, t, ty)
  {
    if i :| 0 <= i < |txs| && txs[i].txId == t && txs[i].txType == ty {
      ByPriorityMember(txs, txs[i]);
      assert txs[i] in ByPriority(txs);
    }
    if i :| 0 <= i < |ByPriority(txs)| && ByPriority(txs)[i].txId == t && ByPriority(txs)[i].txType == ty {
      ByPriorityMember(txs, ByPriority(txs)[i]);
      assert ByPriority(txs)[i] in txs;
    }
  }

  /** An abort whose Unlock is executed frees everything the shard holds for t, unless
      t's Lock was still queued when the abort was taken in, succeeds after the Unlock
      has run, and no CrossAbort was queued to follow it. */
  lemma AbortReleasesIff(call: Call, init: World, sh: Shard, hist: seq<OrchestratorBlock>, safe: bool, framed: bool,
                         t: TxId)
    requires ShardInv(call, init, sh, hist, safe, framed) && t != EMPTY_ID
    requires DecisionOf(hist, t) == Some(false) && Queued(sh.queue, t, Unlock)
    ensures Cleared(ViewOf(ProduceBlock(call, sh).tables, t))
       <==> Queued(sh.queue, t, CrossAbort) || !LocksAt(call, Boundary(sh), ByPriority(sh.queue), t)
  {
    var q := ByPriority(sh.queue);
    AbortedList(call, init, sh, hist, safe, framed, t);
    ReleaseOutcome(call, Boundary(sh), q, t);
    SameQueued(sh.queue, t, CrossAbort);
    SameQueued(sh.queue, t, Lock);
    SameQueued(sh.queue, t, Unlock);
    if !Queued(q, t, Lock) { NoLockNoLocksAt(call, Boundary(sh), q, t); }
    var x := Steps(call, Boundary(sh), q);
    assert ViewOf(ProduceBlock(call, sh).tables, t) == ViewOf(x.tables, t).(vote := None);
  }

  /** What an involved shard stores for tx before its Lock is executed. */
  predicate StoresFor(tx: CrossShardTx, s: int) {
    Credited(tx, s) || (s != tx.fromShard && tx.data != [])
  }

  /** While the Lock is queued, the shard holds something for t exactly if it is to credit
      the recipient or keeps the call. */
  lemma QueuedLockHolds(call: Call, init: World, sh: Shard, hist: seq<OrchestratorBlock>, safe: bool, framed: bool,
                        t: TxId)
    requires ShardInv(call, init, sh, hist, safe, framed) && t != EMPTY_ID
    requires DecisionOf(hist, t).None? && Queued(sh.queue, t, Lock)
    ensures OrderOf(hist, t).Some? && OrderOf(hist, t).value.id == t
    ensures HasData(sh.tables, t) <==> StoresFor(OrderOf(hist, t).value, sh.id)
    ensures OfTx(sh.queue, t) == [LockTx(OrderOf(hist, t).value, sh.id)]
  {
    var i :| 0 <= i < |sh.queue| && sh.queue[i].txId == t && sh.queue[i].txType.Lock?;
    var mine := OfTx(sh.queue, t);
    OfTxMember(sh.queue, t, sh.queue[i]);
    PhaseBefore(call, init, sh, hist, safe, framed, t);
    OrderHasId(hist, t);
    ByPrioritySmall(mine);
    var k :| 0 <= k < |mine| && mine[k] == sh.queue[i];
    ByPriorityMember(mine, mine[k]);
    WaitingHolds(sh.tables, OrderOf(hist, t).value, sh.id);
  }

  lemma WaitingHolds(tb: Tables, tx: CrossShardTx, s: int)
    requires Waiting(ViewOf(tb, tx.id), tx, s)
    ensures HasData(tb, tx.id) <==> StoresFor(tx, s)
  {
    var t := tx.id;
    assert Get(tb.locked, t).None? && Get(tb.rwSets, t).None?;
    assert Get(tb.credits, t) == CreditsFor(tx, s) && Get(tb.calls, t) == CallFor(tx, s);
  }

  lemma QueuedOf(txs: seq<Transaction>, t: TxId, ty: TxType)
    ensures Queued(txs, t, ty) <==> Queued(OfTx(txs, t), t, ty)
  {
    if i :| 0 <= i < |txs| && txs[i].txId == t && txs[i].txType == ty {
      OfTxMember(txs, t, txs[i]);
      assert txs[i] in OfTx(txs, t);
    }
    if i :| 0 <= i < |OfTx(txs, t)| && OfTx(txs, t)[i].txId == t && OfTx(txs, t)[i].txType == ty {
      OfTxMember(txs, t, OfTx(txs, t)[i]);
      assert OfTx(txs, t)[i] in txs;
    }
  }

  /** An abort taken in while t's Lock is still queued, and executed in the next block:
      the shard ends up holding nothing of t if and only if it had stored a credit or a
      call for t (so that a CrossAbort follows the Lock), or the Lock fails. */
  lemma OvertakenAbortIff(call: Call, init: World, sh: Shard, hist: seq<OrchestratorBlock>, safe: bool, framed: bool,
                          b: OrchestratorBlock, order: seq<TxId>, t: TxId)
    requires CanProcess(call, init, sh, hist, safe, framed, b, order) && t != EMPTY_ID
    requires DecisionOf(hist, t).None? && Queued(sh.queue, t, Lock) && t in b.tpcResult && !b.tpcResult[t]
    ensures forall i :: 0 <= i < |order| ==> order[i] in b.tpcResult
    ensures OrderOf(hist, t).Some?
    ensures var sh' := Process(sh, b, order);
            Cleared(ViewOf(ProduceBlock(call, sh').tables, t))
            <==> StoresFor(OrderOf(hist, t).value, sh.id) || !LocksAt(call, Boundary(sh'), ByPriority(sh'.queue), t)
  {
    QueuedLockHolds(call, init, sh, hist, safe, framed, t);
    ProcessEffect(call, init, sh, hist, safe, framed, b, order);
    ProcessInv(call, init, sh, hist, safe, framed, b, order);
    var sh' := Process(sh, b, order);
    AbortQueued(call, init, sh, hist, safe, framed, b, order, t, sh');
    ExtendHistory(hist, b, t);
    AbortReleasesIff(call, init, sh', hist + [b], safe, framed, t);
  }

  lemma AbortQueued(call: Call, init: World, sh: Shard, hist: seq<OrchestratorBlock>, safe: bool, framed: bool,
                    b: OrchestratorBlock,
                    order: seq<TxId>, t: TxId, sh': Shard)
    requires CanProcess(call, init, sh, hist, safe, framed, b, order) && t in b.tpcResult && !b.tpcResult[t]
    requires forall i :: 0 <= i < |order| ==> order[i] in b.tpcResult
    requires TakenIn(sh, sh', b, order) && |OfTx(sh.queue, t)| == 1 && OfTx(sh.queue, t)[0].txType.Lock?
    ensures Queued(sh'.queue, t, Unlock) && (Queued(sh'.queue, t, CrossAbort) <==> HasData(sh.tables, t))
  {
    OrderInFound(b.ctToOrder, t);
    IntakeAllFrame(sh, b.ctToOrder, t);
    DecisionQueueOfTx(sh.tables, sh.id, b.tpcResult, order, t);
    OfThree(sh.queue, DecisionQueue(sh.tables, sh.id, b.tpcResult, order), LockQueue(b.ctToOrder, sh.id), t);
    QueuedOf(sh'.queue, t, Unlock);
    QueuedOf(sh'.queue, t, CrossAbort);
    LockThenAbort(OfTx(sh.queue, t)[0], sh.tables, t);
    assert OfTx(sh.queue, t) == [OfTx(sh.queue, t)[0]];
  }

  lemma OfThree(a: seq<Transaction>, b: seq<Transaction>, c: seq<Transaction>, t: TxId)
    ensures OfTx(a + b + c, t) == OfTx(a, t) + OfTx(b, t) + OfTx(c, t)
  {
    OfTxConcat(a + b, c, t);
    OfTxConcat(a, b, t);
  }

  lemma LockThenAbort(lock: Transaction, tb: Tables, t: TxId)
    requires lock.txType.Lock?
    ensures var mine := [lock] + (AbortEntries(tb, t) + [Typed(Unlock, t)]) + [];
            Queued(mine, t, Unlock) && (Queued(mine, t, CrossAbort) <==> HasData(tb, t))
  {
    var mine := [lock] + (AbortEntries(tb, t) + [Typed(Unlock, t)]) + [];
    assert mine[|mine| - 1] == Typed(Unlock, t);
    assert HasData(tb, t) ==> mine[1] == Typed(CrossAbort, t);
  }

  // ---------------------------------------------------------------------------
  // What is left stays for ever
  // ---------------------------------------------------------------------------

  /** The decision on t has been handled and nothing of t is queued. */
  ghost predicate Retired(sh: Shard, t: TxId) {
    t in sh.processed && OfTx(sh.queue, t) == []
  }

  ghost predicate Unmoved(sh: Shard, sh': Shard, t: TxId) {
    Retired(sh', t) && ViewOf(sh'.tables, t) == ViewOf(sh.tables, t)
  }

  lemma {:induction false} StepsFrame(call: Call, x: Exec, txs: seq<Transaction>, t: TxId)
    requires OfTx(txs, t) == []
    ensures ViewOf(Steps(call, x, txs).tables, t) == ViewOf(x.tables, t)
    decreases txs
  {
    if txs != [] {
      StepFrame(call, x, txs[0], t);
      StepsFrame(call, Step(call, x, txs[0]), txs[1..], t);
    }
  }

  lemma ProduceRetired(call: Call, sh: Shard, t: TxId)
    requires Retired(sh, t) && sh.tables.prepares == map[]
    ensures Unmoved(sh, ProduceBlock(call, sh), t)
  {
    var q := ByPriority(sh.queue);
    OfTxByPriority(sh.queue, t);
    EmptyQueueSorted();
    StepsFrame(call, Boundary(sh), q, t);
    var x := Steps(call, Boundary(sh), q);
    assert ViewOf(ProduceBlock(call, sh).tables, t) == ViewOf(x.tables, t).(vote := None);
  }

  lemma ProcessRetired(call: Call, init: World, sh: Shard, hist: seq<OrchestratorBlock>, b: OrchestratorBlock,
                       order: seq<TxId>, t: TxId)
    requires CanProcess(call, init, sh, hist, false, false, b, order) && Retired(sh, t)
    ensures forall i :: 0 <= i < |order| ==> order[i] in b.tpcResult
    ensures Unmoved(sh, Process(sh, b, order), t)
  {
    ProcessEffect(call, init, sh, hist, false, false, b, order);
    var sh', d := Process(sh, b, order), DecisionQueue(sh.tables, sh.id, b.tpcResult, order);
    DecidedWasOrdered(hist, t);
    OrderInFound(b.ctToOrder, t);
    IntakeAllFrame(sh.(queue := sh'.queue, processed := sh'.processed), b.ctToOrder, t);
    OfTxConcat(sh.queue + d, LockQueue(b.ctToOrder, sh.id), t);
    OfTxConcat(sh.queue, d, t);
    DecisionQueueOfTx(sh.tables, sh.id, b.tpcResult, order, t);
  }

  lemma {:induction false} ProcessAllRetired(calls: Calls, inits: seq<World>, g: System, s: nat, sh: Shard, n: nat,
                                             orders: seq<seq<TxId>>, t: TxId)
    requires SystemInv(calls, inits, g, false, false) && s < NUM_SHARDS
    requires sh.id == s && sh.blocks == g.nodes[s].shard.blocks
    requires sh.lastHeight + 1 <= n <= |g.orch.blocks|
    requires ShardInv(calls(s), inits[s], sh, g.orch.blocks[..sh.lastHeight + 1], false, false)
    requires ValidOrders(g.orch.blocks[sh.lastHeight + 1..n], orders) && Retired(sh, t)
    ensures Unmoved(sh, ProcessAll(sh, g.orch.blocks[sh.lastHeight + 1..n], orders), t)
    decreases n - sh.lastHeight
  {
    var h := sh.lastHeight + 1;
    var rest := g.orch.blocks[h..n];
    if h < n {
      var b := g.orch.blocks[h];
      assert rest[0] == b && rest[1..] == g.orch.blocks[h + 1..n];
      TailOrders(rest, orders);
      OneBlockInv(calls, inits, g, false, false, s, sh, h, orders[0]);
      ProcessRetired(calls(s), inits[s], sh, g.orch.blocks[..h], b, orders[0], t);
      ProcessAllRetired(calls, inits, g, s, Process(sh, b, orders[0]), n, orders[1..], t);
    }
  }

  lemma ArrivalRetired(calls: Calls, inits: seq<World>, g: System, s: nat, h: nat, orders: seq<seq<TxId>>, t: TxId)
    requires SystemInv(calls, inits, g, false, false) && s < NUM_SHARDS && Enabled(g, BlockArrives(s, h, orders))
    requires Retired(g.nodes[s].shard, t)
    ensures Unmoved(g.nodes[s].shard, Next(calls, g, BlockArrives(s, h, orders)).nodes[s].shard, t)
  {
    assert NodeInv(calls, inits, g, false, false, s);
    HeightIsPosition(g.orch.blocks, h);
    ReceiveChain(g.nodes[s].buffer, g.orch.blocks, h);
    var (buffer, released) := Receive(g.nodes[s].buffer, g.orch.blocks[h]);
    ProcessAllRetired(calls, inits, g, s, g.nodes[s].shard, buffer.expected, orders, t);
  }

  lemma NextRetired(calls: Calls, inits: seq<World>, g: System, step: Event, s: nat, t: TxId)
    requires SystemInv(calls, inits, g, false, false) && Enabled(g, step) && s < NUM_SHARDS && t != EMPTY_ID
    requires Retired(g.nodes[s].shard, t)
    ensures var g' := Next(calls, g, step);
            |g'.nodes| == NUM_SHARDS && Unmoved(g.nodes[s].shard, g'.nodes[s].shard, t)
  {
    match step {
      case BlockArrives(u, h, orders) => if u == s { ArrivalRetired(calls, inits, g, s, h, orders, t); }
      case ShardProduces(u) =>
        assert NodeInv(calls, inits, g, false, false, s);
        ProduceRetired(calls(s), g.nodes[s].shard, t);
      case LocalTx(u, local) => OfTxConcat(g.nodes[s].shard.queue, [local], t);
      case _ =>
    }
  }

  lemma {:induction false} RunRetired(calls: Calls, inits: seq<World>, g: System, steps: seq<Event>, s: nat, t: TxId)
    requires SystemInv(calls, inits, g, false, false) && Legal(calls, g, steps) && s < NUM_SHARDS && t != EMPTY_ID
    requires Retired(g.nodes[s].shard, t)
    ensures var g' := Run(calls, g, steps);
            |g'.nodes| == NUM_SHARDS && Unmoved(g.nodes[s].shard, g'.nodes[s].shard, t)
    decreases steps
  {
    if steps != [] {
      NextInv(calls, inits, g, false, false, steps[0]);
      NextRetired(calls, inits, g, steps[0], s, t);
      RunRetired(calls, inits, Next(calls, g, steps[0]), steps[1..], s, t);
    }
  }

  /** Once a shard has handled the decision on t and has nothing queued for it, what it
      still holds for t stays exactly as it is, whatever happens later. */
  lemma LeftoversAreForever(calls: Calls, inits: seq<World>, g0: System, steps: seq<Event>, more: seq<Event>, s: nat,
                            t: TxId)
    requires Reaches(calls, inits, g0, steps, false, false) && Legal(calls, Run(calls, g0, steps), more)
    requires s < NUM_SHARDS && t != EMPTY_ID
    requires s < |Run(calls, g0, steps).nodes| && Retired(Run(calls, g0, steps).nodes[s].shard, t)
    ensures var g, g' := Run(calls, g0, steps), Run(calls, Run(calls, g0, steps), more);
            |g'.nodes| == NUM_SHARDS && Unmoved(g.nodes[s].shard, g'.nodes[s].shard, t)
  {
    ReachableInv(calls, inits, g0, steps, false, false);
    RunRetired(calls, inits, Run(calls, g0, steps), more, s, t);
  }
}
