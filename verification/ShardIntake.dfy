/** Taking in an orchestrator block keeps the shard invariant, provided the block
    follows the ones already taken in and this shard has voted YES on everything the
    block commits here. */
module ShardIntake {
  import opened Protocol
  import opened EvmState
  import opened ShardSpec
  import opened History
  import opened ShardInvariant
  import opened ShardSteps

  // ---------------------------------------------------------------------------
  // Phase 1: decisions
  // ---------------------------------------------------------------------------

  function DecisionQueue(tb: Tables, s: int, results: map<TxId, bool>, order: seq<TxId>): seq<Transaction>
    requires forall i :: 0 <= i < |order| ==> order[i] in results
  {
    if order == [] then []
    else DecisionEntries(tb, s, order[0], results[order[0]]) + DecisionQueue(tb, s, results, order[1..])
  }

  /** The decision loop only appends to the queue and marks ids as handled. */
  lemma {:induction false} DecideAllEffect(sh: Shard, results: map<TxId, bool>, order: seq<TxId>)
    requires forall i :: 0 <= i < |order| ==> order[i] in results
    requires Distinct(order) && forall i :: 0 <= i < |order| ==> order[i] !in sh.processed
    ensures DecideAll(sh, results, order)
         == sh.(queue := sh.queue + DecisionQueue(sh.tables, sh.id, results, order),
                processed := sh.processed + set i | 0 <= i < |order| :: order[i])
    decreases order
  {
    var marked := set i | 0 <= i < |order| :: order[i];
    if order == [] {
      assert sh.processed + marked == sh.processed;
      assert sh.queue + [] == sh.queue;
    } else {
      var t := order[0];
      var rest := order[1..];
      var sh1 := Decide(sh, t, results[t]);
      DecideAllEffect(sh1, results, rest);
      var later := set i | 0 <= i < |rest| :: rest[i];
      assert forall i :: 0 <= i < |rest| ==> rest[i] == order[i + 1];
      assert forall i :: 0 < i < |order| ==> order[i] == rest[i - 1];
      assert marked == {t} + later;
      assert sh.processed + marked == sh1.processed + later;
      var d := DecisionEntries(sh.tables, sh.id, t, results[t]);
      assert sh.queue + (d + DecisionQueue(sh.tables, sh.id, results, rest))
          == sh.queue + d + DecisionQueue(sh.tables, sh.id, results, rest);
    }
  }

  lemma {:induction false} CreditAllIds(t: TxId, credits: seq<Funds>)
    ensures forall e :: e in CreditAll(t, credits) ==> e.txId == t && e.txType.CrossCredit?
  {
    if credits != [] {
      CreditAllIds(t, credits[1..]);
    }
  }

  lemma EntriesIds(tb: Tables, s: int, t: TxId, committed: bool)
    ensures forall e :: e in DecisionEntries(tb, s, t, committed) ==> e.txId == t
    ensures forall e :: e in DecisionEntries(tb, s, t, committed) && IsWriteOp(e) ==> committed
  {
    if t in tb.credits { CreditAllIds(t, tb.credits[t]); }
  }

  lemma {:induction false} OfTxAll(txs: seq<Transaction>, t: TxId)
    ensures (forall e :: e in txs ==> e.txId == t) ==> OfTx(txs, t) == txs
    ensures (forall e :: e in txs ==> e.txId != t) ==> OfTx(txs, t) == []
  {
    if txs != [] {
      OfTxAll(txs[1..], t);
      assert forall e :: e in txs[1..] ==> e in txs;
    }
  }

  lemma {:induction false} DecisionQueueOfTx(tb: Tables, s: int, results: map<TxId, bool>, order: seq<TxId>, t: TxId)
    requires forall i :: 0 <= i < |order| ==> order[i] in results
    requires Distinct(order)
    ensures OfTx(DecisionQueue(tb, s, results, order), t)
         == if t in order then DecisionEntries(tb, s, t, results[t]) else []
  {
    if order != [] {
      var u := order[0];
      var d := DecisionEntries(tb, s, u, results[u]);
      DecisionQueueOfTx(tb, s, results, order[1..], t);
      OfTxConcat(d, DecisionQueue(tb, s, results, order[1..]), t);
      EntriesIds(tb, s, u, results[u]);
      OfTxAll(d, t);
      if t == u {
        assert t !in order[1..];
      }
    }
  }

  lemma {:induction false} DecisionQueueWrites(tb: Tables, s: int, results: map<TxId, bool>, order: seq<TxId>,
                                               e: Transaction)
    requires forall i :: 0 <= i < |order| ==> order[i] in results
    requires e in DecisionQueue(tb, s, results, order)
    ensures e.txId in order
    ensures IsWriteOp(e) ==> results[e.txId]
    ensures !e.txType.Local?
  {
    var u := order[0];
    if e in DecisionEntries(tb, s, u, results[u]) {
      EntriesIds(tb, s, u, results[u]);
      if u in tb.credits { CreditAllIds(u, tb.credits[u]); }
    } else {
      DecisionQueueWrites(tb, s, results, order[1..], e);
    }
  }

  // ---------------------------------------------------------------------------
  // Phase 2: new transactions
  // ---------------------------------------------------------------------------

  function LockQueue(txs: seq<CrossShardTx>, s: int): seq<Transaction> {
    if txs == [] then []
    else (if Involved(txs[0], s) then [LockTx(txs[0], s)] else []) + LockQueue(txs[1..], s)
  }

  lemma {:induction false} IntakeAllEffect(sh: Shard, txs: seq<CrossShardTx>)
    ensures var sh' := IntakeAll(sh, txs);
            sh' == sh.(tables := sh'.tables, queue := sh.queue + LockQueue(txs, sh.id))
    ensures var sh' := IntakeAll(sh, txs);
            sh'.tables == sh.tables.(credits := sh'.tables.credits, calls := sh'.tables.calls)
    decreases txs
  {
    if txs != [] {
      var sh1 := Intake(sh, txs[0]);
      IntakeAllEffect(sh1, txs[1..]);
      var l := if Involved(txs[0], sh.id) then [LockTx(txs[0], sh.id)] else [];
      assert sh1.queue == sh.queue + l;
      assert sh.queue + (l + LockQueue(txs[1..], sh.id)) == sh.queue + l + LockQueue(txs[1..], sh.id);
    } else {
      assert sh.queue + LockQueue(txs, sh.id) == sh.queue;
    }
  }

  ghost predicate DistinctIds(txs: seq<CrossShardTx>) {
    forall i, j :: 0 <= i < j < |txs| ==> txs[i].id != txs[j].id
  }

  /** Ids that are not in the list keep their entries. */
  lemma {:induction false} IntakeAllFrame(sh: Shard, txs: seq<CrossShardTx>, t: TxId)
    requires OrderIn(txs, t).None?
    ensures ViewOf(IntakeAll(sh, txs).tables, t) == ViewOf(sh.tables, t)
    ensures OfTx(LockQueue(txs, sh.id), t) == []
    decreases txs
  {
    if txs != [] {
      IntakeAllFrame(Intake(sh, txs[0]), txs[1..], t);
      OfTxConcat(if Involved(txs[0], sh.id) then [LockTx(txs[0], sh.id)] else [], LockQueue(txs[1..], sh.id), t);
    }
  }

  /** A new transaction that involves the shard leaves its credit, its call and one Lock. */
  lemma {:induction false} IntakeAllAt(sh: Shard, txs: seq<CrossShardTx>, t: TxId)
    requires DistinctIds(txs) && OrderIn(txs, t).Some?
    requires ViewOf(sh.tables, t) == NOTHING
    ensures var tx := OrderIn(txs, t).value;
            var v := ViewOf(IntakeAll(sh, txs).tables, t);
            if Involved(tx, sh.id)
            then v == NOTHING.(credits := CreditsFor(tx, sh.id), call := CallFor(tx, sh.id))
                && OfTx(LockQueue(txs, sh.id), t) == [LockTx(tx, sh.id)]
            else v == NOTHING && OfTx(LockQueue(txs, sh.id), t) == []
    decreases txs
  {
    OrderInFound(txs, t);
    var head := txs[0];
    var sh1 := Intake(sh, head);
    var l := if Involved(head, sh.id) then [LockTx(head, sh.id)] else [];
    OfTxConcat(l, LockQueue(txs[1..], sh.id), t);
    if head.id == t {
      OrderInFound(txs[1..], t);
      assert OrderIn(txs[1..], t).None? by {
        forall i | 0 <= i < |txs[1..]| ensures txs[1..][i].id != t { assert txs[1..][i] == txs[i + 1]; }
      }
      IntakeAllFrame(sh1, txs[1..], t);
      OfTxAll(l, t);
      IntakeView(sh, head);
    } else {
      IntakeFrame(sh, head, t);
      IntakeAllAt(sh1, txs[1..], t);
      OfTxAll(l, t);
    }
  }

  lemma IntakeView(sh: Shard, tx: CrossShardTx)
    requires ViewOf(sh.tables, tx.id) == NOTHING
    ensures ViewOf(Intake(sh, tx).tables, tx.id)
         == if Involved(tx, sh.id) then NOTHING.(credits := CreditsFor(tx, sh.id),
             call := CallFor(tx, sh.id)) else NOTHING
  {
    var f := Funds(tx.to, tx.value);
    assert tx.id !in sh.tables.credits && tx.id !in sh.tables.calls;
    assert AddCredit(sh.tables.credits, tx.id, f)[tx.id] == [f];
  }

  lemma IntakeFrame(sh: Shard, tx: CrossShardTx, t: TxId)
    requires t != tx.id
    ensures ViewOf(Intake(sh, tx).tables, t) == ViewOf(sh.tables, t)
  {
  }

  lemma {:induction false} LockQueueMember(txs: seq<CrossShardTx>, s: int, e: Transaction)
    requires e in LockQueue(txs, s)
    ensures e.txType.Lock? && exists i :: 0 <= i < |txs| && txs[i].id == e.txId
  {
    if e in LockQueue(txs[1..], s) {
      LockQueueMember(txs[1..], s, e);
      var i :| 0 <= i < |txs[1..]| && txs[1..][i].id == e.txId;
      assert txs[i + 1].id == e.txId;
    } else {
      assert txs[0].id == e.txId;
    }
  }

  lemma {:induction false} LockQueueWrites(txs: seq<CrossShardTx>, s: int)
    ensures WriteOps(LockQueue(txs, s)) == []
  {
    if txs != [] {
      LockQueueWrites(txs[1..], s);
      WriteOpsConcat(if Involved(txs[0], s) then [LockTx(txs[0], s)] else [], LockQueue(txs[1..], s));
    }
  }

  // ---------------------------------------------------------------------------
  // Short queues in priority order
  // ---------------------------------------------------------------------------

  lemma ByPrioritySmall(txs: seq<Transaction>)
    ensures ByPriority(txs) == [] ==> txs == []
    ensures |ByPriority(txs)| == |txs|
    ensures |txs| == 1 ==> ByPriority(txs) == txs
  {
    ByPriorityPermutes(txs);
    assert |multiset(ByPriority(txs))| == |ByPriority(txs)| && |multiset(txs)| == |txs|;
    if |txs| == 1 {
      assert txs == [txs[0]] && txs[1..] == [];
    }
  }

  lemma {:induction false} OfPriorityAll(txs: seq<Transaction>, p: nat, q: nat)
    requires forall e :: e in txs ==> e.txType.Priority() == p
    ensures OfPriority(txs, q) == if p == q then txs else []
  {
    if txs != [] {
      assert forall e :: e in txs[1..] ==> e in txs;
      OfPriorityAll(txs[1..], p, q);
    }
  }

  lemma CommitSorted(ops: seq<Transaction>, t: TxId)
    requires forall e :: e in ops ==> e.txType.Priority() == 1
    ensures ByPriority(ops + [Typed(Unlock, t)]) == ops + [Typed(Unlock, t)]
  {
    var u := [Typed(Unlock, t)];
    assert u[1..] == [];
    OfPriorityConcat(ops, u, 1);
    OfPriorityConcat(ops, u, 2);
    OfPriorityConcat(ops, u, 3);
    OfPriorityConcat(ops, u, 4);
    OfPriorityConcat(ops, u, 5);
    OfPriorityAll(ops, 1, 1);
    OfPriorityAll(ops, 1, 2);
    OfPriorityAll(ops, 1, 3);
    OfPriorityAll(ops, 1, 4);
    OfPriorityAll(ops, 1, 5);
  }

  /** Among sorted entries at most one is a Lock if that was so before. */
  lemma OneLockSorted(txs: seq<Transaction>)
    requires |OfPriority(txs, 3)| <= 1
    ensures forall i, j :: 0 <= i < j < |ByPriority(txs)| && ByPriority(txs)[i].txType.Lock? ==>
        !ByPriority(txs)[j].txType.Lock?
  {
    var s := ByPriority(txs);
    ByPriorityKeepsClasses(txs, 3);
    forall i, j | 0 <= i < j < |s| && s[i].txType.Lock? ensures !s[j].txType.Lock? {
      assert s == s[..i] + [s[i]] + s[i + 1..j] + [s[j]] + s[j + 1..];
      OfPriorityConcat(s[..i] + [s[i]] + s[i + 1..j] + [s[j]], s[j + 1..], 3);
      OfPriorityConcat(s[..i] + [s[i]] + s[i + 1..j], [s[j]], 3);
      OfPriorityConcat(s[..i] + [s[i]], s[i + 1..j], 3);
      OfPriorityConcat(s[..i], [s[i]], 3);
    }
  }

  // ---------------------------------------------------------------------------
  // One transaction's phase across the intake
  // ---------------------------------------------------------------------------

  /** This shard has voted YES on everything block b commits here. */
  ghost predicate Causal(sh: Shard, hist: seq<OrchestratorBlock>, b: OrchestratorBlock) {
    forall t :: t in b.tpcResult && b.tpcResult[t] && OrderOf(hist, t).Some?
                && Involved(OrderOf(hist, t).value, sh.id) ==>
      VoteOf(sh.blocks, t) == Some(true)
  }

  lemma ExtendHistory(hist: seq<OrchestratorBlock>, b: OrchestratorBlock, t: TxId)
    ensures (hist + [b])[..|hist|] == hist
    ensures OrderOf(hist + [b], t) == if OrderIn(b.ctToOrder, t).Some? then OrderIn(b.ctToOrder,
        t) else OrderOf(hist, t)
    ensures DecisionOf(hist + [b], t) == if t in b.tpcResult then Some(b.tpcResult[t]) else DecisionOf(hist, t)
    ensures DecidedAt(hist + [b], t) == if t in b.tpcResult then |hist| else DecidedAt(hist, t)
  {
    assert (hist + [b])[..|hist|] == hist;
  }

  /** A decision for t arrives; `mine` are t's entries already queued. */
  lemma DecisionPhase(c: Ctx, tb: Tables, st: map<SlotKey, Word>, mine: seq<Transaction>, log: seq<Transaction>,
                      b: OrchestratorBlock, t: TxId)
    requires tb.prepares == map[] && t != EMPTY_ID
    requires Phase(c, ViewOf(tb, t), st, ByPriority(mine), log, t)
    requires Follows(c.hist, b) && t in b.tpcResult
    requires b.tpcResult[t] && Involved(OrderOf(c.hist, t).value, c.s) ==> VoteOf(c.blocks, t) == Some(true)
    ensures Phase(c.(hist := c.hist + [b]), ViewOf(tb, t), st,
        ByPriority(mine + DecisionEntries(tb, c.s, t, b.tpcResult[t])), log, t)
  {
    var v, tx := ViewOf(tb, t), OrderOf(c.hist, t).value;
    var d := DecisionEntries(tb, c.s, t, b.tpcResult[t]);
    ExtendHistory(c.hist, b, t);
    OrderHasId(c.hist, t);
    assert OrderIn(b.ctToOrder, t).None? by { OrderInFound(b.ctToOrder, t); }
    if !Involved(tx, c.s) {
      assert d == [Typed(Unlock, t)];
      SortedUnlocks(mine, t);
    } else if b.tpcResult[t] {
      ByPrioritySmall(mine);
      assert mine + d == d;
      CommitPhase(c.(hist := c.hist + [b]), tb, st, log, tx);
    } else {
      AbortPhase(c, tb, st, mine, log, tx);
    }
  }

  lemma SortedUnlocks(mine: seq<Transaction>, t: TxId)
    requires forall i :: 0 <= i < |ByPriority(mine)| ==> ByPriority(mine)[i] == Typed(Unlock, t)
    ensures var q := ByPriority(mine + [Typed(Unlock, t)]);
            forall i :: 0 <= i < |q| ==> q[i] == Typed(Unlock, t)
  {
    var q := ByPriority(mine + [Typed(Unlock, t)]);
    forall i | 0 <= i < |q| ensures q[i] == Typed(Unlock, t) {
      ByPriorityMember(mine + [Typed(Unlock, t)], q[i]);
      ByPriorityMember(mine, q[i]);
    }
  }

  /** A committed transaction that is held queues exactly its commit operations. */
  lemma HeldCommit(tb: Tables, tx: CrossShardTx, s: int)
    requires Holding(ViewOf(tb, tx.id), tx, s)
    ensures CommitEntries(tb, s, tx.id) == Ops(tx, s)
    ensures forall e :: e in Ops(tx, s) ==> e.txType.Priority() == 1
  {
    forall e | e in Ops(tx, s) ensures e.txType.Priority() == 1 {
      var i :| 0 <= i < |Ops(tx, s)| && Ops(tx, s)[i] == e;
      OpsShape(tx, s, Ops(tx, s), i);
    }
    assert CommitEntries(tb, s, tx.id) == DebitOps(tx, s) + OtherOps(tx, s);
  }

  lemma CommitPhase(c: Ctx, tb: Tables, st: map<SlotKey, Word>, log: seq<Transaction>, tx: CrossShardTx)
    requires tb.prepares == map[] && VoteOf(c.blocks, tx.id) == Some(true)
    requires OrderOf(c.hist, tx.id) == Some(tx) && Involved(tx, c.s) && DecisionOf(c.hist, tx.id) == Some(true)
    requires Holding(ViewOf(tb, tx.id), tx, c.s) && LockTx(tx, c.s) in log && CommitOps(log, tx.id) == []
    requires c.framed ==> ReadsMatch(st, LocalRwSet(tx.rwSet, c.s))
    ensures Phase(c, ViewOf(tb, tx.id), st, ByPriority(DecisionEntries(tb, c.s, tx.id, true)), log, tx.id)
  {
    var rest := DecisionEntries(tb, c.s, tx.id, true);
    HeldCommit(tb, tx, c.s);
    CommitSorted(Ops(tx, c.s), tx.id);
    var n := |rest| - 1;
    assert rest[..n] == Ops(tx, c.s);
    assert CommitOps(log, tx.id) + rest[..n] == Ops(tx, c.s);
    assert Committing(c, ViewOf(tb, tx.id), st, rest, log, tx);
  }

  lemma AbortPhase(c: Ctx, tb: Tables, st: map<SlotKey, Word>, mine: seq<Transaction>, log: seq<Transaction>,
                   tx: CrossShardTx)
    requires tb.prepares == map[]
    requires Undecided(c, ViewOf(tb, tx.id), st, ByPriority(mine), VoteOf(c.blocks, tx.id), log, tx)
    ensures Aborted(c, ViewOf(tb, tx.id), ByPriority(mine + DecisionEntries(tb, c.s, tx.id, false)),
        VoteOf(c.blocks, tx.id), log, tx)
  {
    var d := DecisionEntries(tb, c.s, tx.id, false);
    var q := ByPriority(mine + d);
    ByPrioritySmall(mine);
    forall e ensures e in q ==> e in mine || e in d {
      ByPriorityMember(mine + d, e);
    }
    OfPriorityConcat(mine, d, 3);
    OfPriorityConcat(AbortEntries(tb, tx.id), [Typed(Unlock, tx.id)], 3);
    assert OfPriority(d, 3) == [];
    OneLockSorted(mine + d);
    forall i | 0 <= i < |q| ensures q[i] == Typed(Unlock, tx.id) || q[i] == Typed(CrossAbort, tx.id)
        || q[i] == LockTx(tx, c.s) {
      assert q[i] in q;
    }
    if i :| 0 <= i < |q| && q[i].txType.Lock? {
      assert q[i] in q;
    }
  }

  /** The block neither orders nor decides t. */
  lemma SamePhase(c: Ctx, v: View, st: map<SlotKey, Word>, rest: seq<Transaction>, log: seq<Transaction>,
                  b: OrchestratorBlock, t: TxId)
    requires Phase(c, v, st, rest, log, t)
    requires OrderIn(b.ctToOrder, t).None? && t !in b.tpcResult
    ensures Phase(c.(hist := c.hist + [b]), v, st, rest, log, t)
  {
    ExtendHistory(c.hist, b, t);
  }

  /** The block orders t. */
  lemma OrderPhase(c: Ctx, v: View, st: map<SlotKey, Word>, log: seq<Transaction>, b: OrchestratorBlock, t: TxId,
                   v': View)
    requires Phase(c, v, st, [], log, t) && OrderOf(c.hist, t).None? && DecisionOf(c.hist, t).None?
    requires OrderIn(b.ctToOrder, t).Some? && t !in b.tpcResult
    requires var tx := OrderIn(b.ctToOrder, t).value;
             v' == if Involved(tx, c.s) then NOTHING.(credits := CreditsFor(tx, c.s),
                 call := CallFor(tx, c.s)) else NOTHING
    ensures var tx := OrderIn(b.ctToOrder, t).value;
            Phase(c.(hist := c.hist + [b]), v', st, if Involved(tx, c.s) then [LockTx(tx, c.s)] else [], log, t)
  {
    ExtendHistory(c.hist, b, t);
    OrderInFound(b.ctToOrder, t);
  }

  // ---------------------------------------------------------------------------
  // The whole intake
  // ---------------------------------------------------------------------------

  /** A block that can be taken in next. */
  ghost predicate CanProcess(call: Call, init: World, sh: Shard, hist: seq<OrchestratorBlock>, safe: bool, framed: bool,
                             b: OrchestratorBlock, order: seq<TxId>)
  {
    && ShardInv(call, init, sh, hist, safe, framed)
    && Follows(hist, b)
    && Causal(sh, hist, b)
    && Enumerates(order, b.tpcResult.Keys)
    && (framed ==> forall i :: 0 <= i < |b.ctToOrder| ==> WritesRead(b.ctToOrder[i]))
  }

  /** sh' is sh after the intake of b. */
  ghost predicate TakenIn(sh: Shard, sh': Shard, b: OrchestratorBlock, order: seq<TxId>)
    requires forall i :: 0 <= i < |order| ==> order[i] in b.tpcResult
  {
    && sh'.queue == sh.queue + DecisionQueue(sh.tables, sh.id, b.tpcResult, order) + LockQueue(b.ctToOrder, sh.id)
    && sh'.tables == IntakeAll(sh.(queue := sh'.queue, processed := sh'.processed), b.ctToOrder).tables
    && sh'.tables == sh.tables.(credits := sh'.tables.credits, calls := sh'.tables.calls)
    && sh'.lastHeight == b.height && sh'.id == sh.id && sh'.world == sh.world && sh'.blocks == sh.blocks
    && (forall t :: t in sh'.processed <==> t in sh.processed || t in b.tpcResult)
  }

  /** The decisions are new to the shard, so each is queued. */
  lemma ProcessEffect(call: Call, init: World, sh: Shard, hist: seq<OrchestratorBlock>, safe: bool, framed: bool,
                      b: OrchestratorBlock, order: seq<TxId>)
    requires CanProcess(call, init, sh, hist, safe, framed, b, order)
    ensures forall i :: 0 <= i < |order| ==> order[i] in b.tpcResult
    ensures TakenIn(sh, Process(sh, b, order), b, order)
  {
    assert forall i :: 0 <= i < |order| ==> order[i] in order;
    DecideAllEffect(sh, b.tpcResult, order);
    var sh1 := DecideAll(sh, b.tpcResult, order);
    IntakeAllEffect(sh1, b.ctToOrder);
    var sh' := Process(sh, b, order);
    IntakeTables(sh1, sh.(queue := sh'.queue, processed := sh'.processed), b.ctToOrder);
  }

  /** What the intake does to the tables depends on nothing but the tables. */
  lemma {:induction false} IntakeTables(sh: Shard, sh': Shard, txs: seq<CrossShardTx>)
    requires sh.tables == sh'.tables && sh.id == sh'.id
    ensures IntakeAll(sh, txs).tables == IntakeAll(sh', txs).tables
    decreases txs
  {
    if txs != [] {
      IntakeTables(Intake(sh, txs[0]), Intake(sh', txs[0]), txs[1..]);
    }
  }

  lemma QueueOfTx(sh: Shard, b: OrchestratorBlock, order: seq<TxId>, t: TxId)
    requires Enumerates(order, b.tpcResult.Keys)
    requires forall i :: 0 <= i < |order| ==> order[i] in b.tpcResult
    ensures var q := sh.queue + DecisionQueue(sh.tables, sh.id, b.tpcResult, order) + LockQueue(b.ctToOrder, sh.id);
            OfTx(ByPriority(q), t)
            == ByPriority(OfTx(sh.queue, t)
                          + (if t in b.tpcResult then DecisionEntries(sh.tables, sh.id, t, b.tpcResult[t]) else [])
                          + OfTx(LockQueue(b.ctToOrder, sh.id), t))
  {
    var d, l := DecisionQueue(sh.tables, sh.id, b.tpcResult, order), LockQueue(b.ctToOrder, sh.id);
    OfTxByPriority(sh.queue + d + l, t);
    OfTxConcat(sh.queue + d, l, t);
    OfTxConcat(sh.queue, d, t);
    DecisionQueueOfTx(sh.tables, sh.id, b.tpcResult, order, t);
  }

  /** Phases before and after the intake, for a transaction of either chain. */
  ghost predicate PhaseKept(call: Call, init: World, sh': Shard, hist': seq<OrchestratorBlock>, safe: bool,
                            framed: bool, t: TxId) {
    PhaseAt(CtxOf(call, init, sh', hist', safe, framed), Boundary(sh'), ByPriority(sh'.queue), t)
  }

  lemma PhaseBefore(call: Call, init: World, sh: Shard, hist: seq<OrchestratorBlock>, safe: bool, framed: bool, t: TxId)
    requires ShardInv(call, init, sh, hist, safe, framed) && t != EMPTY_ID
    ensures var c := CtxOf(call, init, sh, hist, safe, framed);
            Phase(c, ViewOf(sh.tables, t), sh.world.storage, ByPriority(OfTx(sh.queue, t)), FullLog(c, Boundary(sh)), t)
  {
    assert PhaseAt(CtxOf(call, init, sh, hist, safe, framed), Boundary(sh), ByPriority(sh.queue), t);
    OfTxByPriority(sh.queue, t);
  }

  lemma PhaseOrdered(call: Call, init: World, sh: Shard, hist: seq<OrchestratorBlock>, safe: bool, framed: bool,
                     b: OrchestratorBlock, order: seq<TxId>, sh': Shard, t: TxId)
    requires CanProcess(call, init, sh, hist, safe, framed, b, order) && t != EMPTY_ID
    requires forall i :: 0 <= i < |order| ==> order[i] in b.tpcResult
    requires TakenIn(sh, sh', b, order) && OrderIn(b.ctToOrder, t).Some?
    ensures PhaseKept(call, init, sh', hist + [b], safe, framed, t)
  {
    var c := CtxOf(call, init, sh, hist, safe, framed);
    var v, st, log, mine := ViewOf(sh.tables, t), sh.world.storage, FullLog(c, Boundary(sh)), OfTx(sh.queue, t);
    PhaseBefore(call, init, sh, hist, safe, framed, t);
    QueueOfTx(sh, b, order, t);
    OrderInFound(b.ctToOrder, t);
    assert OrderOf(hist, t).None? && t !in b.tpcResult;
    assert DecisionOf(hist, t).None? by { if DecisionOf(hist, t).Some? { DecidedWasOrdered(hist, t); } }
    ByPrioritySmall(mine);
    IntakeAllAt(sh.(queue := sh'.queue, processed := sh'.processed), b.ctToOrder, t);
    var l := OfTx(LockQueue(b.ctToOrder, sh.id), t);
    assert mine + [] + l == l;
    ByPrioritySmall(l);
    OrderPhase(c, v, st, log, b, t, ViewOf(sh'.tables, t));
  }

  lemma PhaseDecided(call: Call, init: World, sh: Shard, hist: seq<OrchestratorBlock>, safe: bool, framed: bool,
                     b: OrchestratorBlock, order: seq<TxId>, sh': Shard, t: TxId)
    requires CanProcess(call, init, sh, hist, safe, framed, b, order) && t != EMPTY_ID
    requires forall i :: 0 <= i < |order| ==> order[i] in b.tpcResult
    requires TakenIn(sh, sh', b, order) && OrderIn(b.ctToOrder, t).None? && t in b.tpcResult
    ensures PhaseKept(call, init, sh', hist + [b], safe, framed, t)
  {
    var c := CtxOf(call, init, sh, hist, safe, framed);
    var mine, d := OfTx(sh.queue, t), DecisionEntries(sh.tables, sh.id, t, b.tpcResult[t]);
    PhaseBefore(call, init, sh, hist, safe, framed, t);
    QueueOfTx(sh, b, order, t);
    IntakeAllFrame(sh.(queue := sh'.queue, processed := sh'.processed), b.ctToOrder, t);
    assert mine + d + [] == mine + d;
    DecisionPhase(c, sh.tables, sh.world.storage, mine, FullLog(c, Boundary(sh)), b, t);
  }

  lemma PhaseUntouched(call: Call, init: World, sh: Shard, hist: seq<OrchestratorBlock>, safe: bool, framed: bool,
                       b: OrchestratorBlock, order: seq<TxId>, sh': Shard, t: TxId)
    requires CanProcess(call, init, sh, hist, safe, framed, b, order) && t != EMPTY_ID
    requires forall i :: 0 <= i < |order| ==> order[i] in b.tpcResult
    requires TakenIn(sh, sh', b, order) && OrderIn(b.ctToOrder, t).None? && t !in b.tpcResult
    ensures PhaseKept(call, init, sh', hist + [b], safe, framed, t)
  {
    var c := CtxOf(call, init, sh, hist, safe, framed);
    var mine := OfTx(sh.queue, t);
    PhaseBefore(call, init, sh, hist, safe, framed, t);
    QueueOfTx(sh, b, order, t);
    IntakeAllFrame(sh.(queue := sh'.queue, processed := sh'.processed), b.ctToOrder, t);
    assert mine + [] + [] == mine;
    SamePhase(c, ViewOf(sh.tables, t), sh.world.storage, ByPriority(mine), FullLog(c, Boundary(sh)), b, t);
  }

  lemma ProcessPhase(call: Call, init: World, sh: Shard, hist: seq<OrchestratorBlock>, safe: bool, framed: bool,
                     b: OrchestratorBlock, order: seq<TxId>, sh': Shard, t: TxId)
    requires CanProcess(call, init, sh, hist, safe, framed, b, order) && t != EMPTY_ID
    requires forall i :: 0 <= i < |order| ==> order[i] in b.tpcResult
    requires TakenIn(sh, sh', b, order)
    ensures PhaseKept(call, init, sh', hist + [b], safe, framed, t)
  {
    if OrderIn(b.ctToOrder, t).Some? {
      PhaseOrdered(call, init, sh, hist, safe, framed, b, order, sh', t);
    } else if t in b.tpcResult {
      PhaseDecided(call, init, sh, hist, safe, framed, b, order, sh', t);
    } else {
      PhaseUntouched(call, init, sh, hist, safe, framed, b, order, sh', t);
    }
  }

  // ---------------------------------------------------------------------------
  // The order and the disjointness of commits
  // ---------------------------------------------------------------------------

  lemma QueueStaysOK(sh: Shard, b: OrchestratorBlock, order: seq<TxId>, q: seq<Transaction>)
    requires forall i :: 0 <= i < |order| ==> order[i] in b.tpcResult
    requires EMPTY_ID !in b.tpcResult && forall i :: 0 <= i < |b.ctToOrder| ==> b.ctToOrder[i].id != EMPTY_ID
    requires QueueOK(ByPriority(sh.queue))
    requires q == sh.queue + DecisionQueue(sh.tables, sh.id, b.tpcResult, order) + LockQueue(b.ctToOrder, sh.id)
    ensures QueueOK(ByPriority(q))
  {
    var d, l := DecisionQueue(sh.tables, sh.id, b.tpcResult, order), LockQueue(b.ctToOrder, sh.id);
    forall i | 0 <= i < |ByPriority(q)| ensures ByPriority(q)[i].txType.Local? <==> ByPriority(q)[i].txId == EMPTY_ID {
      var e := ByPriority(q)[i];
      ByPriorityMember(q, e);
      if e in sh.queue {
        ByPriorityMember(sh.queue, e);
      } else if e in d {
        DecisionQueueWrites(sh.tables, sh.id, b.tpcResult, order, e);
      } else {
        LockQueueMember(b.ctToOrder, sh.id, e);
      }
    }
  }

  lemma OrderKept(hist: seq<OrchestratorBlock>, b: OrchestratorBlock, ops: seq<Transaction>, added: seq<Transaction>)
    requires WellFormed(hist) && Follows(hist, b) && InDecisionOrder(hist, ops)
    requires forall i :: 0 <= i < |added| ==> added[i].txId in b.tpcResult && b.tpcResult[added[i].txId]
    ensures InDecisionOrder(hist + [b], ops + added)
  {
    var all, hist' := ops + added, hist + [b];
    forall i | 0 <= i < |all|
      ensures DecisionOf(hist', all[i].txId) == Some(true)
      ensures DecidedAt(hist', all[i].txId) <= |hist|
      ensures i < |ops| ==> DecidedAt(hist', all[i].txId) == DecidedAt(hist, ops[i].txId)
      ensures i >= |ops| ==> DecidedAt(hist', all[i].txId) == |hist|
    {
      ExtendHistory(hist, b, all[i].txId);
      if i < |ops| {
        assert DecisionOf(hist, ops[i].txId) == Some(true);
        DecidedAtInRange(hist, ops[i].txId);
      } else {
        assert all[i] == added[i - |ops|];
      }
    }
  }

  lemma DecisionWrites(tb: Tables, s: int, results: map<TxId, bool>, order: seq<TxId>)
    requires forall i :: 0 <= i < |order| ==> order[i] in results
    ensures var added := WriteOps(DecisionQueue(tb, s, results, order));
            forall i :: 0 <= i < |added| ==> added[i].txId in results && results[added[i].txId]
  {
    var d := DecisionQueue(tb, s, results, order);
    var added := WriteOps(d);
    forall i | 0 <= i < |added| ensures added[i].txId in results && results[added[i].txId] {
      WriteOpsMember(d, added[i]);
      DecisionQueueWrites(tb, s, results, order, added[i]);
    }
  }

  lemma QueueWrites(sh: Shard, b: OrchestratorBlock, d: seq<Transaction>)
    ensures WriteOps(sh.queue + d + LockQueue(b.ctToOrder, sh.id)) == WriteOps(sh.queue) + WriteOps(d)
  {
    WriteOpsConcat(sh.queue + d, LockQueue(b.ctToOrder, sh.id));
    WriteOpsConcat(sh.queue, d);
    LockQueueWrites(b.ctToOrder, sh.id);
  }

  lemma WritesStayOrdered(hist: seq<OrchestratorBlock>, b: OrchestratorBlock, done: seq<Transaction>,
                          queued: seq<Transaction>,
                          added: seq<Transaction>, queued': seq<Transaction>)
    requires WellFormed(hist) && Follows(hist, b)
    requires InDecisionOrder(hist, done + queued) && queued' == queued + added
    requires forall i :: 0 <= i < |added| ==> added[i].txId in b.tpcResult && b.tpcResult[added[i].txId]
    ensures InDecisionOrder(hist + [b], done + queued')
  {
    OrderKept(hist, b, done + queued, added);
    assert done + queued' == (done + queued) + added;
  }

  /** A transaction committed here by the new block holds its read slots. */
  lemma CommitHolds(call: Call, init: World, sh: Shard, hist: seq<OrchestratorBlock>, safe: bool, framed: bool,
                    b: OrchestratorBlock, t: TxId)
    requires ShardInv(call, init, sh, hist, safe, framed) && Follows(hist, b) && Causal(sh, hist, b)
    requires t in b.tpcResult && CommitsOn(hist + [b], sh.id, t)
    ensures OrderOf(hist, t) == OrderOf(hist + [b], t) && OrderOf(hist, t).Some?
    ensures SlotsHeld(sh.tables.slots, t) == LocalReads(hist + [b], sh.id, t)
  {
    ExtendHistory(hist, b, t);
    OrderInFound(b.ctToOrder, t);
    NoEmptyId(hist);
    PhaseBefore(call, init, sh, hist, safe, framed, t);
  }

  lemma CommitsStayDisjoint(call: Call, init: World, sh: Shard, hist: seq<OrchestratorBlock>, safe: bool,
                            framed: bool, b: OrchestratorBlock)
    requires ShardInv(call, init, sh, hist, safe, framed) && Follows(hist, b) && Causal(sh, hist, b)
    ensures DisjointCommits(hist + [b], sh.id)
  {
    var hist', s := hist + [b], sh.id;
    forall t, u | t != u && CommitsOn(hist', s, t) && CommitsOn(hist', s, u)
        && DecidedAt(hist', t) == DecidedAt(hist', u)
      ensures LocalReads(hist', s, t) !! LocalReads(hist', s, u)
    {
      ExtendHistory(hist, b, t);
      ExtendHistory(hist, b, u);
      if t in b.tpcResult && u in b.tpcResult {
        CommitHolds(call, init, sh, hist, safe, framed, b, t);
        CommitHolds(call, init, sh, hist, safe, framed, b, u);
      } else {
        EarlierCommits(hist, b, t, u);
        assert CommitsOn(hist, s, t) && CommitsOn(hist, s, u);
      }
    }
  }

  /** Two decisions of one block, not both of the new block b, are both older. */
  lemma EarlierCommits(hist: seq<OrchestratorBlock>, b: OrchestratorBlock, t: TxId, u: TxId)
    requires WellFormed(hist) && Follows(hist, b) && !(t in b.tpcResult && u in b.tpcResult)
    requires DecisionOf(hist + [b], t).Some? && DecisionOf(hist + [b], u).Some?
    requires DecidedAt(hist + [b], t) == DecidedAt(hist + [b], u)
    ensures t !in b.tpcResult && u !in b.tpcResult
    ensures OrderOf(hist + [b], t) == OrderOf(hist, t) && OrderOf(hist + [b], u) == OrderOf(hist, u)
    ensures DecisionOf(hist, t).Some? && DecisionOf(hist, u).Some?
  {
    ExtendHistory(hist, b, t);
    ExtendHistory(hist, b, u);
    if DecisionOf(hist, t).Some? { DecidedAtInRange(hist, t); DecidedWasOrdered(hist, t); }
    if DecisionOf(hist, u).Some? { DecidedAtInRange(hist, u); DecidedWasOrdered(hist, u); }
    OrderInFound(b.ctToOrder, t);
    OrderInFound(b.ctToOrder, u);
  }

  lemma CtxExtends(c: Ctx, b: OrchestratorBlock)
    requires CtxOK(c) && Follows(c.hist, b)
    requires c.framed ==> forall i :: 0 <= i < |b.ctToOrder| ==> WritesRead(b.ctToOrder[i])
    ensures CtxOK(c.(hist := c.hist + [b]))
  {
    var hist' := c.hist + [b];
    assert hist'[..|hist'| - 1] == c.hist;
    forall t | c.framed && OrderOf(hist', t).Some? ensures WritesRead(OrderOf(hist', t).value) {
      ExtendHistory(c.hist, b, t);
      OrderInFound(b.ctToOrder, t);
    }
  }

  /** Taking in the next orchestrator block keeps the shard invariant. */
  lemma ProcessInv(call: Call, init: World, sh: Shard, hist: seq<OrchestratorBlock>, safe: bool, framed: bool,
                   b: OrchestratorBlock, order: seq<TxId>)
    requires CanProcess(call, init, sh, hist, safe, framed, b, order)
    ensures forall i :: 0 <= i < |order| ==> order[i] in b.tpcResult
    ensures ShardInv(call, init, Process(sh, b, order), hist + [b], safe, framed)
  {
    ProcessEffect(call, init, sh, hist, safe, framed, b, order);
    TakenInInv(call, init, sh, hist, safe, framed, b, order, Process(sh, b, order));
  }

  lemma TakenInInv(call: Call, init: World, sh: Shard, hist: seq<OrchestratorBlock>, safe: bool, framed: bool,
                   b: OrchestratorBlock, order: seq<TxId>, sh': Shard)
    requires CanProcess(call, init, sh, hist, safe, framed, b, order)
    requires forall i :: 0 <= i < |order| ==> order[i] in b.tpcResult
    requires TakenIn(sh, sh', b, order)
    ensures ShardInv(call, init, sh', hist + [b], safe, framed)
  {
    var c, c' := CtxOf(call, init, sh, hist, safe, framed), CtxOf(call, init, sh', hist + [b], safe, framed);
    CtxExtends(c, b);
    NoEmptyId(hist);
    QueueStaysOK(sh, b, order, sh'.queue);
    forall t | t != EMPTY_ID ensures PhaseAt(c', Boundary(sh'), ByPriority(sh'.queue), t) {
      ProcessPhase(call, init, sh, hist, safe, framed, b, order, sh', t);
    }
    assert FullLog(c', Boundary(sh')) == FullLog(c, Boundary(sh));
    var d := DecisionQueue(sh.tables, sh.id, b.tpcResult, order);
    QueueWrites(sh, b, d);
    DecisionWrites(sh.tables, sh.id, b.tpcResult, order);
    WritesStayOrdered(hist, b, WriteOps(LogOf(sh.blocks)), WriteOps(sh.queue), WriteOps(d), WriteOps(sh'.queue));
    CommitsStayDisjoint(call, init, sh, hist, safe, framed, b);
    forall t ensures t in sh'.processed <==> DecisionOf(hist + [b], t).Some? { ExtendHistory(hist, b, t); }
  }
}
