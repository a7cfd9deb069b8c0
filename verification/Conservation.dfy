/** Conservation of value: what leaves one shard arrives on another, exactly once. */
module Conservation {
  import opened Protocol
  import opened EvmState
  import opened ShardSpec
  import opened History
  import opened ShardInvariant
  import opened ShardSteps
  import opened Network
  import opened AtomicCommitment

  /** The money a cross-shard operation brings to its shard. */
  function Flow(e: Transaction): int {
    if e.txType.CrossDebit? then -e.value else if e.txType.CrossCredit? then e.value else 0
  }

  function FlowOf(txs: seq<Transaction>): int {
    if txs == [] then 0 else Flow(txs[0]) + FlowOf(txs[1..])
  }

  lemma {:induction false} FlowConcat(xs: seq<Transaction>, ys: seq<Transaction>)
    ensures FlowOf(xs + ys) == FlowOf(xs) + FlowOf(ys)
  {
    if xs == [] {
      assert xs + ys == ys;
    } else {
      assert (xs + ys)[1..] == xs[1..] + ys;
      FlowConcat(xs[1..], ys);
    }
  }

  /** Contract calls move money but neither create nor destroy it. */
  ghost predicate CallConserves(call: Call) {
    forall tx, w :: call(tx, w).Some? ==> Total(call(tx, w).value) == Total(w)
  }

  lemma ExecuteTotal(call: Call, w: World, e: Transaction)
    requires CallConserves(call) && ExecuteTx(call, w, e).Some?
    ensures Total(ExecuteTx(call, w, e).value) == Total(w) + Flow(e)
  {
    match e.txType {
      case Local => if e.data == [] { TransferTotal(w, e.from, e.to, e.value); }
      case CrossDebit => AddBalanceTotal(w, e.from, -e.value);
      case CrossCredit => AddBalanceTotal(w, e.to, e.value);
      case _ =>
    }
  }

  /** A shard's money is its initial money plus the net flow of what it executed. */
  lemma {:induction false} ReplayTotal(call: Call, init: World, log: seq<Transaction>)
    requires CallConserves(call) && Replay(call, init, log).Some?
    ensures Total(Replay(call, init, log).value) == Total(init) + FlowOf(log)
  {
    if log != [] {
      var n := |log| - 1;
      ReplayTotal(call, init, log[..n]);
      ExecuteTotal(call, Replay(call, init, log[..n]).value, log[n]);
      assert log == log[..n] + [log[n]];
      FlowConcat(log[..n], [log[n]]);
      assert [log[n]][1..] == [];
    }
  }

  // ---------------------------------------------------------------------------
  // Grouping a log by transaction
  // ---------------------------------------------------------------------------

  function FlowByTx(log: seq<Transaction>, ids: seq<TxId>): int {
    if ids == [] then 0 else FlowOf(CommitOps(log, ids[0])) + FlowByTx(log, ids[1..])
  }

  lemma {:induction false} FlowByTxHead(e: Transaction, log: seq<Transaction>, ids: seq<TxId>)
    requires Distinct(ids)
    ensures FlowByTx([e] + log, ids) == FlowByTx(log, ids) + if IsCommitOp(e) && e.txId in ids then Flow(e) else 0
    decreases ids
  {
    if ids != [] {
      var t := ids[0];
      assert ([e] + log)[1..] == log;
      FlowByTxHead(e, log, ids[1..]);
      if IsCommitOp(e) && e.txId == t {
        assert e.txId !in ids[1..];
        assert CommitOps([e] + log, t) == [e] + CommitOps(log, t);
        FlowConcat([e], CommitOps(log, t));
        assert [e][1..] == [];
      }
    }
  }

  /** If every commit operation belongs to one of the ids, the log's flow is the sum
      over the ids. */
  lemma {:induction false} FlowGrouped(log: seq<Transaction>, ids: seq<TxId>)
    requires Distinct(ids)
    requires forall i :: 0 <= i < |log| && IsCommitOp(log[i]) ==> log[i].txId in ids
    ensures FlowOf(log) == FlowByTx(log, ids)
    decreases log
  {
    if log == [] {
      NoFlow(ids);
    } else {
      FlowGrouped(log[1..], ids);
      FlowByTxHead(log[0], log[1..], ids);
      assert [log[0]] + log[1..] == log;
    }
  }

  lemma {:induction false} NoFlow(ids: seq<TxId>)
    ensures FlowByTx([], ids) == 0
    decreases ids
  {
    if ids != [] { NoFlow(ids[1..]); }
  }

  // ---------------------------------------------------------------------------
  // Sums over the shards
  // ---------------------------------------------------------------------------

  /** The money on the first n shards. */
  ghost function Wealth(g: System, n: nat): int
    requires n <= |g.nodes|
  {
    if n == 0 then 0 else Wealth(g, n - 1) + Total(g.nodes[n - 1].shard.world)
  }

  /** What transaction t has brought to the first n shards so far. */
  ghost function FlowTx(g: System, n: nat, t: TxId): int
    requires n <= |g.nodes|
  {
    if n == 0 then 0 else FlowTx(g, n - 1, t) + FlowOf(CommitOps(Log(g, n - 1), t))
  }

  ghost function FlowTxs(g: System, n: nat, ids: seq<TxId>): int
    requires n <= |g.nodes|
    decreases ids
  {
    if ids == [] then 0 else FlowTx(g, n, ids[0]) + FlowTxs(g, n, ids[1..])
  }

  /** Money debited by the given transactions and not yet credited, minus money
      credited and not yet debited. */
  ghost function InFlight(g: System, ids: seq<TxId>): int {
    -FlowTxs(g, |g.nodes|, ids)
  }

  lemma {:induction false} FlowTxsStep(g: System, n: nat, ids: seq<TxId>)
    requires 0 < n <= |g.nodes|
    ensures FlowTxs(g, n, ids) == FlowTxs(g, n - 1, ids) + FlowByTx(Log(g, n - 1), ids)
    decreases ids
  {
    if ids != [] { FlowTxsStep(g, n, ids[1..]); }
  }

  lemma {:induction false} FlowTxsZero(g: System, ids: seq<TxId>)
    ensures FlowTxs(g, 0, ids) == 0
    decreases ids
  {
    if ids != [] { FlowTxsZero(g, ids[1..]); }
  }

  /** ids lists every committed transaction once. */
  ghost predicate Commits(g: System, ids: seq<TxId>) {
    Distinct(ids) && forall t :: t in ids <==> DecisionOf(g.orch.blocks, t) == Some(true)
  }

  lemma LogOps(calls: Calls, inits: seq<World>, g: System, safe: bool, framed: bool, s: nat, i: nat)
    requires SystemInv(calls, inits, g, safe, framed) && s < NUM_SHARDS && i < |Log(g, s)| && IsCommitOp(Log(g, s)[i])
    ensures DecisionOf(g.orch.blocks, Log(g, s)[i].txId) == Some(true)
  {
    var sh := ShardAt(g, s);
    assert NodeInv(calls, inits, g, safe, framed, s);
    var c := CtxOf(calls(s), inits[s], sh, Seen(g, s), safe, framed);
    assert FullLog(c, Boundary(sh)) == Log(g, s);
    assert QueueOK(FullLog(c, Boundary(sh)));
    OpIsCommitted(calls, inits, g, safe, framed, s, Log(g, s)[i]);
  }

  lemma ShardWealth(calls: Calls, inits: seq<World>, g: System, safe: bool, framed: bool, s: nat, ids: seq<TxId>)
    requires SystemInv(calls, inits, g, safe, framed) && s < NUM_SHARDS && CallConserves(calls(s)) && Commits(g, ids)
    ensures Total(ShardAt(g, s).world) == Total(inits[s]) + FlowByTx(Log(g, s), ids)
  {
    var sh := ShardAt(g, s);
    assert NodeInv(calls, inits, g, safe, framed, s);
    var c := CtxOf(calls(s), inits[s], sh, Seen(g, s), safe, framed);
    assert FullLog(c, Boundary(sh)) == Log(g, s);
    ReplayTotal(calls(s), inits[s], Log(g, s));
    forall i | 0 <= i < |Log(g, s)| && IsCommitOp(Log(g, s)[i]) ensures Log(g, s)[i].txId in ids {
      LogOps(calls, inits, g, safe, framed, s, i);
    }
    FlowGrouped(Log(g, s), ids);
  }

  ghost function InitialWealth(inits: seq<World>, n: nat): int
    requires n <= |inits|
  {
    if n == 0 then 0 else InitialWealth(inits, n - 1) + Total(inits[n - 1])
  }

  lemma {:induction false} WealthUpTo(calls: Calls, inits: seq<World>, g: System, safe: bool, framed: bool, n: nat,
                                      ids: seq<TxId>)
    requires SystemInv(calls, inits, g, safe, framed) && n <= NUM_SHARDS && Commits(g, ids)
    requires forall s :: CallConserves(calls(s))
    ensures Wealth(g, n) == InitialWealth(inits, n) + FlowTxs(g, n, ids)
  {
    if n == 0 {
      FlowTxsZero(g, ids);
    } else {
      WealthUpTo(calls, inits, g, safe, framed, n - 1, ids);
      ShardWealth(calls, inits, g, safe, framed, n - 1, ids);
      FlowTxsStep(g, n, ids);
    }
  }

  // ---------------------------------------------------------------------------
  // Exactly once
  // ---------------------------------------------------------------------------

  lemma FlowOfOps(tx: CrossShardTx, s: int)
    ensures FlowOf(Ops(tx, s)) == (if s == tx.fromShard && tx.value > 0 then -tx.value else 0)
                                  + (if Credited(tx, s) then tx.value else 0)
  {
    var d, local := DebitOps(tx, s), LocalRwSet(tx.rwSet, s);
    var c := if CreditsFor(tx, s).Some? then CreditAll(tx.id, CreditsFor(tx, s).value) else [];
    var w := if CallFor(tx, s).Some? && local != [] then [WriteSetTx(tx.id, local)] else [];
    var f := if local != [] then [FinalizeTx(tx.id, local)] else [];
    assert Ops(tx, s) == d + (c + w + f);
    FlowConcat(d, c + w + f);
    FlowConcat(c + w, f);
    FlowConcat(c, w);
    FlowOfCredit(tx, s, c);
    FlowOfOne(Debit(tx.id, Funds(tx.from, tx.value)));
    FlowOfOne(WriteSetTx(tx.id, local));
    FlowOfOne(FinalizeTx(tx.id, local));
  }

  lemma FlowOfOne(e: Transaction)
    ensures FlowOf([e]) == Flow(e)
  {
    FlowConcat([], [e]);
  }

  lemma FlowOfCredit(tx: CrossShardTx, s: int, c: seq<Transaction>)
    requires c == if CreditsFor(tx, s).Some? then CreditAll(tx.id, CreditsFor(tx, s).value) else []
    ensures FlowOf(c) == if Credited(tx, s) then tx.value else 0
  {
    var one := [Funds(tx.to, tx.value)];
    assert one[1..] == [];
    assert CreditAll(tx.id, one) == [Credit(tx.id, one[0])] + CreditAll(tx.id, one[1..])
        && CreditAll(tx.id, one[1..]) == [];
    FlowOfOne(Credit(tx.id, one[0]));
  }

  /** When local transactions respect reservations, every operation of a committed
      transaction is executed or queued exactly once on each involved shard that has
      taken in the decision, and nowhere else. */
  lemma ExactlyOnce(calls: Calls, inits: seq<World>, g0: System, steps: seq<Event>, framed: bool, s: nat, t: TxId)
    requires Reaches(calls, inits, g0, steps, true, framed) && s < NUM_SHARDS && t != EMPTY_ID
    ensures var g := Run(calls, g0, steps);
            && s < |g.nodes|
            && var tx, sh := OrderOf(g.orch.blocks, t), ShardAt(g, s);
            CommitOps(Log(g, s), t) + CommitOps(ByPriority(OfTx(sh.queue, t)), t)
            == if DecisionOf(g.orch.blocks, t) == Some(true) && tx.Some? && Involved(tx.value, s) && t in sh.processed
               then Ops(tx.value, s) else []
  {
    ReachableInv(calls, inits, g0, steps, true, framed);
    var g := Run(calls, g0, steps);
    var sh := ShardAt(g, s);
    PhaseOn(calls, inits, g, true, framed, s, t);
    SeenAgrees(calls, inits, g, true, framed, s, t);
    assert NodeInv(calls, inits, g, true, framed, s);
    if DecisionOf(Seen(g, s), t).Some? { DecidedWasOrdered(Seen(g, s), t); }
    OnceOf(CtxOf(calls(s), inits[s], sh, Seen(g, s), true, framed), ViewOf(sh.tables, t), sh.world.storage,
        ByPriority(OfTx(sh.queue, t)), Log(g, s), t);
  }

  lemma {:induction false} CommitOpsNone(txs: seq<Transaction>, t: TxId)
    requires forall e :: e in txs ==> !IsCommitOp(e)
    ensures CommitOps(txs, t) == []
  {
    if txs != [] {
      assert forall e :: e in txs[1..] ==> e in txs;
      CommitOpsNone(txs[1..], t);
    }
  }

  lemma {:induction false} CommitOpsAll(txs: seq<Transaction>, t: TxId)
    requires forall i :: 0 <= i < |txs| ==> txs[i].txId == t && IsCommitOp(txs[i])
    ensures CommitOps(txs, t) == txs
  {
    if txs != [] { CommitOpsAll(txs[1..], t); }
  }

  lemma OnceOf(c: Ctx, v: View, st: map<SlotKey, Word>, rest: seq<Transaction>, log: seq<Transaction>, t: TxId)
    requires Phase(c, v, st, rest, log, t) && c.safe
    ensures CommitOps(log, t) + CommitOps(rest, t)
         == if DecisionOf(c.hist, t) == Some(true) && OrderOf(c.hist, t).Some?
             && Involved(OrderOf(c.hist, t).value, c.s)
            then Ops(OrderOf(c.hist, t).value, c.s) else []
  {
    OrderHasId(c.hist, t);
    var order := OrderOf(c.hist, t);
    if DecisionOf(c.hist, t) == Some(true) && order.Some? && Involved(order.value, c.s) {
      var done := CommitOps(log, t);
      if rest == [] {
        assert done + [] == done;
      } else {
        QueuedOps(done, rest, order.value, c.s);
      }
    } else {
      CommitOpsNone(rest, t);
    }
  }

  lemma {:induction false} QueuedOps(done: seq<Transaction>, rest: seq<Transaction>, tx: CrossShardTx, s: int)
    requires rest != [] && rest[|rest| - 1] == Typed(Unlock, tx.id) && done + rest[..|rest| - 1] == Ops(tx, s)
    ensures done + CommitOps(rest, tx.id) == Ops(tx, s)
  {
    var n := |rest| - 1;
    forall i | 0 <= i < n ensures rest[..n][i].txId == tx.id && IsCommitOp(rest[..n][i]) {
      assert Ops(tx, s)[|done| + i] == rest[i];
      OpsShape(tx, s, Ops(tx, s), |done| + i);
    }
    CommitOpsAll(rest[..n], tx.id);
    assert rest == rest[..n] + [rest[n]];
    AppendCommitOps(rest[..n], rest[n], tx.id);
  }

  // ---------------------------------------------------------------------------
  // What is in flight
  // ---------------------------------------------------------------------------

  function DebitOf(tx: CrossShardTx): Transaction {
    Debit(tx.id, Funds(tx.from, tx.value))
  }

  function CreditOf(tx: CrossShardTx): Transaction {
    Credit(tx.id, Funds(tx.to, tx.value))
  }

  lemma CreditPosition(tx: CrossShardTx, s: int, i: nat)
    requires i < |Ops(tx, s)|
    ensures Ops(tx, s)[i].txType.CrossDebit? ==> i == 0 && s == tx.fromShard && Ops(tx, s)[i] == DebitOf(tx)
    ensures Ops(tx, s)[i].txType.CrossCredit? ==>
        i == |DebitOps(tx, s)| && s == ShardOf(tx.to) && Ops(tx, s)[i] == CreditOf(tx)
  {
    var one := [Funds(tx.to, tx.value)];
    assert one[1..] == [];
    assert CreditAll(tx.id, one) == [Credit(tx.id, one[0])];
  }

  /** The operation at position i moves money only as tx's debit or credit, and not again. */
  ghost predicate FlowsOnce(ops: seq<Transaction>, tx: CrossShardTx, i: int)
    requires 0 <= i < |ops|
  {
    && (ops[i].txType.CrossDebit? ==> ops[i] == DebitOf(tx) && ops[i] !in ops[..i])
    && (ops[i].txType.CrossCredit? ==> ops[i] == CreditOf(tx) && ops[i] !in ops[..i])
  }

  lemma {:induction false} ListFlow(ops: seq<Transaction>, tx: CrossShardTx, k: nat)
    requires k <= |ops| && forall i :: 0 <= i < |ops| ==> FlowsOnce(ops, tx, i)
    ensures FlowOf(ops[..k])
         == (if DebitOf(tx) in ops[..k] then -tx.value else 0) + (if CreditOf(tx) in ops[..k] then tx.value else 0)
  {
    if k > 0 {
      ListFlow(ops, tx, k - 1);
      assert ops[..k] == ops[..k - 1] + [ops[k - 1]];
      assert FlowsOnce(ops, tx, k - 1);
      FlowStep(ops[..k - 1], ops[k - 1], tx);
    }
  }

  /** The net flow of the first k operations says which of the two transfers are among them. */
  lemma PrefixFlow(tx: CrossShardTx, s: int, k: nat)
    requires k <= |Ops(tx, s)|
    ensures FlowOf(Ops(tx, s)[..k])
         == (if DebitOf(tx) in Ops(tx, s)[..k] then -tx.value else 0)
             + (if CreditOf(tx) in Ops(tx, s)[..k] then tx.value else 0)
  {
    var ops := Ops(tx, s);
    forall i | 0 <= i < |ops| ensures FlowsOnce(ops, tx, i) {
      CreditPosition(tx, s, i);
      NotBefore(tx, s, i);
    }
    ListFlow(ops, tx, k);
  }

  lemma FlowStep(before: seq<Transaction>, e: Transaction, tx: CrossShardTx)
    requires FlowOf(before)
          == (if DebitOf(tx) in before then -tx.value else 0) + (if CreditOf(tx) in before then tx.value else 0)
    requires e.txType.CrossDebit? ==> e == DebitOf(tx) && e !in before
    requires e.txType.CrossCredit? ==> e == CreditOf(tx) && e !in before
    ensures FlowOf(before + [e])
         == (if DebitOf(tx) in before + [e] then -tx.value else 0)
             + (if CreditOf(tx) in before + [e] then tx.value else 0)
  {
    FlowConcat(before, [e]);
    FlowOfOne(e);
  }

  lemma NotBefore(tx: CrossShardTx, s: int, k: nat)
    requires k < |Ops(tx, s)|
    ensures Ops(tx, s)[k].txType.CrossDebit? || Ops(tx, s)[k].txType.CrossCredit? ==> Ops(tx, s)[k] !in Ops(tx, s)[..k]
  {
    var ops := Ops(tx, s);
    CreditPosition(tx, s, k);
    forall i | 0 <= i < k && ops[i] == ops[k] ensures !ops[k].txType.CrossDebit? && !ops[k].txType.CrossCredit? {
      CreditPosition(tx, s, i);
    }
  }

  ghost predicate DebitDone(g: System, tx: CrossShardTx) {
    0 <= tx.fromShard < |g.nodes| && DebitOf(tx) in Log(g, tx.fromShard)
  }

  ghost predicate CreditDone(g: System, tx: CrossShardTx) {
    ShardOf(tx.to) < |g.nodes| && CreditOf(tx) in Log(g, ShardOf(tx.to))
  }

  /** What a transaction has brought to shard s, read off which of its transfers is in the log. */
  lemma FlowNow(calls: Calls, inits: seq<World>, g0: System, steps: seq<Event>, framed: bool, s: nat, t: TxId)
    requires Reaches(calls, inits, g0, steps, true, framed) && s < NUM_SHARDS
    requires var g := Run(calls, g0, steps); s < |g.nodes| && DecisionOf(g.orch.blocks, t) == Some(true)
                                             && t != EMPTY_ID
    ensures var g := Run(calls, g0, steps);
            && OrderOf(g.orch.blocks, t).Some? && OrderOf(g.orch.blocks, t).value.id == t
            && var tx := OrderOf(g.orch.blocks, t).value;
            FlowOf(CommitOps(Log(g, s), t))
            == (if s == tx.fromShard && DebitOf(tx) in Log(g, s) then -tx.value else 0)
               + (if s == ShardOf(tx.to) && CreditOf(tx) in Log(g, s) then tx.value else 0)
  {
    ExactlyOnce(calls, inits, g0, steps, framed, s, t);
    ReachableInv(calls, inits, g0, steps, true, framed);
    var g := Run(calls, g0, steps);
    DecidedWasOrdered(g.orch.blocks, t);
    OrderHasId(g.orch.blocks, t);
    var tx := OrderOf(g.orch.blocks, t).value;
    DoneFlow(tx, s, Log(g, s), CommitOps(Log(g, s), t), CommitOps(ByPriority(OfTx(ShardAt(g, s).queue, t)), t));
  }

  lemma DoneFlow(tx: CrossShardTx, s: int, log: seq<Transaction>, done: seq<Transaction>, rest: seq<Transaction>)
    requires done == CommitOps(log, tx.id) && (done + rest == Ops(tx, s) || done + rest == [])
    ensures FlowOf(done)
         == (if s == tx.fromShard && DebitOf(tx) in log then -tx.value else 0)
             + (if s == ShardOf(tx.to) && CreditOf(tx) in log then tx.value else 0)
  {
    CommitOpsMember(log, tx.id, DebitOf(tx));
    CommitOpsMember(log, tx.id, CreditOf(tx));
    if done != [] {
      var k := |done|;
      assert Ops(tx, s)[..k] == done;
      PrefixFlow(tx, s, k);
      forall i | 0 <= i < k
        ensures done[i] == DebitOf(tx) ==> s == tx.fromShard
        ensures done[i] == CreditOf(tx) ==> s == ShardOf(tx.to)
      {
        CreditPosition(tx, s, i);
        assert done[i] == Ops(tx, s)[i];
      }
    }
  }

  lemma {:induction false} FlowUpTo(calls: Calls, inits: seq<World>, g0: System, steps: seq<Event>, framed: bool,
                                    n: nat, t: TxId)
    requires Reaches(calls, inits, g0, steps, true, framed) && n <= NUM_SHARDS
    requires var g := Run(calls, g0, steps); |g.nodes| == NUM_SHARDS && DecisionOf(g.orch.blocks, t) == Some(true)
                                             && t != EMPTY_ID
    requires OrderOf(Run(calls, g0, steps).orch.blocks, t).Some?
    ensures var g := Run(calls, g0, steps);
            var tx := OrderOf(g.orch.blocks, t).value;
            FlowTx(g, n, t) == (if tx.fromShard < n && DebitDone(g, tx) then -tx.value else 0)
                               + (if ShardOf(tx.to) < n && CreditDone(g, tx) then tx.value else 0)
  {
    if n > 0 {
      FlowUpTo(calls, inits, g0, steps, framed, n - 1, t);
      FlowNow(calls, inits, g0, steps, framed, n - 1, t);
    }
  }

  /** A transaction's value if only its debit has been executed, minus its value if only
      its credit has, and zero otherwise. */
  ghost function Owed(g: System, t: TxId): int {
    match OrderOf(g.orch.blocks, t)
    case None => 0
    case Some(tx) =>
      if DebitDone(g, tx) && !CreditDone(g, tx) then tx.value
      else if CreditDone(g, tx) && !DebitDone(g, tx) then -tx.value
      else 0
  }

  ghost function AllOwed(g: System, ids: seq<TxId>): int
    decreases ids
  {
    if ids == [] then 0 else Owed(g, ids[0]) + AllOwed(g, ids[1..])
  }

  lemma OwedOne(calls: Calls, inits: seq<World>, g0: System, steps: seq<Event>, framed: bool, t: TxId)
    requires Reaches(calls, inits, g0, steps, true, framed)
        && DecisionOf(Run(calls, g0, steps).orch.blocks, t) == Some(true)
    ensures var g := Run(calls, g0, steps); |g.nodes| == NUM_SHARDS && FlowTx(g, NUM_SHARDS, t) == -Owed(g, t)
  {
    ReachableInv(calls, inits, g0, steps, true, framed);
    var g := Run(calls, g0, steps);
    NoEmptyId(g.orch.blocks);
    DecidedWasOrdered(g.orch.blocks, t);
    FlowUpTo(calls, inits, g0, steps, framed, NUM_SHARDS, t);
  }

  /** In safe runs the money in flight is what the half-executed transactions owe. */
  lemma {:induction false} InFlightIsOwed(calls: Calls, inits: seq<World>, g0: System, steps: seq<Event>,
                                          framed: bool, ids: seq<TxId>)
    requires Reaches(calls, inits, g0, steps, true, framed)
    requires forall i :: 0 <= i < |ids| ==> DecisionOf(Run(calls, g0, steps).orch.blocks, ids[i]) == Some(true)
    ensures InFlight(Run(calls, g0, steps), ids) == AllOwed(Run(calls, g0, steps), ids)
    decreases ids
  {
    if ids != [] {
      OwedOne(calls, inits, g0, steps, framed, ids[0]);
      InFlightIsOwed(calls, inits, g0, steps, framed, ids[1..]);
    }
  }

  /** In every reachable state the money on all shards plus the money in flight is what
      there was in the beginning; if the run is safe, the money in flight is the value of
      the committed transfers whose debit has been executed and whose credit has not, minus
      that of those with the credit executed and the debit not. */
  lemma ValueConserved(calls: Calls, inits: seq<World>, g0: System, steps: seq<Event>, safe: bool, framed: bool,
                       ids: seq<TxId>)
    requires Reaches(calls, inits, g0, steps, safe, framed) && forall s :: CallConserves(calls(s))
    requires Commits(Run(calls, g0, steps), ids)
    ensures var g := Run(calls, g0, steps);
            && |g.nodes| == |inits| && Wealth(g, |g.nodes|) + InFlight(g, ids) == InitialWealth(inits, |inits|)
            && (safe ==> InFlight(g, ids) == AllOwed(g, ids))
  {
    ReachableInv(calls, inits, g0, steps, safe, framed);
    WealthUpTo(calls, inits, Run(calls, g0, steps), safe, framed, NUM_SHARDS, ids);
    if safe {
      assert forall i :: 0 <= i < |ids| ==> ids[i] in ids;
      InFlightIsOwed(calls, inits, g0, steps, framed, ids);
    }
  }

  // ---------------------------------------------------------------------------
  // When everything has been delivered and executed
  // ---------------------------------------------------------------------------

  /** Every shard has taken in every orchestrator block and executed its queue. */
  ghost predicate Drained(g: System) {
    forall s :: 0 <= s < |g.nodes| ==> g.nodes[s].shard.lastHeight + 1 == |g.orch.blocks|
                                       && g.nodes[s].shard.queue == []
  }

  /** A committed transfer whose recipient lives on a shard that takes no part in it. */
  ghost predicate Strayed(tx: CrossShardTx) {
    tx.value > 0 && !Involved(tx, ShardOf(tx.to))
  }

  ghost function Lost(g: System, ids: seq<TxId>): int
    requires forall i :: 0 <= i < |ids| ==> OrderOf(g.orch.blocks, ids[i]).Some?
    decreases ids
  {
    if ids == [] then 0
    else
      var tx := OrderOf(g.orch.blocks, ids[0]).value;
      (if Strayed(tx) then tx.value else 0) + Lost(g, ids[1..])
  }

  lemma DrainedShard(calls: Calls, inits: seq<World>, g: System, framed: bool, s: nat, t: TxId)
    requires SystemInv(calls, inits, g, true, framed) && s < NUM_SHARDS && Drained(g)
    requires DecisionOf(g.orch.blocks, t) == Some(true)
    ensures OrderOf(g.orch.blocks, t).Some?
    ensures CommitOps(Log(g, s), t) == if Involved(OrderOf(g.orch.blocks, t).value,
        s) then Ops(OrderOf(g.orch.blocks, t).value, s) else []
  {
    var sh := ShardAt(g, s);
    NoEmptyId(g.orch.blocks);
    PhaseOn(calls, inits, g, true, framed, s, t);
    assert Seen(g, s) == g.orch.blocks;
    DecidedWasOrdered(g.orch.blocks, t);
    assert ByPriority(OfTx([], t)) == [];
    OnceOf(CtxOf(calls(s), inits[s], sh, Seen(g, s), true, framed), ViewOf(sh.tables, t), sh.world.storage, [],
        Log(g, s), t);
    assert CommitOps(Log(g, s), t) + [] == CommitOps(Log(g, s), t);
  }

  lemma DrainedShardFlow(calls: Calls, inits: seq<World>, g: System, framed: bool, s: nat, t: TxId)
    requires SystemInv(calls, inits, g, true, framed) && s < NUM_SHARDS && Drained(g)
    requires DecisionOf(g.orch.blocks, t) == Some(true) && OrderOf(g.orch.blocks, t).Some?
    ensures FlowOf(CommitOps(Log(g, s), t)) == ShardFlow(OrderOf(g.orch.blocks, t).value, s)
  {
    DrainedShard(calls, inits, g, framed, s, t);
    FlowOfOps(OrderOf(g.orch.blocks, t).value, s);
  }

  /** What a commit of tx adds to the balances of shard s. */
  ghost function ShardFlow(tx: CrossShardTx, s: int): int {
    (if s == tx.fromShard && tx.value > 0 then -tx.value else 0)
        + (if Credited(tx, s) && Involved(tx, s) then tx.value else 0)
  }

  lemma {:induction false} DrainedFlow(calls: Calls, inits: seq<World>, g: System, framed: bool, n: nat, t: TxId)
    requires SystemInv(calls, inits, g, true, framed) && n <= NUM_SHARDS && Drained(g)
    requires DecisionOf(g.orch.blocks, t) == Some(true) && OrderOf(g.orch.blocks, t).Some?
    ensures FlowTx(g, n, t) == UpToFlow(OrderOf(g.orch.blocks, t).value, n)
  {
    if n > 0 {
      DrainedFlow(calls, inits, g, framed, n - 1, t);
      DrainedShardFlow(calls, inits, g, framed, n - 1, t);
      NextShardFlow(OrderOf(g.orch.blocks, t).value, n - 1);
    }
  }

  /** What a commit of tx adds to the balances of the first n shards. */
  ghost function UpToFlow(tx: CrossShardTx, n: nat): int {
    (if 0 <= tx.fromShard < n && tx.value > 0 then -tx.value else 0)
    + (if ShardOf(tx.to) < n && Credited(tx, ShardOf(tx.to)) && Involved(tx, ShardOf(tx.to)) then tx.value else 0)
  }

  lemma NextShardFlow(tx: CrossShardTx, n: nat)
    ensures UpToFlow(tx, n + 1) == UpToFlow(tx, n) + ShardFlow(tx, n)
  {
  }

  lemma {:induction false} DrainedFlows(calls: Calls, inits: seq<World>, g: System, framed: bool, ids: seq<TxId>)
    requires SystemInv(calls, inits, g, true, framed) && Drained(g)
    requires forall i :: 0 <= i < |ids| ==> DecisionOf(g.orch.blocks, ids[i]) == Some(true)
    ensures forall i :: 0 <= i < |ids| ==> OrderOf(g.orch.blocks, ids[i]).Some?
    ensures InFlight(g, ids) == Lost(g, ids)
    decreases ids
  {
    if ids != [] {
      var t := ids[0];
      DrainedFlows(calls, inits, g, framed, ids[1..]);
      forall i | 0 <= i < |ids| ensures OrderOf(g.orch.blocks, ids[i]).Some? {
        DecidedWasOrdered(g.orch.blocks, ids[i]);
      }
      var tx := OrderOf(g.orch.blocks, t).value;
      DrainedFlow(calls, inits, g, framed, NUM_SHARDS, t);
      assert VotesSound(g, t);
      assert Involved(tx, tx.fromShard);
      assert HasYes(g, tx.fromShard, t);
    }
  }

  /** Once everything is delivered and executed (and local transactions respected the
      reservations), the total is exactly the initial total minus the transfers whose
      recipient's shard was not involved: those are debited and never credited. */
  lemma SettledTotal(calls: Calls, inits: seq<World>, g0: System, steps: seq<Event>, framed: bool, ids: seq<TxId>)
    requires Reaches(calls, inits, g0, steps, true, framed) && forall s :: CallConserves(calls(s))
    requires Commits(Run(calls, g0, steps), ids) && Drained(Run(calls, g0, steps))
    ensures var g := Run(calls, g0, steps);
            && (forall i :: 0 <= i < |ids| ==> OrderOf(g.orch.blocks, ids[i]).Some?)
            && |g.nodes| == |inits| && Wealth(g, |g.nodes|) + Lost(g, ids) == InitialWealth(inits, |inits|)
  {
    var g := Run(calls, g0, steps);
    ReachableInv(calls, inits, g0, steps, true, framed);
    ValueConserved(calls, inits, g0, steps, true, framed, ids);
    assert forall i :: 0 <= i < |ids| ==> ids[i] in ids;
    DrainedFlows(calls, inits, g, framed, ids);
  }

  lemma {:induction false} LostIsZero(g: System, ids: seq<TxId>)
    requires forall i :: 0 <= i < |ids| ==> OrderOf(g.orch.blocks, ids[i]).Some?
    ensures Lost(g, ids) >= 0
    ensures Lost(g, ids) == 0 <==> forall i :: 0 <= i < |ids| ==> !Strayed(OrderOf(g.orch.blocks, ids[i]).value)
    decreases ids
  {
    if ids != [] {
      LostIsZero(g, ids[1..]);
      assert forall i :: 0 < i < |ids| ==> ids[i] == ids[1..][i - 1];
      assert forall i :: 0 <= i < |ids[1..]| ==> ids[1..][i] == ids[i + 1];
    }
  }

  /** Nothing is lost if and only if every committed transfer involves the shard of its
      recipient. */
  lemma ConservedIff(calls: Calls, inits: seq<World>, g0: System, steps: seq<Event>, framed: bool, ids: seq<TxId>)
    requires Reaches(calls, inits, g0, steps, true, framed) && forall s :: CallConserves(calls(s))
    requires Commits(Run(calls, g0, steps), ids) && Drained(Run(calls, g0, steps))
    ensures var g := Run(calls, g0, steps);
            && (forall i :: 0 <= i < |ids| ==> OrderOf(g.orch.blocks, ids[i]).Some?)
            && |g.nodes| == |inits|
            && (Wealth(g, |g.nodes|) == InitialWealth(inits, |inits|)
                <==> forall i :: 0 <= i < |ids| ==> !Strayed(OrderOf(g.orch.blocks, ids[i]).value))
  {
    SettledTotal(calls, inits, g0, steps, framed, ids);
    LostIsZero(Run(calls, g0, steps), ids);
  }
}
