/** Atomic commitment, lock stability and the reservation invariant, over every run. */
module AtomicCommitment {
  import opened Protocol
  import opened EvmState
  import opened ShardSpec
  import opened History
  import opened ShardInvariant
  import opened ShardSteps
  import opened ShardIntake
  import opened OrchestratorSpec
  import opened Network

  ghost function ShardAt(g: System, s: nat): Shard
    requires s < |g.nodes|
  {
    g.nodes[s].shard
  }

  ghost function Log(g: System, s: nat): seq<Transaction>
    requires s < |g.nodes|
  {
    LogOf(g.nodes[s].shard.blocks)
  }

  /** Where transaction t stands on shard s. */
  lemma PhaseOn(calls: Calls, inits: seq<World>, g: System, safe: bool, framed: bool, s: nat, t: TxId)
    requires SystemInv(calls, inits, g, safe, framed) && s < NUM_SHARDS && t != EMPTY_ID
    ensures g.nodes[s].shard.lastHeight < |g.orch.blocks|
    ensures var sh := ShardAt(g, s);
            Phase(CtxOf(calls(s), inits[s], sh, Seen(g, s), safe, framed), ViewOf(sh.tables, t), sh.world.storage,
                  ByPriority(OfTx(sh.queue, t)), Log(g, s), t)
    ensures ShardAt(g, s).id == s && ShardAt(g, s).tables.prepares == map[]
    ensures t in ShardAt(g, s).processed <==> DecisionOf(Seen(g, s), t).Some?
  {
    var sh := ShardAt(g, s);
    assert NodeInv(calls, inits, g, safe, framed, s);
    PhaseBefore(calls(s), inits[s], sh, Seen(g, s), safe, framed, t);
    assert FullLog(CtxOf(calls(s), inits[s], sh, Seen(g, s), safe, framed), Boundary(sh)) == Log(g, s);
  }

  /** A shard has seen a prefix of the decisions, and they agree. */
  lemma SeenAgrees(calls: Calls, inits: seq<World>, g: System, safe: bool, framed: bool, s: nat, t: TxId)
    requires SystemInv(calls, inits, g, safe, framed) && s < NUM_SHARDS
    ensures g.nodes[s].shard.lastHeight < |g.orch.blocks|
    ensures OrderOf(Seen(g, s), t).Some? ==> OrderOf(g.orch.blocks, t) == OrderOf(Seen(g, s), t)
    ensures DecisionOf(Seen(g, s), t).Some? ==> DecisionOf(g.orch.blocks, t) == DecisionOf(Seen(g, s), t)
  {
    assert NodeInv(calls, inits, g, safe, framed, s);
    Final(g.orch.blocks, g.nodes[s].shard.lastHeight + 1, t);
  }

  /** On one shard: the whole of a commit, in its three stages. */
  ghost predicate CommitStage(sh: Shard, tx: CrossShardTx, safe: bool) {
    var t, log := tx.id, LogOf(sh.blocks);
    && VoteOf(sh.blocks, t) == Some(true)
    && LockTx(tx, sh.id) in log
    && (t !in sh.processed ==>
          Holding(ViewOf(sh.tables, t), tx, sh.id) && CommitOps(log, t) == [] && OfTx(sh.queue, t) == [])
    && (t in sh.processed && CommitOps(log, t) == [] && OfTx(sh.queue, t) != [] ==>
        Holding(ViewOf(sh.tables, t), tx, sh.id))
    && (t in sh.processed && OfTx(sh.queue, t) == [] ==>
          Cleared(ViewOf(sh.tables, t)) && Complete(CommitOps(log, t), tx, sh.id, safe))
  }

  /** If any orchestrator block commits t, then on every involved shard: t's Lock was
      executed and its YES vote cast; until the shard carries the commit out it still
      holds t's fund lock, slot locks, pending credit, pending call and read/write set;
      and once its queue holds nothing more for t, exactly t's operations have been
      executed and nothing of t is left in any table. */
  lemma CommittedEverywhere(calls: Calls, inits: seq<World>, g0: System, steps: seq<Event>, safe: bool, framed: bool,
                            t: TxId, h: nat)
    requires Reaches(calls, inits, g0, steps, safe, framed)
    requires var g := Run(calls, g0, steps);
             h < |g.orch.blocks| && t in g.orch.blocks[h].tpcResult && g.orch.blocks[h].tpcResult[t]
    ensures var g := Run(calls, g0, steps);
            && OrderOf(g.orch.blocks, t).Some?
            && forall s :: Involved(OrderOf(g.orch.blocks, t).value, s) ==>
                 0 <= s < |g.nodes| && ShardAt(g, s).id == s
                     && CommitStage(ShardAt(g, s), OrderOf(g.orch.blocks, t).value, safe)
  {
    ReachableInv(calls, inits, g0, steps, safe, framed);
    var g := Run(calls, g0, steps);
    DecidedOnce(g.orch.blocks, h, t);
    OrderHasId(g.orch.blocks, t);
    assert VotesSound(g, t);
    var tx := OrderOf(g.orch.blocks, t).value;
    forall s | Involved(tx, s) ensures 0 <= s < |g.nodes| && ShardAt(g, s).id == s
        && CommitStage(ShardAt(g, s), tx, safe) {
      assert HasYes(g, s, t);
      CommitOnShard(calls, inits, g, safe, framed, s, tx);
    }
  }

  /** The stages of a commit, read off the phase of a transaction with a YES vote. */
  lemma StageOf(c: Ctx, v: View, st: map<SlotKey, Word>, mine: seq<Transaction>, log: seq<Transaction>,
                tx: CrossShardTx)
    requires Phase(c, v, st, ByPriority(mine), log, tx.id) && v.vote.None? && VoteOf(c.blocks, tx.id) == Some(true)
    requires OrderOf(c.hist, tx.id).Some? ==> OrderOf(c.hist, tx.id) == Some(tx)
    requires DecisionOf(c.hist, tx.id) != Some(false)
    ensures OrderOf(c.hist, tx.id) == Some(tx) && LockTx(tx, c.s) in log
    ensures DecisionOf(c.hist, tx.id).None? ==> Holding(v, tx, c.s) && CommitOps(log, tx.id) == [] && mine == []
    ensures DecisionOf(c.hist, tx.id).Some? && CommitOps(log, tx.id) == [] && mine != [] ==> Holding(v, tx, c.s)
    ensures DecisionOf(c.hist, tx.id).Some? && mine == [] ==>
        Cleared(v) && Complete(CommitOps(log, tx.id), tx, c.s, c.safe)
  {
    ByPrioritySmall(mine);
  }

  lemma CommitOnShard(calls: Calls, inits: seq<World>, g: System, safe: bool, framed: bool, s: nat, tx: CrossShardTx)
    requires SystemInv(calls, inits, g, safe, framed) && s < NUM_SHARDS && HasYes(g, s, tx.id)
    requires OrderOf(g.orch.blocks, tx.id) == Some(tx) && Involved(tx, s)
        && DecisionOf(g.orch.blocks, tx.id) == Some(true)
    ensures ShardAt(g, s).id == s && CommitStage(ShardAt(g, s), tx, safe)
  {
    var t, sh := tx.id, ShardAt(g, s);
    NoEmptyId(g.orch.blocks);
    PhaseOn(calls, inits, g, safe, framed, s, t);
    SeenAgrees(calls, inits, g, safe, framed, s, t);
    StageOf(CtxOf(calls(s), inits[s], sh, Seen(g, s), safe, framed), ViewOf(sh.tables, t), sh.world.storage,
        OfTx(sh.queue, t), Log(g, s), tx);
  }

  /** Before t is committed, or if it is aborted, no shard executes or queues a debit,
      a credit or a storage write for it; and no uninvolved shard ever does. */
  lemma NothingWithoutCommit(calls: Calls, inits: seq<World>, g0: System, steps: seq<Event>, safe: bool,
                             framed: bool, s: nat, e: Transaction)
    requires Reaches(calls, inits, g0, steps, safe, framed) && s < NUM_SHARDS
    requires var g := Run(calls, g0, steps);
             s < |g.nodes| && (e in Log(g, s) || e in ShardAt(g, s).queue) && e.txId != EMPTY_ID && IsCommitOp(e)
    ensures var g := Run(calls, g0, steps);
            && DecisionOf(g.orch.blocks, e.txId) == Some(true)
            && OrderOf(g.orch.blocks, e.txId).Some?
            && Involved(OrderOf(g.orch.blocks, e.txId).value, s)
            && e in Ops(OrderOf(g.orch.blocks, e.txId).value, s)
  {
    ReachableInv(calls, inits, g0, steps, safe, framed);
    var g := Run(calls, g0, steps);
    OpIsCommitted(calls, inits, g, safe, framed, s, e);
  }

  lemma OpIsCommitted(calls: Calls, inits: seq<World>, g: System, safe: bool, framed: bool, s: nat, e: Transaction)
    requires SystemInv(calls, inits, g, safe, framed) && s < NUM_SHARDS
    requires (e in Log(g, s) || e in ShardAt(g, s).queue) && e.txId != EMPTY_ID && IsCommitOp(e)
    ensures DecisionOf(g.orch.blocks, e.txId) == Some(true)
    ensures OrderOf(g.orch.blocks, e.txId).Some? && Involved(OrderOf(g.orch.blocks, e.txId).value, s)
    ensures e in Ops(OrderOf(g.orch.blocks, e.txId).value, s)
  {
    var t, sh := e.txId, ShardAt(g, s);
    PhaseOn(calls, inits, g, safe, framed, s, t);
    SeenAgrees(calls, inits, g, safe, framed, s, t);
    OrderHasId(g.orch.blocks, t);
    CommitOpsMember(Log(g, s), t, e);
    OfTxMember(sh.queue, t, e);
    OpOf(CtxOf(calls(s), inits[s], sh, Seen(g, s), safe, framed), ViewOf(sh.tables, t), sh.world.storage,
        OfTx(sh.queue, t), Log(g, s), e);
  }

  /** A commit operation, executed or queued, belongs to the list of a committed transaction. */
  lemma OpOf(c: Ctx, v: View, st: map<SlotKey, Word>, mine: seq<Transaction>, log: seq<Transaction>, e: Transaction)
    requires Phase(c, v, st, ByPriority(mine), log, e.txId) && IsCommitOp(e)
    requires e in mine || e in CommitOps(log, e.txId)
    ensures DecisionOf(c.hist, e.txId) == Some(true)
    ensures OrderOf(c.hist, e.txId).Some? && Involved(OrderOf(c.hist, e.txId).value, c.s)
        && e in Ops(OrderOf(c.hist, e.txId).value, c.s)
  {
    OrderHasId(c.hist, e.txId);
    ByPriorityMember(mine, e);
    var done, rest, order := CommitOps(log, e.txId), ByPriority(mine), OrderOf(c.hist, e.txId);
    if order.Some? && Involved(order.value, c.s) && DecisionOf(c.hist, e.txId) == Some(true) {
      OpInList(done, rest, order.value, c.s, e, c.safe);
    }
  }

  lemma OpInList(done: seq<Transaction>, rest: seq<Transaction>, tx: CrossShardTx, s: int, e: Transaction, safe: bool)
    requires IsCommitOp(e) && (e in done || e in rest)
    requires if rest == [] then Complete(done, tx, s, safe)
             else rest[|rest| - 1].txType.Unlock? && Complete(done + rest[..|rest| - 1], tx, s, safe)
    ensures e in Ops(tx, s)
  {
    if rest != [] {
      var n := |rest| - 1;
      assert rest == rest[..n] + [rest[n]];
      assert e in done + rest[..n];
    }
    assert forall x :: x in OtherOps(tx, s) ==> x in Ops(tx, s);
  }

  /** Locks protect what was validated: from the YES vote for t until t's own writes
      are applied (or its abort is taken in), every slot of t's local read set is
      locked by t and still has the value the vote was based on. */
  lemma LockStability(calls: Calls, inits: seq<World>, g0: System, steps: seq<Event>, safe: bool, s: nat, t: TxId)
    requires Reaches(calls, inits, g0, steps, safe, true) && s < NUM_SHARDS && t != EMPTY_ID
    requires var g := Run(calls, g0, steps);
             && HasYes(g, s, t)
             && WriteOps(CommitOps(Log(g, s), t)) == []
             && ShardAt(g, s).lastHeight < |g.orch.blocks|
             && DecisionOf(Seen(g, s), t) != Some(false)
    ensures var g := Run(calls, g0, steps);
            && OrderOf(g.orch.blocks, t).Some?
            && var local := LocalRwSet(OrderOf(g.orch.blocks, t).value.rwSet, s);
            && ReadsMatch(ShardAt(g, s).world.storage, local)
            && ReadKeys(local) <= SlotsHeld(ShardAt(g, s).tables.slots, t)
  {
    ReachableInv(calls, inits, g0, steps, safe, true);
    var g := Run(calls, g0, steps);
    var sh := ShardAt(g, s);
    PhaseOn(calls, inits, g, safe, true, s, t);
    SeenAgrees(calls, inits, g, safe, true, s, t);
    OrderHasId(Seen(g, s), t);
    StableReads(CtxOf(calls(s), inits[s], sh, Seen(g, s), safe, true), ViewOf(sh.tables, t), sh.world.storage,
        ByPriority(OfTx(sh.queue, t)), Log(g, s), t);
  }

  lemma StableReads(c: Ctx, v: View, st: map<SlotKey, Word>, rest: seq<Transaction>, log: seq<Transaction>, t: TxId)
    requires Phase(c, v, st, rest, log, t) && c.framed && v.vote.None? && VoteOf(c.blocks, t) == Some(true)
    requires DecisionOf(c.hist, t) != Some(false) && WriteOps(CommitOps(log, t)) == []
    ensures OrderOf(c.hist, t).Some?
    ensures var local := LocalRwSet(OrderOf(c.hist, t).value.rwSet, c.s);
            ReadsMatch(st, local) && ReadKeys(local) <= v.slots
  {
    OrderHasId(c.hist, t);
    var tx, done := OrderOf(c.hist, t).value, CommitOps(log, t);
    assert rest != [] ==> done + rest[..0] == done;
    if LocalRwSet(tx.rwSet, c.s) != [] && DecisionOf(c.hist, t) == Some(true) {
      LastOpWrites(tx, c.s, done);
    }
  }

  /** A finished commit with a local read/write set has written. */
  lemma LastOpWrites(tx: CrossShardTx, s: int, done: seq<Transaction>)
    requires LocalRwSet(tx.rwSet, s) != []
    ensures done == Ops(tx, s) || done == OtherOps(tx, s) ==> WriteOps(done) != []
  {
    if done == Ops(tx, s) || done == OtherOps(tx, s) {
      var f := FinalizeTx(tx.id, LocalRwSet(tx.rwSet, s));
      assert done[|done| - 1] == f;
      WriteOpsMember(done, f);
    }
  }

  /** If local transactions respect the reservations, no address ever has more reserved
      than it owns, on any shard, in any run. */
  lemma ReservationsCovered(calls: Calls, inits: seq<World>, g0: System, steps: seq<Event>, framed: bool, s: nat,
                            a: Address)
    requires Reaches(calls, inits, g0, steps, true, framed) && s < NUM_SHARDS
    ensures var g := Run(calls, g0, steps);
            s < |g.nodes| && Reserved(ShardAt(g, s).tables.locked, a) <= Balance(ShardAt(g, s).world, a)
  {
    ReachableInv(calls, inits, g0, steps, true, framed);
    var g := Run(calls, g0, steps);
    assert NodeInv(calls, inits, g, true, framed, s);
  }

  // ---------------------------------------------------------------------------
  // Finality
  // ---------------------------------------------------------------------------

  lemma NextExtends(calls: Calls, g: System, step: Event)
    requires Enabled(g, step) && OrchInv(g.orch)
    ensures var o' := Next(calls, g, step).orch;
            |g.orch.blocks| <= |o'.blocks| && o'.blocks[..|g.orch.blocks|] == g.orch.blocks
  {
    var o := g.orch;
    assert o.blocks[..|o.blocks|] == o.blocks;
    if step.OrchProduces? { ProduceAt(o, EMPTY_ID); }
  }

  lemma {:induction false} RunExtends(calls: Calls, inits: seq<World>, g: System, safe: bool, framed: bool,
                                      steps: seq<Event>)
    requires SystemInv(calls, inits, g, safe, framed) && Legal(calls, g, steps)
    requires safe ==> Safe(calls, g, steps)
    requires framed ==> forall i :: 0 <= i < |steps| && steps[i].Submit? ==> WritesRead(steps[i].tx)
    ensures var o' := Run(calls, g, steps).orch;
            |g.orch.blocks| <= |o'.blocks| && o'.blocks[..|g.orch.blocks|] == g.orch.blocks
    decreases steps
  {
    if steps == [] {
      assert g.orch.blocks[..|g.orch.blocks|] == g.orch.blocks;
    } else {
      NextInv(calls, inits, g, safe, framed, steps[0]);
      NextExtends(calls, g, steps[0]);
      var g1 := Next(calls, g, steps[0]);
      assert forall i :: 0 <= i < |steps[1..]| ==> steps[1..][i] == steps[i + 1];
      RunExtends(calls, inits, g1, safe, framed, steps[1..]);
      var o' := Run(calls, g, steps).orch;
      assert o'.blocks[..|g.orch.blocks|] == o'.blocks[..|g1.orch.blocks|][..|g.orch.blocks|];
    }
  }

  /** A decision is never changed or withdrawn by anything that happens later. */
  lemma DecisionsAreFinal(calls: Calls, inits: seq<World>, g0: System, steps: seq<Event>, more: seq<Event>, t: TxId)
    requires Reaches(calls, inits, g0, steps, false, false) && Legal(calls, Run(calls, g0, steps), more)
    ensures var g, g' := Run(calls, g0, steps), Run(calls, Run(calls, g0, steps), more);
            DecisionOf(g.orch.blocks, t).Some? ==> DecisionOf(g'.orch.blocks, t) == DecisionOf(g.orch.blocks, t)
  {
    ReachableInv(calls, inits, g0, steps, false, false);
    var g := Run(calls, g0, steps);
    RunExtends(calls, inits, g, false, false, more);
    RunKeepsInv(calls, inits, g, false, false, more);
    var g' := Run(calls, g, more);
    Final(g'.orch.blocks, |g.orch.blocks|, t);
  }
}
