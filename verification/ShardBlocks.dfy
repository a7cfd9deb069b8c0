/** Producing a block keeps the shard invariant. */
module ShardBlocks {
  import opened Protocol
  import opened EvmState
  import opened ShardSpec
  import opened History
  import opened ShardInvariant
  import opened ShardSteps

  // ---------------------------------------------------------------------------
  // Producing a block
  // ---------------------------------------------------------------------------

  /** Every queued storage write is executed, in order. */
  lemma {:induction false} StepsWriteOps(call: Call, x: Exec, txs: seq<Transaction>)
    ensures WriteOps(Steps(call, x, txs).included) == WriteOps(x.included) + WriteOps(txs)
    decreases txs
  {
    if txs != [] {
      StepLog(call, x, txs[0]);
      AppendWriteOps(x.included, txs[0]);
      StepsWriteOps(call, Step(call, x, txs[0]), txs[1..]);
    }
  }

  lemma AppendBlock(blocks: seq<ShardBlock>, b: ShardBlock, t: TxId)
    ensures LogOf(blocks + [b]) == LogOf(blocks) + b.txOrdering
    ensures VoteOf(blocks + [b], t) == if t in b.tpcPrepare then Some(b.tpcPrepare[t]) else VoteOf(blocks, t)
  {
    assert (blocks + [b])[..|blocks|] == blocks;
  }

  /** Sealing the block only moves log and votes into the chain. */
  lemma SealPhase(c: Ctx, x: Exec, b: ShardBlock, t: TxId)
    requires PhaseAt(c, x, [], t)
    requires b.txOrdering == x.included && b.tpcPrepare == x.tables.prepares
    ensures PhaseAt(c.(blocks := c.blocks + [b]), Exec(x.world, x.tables.(prepares := map[]), []), [], t)
  {
    AppendBlock(c.blocks, b, t);
    var c' := c.(blocks := c.blocks + [b]);
    var x' := Exec(x.world, x.tables.(prepares := map[]), []);
    assert FullLog(c', x') == FullLog(c, x);
    assert ViewOf(x'.tables, t) == ViewOf(x.tables, t).(vote := None);
  }

  lemma SealVotesOnce(c: Ctx, x: Exec, b: ShardBlock)
    requires VotesOnce(c.blocks) && b.tpcPrepare == x.tables.prepares && EMPTY_ID !in b.tpcPrepare
    requires forall t :: t != EMPTY_ID ==> PhaseAt(c, x, [], t)
    ensures VotesOnce(c.blocks + [b])
  {
    var blocks' := c.blocks + [b];
    forall t | t in b.tpcPrepare ensures VoteOf(c.blocks, t).None? {
      assert PhaseAt(c, x, [], t);
    }
    forall i, t | 0 <= i < |blocks'| && t in blocks'[i].tpcPrepare ensures VoteOf(blocks', t) ==
        Some(blocks'[i].tpcPrepare[t]) {
      AppendBlock(c.blocks, b, t);
    }
  }

  /** Only cross-shard transactions are voted on. */
  lemma {:induction false} StepsNoEmptyVote(call: Call, x: Exec, txs: seq<Transaction>)
    requires QueueOK(txs) && EMPTY_ID !in x.tables.prepares
    ensures EMPTY_ID !in Steps(call, x, txs).tables.prepares
    decreases txs
  {
    if txs != [] {
      CleanupPrepares(x.tables, txs[0]);
      StepsNoEmptyVote(call, Step(call, x, txs[0]), txs[1..]);
    }
  }

  lemma CleanupPrepares(tb: Tables, e: Transaction)
    ensures !e.txType.Lock? ==> CleanupAfterExecution(tb, e).prepares == tb.prepares
  {
  }

  lemma EmptyQueueSorted()
    ensures ByPriority([]) == []
  {
  }

  /** Producing a block keeps the shard invariant. */
  lemma ProduceBlockInv(call: Call, init: World, sh: Shard, hist: seq<OrchestratorBlock>, safe: bool, framed: bool)
    requires ShardInv(call, init, sh, hist, safe, framed)
    requires safe ==> AllRespect(call, Boundary(sh), ByPriority(sh.queue))
    ensures ShardInv(call, init, ProduceBlock(call, sh), hist, safe, framed)
  {
    var c := CtxOf(call, init, sh, hist, safe, framed);
    var txs := ByPriority(sh.queue);
    var x := Steps(call, Boundary(sh), txs);
    var sh' := ProduceBlock(call, sh);
    var b := sh'.blocks[|sh.blocks|];
    var c' := CtxOf(call, init, sh', hist, safe, framed);
    StepsInv(c, Boundary(sh), txs);
    AppendBlock(sh.blocks, b, EMPTY_ID);
    assert FullLog(c', Boundary(sh')) == FullLog(c, x);
    EmptyQueueSorted();
    forall t | t != EMPTY_ID ensures PhaseAt(c', Boundary(sh'), [], t) {
      assert PhaseAt(c, x, [], t);
      SealPhase(c, x, b, t);
    }
    StepsNoEmptyVote(call, Boundary(sh), txs);
    SealVotesOnce(c, x, b);
    StepsWriteOps(call, Boundary(sh), txs);
    WriteOpsByPriority(sh.queue);
    WriteOpsConcat(LogOf(sh.blocks), x.included);
    assert WriteOps(LogOf(sh'.blocks)) + WriteOps(sh'.queue) == WriteOps(LogOf(sh.blocks)) + WriteOps(sh.queue);
  }
}
