/** A shard server's handling of orchestrator blocks, on the objects of ShardChain and
    BlockBuffer: what arrives goes through the reorder buffer, and every block that
    leaves it queues decisions and new locks. */
module ShardServer {
  import opened Protocol
  import opened EvmState
  import opened ShardSpec
  import opened History
  import opened ShardInvariant
  import opened ShardSteps
  import opened ShardChain
  import opened BlockBuffer
  import opened Network

  class Server {
    const chain: Chain
    const evm: EVMState
    const blockBuffer: ReorderBuffer

    ghost function Model(): Node
      reads chain, chain.funds, chain.slotTable, evm, blockBuffer
    {
      Node(chain.Model(evm), blockBuffer.Model())
    }

    constructor (shardID: int, evm: EVMState, startHeight: nat, maxBuffer: int)
      ensures this.evm == evm && fresh(chain) && fresh(chain.funds) && fresh(chain.slotTable) && fresh(blockBuffer)
      ensures chain.Valid()
      ensures Model() == Node(Shard(shardID, evm.Current(), NO_TABLES, [], {}, 0, [SHARD_GENESIS]),
          NewBuffer(startHeight, maxBuffer))
    {
      this.evm := evm;
      chain := new Chain(shardID);
      blockBuffer := new ReorderBuffer(startHeight, maxBuffer);
    }

    /** The variables of a read-write set that live on this shard. */
    method FilterRwSet(rwSet: seq<RwVariable>) returns (localRwSet: seq<RwVariable>)
      ensures localRwSet == LocalRwSet(rwSet, chain.shardID)
    {
      localRwSet := [];
      for i := 0 to |rwSet|
        invariant localRwSet + LocalRwSet(rwSet[i..], chain.shardID) == LocalRwSet(rwSet, chain.shardID)
      {
        assert rwSet[i..][1..] == rwSet[i + 1..];
        if rwSet[i].shardNum == chain.shardID {
          localRwSet := localRwSet + [rwSet[i]];
        }
      }
      assert rwSet[|rwSet|..] == [] && localRwSet == localRwSet + [];
    }

    method QueueCredits(t: TxId, credits: seq<Funds>)
      modifies chain`currentTxs
      ensures chain.currentTxs == old(chain.currentTxs) + CreditAll(t, credits)
    {
      for i := 0 to |credits|
        invariant chain.currentTxs + CreditAll(t, credits[i..]) == old(chain.currentTxs) + CreditAll(t, credits)
      {
        assert credits[i..][1..] == credits[i + 1..];
        ghost var before := chain.currentTxs;
        chain.AddTx(Credit(t, credits[i]));
        assert chain.currentTxs + CreditAll(t, credits[i + 1..]) == before
            + ([Credit(t, credits[i])] + CreditAll(t, credits[i + 1..]));
      }
      assert credits[|credits|..] == [] && chain.currentTxs == chain.currentTxs + [];
    }

    method QueueFunds(t: TxId)
      modifies chain`currentTxs
      ensures chain.currentTxs == old(chain.currentTxs)
        + (if t in chain.funds.locked then [Debit(t, chain.funds.locked[t])] else [])
        + (if t in chain.pendingCredits then CreditAll(t, chain.pendingCredits[t]) else [])
    {
      if t in chain.funds.locked {
        chain.AddTx(Debit(t, chain.funds.locked[t]));
      }
      if t in chain.pendingCredits {
        QueueCredits(t, chain.pendingCredits[t]);
      }
    }

    method QueueWrites(t: TxId)
      modifies chain`currentTxs
      ensures var written := if t in chain.pendingCalls then LocalRwSet(chain.pendingCalls[t].rwSet,
          chain.shardID) else [];
              chain.currentTxs == old(chain.currentTxs)
                + (if written != [] then [WriteSetTx(t, written)] else [])
                + (if t in chain.pendingRwSets && chain.pendingRwSets[t] != [] then [FinalizeTx(t,
                    chain.pendingRwSets[t])] else [])
    {
      if t in chain.pendingCalls {
        var localRwSet := FilterRwSet(chain.pendingCalls[t].rwSet);
        if |localRwSet| > 0 {
          chain.AddTx(WriteSetTx(t, localRwSet));
        }
      }
      if t in chain.pendingRwSets && |chain.pendingRwSets[t]| > 0 {
        chain.AddTx(FinalizeTx(t, chain.pendingRwSets[t]));
      }
    }

    /** A commit queues every state change the shard holds for t. */
    method QueueCommit(t: TxId)
      modifies chain`currentTxs
      ensures chain.currentTxs == old(chain.currentTxs) + CommitEntries(chain.Content(), chain.shardID, t)
    {
      ghost var queue, tb, s := chain.currentTxs, chain.Content(), chain.shardID;
      ghost var debits := if t in tb.locked then [Debit(t, tb.locked[t])] else [];
      ghost var credits := if t in tb.credits then CreditAll(t, tb.credits[t]) else [];
      ghost var written := if t in tb.calls then LocalRwSet(tb.calls[t].rwSet, s) else [];
      ghost var writes := if written != [] then [WriteSetTx(t, written)] else [];
      ghost var final := if t in tb.rwSets && tb.rwSets[t] != [] then [FinalizeTx(t, tb.rwSets[t])] else [];
      assert CommitEntries(tb, s, t) == debits + credits + writes + final;
      QueueFunds(t);
      QueueWrites(t);
      Appended(queue, debits, credits, writes, final);
    }

    /** An abort queues a cleanup if the shard holds anything for t. */
    method QueueAbort(t: TxId)
      modifies chain`currentTxs
      ensures chain.currentTxs == old(chain.currentTxs) + AbortEntries(chain.Content(), t)
    {
      var hasData := t in chain.funds.locked || t in chain.pendingCredits || t in chain.pendingCalls
          || t in chain.pendingRwSets;
      if hasData {
        chain.AddTx(Typed(CrossAbort, t));
      }
    }

    method HandleDecision(t: TxId, committed: bool)
      modifies chain`currentTxs, chain`processedCommits
      ensures chain.Model(evm) == Decide(old(chain.Model(evm)), t, committed)
    {
      var isNew := chain.CheckAndMarkCommitProcessed(t);
      if !isNew {
        return;
      }
      if committed {
        QueueCommit(t);
      } else {
        QueueAbort(t);
      }
      chain.AddTx(Typed(Unlock, t));
    }

    /** The decisions of a block, in whatever order the map is walked. */
    method HandleDecisions(results: map<TxId, bool>) returns (ghost order: seq<TxId>)
      modifies chain`currentTxs, chain`processedCommits
      ensures Enumerates(order, results.Keys) && forall i :: 0 <= i < |order| ==> order[i] in results
      ensures chain.Model(evm) == DecideAll(old(chain.Model(evm)), results, order)
    {
      order := [];
      var remaining := results.Keys;
      while remaining != {}
        invariant remaining <= results.Keys && Enumerates(order, results.Keys - remaining)
        invariant forall i :: 0 <= i < |order| ==> order[i] in results
        invariant chain.Model(evm) == DecideAll(old(chain.Model(evm)), results, order)
        decreases remaining
      {
        var t :| t in remaining;
        DecideOneMore(old(chain.Model(evm)), results, order, t);
        EnumerateOneMore(order, results.Keys - remaining, t);
        HandleDecision(t, results[t]);
        assert results.Keys - (remaining - {t}) == results.Keys - remaining + {t};
        remaining := remaining - {t};
        order := order + [t];
      }
      assert results.Keys - {} == results.Keys;
    }

    /** A new transaction: an involved shard stores what a commit will need and queues a Lock. */
    method HandleNewTx(tx: CrossShardTx)
      modifies chain`currentTxs, chain`pendingCredits, chain`pendingCalls
      ensures chain.Model(evm) == Intake(old(chain.Model(evm)), tx)
    {
      var localRwSet := FilterRwSet(tx.rwSet);
      if tx.fromShard == chain.shardID {
        if tx.value > 0 && ShardOf(tx.to) == chain.shardID {
          chain.StorePendingCredit(tx.id, Funds(tx.to, tx.value));
        }
        chain.AddTx(Transaction(Lock, tx.id, tx.from, tx.to, tx.value, [], localRwSet));
      } else if |localRwSet| > 0 {
        if tx.value > 0 && ShardOf(tx.to) == chain.shardID {
          chain.StorePendingCredit(tx.id, Funds(tx.to, tx.value));
        }
        if |tx.data| > 0 {
          chain.StorePendingCall(tx);
        }
        chain.AddTx(Transaction(Lock, tx.id, tx.from, tx.to, 0, [], localRwSet));
      }
    }

    method ProcessOrchestratorBlock(block: OrchestratorBlock) returns (ghost order: seq<TxId>)
      modifies chain`currentTxs, chain`processedCommits, chain`pendingCredits, chain`pendingCalls,
          chain`lastOrchestratorHeight
      ensures Enumerates(order, block.tpcResult.Keys) && forall i :: 0 <= i < |order| ==> order[i] in block.tpcResult
      ensures chain.Model(evm) == Process(old(chain.Model(evm)), block, order)
    {
      if block.height <= chain.lastOrchestratorHeight {
        order := AnyOrder(block.tpcResult.Keys);
        return;
      }
      order := HandleDecisions(block.tpcResult);
      ghost var decided := chain.Model(evm);
      var txs := block.ctToOrder;
      assert txs[0..] == txs;
      for i := 0 to |txs|
        invariant IntakeAll(chain.Model(evm), txs[i..]) == IntakeAll(decided, txs)
        invariant chain.lastOrchestratorHeight == old(chain.lastOrchestratorHeight)
      {
        assert txs[i..][0] == txs[i] && txs[i..][1..] == txs[i + 1..];
        HandleNewTx(txs[i]);
      }
      assert txs[|txs|..] == [];
      chain.lastOrchestratorHeight := block.height;
    }

    /** Exactly the step of a shard when a block reaches it over the network. */
    method HandleOrchestratorShardBlock(block: OrchestratorBlock) returns (ghost orders: seq<seq<TxId>>)
      modifies blockBuffer
      modifies chain`currentTxs, chain`processedCommits, chain`pendingCredits, chain`pendingCalls,
          chain`lastOrchestratorHeight
      ensures var (buffer, released) := Receive(old(blockBuffer.Model()), block);
              ValidOrders(released, orders) && Model() ==
                  Node(ProcessAll(old(chain.Model(evm)), released, orders), buffer)
    {
      var blocksToProcess := blockBuffer.ProcessBlock(block);
      orders := [];
      for i := 0 to |blocksToProcess|
        invariant blockBuffer.Model() == Receive(old(blockBuffer.Model()), block).0
        invariant ValidOrders(blocksToProcess[..i], orders)
        invariant chain.Model(evm) == ProcessAll(old(chain.Model(evm)), blocksToProcess[..i], orders)
      {
        ghost var before := chain.Model(evm);
        ghost var order := ProcessOrchestratorBlock(blocksToProcess[i]);
        ProcessOneMore(old(chain.Model(evm)), blocksToProcess[..i], orders, blocksToProcess[i], order);
        assert blocksToProcess[..i + 1] == blocksToProcess[..i] + [blocksToProcess[i]];
        orders := orders + [order];
      }
      assert blocksToProcess[..|blocksToProcess|] == blocksToProcess;
    }
  }

  lemma Appended(queue: seq<Transaction>, a: seq<Transaction>, b: seq<Transaction>, c: seq<Transaction>,
                 d: seq<Transaction>)
    ensures queue + a + b + c + d == queue + (a + b + c + d)
  {
  }

  lemma {:induction false} DecideOneMore(sh: Shard, results: map<TxId, bool>, order: seq<TxId>, t: TxId)
    requires t in results && forall i :: 0 <= i < |order| ==> order[i] in results
    ensures forall i :: 0 <= i < |order + [t]| ==> (order + [t])[i] in results
    ensures DecideAll(sh, results, order + [t]) == Decide(DecideAll(sh, results, order), t, results[t])
    decreases order
  {
    if order == [] {
      assert [] + [t] == [t] && [t][1..] == [];
    } else {
      DecideOneMore(Decide(sh, order[0], results[order[0]]), results, order[1..], t);
      assert (order + [t])[1..] == order[1..] + [t];
    }
  }

  lemma EnumerateOneMore(order: seq<TxId>, ids: set<TxId>, t: TxId)
    requires Enumerates(order, ids) && t !in ids
    ensures Enumerates(order + [t], ids + {t})
  {
  }

  lemma {:induction false} ProcessOneMore(sh: Shard, released: seq<OrchestratorBlock>, orders: seq<seq<TxId>>,
                                          b: OrchestratorBlock, order: seq<TxId>)
    requires ValidOrders(released, orders) && Enumerates(order, b.tpcResult.Keys)
    requires forall i :: 0 <= i < |order| ==> order[i] in b.tpcResult
    ensures ValidOrders(released + [b], orders + [order])
    ensures ProcessAll(sh, released + [b], orders + [order]) == Process(ProcessAll(sh, released, orders), b, order)
    decreases released
  {
    if released == [] {
      assert ([] + [b])[1..] == [] && released + [b] == [b] && orders + [order] == [order];
      assert ProcessAll(sh, [b], [order]) == ProcessAll(Process(sh, b, order), [b][1..], [order][1..]);
    } else {
      EnumeratesIn(orders[0], released[0].tpcResult.Keys);
      ProcessOneMore(Process(sh, released[0], orders[0]), released[1..], orders[1..], b, order);
      assert (released + [b])[1..] == released[1..] + [b] && (orders + [order])[1..] == orders[1..] + [order];
    }
  }

  ghost function AnyOrder(ids: set<TxId>): (order: seq<TxId>)
    ensures Enumerates(order, ids)
  {
    if ids == {} then []
    else
      var t :| t in ids;
      AnyOrder(ids - {t}) + [t]
  }

  // ---------------------------------------------------------------------------
  // The producer's precondition
  // ---------------------------------------------------------------------------

  lemma {:induction false} LocksAreFresh(c: Ctx, x: Exec, rest: seq<Transaction>)
    requires CtxOK(c) && Inv(c, x, rest) && !c.safe
    ensures FreshLocks(c.call, x, rest)
    decreases rest
  {
    if rest != [] {
      if rest[0].txType.Lock? {
        OwnHead(c, x, rest, rest[0].txId);
        LockHead(c, ViewOf(x.tables, rest[0].txId), x.world.storage, OfTx(rest, rest[0].txId), FullLog(c, x),
            rest[0].txId);
      }
      StepInv(c, x, rest);
      LocksAreFresh(c, Step(c.call, x, rest[0]), rest[1..]);
    }
  }

  /** In every reachable state, a shard whose objects hold that state may produce a
      block: no id is locked twice, so the address index of the fund locks stays right. */
  lemma ProducerMayRun(calls: Calls, inits: seq<World>, g0: System, steps: seq<Event>, s: nat)
    requires Reaches(calls, inits, g0, steps, false, false) && s < NUM_SHARDS
    ensures var g := Run(calls, g0, steps);
            s < |g.nodes| && FreshLocks(calls(s), Boundary(g.nodes[s].shard), ByPriority(g.nodes[s].shard.queue))
  {
    ReachableInv(calls, inits, g0, steps, false, false);
    var g := Run(calls, g0, steps);
    assert NodeInv(calls, inits, g, false, false, s);
    var sh := g.nodes[s].shard;
    LocksAreFresh(CtxOf(calls(s), inits[s], sh, Seen(g, s), false, false), Boundary(sh), ByPriority(sh.queue));
  }
}
