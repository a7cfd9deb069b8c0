/** Concrete runs, built one step at a time. */
module Scenarios {
  import opened Protocol
  import opened EvmState
  import opened ShardSpec
  import opened History
  import opened ShardInvariant
  import opened ShardSteps
  import opened OrchestratorSpec
  import opened BlockBuffer
  import opened Network

  ghost predicate LeadsBy(calls: Calls, g: System, safe: bool, steps: seq<Event>, g': System) {
    Legal(calls, g, steps) && (safe ==> Safe(calls, g, steps)) && Run(calls, g, steps) == g'
  }

  /** Some run leads from g to g'; if `safe`, one that respects the reservations. */
  ghost predicate Leads(calls: Calls, g: System, safe: bool, g': System) {
    exists steps :: LeadsBy(calls, g, safe, steps, g')
  }

  lemma {:induction false} OneMore(calls: Calls, g: System, safe: bool, steps: seq<Event>, g': System, e: Event)
    requires LeadsBy(calls, g, safe, steps, g') && Enabled(g', e) && (safe ==> SafeStep(calls, g', e))
    ensures LeadsBy(calls, g, safe, steps + [e], Next(calls, g', e))
    decreases steps
  {
    if steps == [] {
      assert [] + [e] == [e] && [e][1..] == [];
      assert Legal(calls, Next(calls, g, e), []) && Safe(calls, Next(calls, g, e), []);
    } else {
      OneMore(calls, Next(calls, g, steps[0]), safe, steps[1..], g', e);
      assert (steps + [e])[1..] == steps[1..] + [e];
    }
  }

  lemma Start(calls: Calls, g: System, safe: bool)
    ensures Leads(calls, g, safe, g)
  {
    assert LeadsBy(calls, g, safe, [], g);
  }

  lemma Moves(calls: Calls, g: System, safe: bool, g': System, e: Event)
    requires Leads(calls, g, safe, g') && Enabled(g', e) && (safe ==> SafeStep(calls, g', e))
    ensures Leads(calls, g, safe, Next(calls, g', e))
  {
    var steps :| LeadsBy(calls, g, safe, steps, g');
    OneMore(calls, g, safe, steps, g', e);
  }

  lemma Submits(calls: Calls, g: System, safe: bool, g': System, tx: CrossShardTx)
    requires Leads(calls, g, safe, g') && g'.orch.blocks != [] && FreshId(g'.orch, tx.id)
    ensures Leads(calls, g, safe, g'.(orch := AddTransaction(g'.orch, tx)))
  {
    Moves(calls, g, safe, g', Submit(tx));
  }

  lemma Orders(calls: Calls, g: System, safe: bool, g': System)
    requires Leads(calls, g, safe, g') && g'.orch.blocks != []
    ensures Leads(calls, g, safe, g'.(orch := ProduceOrchBlock(g'.orch)))
  {
    Moves(calls, g, safe, g', OrchProduces);
  }

  lemma Votes(calls: Calls, g: System, safe: bool, g': System, s: nat, i: nat, t: TxId)
    requires Leads(calls, g, safe, g') && g'.orch.blocks != [] && s < |g'.nodes|
    requires i < |g'.nodes[s].shard.blocks| && t in g'.nodes[s].shard.blocks[i].tpcPrepare
    ensures Leads(calls, g, safe, g'.(orch := RecordVote(g'.orch, t, s, g'.nodes[s].shard.blocks[i].tpcPrepare[t])))
  {
    Moves(calls, g, safe, g', VoteArrives(s, i, t));
  }

  lemma Locals(calls: Calls, g: System, safe: bool, g': System, s: nat, e: Transaction)
    requires Leads(calls, g, safe, g') && g'.orch.blocks != [] && s < |g'.nodes| && e.txType.Local?
        && e.txId == EMPTY_ID
    ensures Leads(calls, g, safe, SetShard(g', s, g'.nodes[s].shard.(queue := g'.nodes[s].shard.queue + [e])))
  {
    Moves(calls, g, safe, g', LocalTx(s, e));
  }

  lemma Produces(calls: Calls, g: System, safe: bool, g': System, s: nat)
    requires Leads(calls, g, safe, g') && g'.orch.blocks != [] && s < |g'.nodes|
    requires safe ==> NoLocals(g'.nodes[s].shard.queue)
    ensures Leads(calls, g, safe, SetShard(g', s, ProduceBlock(calls(s), g'.nodes[s].shard)))
  {
    var sh := g'.nodes[s].shard;
    if safe {
      forall e | e in ByPriority(sh.queue) ensures !e.txType.Local? { ByPriorityMember(sh.queue, e); }
      NoLocalsRespect(calls(s), Boundary(sh), ByPriority(sh.queue));
    }
    Moves(calls, g, safe, g', ShardProduces(s));
  }

  /** The next orchestrator block reaches a shard that has nothing buffered. */
  lemma Arrives(calls: Calls, g: System, safe: bool, g': System, s: nat, h: nat, order: seq<TxId>)
    requires Leads(calls, g, safe, g') && s < |g'.nodes| && h < |g'.orch.blocks|
    requires g'.orch.blocks[h].height == h == g'.nodes[s].buffer.expected && g'.nodes[s].buffer.buffered == map[]
    requires Enumerates(order, g'.orch.blocks[h].tpcResult.Keys)
    ensures forall i :: 0 <= i < |order| ==> order[i] in g'.orch.blocks[h].tpcResult
    ensures var node := g'.nodes[s];
            Leads(calls, g, safe, g'.(nodes := g'.nodes[s := Node(Process(node.shard, g'.orch.blocks[h], order),
                node.buffer.(expected := h + 1))]))
  {
    var node, b := g'.nodes[s], g'.orch.blocks[h];
    EnumeratesIn(order, b.tpcResult.Keys);
    assert Drain(h + 1, map[]) == (h + 1, map[], []);
    assert [b] + [] == [b];
    assert Receive(node.buffer, b) == (node.buffer.(expected := h + 1), [b]);
    assert ValidOrders([b], [order]);
    assert ProcessAll(node.shard, [b], [order]) == ProcessAll(Process(node.shard, b, order), [b][1..], [order][1..]);
    Moves(calls, g, safe, g', BlockArrives(s, h, [order]));
  }

  // ---------------------------------------------------------------------------
  // One transaction, ordered in block 1 and decided in block 2
  // ---------------------------------------------------------------------------

  /** The orchestrator after its first block, which orders tx. */
  ghost function AfterOrdering(timeout: nat, tx: CrossShardTx): Orch {
    Orch([GENESIS, OrchestratorBlock(1, map[], [tx])], [], map[tx.id := tx], map[], map[],
         map[tx.id := InvolvedShardsOf(tx)], map[tx.id := 1], timeout)
  }

  lemma FirstOrder(timeout: nat, tx: CrossShardTx)
    requires tx.id != EMPTY_ID
    ensures FreshId(NewOrch(timeout), tx.id)
    ensures ProduceOrchBlock(AddTransaction(NewOrch(timeout), tx)) == AfterOrdering(timeout, tx)
  {
    var o0 := AddTransaction(NewOrch(timeout), tx);
    assert OrderOf([GENESIS][..0], tx.id).None?;
    var o := CheckTimeouts(o0);
    assert Expired(o0) == {} && o == o0;
    assert [tx][..0] == [] && Await(o, [], 1) == o;
    assert Await(o, [tx], 1) == o.(awaiting := map[tx.id := tx], expected := map[tx.id := InvolvedShardsOf(tx)],
        start := map[tx.id := 1]);
  }

  lemma DecisiveVote(timeout: nat, tx: CrossShardTx, s: int, yes: bool)
    requires yes ==> InvolvedShardsOf(tx) == [s]
    ensures RecordVote(AfterOrdering(timeout, tx), tx.id, s, yes) == Settle(AfterOrdering(timeout, tx), tx.id, yes)
  {
    assert yes ==> AllVoted([s], map[s := true]);
  }

  /** A block of nothing but decisions. */
  lemma DecisionBlock(o: Orch)
    requires o.blocks != [] && o.pending == [] && o.awaiting == map[]
    ensures ProduceOrchBlock(o).blocks == o.blocks + [OrchestratorBlock(|o.blocks|, o.result, [])]
  {
    assert Expired(o) == {};
    assert CheckTimeouts(o).result == o.result;
  }

  /** The blocks after a decisive vote has come in before the second block. */
  lemma SecondBlock(timeout: nat, tx: CrossShardTx, s: int, yes: bool)
    requires tx.id != EMPTY_ID && (yes ==> InvolvedShardsOf(tx) == [s])
    ensures ProduceOrchBlock(RecordVote(AfterOrdering(timeout, tx), tx.id, s, yes)).blocks
         == [GENESIS, OrchestratorBlock(1, map[], [tx]), OrchestratorBlock(2, map[tx.id := yes], [])]
  {
    DecisiveVote(timeout, tx, s, yes);
    DecisionBlock(Settle(AfterOrdering(timeout, tx), tx.id, yes));
  }

  ghost function Fresh(s: int, w: World): Shard {
    Shard(s, w, NO_TABLES, [], {}, 0, [SHARD_GENESIS])
  }

  /** A new system whose orchestrator has ordered tx. */
  lemma Ordered(calls: Calls, g: System, safe: bool, timeout: nat, tx: CrossShardTx)
    requires g.orch == NewOrch(timeout) && tx.id != EMPTY_ID
    ensures Leads(calls, g, safe, g.(orch := AfterOrdering(timeout, tx)))
  {
    FirstOrder(timeout, tx);
    Start(calls, g, safe);
    Submits(calls, g, safe, g, tx);
    Orders(calls, g, safe, g.(orch := AddTransaction(g.orch, tx)));
  }
}
