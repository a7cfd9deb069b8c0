/** The whole system: one orchestrator and eight shards, exchanging blocks and votes
    over a network that may delay, reorder, repeat or lose any message. */
module Network {
  import opened Protocol
  import opened EvmState
  import opened ShardSpec
  import opened History
  import opened ShardInvariant
  import opened ShardSteps
  import opened ShardIntake
  import opened ShardBlocks
  import opened OrchestratorSpec
  import opened BlockBuffer

  datatype Node = Node(shard: Shard, buffer: Buffer)

  datatype System = System(orch: Orch, nodes: seq<Node>)

  /** One atomic step. Lost messages are steps that never happen; repeated or late
      ones are further steps with the same arguments. */
  datatype Event =
    | Submit(tx: CrossShardTx)                                   // a client hands in a cross-shard transaction
    | OrchProduces                                                  // the orchestrator produces a block
    | OrchTimeouts                                               // the orchestrator checks for overdue votes
    | BlockArrives(s: nat, h: nat, orders: seq<seq<TxId>>)       // orchestrator block h reaches shard s
    | LocalTx(s: nat, local: Transaction)                        // a local transaction is queued on shard s
    | ShardProduces(s: nat)                                         // shard s produces a block
    | VoteArrives(s: nat, i: nat,
        t: TxId)                       // the vote on t in block i of shard s reaches the orchestrator

  /** Contract execution on each shard. */
  type Calls = int -> Call

  ghost predicate ValidOrders(released: seq<OrchestratorBlock>, orders: seq<seq<TxId>>) {
    |orders| == |released| && forall i :: 0 <= i < |released| ==> Enumerates(orders[i], released[i].tpcResult.Keys)
  }

  lemma EnumeratesIn(order: seq<TxId>, ids: set<TxId>)
    requires Enumerates(order, ids)
    ensures forall i :: 0 <= i < |order| ==> order[i] in ids
  {
    forall i | 0 <= i < |order| ensures order[i] in ids { assert order[i] in order; }
  }

  /** Handle released blocks one after the other. */
  ghost function ProcessAll(sh: Shard, released: seq<OrchestratorBlock>, orders: seq<seq<TxId>>): Shard
    requires ValidOrders(released, orders)
    decreases released
  {
    if released == [] then sh
    else
      EnumeratesIn(orders[0], released[0].tpcResult.Keys);
      ProcessAll(Process(sh, released[0], orders[0]), released[1..], orders[1..])
  }

  ghost predicate Enabled(g: System, step: Event) {
    g.orch.blocks != [] &&
    match step
    case Submit(tx) => FreshId(g.orch, tx.id)
    case OrchProduces => true
    case OrchTimeouts => true
    case BlockArrives(s, h, orders) =>
      s < |g.nodes| && h < |g.orch.blocks| && ValidOrders(Receive(g.nodes[s].buffer, g.orch.blocks[h]).1, orders)
    case LocalTx(s, local) => s < |g.nodes| && local.txType.Local? && local.txId == EMPTY_ID
    case ShardProduces(s) => s < |g.nodes|
    case VoteArrives(s, i, t) => s < |g.nodes| && i < |g.nodes[s].shard.blocks|
                                 && t in g.nodes[s].shard.blocks[i].tpcPrepare
  }

  ghost function SetShard(g: System, s: nat, sh: Shard): System
    requires s < |g.nodes|
  {
    g.(nodes := g.nodes[s := g.nodes[s].(shard := sh)])
  }

  ghost function Next(calls: Calls, g: System, step: Event): System
    requires Enabled(g, step)
  {
    match step
    case Submit(tx) => g.(orch := AddTransaction(g.orch, tx))
    case OrchProduces => g.(orch := ProduceOrchBlock(g.orch))
    case OrchTimeouts => g.(orch := CheckTimeouts(g.orch))
    case BlockArrives(s, h, orders) =>
      var (buffer, released) := Receive(g.nodes[s].buffer, g.orch.blocks[h]);
      g.(nodes := g.nodes[s := Node(ProcessAll(g.nodes[s].shard, released, orders), buffer)])
    case LocalTx(s, local) => SetShard(g, s, g.nodes[s].shard.(queue := g.nodes[s].shard.queue + [local]))
    case ShardProduces(s) => SetShard(g, s, ProduceBlock(calls(s), g.nodes[s].shard))
    case VoteArrives(s, i, t) => g.(orch := RecordVote(g.orch, t, s, g.nodes[s].shard.blocks[i].tpcPrepare[t]))
  }

  ghost predicate Legal(calls: Calls, g: System, steps: seq<Event>)
    decreases steps
  {
    steps == [] || (Enabled(g, steps[0]) && Legal(calls, Next(calls, g, steps[0]), steps[1..]))
  }

  ghost function Run(calls: Calls, g: System, steps: seq<Event>): System
    requires Legal(calls, g, steps)
    decreases steps
  {
    if steps == [] then g else Run(calls, Next(calls, g, steps[0]), steps[1..])
  }

  /** Local transactions never spend reserved money. */
  ghost predicate SafeStep(calls: Calls, g: System, step: Event)
    requires Enabled(g, step)
  {
    step.ShardProduces? ==> AllRespect(calls(step.s), Boundary(g.nodes[step.s].shard),
                            ByPriority(g.nodes[step.s].shard.queue))
  }

  ghost predicate Safe(calls: Calls, g: System, steps: seq<Event>)
    requires Legal(calls, g, steps)
    decreases steps
  {
    steps == [] || (SafeStep(calls, g, steps[0]) && Safe(calls, Next(calls, g, steps[0]), steps[1..]))
  }

  /** Contract calls stay within their two addresses and written slots are read. */
  ghost predicate Framed(calls: Calls, steps: seq<Event>) {
    (forall s :: CallFrame(calls(s))) && forall i :: 0 <= i < |steps| && steps[i].Submit? ==> WritesRead(steps[i].tx)
  }

  const SHARD_GENESIS := ShardBlock(0, [], map[])

  ghost predicate Initial(g: System, inits: seq<World>) {
    && (exists timeout :: g.orch == NewOrch(timeout))
    && |g.nodes| == |inits| == NUM_SHARDS
    && forall s :: 0 <= s < NUM_SHARDS ==>
         && g.nodes[s].shard == Shard(s, inits[s], NO_TABLES, [], {}, 0, [SHARD_GENESIS])
         && (exists capacity :: g.nodes[s].buffer == NewBuffer(1, capacity))
  }

  // ---------------------------------------------------------------------------
  // The invariant
  // ---------------------------------------------------------------------------

  ghost function Seen(g: System, s: nat): seq<OrchestratorBlock>
    requires s < |g.nodes| && g.nodes[s].shard.lastHeight < |g.orch.blocks|
  {
    g.orch.blocks[..g.nodes[s].shard.lastHeight + 1]
  }

  ghost predicate NodeInv(calls: Calls, inits: seq<World>, g: System, safe: bool, framed: bool, s: nat)
    requires s < |g.nodes| && s < |inits|
  {
    var sh := g.nodes[s].shard;
    && sh.id == s
    && sh.lastHeight < |g.orch.blocks|
    && g.nodes[s].buffer.expected == sh.lastHeight + 1
    && FromChain(g.nodes[s].buffer, g.orch.blocks)
    && ShardInv(calls(s), inits[s], sh, Seen(g, s), safe, framed)
  }

  ghost predicate HasYes(g: System, s: int, t: TxId) {
    0 <= s < |g.nodes| && VoteOf(g.nodes[s].shard.blocks, t) == Some(true)
  }

  /** Recorded votes were cast; commits were unanimous. */
  ghost predicate VotesSound(g: System, t: TxId) {
    && (t in g.orch.votes ==> forall s :: s in g.orch.votes[t] ==> HasYes(g, s, t))
    && ((t in g.orch.result && g.orch.result[t]) || DecisionOf(g.orch.blocks, t) == Some(true) ==>
          OrderOf(g.orch.blocks, t).Some? && forall s :: Involved(OrderOf(g.orch.blocks, t).value, s) ==>
              HasYes(g, s, t))
  }

  ghost predicate AllWritesRead(o: Orch) {
    && (forall i :: 0 <= i < |o.pending| ==> WritesRead(o.pending[i]))
    && (forall t :: OrderOf(o.blocks, t).Some? ==> WritesRead(OrderOf(o.blocks, t).value))
  }

  ghost predicate SystemInv(calls: Calls, inits: seq<World>, g: System, safe: bool, framed: bool) {
    && OrchInv(g.orch)
    && |g.nodes| == |inits| == NUM_SHARDS
    && (framed ==> AllWritesRead(g.orch) && forall s :: CallFrame(calls(s)))
    && (forall s :: 0 <= s < NUM_SHARDS ==> NodeInv(calls, inits, g, safe, framed, s))
    && (forall t :: VotesSound(g, t))
  }

  // ---------------------------------------------------------------------------
  // Initially
  // ---------------------------------------------------------------------------

  lemma NewShardPhase(call: Call, init: World, s: int, safe: bool, framed: bool, t: TxId)
    requires t != EMPTY_ID
    ensures var sh := Shard(s, init, NO_TABLES, [], {}, 0, [SHARD_GENESIS]);
            PhaseAt(CtxOf(call, init, sh, [GENESIS], safe, framed), Boundary(sh), [], t)
  {
    var hist, blocks := [GENESIS], [SHARD_GENESIS];
    assert hist[..0] == [] && blocks[..0] == [];
    assert OrderIn(GENESIS.ctToOrder, t).None? && OrderOf(hist[..0], t).None?;
    assert VoteOf(blocks[..0], t).None?;
    assert LogOf(blocks) == [];
  }

  lemma NewHistory(timeout: nat)
    ensures WellFormed([GENESIS])
    ensures forall t :: OrderOf([GENESIS], t).None? && DecisionOf([GENESIS], t).None?
  {
    InitInv(timeout);
    var o := Orch([GENESIS], [], map[], map[], map[], map[], map[], timeout);
    forall t ensures OrderOf([GENESIS], t).None? && DecisionOf([GENESIS], t).None? { assert Placed(o, t); }
  }

  lemma NewShardInv(call: Call, init: World, s: int, safe: bool, framed: bool)
    requires framed ==> CallFrame(call)
    requires safe ==> forall a: Address :: Balance(init, a) >= 0
    ensures ShardInv(call, init, Shard(s, init, NO_TABLES, [], {}, 0, [SHARD_GENESIS]), [GENESIS], safe, framed)
  {
    var sh := Shard(s, init, NO_TABLES, [], {}, 0, [SHARD_GENESIS]);
    var c := CtxOf(call, init, sh, [GENESIS], safe, framed);
    NewHistory(0);
    EmptyQueueSorted();
    var blocks := [SHARD_GENESIS];
    assert LogOf(blocks[..0]) == [] && LogOf(blocks) == [];
    assert FullLog(c, Boundary(sh)) == LogOf(blocks) + [];
    forall t | t != EMPTY_ID ensures PhaseAt(c, Boundary(sh), [], t) {
      NewShardPhase(call, init, s, safe, framed, t);
    }
    forall a: Address ensures Reserved(map[], a) == 0 { assert LocksOn(map[], a) == map[]; }
    assert WriteOps([]) + WriteOps([]) == [];
  }

  lemma InitialInv(calls: Calls, inits: seq<World>, g: System, safe: bool, framed: bool)
    requires Initial(g, inits)
    requires framed ==> forall s :: CallFrame(calls(s))
    requires safe ==> forall s, a: Address :: 0 <= s < NUM_SHARDS ==> Balance(inits[s], a) >= 0
    ensures SystemInv(calls, inits, g, safe, framed)
  {
    var timeout :| g.orch == NewOrch(timeout);
    InitInv(timeout);
    NewHistory(timeout);
    forall s | 0 <= s < NUM_SHARDS ensures NodeInv(calls, inits, g, safe, framed, s) {
      NewShardInv(calls(s), inits[s], s, safe, framed);
      assert g.orch.blocks[..1] == [GENESIS];
    }
  }

  // ---------------------------------------------------------------------------
  // Steps of the orchestrator
  // ---------------------------------------------------------------------------

  /** Shards do not notice a longer orchestrator chain. */
  lemma NodesKeep(calls: Calls, inits: seq<World>, g: System, safe: bool, framed: bool, o': Orch, s: nat)
    requires SystemInv(calls, inits, g, safe, framed) && s < NUM_SHARDS
    requires |g.orch.blocks| <= |o'.blocks| && o'.blocks[..|g.orch.blocks|] == g.orch.blocks
    ensures NodeInv(calls, inits, g.(orch := o'), safe, framed, s)
  {
    var g' := g.(orch := o');
    var n := g.nodes[s].shard.lastHeight + 1;
    assert NodeInv(calls, inits, g, safe, framed, s);
    assert o'.blocks[..n] == o'.blocks[..|g.orch.blocks|][..n];
    assert Seen(g', s) == Seen(g, s);
    var buf := g.nodes[s].buffer;
    assert FromChain(buf, o'.blocks) by {
      forall h | h in buf.buffered ensures h < |o'.blocks| && buf.buffered[h] == o'.blocks[h] {
        assert o'.blocks[..|g.orch.blocks|][h] == o'.blocks[h];
      }
    }
  }

  lemma OrchStepInv(calls: Calls, inits: seq<World>, g: System, safe: bool, framed: bool, o': Orch)
    requires SystemInv(calls, inits, g, safe, framed)
    requires OrchInv(o') && (framed ==> AllWritesRead(o'))
    requires |g.orch.blocks| <= |o'.blocks| && o'.blocks[..|g.orch.blocks|] == g.orch.blocks
    requires forall t :: VotesSound(g.(orch := o'), t)
    ensures SystemInv(calls, inits, g.(orch := o'), safe, framed)
  {
    forall s | 0 <= s < NUM_SHARDS ensures NodeInv(calls, inits, g.(orch := o'), safe, framed, s) {
      NodesKeep(calls, inits, g, safe, framed, o', s);
    }
  }

  lemma SubmitInv(calls: Calls, inits: seq<World>, g: System, safe: bool, framed: bool, tx: CrossShardTx)
    requires SystemInv(calls, inits, g, safe, framed) && FreshId(g.orch, tx.id)
    requires framed ==> WritesRead(tx)
    ensures SystemInv(calls, inits, Next(calls, g, Submit(tx)), safe, framed)
  {
    var o' := AddTransaction(g.orch, tx);
    AddInv(g.orch, tx);
    forall t ensures VotesSound(g.(orch := o'), t) { assert VotesSound(g, t); }
    assert o'.blocks[..|g.orch.blocks|] == g.orch.blocks;
    OrchStepInv(calls, inits, g, safe, framed, o');
  }

  lemma TimeoutVotesSound(g: System, t: TxId)
    requires VotesSound(g, t)
    ensures VotesSound(g.(orch := CheckTimeouts(g.orch)), t)
  {
  }

  lemma TimeoutStepInv(calls: Calls, inits: seq<World>, g: System, safe: bool, framed: bool)
    requires SystemInv(calls, inits, g, safe, framed)
    ensures SystemInv(calls, inits, g.(orch := CheckTimeouts(g.orch)), safe, framed)
  {
    var o' := CheckTimeouts(g.orch);
    TimeoutsInv(g.orch);
    forall t ensures VotesSound(g.(orch := o'), t) { TimeoutVotesSound(g, t); }
    assert o'.blocks[..|g.orch.blocks|] == g.orch.blocks;
    OrchStepInv(calls, inits, g, safe, framed, o');
  }

  lemma ProduceVotesSound(g: System, t: TxId)
    requires OrchInv(g.orch) && VotesSound(g.(orch := CheckTimeouts(g.orch)), t)
    ensures VotesSound(g.(orch := ProduceOrchBlock(g.orch)), t)
  {
    var o, o1 := g.orch, CheckTimeouts(g.orch);
    TimeoutsInv(o);
    ProduceAt(o, t);
    AwaitAt(o1, o1.pending, |o.blocks|, t);
    assert Placed(o1, t);
    if DecisionOf(o.blocks, t).Some? { DecidedWasOrdered(o.blocks, t); }
  }

  lemma ProduceWritesRead(o: Orch)
    requires OrchInv(o) && AllWritesRead(o)
    ensures AllWritesRead(ProduceOrchBlock(o))
  {
    var o' := ProduceOrchBlock(o);
    forall t | OrderOf(o'.blocks, t).Some? ensures WritesRead(OrderOf(o'.blocks, t).value) {
      ProduceAt(o, t);
      OrderInFound(o.pending, t);
    }
    AwaitAt(CheckTimeouts(o), CheckTimeouts(o).pending, |o.blocks|, EMPTY_ID);
  }

  lemma OrchBlockInv(calls: Calls, inits: seq<World>, g: System, safe: bool, framed: bool)
    requires SystemInv(calls, inits, g, safe, framed)
    ensures SystemInv(calls, inits, Next(calls, g, OrchProduces), safe, framed)
  {
    var o, o' := g.orch, ProduceOrchBlock(g.orch);
    ProduceInv(o);
    TimeoutStepInv(calls, inits, g, safe, framed);
    forall t ensures VotesSound(g.(orch := o'), t) {
      assert VotesSound(g.(orch := CheckTimeouts(o)), t);
      ProduceVotesSound(g, t);
    }
    if framed { ProduceWritesRead(o); }
    ProduceAt(o, EMPTY_ID);
    OrchStepInv(calls, inits, g, safe, framed, o');
  }

  /** What a shard's block says is the shard's vote. */
  lemma CastVote(calls: Calls, inits: seq<World>, g: System, safe: bool, framed: bool, s: nat, i: nat, t: TxId)
    requires SystemInv(calls, inits, g, safe, framed) && s < NUM_SHARDS
    requires i < |g.nodes[s].shard.blocks| && t in g.nodes[s].shard.blocks[i].tpcPrepare
    ensures VoteOf(g.nodes[s].shard.blocks, t) == Some(g.nodes[s].shard.blocks[i].tpcPrepare[t])
  {
    assert NodeInv(calls, inits, g, safe, framed, s);
    assert VotesOnce(g.nodes[s].shard.blocks);
  }

  /** The orchestrator's entries for u are the same. */
  ghost predicate SameEntries(o: Orch, o': Orch, u: TxId) {
    Get(o'.votes, u) == Get(o.votes, u) && Get(o'.result, u) == Get(o.result, u)
  }

  lemma SettleFrame(o: Orch, t: TxId, committed: bool, u: TxId)
    ensures u != t ==> SameEntries(o, Settle(o, t, committed), u)
  {
  }

  lemma VoteFrame(o: Orch, t: TxId, s: int, yes: bool, u: TxId)
    ensures RecordVote(o, t, s, yes).blocks == o.blocks && RecordVote(o, t, s, yes).pending == o.pending
    ensures u != t ==> SameEntries(o, RecordVote(o, t, s, yes), u)
  {
    SettleFrame(o, t, true, u);
    SettleFrame(o, t, false, u);
  }

  lemma VotesStaySound(g: System, t: TxId, s: nat, yes: bool, u: TxId)
    requires OrchInv(g.orch) && VotesSound(g, u)
    requires s < |g.nodes| && VoteOf(g.nodes[s].shard.blocks, t) == Some(yes)
    ensures VotesSound(g.(orch := RecordVote(g.orch, t, s, yes)), u)
  {
    if u == t {
      NewVoteSound(g, t, s, yes);
    } else {
      VoteFrame(g.orch, t, s, yes, u);
      OtherVotesSound(g, RecordVote(g.orch, t, s, yes), u);
    }
  }

  lemma OtherVotesSound(g: System, o': Orch, u: TxId)
    requires VotesSound(g, u) && SameEntries(g.orch, o', u) && o'.blocks == g.orch.blocks
    ensures VotesSound(g.(orch := o'), u)
  {
    assert u in o'.votes <==> u in g.orch.votes;
    assert u in o'.result <==> u in g.orch.result;
  }

  lemma VoteStepInv(calls: Calls, inits: seq<World>, g: System, safe: bool, framed: bool, s: nat, i: nat, t: TxId)
    requires SystemInv(calls, inits, g, safe, framed) && Enabled(g, VoteArrives(s, i, t))
    ensures SystemInv(calls, inits, Next(calls, g, VoteArrives(s, i, t)), safe, framed)
  {
    var yes := g.nodes[s].shard.blocks[i].tpcPrepare[t];
    CastVote(calls, inits, g, safe, framed, s, i, t);
    RecordedInv(calls, inits, g, safe, framed, s, t, yes);
  }

  lemma RecordedInv(calls: Calls, inits: seq<World>, g: System, safe: bool, framed: bool, s: nat, t: TxId, yes: bool)
    requires SystemInv(calls, inits, g, safe, framed) && s < |g.nodes|
        && VoteOf(g.nodes[s].shard.blocks, t) == Some(yes)
    ensures SystemInv(calls, inits, g.(orch := RecordVote(g.orch, t, s, yes)), safe, framed)
  {
    var o' := RecordVote(g.orch, t, s, yes);
    VoteInv(g.orch, t, s, yes);
    VoteFrame(g.orch, t, s, yes, t);
    forall u ensures VotesSound(g.(orch := o'), u) {
      VotesStaySound(g, t, s, yes, u);
    }
    assert o'.blocks[..|g.orch.blocks|] == g.orch.blocks;
    OrchStepInv(calls, inits, g, safe, framed, o');
  }

  lemma NewVoteSound(g: System, t: TxId, s: nat, yes: bool)
    requires OrchInv(g.orch) && VotesSound(g, t)
    requires s < |g.nodes| && VoteOf(g.nodes[s].shard.blocks, t) == Some(yes)
    ensures VotesSound(g.(orch := RecordVote(g.orch, t, s, yes)), t)
  {
    var o := g.orch;
    if VoteAccepted(o, t, s) && yes {
      var votes := VotesFor(o, t)[s := yes];
      assert forall u :: u in votes ==> HasYes(g, u, t);
      assert Tracked(o, t) && Placed(o, t);
      if AllVoted(VotersFor(o, t), votes) {
        Unanimous(g, OrderOf(o.blocks, t).value, t, votes);
      }
    }
  }

  /** If every expected voter is among the YES votes, every involved shard voted YES. */
  lemma Unanimous(g: System, tx: CrossShardTx, t: TxId, votes: map<int, bool>)
    requires AllVoted(InvolvedShardsOf(tx), votes) && forall u :: u in votes ==> HasYes(g, u, t)
    ensures forall u :: Involved(tx, u) ==> HasYes(g, u, t)
  {
    InvolvedShardsAreTheVoters(tx);
    forall u | Involved(tx, u) ensures HasYes(g, u, t) {
      assert u in InvolvedShardsOf(tx);
    }
  }

  // ---------------------------------------------------------------------------
  // Steps of a shard
  // ---------------------------------------------------------------------------

  lemma {:induction false} VoteWitness(blocks: seq<ShardBlock>, t: TxId)
    requires VoteOf(blocks, t).Some?
    ensures exists i :: 0 <= i < |blocks| && t in blocks[i].tpcPrepare
                        && VoteOf(blocks, t) == Some(blocks[i].tpcPrepare[t])
  {
    var n := |blocks| - 1;
    if t !in blocks[n].tpcPrepare {
      VoteWitness(blocks[..n], t);
      var i :| 0 <= i < n && t in blocks[..n][i].tpcPrepare
               && VoteOf(blocks[..n], t) == Some(blocks[..n][i].tpcPrepare[t]);
      assert t in blocks[i].tpcPrepare;
    }
  }

  /** A vote, once cast, stays. */
  lemma VoteStays(sh: Shard, sh': Shard, t: TxId)
    requires |sh.blocks| <= |sh'.blocks| && sh'.blocks[..|sh.blocks|] == sh.blocks
    requires VotesOnce(sh'.blocks) && VoteOf(sh.blocks, t).Some?
    ensures VoteOf(sh'.blocks, t) == VoteOf(sh.blocks, t)
  {
    VoteWitness(sh.blocks, t);
    var i :| 0 <= i < |sh.blocks| && t in sh.blocks[i].tpcPrepare
             && VoteOf(sh.blocks, t) == Some(sh.blocks[i].tpcPrepare[t]);
    assert sh'.blocks[i] == sh.blocks[i];
  }

  lemma NodeStepInv(calls: Calls, inits: seq<World>, g: System, safe: bool, framed: bool, s: nat, node': Node)
    requires SystemInv(calls, inits, g, safe, framed) && s < NUM_SHARDS
    requires var sh, sh' := g.nodes[s].shard, node'.shard;
             |sh.blocks| <= |sh'.blocks| && sh'.blocks[..|sh.blocks|] == sh.blocks
    requires NodeInv(calls, inits, g.(nodes := g.nodes[s := node']), safe, framed, s)
    ensures SystemInv(calls, inits, g.(nodes := g.nodes[s := node']), safe, framed)
  {
    var g' := g.(nodes := g.nodes[s := node']);
    forall u | 0 <= u < NUM_SHARDS ensures NodeInv(calls, inits, g', safe, framed, u) {
      assert NodeInv(calls, inits, g, safe, framed, u);
    }
    forall t ensures VotesSound(g', t) {
      assert VotesSound(g, t);
      forall u | HasYes(g, u, t) ensures HasYes(g', u, t) {
        if u == s { VoteStays(g.nodes[s].shard, node'.shard, t); }
      }
    }
  }

  /** A node whose shard changes without taking in a block. */
  lemma ShardReplaced(calls: Calls, inits: seq<World>, g: System, safe: bool, framed: bool, s: nat, sh': Shard)
    requires SystemInv(calls, inits, g, safe, framed) && s < NUM_SHARDS
    requires var sh := g.nodes[s].shard;
             && |sh.blocks| <= |sh'.blocks| && sh'.blocks[..|sh.blocks|] == sh.blocks
             && sh'.id == sh.id && sh'.lastHeight == sh.lastHeight < |g.orch.blocks|
             && ShardInv(calls(s), inits[s], sh', Seen(g, s), safe, framed)
    ensures SystemInv(calls, inits, SetShard(g, s, sh'), safe, framed)
  {
    var node' := g.nodes[s].(shard := sh');
    var g' := g.(nodes := g.nodes[s := node']);
    assert NodeInv(calls, inits, g, safe, framed, s);
    assert Seen(g', s) == Seen(g, s);
    NodeStepInv(calls, inits, g, safe, framed, s, node');
  }

  lemma NodeFacts(calls: Calls, inits: seq<World>, g: System, safe: bool, framed: bool, s: nat)
    requires SystemInv(calls, inits, g, safe, framed) && s < NUM_SHARDS
    ensures g.nodes[s].shard.lastHeight < |g.orch.blocks| && g.nodes[s].shard.id == s
    ensures ShardInv(calls(s), inits[s], g.nodes[s].shard, Seen(g, s), safe, framed)
  {
    assert NodeInv(calls, inits, g, safe, framed, s);
  }

  lemma ShardBlockInv(calls: Calls, inits: seq<World>, g: System, safe: bool, framed: bool, s: nat)
    requires SystemInv(calls, inits, g, safe, framed) && s < NUM_SHARDS
    requires safe ==> SafeStep(calls, g, ShardProduces(s))
    ensures SystemInv(calls, inits, Next(calls, g, ShardProduces(s)), safe, framed)
  {
    var sh := g.nodes[s].shard;
    NodeFacts(calls, inits, g, safe, framed, s);
    ProduceBlockInv(calls(s), inits[s], sh, Seen(g, s), safe, framed);
    ShardReplaced(calls, inits, g, safe, framed, s, ProduceBlock(calls(s), sh));
  }

  lemma LocalQueued(call: Call, init: World, sh: Shard, hist: seq<OrchestratorBlock>, safe: bool, framed: bool,
                    e: Transaction)
    requires ShardInv(call, init, sh, hist, safe, framed) && e.txType.Local? && e.txId == EMPTY_ID
    ensures ShardInv(call, init, sh.(queue := sh.queue + [e]), hist, safe, framed)
  {
    var sh' := sh.(queue := sh.queue + [e]);
    var c := CtxOf(call, init, sh, hist, safe, framed);
    forall t | t != EMPTY_ID ensures PhaseAt(CtxOf(call, init, sh', hist, safe, framed), Boundary(sh'),
        ByPriority(sh'.queue), t) {
      OfTxByPriority(sh.queue, t);
      OfTxByPriority(sh'.queue, t);
      OfTxConcat(sh.queue, [e], t);
      OfTxAll([e], t);
      assert OfTx(sh.queue, t) + [] == OfTx(sh.queue, t);
      assert PhaseAt(c, Boundary(sh), ByPriority(sh.queue), t);
    }
    forall i | 0 <= i < |ByPriority(sh'.queue)| ensures ByPriority(sh'.queue)[i].txType.Local? <==>
        ByPriority(sh'.queue)[i].txId == EMPTY_ID {
      var d := ByPriority(sh'.queue)[i];
      ByPriorityMember(sh'.queue, d);
      ByPriorityMember(sh.queue, d);
    }
    AppendWriteOps(sh.queue, e);
    assert WriteOps(sh.queue) + [] == WriteOps(sh.queue);
  }

  lemma LocalTxInv(calls: Calls, inits: seq<World>, g: System, safe: bool, framed: bool, s: nat, e: Transaction)
    requires SystemInv(calls, inits, g, safe, framed) && s < NUM_SHARDS && e.txType.Local? && e.txId == EMPTY_ID
    ensures SystemInv(calls, inits, Next(calls, g, LocalTx(s, e)), safe, framed)
  {
    var sh := g.nodes[s].shard;
    NodeFacts(calls, inits, g, safe, framed, s);
    LocalQueued(calls(s), inits[s], sh, Seen(g, s), safe, framed, e);
    assert sh.blocks[..|sh.blocks|] == sh.blocks;
    ShardReplaced(calls, inits, g, safe, framed, s, sh.(queue := sh.queue + [e]));
  }

  /** The next orchestrator block can be taken in. */
  lemma NextBlockFits(calls: Calls, inits: seq<World>, g: System, safe: bool, framed: bool, s: nat, sh: Shard, h: nat)
    requires SystemInv(calls, inits, g, safe, framed) && s < NUM_SHARDS && h < |g.orch.blocks|
    requires sh.id == s && sh.blocks == g.nodes[s].shard.blocks && sh.lastHeight + 1 == h
    requires ShardInv(calls(s), inits[s], sh, g.orch.blocks[..h], safe, framed)
    ensures Follows(g.orch.blocks[..h], g.orch.blocks[h]) && Causal(sh, g.orch.blocks[..h], g.orch.blocks[h])
    ensures framed ==> forall i :: 0 <= i < |g.orch.blocks[h].ctToOrder| ==> WritesRead(g.orch.blocks[h].ctToOrder[i])
    ensures g.orch.blocks[..h] + [g.orch.blocks[h]] == g.orch.blocks[..h + 1]
  {
    var blocks, b := g.orch.blocks, g.orch.blocks[h];
    assert blocks[..h + 1][..h] == blocks[..h];
    Final(blocks, h + 1, EMPTY_ID);
    assert Follows(blocks[..h], b);
    forall t | t in b.tpcResult && b.tpcResult[t] && OrderOf(blocks[..h], t).Some?
        && Involved(OrderOf(blocks[..h], t).value, s)
      ensures VoteOf(sh.blocks, t) == Some(true)
    {
      DecidedOnce(blocks, h, t);
      Final(blocks, h, t);
      assert VotesSound(g, t);
      assert HasYes(g, s, t);
    }
    if framed {
      forall i | 0 <= i < |b.ctToOrder| ensures WritesRead(b.ctToOrder[i]) {
        OrderedOnce(blocks, h, i);
      }
    }
  }

  /** Taking in the next block. */
  lemma OneBlockInv(calls: Calls, inits: seq<World>, g: System, safe: bool, framed: bool, s: nat, sh: Shard, h: nat,
                    order: seq<TxId>)
    requires SystemInv(calls, inits, g, safe, framed) && s < NUM_SHARDS && h < |g.orch.blocks|
    requires sh.id == s && sh.blocks == g.nodes[s].shard.blocks && sh.lastHeight + 1 == h
    requires ShardInv(calls(s), inits[s], sh, g.orch.blocks[..h], safe, framed)
    requires Enumerates(order, g.orch.blocks[h].tpcResult.Keys)
    ensures CanProcess(calls(s), inits[s], sh, g.orch.blocks[..h], safe, framed, g.orch.blocks[h], order)
    ensures forall i :: 0 <= i < |order| ==> order[i] in g.orch.blocks[h].tpcResult
    ensures var sh' := Process(sh, g.orch.blocks[h], order);
            && sh'.id == s && sh'.blocks == sh.blocks && sh'.lastHeight == h
            && ShardInv(calls(s), inits[s], sh', g.orch.blocks[..h + 1], safe, framed)
  {
    NextBlockFits(calls, inits, g, safe, framed, s, sh, h);
    ProcessEffect(calls(s), inits[s], sh, g.orch.blocks[..h], safe, framed, g.orch.blocks[h], order);
    ProcessInv(calls(s), inits[s], sh, g.orch.blocks[..h], safe, framed, g.orch.blocks[h], order);
  }

  lemma TailOrders(released: seq<OrchestratorBlock>, orders: seq<seq<TxId>>)
    requires ValidOrders(released, orders) && released != []
    ensures ValidOrders(released[1..], orders[1..]) && Enumerates(orders[0], released[0].tpcResult.Keys)
  {
    assert forall i :: 0 <= i < |released[1..]| ==> released[1..][i] == released[i + 1];
  }

  /** Taking in a stretch of the chain. */
  lemma {:induction false} ProcessAllInv(calls: Calls, inits: seq<World>, g: System, safe: bool, framed: bool, s: nat,
                                         sh: Shard, n: nat, orders: seq<seq<TxId>>)
    requires SystemInv(calls, inits, g, safe, framed) && s < NUM_SHARDS
    requires sh.id == s && sh.blocks == g.nodes[s].shard.blocks
    requires sh.lastHeight + 1 <= n <= |g.orch.blocks|
    requires ShardInv(calls(s), inits[s], sh, g.orch.blocks[..sh.lastHeight + 1], safe, framed)
    requires ValidOrders(g.orch.blocks[sh.lastHeight + 1..n], orders)
    ensures var sh' := ProcessAll(sh, g.orch.blocks[sh.lastHeight + 1..n], orders);
            && sh'.id == s && sh'.blocks == sh.blocks && sh'.lastHeight + 1 == n
            && ShardInv(calls(s), inits[s], sh', g.orch.blocks[..n], safe, framed)
    decreases n - sh.lastHeight
  {
    var h := sh.lastHeight + 1;
    var rest := g.orch.blocks[h..n];
    if h < n {
      assert rest[0] == g.orch.blocks[h] && rest[1..] == g.orch.blocks[h + 1..n];
      TailOrders(rest, orders);
      OneBlockInv(calls, inits, g, safe, framed, s, sh, h, orders[0]);
      ProcessAllInv(calls, inits, g, safe, framed, s, Process(sh, g.orch.blocks[h], orders[0]), n, orders[1..]);
    }
  }

  lemma HeightIsPosition(blocks: seq<OrchestratorBlock>, h: nat)
    requires WellFormed(blocks) && h < |blocks|
    ensures blocks[h].height == h
  {
    Final(blocks, h + 1, EMPTY_ID);
    assert blocks[..h + 1][..h] == blocks[..h];
  }

  lemma NodeFrom(calls: Calls, inits: seq<World>, g: System, safe: bool, framed: bool, s: nat, sh: Shard,
                 buffer: Buffer)
    requires s < |g.nodes| && s < |inits| && sh.id == s && sh.lastHeight + 1 == buffer.expected <= |g.orch.blocks|
    requires FromChain(buffer, g.orch.blocks)
        && ShardInv(calls(s), inits[s], sh, g.orch.blocks[..buffer.expected], safe, framed)
    ensures NodeInv(calls, inits, g.(nodes := g.nodes[s := Node(sh, buffer)]), safe, framed, s)
  {
  }

  /** A node after taking in the blocks its buffer released. */
  lemma ArrivalNode(calls: Calls, inits: seq<World>, g: System, safe: bool, framed: bool, s: nat, buffer: Buffer,
                    orders: seq<seq<TxId>>)
    requires SystemInv(calls, inits, g, safe, framed) && s < NUM_SHARDS
    requires var n := g.nodes[s].shard.lastHeight + 1;
             n <= buffer.expected <= |g.orch.blocks| && ValidOrders(g.orch.blocks[n..buffer.expected], orders)
    requires FromChain(buffer, g.orch.blocks)
    ensures var sh := g.nodes[s].shard;
            var sh' := ProcessAll(sh, g.orch.blocks[sh.lastHeight + 1..buffer.expected], orders);
            sh'.blocks == sh.blocks && NodeInv(calls, inits, g.(nodes := g.nodes[s := Node(sh', buffer)]), safe,
                framed, s)
  {
    var sh := g.nodes[s].shard;
    NodeFacts(calls, inits, g, safe, framed, s);
    ProcessAllInv(calls, inits, g, safe, framed, s, sh, buffer.expected, orders);
    NodeFrom(calls, inits, g, safe, framed, s,
        ProcessAll(sh, g.orch.blocks[sh.lastHeight + 1..buffer.expected], orders), buffer);
  }

  lemma BlockArrivesInv(calls: Calls, inits: seq<World>, g: System, safe: bool, framed: bool, s: nat, h: nat,
                        orders: seq<seq<TxId>>)
    requires SystemInv(calls, inits, g, safe, framed) && s < NUM_SHARDS && Enabled(g, BlockArrives(s, h, orders))
    ensures SystemInv(calls, inits, Next(calls, g, BlockArrives(s, h, orders)), safe, framed)
  {
    var node, blocks := g.nodes[s], g.orch.blocks;
    assert NodeInv(calls, inits, g, safe, framed, s);
    HeightIsPosition(blocks, h);
    ReceiveChain(node.buffer, blocks, h);
    var (buffer, released) := Receive(node.buffer, blocks[h]);
    ArrivalNode(calls, inits, g, safe, framed, s, buffer, orders);
    var sh' := ProcessAll(node.shard, released, orders);
    assert sh'.blocks[..|node.shard.blocks|] == node.shard.blocks;
    NodeStepInv(calls, inits, g, safe, framed, s, Node(sh', buffer));
  }

  // ---------------------------------------------------------------------------
  // All runs
  // ---------------------------------------------------------------------------

  lemma NextInv(calls: Calls, inits: seq<World>, g: System, safe: bool, framed: bool, step: Event)
    requires SystemInv(calls, inits, g, safe, framed) && Enabled(g, step)
    requires safe ==> SafeStep(calls, g, step)
    requires framed && step.Submit? ==> WritesRead(step.tx)
    ensures SystemInv(calls, inits, Next(calls, g, step), safe, framed)
  {
    match step {
      case Submit(tx) => SubmitInv(calls, inits, g, safe, framed, tx);
      case OrchProduces => OrchBlockInv(calls, inits, g, safe, framed);
      case OrchTimeouts => TimeoutStepInv(calls, inits, g, safe, framed);
      case BlockArrives(s, h, orders) => BlockArrivesInv(calls, inits, g, safe, framed, s, h, orders);
      case LocalTx(s, local) => LocalTxInv(calls, inits, g, safe, framed, s, local);
      case ShardProduces(s) => ShardBlockInv(calls, inits, g, safe, framed, s);
      case VoteArrives(s, i, t) => VoteStepInv(calls, inits, g, safe, framed, s, i, t);
    }
  }

  lemma {:induction false} RunKeepsInv(calls: Calls, inits: seq<World>, g: System, safe: bool, framed: bool,
                                       steps: seq<Event>)
    requires SystemInv(calls, inits, g, safe, framed) && Legal(calls, g, steps)
    requires safe ==> Safe(calls, g, steps)
    requires framed ==> forall i :: 0 <= i < |steps| && steps[i].Submit? ==> WritesRead(steps[i].tx)
    ensures SystemInv(calls, inits, Run(calls, g, steps), safe, framed)
    decreases steps
  {
    if steps != [] {
      NextInv(calls, inits, g, safe, framed, steps[0]);
      assert forall i :: 0 <= i < |steps[1..]| ==> steps[1..][i] == steps[i + 1];
      RunKeepsInv(calls, inits, Next(calls, g, steps[0]), safe, framed, steps[1..]);
    }
  }

  /** g' is the outcome of a run from an initial system; `safe` and `framed` record
      which side conditions the run respects. */
  ghost predicate Reaches(calls: Calls, inits: seq<World>, g: System, steps: seq<Event>, safe: bool, framed: bool) {
    && Initial(g, inits)
    && Legal(calls, g, steps)
    && (safe ==> Safe(calls, g, steps) && forall s, a: Address :: 0 <= s < NUM_SHARDS ==> Balance(inits[s], a) >= 0)
    && (framed ==> Framed(calls, steps))
  }

  /** The invariant holds at the end of every run. */
  lemma ReachableInv(calls: Calls, inits: seq<World>, g: System, steps: seq<Event>, safe: bool, framed: bool)
    requires Reaches(calls, inits, g, steps, safe, framed)
    ensures SystemInv(calls, inits, Run(calls, g, steps), safe, framed)
  {
    InitialInv(calls, inits, g, safe, framed);
    RunKeepsInv(calls, inits, g, safe, framed, steps);
  }
}
