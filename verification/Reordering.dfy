/** Runs that differ only in the order in which shards take in the decisions of a block
    reach the same system, up to the order of entries inside queues and blocks. */
module Reordering {
  import opened Protocol
  import opened EvmState
  import opened ShardSpec
  import opened History
  import opened ShardInvariant
  import opened ShardIntake
  import opened BlockBuffer
  import opened Network
  import opened OrderIndependence

  // ---------------------------------------------------------------------------
  // Shards
  // ---------------------------------------------------------------------------

  /** The same height, the same votes, the same transactions. */
  ghost predicate LikeBlock(b: ShardBlock, b': ShardBlock) {
    b'.height == b.height && b'.tpcPrepare == b.tpcPrepare && multiset(b'.txOrdering) == multiset(b.txOrdering)
  }

  ghost predicate LikeBlocks(blocks: seq<ShardBlock>, blocks': seq<ShardBlock>) {
    |blocks'| == |blocks| && forall i :: 0 <= i < |blocks| ==> LikeBlock(blocks[i], blocks'[i])
  }

  /** The same state, tables and heights; queues and blocks up to the order of decisions. */
  ghost predicate LikeShard(sh: Shard, sh': Shard) {
    && sh' == sh.(queue := sh'.queue, blocks := sh'.blocks)
    && Rearranged(sh.queue, sh'.queue)
    && LikeBlocks(sh.blocks, sh'.blocks)
  }

  lemma {:induction false} DecisionClasses(tb: Tables, s: int, results: map<TxId, bool>, order: seq<TxId>,
                                           e: Transaction)
    requires forall i :: 0 <= i < |order| ==> order[i] in results
    requires EMPTY_ID !in results && e in DecisionQueue(tb, s, results, order)
    ensures DecisionEntry(e)
  {
    var u := order[0];
    if e in DecisionEntries(tb, s, u, results[u]) {
      EntriesIds(tb, s, u, results[u]);
      if u in tb.credits { CreditAllIds(u, tb.credits[u]); }
    } else {
      DecisionClasses(tb, s, results, order[1..], e);
    }
  }

  /** One block's decisions in two orders. */
  lemma DecisionChunk(tb: Tables, s: int, results: map<TxId, bool>, o1: seq<TxId>, o2: seq<TxId>)
    requires Enumerates(o1, results.Keys) && Enumerates(o2, results.Keys) && EMPTY_ID !in results
    requires forall i :: 0 <= i < |o1| ==> o1[i] in results
    requires forall i :: 0 <= i < |o2| ==> o2[i] in results
    ensures GoodChunk(Chunk(DecisionQueue(tb, s, results, o1), DecisionQueue(tb, s, results, o2)))
  {
    var d1, d2 := DecisionQueue(tb, s, results, o1), DecisionQueue(tb, s, results, o2);
    forall t ensures OfTx(d1, t) == OfTx(d2, t) {
      DecisionQueueOfTx(tb, s, results, o1, t);
      DecisionQueueOfTx(tb, s, results, o2, t);
    }
    forall e | e in d1 || e in d2 ensures DecisionEntry(e) {
      if e in d1 { DecisionClasses(tb, s, results, o1, e); } else { DecisionClasses(tb, s, results, o2, e); }
    }
  }

  lemma SameIntake(sh: Shard, sh': Shard, r: Shard, r': Shard, b: OrchestratorBlock, o1: seq<TxId>, o2: seq<TxId>)
    requires forall i :: 0 <= i < |o1| ==> o1[i] in b.tpcResult
    requires forall i :: 0 <= i < |o2| ==> o2[i] in b.tpcResult
    requires TakenIn(sh, r, b, o1) && TakenIn(sh', r', b, o2) && sh' == sh.(queue := sh'.queue, blocks := sh'.blocks)
    ensures r' == r.(queue := r'.queue, blocks := r'.blocks)
  {
    IntakeTables(sh.(queue := r.queue, processed := r.processed), sh'.(queue := r'.queue, processed := r'.processed),
        b.ctToOrder);
    assert r.processed == r'.processed;
  }

  /** Taking in the next block, in any two orders of its decisions, keeps two shards alike. */
  lemma IterationOrderIrrelevant(call: Call, init: World, init': World, sh: Shard, sh': Shard,
                                 hist: seq<OrchestratorBlock>, b: OrchestratorBlock,
                                 o1: seq<TxId>, o2: seq<TxId>)
    requires LikeShard(sh, sh')
    requires CanProcess(call, init, sh, hist, true, true, b, o1)
        && CanProcess(call, init', sh', hist, true, true, b, o2)
    ensures forall i :: 0 <= i < |o1| ==> o1[i] in b.tpcResult
    ensures forall i :: 0 <= i < |o2| ==> o2[i] in b.tpcResult
    ensures LikeShard(Process(sh, b, o1), Process(sh', b, o2))
  {
    ProcessEffect(call, init, sh, hist, true, true, b, o1);
    ProcessEffect(call, init', sh', hist, true, true, b, o2);
    var r, r' := Process(sh, b, o1), Process(sh', b, o2);
    SameIntake(sh, sh', r, r', b, o1, o2);
    NoEmptyId(hist);
    DecisionChunk(sh.tables, sh.id, b.tpcResult, o1, o2);
    var d1, d2 := DecisionQueue(sh.tables, sh.id, b.tpcResult, o1), DecisionQueue(sh.tables, sh.id, b.tpcResult, o2);
    var l := LockQueue(b.ctToOrder, sh.id);
    AppendRearranged(sh.queue, sh'.queue, Chunk(d1, d2));
    AppendRearranged(sh.queue + d1, sh'.queue + d2, Chunk(l, l));
  }

  /** What the invariant says about a queue is enough to execute it in either order. */
  lemma QueueReady(call: Call, init: World, sh: Shard, hist: seq<OrchestratorBlock>)
    requires ShardInv(call, init, sh, hist, true, true)
    ensures Executable(Boundary(sh), OfPriority(sh.queue, 1)) && Releases(OfPriority(sh.queue, 2))
  {
    CommitClassExecutable(call, init, sh, hist);
    UnlockClass(sh.queue);
  }

  /** Producing a block keeps two shards alike: the same balances, storage, tables and
      votes, and the same transactions in the block. */
  lemma ProduceAlike(call: Call, init: World, sh: Shard, sh': Shard, hist: seq<OrchestratorBlock>)
    requires LikeShard(sh, sh') && ShardInv(call, init, sh, hist, true, true)
    ensures LikeShard(ProduceBlock(call, sh), ProduceBlock(call, sh'))
  {
    QueueReady(call, init, sh, hist);
    RearrangedEffect(call, Boundary(sh), sh.queue, sh'.queue);
    var x, y := Steps(call, Boundary(sh), ByPriority(sh.queue)), Steps(call, Boundary(sh), ByPriority(sh'.queue));
    EmptyRearranged();
    LikeBlocksGrow(sh.blocks, sh'.blocks, ShardBlock(|sh.blocks|, x.included, x.tables.prepares),
        ShardBlock(|sh.blocks|, y.included, y.tables.prepares));
  }

  lemma LikeBlocksGrow(blocks: seq<ShardBlock>, blocks': seq<ShardBlock>, b: ShardBlock, b': ShardBlock)
    requires LikeBlocks(blocks, blocks') && LikeBlock(b, b')
    ensures LikeBlocks(blocks + [b], blocks' + [b'])
  {
  }

  lemma RespectAlike(call: Call, init: World, sh: Shard, sh': Shard, hist: seq<OrchestratorBlock>)
    requires LikeShard(sh, sh') && ShardInv(call, init, sh, hist, true, true)
    requires AllRespect(call, Boundary(sh), ByPriority(sh.queue))
    ensures AllRespect(call, Boundary(sh'), ByPriority(sh'.queue))
  {
    QueueReady(call, init, sh, hist);
    RearrangedRespect(call, Boundary(sh), sh.queue, sh'.queue);
  }

  // ---------------------------------------------------------------------------
  // Systems
  // ---------------------------------------------------------------------------

  ghost predicate LikeNode(node: Node, node': Node) {
    node'.buffer == node.buffer && LikeShard(node.shard, node'.shard)
  }

  /** The same orchestrator, the same buffers, and shards alike. */
  ghost predicate LikeSystem(g: System, g': System) {
    g'.orch == g.orch && |g'.nodes| == |g.nodes| && forall s :: 0 <= s < |g.nodes| ==> LikeNode(g.nodes[s], g'.nodes[s])
  }

  /** The same step, but for the order of decisions. */
  ghost predicate LikeEvent(e: Event, e': Event) {
    e == e' || (e.BlockArrives? && e'.BlockArrives? && e.s == e'.s && e.h == e'.h)
  }

  ghost predicate LikeEvents(steps: seq<Event>, steps': seq<Event>) {
    |steps'| == |steps| && forall i :: 0 <= i < |steps| ==> LikeEvent(steps[i], steps'[i])
  }

  lemma SetAlike(g: System, g': System, s: nat, node: Node, node': Node)
    requires LikeSystem(g, g') && s < |g.nodes| && LikeNode(node, node')
    ensures LikeSystem(g.(nodes := g.nodes[s := node]), g'.(nodes := g'.nodes[s := node']))
  {
  }

  ghost predicate Invariant(calls: Calls, inits: seq<World>, g: System) {
    SystemInv(calls, inits, g, true, true)
  }

  /** Two shards of two systems with the same orchestrator that have taken in the first h blocks. */
  ghost predicate BothAt(calls: Calls, inits: seq<World>, g: System, g': System, s: nat, sh: Shard, sh': Shard,
                         h: nat) {
    && Invariant(calls, inits, g) && Invariant(calls, inits, g') && g'.orch == g.orch && s < NUM_SHARDS
        && LikeShard(sh, sh')
    && sh.id == s && sh.blocks == g.nodes[s].shard.blocks && sh'.blocks == g'.nodes[s].shard.blocks
    && sh.lastHeight + 1 == h <= |g.orch.blocks|
    && ShardInv(calls(s), inits[s], sh, g.orch.blocks[..h], true, true)
    && ShardInv(calls(s), inits[s], sh', g.orch.blocks[..h], true, true)
  }

  lemma OneBlockAlike(calls: Calls, inits: seq<World>, g: System, g': System, s: nat, sh: Shard, sh': Shard, h: nat,
                      order: seq<TxId>, order': seq<TxId>)
    requires BothAt(calls, inits, g, g', s, sh, sh', h) && h < |g.orch.blocks|
    requires Enumerates(order, g.orch.blocks[h].tpcResult.Keys) && Enumerates(order', g.orch.blocks[h].tpcResult.Keys)
    ensures forall i :: 0 <= i < |order| ==> order[i] in g.orch.blocks[h].tpcResult
    ensures forall i :: 0 <= i < |order'| ==> order'[i] in g.orch.blocks[h].tpcResult
    ensures BothAt(calls, inits, g, g', s, Process(sh, g.orch.blocks[h], order),
        Process(sh', g.orch.blocks[h], order'), h + 1)
  {
    OneBlockInv(calls, inits, g, true, true, s, sh, h, order);
    OneBlockInv(calls, inits, g', true, true, s, sh', h, order');
    IterationOrderIrrelevant(calls(s), inits[s], inits[s], sh, sh', g.orch.blocks[..h], g.orch.blocks[h], order,
        order');
  }

  /** Taking in a stretch of the chain, each block in any two orders. */
  lemma {:induction false} ProcessAllAlike(calls: Calls, inits: seq<World>, g: System, g': System, s: nat, sh: Shard,
                                           sh': Shard, n: nat,
                                           orders: seq<seq<TxId>>, orders': seq<seq<TxId>>)
    requires BothAt(calls, inits, g, g', s, sh, sh', sh.lastHeight + 1) && sh.lastHeight + 1 <= n <= |g.orch.blocks|
    requires ValidOrders(g.orch.blocks[sh.lastHeight + 1..n], orders)
        && ValidOrders(g.orch.blocks[sh.lastHeight + 1..n], orders')
    ensures var released := g.orch.blocks[sh.lastHeight + 1..n];
            LikeShard(ProcessAll(sh, released, orders), ProcessAll(sh', released, orders'))
    decreases n - sh.lastHeight
  {
    var h := sh.lastHeight + 1;
    var rest := g.orch.blocks[h..n];
    if h < n {
      assert rest[0] == g.orch.blocks[h] && rest[1..] == g.orch.blocks[h + 1..n];
      TailOrders(rest, orders);
      TailOrders(rest, orders');
      OneBlockAlike(calls, inits, g, g', s, sh, sh', h, orders[0], orders'[0]);
      ProcessAllAlike(calls, inits, g, g', s, Process(sh, g.orch.blocks[h], orders[0]),
          Process(sh', g.orch.blocks[h], orders'[0]), n, orders[1..], orders'[1..]);
    }
  }

  lemma ArrivalAlike(calls: Calls, inits: seq<World>, g: System, g': System, s: nat, h: nat, orders: seq<seq<TxId>>,
                     orders': seq<seq<TxId>>)
    requires Invariant(calls, inits, g) && Invariant(calls, inits, g') && LikeSystem(g, g')
    requires Enabled(g, BlockArrives(s, h, orders)) && Enabled(g', BlockArrives(s, h, orders'))
    ensures LikeSystem(Next(calls, g, BlockArrives(s, h, orders)), Next(calls, g', BlockArrives(s, h, orders')))
  {
    var node, node' := g.nodes[s], g'.nodes[s];
    assert NodeInv(calls, inits, g, true, true, s) && LikeNode(node, node');
    HeightIsPosition(g.orch.blocks, h);
    ReceiveChain(node.buffer, g.orch.blocks, h);
    var (buffer, released) := Receive(node.buffer, g.orch.blocks[h]);
    NodeFacts(calls, inits, g, true, true, s);
    NodeFacts(calls, inits, g', true, true, s);
    ProcessAllAlike(calls, inits, g, g', s, node.shard, node'.shard, buffer.expected, orders, orders');
    SetAlike(g, g', s, Node(ProcessAll(node.shard, released, orders), buffer),
        Node(ProcessAll(node'.shard, released, orders'), buffer));
  }

  lemma ShardProducesAlike(calls: Calls, inits: seq<World>, g: System, g': System, s: nat)
    requires Invariant(calls, inits, g) && LikeSystem(g, g') && s < NUM_SHARDS
    ensures LikeSystem(SetShard(g, s, ProduceBlock(calls(s), g.nodes[s].shard)),
        SetShard(g', s, ProduceBlock(calls(s), g'.nodes[s].shard)))
    ensures SafeShard(calls, g, s) ==> SafeShard(calls, g', s)
  {
    var node, node' := g.nodes[s], g'.nodes[s];
    assert LikeNode(node, node');
    NodeFacts(calls, inits, g, true, true, s);
    ProduceAlike(calls(s), inits[s], node.shard, node'.shard, Seen(g, s));
    if SafeShard(calls, g, s) { RespectAlike(calls(s), inits[s], node.shard, node'.shard, Seen(g, s)); }
    SetAlike(g, g', s, node.(shard := ProduceBlock(calls(s), node.shard)),
        node'.(shard := ProduceBlock(calls(s), node'.shard)));
  }

  ghost predicate SafeShard(calls: Calls, g: System, s: nat)
    requires s < |g.nodes|
  {
    AllRespect(calls(s), Boundary(g.nodes[s].shard), ByPriority(g.nodes[s].shard.queue))
  }

  lemma LocalAlike(g: System, g': System, s: nat, e: Transaction)
    requires LikeSystem(g, g') && s < |g.nodes|
    ensures var sh, sh' := g.nodes[s].shard, g'.nodes[s].shard;
            LikeSystem(SetShard(g, s, sh.(queue := sh.queue + [e])), SetShard(g', s, sh'.(queue := sh'.queue + [e])))
  {
    var node, node' := g.nodes[s], g'.nodes[s];
    assert LikeNode(node, node');
    AppendRearranged(node.shard.queue, node'.shard.queue, Chunk([e], [e]));
    SetAlike(g, g', s, node.(shard := node.shard.(queue := node.shard.queue + [e])),
        node'.(shard := node'.shard.(queue := node'.shard.queue + [e])));
  }

  lemma NextAlike(calls: Calls, inits: seq<World>, g: System, g': System, e: Event, e': Event)
    requires Invariant(calls, inits, g) && Invariant(calls, inits, g') && LikeSystem(g, g')
    requires Enabled(g, e) && Enabled(g', e') && LikeEvent(e, e')
    ensures LikeSystem(Next(calls, g, e), Next(calls, g', e'))
    ensures SafeStep(calls, g, e) ==> SafeStep(calls, g', e')
  {
    match e {
      case Submit(_) =>
      case OrchProduces =>
      case OrchTimeouts =>
      case BlockArrives(s, h, orders) => ArrivalAlike(calls, inits, g, g', s, h, orders, e'.orders);
      case LocalTx(s, local) => LocalAlike(g, g', s, local);
      case ShardProduces(s) => ShardProducesAlike(calls, inits, g, g', s);
      case VoteArrives(s, i, t) => assert LikeNode(g.nodes[s], g'.nodes[s])
                                   && LikeBlock(g.nodes[s].shard.blocks[i], g'.nodes[s].shard.blocks[i]);
    }
  }

  // ---------------------------------------------------------------------------
  // Runs
  // ---------------------------------------------------------------------------

  lemma {:induction false} RunAlike(calls: Calls, inits: seq<World>, g: System, g': System, steps: seq<Event>,
                                    steps': seq<Event>)
    requires Invariant(calls, inits, g) && Invariant(calls, inits, g') && LikeSystem(g, g')
    requires Legal(calls, g, steps) && Safe(calls, g, steps) && Legal(calls, g', steps') && LikeEvents(steps, steps')
    requires forall i :: 0 <= i < |steps| && steps[i].Submit? ==> WritesRead(steps[i].tx)
    ensures LikeSystem(Run(calls, g, steps), Run(calls, g', steps')) && Safe(calls, g', steps')
    decreases steps
  {
    if steps != [] {
      assert LikeEvent(steps[0], steps'[0]);
      NextAlike(calls, inits, g, g', steps[0], steps'[0]);
      NextInv(calls, inits, g, true, true, steps[0]);
      NextInv(calls, inits, g', true, true, steps'[0]);
      assert forall i :: 0 <= i < |steps[1..]| ==> steps[1..][i] == steps[i + 1] && steps'[1..][i] == steps'[i + 1];
      RunAlike(calls, inits, Next(calls, g, steps[0]), Next(calls, g', steps'[0]), steps[1..], steps'[1..]);
    }
  }

  lemma SelfAlike(g: System)
    ensures LikeSystem(g, g)
  {
    forall s | 0 <= s < |g.nodes| ensures LikeNode(g.nodes[s], g.nodes[s]) {
      var q := g.nodes[s].shard.queue;
      EmptyRearranged();
      AppendRearranged([], [], Chunk(q, q));
      assert [] + q == q;
    }
  }

  /** Take any safe and framed run, and any other legal run of the same steps in which
      shards may take in the decisions of each block in different orders, several blocks
      at once, with anything happening before their next block. Then the other run is safe
      too, and both end with the same orchestrator and, on every shard, the same balances,
      storage, tables, buffers and votes; blocks hold the same transactions, and queues
      differ only in the order of decisions of one block. */
  lemma OrderIrrelevantInEveryRun(calls: Calls, inits: seq<World>, g0: System, steps: seq<Event>, steps': seq<Event>)
    requires Reaches(calls, inits, g0, steps, true, true) && Legal(calls, g0, steps') && LikeEvents(steps, steps')
    ensures Reaches(calls, inits, g0, steps', true, true)
    ensures LikeSystem(Run(calls, g0, steps), Run(calls, g0, steps'))
  {
    InitialInv(calls, inits, g0, true, true);
    SelfAlike(g0);
    RunAlike(calls, inits, g0, g0, steps, steps');
    forall i | 0 <= i < |steps'| && steps'[i].Submit? ensures WritesRead(steps'[i].tx) {
      assert LikeEvent(steps[i], steps'[i]);
    }
  }
}
