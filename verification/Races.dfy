/** Three runs in which a promise of the protocol is broken. LockRelease.AbortReleasesIff,
    ShardSteps.TransferCoveredIff and Conservation.ConservedIff give the exact conditions. */
module Races {
  import opened Protocol
  import opened EvmState
  import opened ShardSpec
  import opened History
  import opened ShardInvariant
  import opened ShardSteps
  import opened ShardIntake
  import opened OrchestratorSpec
  import opened BlockBuffer
  import opened Network
  import opened Conservation
  import opened LockRelease
  import opened Scenarios

  const SENDER: Address := 8    // lives on shard 0
  const RECEIVER: Address := 9  // lives on shard 1
  const FRIEND: Address := 16   // lives on shard 0
  const SHOP: Address := 24     // lives on shard 0

  function Ordering(tx: CrossShardTx): OrchestratorBlock {
    OrchestratorBlock(1, map[], [tx])
  }

  function Deciding(t: TxId, committed: bool): OrchestratorBlock {
    OrchestratorBlock(2, map[t := committed], [])
  }

  // ---------------------------------------------------------------------------
  // The source shard of a payment without reads there
  // ---------------------------------------------------------------------------

  /** A payment of shard 0 that reads and writes nothing on shard 0. */
  ghost predicate PlainPayment(tx: CrossShardTx) {
    tx.id != EMPTY_ID && tx.fromShard == 0 && tx.value > 0 && LocalRwSet(tx.rwSet, 0) == []
  }

  ghost function CreditTable(tx: CrossShardTx): map<TxId, seq<Funds>> {
    if Credited(tx, 0) then map[tx.id := [Funds(tx.to, tx.value)]] else map[]
  }

  /** Shard 0 with the payment's Lock queued. */
  ghost function Waiting0(w: World, tx: CrossShardTx): Shard {
    Fresh(0, w).(tables := NO_TABLES.(credits := CreditTable(tx)), queue := [LockTx(tx, 0)], lastHeight := 1)
  }

  ghost function HeldTables(tx: CrossShardTx): Tables {
    NO_TABLES.(locked := map[tx.id := Funds(tx.from, tx.value)], credits := CreditTable(tx), rwSets := map[tx.id := []])
  }

  /** Shard 0 with the payment locked and voted for. */
  ghost function Holding0(w: World, tx: CrossShardTx): Shard {
    Waiting0(w, tx).(tables := HeldTables(tx), queue := [],
                     blocks := [SHARD_GENESIS, ShardBlock(1, [LockTx(tx, 0)], map[tx.id := true])])
  }

  lemma SourceTakesIn(w: World, tx: CrossShardTx)
    requires PlainPayment(tx)
    ensures Process(Fresh(0, w), Ordering(tx), []) == Waiting0(w, tx)
  {
    var sh := Fresh(0, w);
    assert [] + [Funds(tx.to, tx.value)] == [Funds(tx.to, tx.value)];
    assert AddCredit(map[], tx.id, Funds(tx.to, tx.value)) == map[tx.id := [Funds(tx.to, tx.value)]];
    assert Intake(sh, tx) == Waiting0(w, tx).(lastHeight := 0);
    assert IntakeAll(sh, [tx]) == IntakeAll(Intake(sh, tx), [tx][1..]);
  }

  /** A Lock of a funded payment without a read set, when nothing is locked. */
  lemma LockAlone(call: Call, x: Exec, e: Transaction)
    requires e.txType.Lock? && e.txId != EMPTY_ID && e.rwSet == [] && 0 < e.value <= Balance(x.world, e.from)
    requires x.tables.locked == map[] && x.tables.slots == map[]
    ensures Step(call, x, e)
         == Exec(x.world, x.tables.(locked := map[e.txId := Funds(e.from, e.value)],
             rwSets := x.tables.rwSets[e.txId := []],
                                    prepares := x.tables.prepares[e.txId := true]), x.included + [e])
  {
    assert LocksOn(map[], e.from) == map[];
    assert Reserved(map[], e.from) == 0;
    assert ReadEntries([]) == [] && Keys([]) == {};
    assert LockSucceeds(x, e);
    LockTables(call, x, e);
    assert Acquire(map[], e.txId, {}) == map[];
    StepLog(call, x, e);
  }

  lemma OneStep(call: Call, x: Exec, e: Transaction)
    ensures Steps(call, x, [e]) == Step(call, x, e)
  {
    assert [e][1..] == [];
  }

  /** A block of a single entry. */
  lemma OneEntryBlock(call: Call, sh: Shard, e: Transaction, x: Exec)
    requires sh.queue == [e] && x == Step(call, Boundary(sh), e)
    ensures ProduceBlock(call, sh)
         == sh.(world := x.world, tables := x.tables.(prepares := map[]), queue := [],
                blocks := sh.blocks + [ShardBlock(|sh.blocks|, x.included, x.tables.prepares)])
  {
    ByPrioritySmall([e]);
    OneStep(call, Boundary(sh), e);
  }

  lemma SourceLocks(call: Call, w: World, tx: CrossShardTx)
    requires PlainPayment(tx) && tx.value <= Balance(w, tx.from)
    ensures ProduceBlock(call, Waiting0(w, tx)) == Holding0(w, tx)
  {
    var sh, e := Waiting0(w, tx), LockTx(tx, 0);
    LockAlone(call, Boundary(sh), e);
    OneEntryBlock(call, sh, e, Exec(w, HeldTables(tx).(prepares := map[tx.id := true]), [e]));
  }

  // ---------------------------------------------------------------------------
  // An abort overtaken by the Lock it should undo
  // ---------------------------------------------------------------------------

  /** Five units to an account on shard 1, simulated on a value that is not current there. */
  function Stale(value: Word): CrossShardTx {
    CrossShardTx(1, 0, SENDER, RECEIVER, 5, [], [RwVariable(RECEIVER, 1, [ReadSetItem(0, value)], [])])
  }

  lemma StaleShape(value: Word)
    ensures PlainPayment(Stale(value)) && LocalRwSet(Stale(value).rwSet, 1) == Stale(value).rwSet
    ensures ReadEntries(Stale(value).rwSet) == [Entry(SlotKey(RECEIVER, 0), value)]
    ensures !Credited(Stale(value), 0)
  {
    var rw := Stale(value).rwSet;
    assert rw[1..] == [] && rw[0].readSet[1..] == [];
    assert ReadsOf(RECEIVER, rw[0].readSet) == [Entry(SlotKey(RECEIVER, 0), value)] + ReadsOf(RECEIVER, []);
    assert ReadEntries(rw) == ReadsOf(RECEIVER, rw[0].readSet) + ReadEntries([]);
  }

  /** Shard 1 finds the read set out of date and votes NO. */
  lemma TargetRefuses(call: Call, w: World, value: Word)
    requires Load(w.storage, SlotKey(RECEIVER, 0)) != value
    ensures var sh := ProduceBlock(call, Process(Fresh(1, w), Ordering(Stale(value)), []));
            |sh.blocks| == 2 && 1 in sh.blocks[1].tpcPrepare && !sh.blocks[1].tpcPrepare[1]
  {
    var sh, tx := Fresh(1, w), Stale(value);
    StaleShape(value);
    var sh' := Intake(sh, tx);
    assert IntakeAll(sh, [tx]) == IntakeAll(sh', [tx][1..]);
    var e := LockTx(tx, 1);
    assert sh'.queue == [e] && sh'.tables.slots == map[];
    ByPrioritySmall([e]);
    var x := Boundary(sh');
    assert !Passes(w.storage, x.tables.slots, 1, ReadEntries(e.rwSet)[0]);
    assert !LockSucceeds(x, e);
    assert Step(call, x, e).tables == FailLock(x.tables, 1);
    OneStep(call, x, e);
  }

  const UNLOCK := Typed(Unlock, 1)

  /** The abort arrives while the Lock is still queued. */
  ghost function Overtaken(w: World, tx: CrossShardTx): Shard {
    Waiting0(w, tx).(queue := [LockTx(tx, 0), UNLOCK], processed := {1}, lastHeight := 2)
  }

  lemma AbortTakenIn(w: World, tx: CrossShardTx)
    requires PlainPayment(tx) && tx.id == 1 && !Credited(tx, 0)
    ensures Process(Waiting0(w, tx), Deciding(1, false), [1]) == Overtaken(w, tx)
  {
    var sh := Waiting0(w, tx);
    assert [1][1..] == [];
    assert AbortEntries(sh.tables, 1) == [];
    assert DecideAll(sh, Deciding(1, false).tpcResult, [1]) == Decide(sh, 1, false);
    assert [LockTx(tx, 0)] + ([] + [UNLOCK]) == [LockTx(tx, 0), UNLOCK];
  }

  function Only(e: Transaction, p: nat): seq<Transaction> {
    if e.txType.Priority() == p then [e] else []
  }

  lemma OneOfPriority(e: Transaction, p: nat)
    ensures OfPriority([e], p) == Only(e, p)
  {
    assert [e][1..] == [];
  }

  lemma SwappedByPriority(a: Transaction, b: Transaction)
    requires a.txType.Priority() > b.txType.Priority()
    ensures ByPriority([a, b]) == [b, a]
  {
    forall p: nat ensures OfPriority([a, b], p) == Only(a, p) + Only(b, p) {
      assert [a, b] == [a] + [b];
      OfPriorityConcat([a], [b], p);
      OneOfPriority(a, p);
      OneOfPriority(b, p);
    }
  }

  lemma TwoSteps(call: Call, x: Exec, a: Transaction, b: Transaction)
    ensures Steps(call, x, [a, b]) == Step(call, Step(call, x, a), b)
  {
    assert [a, b][1..] == [b];
    OneStep(call, Step(call, x, a), b);
  }

  lemma LeakyBlock(call: Call, w: World, tx: CrossShardTx)
    requires PlainPayment(tx) && tx.id == 1 && !Credited(tx, 0) && tx.value <= Balance(w, tx.from)
    ensures var sh := ProduceBlock(call, Overtaken(w, tx));
            sh.tables == HeldTables(tx) && Retired(sh, 1)
  {
    var e, x := LockTx(tx, 0), Exec(w, NO_TABLES, []);
    SwappedByPriority(e, UNLOCK);
    assert ClearAll(NO_TABLES, 1) == NO_TABLES;
    assert Step(call, x, UNLOCK) == Exec(w, NO_TABLES, [UNLOCK]);
    LockAlone(call, Exec(w, NO_TABLES, [UNLOCK]), e);
    TwoSteps(call, x, UNLOCK, e);
  }

  /** Everything up to the abort in the orchestrator's second block. */
  lemma RefusedByTarget(calls: Calls, g: System, inits: seq<World>, timeout: nat, value: Word)
    requires Initial(g, inits) && g.orch == NewOrch(timeout) && Load(inits[1].storage, SlotKey(RECEIVER, 0)) != value
    ensures exists g' :: Leads(calls, g, true, g') && |g'.nodes| == NUM_SHARDS && g'.nodes[0] == g.nodes[0]
                         && g'.orch.blocks == [GENESIS, Ordering(Stale(value)), Deciding(1, false)]
  {
    var tx := Stale(value);
    Ordered(calls, g, true, timeout, tx);
    var g1 := g.(orch := AfterOrdering(timeout, tx));
    Arrives(calls, g, true, g1, 1, 1, []);
    var sh := Process(Fresh(1, inits[1]), Ordering(tx), []);
    NewQueue(Fresh(1, inits[1]), tx);
    var g2 := g1.(nodes := g1.nodes[1 := Node(sh, g.nodes[1].buffer.(expected := 2))]);
    Produces(calls, g, true, g2, 1);
    TargetRefuses(calls(1), inits[1], value);
    var g3 := SetShard(g2, 1, ProduceBlock(calls(1), sh));
    Votes(calls, g, true, g3, 1, 1, 1);
    var g4 := g3.(orch := RecordVote(g3.orch, 1, 1, false));
    SecondBlock(timeout, tx, 1, false);
    Orders(calls, g, true, g4);
    var g5 := g4.(orch := ProduceOrchBlock(g4.orch));
    assert g5.nodes[0] == g.nodes[0];
  }

  lemma NewQueue(sh: Shard, tx: CrossShardTx)
    requires sh.queue == [] && sh.lastHeight == 0
    ensures NoLocals(Process(sh, Ordering(tx), []).queue)
  {
    assert IntakeAll(sh, [tx]) == IntakeAll(Intake(sh, tx), [tx][1..]);
  }

  /** Then shard 0 takes in both blocks before it produces its own. */
  lemma OvertakenBySource(calls: Calls, g: System, g': System, w: World, buf: Buffer, value: Word)
    requires Leads(calls, g, true, g') && g'.nodes != [] && g'.nodes[0] == Node(Fresh(0, w), buf)
    requires buf.expected == 1 && buf.buffered == map[]
    requires g'.orch.blocks == [GENESIS, Ordering(Stale(value)), Deciding(1, false)]
    ensures Leads(calls, g, true, SetShard(g'.(nodes := g'.nodes[0 := Node(Overtaken(w, Stale(value)),
        buf.(expected := 3))]), 0,
                                           ProduceBlock(calls(0), Overtaken(w, Stale(value)))))
  {
    var tx := Stale(value);
    StaleShape(value);
    SourceTakesIn(w, tx);
    Arrives(calls, g, true, g', 0, 1, []);
    var g1 := g'.(nodes := g'.nodes[0 := Node(Waiting0(w, tx), buf.(expected := 2))]);
    AbortTakenIn(w, tx);
    Arrives(calls, g, true, g1, 0, 2, [1]);
    var g2 := g1.(nodes := g1.nodes[0 := Node(Overtaken(w, tx), buf.(expected := 3))]);
    assert g2 == g'.(nodes := g'.nodes[0 := Node(Overtaken(w, tx), buf.(expected := 3))]);
    Produces(calls, g, true, g2, 0);
  }

  /** A shard can be left holding a lock of an aborted transaction with nothing queued
      that would release it: the abort arrives while the Lock is still queued, and the
      Unlock is executed first. By LeftoversAreForever it is never released. This happens
      for every timeout and all balances that cover the payment. */
  lemma AbortRaceLeaks(calls: Calls, g: System, inits: seq<World>, timeout: nat)
    requires Initial(g, inits) && g.orch == NewOrch(timeout)
    requires Balance(inits[0], SENDER) >= 5 && forall s, a: Address :: 0 <= s < NUM_SHARDS ==> Balance(inits[s], a) >= 0
    ensures exists steps :: Reaches(calls, inits, g, steps, true, false) && Leaks(Run(calls, g, steps))
  {
    var value := Load(inits[1].storage, SlotKey(RECEIVER, 0)) + 1;
    RefusedByTarget(calls, g, inits, timeout, value);
    var g' :| Leads(calls, g, true, g') && |g'.nodes| == NUM_SHARDS && g'.nodes[0] == g.nodes[0]
              && g'.orch.blocks == [GENESIS, Ordering(Stale(value)), Deciding(1, false)];
    OvertakenBySource(calls, g, g', inits[0], g.nodes[0].buffer, value);
    StaleShape(value);
    LeakyBlock(calls(0), inits[0], Stale(value));
    var g2 := SetShard(g'.(nodes := g'.nodes[0 := Node(Overtaken(inits[0], Stale(value)),
        g.nodes[0].buffer.(expected := 3))]), 0,
                       ProduceBlock(calls(0), Overtaken(inits[0], Stale(value))));
    var steps :| LeadsBy(calls, g, true, steps, g2);
    assert Leaks(Run(calls, g, steps)) by { AbortDecided(g2, value); }
  }

  lemma AbortDecided(g: System, value: Word)
    requires g.orch.blocks == [GENESIS, Ordering(Stale(value)), Deciding(1, false)]
    ensures DecisionOf(g.orch.blocks, 1) == Some(false)
  {
  }

  /** Transaction 1 is aborted, shard 0 has nothing left to do for it, and it holds five units. */
  ghost predicate Leaks(g: System) {
    && DecisionOf(g.orch.blocks, 1) == Some(false)
    && g.nodes != [] && Retired(g.nodes[0].shard, 1)
    && g.nodes[0].shard.tables.locked == map[1 := Funds(SENDER, 5)]
  }

  // ---------------------------------------------------------------------------
  // A transfer that bypasses its recipient's shard
  // ---------------------------------------------------------------------------

  /** Five units to an account on shard 1, without an entry for shard 1. */
  const STRAY := CrossShardTx(1, 0, SENDER, RECEIVER, 5, [], [])

  lemma StrayShape()
    ensures PlainPayment(STRAY) && InvolvedShardsOf(STRAY) == [0] && Strayed(STRAY)
  {
    assert [0] + [] == [0] && TargetShardsOf([]) == [];
  }

  /** The orchestrator has committed a payment that involves shard 0 only. */
  ghost predicate CommittedBy0(g: System, g': System, w: World, tx: CrossShardTx) {
    && |g'.nodes| == NUM_SHARDS == |g.nodes| && g'.orch.blocks == [GENESIS, Ordering(tx), Deciding(tx.id, true)]
    && (forall s :: 0 < s < NUM_SHARDS ==> g'.nodes[s] == g.nodes[s])
    && g'.nodes[0] == Node(Holding0(w, tx), g.nodes[0].buffer.(expected := 2))
  }

  lemma Committed(calls: Calls, g: System, inits: seq<World>, safe: bool, timeout: nat, tx: CrossShardTx)
    requires Initial(g, inits) && g.orch == NewOrch(timeout)
    requires PlainPayment(tx) && InvolvedShardsOf(tx) == [0] && tx.value <= Balance(inits[0], tx.from)
    ensures exists g' :: Leads(calls, g, safe, g') && CommittedBy0(g, g', inits[0], tx)
  {
    var w, buf := inits[0], g.nodes[0].buffer.(expected := 2);
    Ordered(calls, g, safe, timeout, tx);
    var g1 := g.(orch := AfterOrdering(timeout, tx));
    Arrives(calls, g, safe, g1, 0, 1, []);
    SourceTakesIn(w, tx);
    var g2 := g1.(nodes := g1.nodes[0 := Node(Waiting0(w, tx), buf)]);
    Produces(calls, g, safe, g2, 0);
    SourceLocks(calls(0), w, tx);
    var g3 := g2.(nodes := g2.nodes[0 := Node(Holding0(w, tx), buf)]);
    assert SetShard(g2, 0, Holding0(w, tx)) == g3;
    Votes(calls, g, safe, g3, 0, 1, tx.id);
    SecondBlock(timeout, tx, 0, true);
    var g4 := g3.(orch := RecordVote(g3.orch, tx.id, 0, true));
    Orders(calls, g, safe, g4);
    assert CommittedBy0(g, g4.(orch := ProduceOrchBlock(g4.orch)), w, tx);
  }

  /** Handling a decision queues no local transaction. */
  lemma DecisionQueuesNoLocals(sh: Shard, t: TxId, committed: bool)
    requires NoLocals(sh.queue) && sh.lastHeight == 1
    ensures NoLocals(Process(sh, Deciding(t, committed), [t]).queue)
  {
    assert [t][1..] == [];
    assert DecideAll(sh, Deciding(t, committed).tpcResult, [t]) == Decide(sh, t, committed);
    if t in sh.tables.credits { CreditAllIds(t, sh.tables.credits[t]); }
  }

  /** A shard has taken in both blocks and executed what they asked for. */
  ghost predicate CaughtUp(node: Node) {
    node.shard.lastHeight == 2 && node.shard.queue == []
  }

  ghost predicate CaughtUpTo(g: System, g': System, tx: CrossShardTx, n: nat) {
    && |g'.nodes| == NUM_SHARDS == |g.nodes| && g'.orch.blocks == [GENESIS, Ordering(tx), Deciding(tx.id, true)]
    && (forall s :: 0 <= s < n && s < NUM_SHARDS ==> CaughtUp(g'.nodes[s]))
    && (forall s :: n <= s < NUM_SHARDS ==> g'.nodes[s] == g.nodes[s])
  }

  lemma SourceCatchesUp(calls: Calls, g: System, inits: seq<World>, timeout: nat, tx: CrossShardTx)
    requires Initial(g, inits) && g.orch == NewOrch(timeout)
    requires PlainPayment(tx) && InvolvedShardsOf(tx) == [0] && tx.value <= Balance(inits[0], tx.from)
    ensures exists g' :: Leads(calls, g, true, g') && CaughtUpTo(g, g', tx, 1)
  {
    Committed(calls, g, inits, true, timeout, tx);
    var g' :| Leads(calls, g, true, g') && CommittedBy0(g, g', inits[0], tx);
    Arrives(calls, g, true, g', 0, 2, [tx.id]);
    var sh := Process(Holding0(inits[0], tx), Deciding(tx.id, true), [tx.id]);
    DecisionQueuesNoLocals(Holding0(inits[0], tx), tx.id, true);
    var g1 := g'.(nodes := g'.nodes[0 := Node(sh, g.nodes[0].buffer.(expected := 3))]);
    Produces(calls, g, true, g1, 0);
    assert CaughtUpTo(g, SetShard(g1, 0, ProduceBlock(calls(0), sh)), tx, 1);
  }

  lemma NextCatchesUp(calls: Calls, g: System, inits: seq<World>, g': System, tx: CrossShardTx, n: nat)
    requires Initial(g, inits) && 0 < n < NUM_SHARDS && Leads(calls, g, true, g') && CaughtUpTo(g, g', tx, n)
    ensures exists g'' :: Leads(calls, g, true, g'') && CaughtUpTo(g, g'', tx, n + 1)
  {
    var node := g.nodes[n];
    Arrives(calls, g, true, g', n, 1, []);
    var sh1 := Process(node.shard, Ordering(tx), []);
    NewQueue(node.shard, tx);
    var g1 := g'.(nodes := g'.nodes[n := Node(sh1, node.buffer.(expected := 2))]);
    Arrives(calls, g, true, g1, n, 2, [tx.id]);
    var sh2 := Process(sh1, Deciding(tx.id, true), [tx.id]);
    DecisionQueuesNoLocals(sh1, tx.id, true);
    var g2 := g1.(nodes := g1.nodes[n := Node(sh2, node.buffer.(expected := 3))]);
    Produces(calls, g, true, g2, n);
    assert CaughtUpTo(g, SetShard(g2, n, ProduceBlock(calls(n), sh2)), tx, n + 1);
  }

  lemma {:induction false} AllCatchUp(calls: Calls, g: System, inits: seq<World>, timeout: nat, tx: CrossShardTx,
                                      n: nat)
    requires Initial(g, inits) && g.orch == NewOrch(timeout) && 0 < n <= NUM_SHARDS
    requires PlainPayment(tx) && InvolvedShardsOf(tx) == [0] && tx.value <= Balance(inits[0], tx.from)
    ensures exists g' :: Leads(calls, g, true, g') && CaughtUpTo(g, g', tx, n)
    decreases n
  {
    if n == 1 {
      SourceCatchesUp(calls, g, inits, timeout, tx);
    } else {
      AllCatchUp(calls, g, inits, timeout, tx, n - 1);
      var g' :| Leads(calls, g, true, g') && CaughtUpTo(g, g', tx, n - 1);
      NextCatchesUp(calls, g, inits, g', tx, n - 1);
    }
  }

  lemma OneCommit(g: System, tx: CrossShardTx)
    requires tx.id != EMPTY_ID && g.orch.blocks == [GENESIS, Ordering(tx), Deciding(tx.id, true)]
    ensures Commits(g, [tx.id]) && OrderOf(g.orch.blocks, tx.id) == Some(tx)
  {
    var blocks := g.orch.blocks;
    assert blocks[..2] == [GENESIS, Ordering(tx)] && blocks[..2][..1] == [GENESIS] && [GENESIS][..0] == [];
    forall t ensures t in [tx.id] <==> DecisionOf(blocks, t) == Some(true) {
      assert DecisionOf([GENESIS], t).None?;
      assert DecisionOf(blocks[..2], t).None?;
    }
    assert OrderOf(blocks[..2], tx.id) == Some(tx);
  }

  /** Safe runs lose money: from any balances that cover the payment, a run commits a
      transfer to a shard that takes no part in it, everything is delivered and executed,
      and five units are gone. */
  lemma StrayedMoneyIsLost(calls: Calls, g: System, inits: seq<World>, timeout: nat)
    requires Initial(g, inits) && g.orch == NewOrch(timeout) && forall s :: CallConserves(calls(s))
    requires Balance(inits[0], SENDER) >= 5 && forall s, a: Address :: 0 <= s < NUM_SHARDS ==> Balance(inits[s], a) >= 0
    ensures exists steps :: Reaches(calls, inits, g, steps, true, false) && LosesFive(Run(calls, g, steps), inits)
  {
    StrayShape();
    AllCatchUp(calls, g, inits, timeout, STRAY, NUM_SHARDS);
    var g' :| Leads(calls, g, true, g') && CaughtUpTo(g, g', STRAY, NUM_SHARDS);
    var steps :| LeadsBy(calls, g, true, steps, g');
    OneCommit(g', STRAY);
    SettledTotal(calls, inits, g, steps, false, [1]);
    OneLost(g');
  }

  lemma OneLost(g: System)
    requires OrderOf(g.orch.blocks, 1) == Some(STRAY)
    ensures Lost(g, [1]) == 5
  {
    StrayShape();
    assert [1][1..] == [];
    assert Lost(g, []) == 0;
  }

  /** Everything is delivered and executed, and five units are missing. */
  ghost predicate LosesFive(g: System, inits: seq<World>) {
    Drained(g) && |g.nodes| == |inits| && Wealth(g, |g.nodes|) == InitialWealth(inits, |inits|) - 5
  }

  // ---------------------------------------------------------------------------
  // A local transfer that spends reserved money
  // ---------------------------------------------------------------------------

  /** Five units between two accounts of shard 0, submitted as a cross-shard transaction. */
  const GIFT := CrossShardTx(1, 0, SENDER, FRIEND, 5, [], [])
  const SPEND := Transaction(Local, EMPTY_ID, SENDER, SHOP, 5, [], [])
  const GIFT_DEBIT := Typed(CrossDebit, 1).(from := SENDER, value := 5)
  const GIFT_CREDIT := Typed(CrossCredit, 1).(to := FRIEND, value := 5)

  lemma GiftShape()
    ensures PlainPayment(GIFT) && InvolvedShardsOf(GIFT) == [0] && CreditTable(GIFT) == map[1 := [Funds(FRIEND, 5)]]
  {
    assert [0] + [] == [0] && TargetShardsOf([]) == [];
  }

  /** Shard 0 after the block with the local transfer. */
  ghost function Spent(w: World): Shard {
    Holding0(w, GIFT).(world := Transfer(w, SENDER, SHOP, 5),
        blocks := Holding0(w, GIFT).blocks + [ShardBlock(2, [SPEND], map[])])
  }

  ghost function Settling(w: World): Shard {
    Spent(w).(queue := [GIFT_DEBIT, GIFT_CREDIT, UNLOCK], processed := {1}, lastHeight := 2)
  }

  lemma ReservedIsSpent(call: Call, w: World)
    requires Balance(w, SENDER) == 5
    ensures ProduceBlock(call, Holding0(w, GIFT).(queue := [SPEND])) == Spent(w)
  {
    var sh := Holding0(w, GIFT).(queue := [SPEND]);
    var x := Boundary(sh);
    assert Step(call, x, SPEND) == Exec(Transfer(w, SENDER, SHOP, 5), HeldTables(GIFT), [SPEND]);
    OneEntryBlock(call, sh, SPEND, Exec(Transfer(w, SENDER, SHOP, 5), HeldTables(GIFT), [SPEND]));
  }

  lemma CommitTakenIn(w: World)
    ensures Process(Spent(w), Deciding(1, true), [1]) == Settling(w)
  {
    GiftShape();
    var tb := HeldTables(GIFT);
    assert [1][1..] == [] && [Funds(FRIEND, 5)][1..] == [];
    assert CreditAll(1, [Funds(FRIEND, 5)]) == [GIFT_CREDIT];
    assert CommitEntries(tb, 0, 1) == [GIFT_DEBIT, GIFT_CREDIT];
    assert DecideAll(Spent(w), Deciding(1, true).tpcResult, [1]) == Decide(Spent(w), 1, true);
  }

  lemma ThreeSteps(call: Call, x: Exec, a: Transaction, b: Transaction, c: Transaction)
    ensures Steps(call, x, [a, b, c]) == Step(call, Step(call, Step(call, x, a), b), c)
  {
    assert [a, b, c][1..] == [b, c];
    TwoSteps(call, Step(call, x, a), b, c);
  }

  lemma LastSteps(call: Call, w: World)
    requires Balance(w, SENDER) == 5
    ensures var x, w' := Boundary(Settling(w)), AddBalance(Transfer(w, SENDER, SHOP, 5), FRIEND, 5);
            && Step(call, x, GIFT_DEBIT) == x
            && Step(call, x, GIFT_CREDIT).world == w'
            && Step(call, Step(call, x, GIFT_CREDIT), UNLOCK).world == w'
  {
  }

  /** The debit finds the money gone; the credit is carried out all the same. */
  lemma CreditWithoutDebit(call: Call, w: World)
    requires Balance(w, SENDER) == 5
    ensures ProduceBlock(call, Settling(w)).world == AddBalance(Transfer(w, SENDER, SHOP, 5), FRIEND, 5)
  {
    CommitSorted([GIFT_DEBIT, GIFT_CREDIT], 1);
    assert [GIFT_DEBIT, GIFT_CREDIT] + [UNLOCK] == Settling(w).queue;
    LastSteps(call, w);
    ThreeSteps(call, Boundary(Settling(w)), GIFT_DEBIT, GIFT_CREDIT, UNLOCK);
  }

  /** The gift is locked and voted for, and the reserved money spent before the commit arrives. */
  lemma SpentBeforeCommit(calls: Calls, g: System, g': System, w: World, buf: Buffer)
    requires Leads(calls, g, false, g') && g'.nodes != [] && Balance(w, SENDER) == 5
    requires g'.orch.blocks == [GENESIS, Ordering(GIFT), Deciding(1, true)]
        && g'.nodes[0] == Node(Holding0(w, GIFT), buf)
    requires buf.expected == 2 && buf.buffered == map[]
    ensures Leads(calls, g, false, g'.(nodes := g'.nodes[0 := Node(Settling(w), buf.(expected := 3))]))
  {
    Locals(calls, g, false, g', 0, SPEND);
    assert [] + [SPEND] == [SPEND];
    var g1 := g'.(nodes := g'.nodes[0 := Node(Holding0(w, GIFT).(queue := [SPEND]), buf)]);
    Produces(calls, g, false, g1, 0);
    ReservedIsSpent(calls(0), w);
    var g2 := g'.(nodes := g'.nodes[0 := Node(Spent(w), buf)]);
    assert SetShard(g1, 0, Spent(w)) == g2;
    Arrives(calls, g, false, g2, 0, 2, [1]);
    CommitTakenIn(w);
    assert g2.nodes[0 := Node(Settling(w), buf.(expected := 3))] ==
        g'.nodes[0 := Node(Settling(w), buf.(expected := 3))];
  }

  lemma {:induction false} WealthElsewhere(g: System, g': System, n: nat)
    requires |g.nodes| == |g'.nodes| && 0 < n <= |g.nodes| && forall s :: 0 < s < |g.nodes| ==>
        g'.nodes[s] == g.nodes[s]
    ensures Wealth(g', n) - Wealth(g, n) == Total(g'.nodes[0].shard.world) - Total(g.nodes[0].shard.world)
  {
    if n > 1 {
      WealthElsewhere(g, g', n - 1);
    } else {
      assert Wealth(g, 0) == 0 == Wealth(g', 0);
    }
  }

  lemma {:induction false} WealthAtStart(g: System, inits: seq<World>, n: nat)
    requires Initial(g, inits) && n <= NUM_SHARDS
    ensures Wealth(g, n) == InitialWealth(inits, n)
  {
    if n > 0 { WealthAtStart(g, inits, n - 1); }
  }

  /** Local transfers may spend reserved money. Then the commit's debit fails while its
      credit succeeds, and the system has five units more than at the start. */
  lemma ReservedMoneySpentTwice(calls: Calls, g: System, inits: seq<World>, timeout: nat)
    requires Initial(g, inits) && g.orch == NewOrch(timeout) && Balance(inits[0], SENDER) == 5
    ensures exists steps :: Reaches(calls, inits, g, steps, false, false) && GainsFive(Run(calls, g, steps), inits)
  {
    var w, buf := inits[0], g.nodes[0].buffer.(expected := 2);
    GiftShape();
    Committed(calls, g, inits, false, timeout, GIFT);
    var g' :| Leads(calls, g, false, g') && CommittedBy0(g, g', w, GIFT);
    SpentBeforeCommit(calls, g, g', w, buf);
    var g1 := g'.(nodes := g'.nodes[0 := Node(Settling(w), buf.(expected := 3))]);
    Produces(calls, g, false, g1, 0);
    var g2 := SetShard(g1, 0, ProduceBlock(calls(0), Settling(w)));
    CreditWithoutDebit(calls(0), w);
    TransferTotal(w, SENDER, SHOP, 5);
    AddBalanceTotal(Transfer(w, SENDER, SHOP, 5), FRIEND, 5);
    WealthElsewhere(g, g2, NUM_SHARDS);
    WealthAtStart(g, inits, NUM_SHARDS);
    assert GainsFive(g2, inits);
    var steps :| LeadsBy(calls, g, false, steps, g2);
    assert GainsFive(Run(calls, g, steps), inits);
  }

  /** The system has five units more than at the start. */
  ghost predicate GainsFive(g: System, inits: seq<World>) {
    |g.nodes| == |inits| && Wealth(g, |g.nodes|) == InitialWealth(inits, |inits|) + 5
  }
}
