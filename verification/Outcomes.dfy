/** What becomes of each queued transaction in the next block, in terms of the state at its
    turn: which Locks are voted YES, which local transactions run, and what they change. */
module Outcomes {
  import opened Protocol
  import opened EvmState
  import opened RwItems
  import opened ShardSpec
  import opened History
  import opened ShardInvariant
  import opened ShardSteps
  import opened ShardIntake
  import opened ShardBlocks
  import opened BlockBuffer
  import opened Network

  // ---------------------------------------------------------------------------
  // One Lock
  // ---------------------------------------------------------------------------

  /** The sender can pay all of its reservations, the one of e included. */
  ghost predicate Payable(x: Exec, e: Transaction) {
    e.value > 0 ==> Reserved(x.tables.locked[e.txId := Funds(e.from, e.value)], e.from) <= Balance(x.world, e.from)
  }

  /** So can every address. */
  ghost predicate AllPayable(x: Exec, e: Transaction) {
    e.value > 0 ==> Covered(x.tables.locked[e.txId := Funds(e.from, e.value)], x.world)
  }

  /** Read item j of variable i is current, and its slot is free or e's own. */
  predicate Fresh(x: Exec, e: Transaction, i: nat, j: nat)
    requires i < |e.rwSet| && j < |e.rwSet[i].readSet|
  {
    var k := SlotKey(e.rwSet[i].address, e.rwSet[i].readSet[j].slot);
    Load(x.world.storage, k) == e.rwSet[i].readSet[j].value && (k in x.tables.slots ==> x.tables.slots[k] == e.txId)
  }

  ghost predicate AllFresh(x: Exec, e: Transaction) {
    forall i: nat, j: nat :: i < |e.rwSet| && j < |e.rwSet[i].readSet| ==> Fresh(x, e, i, j)
  }

  lemma FreshIffPasses(x: Exec, e: Transaction)
    ensures ReadSetPasses(x, e) <==> AllFresh(x, e)
  {
    var entries := ReadEntries(e.rwSet);
    var n := PassCount(x.world.storage, x.tables.slots, e.txId, entries);
    if n == |entries| {
      forall i: nat, j: nat | i < |e.rwSet| && j < |e.rwSet[i].readSet| ensures Fresh(x, e, i, j) {
        var m := ReadEntryOf(e.rwSet, i, j);
        assert Passes(x.world.storage, x.tables.slots, e.txId, entries[m]);
      }
    } else {
      var i, j := ReadItemOf(e.rwSet, n);
      assert !Fresh(x, e, i, j);
    }
  }

  lemma PayableIffAvailable(x: Exec, e: Transaction)
    requires e.txId !in x.tables.locked
    ensures FundsAvailable(x, e) <==> Payable(x, e)
    ensures Covered(x.tables.locked, x.world) ==> (Payable(x, e) <==> AllPayable(x, e))
  {
    var f := Funds(e.from, e.value);
    ReservedWith(x.tables.locked, e.txId, f, e.from);
    if Covered(x.tables.locked, x.world) {
      LockCoveredIff(x.tables.locked, x.world, e.txId, f);
    }
  }

  /** A Lock of a transaction that has nothing reserved is voted YES exactly when its sender
      can still pay all reservations with the new one (in a covered state: when everybody
      can) and every read item is current and its slot free or its own. */
  lemma VoteIff(call: Call, x: Exec, e: Transaction)
    requires e.txType.Lock? && e.txId != EMPTY_ID && e.txId !in x.tables.locked
    ensures var votes := Step(call, x, e).tables.prepares;
            && e.txId in votes
            && (votes[e.txId] <==> Payable(x, e) && AllFresh(x, e))
            && (Covered(x.tables.locked, x.world) ==> (votes[e.txId] <==> AllPayable(x, e) && AllFresh(x, e)))
  {
    FreshIffPasses(x, e);
    PayableIffAvailable(x, e);
    assert Step(call, x, e) == StepLock(x, e);
    if LockSucceeds(x, e) {
      LockTables(call, x, e);
    }
  }

  // ---------------------------------------------------------------------------
  // The vote reaches the block
  // ---------------------------------------------------------------------------

  lemma {:induction false} VoteStays(call: Call, x: Exec, txs: seq<Transaction>, t: TxId)
    requires forall i :: 0 <= i < |txs| && txs[i].txId == t ==> !txs[i].txType.Lock?
    ensures Get(Steps(call, x, txs).tables.prepares, t) == Get(x.tables.prepares, t)
    decreases txs
  {
    if txs != [] {
      var e := txs[0];
      if e.txId == t {
        CleanupPrepares(x.tables, e);
      } else {
        StepFrame(call, x, e, t);
        assert ViewOf(Step(call, x, e).tables, t).vote == ViewOf(x.tables, t).vote;
      }
      VoteStays(call, Step(call, x, e), txs[1..], t);
    }
  }

  lemma VoteKept(call: Call, x: Exec, q: seq<Transaction>, i: nat)
    requires i < |q|
    requires forall m :: 0 < m < |q[i..]| && q[i..][m].txId == q[i].txId ==> !q[i..][m].txType.Lock?
    ensures var y := Step(call, Steps(call, x, q[..i]), q[i]);
            Get(Steps(call, x, q).tables.prepares, q[i].txId) == Get(y.tables.prepares, q[i].txId)
  {
    var rest := q[i..];
    assert q[..i] + rest == q && rest[0] == q[i];
    StepsConcat(call, x, q[..i], rest);
    assert forall m :: 0 <= m < |rest[1..]| ==> rest[1..][m] == rest[m + 1];
    VoteStays(call, Step(call, Steps(call, x, q[..i]), q[i]), rest[1..], q[i].txId);
  }

  /** A transaction has at most one Lock in the queue. */
  lemma SingleLock(c: Ctx, v: View, st: map<SlotKey, Word>, rest: seq<Transaction>, log: seq<Transaction>, t: TxId)
    requires AtHead(c, v, st, rest, log, t) && rest[0].txType.Lock?
    ensures forall j :: 0 < j < |rest| ==> !rest[j].txType.Lock?
  {
    LockHead(c, v, st, rest, log, t);
  }

  lemma NoSecondLock(c: Ctx, x: Exec, rest: seq<Transaction>)
    requires rest != [] && OwnStep(c, x, rest, rest[0].txId) && rest[0].txType.Lock?
    ensures forall i :: 0 < i < |rest| && rest[i].txId == rest[0].txId ==> !rest[i].txType.Lock?
  {
    var t := rest[0].txId;
    OwnHead(c, x, rest, t);
    SingleLock(c, ViewOf(x.tables, t), x.world.storage, OfTx(rest, t), FullLog(c, x), t);
    forall i | 0 < i < |rest| && rest[i].txId == t ensures !rest[i].txType.Lock? {
      assert rest[i] in rest[1..];
      OfTxMember(rest[1..], t, rest[i]);
      assert rest[i] in OfTx(rest, t)[1..];
      var m :| 0 <= m < |OfTx(rest, t)[1..]| && OfTx(rest, t)[1..][m] == rest[i];
      assert OfTx(rest, t)[m + 1] == rest[i];
    }
  }

  /** Nothing that precedes a Lock in the execution order is a local transaction. */
  lemma BeforeLock(q: seq<Transaction>, i: nat)
    requires i < |ByPriority(q)| && ByPriority(q)[i].txType.Lock?
    ensures NoLocals(ByPriority(q)[..i])
  {
    ByPriorityIsStableSort(q);
    forall e | e in ByPriority(q)[..i] ensures !e.txType.Local? {
      var j :| 0 <= j < i && ByPriority(q)[..i][j] == e;
      assert ByPriority(q)[j] == e;
    }
  }

  /** The state of block production when it is the turn of entry i. */
  ghost function AtTurn(call: Call, sh: Shard, i: nat): Exec
    requires i <= |ByPriority(sh.queue)|
  {
    Steps(call, Boundary(sh), ByPriority(sh.queue)[..i])
  }

  lemma TurnInv(call: Call, init: World, sh: Shard, hist: seq<OrchestratorBlock>, safe: bool, framed: bool, i: nat)
    requires ShardInv(call, init, sh, hist, safe, framed)
    requires i < |ByPriority(sh.queue)| && ByPriority(sh.queue)[i].txType.Lock?
    ensures var c := CtxOf(call, init, sh, hist, safe, framed);
            var rest := ByPriority(sh.queue)[i..];
            OwnStep(c, AtTurn(call, sh, i), rest, rest[0].txId)
  {
    var c, q := CtxOf(call, init, sh, hist, safe, framed), ByPriority(sh.queue);
    BeforeLock(sh.queue, i);
    NoLocalsRespect(call, Boundary(sh), q[..i]);
    assert q[..i] + q[i..] == q;
    StepsInvUpTo(c, Boundary(sh), q[..i], q[i..]);
    assert QueueOK(q[i..]) && q[i..][0] == q[i];
  }

  /** The block a shard produces votes on each queued Lock, and votes YES exactly when, at
      the Lock's turn, the money is there and the reads are current and free. */
  lemma BlockVotesIff(call: Call, init: World, sh: Shard, hist: seq<OrchestratorBlock>, safe: bool, framed: bool,
                      i: nat)
    requires ShardInv(call, init, sh, hist, safe, framed)
    requires i < |ByPriority(sh.queue)| && ByPriority(sh.queue)[i].txType.Lock?
    ensures var x, e := AtTurn(call, sh, i), ByPriority(sh.queue)[i];
            var votes := ProduceBlock(call, sh).blocks[|sh.blocks|].tpcPrepare;
            && e.txId in votes
            && (votes[e.txId] <==> Payable(x, e) && AllFresh(x, e))
            && (safe ==> Covered(x.tables.locked, x.world) && (votes[e.txId] <==> AllPayable(x, e) && AllFresh(x, e)))
  {
    var c, q := CtxOf(call, init, sh, hist, safe, framed), ByPriority(sh.queue);
    var x, e, rest := AtTurn(call, sh, i), q[i], q[i..];
    TurnInv(call, init, sh, hist, safe, framed, i);
    LockUnheld(c, x, rest);
    VoteIff(call, x, e);
    NoSecondLock(c, x, rest);
    VoteKept(call, Boundary(sh), q, i);
  }

  lemma LockUnheld(c: Ctx, x: Exec, rest: seq<Transaction>)
    requires rest != [] && OwnStep(c, x, rest, rest[0].txId) && rest[0].txType.Lock?
    ensures rest[0].txId != EMPTY_ID && rest[0].txId !in x.tables.locked
    ensures c.safe ==> Covered(x.tables.locked, x.world)
  {
    var t := rest[0].txId;
    OwnHead(c, x, rest, t);
    LockHead(c, ViewOf(x.tables, t), x.world.storage, OfTx(rest, t), FullLog(c, x), t);
  }

  /** The same for every block of every run of the system. */
  lemma VotesInEveryRun(calls: Calls, inits: seq<World>, g0: System, steps: seq<Event>, safe: bool, framed: bool,
                        s: nat,
                        i: nat)
    requires Reaches(calls, inits, g0, steps, safe, framed) && s < |inits|
    requires var g := Run(calls, g0, steps);
             s < |g.nodes| && i < |ByPriority(g.nodes[s].shard.queue)|
                 && ByPriority(g.nodes[s].shard.queue)[i].txType.Lock?
    ensures var sh := Run(calls, g0, steps).nodes[s].shard;
            var x, e := AtTurn(calls(s), sh, i), ByPriority(sh.queue)[i];
            var votes := ProduceBlock(calls(s), sh).blocks[|sh.blocks|].tpcPrepare;
            && e.txId in votes
            && (votes[e.txId] <==> Payable(x, e) && AllFresh(x, e))
            && (safe ==> (votes[e.txId] <==> AllPayable(x, e) && AllFresh(x, e)))
  {
    ReachableInv(calls, inits, g0, steps, safe, framed);
    var g := Run(calls, g0, steps);
    assert NodeInv(calls, inits, g, safe, framed, s);
    BlockVotesIff(calls(s), inits[s], g.nodes[s].shard, Seen(g, s), safe, framed, i);
  }

  // ---------------------------------------------------------------------------
  // One local transaction
  // ---------------------------------------------------------------------------

  /** Some slot at the sender's or the recipient's address is locked. */
  ghost predicate Blocked(x: Exec, e: Transaction) {
    exists k :: k in x.tables.slots && (k.addr == e.from || k.addr == e.to)
  }

  /** The transaction can run: the value is not negative and the call succeeds, or, without
      data, the sender has the money. */
  ghost predicate Runs(call: Call, x: Exec, e: Transaction) {
    !Blocked(x, e) && e.value >= 0 && if e.data != [] then call(e, x.world).Some? else e.value <= Balance(x.world,
        e.from)
  }

  /** At its turn a local transaction is executed exactly when it is not blocked and can
      run; a plain transfer then moves its value and nothing else, a call has the effect of
      the call, and the lock tables stay as they are. Otherwise nothing changes. */
  lemma LocalTurn(call: Call, x: Exec, e: Transaction)
    requires e.txType.Local?
    ensures var y := Step(call, x, e);
            && y.tables == x.tables
            && y.included == x.included + (if Runs(call, x, e) then [e] else [])
            && (!Runs(call, x, e) ==> y.world == x.world)
            && (Runs(call, x, e) && e.data != [] ==> Some(y.world) == call(e, x.world))
            && (Runs(call, x, e) && e.data == [] ==>
                  && y.world.storage == x.world.storage
                  && forall a :: Balance(y.world, a) == Balance(x.world, a) - (if a == e.from then e.value else 0)
                                                        + (if a == e.to then e.value else 0))
  {
    assert LocalConflict(x.tables, e) <==> Blocked(x, e);
    assert x.included + [] == x.included;
  }

  /** At their turn, entries other than Locks and local transactions are executed unless a
      debit finds too little money or the type is not one a shard executes; then a debit and
      a credit move their value. */
  lemma OtherTurn(call: Call, x: Exec, e: Transaction)
    requires !e.txType.Local? && !e.txType.Lock?
    ensures var y := Step(call, x, e);
            && y.included == x.included + (if Executes(x, e) then [e] else [])
            && (!Executes(x, e) ==> y.tables == x.tables && y.world == x.world)
            && (!IsWriteOp(e) ==> y.world.storage == x.world.storage)
            && forall a :: Balance(y.world, a) == Balance(x.world, a)
                                                  - (if e.txType.CrossDebit? && Executes(x, e)
                                                      && a == e.from then e.value else 0)
                                                  + (if e.txType.CrossCredit? && a == e.to then e.value else 0)
  {
    assert x.included + [] == x.included;
    match e.txType {
      case CrossDebit =>
      case CrossCredit =>
      case _ =>
    }
  }

  predicate Executes(x: Exec, e: Transaction) {
    match e.txType
    case CrossDebit => e.value <= Balance(x.world, e.from)
    case PrepareDebit => false
    case PrepareCredit => false
    case PrepareWriteSet => false
    case Unknown => false
    case _ => true
  }

  /** A write of shard s's share leaves the value of the last item in each slot it writes
      and all other slots alone. */
  lemma WriteTurn(call: Call, x: Exec, e: Transaction, rwSet: seq<RwVariable>, s: int, k: SlotKey)
    requires IsWriteOp(e) && e.rwSet == LocalRwSet(rwSet, s)
    ensures var st := Step(call, x, e).world.storage;
            && (!WritesOn(rwSet, s, k) ==> Load(st, k) == Load(x.world.storage, k))
            && forall i: nat, j: nat :: LastItem(rwSet, s, i, j, k) ==> Load(st, k) == rwSet[i].writeSet[j].newValue
  {
    var entries := WriteEntries(e.rwSet);
    assert Step(call, x, e).world.storage == Store(x.world.storage, entries);
    StoreAt(x.world.storage, entries, k);
    LastWriteExists(entries, k);
    WriteKeysAreItems(rwSet, s, k);
    forall i: nat, j: nat | LastItem(rwSet, s, i, j, k)
      ensures Load(Store(x.world.storage, entries), k) == rwSet[i].writeSet[j].newValue
    {
      LastItemWins(rwSet, s, i, j, k);
    }
  }

  // ---------------------------------------------------------------------------
  // The log of the block
  // ---------------------------------------------------------------------------

  /** Only the listed transactions are added to the log. */
  lemma {:induction false} StepsFrom(call: Call, x: Exec, txs: seq<Transaction>, e: Transaction)
    requires e !in txs
    ensures multiset(Steps(call, x, txs).included)[e] == multiset(x.included)[e]
    decreases txs
  {
    if txs != [] {
      StepLog(call, x, txs[0]);
      assert e != txs[0] && e !in txs[1..];
      StepsFrom(call, Step(call, x, txs[0]), txs[1..], e);
    }
  }

  /** In the next block, a queued local transaction is listed right after what was executed
      before its turn, if it runs, and is missing otherwise. */
  lemma LocalInBlock(call: Call, sh: Shard, i: nat)
    requires i < |ByPriority(sh.queue)| && ByPriority(sh.queue)[i].txType.Local?
    ensures var x, e := AtTurn(call, sh, i), ByPriority(sh.queue)[i];
            var log := ProduceBlock(call, sh).blocks[|sh.blocks|].txOrdering;
            && x.included + (if Runs(call, x, e) then [e] else []) <= log
            && (multiset(sh.queue)[e] == 1 ==> (e in log <==> Runs(call, x, e)))
  {
    var q := ByPriority(sh.queue);
    var x, e := AtTurn(call, sh, i), q[i];
    LocalTurn(call, x, e);
    TurnInLog(call, Boundary(sh), q, i);
    if multiset(sh.queue)[e] == 1 {
      ByPriorityPermutes(sh.queue);
      OnlyAtTurn(call, Boundary(sh), q, i);
    }
  }

  /** What the log holds after turn i is the beginning of the whole. */
  lemma TurnInLog(call: Call, x: Exec, q: seq<Transaction>, i: nat)
    requires i < |q|
    ensures var y := Step(call, Steps(call, x, q[..i]), q[i]);
            Steps(call, x, q) == Steps(call, y, q[i + 1..]) && y.included <= Steps(call, x, q).included
  {
    var rest := q[i + 1..];
    assert q == q[..i] + ([q[i]] + rest);
    StepsConcat(call, x, q[..i], [q[i]] + rest);
    assert ([q[i]] + rest)[1..] == rest;
    StepsPrefix(call, Step(call, Steps(call, x, q[..i]), q[i]), rest);
  }

  /** A transaction that occurs once in the list is in the log only if its turn put it there. */
  lemma OnlyAtTurn(call: Call, x: Exec, q: seq<Transaction>, i: nat)
    requires x.included == [] && i < |q| && multiset(q)[q[i]] == 1
    ensures q[i] !in Steps(call, x, q[..i]).included
    ensures q[i] in Steps(call, x, q).included <==> q[i] in Step(call, Steps(call, x, q[..i]), q[i]).included
  {
    var e, before, rest := q[i], q[..i], q[i + 1..];
    TurnInLog(call, x, q, i);
    assert q == before + [e] + rest;
    assert multiset(q) == multiset(before) + multiset{e} + multiset(rest);
    assert e !in multiset(before) && e !in multiset(rest);
    StepsFrom(call, x, before, e);
    StepsFrom(call, Step(call, Steps(call, x, before), e), rest, e);
    assert forall log: seq<Transaction> :: e in log <==> multiset(log)[e] > 0;
  }

  lemma {:induction false} StepsPrefix(call: Call, x: Exec, txs: seq<Transaction>)
    ensures x.included <= Steps(call, x, txs).included
    decreases txs
  {
    if txs != [] {
      StepLog(call, x, txs[0]);
      StepsPrefix(call, Step(call, x, txs[0]), txs[1..]);
    }
  }

  lemma SkipOne(xs: seq<Transaction>, e: Transaction, ys: seq<Transaction>)
    requires Ascending(xs + [e] + ys)
    ensures Ascending(xs + ys)
  {
    var all, less := xs + [e] + ys, xs + ys;
    forall i, j | 0 <= i < j < |less| ensures less[i].txType.Priority() <= less[j].txType.Priority() {
      var i', j' := if i < |xs| then i else i + 1, if j < |xs| then j else j + 1;
      assert all[i'] == less[i] && all[j'] == less[j];
    }
  }

  /** The included transactions are executed in the order of the list. */
  lemma {:induction false} StepsAscending(call: Call, x: Exec, txs: seq<Transaction>)
    requires Ascending(x.included + txs)
    ensures Ascending(Steps(call, x, txs).included)
    decreases txs
  {
    if txs == [] {
      assert x.included + txs == x.included;
    } else {
      var y := Step(call, x, txs[0]);
      StepLog(call, x, txs[0]);
      assert x.included + txs == x.included + [txs[0]] + txs[1..];
      SkipOne(x.included, txs[0], txs[1..]);
      StepsAscending(call, y, txs[1..]);
    }
  }

  /** The place of a type in a block. */
  ghost predicate Before(a: TxType, b: TxType) {
    match a
    case CrossDebit | CrossCredit | CrossWriteSet | Finalize => true
    case Unlock => !(b.CrossDebit? || b.CrossCredit? || b.CrossWriteSet? || b.Finalize?)
    case Lock => !(b.CrossDebit? || b.CrossCredit? || b.CrossWriteSet? || b.Finalize? || b.Unlock?)
    case SimError => b.SimError?
    case _ => !(b.CrossDebit? || b.CrossCredit? || b.CrossWriteSet? || b.Finalize? || b.Unlock? || b.Lock?)
  }

  /** In every block the commit operations come first, then the unlocks, then the locks, then
      local transactions and aborts, and failed simulations last. */
  lemma BlockOrder(call: Call, sh: Shard, i: nat, j: nat)
    requires i < j < |ProduceBlock(call, sh).blocks[|sh.blocks|].txOrdering|
    ensures var log := ProduceBlock(call, sh).blocks[|sh.blocks|].txOrdering;
            Before(log[i].txType, log[j].txType)
  {
    var q := ByPriority(sh.queue);
    ByPriorityIsStableSort(sh.queue);
    assert Boundary(sh).included + q == q;
    StepsAscending(call, Boundary(sh), q);
    var log := Steps(call, Boundary(sh), q).included;
    PriorityIsPlace(log[i].txType, log[j].txType);
  }

  lemma PriorityIsPlace(a: TxType, b: TxType)
    requires a.Priority() <= b.Priority()
    ensures Before(a, b)
  {
  }

  // ---------------------------------------------------------------------------
  // Block numbers
  // ---------------------------------------------------------------------------

  ghost predicate Numbered(sh: Shard) {
    forall i :: 0 <= i < |sh.blocks| ==> sh.blocks[i].height == i
  }

  lemma {:induction false} DecideAllBlocks(sh: Shard, results: map<TxId, bool>, order: seq<TxId>)
    requires forall i :: 0 <= i < |order| ==> order[i] in results
    ensures DecideAll(sh, results, order).blocks == sh.blocks
    decreases order
  {
    if order != [] {
      DecideAllBlocks(Decide(sh, order[0], results[order[0]]), results, order[1..]);
    }
  }

  lemma {:induction false} ProcessAllBlocks(sh: Shard, released: seq<OrchestratorBlock>, orders: seq<seq<TxId>>)
    requires ValidOrders(released, orders)
    ensures ProcessAll(sh, released, orders).blocks == sh.blocks
    decreases released
  {
    if released != [] {
      EnumeratesIn(orders[0], released[0].tpcResult.Keys);
      DecideAllBlocks(sh, released[0].tpcResult, orders[0]);
      IntakeAllEffect(DecideAll(sh, released[0].tpcResult, orders[0]), released[0].ctToOrder);
      ProcessAllBlocks(Process(sh, released[0], orders[0]), released[1..], orders[1..]);
    }
  }

  lemma {:induction false} RunNumbered(calls: Calls, g: System, steps: seq<Event>)
    requires Legal(calls, g, steps) && forall s :: 0 <= s < |g.nodes| ==> Numbered(g.nodes[s].shard)
    ensures forall s :: 0 <= s < |Run(calls, g, steps).nodes| ==> Numbered(Run(calls, g, steps).nodes[s].shard)
    decreases steps
  {
    if steps != [] {
      if steps[0].BlockArrives? {
        var node := g.nodes[steps[0].s];
        ProcessAllBlocks(node.shard, Receive(node.buffer, g.orch.blocks[steps[0].h]).1, steps[0].orders);
      }
      RunNumbered(calls, Next(calls, g, steps[0]), steps[1..]);
    }
  }

  /** On every shard, in every run, the block at position i of the chain has height i. */
  lemma HeightsArePositions(calls: Calls, inits: seq<World>, g: System, steps: seq<Event>, s: nat, i: nat)
    requires Initial(g, inits) && Legal(calls, g, steps)
    requires s < |Run(calls, g, steps).nodes| && i < |Run(calls, g, steps).nodes[s].shard.blocks|
    ensures Run(calls, g, steps).nodes[s].shard.blocks[i].height == i
  {
    assert forall u :: 0 <= u < |g.nodes| ==> Numbered(g.nodes[u].shard);
    RunNumbered(calls, g, steps);
  }

  // ---------------------------------------------------------------------------
  // Commits and aborts
  // ---------------------------------------------------------------------------

  /** The operations of a commit on shard s, one by one. */
  lemma CommitConsistsOf(tx: CrossShardTx, s: int, e: Transaction)
    ensures var local := LocalRwSet(tx.rwSet, s);
            e in Ops(tx, s) <==>
              || (tx.fromShard == s && tx.value > 0
                  && e == Transaction(CrossDebit, tx.id, tx.from, 0, tx.value, [], []))
              || (ShardOf(tx.to) == s && tx.value > 0
                  && e == Transaction(CrossCredit, tx.id, 0, tx.to, tx.value, [], []))
              || (tx.fromShard != s && tx.data != [] && local != []
                  && e == Transaction(CrossWriteSet, tx.id, 0, 0, 0, [], local))
              || (local != [] && e == Transaction(Finalize, tx.id, 0, 0, 0, [], local))
    ensures Distinct(Ops(tx, s))
  {
    assert CreditAll(tx.id, [Funds(tx.to, tx.value)]) == [Credit(tx.id, Funds(tx.to, tx.value))] by {
      assert [Funds(tx.to, tx.value)][1..] == [];
    }
  }

  lemma {:induction false} OtherCreditsCount(credits: seq<Funds>, a: Address, f: Funds)
    ensures multiset(OtherCredits(credits, a))[f] == if f.address != a then multiset(credits)[f] else 0
  {
    if credits != [] {
      OtherCreditsCount(credits[1..], a, f);
      assert credits == [credits[0]] + credits[1..];
    }
  }

  function CreditsOf(credits: map<TxId, seq<Funds>>, t: TxId): seq<Funds> {
    if t in credits then credits[t] else []
  }

  /** A credit to address a removes the pending credits of t to that address and no other
      pending credit, and leaves no empty list behind. */
  lemma CreditClears(credits: map<TxId, seq<Funds>>, t: TxId, a: Address, u: TxId, f: Funds)
    ensures var credits' := ClearCredit(credits, t, a);
            && multiset(CreditsOf(credits', u))[f]
               == (if u == t && f.address == a then 0 else multiset(CreditsOf(credits, u))[f])
            && (t in credits' ==> credits'[t] != [])
  {
    if t in credits {
      OtherCreditsCount(credits[t], a, f);
    }
  }

  /** A new credit is added to those already pending for t. */
  lemma CreditAdds(credits: map<TxId, seq<Funds>>, t: TxId, f: Funds, u: TxId)
    ensures CreditsOf(AddCredit(credits, t, f), u) == CreditsOf(credits, u) + (if u == t then [f] else [])
  {
    assert CreditsOf(credits, u) + [] == CreditsOf(credits, u);
  }

  /** Every pending credit becomes one operation, in order. */
  lemma {:induction false} CreditPerEntry(t: TxId, credits: seq<Funds>, i: nat)
    requires i < |credits|
    ensures |CreditAll(t, credits)| == |credits|
    ensures CreditAll(t, credits)[i] == Transaction(CrossCredit, t, 0, credits[i].address, credits[i].amount, [], [])
  {
    if |credits| > 1 {
      CreditPerEntry(t, credits[1..], if i == 0 then 0 else i - 1);
    } else {
      assert credits[1..] == [];
    }
  }

  /** Before its Unlock, a commit whose debit is paid has already cleared everything the
      shard held for it, except for an empty read/write set. */
  lemma CommitClears(call: Call, x: Exec, tx: CrossShardTx, s: int)
    requires tx.id != EMPTY_ID && Involved(tx, s) && Holding(ViewOf(x.tables, tx.id), tx, s)
    requires FundsFor(tx, s).Some? ==> tx.value <= Balance(x.world, tx.from)
    ensures var v := ViewOf(Steps(call, x, Ops(tx, s)).tables, tx.id);
            && v.funds.None? && v.credits.None? && v.call.None?
            && (LocalRwSet(tx.rwSet, s) != [] ==> v.rw.None? && v.slots == {})
            && (LocalRwSet(tx.rwSet, s) == [] ==> v.rw == Some([]))
  {
    var debit, other := DebitOps(tx, s), OtherOps(tx, s);
    StepsConcat(call, x, debit, other);
    DebitClears(call, x, tx, s);
    var y := Steps(call, x, debit);
    CreditsClear(call, y, tx, s);
    var credits := if CreditsFor(tx, s).Some? then CreditAll(tx.id, CreditsFor(tx, s).value) else [];
    var writes := WritesFor(tx, s);
    assert other == credits + writes;
    StepsConcat(call, y, credits, writes);
    WritesClear(call, Steps(call, y, credits), tx, s);
  }

  function WritesFor(tx: CrossShardTx, s: int): seq<Transaction> {
    (if CallFor(tx, s).Some? && LocalRwSet(tx.rwSet, s) != [] then [WriteSetTx(tx.id, LocalRwSet(tx.rwSet, s))] else [])
    + (if LocalRwSet(tx.rwSet, s) != [] then [FinalizeTx(tx.id, LocalRwSet(tx.rwSet, s))] else [])
  }

  lemma OneStep(call: Call, x: Exec, e: Transaction)
    ensures Steps(call, x, [e]) == Step(call, x, e)
  {
    assert [e][1..] == [];
  }

  lemma DebitClears(call: Call, x: Exec, tx: CrossShardTx, s: int)
    requires tx.id != EMPTY_ID && Holding(ViewOf(x.tables, tx.id), tx, s)
    requires FundsFor(tx, s).Some? ==> tx.value <= Balance(x.world, tx.from)
    ensures ViewOf(Steps(call, x, DebitOps(tx, s)).tables, tx.id) == ViewOf(x.tables, tx.id).(funds := None)
  {
    if FundsFor(tx, s).Some? {
      OneStep(call, x, Debit(tx.id, FundsFor(tx, s).value));
    }
  }

  lemma CreditsClear(call: Call, x: Exec, tx: CrossShardTx, s: int)
    requires tx.id != EMPTY_ID && ViewOf(x.tables, tx.id).credits == CreditsFor(tx, s)
    ensures var ops := if CreditsFor(tx, s).Some? then CreditAll(tx.id, CreditsFor(tx, s).value) else [];
            ViewOf(Steps(call, x, ops).tables, tx.id) == ViewOf(x.tables, tx.id).(credits := None)
  {
    if CreditsFor(tx, s).Some? {
      var f := Funds(tx.to, tx.value);
      assert [f][1..] == [];
      assert CreditAll(tx.id, [f]) == [Credit(tx.id, f)];
      assert OtherCredits([f], tx.to) == [];
      OneStep(call, x, Credit(tx.id, f));
    }
  }

  lemma WritesClear(call: Call, x: Exec, tx: CrossShardTx, s: int)
    requires tx.id != EMPTY_ID && Involved(tx, s) && ViewOf(x.tables, tx.id).call == CallFor(tx, s)
    requires ViewOf(x.tables, tx.id).rw == Some(LocalRwSet(tx.rwSet, s))
    ensures var v, v' := ViewOf(x.tables, tx.id), ViewOf(Steps(call, x, WritesFor(tx, s)).tables, tx.id);
            v' == v.(call := None, rw := if LocalRwSet(tx.rwSet, s) == [] then v.rw else None,
                     slots := if LocalRwSet(tx.rwSet, s) == [] then v.slots else {})
  {
    var local := LocalRwSet(tx.rwSet, s);
    if local != [] {
      var y := if CallFor(tx, s).Some? then Step(call, x, WriteSetTx(tx.id, local)) else x;
      OneStep(call, y, FinalizeTx(tx.id, local));
      if CallFor(tx, s).Some? {
        OneStep(call, x, WriteSetTx(tx.id, local));
        StepsConcat(call, x, [WriteSetTx(tx.id, local)], [FinalizeTx(tx.id, local)]);
      } else {
        assert WritesFor(tx, s) == [FinalizeTx(tx.id, local)];
      }
      assert ViewOf(y.tables, tx.id) == ViewOf(x.tables, tx.id).(call := None);
      ReleaseFrame(y.tables.slots, tx.id, tx.id);
    }
  }

  /** The check that decides whether an abort is queued looks at four tables only; in every
      reachable state of an undecided transaction that is as good as looking at all. */
  lemma AbortQueuedIffHeld(call: Call, init: World, sh: Shard, hist: seq<OrchestratorBlock>, safe: bool, framed: bool,
                           t: TxId)
    requires ShardInv(call, init, sh, hist, safe, framed) && t != EMPTY_ID && t !in sh.processed
    ensures var queue' := Decide(sh, t, false).queue;
            queue' == sh.queue + (if Cleared(ViewOf(sh.tables, t)) then [] else [Typed(CrossAbort, t)])
                + [Typed(Unlock, t)]
  {
    PhaseBefore(call, init, sh, hist, safe, framed, t);
    var v := ViewOf(sh.tables, t);
    assert HasData(sh.tables, t) <==> v.funds.Some? || v.credits.Some? || v.call.Some? || v.rw.Some?;
    assert v.slots != {} ==> v.rw.Some?;
  }

  /** Handling the same orchestrator block again changes nothing. */
  lemma ProcessOnce(sh: Shard, b: OrchestratorBlock, order: seq<TxId>, order': seq<TxId>)
    requires forall i :: 0 <= i < |order| ==> order[i] in b.tpcResult
    requires forall i :: 0 <= i < |order'| ==> order'[i] in b.tpcResult
    ensures Process(Process(sh, b, order), b, order') == Process(sh, b, order)
  {
  }
}
