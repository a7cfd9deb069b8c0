/** The orchestrator chain as functions on values, its lifecycle invariant, the
    deadline of every decision, and the meaning of the vote count. */
module OrchestratorSpec {
  import opened Protocol
  import opened History

  datatype Orch = Orch(
    blocks: seq<OrchestratorBlock>,
    pending: seq<CrossShardTx>,
    awaiting: map<TxId, CrossShardTx>,
    result: map<TxId, bool>,
    votes: map<TxId, map<int, bool>>,
    expected: map<TxId, seq<int>>,
    start: map<TxId, nat>,
    timeout: nat)

  const GENESIS := OrchestratorBlock(0, map[], [])

  function Height(o: Orch): int {
    |o.blocks| - 1
  }

  function AddTransaction(o: Orch, tx: CrossShardTx): Orch {
    o.(pending := o.pending + [tx])
  }

  /** Stop waiting for t and put its outcome into the next block. */
  function Settle(o: Orch, t: TxId, committed: bool): Orch {
    o.(result := o.result[t := committed], awaiting := o.awaiting - {t}, votes := o.votes - {t},
       expected := o.expected - {t}, start := o.start - {t})
  }

  function VotesFor(o: Orch, t: TxId): map<int, bool> {
    if t in o.votes then o.votes[t] else map[]
  }

  function VotersFor(o: Orch, t: TxId): seq<int> {
    if t in o.expected then o.expected[t] else []
  }

  predicate AllVoted(voters: seq<int>, votes: map<int, bool>) {
    |votes| >= |voters| && forall i :: 0 <= i < |voters| ==> voters[i] in votes
  }

  predicate VoteAccepted(o: Orch, t: TxId, s: int) {
    t in o.awaiting && s !in VotesFor(o, t)
  }

  function RecordVote(o: Orch, t: TxId, s: int, yes: bool): Orch {
    if t !in o.awaiting then o
    else if s in VotesFor(o, t) then o
    else
      var votes := VotesFor(o, t)[s := yes];
      if !yes then Settle(o, t, false)
      else if AllVoted(VotersFor(o, t), votes) then Settle(o, t, true)
      else o.(votes := o.votes[t := votes])
  }

  /** The awaiting transactions whose votes are overdue. */
  function Expired(o: Orch): set<TxId> {
    set t | t in o.awaiting && t in o.start && Height(o) >= o.start[t] + o.timeout
  }

  function CheckTimeouts(o: Orch): Orch {
    var gone := Expired(o);
    o.(result := o.result + (map t | t in gone :: false), awaiting := o.awaiting - gone, votes := o.votes - gone,
       expected := o.expected - gone, start := o.start - gone)
  }

  /** Start waiting for the votes on the transactions of a new block. */
  function Await(o: Orch, txs: seq<CrossShardTx>, height: nat): Orch
    decreases txs
  {
    if txs == [] then o
    else
      var n := |txs| - 1;
      var o1 := Await(o, txs[..n], height);
      o1.(awaiting := o1.awaiting[txs[n].id := txs[n]], expected := o1.expected[txs[n].id := InvolvedShardsOf(txs[n])],
          start := o1.start[txs[n].id := height])
  }

  function ProduceOrchBlock(o: Orch): Orch
    requires o.blocks != []
  {
    var o1 := CheckTimeouts(o);
    var height := Height(o) + 1;
    var b := OrchestratorBlock(height, o1.result, o1.pending);
    Await(o1, o1.pending, height).(blocks := o.blocks + [b], pending := [], result := map[])
  }

  // ---------------------------------------------------------------------------
  // Lifecycle
  // ---------------------------------------------------------------------------

  predicate IsPending(o: Orch, t: TxId) {
    exists i :: 0 <= i < |o.pending| && o.pending[i].id == t
  }

  /** An id never used before. */
  predicate FreshId(o: Orch, t: TxId) {
    t != EMPTY_ID && !IsPending(o, t) && OrderOf(o.blocks, t).None?
  }

  ghost predicate Placed(o: Orch, t: TxId) {
    if OrderOf(o.blocks, t).None?
    then t !in o.awaiting && t !in o.result && DecisionOf(o.blocks, t).None?
    else
      && !IsPending(o, t)
      && (t in o.awaiting ==> t !in o.result && DecisionOf(o.blocks, t).None?)
      && (t in o.result ==> DecisionOf(o.blocks, t).None?)
      && (t in o.awaiting || t in o.result || DecisionOf(o.blocks, t).Some?)
  }

  /** A transaction whose votes are being collected. */
  ghost predicate Tracked(o: Orch, t: TxId) {
    && t in o.awaiting && t in o.expected && t in o.start
    && OrderOf(o.blocks, t) == Some(o.awaiting[t])
    && o.expected[t] == InvolvedShardsOf(o.awaiting[t])
    && o.start[t] == OrderedAt(o.blocks, t)
    && Height(o) <= o.start[t] + o.timeout
  }

  /** Decisions come at least one and at most timeout + 1 blocks after ordering. */
  ghost predicate OnTime(o: Orch, t: TxId) {
    && (t in o.result ==> Height(o) <= OrderedAt(o.blocks, t) + o.timeout)
    && (DecisionOf(o.blocks, t).Some? ==>
          OrderedAt(o.blocks, t) < DecidedAt(o.blocks, t) <= OrderedAt(o.blocks, t) + o.timeout + 1)
  }

  ghost predicate OrchInv(o: Orch) {
    && o.blocks != []
    && WellFormed(o.blocks)
    && (forall i :: 0 <= i < |o.pending| ==> o.pending[i].id != EMPTY_ID && OrderOf(o.blocks, o.pending[i].id).None?)
    && (forall i, j :: 0 <= i < j < |o.pending| ==> o.pending[i].id != o.pending[j].id)
    && (forall t :: Placed(o, t))
    && (forall t :: t in o.awaiting || t in o.expected || t in o.start || t in o.votes ==> Tracked(o, t))
    && (forall t, s :: t in o.votes && s in o.votes[t] ==> o.votes[t][s])
    && (forall t :: OnTime(o, t))
  }

  lemma InitInv(timeout: nat)
    ensures OrchInv(Orch([GENESIS], [], map[], map[], map[], map[], map[], timeout))
  {
    var o := Orch([GENESIS], [], map[], map[], map[], map[], map[], timeout);
    assert o.blocks[..0] == [];
    assert WellFormed(o.blocks[..0]) && Follows(o.blocks[..0], GENESIS);
    forall t ensures Placed(o, t) && OnTime(o, t) {
      assert OrderIn(GENESIS.ctToOrder, t).None?;
      assert OrderOf(o.blocks[..0], t).None? && DecisionOf(o.blocks[..0], t).None?;
    }
  }

  lemma PendingAfterAdd(o: Orch, tx: CrossShardTx, t: TxId)
    ensures IsPending(AddTransaction(o, tx), t) <==> IsPending(o, t) || t == tx.id
  {
    var o' := AddTransaction(o, tx);
    assert o'.pending[|o.pending|] == tx;
    if i :| 0 <= i < |o.pending| && o.pending[i].id == t {
      assert o'.pending[i].id == t;
    }
  }

  lemma AddInv(o: Orch, tx: CrossShardTx)
    requires OrchInv(o) && FreshId(o, tx.id)
    ensures OrchInv(AddTransaction(o, tx))
  {
    var o' := AddTransaction(o, tx);
    forall t ensures Placed(o', t) && OnTime(o', t) {
      assert Placed(o, t) && OnTime(o, t);
      PendingAfterAdd(o, tx, t);
    }
    forall t | t in o'.awaiting || t in o'.expected || t in o'.start || t in o'.votes ensures Tracked(o', t) {
      assert Tracked(o, t);
    }
  }

  lemma SettleInv(o: Orch, t: TxId, committed: bool)
    requires OrchInv(o) && t in o.awaiting
    ensures OrchInv(Settle(o, t, committed))
  {
    var o' := Settle(o, t, committed);
    assert Tracked(o, t);
    forall u ensures Placed(o', u) && OnTime(o', u) {
      assert Placed(o, u) && OnTime(o, u);
      assert IsPending(o', u) == IsPending(o, u);
    }
    forall u | u in o'.awaiting || u in o'.expected || u in o'.start || u in o'.votes ensures Tracked(o', u) {
      assert Tracked(o, u);
    }
  }

  lemma VotesFrame(o: Orch, votes: map<TxId, map<int, bool>>, u: TxId)
    ensures Placed(o.(votes := votes), u) == Placed(o, u)
    ensures OnTime(o.(votes := votes), u) == OnTime(o, u)
    ensures Tracked(o.(votes := votes), u) == Tracked(o, u)
  {
    assert IsPending(o.(votes := votes), u) == IsPending(o, u);
  }

  lemma CountInv(o: Orch, t: TxId, votes: map<int, bool>)
    requires OrchInv(o) && t in o.awaiting && forall s :: s in votes ==> votes[s]
    ensures OrchInv(o.(votes := o.votes[t := votes]))
  {
    var o' := o.(votes := o.votes[t := votes]);
    forall u ensures Placed(o', u) && OnTime(o', u) {
      VotesFrame(o, o'.votes, u);
      assert Placed(o, u) && OnTime(o, u);
    }
    forall u | u in o'.awaiting || u in o'.expected || u in o'.start || u in o'.votes ensures Tracked(o', u) {
      VotesFrame(o, o'.votes, u);
      assert Tracked(o, u);
    }
  }

  lemma VoteInv(o: Orch, t: TxId, s: int, yes: bool)
    requires OrchInv(o)
    ensures OrchInv(RecordVote(o, t, s, yes))
  {
    if VoteAccepted(o, t, s) {
      var votes := VotesFor(o, t)[s := yes];
      if !yes {
        SettleInv(o, t, false);
      } else if AllVoted(VotersFor(o, t), votes) {
        SettleInv(o, t, true);
      } else {
        CountInv(o, t, votes);
      }
    }
  }

  lemma TimeoutsInv(o: Orch)
    requires OrchInv(o)
    ensures OrchInv(CheckTimeouts(o))
    ensures forall t :: t in CheckTimeouts(o).awaiting ==> Height(o) < OrderedAt(o.blocks, t) + o.timeout
  {
    var o' := CheckTimeouts(o);
    forall u ensures Placed(o', u) && OnTime(o', u) {
      assert Placed(o, u) && OnTime(o, u);
      assert IsPending(o', u) == IsPending(o, u);
      if u in Expired(o) { assert Tracked(o, u); }
    }
    forall u | u in o'.awaiting || u in o'.expected || u in o'.start || u in o'.votes ensures Tracked(o', u) {
      assert Tracked(o, u);
    }
    forall t | t in o'.awaiting ensures Height(o) < OrderedAt(o.blocks, t) + o.timeout {
      assert Tracked(o, t);
    }
  }

  lemma {:induction false} AwaitAt(o: Orch, txs: seq<CrossShardTx>, height: nat, t: TxId)
    requires forall i, j :: 0 <= i < j < |txs| ==> txs[i].id != txs[j].id
    ensures var o' := Await(o, txs, height);
            o' == o.(awaiting := o'.awaiting, expected := o'.expected, start := o'.start)
    ensures var o' := Await(o, txs, height);
            match OrderIn(txs, t)
            case Some(tx) => t in o'.awaiting && o'.awaiting[t] == tx && t in o'.expected
                             && o'.expected[t] == InvolvedShardsOf(tx)
                             && t in o'.start && o'.start[t] == height
            case None => (t in o'.awaiting <==> t in o.awaiting) && (t in o'.expected <==> t in o.expected)
                         && (t in o'.start <==> t in o.start)
                         && (t in o.awaiting ==> o'.awaiting[t] == o.awaiting[t])
                         && (t in o.expected ==> o'.expected[t] == o.expected[t])
                         && (t in o.start ==> o'.start[t] == o.start[t])
    decreases txs
  {
    if txs != [] {
      var n := |txs| - 1;
      AwaitAt(o, txs[..n], height, t);
      OrderInFound(txs[..n], t);
      OrderInFound(txs, t);
      if OrderIn(txs, t).Some? {
        var i :| 0 <= i < |txs| && txs[i] == OrderIn(txs, t).value;
        OrderInAt(txs, i);
        if i < n {
          assert txs[..n][i] == txs[i];
          OrderInAt(txs[..n], i);
        }
      } else {
        assert txs[n].id != t;
        assert OrderIn(txs[..n], t).None?;
      }
    }
  }

  /** The chain grown by one block b, seen from transaction t. */
  lemma ProduceAt(o: Orch, t: TxId)
    requires OrchInv(o)
    ensures var o1, o' := CheckTimeouts(o), ProduceOrchBlock(o);
            && OrchInv(o1)
            && o'.blocks[..|o.blocks|] == o.blocks
            && Follows(o.blocks, o'.blocks[|o.blocks|])
            && OrderOf(o'.blocks, t) == (if IsPending(o, t) then OrderIn(o.pending, t) else OrderOf(o.blocks, t))
            && OrderedAt(o'.blocks, t) == (if IsPending(o, t) then |o.blocks| else OrderedAt(o.blocks, t))
            && DecisionOf(o'.blocks, t) == (if t in o1.result then Some(o1.result[t]) else DecisionOf(o.blocks, t))
            && DecidedAt(o'.blocks, t) == (if t in o1.result then |o.blocks| else DecidedAt(o.blocks, t))
            && (IsPending(o, t) <==> OrderIn(o.pending, t).Some?)
  {
    TimeoutsInv(o);
    var o1, o' := CheckTimeouts(o), ProduceOrchBlock(o);
    OrderInFound(o.pending, t);
    assert o'.blocks[..|o.blocks|] == o.blocks;
    forall u | u in o1.result ensures OrderOf(o.blocks, u).Some? && DecisionOf(o.blocks, u).None? {
      assert Placed(o1, u);
    }
  }

  lemma ProducePlaced(o: Orch, t: TxId)
    requires OrchInv(o)
    ensures Placed(ProduceOrchBlock(o), t)
  {
    var o1 := CheckTimeouts(o);
    ProduceAt(o, t);
    AwaitAt(o1, o1.pending, |o.blocks|, t);
    assert Placed(o1, t);
    assert IsPending(o1, t) == IsPending(o, t);
    if DecisionOf(o.blocks, t).Some? { DecidedWasOrdered(o.blocks, t); }
  }

  lemma ProduceOnTime(o: Orch, t: TxId)
    requires OrchInv(o)
    ensures OnTime(ProduceOrchBlock(o), t)
  {
    var o1 := CheckTimeouts(o);
    ProduceAt(o, t);
    AwaitAt(o1, o1.pending, |o.blocks|, t);
    assert Placed(o1, t) && OnTime(o1, t);
    assert IsPending(o1, t) == IsPending(o, t);
    if DecisionOf(o.blocks, t).Some? { DecidedWasOrdered(o.blocks, t); }
    if OrderOf(o.blocks, t).Some? { OrderedAtInRange(o.blocks, t); }
  }

  lemma ProduceTracked(o: Orch, t: TxId)
    requires OrchInv(o)
    ensures var o' := ProduceOrchBlock(o);
            t in o'.awaiting || t in o'.expected || t in o'.start || t in o'.votes ==> Tracked(o', t)
  {
    var o1 := CheckTimeouts(o);
    TimeoutsInv(o);
    ProduceAt(o, t);
    AwaitAt(o1, o1.pending, |o.blocks|, t);
    assert Placed(o1, t);
    assert IsPending(o1, t) == IsPending(o, t);
    if t in o1.awaiting { assert Tracked(o1, t); }
  }

  lemma {:induction false} OrderedAtInRange(hist: seq<OrchestratorBlock>, t: TxId)
    requires OrderOf(hist, t).Some?
    ensures OrderedAt(hist, t) < |hist|
  {
    if OrderIn(hist[|hist| - 1].ctToOrder, t).None? {
      OrderedAtInRange(hist[..|hist| - 1], t);
    }
  }

  lemma ProduceInv(o: Orch)
    requires OrchInv(o)
    ensures OrchInv(ProduceOrchBlock(o))
    ensures Follows(o.blocks, ProduceOrchBlock(o).blocks[|o.blocks|])
  {
    var o' := ProduceOrchBlock(o);
    ProduceAt(o, EMPTY_ID);
    TimeoutsInv(o);
    AwaitAt(CheckTimeouts(o), CheckTimeouts(o).pending, |o.blocks|, EMPTY_ID);
    forall t ensures Placed(o', t) && OnTime(o', t)
        && (t in o'.awaiting || t in o'.expected || t in o'.start || t in o'.votes ==> Tracked(o', t)) {
      ProducePlaced(o, t);
      ProduceOnTime(o, t);
      ProduceTracked(o, t);
    }
  }

  // ---------------------------------------------------------------------------
  // Runs of the orchestrator
  // ---------------------------------------------------------------------------

  datatype OrchOp = Add(tx: CrossShardTx) | Vote(t: TxId, s: int, yes: bool) | Timeouts | Produce

  function Do(o: Orch, op: OrchOp): Orch
    requires o.blocks != []
    ensures Do(o, op).blocks != []
  {
    match op
    case Add(tx) => AddTransaction(o, tx)
    case Vote(t, s, yes) => RecordVote(o, t, s, yes)
    case Timeouts => CheckTimeouts(o)
    case Produce => ProduceOrchBlock(o)
  }

  function RunOps(o: Orch, ops: seq<OrchOp>): Orch
    requires o.blocks != []
    ensures RunOps(o, ops).blocks != []
    decreases ops
  {
    if ops == [] then o else RunOps(Do(o, ops[0]), ops[1..])
  }

  /** Every added transaction has an id never used before. */
  ghost predicate FreshIds(o: Orch, ops: seq<OrchOp>)
    requires o.blocks != []
    decreases ops
  {
    ops == [] || ((ops[0].Add? ==> FreshId(o, ops[0].tx.id)) && FreshIds(Do(o, ops[0]), ops[1..]))
  }

  lemma DoInv(o: Orch, op: OrchOp)
    requires OrchInv(o) && (op.Add? ==> FreshId(o, op.tx.id))
    ensures OrchInv(Do(o, op)) && Do(o, op).timeout == o.timeout
  {
    match op {
      case Add(tx) => AddInv(o, tx);
      case Vote(t, s, yes) => VoteInv(o, t, s, yes);
      case Timeouts => TimeoutsInv(o);
      case Produce => ProduceInv(o); AwaitAt(CheckTimeouts(o), CheckTimeouts(o).pending, |o.blocks|, EMPTY_ID);
    }
  }

  lemma {:induction false} RunInv(o: Orch, ops: seq<OrchOp>)
    requires OrchInv(o) && FreshIds(o, ops)
    ensures OrchInv(RunOps(o, ops)) && RunOps(o, ops).timeout == o.timeout
    decreases ops
  {
    if ops != [] {
      DoInv(o, ops[0]);
      RunInv(Do(o, ops[0]), ops[1..]);
    }
  }

  function NewOrch(timeout: nat): Orch {
    Orch([GENESIS], [], map[], map[], map[], map[], map[], timeout)
  }

  function Bit(b: bool): nat {
    if b then 1 else 0
  }

  /** How many of the four places of its life a transaction is in. */
  ghost function Places(o: Orch, t: TxId): nat {
    Bit(IsPending(o, t)) + Bit(t in o.awaiting) + Bit(t in o.result) + Bit(DecisionOf(o.blocks, t).Some?)
  }

  /** The transaction the orchestrator has under id t, pending or ordered. */
  function KnownAs(o: Orch, t: TxId): Option<CrossShardTx> {
    if OrderIn(o.pending, t).Some? then OrderIn(o.pending, t) else OrderOf(o.blocks, t)
  }

  ghost predicate Added(ops: seq<OrchOp>, t: TxId) {
    exists i :: 0 <= i < |ops| && ops[i].Add? && ops[i].tx.id == t
  }

  lemma {:induction false} OrderInAppend(txs: seq<CrossShardTx>, tx: CrossShardTx, t: TxId)
    ensures OrderIn(txs + [tx], t)
         == if OrderIn(txs, t).Some? then OrderIn(txs, t) else if tx.id == t then Some(tx) else None
  {
    if txs == [] {
      assert txs + [tx] == [tx];
    } else {
      assert (txs + [tx])[1..] == txs[1..] + [tx];
      OrderInAppend(txs[1..], tx, t);
    }
  }

  /** Nothing but an Add makes an id known, and nothing makes the orchestrator forget it. */
  lemma DoKnown(o: Orch, op: OrchOp, t: TxId)
    requires OrchInv(o) && (op.Add? ==> FreshId(o, op.tx.id))
    ensures KnownAs(Do(o, op), t) == if op.Add? && op.tx.id == t then Some(op.tx) else KnownAs(o, t)
    ensures op.Add? && op.tx.id == t ==> KnownAs(o, t).None?
  {
    match op {
      case Add(tx) => OrderInFound(o.pending, t); OrderInAppend(o.pending, tx, t);
      case Vote(u, s, yes) => VoteResult(o, u, s, yes, t);
      case Timeouts =>
      case Produce => ProduceKnown(o, t);
    }
  }

  lemma ProduceKnown(o: Orch, t: TxId)
    requires OrchInv(o)
    ensures KnownAs(ProduceOrchBlock(o), t) == KnownAs(o, t)
  {
    OrderInFound(o.pending, t);
    ProduceAt(o, t);
    AwaitAt(CheckTimeouts(o), CheckTimeouts(o).pending, |o.blocks|, t);
  }

  lemma {:induction false} RunKnown(o: Orch, ops: seq<OrchOp>, t: TxId)
    requires OrchInv(o) && FreshIds(o, ops)
    ensures var known := KnownAs(RunOps(o, ops), t);
            && (KnownAs(o, t).Some? ==> known == KnownAs(o, t) && !Added(ops, t))
            && (known.Some? <==> KnownAs(o, t).Some? || Added(ops, t))
            && (forall i :: 0 <= i < |ops| && ops[i].Add? && ops[i].tx.id == t ==> known == Some(ops[i].tx))
    decreases ops
  {
    if ops != [] {
      DoInv(o, ops[0]);
      DoKnown(o, ops[0], t);
      RunKnown(Do(o, ops[0]), ops[1..], t);
      assert forall i :: 0 < i < |ops| ==> ops[i] == ops[1..][i - 1];
      assert Added(ops, t) <==> (ops[0].Add? && ops[0].tx.id == t) || Added(ops[1..], t) by {
        if i :| 0 <= i < |ops[1..]| && ops[1..][i].Add? && ops[1..][i].tx.id == t {
          assert ops[i + 1] == ops[1..][i];
        }
      }
    }
  }

  /** In every run with fresh ids a transaction that was ever added is in exactly one
      of: pending, awaiting votes, decided for the next block, decided in a block; it is
      still the transaction that was added; an id never added is in none of them; and no
      two blocks decide the same id. */
  lemma Lifecycle(timeout: nat, ops: seq<OrchOp>, t: TxId)
    requires FreshIds(NewOrch(timeout), ops)
    ensures Places(RunOps(NewOrch(timeout), ops), t) == if Added(ops, t) then 1 else 0
    ensures forall i :: 0 <= i < |ops| && ops[i].Add? && ops[i].tx.id == t ==>
        KnownAs(RunOps(NewOrch(timeout), ops), t) == Some(ops[i].tx)
    ensures var o := RunOps(NewOrch(timeout), ops);
            forall i, j :: 0 <= i < j < |o.blocks| && t in o.blocks[i].tpcResult ==> t !in o.blocks[j].tpcResult
  {
    InitInv(timeout);
    RunInv(NewOrch(timeout), ops);
    RunKnown(NewOrch(timeout), ops, t);
    var o := RunOps(NewOrch(timeout), ops);
    assert OrderIn(GENESIS.ctToOrder, t).None? && OrderOf([GENESIS][..0], t).None?;
    assert KnownAs(NewOrch(timeout), t).None?;
    assert Placed(o, t);
    OrderInFound(o.pending, t);
    forall i, j | 0 <= i < j < |o.blocks| && t in o.blocks[i].tpcResult ensures t !in o.blocks[j].tpcResult {
      DecidedOnce(o.blocks, i, t);
      DecidedOnce(o.blocks, j, t);
    }
  }

  /** A transaction ordered in block h is decided in a block between h + 1 and
      h + timeout + 1, as soon as the chain is that long. */
  lemma Deadline(timeout: nat, ops: seq<OrchOp>, h: nat, i: nat)
    requires FreshIds(NewOrch(timeout), ops)
    requires var o := RunOps(NewOrch(timeout), ops);
             h < |o.blocks| && i < |o.blocks[h].ctToOrder| && Height(o) >= h + timeout + 1
    ensures var o := RunOps(NewOrch(timeout), ops);
            exists d :: h + 1 <= d <= h + timeout + 1 && d < |o.blocks|
                        && o.blocks[h].ctToOrder[i].id in o.blocks[d].tpcResult
  {
    InitInv(timeout);
    RunInv(NewOrch(timeout), ops);
    var o := RunOps(NewOrch(timeout), ops);
    var t := o.blocks[h].ctToOrder[i].id;
    OrderedOnce(o.blocks, h, i);
    assert Placed(o, t) && OnTime(o, t);
    assert t in o.awaiting ==> Tracked(o, t);
    assert DecisionOf(o.blocks, t).Some?;
    var d := DecidedAt(o.blocks, t);
    DecidedAtInRange(o.blocks, t);
    DecidedOnce(o.blocks, d, t);
    assert t in o.blocks[d].tpcResult;
  }

  // ---------------------------------------------------------------------------
  // First come, first served
  // ---------------------------------------------------------------------------

  /** The added transactions, in order. */
  function Adds(ops: seq<OrchOp>): seq<CrossShardTx> {
    if ops == [] then [] else Adds(ops[..|ops| - 1]) + (if ops[|ops| - 1].Add? then [ops[|ops| - 1].tx] else [])
  }

  /** The transactions ordered by the blocks, block after block. */
  function InBlocks(blocks: seq<OrchestratorBlock>): seq<CrossShardTx> {
    if blocks == [] then [] else InBlocks(blocks[..|blocks| - 1]) + blocks[|blocks| - 1].ctToOrder
  }

  lemma {:induction false} AwaitRest(o: Orch, txs: seq<CrossShardTx>, height: nat)
    ensures Await(o, txs, height).pending == o.pending && Await(o, txs, height).blocks == o.blocks
    decreases txs
  {
    if txs != [] { AwaitRest(o, txs[..|txs| - 1], height); }
  }

  lemma OneCallOrdered(o: Orch, op: OrchOp)
    requires o.blocks != []
    ensures var o' := Do(o, op);
            InBlocks(o'.blocks) + o'.pending == InBlocks(o.blocks) + o.pending + (if op.Add? then [op.tx] else [])
  {
    match op {
      case Add(tx) => assert InBlocks(o.blocks) + (o.pending + [tx]) == InBlocks(o.blocks) + o.pending + [tx];
      case Vote(t, s, yes) => VoteResult(o, t, s, yes, t);
      case Timeouts =>
      case Produce => BlockOrders(o);
    }
    assert InBlocks(o.blocks) + o.pending + [] == InBlocks(o.blocks) + o.pending;
  }

  lemma BlockOrders(o: Orch)
    requires o.blocks != []
    ensures var o' := ProduceOrchBlock(o); InBlocks(o'.blocks) == InBlocks(o.blocks) + o.pending && o'.pending == []
  {
    var o1, o' := CheckTimeouts(o), ProduceOrchBlock(o);
    AwaitRest(o1, o1.pending, Height(o) + 1);
    assert o'.blocks[..|o.blocks|] == o.blocks;
  }

  /** In every run the blocks order the added transactions in the order they were added,
      each exactly once, and those not yet ordered are pending in that order. */
  lemma {:induction false} FirstComeFirstServed(timeout: nat, ops: seq<OrchOp>)
    ensures var o := RunOps(NewOrch(timeout), ops);
            InBlocks(o.blocks) + o.pending == Adds(ops)
    decreases |ops|
  {
    var o := NewOrch(timeout);
    if ops == [] {
      assert InBlocks(o.blocks[..0]) == [];
    } else {
      var n := |ops| - 1;
      RunLast(o, ops);
      FirstComeFirstServed(timeout, ops[..n]);
      OneCallOrdered(RunOps(o, ops[..n]), ops[n]);
    }
  }

  // ---------------------------------------------------------------------------
  // Nothing is aborted early
  // ---------------------------------------------------------------------------

  /** How many blocks the calls produce. */
  function Blocks(ops: seq<OrchOp>): nat {
    if ops == [] then 0 else Blocks(ops[..|ops| - 1]) + (if ops[|ops| - 1].Produce? then 1 else 0)
  }

  /** Call i is a NO vote on t and comes before the call that produces block d (block 0 is
      there from the start). */
  predicate SaysNo(ops: seq<OrchOp>, t: TxId, d: nat, i: int) {
    0 <= i < |ops| && ops[i].Vote? && ops[i].t == t && !ops[i].yes && Blocks(ops[..i]) < d
  }

  ghost predicate NoVoteBefore(ops: seq<OrchOp>, t: TxId, d: nat) {
    exists i :: SaysNo(ops, t, d, i)
  }

  /** An abort of t is late, unless `pendingNo` (for one not yet in a block) or `decidedNo`
      (for one in a block) gives another reason. */
  ghost predicate Explained(o: Orch, t: TxId, pendingNo: bool, decidedNo: bool) {
    && (t in o.result && !o.result[t] ==> |o.blocks| == OrderedAt(o.blocks, t) + o.timeout + 1 || pendingNo)
    && (DecisionOf(o.blocks, t) == Some(false) ==>
          DecidedAt(o.blocks, t) == OrderedAt(o.blocks, t) + o.timeout + 1 || decidedNo)
  }

  /** Every abort of t, pending or in a block, is late or follows a NO vote among the calls. */
  ghost predicate AbortsExplained(o: Orch, ops: seq<OrchOp>, t: TxId) {
    Explained(o, t, NoVoteBefore(ops, t, |o.blocks|), NoVoteBefore(ops, t, DecidedAt(o.blocks, t)))
  }

  /** How one call other than a new block can bring about a pending abort. */
  lemma NewAbort(o: Orch, op: OrchOp, t: TxId)
    requires OrchInv(o) && !op.Produce?
    ensures var o' := Do(o, op);
            && o'.blocks == o.blocks && o'.timeout == o.timeout
            && (t in o'.result && !o'.result[t] ==>
                  || (t in o.result && !o.result[t])
                  || |o.blocks| == OrderedAt(o.blocks, t) + o.timeout + 1
                  || (op.Vote? && op.t == t && !op.yes))
  {
    match op {
      case Add(_) =>
      case Vote(u, s, yes) => VoteResult(o, u, s, yes, t);
      case Timeouts => if t in Expired(o) { assert Tracked(o, t); }
    }
  }

  /** A vote is answered with true exactly when it changes something. */
  lemma AcceptedIffCounted(o: Orch, t: TxId, s: int, yes: bool)
    ensures VoteAccepted(o, t, s) <==> RecordVote(o, t, s, yes) != o
  {
    if VoteAccepted(o, t, s) {
      var votes := VotesFor(o, t)[s := yes];
      assert s in VotesFor(o.(votes := o.votes[t := votes]), t);
    }
  }

  lemma VoteResult(o: Orch, u: TxId, s: int, yes: bool, t: TxId)
    ensures var o' := RecordVote(o, u, s, yes);
            && o'.blocks == o.blocks && o'.timeout == o.timeout && o'.pending == o.pending
            && (t in o'.result && !o'.result[t] ==> (t in o.result && !o.result[t]) || (u == t && !yes))
  {
  }

  /** How a new block can decide t. */
  lemma NewDecision(o: Orch, t: TxId)
    requires OrchInv(o)
    ensures var o' := ProduceOrchBlock(o);
            && o'.timeout == o.timeout && |o'.blocks| == |o.blocks| + 1 && o'.result == map[]
            && (DecisionOf(o'.blocks, t) == Some(false) ==>
                  && OrderedAt(o'.blocks, t) == OrderedAt(o.blocks, t)
                  && if DecisionOf(o.blocks, t) == Some(false) then DecidedAt(o'.blocks, t) == DecidedAt(o.blocks, t)
                     else DecidedAt(o'.blocks, t) == |o.blocks|
                          && ((t in o.result && !o.result[t])
                              || |o.blocks| == OrderedAt(o.blocks, t) + o.timeout + 1))
  {
    var o1 := CheckTimeouts(o);
    ProduceAt(o, t);
    AwaitAt(o1, o1.pending, |o.blocks|, t);
    NewAbort(o, Timeouts, t);
    assert Placed(o1, t) && Placed(o, t);
    assert IsPending(o1, t) == IsPending(o, t);
  }

  /** Where the new state puts its decision on t, compared with the old one. */
  lemma DecisionMoves(o: Orch, op: OrchOp, t: TxId)
    requires OrchInv(o)
    ensures var o' := Do(o, op);
            && (!op.Produce? ==> o'.blocks == o.blocks)
            && (op.Produce? && DecisionOf(o'.blocks, t) == Some(false) ==>
                  DecidedAt(o'.blocks, t) ==
                      if DecisionOf(o.blocks, t) == Some(false) then DecidedAt(o.blocks, t) else |o.blocks|)
  {
    if op.Produce? { NewDecision(o, t); } else { NewAbort(o, op, t); }
  }

  lemma NextExplained(o: Orch, op: OrchOp, t: TxId, pending: bool, decided: bool, pending': bool, decided': bool)
    requires OrchInv(o) && Explained(o, t, pending, decided)
    requires !op.Produce? && (pending || (op.Vote? && op.t == t && !op.yes)) ==> pending'
    requires DecisionOf(Do(o, op).blocks, t) == Some(false) ==>
               if DecisionOf(o.blocks, t) == Some(false) then decided ==> decided' else pending ==> decided'
    ensures Explained(Do(o, op), t, pending', decided')
  {
    if op.Produce? { NewDecision(o, t); } else { NewAbort(o, op, t); }
  }

  lemma NoVoteCarries(ops: seq<OrchOp>, t: TxId, d: nat)
    requires ops != []
    ensures NoVoteBefore(ops[..|ops| - 1], t, d) ==> NoVoteBefore(ops, t, d)
    ensures var n := |ops| - 1;
            ops[n].Vote? && ops[n].t == t && !ops[n].yes && Blocks(ops[..n]) < d ==> NoVoteBefore(ops, t, d)
  {
    var n := |ops| - 1;
    var before := ops[..n];
    assert SaysNo(ops, t, d, n) ==> NoVoteBefore(ops, t, d);
    if i :| SaysNo(before, t, d, i) {
      assert before[i] == ops[i] && before[..i] == ops[..i];
      assert SaysNo(ops, t, d, i);
    }
  }

  lemma {:induction false} RunBlocks(o: Orch, ops: seq<OrchOp>)
    requires o.blocks != []
    ensures |RunOps(o, ops).blocks| == |o.blocks| + Blocks(ops)
    decreases |ops|
  {
    if ops != [] {
      var n := |ops| - 1;
      RunLast(o, ops);
      RunBlocks(o, ops[..n]);
      OneCallBlocks(RunOps(o, ops[..n]), ops[n]);
    }
  }

  lemma OneCallBlocks(o: Orch, op: OrchOp)
    requires o.blocks != []
    ensures |Do(o, op).blocks| == |o.blocks| + (if op.Produce? then 1 else 0)
  {
  }

  lemma LastExplained(o: Orch, ops: seq<OrchOp>, op: OrchOp, t: TxId)
    requires OrchInv(o) && |o.blocks| == 1 + Blocks(ops) && AbortsExplained(o, ops, t)
    ensures AbortsExplained(Do(o, op), ops + [op], t)
  {
    var o', ops', d := Do(o, op), ops + [op], DecidedAt(o.blocks, t);
    assert ops'[..|ops|] == ops;
    DecisionMoves(o, op, t);
    NoVoteCarries(ops', t, |o.blocks|);
    NoVoteCarries(ops', t, d);
    NextExplained(o, op, t, NoVoteBefore(ops, t, |o.blocks|), NoVoteBefore(ops, t, d),
        NoVoteBefore(ops', t, |o'.blocks|), NoVoteBefore(ops', t, DecidedAt(o'.blocks, t)));
  }

  lemma {:induction false} AllExplained(o: Orch, ops: seq<OrchOp>, t: TxId)
    requires OrchInv(o) && |o.blocks| == 1 && FreshIds(o, ops) && AbortsExplained(o, [], t)
    ensures AbortsExplained(RunOps(o, ops), ops, t)
    decreases |ops|
  {
    if ops != [] {
      RunLast(o, ops);
      var n := |ops| - 1;
      AllExplained(o, ops[..n], t);
      RunInv(o, ops[..n]);
      RunBlocks(o, ops[..n]);
      assert ops == ops[..n] + [ops[n]];
      LastExplained(RunOps(o, ops[..n]), ops[..n], ops[n], t);
    }
  }

  /** In every run with fresh ids, a transaction ordered in block h and aborted by block d
      without a NO vote before d has timed out: d is exactly h + timeout + 1. */
  lemma NoEarlyAbort(timeout: nat, ops: seq<OrchOp>, h: nat, i: nat, d: nat)
    requires FreshIds(NewOrch(timeout), ops)
    requires var o := RunOps(NewOrch(timeout), ops);
             && h < |o.blocks| && i < |o.blocks[h].ctToOrder| && d < |o.blocks|
             && var t := o.blocks[h].ctToOrder[i].id;
             && t in o.blocks[d].tpcResult && !o.blocks[d].tpcResult[t]
             && !NoVoteBefore(ops, t, d)
    ensures d == h + timeout + 1
  {
    var o0 := NewOrch(timeout);
    InitInv(timeout);
    RunInv(o0, ops);
    var o := RunOps(o0, ops);
    var t := o.blocks[h].ctToOrder[i].id;
    OrderedOnce(o.blocks, h, i);
    DecidedOnce(o.blocks, d, t);
    assert DecisionOf([GENESIS][..0], t).None?;
    assert AbortsExplained(o0, [], t);
    AllExplained(o0, ops, t);
  }

  lemma {:induction false} OrderedOnce(hist: seq<OrchestratorBlock>, h: nat, i: nat)
    requires WellFormed(hist) && h < |hist| && i < |hist[h].ctToOrder|
    ensures OrderOf(hist, hist[h].ctToOrder[i].id) == Some(hist[h].ctToOrder[i])
    ensures OrderedAt(hist, hist[h].ctToOrder[i].id) == h
    decreases |hist|
  {
    var t, m := hist[h].ctToOrder[i].id, |hist| - 1;
    if h < m {
      OrderedOnce(hist[..m], h, i);
      OrderInFound(hist[m].ctToOrder, t);
    } else {
      OrderInAt(hist[m].ctToOrder, i);
    }
  }

  // ---------------------------------------------------------------------------
  // Vote aggregation
  // ---------------------------------------------------------------------------

  datatype Ballot = Ballot(s: int, yes: bool)

  /** Each shard's first vote. */
  function FirstVotes(ballots: seq<Ballot>): map<int, bool> {
    if ballots == [] then map[]
    else
      var n := |ballots| - 1;
      var before := FirstVotes(ballots[..n]);
      if ballots[n].s in before then before else before[ballots[n].s := ballots[n].yes]
  }

  ghost predicate Unanimous(votes: map<int, bool>, voters: seq<int>) {
    (forall s :: s in votes ==> votes[s]) && forall i :: 0 <= i < |voters| ==> voters[i] in votes
  }

  ghost predicate AnyNo(votes: map<int, bool>) {
    exists s :: s in votes && !votes[s]
  }

  /** At some point every expected voter had voted and all votes so far were YES. */
  ghost predicate Carried(ballots: seq<Ballot>, voters: seq<int>) {
    exists k :: 0 <= k <= |ballots| && Unanimous(FirstVotes(ballots[..k]), voters)
  }

  ghost function Outcome(ballots: seq<Ballot>, voters: seq<int>): Option<bool> {
    if Carried(ballots, voters) then Some(true) else if AnyNo(FirstVotes(ballots)) then Some(false) else None
  }

  lemma {:induction false} DistinctFits(voters: seq<int>, votes: map<int, bool>)
    requires Distinct(voters) && forall i :: 0 <= i < |voters| ==> voters[i] in votes
    ensures |votes| >= |voters|
    decreases |voters|
  {
    if voters != [] {
      var n := |voters| - 1;
      DistinctFits(voters[..n], votes - {voters[n]});
      assert (votes - {voters[n]}).Keys == votes.Keys - {voters[n]};
      assert |(votes - {voters[n]}).Keys| == |votes.Keys| - 1;
    }
  }

  /** Because no voter is listed twice, the length comparison never delays a commit. */
  lemma LengthCheckIsRedundant(voters: seq<int>, votes: map<int, bool>)
    requires Distinct(voters)
    ensures AllVoted(voters, votes) <==> forall i :: 0 <= i < |voters| ==> voters[i] in votes
  {
    if forall i :: 0 <= i < |voters| ==> voters[i] in votes {
      DistinctFits(voters, votes);
    }
  }

  lemma CarriedGrows(ballots: seq<Ballot>, voters: seq<int>)
    requires ballots != []
    ensures var n := |ballots| - 1;
            Carried(ballots, voters) <==> Carried(ballots[..n], voters) || Unanimous(FirstVotes(ballots), voters)
  {
    var n := |ballots| - 1;
    if k :| 0 <= k <= n && Unanimous(FirstVotes(ballots[..n][..k]), voters) {
      assert ballots[..n][..k] == ballots[..k];
    }
    if Unanimous(FirstVotes(ballots), voters) {
      assert ballots[..n + 1] == ballots;
    }
    if k :| 0 <= k <= |ballots| && Unanimous(FirstVotes(ballots[..k]), voters) {
      if k <= n {
        assert ballots[..n][..k] == ballots[..k];
      } else {
        assert ballots[..k] == ballots;
      }
    }
  }

  /** Collecting: t awaits votes, `votes` are recorded so far, nothing is decided. */
  ghost predicate Collecting(o: Orch, t: TxId, tx: CrossShardTx, votes: map<int, bool>) {
    t in o.awaiting && t in o.expected && o.expected[t] == InvolvedShardsOf(tx) && VotesFor(o, t) == votes
        && t !in o.result
  }

  lemma NextBallot(o: Orch, t: TxId, tx: CrossShardTx, ballots: seq<Ballot>)
    requires ballots != []
    requires var n, voters := |ballots| - 1, InvolvedShardsOf(tx);
             && (AllVoted(voters, FirstVotes(ballots)) <==> forall i :: 0 <= i < |voters| ==>
                 voters[i] in FirstVotes(ballots))
             && (Carried(ballots, voters) <==> Carried(ballots[..n], voters) || Unanimous(FirstVotes(ballots), voters))
             && match Outcome(ballots[..n], voters)
                case Some(d) => t !in o.awaiting && t in o.result && o.result[t] == d
                case None => Collecting(o, t, tx, FirstVotes(ballots[..n]))
    ensures var n := |ballots| - 1;
            var o' := RecordVote(o, t, ballots[n].s, ballots[n].yes);
            match Outcome(ballots, InvolvedShardsOf(tx))
            case Some(d) => t !in o'.awaiting && t in o'.result && o'.result[t] == d
            case None => Collecting(o', t, tx, FirstVotes(ballots))
  {
    var n, voters := |ballots| - 1, InvolvedShardsOf(tx);
    var before, after := FirstVotes(ballots[..n]), FirstVotes(ballots);
    var b := ballots[n];
    if AnyNo(before) {
      var s :| s in before && !before[s];
      assert s in after && !after[s];
    } else if b.s in before {
      assert after == before;
      assert Unanimous(before, voters) ==> Carried(ballots[..n],
                                           voters) by { assert ballots[..n][..n] == ballots[..n]; }
    } else if !b.yes {
      assert b.s in after && !after[b.s];
    } else {
      assert forall s :: s in after ==> after[s];
    }
  }

  /** If only expected voters vote, the decision is the conjunction of their first
      votes, taken as soon as one is NO or all are in. */
  lemma DecisionIsConjunction(ballots: seq<Ballot>, voters: seq<int>)
    requires forall i :: 0 <= i < |ballots| ==> ballots[i].s in voters
    ensures Outcome(ballots, voters)
         == if AnyNo(FirstVotes(ballots)) then Some(false)
            else if forall i :: 0 <= i < |voters| ==> voters[i] in FirstVotes(ballots) then Some(true)
            else None
  {
    if k :| 0 <= k <= |ballots| && Unanimous(FirstVotes(ballots[..k]), voters) {
      SettledVotes(ballots, voters, k);
    } else if !AnyNo(FirstVotes(ballots)) && forall i :: 0 <= i < |voters| ==> voters[i] in FirstVotes(ballots) {
      assert ballots[..|ballots|] == ballots;
      assert Unanimous(FirstVotes(ballots), voters);
    }
  }

  /** Once all voters have voted, further ballots change nothing. */
  lemma {:induction false} SettledVotes(ballots: seq<Ballot>, voters: seq<int>, k: nat)
    requires forall i :: 0 <= i < |ballots| ==> ballots[i].s in voters
    requires k <= |ballots| && forall i :: 0 <= i < |voters| ==> voters[i] in FirstVotes(ballots[..k])
    ensures FirstVotes(ballots) == FirstVotes(ballots[..k])
    decreases |ballots|
  {
    if k == |ballots| {
      assert ballots[..k] == ballots;
    } else {
      var n := |ballots| - 1;
      assert ballots[..n][..k] == ballots[..k];
      SettledVotes(ballots[..n], voters, k);
    }
  }

  // ---------------------------------------------------------------------------
  // Votes among other calls
  // ---------------------------------------------------------------------------

  /** The ballots on t among the calls. */
  function BallotsOn(ops: seq<OrchOp>, t: TxId): seq<Ballot> {
    if ops == [] then []
    else
      var n := |ops| - 1;
      BallotsOn(ops[..n], t) + (if ops[n].Vote? && ops[n].t == t then [Ballot(ops[n].s, ops[n].yes)] else [])
  }

  /** No check for timeouts comes too late for t. */
  ghost predicate NeverExpires(o: Orch, ops: seq<OrchOp>, t: TxId)
    requires o.blocks != []
  {
    forall k :: 0 <= k < |ops| && (ops[k].Timeouts? || ops[k].Produce?) ==> t !in Expired(RunOps(o, ops[..k]))
  }

  lemma {:induction false} RunLast(o: Orch, ops: seq<OrchOp>)
    requires o.blocks != [] && ops != []
    ensures RunOps(o, ops) == Do(RunOps(o, ops[..|ops| - 1]), ops[|ops| - 1])
    ensures FreshIds(o, ops) ==>
              FreshIds(o, ops[..|ops| - 1]) && (ops[|ops| - 1].Add? ==>
                  FreshId(RunOps(o, ops[..|ops| - 1]), ops[|ops| - 1].tx.id))
    decreases ops
  {
    var n := |ops| - 1;
    if n > 0 {
      assert ops[..n][1..] == ops[1..][..n - 1] && ops[..n][0] == ops[0];
      RunLast(Do(o, ops[0]), ops[1..]);
    } else {
      assert ops[1..] == [] && ops[..0] == [];
    }
  }

  /** The count for t stands at d, whether in the pending results or already in a block. */
  ghost predicate Stands(o: Orch, t: TxId, d: bool) {
    t !in o.awaiting && ((t in o.result && o.result[t] == d) || (t !in o.result && DecisionOf(o.blocks, t) == Some(d)))
  }

  ghost predicate CountedAs(o: Orch, t: TxId, tx: CrossShardTx, ballots: seq<Ballot>) {
    match Outcome(ballots, InvolvedShardsOf(tx))
    case Some(d) => Stands(o, t, d)
    case None => Collecting(o, t, tx, FirstVotes(ballots)) && OrderOf(o.blocks, t).Some?
  }

  /** A transaction just put into a block starts with no votes. */
  lemma NewlyOrdered(o: Orch, t: TxId)
    requires OrchInv(o) && IsPending(o, t)
    ensures OrderIn(o.pending, t).Some? && Collecting(ProduceOrchBlock(o), t, OrderIn(o.pending, t).value, map[])
    ensures OrderOf(ProduceOrchBlock(o).blocks, t) == OrderIn(o.pending, t)
  {
    var o1 := CheckTimeouts(o);
    TimeoutsInv(o);
    ProduceAt(o, t);
    AwaitAt(o1, o1.pending, |o.blocks|, t);
    assert Placed(o1, t);
    assert OrderOf(o1.blocks, t).None? by {
      var i :| 0 <= i < |o.pending| && o.pending[i].id == t;
    }
    assert t in o1.votes ==> Tracked(o1, t);
  }

  /** The two states hold the same about t. */
  ghost predicate SameAbout(o: Orch, o': Orch, t: TxId) {
    && (t in o'.awaiting <==> t in o.awaiting) && (t in o'.result <==> t in o.result)
        && (t in o.result ==> o'.result[t] == o.result[t])
    && VotesFor(o', t) == VotesFor(o, t) && VotersFor(o', t) == VotersFor(o, t)
        && (t in o'.expected <==> t in o.expected)
  }

  lemma SettleAbout(o: Orch, t: TxId, u: TxId, committed: bool)
    requires u != t
    ensures SameAbout(o, Settle(o, u, committed), t)
  {
  }

  lemma OtherVote(o: Orch, t: TxId, u: TxId, s: int, yes: bool)
    requires u != t
    ensures RecordVote(o, u, s, yes).blocks == o.blocks && SameAbout(o, RecordVote(o, u, s, yes), t)
  {
    SettleAbout(o, t, u, true);
    SettleAbout(o, t, u, false);
  }

  lemma TimeoutsPass(o: Orch, t: TxId)
    requires t !in Expired(o)
    ensures CheckTimeouts(o).blocks == o.blocks && SameAbout(o, CheckTimeouts(o), t)
  {
  }

  lemma ProducePass(o: Orch, t: TxId)
    requires OrchInv(o) && t !in Expired(o) && !IsPending(o, t)
    ensures var o' := ProduceOrchBlock(o);
            && (t in o'.awaiting <==> t in o.awaiting) && t !in o'.result
            && DecisionOf(o'.blocks, t) == (if t in o.result then Some(o.result[t]) else DecisionOf(o.blocks, t))
            && OrderOf(o'.blocks, t) == OrderOf(o.blocks, t)
            && VotesFor(o', t) == VotesFor(o, t) && VotersFor(o', t) == VotersFor(o, t)
                && (t in o'.expected <==> t in o.expected)
  {
    var o1 := CheckTimeouts(o);
    TimeoutsPass(o, t);
    ProduceAt(o, t);
    AwaitAt(o1, o1.pending, |o.blocks|, t);
  }

  lemma NotOwnVoteCounts(o: Orch, op: OrchOp, t: TxId, tx: CrossShardTx, ballots: seq<Ballot>)
    requires OrchInv(o) && OrderOf(o.blocks, t).Some? && CountedAs(o, t, tx, ballots)
    requires op.Vote? ==> op.t != t
    requires op.Timeouts? || op.Produce? ==> t !in Expired(o)
    ensures CountedAs(Do(o, op), t, tx, ballots)
  {
    assert Placed(o, t);
    match op {
      case Add(_) =>
      case Vote(u, s, yes) => OtherVote(o, t, u, s, yes);
      case Timeouts => TimeoutsPass(o, t);
      case Produce => ProducePass(o, t);
    }
  }

  lemma OwnVoteCounts(o: Orch, t: TxId, tx: CrossShardTx, ballots: seq<Ballot>)
    requires ballots != [] && CountedAs(o, t, tx, ballots[..|ballots| - 1])
    ensures CountedAs(RecordVote(o, t, ballots[|ballots| - 1].s, ballots[|ballots| - 1].yes), t, tx, ballots)
  {
    var n, voters := |ballots| - 1, InvolvedShardsOf(tx);
    InvolvedShardsAreTheVoters(tx);
    CarriedGrows(ballots, voters);
    LengthCheckIsRedundant(voters, FirstVotes(ballots));
    if Outcome(ballots[..n], voters).None? {
      NextBallot(o, t, tx, ballots);
    } else {
      StaysSettled(ballots, voters);
    }
  }

  lemma StaysSettled(ballots: seq<Ballot>, voters: seq<int>)
    requires ballots != [] && Outcome(ballots[..|ballots| - 1], voters).Some?
    ensures Outcome(ballots, voters) == Outcome(ballots[..|ballots| - 1], voters)
  {
    var n := |ballots| - 1;
    var before, after := FirstVotes(ballots[..n]), FirstVotes(ballots);
    CarriedGrows(ballots, voters);
    if AnyNo(before) {
      var s :| s in before && !before[s];
      assert s in after && !after[s];
    }
  }

  /** Whatever votes on t arrive, in whatever order and however often, among arbitrary other
      calls (additions, votes on other transactions, blocks and timeout checks that do not
      come too late for t): the outcome is commit as soon as all expected voters have voted
      and nobody said NO before; abort if a NO came earlier; open otherwise. Only each
      shard's first vote counts. */
  lemma {:induction false} VotesCountInEveryRun(o: Orch, ops: seq<OrchOp>, t: TxId, tx: CrossShardTx)
    requires OrchInv(o) && FreshIds(o, ops) && NeverExpires(o, ops, t)
    requires Collecting(o, t, tx, map[]) && OrderOf(o.blocks, t).Some?
    ensures CountedAs(RunOps(o, ops), t, tx, BallotsOn(ops, t)) && OrderOf(RunOps(o, ops).blocks, t).Some?
    decreases |ops|
  {
    if ops == [] {
      NoBallots(InvolvedShardsOf(tx), tx);
    } else {
      var n := |ops| - 1;
      RunLast(o, ops);
      assert forall k :: 0 <= k < n ==> ops[..n][..k] == ops[..k];
      VotesCountInEveryRun(o, ops[..n], t, tx);
      RunInv(o, ops[..n]);
      NextCounts(RunOps(o, ops[..n]), ops[n], t, tx, BallotsOn(ops[..n], t));
    }
  }

  lemma NextCounts(o: Orch, op: OrchOp, t: TxId, tx: CrossShardTx, before: seq<Ballot>)
    requires OrchInv(o) && OrderOf(o.blocks, t).Some? && CountedAs(o, t, tx, before)
    requires op.Timeouts? || op.Produce? ==> t !in Expired(o)
    ensures OrderOf(Do(o, op).blocks, t).Some?
    ensures CountedAs(Do(o, op), t, tx, before + (if op.Vote? && op.t == t then [Ballot(op.s, op.yes)] else []))
  {
    StillOrdered(o, op, t);
    if op.Vote? && op.t == t {
      var ballots := before + [Ballot(op.s, op.yes)];
      assert ballots[..|ballots| - 1] == before;
      OwnVoteCounts(o, t, tx, ballots);
    } else {
      assert before + [] == before;
      NotOwnVoteCounts(o, op, t, tx, before);
    }
  }

  lemma NoBallots(voters: seq<int>, tx: CrossShardTx)
    requires voters == InvolvedShardsOf(tx)
    ensures Outcome([], voters).None? && FirstVotes([]) == map[]
  {
    InvolvedShardsAreTheVoters(tx);
    assert tx.fromShard in voters;
    var none: seq<Ballot> := [];
    assert forall k :: 0 <= k <= |none| ==> none[..k] == [];
  }

  lemma StillOrdered(o: Orch, op: OrchOp, t: TxId)
    requires OrchInv(o) && OrderOf(o.blocks, t).Some?
    ensures OrderOf(Do(o, op).blocks, t).Some?
  {
    if op.Produce? { ProduceAt(o, t); OrderInFound(o.pending, t); }
  }
}
