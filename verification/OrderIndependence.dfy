/** The decisions of an orchestrator block are taken in by walking a map, in an order the
    language leaves open. Executing a queue does not depend on it. */
module OrderIndependence {
  import opened Protocol
  import opened EvmState
  import opened ShardSpec
  import opened History
  import opened ShardInvariant
  import opened ShardSteps
  import opened ShardIntake

  /** Equal but for the order of the log. */
  ghost predicate Same(x: Exec, y: Exec) {
    x.world == y.world && x.tables == y.tables && multiset(x.included) == multiset(y.included)
  }

  /** Nothing but the log depends on the log. */
  lemma LogIrrelevant(call: Call, x: Exec, y: Exec, e: Transaction)
    requires x.world == y.world && x.tables == y.tables
    ensures var x', y' := Step(call, x, e), Step(call, y, e);
            && x'.world == y'.world && x'.tables == y'.tables
            && ((x'.included == x.included && y'.included == y.included)
                || (x'.included == x.included + [e] && y'.included == y.included + [e]))
  {
  }

  lemma StepSame(call: Call, x: Exec, y: Exec, e: Transaction)
    requires Same(x, y)
    ensures Same(Step(call, x, e), Step(call, y, e))
  {
    LogIrrelevant(call, x, y, e);
  }

  lemma {:induction false} StepsSame(call: Call, x: Exec, y: Exec, txs: seq<Transaction>)
    requires Same(x, y)
    ensures Same(Steps(call, x, txs), Steps(call, y, txs))
    decreases txs
  {
    if txs != [] {
      StepSame(call, x, y, txs[0]);
      StepsSame(call, Step(call, x, txs[0]), Step(call, y, txs[0]), txs[1..]);
    }
  }

  // ---------------------------------------------------------------------------
  // Two transactions' operations commute
  // ---------------------------------------------------------------------------

  predicate IsRelease(e: Transaction) {
    e.txType.Unlock? || e.txType.CrossAbort?
  }

  /** The operation finds what it needs in its own transaction's entries. */
  ghost predicate Ready(v: View, e: Transaction) {
    && e.txId != EMPTY_ID
    && (IsCommitOp(e) || IsRelease(e))
    && (e.txType.CrossDebit? ==> v.funds == Some(Funds(e.from, e.value)))
    && (e.txType.CrossCredit? ==> e.value > 0)
    && (IsWriteOp(e) ==> WriteKeys(e.rwSet) <= v.slots)
  }

  ghost predicate Sound(x: Exec) {
    Positive(x.tables.locked) && Covered(x.tables.locked, x.world)
  }

  function WorldAfter(w: World, e: Transaction): World {
    match e.txType
    case CrossDebit => AddBalance(w, e.from, -e.value)
    case CrossCredit => AddBalance(w, e.to, e.value)
    case CrossWriteSet => w.(storage := Store(w.storage, WriteEntries(e.rwSet)))
    case Finalize => w.(storage := Store(w.storage, WriteEntries(e.rwSet)))
    case _ => w
  }

  /** A ready operation never fails. */
  lemma ReadySucceeds(call: Call, x: Exec, e: Transaction)
    requires (Sound(x) || IsRelease(e)) && Ready(ViewOf(x.tables, e.txId), e)
    ensures Step(call, x, e) == Exec(WorldAfter(x.world, e), CleanupAfterExecution(x.tables, e), x.included + [e])
  {
    if e.txType.CrossDebit? {
      DebitCovered(x.tables.locked, x.world, e.txId);
    }
  }

  lemma ReadyKeepsSound(call: Call, x: Exec, e: Transaction)
    requires Sound(x) && Ready(ViewOf(x.tables, e.txId), e)
    ensures Sound(Step(call, x, e))
  {
    StepPositive(call, x, e);
    if IsCommitOp(e) {
      CommitOpCoveredStep(call, x, e);
    } else {
      ClearCovered(x.tables.locked, x.world, e.txId);
    }
  }

  lemma SlotsFromViews(slots: map<SlotKey, TxId>, slots': map<SlotKey, TxId>)
    requires forall t :: SlotsHeld(slots, t) == SlotsHeld(slots', t)
    ensures slots == slots'
  {
    forall k ensures k in slots <==> k in slots' {
      if k in slots { assert k in SlotsHeld(slots, slots[k]); }
      if k in slots' { assert k in SlotsHeld(slots', slots'[k]); }
    }
    forall k | k in slots ensures slots[k] == slots'[k] {
      assert k in SlotsHeld(slots, slots[k]);
    }
  }

  lemma MapFromViews<V>(m: map<TxId, V>, m': map<TxId, V>)
    requires forall t :: Get(m, t) == Get(m', t)
    ensures m == m'
  {
    forall t ensures t in m <==> t in m' { assert Get(m, t) == Get(m', t); }
    forall t | t in m ensures m[t] == m'[t] { assert Get(m, t) == Get(m', t); }
  }

  /** The tables are no more than every transaction's share of them. */
  lemma TablesFromViews(a: Tables, b: Tables)
    requires forall t :: ViewOf(a, t) == ViewOf(b, t)
    ensures a == b
  {
    forall t ensures Get(a.locked, t) == Get(b.locked, t) && Get(a.credits, t) == Get(b.credits, t)
        && Get(a.calls, t) == Get(b.calls, t)
      ensures Get(a.rwSets, t) == Get(b.rwSets, t) && Get(a.prepares, t) == Get(b.prepares, t)
          && SlotsHeld(a.slots, t) == SlotsHeld(b.slots, t)
    {
      assert ViewOf(a, t) == ViewOf(b, t);
    }
    MapFromViews(a.locked, b.locked);
    MapFromViews(a.credits, b.credits);
    MapFromViews(a.calls, b.calls);
    MapFromViews(a.rwSets, b.rwSets);
    MapFromViews(a.prepares, b.prepares);
    SlotsFromViews(a.slots, b.slots);
  }

  function ViewAfter(v: View, e: Transaction): View {
    if e.txId == EMPTY_ID then v
    else match e.txType
      case CrossDebit => v.(funds := None)
      case CrossCredit => v.(credits := if v.credits.Some?
                          && OtherCredits(v.credits.value,
                          e.to) != [] then Some(OtherCredits(v.credits.value, e.to)) else None)
      case CrossWriteSet => v.(call := None)
      case CrossAbort => NOTHING.(vote := v.vote)
      case Lock => v.(vote := Some(true))
      case Finalize => v.(slots := {}, rw := None)
      case Unlock => NOTHING.(vote := v.vote)
      case _ => v
  }

  /** What cleaning up does to a transaction's share depends on that share only. */
  lemma CleanupOwn(tb: Tables, e: Transaction)
    ensures ViewOf(CleanupAfterExecution(tb, e), e.txId) == ViewAfter(ViewOf(tb, e.txId), e)
  {
    var t := e.txId;
    if e.txType.CrossAbort? || e.txType.Unlock? {
      ClearAllView(tb, t, t);
    } else if e.txType.CrossCredit? {
      ClearCreditAt(tb.credits, t, e.to);
    } else {
      PartialOwn(tb, e);
    }
  }

  lemma PartialOwn(tb: Tables, e: Transaction)
    requires !e.txType.CrossAbort? && !e.txType.Unlock? && !e.txType.CrossCredit?
    ensures ViewOf(CleanupAfterExecution(tb, e), e.txId) == ViewAfter(ViewOf(tb, e.txId), e)
  {
    if e.txType.Finalize? {
      ReleaseFrame(tb.slots, e.txId, e.txId);
    } else {
      KeepsSlots(tb, e);
    }
  }

  lemma KeepsSlots(tb: Tables, e: Transaction)
    requires !e.txType.CrossAbort? && !e.txType.Unlock? && !e.txType.CrossCredit? && !e.txType.Finalize?
    ensures ViewOf(CleanupAfterExecution(tb, e), e.txId) == ViewAfter(ViewOf(tb, e.txId), e)
  {
    match e.txType {
      case CrossDebit =>
      case CrossWriteSet =>
      case Lock =>
      case _ =>
    }
  }

  lemma ClearCreditAt(credits: map<TxId, seq<Funds>>, t: TxId, a: Address)
    ensures var c := Get(credits, t);
            Get(ClearCredit(credits, t, a), t)
            == if c.Some? && OtherCredits(c.value, a) != [] then Some(OtherCredits(c.value, a)) else None
  {
  }

  lemma CleanupCommutes(tb: Tables, e: Transaction, f: Transaction)
    requires e.txId != f.txId
    ensures CleanupAfterExecution(CleanupAfterExecution(tb, e), f) ==
        CleanupAfterExecution(CleanupAfterExecution(tb, f), e)
  {
    var a, b := CleanupAfterExecution(tb, e), CleanupAfterExecution(tb, f);
    forall t ensures ViewOf(CleanupAfterExecution(a, f), t) == ViewOf(CleanupAfterExecution(b, e), t) {
      if t != f.txId { CleanupFrame(a, f, t); CleanupFrame(tb, f, t); }
      if t != e.txId { CleanupFrame(b, e, t); CleanupFrame(tb, e, t); }
      if t == e.txId { CleanupOwn(tb, e); CleanupOwn(b, e); }
      if t == f.txId { CleanupOwn(tb, f); CleanupOwn(a, f); }
    }
    TablesFromViews(CleanupAfterExecution(a, f), CleanupAfterExecution(b, e));
  }

  lemma {:induction false} StoreOther(st: map<SlotKey, Word>, entries: seq<Entry>, k: SlotKey, v: Word)
    requires k !in Keys(entries)
    ensures Store(st[k := v], entries) == Store(st, entries)[k := v]
    decreases entries
  {
    if entries != [] {
      var e := entries[0];
      assert e.key in Keys(entries);
      assert st[k := v][e.key := e.value] == st[e.key := e.value][k := v];
      assert Keys(entries[1..]) <= Keys(entries) by { KeysTail(entries); }
      StoreOther(st[e.key := e.value], entries[1..], k, v);
    }
  }

  lemma KeysTail(entries: seq<Entry>)
    requires entries != []
    ensures Keys(entries[1..]) <= Keys(entries) && entries[0].key in Keys(entries)
  {
    forall k | k in Keys(entries[1..]) ensures k in Keys(entries) {
      var i :| 0 <= i < |entries[1..]| && entries[1..][i].key == k;
      assert entries[i + 1].key == k;
    }
  }

  lemma {:induction false} StoresCommute(st: map<SlotKey, Word>, xs: seq<Entry>, ys: seq<Entry>)
    requires Keys(xs) !! Keys(ys)
    ensures Store(Store(st, xs), ys) == Store(Store(st, ys), xs)
    decreases xs
  {
    if xs != [] {
      var e := xs[0];
      KeysTail(xs);
      StoresCommute(st[e.key := e.value], xs[1..], ys);
      StoreOther(st, ys, e.key, e.value);
    }
  }

  lemma BalancesCommute(w: World, a: Address, x: int, b: Address, y: int)
    ensures AddBalance(AddBalance(w, a, x), b, y) == AddBalance(AddBalance(w, b, y), a, x)
  {
    assert AddBalance(AddBalance(w, a, x), b, y).balances == AddBalance(AddBalance(w, b, y), a, x).balances;
  }

  lemma WorldsCommute(w: World, e: Transaction, f: Transaction)
    requires IsCommitOp(e) || IsRelease(e)
    requires IsCommitOp(f) || IsRelease(f)
    requires IsWriteOp(e) && IsWriteOp(f) ==> WriteKeys(e.rwSet) !! WriteKeys(f.rwSet)
    ensures WorldAfter(WorldAfter(w, e), f) == WorldAfter(WorldAfter(w, f), e)
  {
    if IsWriteOp(e) && IsWriteOp(f) {
      StoresCommute(w.storage, WriteEntries(e.rwSet), WriteEntries(f.rwSet));
    } else if !IsWriteOp(e) && !IsWriteOp(f) && IsCommitOp(e) && IsCommitOp(f) {
      var (a, x) := if e.txType.CrossDebit? then (e.from, -e.value) else (e.to, e.value);
      var (b, y) := if f.txType.CrossDebit? then (f.from, -f.value) else (f.to, f.value);
      BalancesCommute(w, a, x, b, y);
    }
  }

  lemma Swap(call: Call, x: Exec, e: Transaction, f: Transaction)
    requires Sound(x) || (IsRelease(e) && IsRelease(f))
    requires e.txId != f.txId && Ready(ViewOf(x.tables, e.txId), e) && Ready(ViewOf(x.tables, f.txId), f)
    ensures Same(Step(call, Step(call, x, e), f), Step(call, Step(call, x, f), e))
  {
    var y, z := Step(call, x, e), Step(call, x, f);
    ReadySucceeds(call, x, e);
    ReadySucceeds(call, x, f);
    if Sound(x) {
      ReadyKeepsSound(call, x, e);
      ReadyKeepsSound(call, x, f);
    }
    StepFrame(call, x, e, f.txId);
    StepFrame(call, x, f, e.txId);
    ReadySucceeds(call, y, f);
    ReadySucceeds(call, z, e);
    CleanupCommutes(x.tables, e, f);
    assert SlotsHeld(x.tables.slots, e.txId) !! SlotsHeld(x.tables.slots, f.txId);
    WorldsCommute(x.world, e, f);
  }

  // ---------------------------------------------------------------------------
  // Lists that differ only between transactions
  // ---------------------------------------------------------------------------

  /** One transaction's part of a list: all releases, or the rest of a commit. */
  ghost predicate ReadyList(v: View, ops: seq<Transaction>) {
    && (forall i :: 0 <= i < |ops| ==> ops[i].txId != EMPTY_ID)
    && ((forall i :: 0 <= i < |ops| ==> IsRelease(ops[i])) || CommitList(v, ops))
  }

  ghost predicate CommitList(v: View, ops: seq<Transaction>) {
    && (forall i :: 0 <= i < |ops| ==> OpFits(v, ops, i))
    && (ops != [] && ops[0].txType.CrossDebit? ==> v.funds == Some(Funds(ops[0].from, ops[0].value)))
  }

  ghost predicate AllRelease(txs: seq<Transaction>) {
    forall e :: e in txs ==> IsRelease(e)
  }

  ghost predicate Executable(x: Exec, txs: seq<Transaction>) {
    (Sound(x) || AllRelease(txs)) && forall t :: ReadyList(ViewOf(x.tables, t), OfTx(txs, t))
  }

  ghost predicate SameParts(xs: seq<Transaction>, ys: seq<Transaction>) {
    forall t :: OfTx(xs, t) == OfTx(ys, t)
  }

  lemma FirstReady(v: View, ops: seq<Transaction>)
    requires ReadyList(v, ops) && ops != []
    ensures Ready(v, ops[0])
  {
    assert CommitList(v, ops) ==> OpFits(v, ops, 0);
  }

  lemma HeadReady(x: Exec, txs: seq<Transaction>)
    requires Executable(x, txs) && txs != []
    ensures Ready(ViewOf(x.tables, txs[0].txId), txs[0])
  {
    assert ReadyList(ViewOf(x.tables, txs[0].txId), OfTx(txs, txs[0].txId));
    FirstReady(ViewOf(x.tables, txs[0].txId), OfTx(txs, txs[0].txId));
  }

  lemma TailReady(x: Exec, e: Transaction, ops: seq<Transaction>, v': View)
    requires ReadyList(ViewOf(x.tables, e.txId), ops) && ops != [] && ops[0] == e
    requires v' == ViewOf(CleanupAfterExecution(x.tables, e), e.txId)
    ensures ReadyList(v', ops[1..])
  {
    var v := ViewOf(x.tables, e.txId);
    assert forall i :: 0 <= i < |ops[1..]| ==> ops[1..][i] == ops[i + 1];
    assert CommitList(v, ops) ==> OpFits(v, ops, 0);
    if IsCommitOp(e) {
      assert CommitList(v, ops) && OpFits(v, ops, 0);
      assert |ops| > 1 ==> v'.slots == v.slots;
      forall i | 0 <= i < |ops[1..]| ensures OpFits(v', ops[1..], i) {
        assert OpFits(v, ops, i + 1);
      }
      assert |ops| > 1 ==> OpFits(v, ops, 1);
      assert CommitList(v', ops[1..]);
    }
  }

  lemma SamePartsRelease(xs: seq<Transaction>, ys: seq<Transaction>)
    requires SameParts(xs, ys) && AllRelease(xs)
    ensures AllRelease(ys)
  {
    forall e | e in ys ensures IsRelease(e) {
      assert OfTx(xs, e.txId) == OfTx(ys, e.txId);
      OfTxMember(xs, e.txId, e);
      OfTxMember(ys, e.txId, e);
    }
  }

  lemma StepExecutable(call: Call, x: Exec, e: Transaction, xs: seq<Transaction>, ys: seq<Transaction>)
    requires Executable(x, xs) && xs != [] && xs[0] == e
    requires SameParts(xs[1..], ys)
    ensures Executable(Step(call, x, e), ys)
  {
    HeadReady(x, xs);
    ReadySucceeds(call, x, e);
    if Sound(x) {
      ReadyKeepsSound(call, x, e);
    } else {
      SamePartsRelease(xs[1..], ys);
    }
    forall t ensures ReadyList(ViewOf(Step(call, x, e).tables, t), OfTx(ys, t)) {
      HeadOfTx(xs, t);
      assert ReadyList(ViewOf(x.tables, t), OfTx(xs, t));
      if t == e.txId {
        TailReady(x, e, OfTx(xs, t), ViewOf(CleanupAfterExecution(x.tables, e), t));
      } else {
        StepFrame(call, x, e, t);
      }
      assert OfTx(xs[1..], t) == OfTx(ys, t);
    }
  }

  /** A transaction's first operation can be moved to the front. */
  lemma {:induction false} MoveToFront(call: Call, x: Exec, before: seq<Transaction>, e: Transaction,
                                       after: seq<Transaction>)
    requires Executable(x, before + [e] + after)
    requires forall i :: 0 <= i < |before| ==> before[i].txId != e.txId
    ensures Same(Steps(call, x, before + [e] + after), Steps(call, x, [e] + before + after))
    decreases before
  {
    if before == [] {
      assert before + [e] + after == [e] + before + after;
    } else {
      var f, rest := before[0], before[1..];
      var all := before + [e] + after;
      assert all[0] == f && all[1..] == rest + [e] + after;
      StepExecutable(call, x, f, all, rest + [e] + after);
      MoveToFront(call, Step(call, x, f), rest, e, after);
      HeadReady(x, all);
      LaterReady(x, before, e, after);
      Swap(call, x, f, e);
      StepsSame(call, Step(call, Step(call, x, f), e), Step(call, Step(call, x, e), f), rest + after);
      FirstTwo(call, x, e, f, rest, after);
      assert [f] + rest == before;
    }
  }

  lemma FirstTwo(call: Call, x: Exec, e: Transaction, f: Transaction, rest: seq<Transaction>, after: seq<Transaction>)
    ensures Steps(call, x, [e] + ([f] + rest) + after) == Steps(call, Step(call, Step(call, x, e), f), rest + after)
    ensures Steps(call, Step(call, x, f), [e] + rest + after) ==
        Steps(call, Step(call, Step(call, x, f), e), rest + after)
  {
    var all, tail, moved := [e] + ([f] + rest) + after, [f] + (rest + after), [e] + rest + after;
    assert all[0] == e && all[1..] == tail;
    assert tail[0] == f && tail[1..] == rest + after;
    assert moved[0] == e && moved[1..] == rest + after;
  }

  lemma FirstOfTx(before: seq<Transaction>, e: Transaction, after: seq<Transaction>)
    requires forall i :: 0 <= i < |before| ==> before[i].txId != e.txId
    ensures OfTx(before + [e] + after, e.txId) == [e] + OfTx(after, e.txId)
  {
    OfTxConcat(before + [e], after, e.txId);
    OfTxConcat(before, [e], e.txId);
    OfTxAll(before, e.txId);
    OfTxAll([e], e.txId);
  }

  lemma LaterReady(x: Exec, before: seq<Transaction>, e: Transaction, after: seq<Transaction>)
    requires Executable(x, before + [e] + after)
    requires forall i :: 0 <= i < |before| ==> before[i].txId != e.txId
    ensures Ready(ViewOf(x.tables, e.txId), e)
  {
    FirstOfTx(before, e, after);
    var mine := OfTx(before + [e] + after, e.txId);
    FirstReady(ViewOf(x.tables, e.txId), mine);
  }

  /** The first entry of t, and what surrounds it. */
  lemma {:induction false} FindFirst(txs: seq<Transaction>, t: TxId) returns (before: seq<Transaction>,
                                     after: seq<Transaction>)
    requires OfTx(txs, t) != []
    ensures txs == before + [OfTx(txs, t)[0]] + after
    ensures OfTx(txs, t)[0].txId == t && forall i :: 0 <= i < |before| ==> before[i].txId != t
  {
    if txs[0].txId == t {
      before, after := [], txs[1..];
    } else {
      before, after := FindFirst(txs[1..], t);
      before := [txs[0]] + before;
    }
  }

  lemma NonEmptyPart(txs: seq<Transaction>)
    requires txs != []
    ensures exists t :: OfTx(txs, t) != []
  {
    assert OfTx(txs, txs[0].txId) != [];
  }

  /** Lists with the same part for every transaction have the same effect. */
  lemma {:induction false} SameEffect(call: Call, x: Exec, xs: seq<Transaction>, ys: seq<Transaction>)
    requires Executable(x, xs) && SameParts(xs, ys)
    ensures Same(Steps(call, x, xs), Steps(call, x, ys))
    decreases |xs|
  {
    if xs == [] {
      if ys != [] {
        NonEmptyPart(ys);
        assert false;
      }
    } else {
      var e := xs[0];
      assert OfTx(xs, e.txId) == OfTx(ys, e.txId);
      var before, after := FindFirst(ys, e.txId);
      assert OfTx(xs, e.txId)[0] == e;
      if !Sound(x) { SamePartsRelease(xs, ys); }
      assert Executable(x, ys);
      MoveToFront(call, x, before, e, after);
      var front := [e] + before + after;
      assert front[0] == e && front[1..] == before + after;
      RestSameParts(xs, ys, before, e, after);
      StepExecutable(call, x, e, xs, xs[1..]);
      SameEffect(call, Step(call, x, e), xs[1..], before + after);
    }
  }

  lemma RestSameParts(xs: seq<Transaction>, ys: seq<Transaction>, before: seq<Transaction>, e: Transaction,
                      after: seq<Transaction>)
    requires SameParts(xs, ys) && xs != [] && xs[0] == e && ys == before + [e] + after
    requires forall i :: 0 <= i < |before| ==> before[i].txId != e.txId
    ensures SameParts(xs[1..], before + after)
  {
    forall t ensures OfTx(xs[1..], t) == OfTx(before + after, t) {
      HeadOfTx(xs, t);
      assert OfTx(xs, t) == OfTx(ys, t);
      OfTxConcat(before + [e], after, t);
      OfTxConcat(before, [e], t);
      OfTxConcat(before, after, t);
      OfTxAll([e], t);
      if t == e.txId {
        OfTxAll(before, t);
        assert OfTx(ys, t) == [e] + OfTx(after, t);
      }
    }
  }

  // ---------------------------------------------------------------------------
  // The priority classes of the queue
  // ---------------------------------------------------------------------------

  /** What the invariant says of t's queued commit operations is what they need. */
  lemma CommitClassReady(c: Ctx, v: View, st: map<SlotKey, Word>, mine: seq<Transaction>, log: seq<Transaction>,
                         t: TxId)
    requires CtxOK(c) && c.framed && t != EMPTY_ID && Phase(c, v, st, ByPriority(mine), log, t)
    requires forall e :: e in mine ==> e.txId == t
    ensures ReadyList(v, OfPriority(mine, 1))
  {
    var ops, rest := OfPriority(mine, 1), ByPriority(mine);
    forall e { OfPriorityMember(mine, 1, e); }
    forall i | 0 <= i < |ops| ensures ops[i].txId == t && IsCommitOp(ops[i]) { assert ops[i] in ops; }
    assert rest[..|ops|] == ops;
    if ops != [] {
      assert rest[0] == ops[0];
      CommitHead(c, v, st, rest, log, t);
      QueuedOps(c, v, st, rest, log, t, ops);
    }
  }

  lemma QueuedOps(c: Ctx, v: View, st: map<SlotKey, Word>, rest: seq<Transaction>, log: seq<Transaction>, t: TxId,
                  ops: seq<Transaction>)
    requires CtxOK(c) && c.framed && AtHead(c, v, st, rest, log, t) && IsCommitOp(rest[0])
    requires 0 < |ops| <= |rest| && rest[..|ops|] == ops && forall i :: 0 <= i < |ops| ==> IsCommitOp(ops[i])
    ensures CommitList(v, ops)
  {
    QueuedFacts(c, v, st, rest, log, t);
    PrefixOfOps(OrderOf(c.hist, t).value, c.s, CommitOps(log, t), rest, ops, v);
  }

  lemma PrefixOfOps(tx: CrossShardTx, s: int, done: seq<Transaction>, rest: seq<Transaction>, ops: seq<Transaction>,
                    v: View)
    requires 0 < |ops| <= |rest| && rest[..|ops|] == ops && forall i :: 0 <= i < |ops| ==> IsCommitOp(ops[i])
    requires rest[|rest| - 1].txType.Unlock?
    requires var all := done + rest[..|rest| - 1]; all == Ops(tx, s) || all == OtherOps(tx, s)
    requires WriteKeys(LocalRwSet(tx.rwSet, s)) <= v.slots
    requires rest[0].txType.CrossDebit? ==> v.funds == Some(Funds(rest[0].from, rest[0].value))
    ensures CommitList(v, ops)
  {
    var n := |rest| - 1;
    assert rest[|ops| - 1] == ops[|ops| - 1] && ops[0] == rest[0];
    Shifted(done, rest, n, ops);
    PartOfOps(tx, s, done + rest[..n], |done|, ops, v);
  }

  lemma Shifted(done: seq<Transaction>, rest: seq<Transaction>, n: nat, ops: seq<Transaction>)
    requires |ops| <= n <= |rest| && rest[..|ops|] == ops
    ensures forall i :: 0 <= i < |ops| ==> ops[i] == (done + rest[..n])[|done| + i]
  {
    forall i | 0 <= i < |ops| ensures ops[i] == (done + rest[..n])[|done| + i] {
      assert ops[i] == rest[i];
    }
  }

  lemma QueuedFacts(c: Ctx, v: View, st: map<SlotKey, Word>, rest: seq<Transaction>, log: seq<Transaction>, t: TxId)
    requires CtxOK(c) && c.framed && AtHead(c, v, st, rest, log, t) && IsCommitOp(rest[0])
    ensures OrderOf(c.hist, t).Some? && rest[|rest| - 1].txType.Unlock?
    ensures var tx, all := OrderOf(c.hist, t).value, CommitOps(log, t) + rest[..|rest| - 1];
            (all == Ops(tx, c.s) || all == OtherOps(tx, c.s)) && WriteKeys(LocalRwSet(tx.rwSet, c.s)) <= v.slots
    ensures rest[0].txType.CrossDebit? ==> v.funds == Some(Funds(rest[0].from, rest[0].value))
  {
    CommitHead(c, v, st, rest, log, t);
    assert WritesRead(OrderOf(c.hist, t).value);
  }

  /** A stretch of a transaction's commit operations is executable if its head is. */
  lemma PartOfOps(tx: CrossShardTx, s: int, all: seq<Transaction>, k: nat, ops: seq<Transaction>, v: View)
    requires all == Ops(tx, s) || all == OtherOps(tx, s)
    requires 0 < |ops| <= |all| - k && forall i :: 0 <= i < |ops| ==> ops[i] == all[k + i]
    requires ops[0].txType.CrossDebit? ==> v.funds == Some(Funds(ops[0].from, ops[0].value))
    requires WriteKeys(LocalRwSet(tx.rwSet, s)) <= v.slots
    ensures CommitList(v, ops)
  {
    forall i | 0 <= i < |ops| ensures OpFits(v, ops, i) {
      OpsShape(tx, s, all, k + i);
    }
    assert forall i :: 0 <= i < |ops| ==> OpFits(v, ops, i);
  }

  ghost predicate OpFits(v: View, ops: seq<Transaction>, i: int)
    requires 0 <= i < |ops|
  {
    && IsCommitOp(ops[i])
    && (ops[i].txType.CrossDebit? ==> i == 0)
    && (ops[i].txType.CrossCredit? ==> ops[i].value > 0)
    && (ops[i].txType.Finalize? ==> i == |ops| - 1)
    && (IsWriteOp(ops[i]) ==> WriteKeys(ops[i].rwSet) <= v.slots)
  }

  lemma ReleaseClassReady(x: Exec, txs: seq<Transaction>)
    requires forall e :: e in txs ==> IsRelease(e) && e.txId != EMPTY_ID
    ensures Executable(x, txs)
  {
    forall t ensures ReadyList(ViewOf(x.tables, t), OfTx(txs, t)) {
      var mine := OfTx(txs, t);
      forall i | 0 <= i < |mine| ensures IsRelease(mine[i]) && mine[i].txId != EMPTY_ID {
        OfTxMember(txs, t, mine[i]);
      }
    }
  }

  lemma SameEffectFrom(call: Call, x: Exec, y: Exec, xs: seq<Transaction>, ys: seq<Transaction>)
    requires Same(x, y) && Executable(x, xs) && SameParts(xs, ys)
    ensures Same(Steps(call, x, xs), Steps(call, y, ys))
  {
    SameEffect(call, x, xs, ys);
    StepsSame(call, x, y, ys);
  }

  ghost predicate Releases(txs: seq<Transaction>) {
    forall e :: e in txs ==> IsRelease(e) && e.txId != EMPTY_ID
  }

  lemma NoneOfPriority(txs: seq<Transaction>, p: nat)
    requires forall e :: e in txs ==> e.txType.Priority() != p
    ensures OfPriority(txs, p) == []
  {
    if OfPriority(txs, p) != [] {
      OfPriorityMember(txs, p, OfPriority(txs, p)[0]);
      assert false;
    }
  }

  lemma SameClassParts(xs: seq<Transaction>, ys: seq<Transaction>, p: nat)
    requires SameParts(xs, ys)
    ensures SameParts(OfPriority(xs, p), OfPriority(ys, p))
  {
    forall t ensures OfTx(OfPriority(xs, p), t) == OfTx(OfPriority(ys, p), t) {
      OfTxOfPriority(xs, t, p);
      OfTxOfPriority(ys, t, p);
      assert OfTx(xs, t) == OfTx(ys, t);
    }
  }

  /** The commit class of any queue that satisfies the invariant is executable. */
  lemma CommitClassExecutable(call: Call, init: World, sh: Shard, hist: seq<OrchestratorBlock>)
    requires ShardInv(call, init, sh, hist, true, true)
    ensures Executable(Boundary(sh), OfPriority(sh.queue, 1))
  {
    var x := Boundary(sh);
    forall t ensures ReadyList(ViewOf(x.tables, t), OfTx(OfPriority(sh.queue, 1), t)) {
      var mine := OfTx(sh.queue, t);
      OfTxOfPriority(sh.queue, t, 1);
      forall e { OfTxMember(sh.queue, t, e); }
      if t == EMPTY_ID {
        forall e | e in mine ensures e.txType.Priority() != 1 { QueuedIsOK(sh.queue, e); }
        NoneOfPriority(mine, 1);
      } else {
        PhaseBefore(call, init, sh, hist, true, true, t);
        var c := CtxOf(call, init, sh, hist, true, true);
        CommitClassReady(c, ViewOf(x.tables, t), x.world.storage, mine, FullLog(c, x), t);
      }
    }
  }

  lemma QueuedIsOK(queue: seq<Transaction>, e: Transaction)
    requires QueueOK(ByPriority(queue)) && e in queue
    ensures e.txType.Local? <==> e.txId == EMPTY_ID
  {
    ByPriorityMember(queue, e);
  }

  lemma UnlockClass(queue: seq<Transaction>)
    requires QueueOK(ByPriority(queue))
    ensures Releases(OfPriority(queue, 2))
  {
    forall e | e in OfPriority(queue, 2) ensures IsRelease(e) && e.txId != EMPTY_ID {
      OfPriorityMember(queue, 2, e);
      QueuedIsOK(queue, e);
    }
  }

  // ---------------------------------------------------------------------------
  // Queues that differ in the order of decisions
  // ---------------------------------------------------------------------------

  /** Corresponding stretches of two queues. */
  datatype Chunk = Chunk(left: seq<Transaction>, right: seq<Transaction>)

  function Left(cs: seq<Chunk>): seq<Transaction> {
    if cs == [] then [] else cs[0].left + Left(cs[1..])
  }

  function Right(cs: seq<Chunk>): seq<Transaction> {
    if cs == [] then [] else cs[0].right + Right(cs[1..])
  }

  ghost predicate DecisionEntry(e: Transaction) {
    (IsCommitOp(e) || IsRelease(e)) && e.txId != EMPTY_ID
  }

  /** The same entries, or the decisions of one block in two orders. */
  ghost predicate GoodChunk(c: Chunk) {
    c.left == c.right || (SameParts(c.left, c.right) && forall e :: e in c.left || e in c.right ==> DecisionEntry(e))
  }

  ghost predicate Good(cs: seq<Chunk>) {
    forall i :: 0 <= i < |cs| ==> GoodChunk(cs[i])
  }

  /** The queues consist of the same stretches; only decisions within one stretch may
      be in a different order. */
  ghost predicate Rearranged(q: seq<Transaction>, q': seq<Transaction>) {
    exists cs :: Good(cs) && Left(cs) == q && Right(cs) == q'
  }

  lemma {:induction false} AppendChunk(cs: seq<Chunk>, c: Chunk)
    ensures Left(cs + [c]) == Left(cs) + c.left && Right(cs + [c]) == Right(cs) + c.right
  {
    if cs == [] {
      assert [] + [c] == [c] && [c][1..] == [];
      assert Left([c]) == c.left + [] && Right([c]) == c.right + [];
    } else {
      AppendChunk(cs[1..], c);
      assert (cs + [c])[1..] == cs[1..] + [c] && (cs + [c])[0] == cs[0];
      assert Left(cs + [c]) == cs[0].left + (Left(cs[1..]) + c.left);
      assert Right(cs + [c]) == cs[0].right + (Right(cs[1..]) + c.right);
    }
  }

  lemma AppendRearranged(q: seq<Transaction>, q': seq<Transaction>, c: Chunk)
    requires Rearranged(q, q') && GoodChunk(c)
    ensures Rearranged(q + c.left, q' + c.right)
  {
    var cs :| Good(cs) && Left(cs) == q && Right(cs) == q';
    AppendChunk(cs, c);
    assert Good(cs + [c]);
  }

  lemma EmptyRearranged()
    ensures Rearranged([], [])
  {
    var cs: seq<Chunk> := [];
    assert Good(cs) && Left(cs) == [] && Right(cs) == [];
  }

  lemma GoodTail(cs: seq<Chunk>)
    requires Good(cs) && cs != []
    ensures GoodChunk(cs[0]) && Good(cs[1..])
  {
    assert forall i :: 0 <= i < |cs[1..]| ==> cs[1..][i] == cs[i + 1];
  }

  lemma {:induction false} ChunkParts(cs: seq<Chunk>)
    requires Good(cs)
    ensures SameParts(Left(cs), Right(cs))
  {
    if cs != [] {
      GoodTail(cs);
      ChunkParts(cs[1..]);
      forall t ensures OfTx(Left(cs), t) == OfTx(Right(cs), t) {
        OfTxConcat(cs[0].left, Left(cs[1..]), t);
        OfTxConcat(cs[0].right, Right(cs[1..]), t);
        assert OfTx(cs[0].left, t) == OfTx(cs[0].right, t);
        assert OfTx(Left(cs[1..]), t) == OfTx(Right(cs[1..]), t);
      }
    }
  }

  /** Locks and simulation errors are in the same order. */
  lemma {:induction false} ChunkSameClass(cs: seq<Chunk>, p: nat)
    requires Good(cs) && (p == 3 || p == 5)
    ensures OfPriority(Left(cs), p) == OfPriority(Right(cs), p)
  {
    if cs != [] {
      GoodTail(cs);
      ChunkSameClass(cs[1..], p);
      OfPriorityConcat(cs[0].left, Left(cs[1..]), p);
      OfPriorityConcat(cs[0].right, Right(cs[1..]), p);
      if cs[0].left != cs[0].right {
        NoneOfPriority(cs[0].left, p);
        NoneOfPriority(cs[0].right, p);
      }
    }
  }

  lemma AbortsRelease(txs: seq<Transaction>)
    requires forall e :: e in txs ==> DecisionEntry(e)
    ensures Releases(OfPriority(txs, 4))
  {
    forall e | e in OfPriority(txs, 4) ensures IsRelease(e) && e.txId != EMPTY_ID { OfPriorityMember(txs, 4, e); }
  }

  lemma ChunkEffect(call: Call, x: Exec, y: Exec, c: Chunk)
    requires Same(x, y) && GoodChunk(c)
    ensures Same(Steps(call, x, OfPriority(c.left, 4)), Steps(call, y, OfPriority(c.right, 4)))
  {
    if c.left == c.right {
      StepsSame(call, x, y, OfPriority(c.left, 4));
    } else {
      AbortsRelease(c.left);
      SameClassParts(c.left, c.right, 4);
      ReleaseClassReady(x, OfPriority(c.left, 4));
      SameEffectFrom(call, x, y, OfPriority(c.left, 4), OfPriority(c.right, 4));
    }
  }

  /** Local transactions keep their place; aborts move only within their stretch. */
  lemma {:induction false} LateEffect(call: Call, x: Exec, y: Exec, cs: seq<Chunk>)
    requires Same(x, y) && Good(cs)
    ensures Same(Steps(call, x, OfPriority(Left(cs), 4)), Steps(call, y, OfPriority(Right(cs), 4)))
    decreases cs
  {
    if cs != [] {
      var c, rest := cs[0], cs[1..];
      GoodTail(cs);
      ChunkEffect(call, x, y, c);
      LateEffect(call, Steps(call, x, OfPriority(c.left, 4)), Steps(call, y, OfPriority(c.right, 4)), rest);
      OfPriorityConcat(c.left, Left(rest), 4);
      OfPriorityConcat(c.right, Right(rest), 4);
      StepsConcat(call, x, OfPriority(c.left, 4), OfPriority(Left(rest), 4));
      StepsConcat(call, y, OfPriority(c.right, 4), OfPriority(Right(rest), 4));
    }
  }

  lemma InFive(call: Call, x: Exec, a: seq<Transaction>, b: seq<Transaction>, c: seq<Transaction>,
               d: seq<Transaction>, e: seq<Transaction>)
    ensures Steps(call, x, a + b + c + d + e) ==
        Steps(call, Steps(call, Steps(call, Steps(call, Steps(call, x, a), b), c), d), e)
  {
    StepsConcat(call, x, a + b + c + d, e);
    StepsConcat(call, x, a + b + c, d);
    StepsConcat(call, x, a + b, c);
    StepsConcat(call, x, a, b);
  }

  lemma EarlyEffect(call: Call, x: Exec, q: seq<Transaction>, q': seq<Transaction>)
    requires Executable(x, OfPriority(q, 1)) && Releases(OfPriority(q, 2)) && SameParts(q, q')
    ensures Same(Steps(call, Steps(call, x, OfPriority(q, 1)), OfPriority(q, 2)),
        Steps(call, Steps(call, x, OfPriority(q', 1)), OfPriority(q', 2)))
  {
    SameClassParts(q, q', 1);
    SameClassParts(q, q', 2);
    SameEffectFrom(call, x, x, OfPriority(q, 1), OfPriority(q', 1));
    var x1, y1 := Steps(call, x, OfPriority(q, 1)), Steps(call, x, OfPriority(q', 1));
    ReleaseClassReady(x1, OfPriority(q, 2));
    SameEffectFrom(call, x1, y1, OfPriority(q, 2), OfPriority(q', 2));
  }

  /** The execution of a whole queue. */
  lemma RearrangedEffect(call: Call, x: Exec, q: seq<Transaction>, q': seq<Transaction>)
    requires Rearranged(q, q') && Executable(x, OfPriority(q, 1)) && Releases(OfPriority(q, 2))
    ensures Same(Steps(call, x, ByPriority(q)), Steps(call, x, ByPriority(q')))
  {
    var cs :| Good(cs) && Left(cs) == q && Right(cs) == q';
    ChunkParts(cs);
    ChunkSameClass(cs, 3);
    ChunkSameClass(cs, 5);
    EarlyEffect(call, x, q, q');
    var x2 := Steps(call, Steps(call, x, OfPriority(q, 1)), OfPriority(q, 2));
    var y2 := Steps(call, Steps(call, x, OfPriority(q', 1)), OfPriority(q', 2));
    StepsSame(call, x2, y2, OfPriority(q, 3));
    var x3, y3 := Steps(call, x2, OfPriority(q, 3)), Steps(call, y2, OfPriority(q, 3));
    LateEffect(call, x3, y3, cs);
    StepsSame(call, Steps(call, x3, OfPriority(q, 4)), Steps(call, y3, OfPriority(q', 4)), OfPriority(q, 5));
    InFive(call, x, OfPriority(q, 1), OfPriority(q, 2), OfPriority(q, 3), OfPriority(q, 4), OfPriority(q, 5));
    InFive(call, x, OfPriority(q', 1), OfPriority(q', 2), OfPriority(q', 3), OfPriority(q', 4), OfPriority(q', 5));
  }

  // ---------------------------------------------------------------------------
  // Reservations are respected in either order
  // ---------------------------------------------------------------------------

  lemma {:induction false} RespectSame(call: Call, x: Exec, y: Exec, txs: seq<Transaction>)
    requires Same(x, y) && AllRespect(call, x, txs)
    ensures AllRespect(call, y, txs)
    decreases txs
  {
    if txs != [] {
      StepSame(call, x, y, txs[0]);
      RespectSame(call, Step(call, x, txs[0]), Step(call, y, txs[0]), txs[1..]);
    }
  }

  lemma ClassHasNoLocals(txs: seq<Transaction>, p: nat)
    requires p != 4
    ensures NoLocals(OfPriority(txs, p))
  {
    forall e | e in OfPriority(txs, p) ensures !e.txType.Local? { OfPriorityMember(txs, p, e); }
  }

  lemma DecisionsHaveNoLocals(txs: seq<Transaction>)
    requires forall e :: e in txs ==> DecisionEntry(e)
    ensures NoLocals(OfPriority(txs, 4))
  {
    forall e | e in OfPriority(txs, 4) ensures !e.txType.Local? { OfPriorityMember(txs, 4, e); }
  }

  lemma {:induction false} LateRespect(call: Call, x: Exec, y: Exec, cs: seq<Chunk>)
    requires Same(x, y) && Good(cs) && AllRespect(call, x, OfPriority(Left(cs), 4))
    ensures AllRespect(call, y, OfPriority(Right(cs), 4))
    decreases cs
  {
    if cs != [] {
      var c, rest := cs[0], cs[1..];
      GoodTail(cs);
      OfPriorityConcat(c.left, Left(rest), 4);
      OfPriorityConcat(c.right, Right(rest), 4);
      RespectConcat(call, x, OfPriority(c.left, 4), OfPriority(Left(rest), 4));
      RespectConcat(call, y, OfPriority(c.right, 4), OfPriority(Right(rest), 4));
      ChunkEffect(call, x, y, c);
      LateRespect(call, Steps(call, x, OfPriority(c.left, 4)), Steps(call, y, OfPriority(c.right, 4)), rest);
      if c.left == c.right {
        RespectSame(call, x, y, OfPriority(c.left, 4));
      } else {
        DecisionsHaveNoLocals(c.right);
        NoLocalsRespect(call, y, OfPriority(c.right, 4));
      }
    }
  }

  /** Only the late class can hold local transactions. */
  lemma RespectByClass(call: Call, x: Exec, q: seq<Transaction>)
    ensures var x3 := Steps(call, Steps(call, Steps(call, x, OfPriority(q, 1)), OfPriority(q, 2)), OfPriority(q, 3));
            AllRespect(call, x, ByPriority(q)) <==> AllRespect(call, x3, OfPriority(q, 4))
  {
    var a, b, c, d, e := OfPriority(q, 1), OfPriority(q, 2), OfPriority(q, 3), OfPriority(q, 4), OfPriority(q, 5);
    RespectConcat(call, x, a + b + c + d, e);
    RespectConcat(call, x, a + b + c, d);
    StepsConcat(call, x, a + b, c);
    StepsConcat(call, x, a, b);
    ClassHasNoLocals(q, 1);
    ClassHasNoLocals(q, 2);
    ClassHasNoLocals(q, 3);
    ClassHasNoLocals(q, 5);
    NoLocalsRespect(call, x, a + b + c);
    NoLocalsRespect(call, Steps(call, x, a + b + c + d), e);
  }

  lemma RearrangedRespect(call: Call, x: Exec, q: seq<Transaction>, q': seq<Transaction>)
    requires Rearranged(q, q') && Executable(x, OfPriority(q, 1)) && Releases(OfPriority(q, 2))
    requires AllRespect(call, x, ByPriority(q))
    ensures AllRespect(call, x, ByPriority(q'))
  {
    var cs :| Good(cs) && Left(cs) == q && Right(cs) == q';
    ChunkParts(cs);
    ChunkSameClass(cs, 3);
    EarlyEffect(call, x, q, q');
    var x2 := Steps(call, Steps(call, x, OfPriority(q, 1)), OfPriority(q, 2));
    var y2 := Steps(call, Steps(call, x, OfPriority(q', 1)), OfPriority(q', 2));
    StepsSame(call, x2, y2, OfPriority(q, 3));
    RespectByClass(call, x, q);
    LateRespect(call, Steps(call, x2, OfPriority(q, 3)), Steps(call, y2, OfPriority(q, 3)), cs);
    RespectByClass(call, x, q');
  }

  /** A commit that queues both a CrossWriteSet and a Finalize writes once in effect. */
  lemma WritesOnce(call: Call, x: Exec, t: TxId, rwSet: seq<RwVariable>, k: SlotKey)
    ensures var once := Step(call, x, FinalizeTx(t, rwSet));
            var twice := Step(call, Step(call, x, WriteSetTx(t, rwSet)), FinalizeTx(t, rwSet));
            && Load(twice.world.storage, k) == Load(once.world.storage, k)
            && twice.world.balances == once.world.balances == x.world.balances
            && twice.tables == once.tables.(calls := if t ==
                EMPTY_ID then once.tables.calls else once.tables.calls - {t})
  {
    var y := Step(call, x, WriteSetTx(t, rwSet));
    assert y.world.storage == Store(x.world.storage, WriteEntries(rwSet)) && y.world.balances == x.world.balances;
    StoreTwice(x.world.storage, WriteEntries(rwSet), k);
  }
}
