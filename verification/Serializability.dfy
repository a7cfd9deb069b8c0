/** Serial equivalence: the storage of all shards is what one gets by applying the
    committed write sets one at a time, in any order that respects the order of the
    decisions; and each transaction's read set holds at its turn. */
module Serializability {
  import opened Protocol
  import opened EvmState
  import opened RwItems
  import opened ShardSpec
  import opened History
  import opened ShardInvariant
  import opened ShardSteps
  import opened ShardIntake
  import opened Network
  import opened AtomicCommitment
  import opened Conservation

  // ---------------------------------------------------------------------------
  // Lists of storage writes
  // ---------------------------------------------------------------------------

  function Apply(st: map<SlotKey, Word>, ops: seq<Transaction>): map<SlotKey, Word> {
    if ops == [] then st
    else Store(Apply(st, ops[..|ops| - 1]), WriteEntries(ops[|ops| - 1].rwSet))
  }

  predicate Writes(op: Transaction, k: SlotKey) {
    k in WriteKeys(op.rwSet)
  }

  lemma {:induction false} NoWriter(st: map<SlotKey, Word>, ops: seq<Transaction>, k: SlotKey)
    requires forall i :: 0 <= i < |ops| ==> !Writes(ops[i], k)
    ensures Load(Apply(st, ops), k) == Load(st, k)
  {
    if ops != [] {
      var n := |ops| - 1;
      NoWriter(st, ops[..n], k);
      StoreFrame(Apply(st, ops[..n]), WriteEntries(ops[n].rwSet), k);
    }
  }

  /** The last operation that writes a slot determines its value. */
  lemma {:induction false} LastWriterWins(st: map<SlotKey, Word>, ops: seq<Transaction>, i: nat, k: SlotKey)
    requires i < |ops| && Writes(ops[i], k)
    requires forall j :: i < j < |ops| ==> !Writes(ops[j], k)
    ensures LastWrite(WriteEntries(ops[i].rwSet), k).Some?
    ensures Load(Apply(st, ops), k) == LastWrite(WriteEntries(ops[i].rwSet), k).value
    decreases |ops|
  {
    var n := |ops| - 1;
    LastWriteExists(WriteEntries(ops[i].rwSet), k);
    if i < n {
      LastWriterWins(st, ops[..n], i, k);
      StoreFrame(Apply(st, ops[..n]), WriteEntries(ops[n].rwSet), k);
    } else {
      StoreAt(Apply(st, ops[..n]), WriteEntries(ops[n].rwSet), k);
    }
  }

  /** Position of the last writer of k, or -1. */
  function LastWriter(ops: seq<Transaction>, k: SlotKey): (i: int)
    ensures -1 <= i < |ops|
    ensures i >= 0 ==> Writes(ops[i], k)
    ensures forall j :: i < j < |ops| ==> !Writes(ops[j], k)
  {
    if ops == [] then -1
    else if Writes(ops[|ops| - 1], k) then |ops| - 1
    else LastWriter(ops[..|ops| - 1], k)
  }

  // ---------------------------------------------------------------------------
  // Two serializations of the same decisions
  // ---------------------------------------------------------------------------

  /** The part of t's read/write set that lives on shard s. */
  function RwOf(hist: seq<OrchestratorBlock>, s: int, t: TxId): seq<RwVariable> {
    if OrderOf(hist, t).Some? then LocalRwSet(OrderOf(hist, t).value.rwSet, s) else []
  }

  /** Writes of committed transactions, in the order of their decisions. */
  ghost predicate Serialization(hist: seq<OrchestratorBlock>, s: int, ops: seq<Transaction>) {
    && (forall i :: 0 <= i < |ops| ==> DecisionOf(hist, ops[i].txId) == Some(true)
                                       && ops[i].rwSet == RwOf(hist, s, ops[i].txId))
    && (forall i, j :: 0 <= i < j < |ops| ==> DecidedAt(hist, ops[i].txId) <= DecidedAt(hist, ops[j].txId))
  }

  ghost predicate HasOp(ops: seq<Transaction>, t: TxId) {
    exists i :: 0 <= i < |ops| && ops[i].txId == t
  }

  /** Every transaction that writes k in xs also occurs in ys. */
  ghost predicate CoversWriters(xs: seq<Transaction>, ys: seq<Transaction>, k: SlotKey) {
    forall i :: 0 <= i < |xs| && Writes(xs[i], k) ==> HasOp(ys, xs[i].txId)
  }

  /** Commits of one block write different slots. */
  lemma SameBlockDisjoint(hist: seq<OrchestratorBlock>, s: int, t: TxId, u: TxId, k: SlotKey)
    requires WellFormed(hist) && DisjointCommits(hist, s) && forall t :: OrderOf(hist, t).Some? ==>
        WritesRead(OrderOf(hist, t).value)
    requires DecisionOf(hist, t) == Some(true) && DecisionOf(hist, u) == Some(true)
        && DecidedAt(hist, t) == DecidedAt(hist, u)
    requires k in WriteKeys(RwOf(hist, s, t)) && k in ReadKeys(RwOf(hist, s, u))
    ensures t == u
  {
    assert RwOf(hist, s, t) != [] && RwOf(hist, s, u) != [];
    assert CommitsOn(hist, s, t) && CommitsOn(hist, s, u);
    assert k in LocalReads(hist, s, t) && k in LocalReads(hist, s, u);
  }

  lemma WrittenIsRead(hist: seq<OrchestratorBlock>, s: int, t: TxId, k: SlotKey)
    requires forall t :: OrderOf(hist, t).Some? ==> WritesRead(OrderOf(hist, t).value)
    requires k in WriteKeys(RwOf(hist, s, t))
    ensures k in ReadKeys(RwOf(hist, s, t))
  {
    assert RwOf(hist, s, t) != [];
  }

  /** Two serializations with the same writers of a slot leave the same value there. */
  lemma SameValue(hist: seq<OrchestratorBlock>, s: int, st: map<SlotKey, Word>, xs: seq<Transaction>,
                  ys: seq<Transaction>, k: SlotKey)
    requires WellFormed(hist) && DisjointCommits(hist, s) && forall t :: OrderOf(hist, t).Some? ==>
        WritesRead(OrderOf(hist, t).value)
    requires Serialization(hist, s, xs) && Serialization(hist, s, ys)
    requires CoversWriters(xs, ys, k) && CoversWriters(ys, xs, k)
    ensures Load(Apply(st, xs), k) == Load(Apply(st, ys), k)
  {
    var i, j := LastWriter(xs, k), LastWriter(ys, k);
    WriterCarries(hist, s, xs, ys, k, i, j);
    WriterCarries(hist, s, ys, xs, k, j, i);
    if i >= 0 {
      WrittenIsRead(hist, s, ys[j].txId, k);
      SameBlockDisjoint(hist, s, xs[i].txId, ys[j].txId, k);
      LastWriterWins(st, xs, i, k);
      LastWriterWins(st, ys, j, k);
    } else {
      NoWriter(st, xs, k);
      NoWriter(st, ys, k);
    }
  }

  ghost predicate IsLastWriter(ops: seq<Transaction>, k: SlotKey, i: int) {
    -1 <= i < |ops| && (i >= 0 ==> Writes(ops[i], k)) && forall j :: i < j < |ops| ==> !Writes(ops[j], k)
  }

  /** If xs has a last writer of k then so has ys, decided no earlier. */
  lemma WriterCarries(hist: seq<OrchestratorBlock>, s: int, xs: seq<Transaction>, ys: seq<Transaction>, k: SlotKey,
                      i: int, j: int)
    requires Serialization(hist, s, xs) && Serialization(hist, s, ys) && CoversWriters(xs, ys, k)
    requires IsLastWriter(xs, k, i) && IsLastWriter(ys, k, j)
    ensures i >= 0 ==> j >= 0 && DecidedAt(hist, xs[i].txId) <= DecidedAt(hist, ys[j].txId)
  {
    if i >= 0 {
      assert HasOp(ys, xs[i].txId);
      var j' :| 0 <= j' < |ys| && ys[j'].txId == xs[i].txId;
      assert ys[j'].rwSet == xs[i].rwSet;
      assert j' <= j;
    }
  }

  // ---------------------------------------------------------------------------
  // The serial execution
  // ---------------------------------------------------------------------------

  /** An order of all committed transactions that respects the blocks. */
  ghost predicate SerialOrder(hist: seq<OrchestratorBlock>, order: seq<TxId>) {
    && Distinct(order)
    && (forall t :: t in order <==> DecisionOf(hist, t) == Some(true))
    && (forall i, j :: 0 <= i < j < |order| ==> DecidedAt(hist, order[i]) <= DecidedAt(hist, order[j]))
  }

  /** Apply the write sets one transaction after the other (shard s's share). */
  function Serial(st: map<SlotKey, Word>, hist: seq<OrchestratorBlock>, s: int, order: seq<TxId>): map<SlotKey, Word> {
    if order == [] then st
    else Store(Serial(st, hist, s, order[..|order| - 1]), WriteEntries(RwOf(hist, s, order[|order| - 1])))
  }

  function SerialOps(hist: seq<OrchestratorBlock>, s: int, order: seq<TxId>): (ops: seq<Transaction>)
    ensures |ops| == |order|
    ensures forall i :: 0 <= i < |order| ==> ops[i] == FinalizeTx(order[i], RwOf(hist, s, order[i]))
  {
    seq(|order|, i requires 0 <= i < |order| => FinalizeTx(order[i], RwOf(hist, s, order[i])))
  }

  lemma {:induction false} SerialIsApply(st: map<SlotKey, Word>, hist: seq<OrchestratorBlock>, s: int, order: seq<TxId>)
    ensures Serial(st, hist, s, order) == Apply(st, SerialOps(hist, s, order))
  {
    if order != [] {
      var n := |order| - 1;
      SerialIsApply(st, hist, s, order[..n]);
      assert SerialOps(hist, s, order)[..n] == SerialOps(hist, s, order[..n]);
    }
  }

  lemma SerialOpsSerialize(hist: seq<OrchestratorBlock>, s: int, order: seq<TxId>, p: nat)
    requires SerialOrder(hist, order) && p <= |order|
    ensures Serialization(hist, s, SerialOps(hist, s, order[..p]))
    ensures forall t :: HasOp(SerialOps(hist, s, order[..p]), t) <==> t in order[..p]
  {
    var ops := SerialOps(hist, s, order[..p]);
    forall i | 0 <= i < |ops| ensures DecisionOf(hist, ops[i].txId) == Some(true) {
      assert order[i] in order;
    }
    forall t | t in order[..p] ensures HasOp(ops, t) {
      var i :| 0 <= i < p && order[..p][i] == t;
      assert ops[i].txId == t;
    }
  }

  // ---------------------------------------------------------------------------
  // A shard's log as a serialization
  // ---------------------------------------------------------------------------

  /** Contract calls of local transactions leave storage alone: the commits are its
      only writers. */
  ghost predicate StoragePure(call: Call) {
    forall tx, w :: call(tx, w).Some? ==> call(tx, w).value.storage == w.storage
  }

  lemma ExecuteStorage(call: Call, w: World, e: Transaction)
    requires StoragePure(call) && ExecuteTx(call, w, e).Some?
    ensures ExecuteTx(call, w, e).value.storage ==
        if IsWriteOp(e) then Store(w.storage, WriteEntries(e.rwSet)) else w.storage
  {
    match e.txType {
      case Local =>
      case CrossDebit =>
      case CrossCredit =>
      case _ =>
    }
  }

  lemma {:induction false} ReplayStorage(call: Call, init: World, log: seq<Transaction>)
    requires StoragePure(call) && Replay(call, init, log).Some?
    ensures Replay(call, init, log).value.storage == Apply(init.storage, WriteOps(log))
  {
    if log != [] {
      var n := |log| - 1;
      ReplayStorage(call, init, log[..n]);
      assert log == log[..n] + [log[n]];
      AppendWriteOps(log[..n], log[n]);
      ExecuteStorage(call, Replay(call, init, log[..n]).value, log[n]);
      if IsWriteOp(log[n]) {
        assert WriteOps(log)[..|WriteOps(log)| - 1] == WriteOps(log[..n]);
      } else {
        assert WriteOps(log[..n]) + [] == WriteOps(log[..n]);
      }
    }
  }

  /** Everything the argument needs to know about one shard between blocks. */
  ghost predicate Settled(call: Call, init: World, sh: Shard, hist: seq<OrchestratorBlock>) {
    && (exists safe :: ShardInv(call, init, sh, hist, safe, true))
    && sh.queue == []
    && StoragePure(call)
  }

  lemma SettledFacts(call: Call, init: World, sh: Shard, hist: seq<OrchestratorBlock>)
    requires Settled(call, init, sh, hist)
    ensures var log := LogOf(sh.blocks);
            && WellFormed(hist) && DisjointCommits(hist, sh.id)
            && (forall t :: OrderOf(hist, t).Some? ==> WritesRead(OrderOf(hist, t).value))
            && Replay(call, init, log) == Some(sh.world) && ReadsHeld(call, init, log)
            && InDecisionOrder(hist, WriteOps(log))
  {
    var safe :| ShardInv(call, init, sh, hist, safe, true);
    var c := CtxOf(call, init, sh, hist, safe, true);
    assert FullLog(c, Boundary(sh)) == LogOf(sh.blocks);
    assert WriteOps(LogOf(sh.blocks)) + WriteOps([]) == WriteOps(LogOf(sh.blocks));
  }

  /** Each write in the log carries its transaction's local read/write set. */
  lemma LogWrite(call: Call, init: World, sh: Shard, hist: seq<OrchestratorBlock>, i: nat)
    requires Settled(call, init, sh, hist)
    requires i < |LogOf(sh.blocks)| && IsWriteOp(LogOf(sh.blocks)[i])
    ensures var e := LogOf(sh.blocks)[i];
            DecisionOf(hist, e.txId) == Some(true) && e.rwSet == RwOf(hist, sh.id, e.txId)
  {
    var safe :| ShardInv(call, init, sh, hist, safe, true);
    var c, log := CtxOf(call, init, sh, hist, safe, true), LogOf(sh.blocks);
    var e := log[i];
    assert FullLog(c, Boundary(sh)) == log;
    assert QueueOK(FullLog(c, Boundary(sh)));
    PhaseBefore(call, init, sh, hist, safe, true, e.txId);
    CommitOpsMember(log, e.txId, e);
    OpOf(c, ViewOf(sh.tables, e.txId), sh.world.storage, OfTx(sh.queue, e.txId), log, e);
    var tx := OrderOf(hist, e.txId).value;
    OrderHasId(hist, e.txId);
    var j :| 0 <= j < |Ops(tx, sh.id)| && Ops(tx, sh.id)[j] == e;
    OpsShape(tx, sh.id, Ops(tx, sh.id), j);
  }

  /** Every committed transaction with slots here has written. */
  lemma CommitWrote(call: Call, init: World, sh: Shard, hist: seq<OrchestratorBlock>, t: TxId)
    requires Settled(call, init, sh, hist)
    requires DecisionOf(hist, t) == Some(true) && RwOf(hist, sh.id, t) != []
    ensures WroteIn(LogOf(sh.blocks), t)
  {
    var safe :| ShardInv(call, init, sh, hist, safe, true);
    var c, log := CtxOf(call, init, sh, hist, safe, true), LogOf(sh.blocks);
    assert FullLog(c, Boundary(sh)) == log;
    NoEmptyId(hist);
    OrderHasId(hist, t);
    PhaseBefore(call, init, sh, hist, safe, true, t);
    assert ByPriority(OfTx([], t)) == [];
    var tx, done := OrderOf(hist, t).value, CommitOps(log, t);
    LastOpWrites(tx, sh.id, done);
    var w := WriteOps(done)[0];
    WriteOpsMember(done, w);
    CommitOpsMember(log, t, w);
  }

  lemma {:induction false} WriteOpsFrom(log: seq<Transaction>, j: nat) returns (i: nat)
    requires j < |WriteOps(log)|
    ensures i < |log| && log[i] == WriteOps(log)[j] && IsWriteOp(log[i])
  {
    WriteOpsMember(log, WriteOps(log)[j]);
    i :| 0 <= i < |log| && log[i] == WriteOps(log)[j];
  }

  lemma LogSerializes(call: Call, init: World, sh: Shard, hist: seq<OrchestratorBlock>)
    requires Settled(call, init, sh, hist)
    ensures Serialization(hist, sh.id, WriteOps(LogOf(sh.blocks)))
  {
    var ops := WriteOps(LogOf(sh.blocks));
    SettledFacts(call, init, sh, hist);
    forall j | 0 <= j < |ops| ensures DecisionOf(hist, ops[j].txId) == Some(true)
        && ops[j].rwSet == RwOf(hist, sh.id, ops[j].txId) {
      var i := WriteOpsFrom(LogOf(sh.blocks), j);
      LogWrite(call, init, sh, hist, i);
    }
  }

  /** A drained shard's storage is the serial one, slot by slot. */
  lemma ShardIsSerial(call: Call, init: World, sh: Shard, hist: seq<OrchestratorBlock>, order: seq<TxId>, k: SlotKey)
    requires Settled(call, init, sh, hist) && SerialOrder(hist, order)
    ensures Load(sh.world.storage, k) == Load(Serial(init.storage, hist, sh.id, order), k)
  {
    var log := LogOf(sh.blocks);
    var xs, ys := WriteOps(log), SerialOps(hist, sh.id, order);
    SettledFacts(call, init, sh, hist);
    ReplayStorage(call, init, log);
    LogSerializes(call, init, sh, hist);
    assert order[..|order|] == order;
    SerialOpsSerialize(hist, sh.id, order, |order|);
    SerialIsApply(init.storage, hist, sh.id, order);
    forall j | 0 <= j < |ys| && Writes(ys[j], k) ensures HasOp(xs, ys[j].txId) {
      var t := ys[j].txId;
      assert RwOf(hist, sh.id, t) != [];
      CommitWrote(call, init, sh, hist, t);
      WroteHasOp(log, t);
    }
    SameValue(hist, sh.id, init.storage, xs, ys, k);
  }

  // ---------------------------------------------------------------------------
  // Reads at a transaction's turn
  // ---------------------------------------------------------------------------

  ghost predicate WroteIn(log: seq<Transaction>, t: TxId) {
    exists i :: 0 <= i < |log| && log[i].txId == t && IsWriteOp(log[i])
  }

  /** The first write of t in the log. */
  lemma {:induction false} FirstWriteOf(log: seq<Transaction>, t: TxId) returns (i: nat)
    requires WroteIn(log, t)
    ensures i < |log| && log[i].txId == t && FirstWrite(log, i)
    decreases |log|
  {
    var n := |log| - 1;
    if WroteIn(log[..n], t) {
      i := FirstWriteOf(log[..n], t);
    } else {
      forall j | 0 <= j < n && log[j].txId == t ensures !IsWriteOp(log[j]) {
        assert log[..n][j] == log[j];
      }
      i :| 0 <= i < |log| && log[i].txId == t && IsWriteOp(log[i]);
    }
  }

  lemma SplitWriteOps(log: seq<Transaction>, i: nat)
    requires i < |log| && IsWriteOp(log[i])
    ensures WriteOps(log) == WriteOps(log[..i]) + [log[i]] + WriteOps(log[i + 1..])
  {
    assert log == log[..i] + [log[i]] + log[i + 1..];
    WriteOpsConcat(log[..i] + [log[i]], log[i + 1..]);
    AppendWriteOps(log[..i], log[i]);
  }

  lemma PrefixSerializes(hist: seq<OrchestratorBlock>, s: int, ops: seq<Transaction>, pre: seq<Transaction>,
                         post: seq<Transaction>)
    requires Serialization(hist, s, ops) && ops == pre + post
    ensures Serialization(hist, s, pre)
  {
    assert forall i :: 0 <= i < |pre| ==> pre[i] == ops[i];
  }

  /** Before t's first write on the shard, a slot t reads was written by exactly the
      transactions that precede t serially and write it. */
  lemma LogBeforeSerial(hist: seq<OrchestratorBlock>, s: int, order: seq<TxId>, p: nat, pre: seq<Transaction>,
                        e: Transaction,
                        post: seq<Transaction>, k: SlotKey)
    requires WellFormed(hist) && DisjointCommits(hist, s) && forall t :: OrderOf(hist, t).Some? ==>
        WritesRead(OrderOf(hist, t).value)
    requires SerialOrder(hist, order) && p < |order| && e.txId == order[p]
    requires Serialization(hist, s, pre + [e] + post)
    requires forall i :: 0 <= i < |pre| ==> pre[i].txId != e.txId
    requires k in ReadKeys(RwOf(hist, s, e.txId))
    ensures CoversWriters(pre, SerialOps(hist, s, order[..p]), k)
  {
    var all, t := pre + [e] + post, e.txId;
    SerialOpsSerialize(hist, s, order, p);
    forall i | 0 <= i < |pre| && Writes(pre[i], k) ensures HasOp(SerialOps(hist, s, order[..p]), pre[i].txId) {
      var u := pre[i].txId;
      assert all[i] == pre[i] && all[|pre|] == e;
      assert DecidedAt(hist, u) <= DecidedAt(hist, t);
      if DecidedAt(hist, u) == DecidedAt(hist, t) { SameBlockDisjoint(hist, s, u, t, k); }
      assert u in order;
      var q :| 0 <= q < |order| && order[q] == u;
      assert q < p;
      assert order[..p][q] == u;
    }
  }

  lemma SerialBeforeLog(hist: seq<OrchestratorBlock>, s: int, order: seq<TxId>, p: nat, pre: seq<Transaction>,
                        e: Transaction,
                        post: seq<Transaction>, k: SlotKey)
    requires WellFormed(hist) && DisjointCommits(hist, s) && forall t :: OrderOf(hist, t).Some? ==>
        WritesRead(OrderOf(hist, t).value)
    requires SerialOrder(hist, order) && p < |order| && e.txId == order[p]
    requires Serialization(hist, s, pre + [e] + post)
    requires forall q :: 0 <= q < p && RwOf(hist, s, order[q]) != [] ==> HasOp(pre + [e] + post, order[q])
    requires k in ReadKeys(RwOf(hist, s, e.txId))
    ensures CoversWriters(SerialOps(hist, s, order[..p]), pre, k)
  {
    var all, t, ops := pre + [e] + post, e.txId, SerialOps(hist, s, order[..p]);
    forall q | 0 <= q < |ops| && Writes(ops[q], k) ensures HasOp(pre, ops[q].txId) {
      var u := order[q];
      assert ops[q] == FinalizeTx(order[..p][q], RwOf(hist, s, order[..p][q]));
      assert RwOf(hist, s, u) != [];
      assert u != t && u in order && t in order;
      assert DecidedAt(hist, u) <= DecidedAt(hist, t);
      if DecidedAt(hist, u) == DecidedAt(hist, t) { SameBlockDisjoint(hist, s, u, t, k); }
      var i :| 0 <= i < |all| && all[i].txId == u;
      assert all[|pre|] == e;
      assert i < |pre|;
      assert pre[i].txId == u;
    }
  }

  /** At its turn in the serial order, a transaction's whole local read set holds. */
  lemma ReadsHoldSerially(call: Call, init: World, sh: Shard, hist: seq<OrchestratorBlock>, order: seq<TxId>, p: nat)
    requires Settled(call, init, sh, hist) && SerialOrder(hist, order) && p < |order|
    ensures ReadsMatch(Serial(init.storage, hist, sh.id, order[..p]), RwOf(hist, sh.id, order[p]))
  {
    var t, s, log := order[p], sh.id, LogOf(sh.blocks);
    var rw := RwOf(hist, s, t);
    if rw != [] {
      assert t in order;
      SettledFacts(call, init, sh, hist);
      CommitWrote(call, init, sh, hist, t);
      var i := FirstWriteOf(log, t);
      LogWrite(call, init, sh, hist, i);
      assert CurrentAfter(call, init, log[..i], log[i].rwSet);
      ReplayStorage(call, init, log[..i]);
      var st := Apply(init.storage, WriteOps(log[..i]));
      assert ReadsMatch(st, rw);
      forall k | k in ReadKeys(rw) ensures Load(Serial(init.storage, hist, s, order[..p]), k) == Load(st, k) {
        SameBeforeTurn(call, init, sh, hist, order, p, i, k);
      }
      ReadsMatchFrame(st, Serial(init.storage, hist, s, order[..p]), rw);
    }
  }

  lemma WroteHasOp(log: seq<Transaction>, t: TxId)
    requires WroteIn(log, t)
    ensures HasOp(WriteOps(log), t)
  {
    var m :| 0 <= m < |log| && log[m].txId == t && IsWriteOp(log[m]);
    WriteOpsMember(log, log[m]);
    var n :| 0 <= n < |WriteOps(log)| && WriteOps(log)[n] == log[m];
  }

  lemma NoEarlierWrite(log: seq<Transaction>, i: nat)
    requires i < |log| && FirstWrite(log, i)
    ensures forall j :: 0 <= j < |WriteOps(log[..i])| ==> WriteOps(log[..i])[j].txId != log[i].txId
  {
    forall j | 0 <= j < |WriteOps(log[..i])| ensures WriteOps(log[..i])[j].txId != log[i].txId {
      var m := WriteOpsFrom(log[..i], j);
      assert log[m] == log[..i][m];
    }
  }

  lemma EarlierWrote(call: Call, init: World, sh: Shard, hist: seq<OrchestratorBlock>, order: seq<TxId>, p: nat)
    requires Settled(call, init, sh, hist) && SerialOrder(hist, order) && p <= |order|
    ensures forall q :: 0 <= q < p && RwOf(hist, sh.id, order[q]) != [] ==> HasOp(WriteOps(LogOf(sh.blocks)), order[q])
  {
    forall q | 0 <= q < p && RwOf(hist, sh.id, order[q]) != [] ensures HasOp(WriteOps(LogOf(sh.blocks)), order[q]) {
      assert order[q] in order;
      CommitWrote(call, init, sh, hist, order[q]);
      WroteHasOp(LogOf(sh.blocks), order[q]);
    }
  }

  lemma SameBeforeTurn(call: Call, init: World, sh: Shard, hist: seq<OrchestratorBlock>, order: seq<TxId>, p: nat,
                       i: nat, k: SlotKey)
    requires Settled(call, init, sh, hist) && SerialOrder(hist, order) && p < |order|
    requires i < |LogOf(sh.blocks)| && FirstWrite(LogOf(sh.blocks), i) && LogOf(sh.blocks)[i].txId == order[p]
    requires k in ReadKeys(RwOf(hist, sh.id, order[p]))
    ensures Load(Serial(init.storage, hist, sh.id, order[..p]), k) ==
        Load(Apply(init.storage, WriteOps(LogOf(sh.blocks)[..i])), k)
  {
    var s, log := sh.id, LogOf(sh.blocks);
    var pre, e, post := WriteOps(log[..i]), log[i], WriteOps(log[i + 1..]);
    SettledFacts(call, init, sh, hist);
    LogSerializes(call, init, sh, hist);
    SplitWriteOps(log, i);
    assert WriteOps(log) == pre + [e] + post;
    NoEarlierWrite(log, i);
    EarlierWrote(call, init, sh, hist, order, p);
    BeforeTurn(hist, s, init.storage, order, p, pre, e, post, k);
  }

  /** The writes before e in the log and the serial writes before e's turn agree on what e reads. */
  lemma BeforeTurn(hist: seq<OrchestratorBlock>, s: int, st: map<SlotKey, Word>, order: seq<TxId>, p: nat,
                   pre: seq<Transaction>, e: Transaction, post: seq<Transaction>, k: SlotKey)
    requires WellFormed(hist) && DisjointCommits(hist, s) && forall t :: OrderOf(hist, t).Some? ==>
        WritesRead(OrderOf(hist, t).value)
    requires SerialOrder(hist, order) && p < |order| && e.txId == order[p]
    requires Serialization(hist, s, pre + [e] + post)
    requires forall i :: 0 <= i < |pre| ==> pre[i].txId != e.txId
    requires forall q :: 0 <= q < p && RwOf(hist, s, order[q]) != [] ==> HasOp(pre + [e] + post, order[q])
    requires k in ReadKeys(RwOf(hist, s, e.txId))
    ensures Load(Serial(st, hist, s, order[..p]), k) == Load(Apply(st, pre), k)
  {
    assert pre + [e] + post == pre + ([e] + post);
    PrefixSerializes(hist, s, pre + [e] + post, pre, [e] + post);
    LogBeforeSerial(hist, s, order, p, pre, e, post, k);
    SerialBeforeLog(hist, s, order, p, pre, e, post, k);
    SerialOpsSerialize(hist, s, order, p);
    SerialIsApply(st, hist, s, order[..p]);
    SameValue(hist, s, st, pre, SerialOps(hist, s, order[..p]), k);
  }

  // ---------------------------------------------------------------------------
  // All shards together
  // ---------------------------------------------------------------------------

  lemma NodeSettled(calls: Calls, inits: seq<World>, g: System, safe: bool, s: nat)
    requires SystemInv(calls, inits, g, safe, true) && s < NUM_SHARDS && StoragePure(calls(s))
    requires g.nodes[s].shard.queue == []
    ensures g.nodes[s].shard.lastHeight < |g.orch.blocks| && g.nodes[s].shard.id == s
    ensures Settled(calls(s), inits[s], g.nodes[s].shard, Seen(g, s))
  {
    assert NodeInv(calls, inits, g, safe, true, s);
  }

  /** Serial equivalence. Take any run in which the cross-shard commits are the only
      storage writers, and any order of the committed transactions that respects the
      order of the decision blocks. Once all shards have caught up, the storage of every
      shard is that of the serial execution in that order; and at each transaction's
      turn its read set, on every shard, holds in the serial state. */
  lemma SerialEquivalence(calls: Calls, inits: seq<World>, g0: System, steps: seq<Event>, safe: bool, order: seq<TxId>)
    requires Reaches(calls, inits, g0, steps, safe, true) && forall s :: StoragePure(calls(s))
    requires Drained(Run(calls, g0, steps)) && SerialOrder(Run(calls, g0, steps).orch.blocks, order)
    ensures var g := Run(calls, g0, steps);
            && |g.nodes| == |inits|
            && (forall s: nat, k :: s < |inits| ==>
                  Load(g.nodes[s].shard.world.storage, k) == Load(Serial(inits[s].storage, g.orch.blocks, s, order), k))
            && (forall s: nat, p: nat :: s < |inits| && p < |order| ==>
                  ReadsMatch(Serial(inits[s].storage, g.orch.blocks, s, order[..p]), RwOf(g.orch.blocks, s, order[p])))
  {
    ReachableInv(calls, inits, g0, steps, safe, true);
    var g := Run(calls, g0, steps);
    forall s: nat | s < |inits|
      ensures forall k :: Load(g.nodes[s].shard.world.storage, k) ==
                          Load(Serial(inits[s].storage, g.orch.blocks, s, order), k)
      ensures forall p: nat :: p < |order| ==>
                ReadsMatch(Serial(inits[s].storage, g.orch.blocks, s, order[..p]), RwOf(g.orch.blocks, s, order[p]))
    {
      NodeSettled(calls, inits, g, safe, s);
      assert Seen(g, s) == g.orch.blocks;
      forall k { ShardIsSerial(calls(s), inits[s], g.nodes[s].shard, g.orch.blocks, order, k); }
      forall p: nat | p < |order| { ReadsHoldSerially(calls(s), inits[s], g.nodes[s].shard, g.orch.blocks, order, p); }
    }
  }

  /** The same for a single shard at any time its queue is empty, with respect to the
      decisions it has taken in so far. */
  lemma ShardSerialEquivalence(calls: Calls, inits: seq<World>, g0: System, steps: seq<Event>, safe: bool, s: nat,
                               order: seq<TxId>)
    requires Reaches(calls, inits, g0, steps, safe, true) && s < NUM_SHARDS && StoragePure(calls(s))
    requires var g := Run(calls, g0, steps);
             && s < |g.nodes| && g.nodes[s].shard.queue == [] && g.nodes[s].shard.lastHeight < |g.orch.blocks|
             && SerialOrder(Seen(g, s), order)
    ensures var g := Run(calls, g0, steps);
            && s < |inits|
            && (forall k :: Load(g.nodes[s].shard.world.storage, k) ==
                            Load(Serial(inits[s].storage, Seen(g, s), s, order), k))
            && (forall p: nat :: p < |order| ==>
                  ReadsMatch(Serial(inits[s].storage, Seen(g, s), s, order[..p]), RwOf(Seen(g, s), s, order[p])))
  {
    ReachableInv(calls, inits, g0, steps, safe, true);
    var g := Run(calls, g0, steps);
    NodeSettled(calls, inits, g, safe, s);
    var sh, seen := g.nodes[s].shard, Seen(g, s);
    forall k ensures Load(sh.world.storage, k) == Load(Serial(inits[s].storage, seen, s, order), k) {
      ShardIsSerial(calls(s), inits[s], sh, seen, order, k);
    }
    forall p: nat | p < |order| ensures ReadsMatch(Serial(inits[s].storage, seen, s, order[..p]),
        RwOf(seen, s, order[p])) {
      ReadsHoldSerially(calls(s), inits[s], sh, seen, order, p);
    }
  }

  // ---------------------------------------------------------------------------
  // The same, item by item
  // ---------------------------------------------------------------------------

  /** Transaction t has an item that writes slot k of shard s. */
  ghost predicate WritesSlot(hist: seq<OrchestratorBlock>, s: int, t: TxId, k: SlotKey) {
    OrderOf(hist, t).Some? && WritesOn(OrderOf(hist, t).value.rwSet, s, k)
  }

  /** The last write of slot k on shard s is item j of variable i of the transaction at
      position p of the order. */
  ghost predicate LastOnSlot(hist: seq<OrchestratorBlock>, s: int, order: seq<TxId>, k: SlotKey, p: nat, i: nat, j: nat)
  {
    && p < |order| && OrderOf(hist, order[p]).Some? && LastItem(OrderOf(hist, order[p]).value.rwSet, s, i, j, k)
    && forall q :: p < q < |order| ==> !WritesSlot(hist, s, order[q], k)
  }

  /** v is what the transactions, in this order, leave in slot k of shard s: the new value
      of the last item that writes it, or the initial value if there is none. */
  ghost predicate Leaves(init: map<SlotKey, Word>, hist: seq<OrchestratorBlock>, s: int, order: seq<TxId>, k: SlotKey,
                         v: Word) {
    && (forall p: nat, i: nat, j: nat :: LastOnSlot(hist, s, order, k, p, i, j) ==>
          v == OrderOf(hist, order[p]).value.rwSet[i].writeSet[j].newValue)
    && ((forall q :: 0 <= q < |order| ==> !WritesSlot(hist, s, order[q], k)) ==> v == Load(init, k))
  }

  lemma WritesItems(hist: seq<OrchestratorBlock>, s: int, order: seq<TxId>, q: nat, k: SlotKey)
    requires q < |order|
    ensures Writes(SerialOps(hist, s, order)[q], k) <==> WritesSlot(hist, s, order[q], k)
  {
    if OrderOf(hist, order[q]).Some? {
      WriteKeysAreItems(OrderOf(hist, order[q]).value.rwSet, s, k);
    }
  }

  lemma SerialLeaves(st: map<SlotKey, Word>, hist: seq<OrchestratorBlock>, s: int, order: seq<TxId>, k: SlotKey)
    ensures Leaves(st, hist, s, order, k, Load(Serial(st, hist, s, order), k))
  {
    var ops := SerialOps(hist, s, order);
    SerialIsApply(st, hist, s, order);
    forall q: nat | q < |order| ensures Writes(ops[q], k) <==> WritesSlot(hist, s, order[q], k) {
      WritesItems(hist, s, order, q, k);
    }
    if forall q :: 0 <= q < |order| ==> !WritesSlot(hist, s, order[q], k) {
      NoWriter(st, ops, k);
    }
    forall p: nat, i: nat, j: nat | LastOnSlot(hist, s, order, k, p, i, j)
      ensures Load(Serial(st, hist, s, order), k) == OrderOf(hist, order[p]).value.rwSet[i].writeSet[j].newValue
    {
      LastItemWins(OrderOf(hist, order[p]).value.rwSet, s, i, j, k);
      LastWriteExists(WriteEntries(ops[p].rwSet), k);
      LastWriterWins(st, ops, p, k);
    }
  }

  /** Serial equivalence on the transactions' own lists. Once all shards have caught up, a
      slot holds the new value of the last write item on it, counting the items of every
      committed transaction for that shard, or its initial value if there is none. The value
      of every read item of a committed transaction is likewise what the committed
      transactions before it leave in that slot. */
  lemma CommittedItems(calls: Calls, inits: seq<World>, g0: System, steps: seq<Event>, safe: bool, order: seq<TxId>,
                       s: nat, k: SlotKey)
    requires Reaches(calls, inits, g0, steps, safe, true) && (forall s :: StoragePure(calls(s))) && s < |inits|
    requires Drained(Run(calls, g0, steps)) && SerialOrder(Run(calls, g0, steps).orch.blocks, order)
    ensures var g := Run(calls, g0, steps);
            && s < |g.nodes|
            && Leaves(inits[s].storage, g.orch.blocks, s, order, k, Load(g.nodes[s].shard.world.storage, k))
            && (forall p: nat, i: nat, j: nat :: ReadsAtTurn(g.orch.blocks, s, order, k, p, i, j) ==>
                  Leaves(inits[s].storage, g.orch.blocks, s, order[..p], k,
                         OrderOf(g.orch.blocks, order[p]).value.rwSet[i].readSet[j].value))
  {
    SerialEquivalence(calls, inits, g0, steps, safe, order);
    var g := Run(calls, g0, steps);
    var hist, st := g.orch.blocks, inits[s].storage;
    SerialLeaves(st, hist, s, order, k);
    forall p: nat, i: nat, j: nat | ReadsAtTurn(hist, s, order, k, p, i, j)
      ensures Leaves(st, hist, s, order[..p], k, OrderOf(hist, order[p]).value.rwSet[i].readSet[j].value)
    {
      SerialLeaves(st, hist, s, order[..p], k);
      ItemRead(Serial(st, hist, s, order[..p]), OrderOf(hist, order[p]).value.rwSet, s, i, j, k);
    }
  }

  /** Item j of variable i of the transaction at position p reads slot k of shard s. */
  ghost predicate ReadsAtTurn(hist: seq<OrchestratorBlock>, s: int, order: seq<TxId>, k: SlotKey, p: nat, i: nat,
                              j: nat) {
    p < |order| && OrderOf(hist, order[p]).Some? && ReadItem(OrderOf(hist, order[p]).value.rwSet, s, i, j, k)
  }

  lemma ItemRead(st: map<SlotKey, Word>, rwSet: seq<RwVariable>, s: int, i: nat, j: nat, k: SlotKey)
    requires ReadsMatch(st, LocalRwSet(rwSet, s)) && ReadItem(rwSet, s, i, j, k)
    ensures Load(st, k) == rwSet[i].readSet[j].value
  {
    ReadsAreItems(rwSet, s, Entry(k, rwSet[i].readSet[j].value));
  }
}
