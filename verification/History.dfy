/** What can be read off the two kinds of chain: when the orchestrator ordered and
    decided a transaction, and what a shard has executed and voted. */
module History {
  import opened Protocol
  import opened ShardSpec

  // ---------------------------------------------------------------------------
  // Orchestrator blocks
  // ---------------------------------------------------------------------------

  function OrderIn(txs: seq<CrossShardTx>, t: TxId): Option<CrossShardTx> {
    if txs == [] then None else if txs[0].id == t then Some(txs[0]) else OrderIn(txs[1..], t)
  }

  function OrderOf(hist: seq<OrchestratorBlock>, t: TxId): Option<CrossShardTx> {
    if hist == [] then None
    else
      var n := |hist| - 1;
      var here := OrderIn(hist[n].ctToOrder, t);
      if here.Some? then here else OrderOf(hist[..n], t)
  }

  function DecisionOf(hist: seq<OrchestratorBlock>, t: TxId): Option<bool> {
    if hist == [] then None
    else
      var n := |hist| - 1;
      if t in hist[n].tpcResult then Some(hist[n].tpcResult[t]) else DecisionOf(hist[..n], t)
  }

  /** The position of the block that decided t. */
  function DecidedAt(hist: seq<OrchestratorBlock>, t: TxId): nat {
    if hist == [] then 0
    else
      var n := |hist| - 1;
      if t in hist[n].tpcResult then n else DecidedAt(hist[..n], t)
  }

  /** The position of the block that ordered t. */
  function OrderedAt(hist: seq<OrchestratorBlock>, t: TxId): nat {
    if hist == [] then 0
    else
      var n := |hist| - 1;
      if OrderIn(hist[n].ctToOrder, t).Some? then n else OrderedAt(hist[..n], t)
  }

  /** Block b may follow hist: it orders new ids, each once, and decides ids that
      were ordered before and are still undecided. */
  ghost predicate Follows(hist: seq<OrchestratorBlock>, b: OrchestratorBlock) {
    && b.height == |hist|
    && (forall i :: 0 <= i < |b.ctToOrder| ==>
          b.ctToOrder[i].id != EMPTY_ID && OrderOf(hist, b.ctToOrder[i].id).None?)
    && (forall i, j :: 0 <= i < j < |b.ctToOrder| ==> b.ctToOrder[i].id != b.ctToOrder[j].id)
    && (forall t :: t in b.tpcResult ==> OrderOf(hist, t).Some? && DecisionOf(hist, t).None?)
  }

  ghost predicate WellFormed(hist: seq<OrchestratorBlock>)
    decreases |hist|
  {
    hist != [] ==> WellFormed(hist[..|hist| - 1]) && Follows(hist[..|hist| - 1], hist[|hist| - 1])
  }

  lemma {:induction false} OrderInFound(txs: seq<CrossShardTx>, t: TxId)
    ensures match OrderIn(txs, t)
            case Some(tx) => tx in txs && tx.id == t
            case None => forall i :: 0 <= i < |txs| ==> txs[i].id != t
  {
    if txs != [] && txs[0].id != t {
      OrderInFound(txs[1..], t);
    }
  }

  lemma {:induction false} OrderInAt(txs: seq<CrossShardTx>, i: nat)
    requires i < |txs|
    requires forall i, j :: 0 <= i < j < |txs| ==> txs[i].id != txs[j].id
    ensures OrderIn(txs, txs[i].id) == Some(txs[i])
  {
    if i > 0 {
      OrderInAt(txs[1..], i - 1);
    }
  }

  lemma {:induction false} OrderHasId(hist: seq<OrchestratorBlock>, t: TxId)
    ensures OrderOf(hist, t).Some? ==> OrderOf(hist, t).value.id == t
  {
    if hist != [] {
      OrderInFound(hist[|hist| - 1].ctToOrder, t);
      OrderHasId(hist[..|hist| - 1], t);
    }
  }

  /** The empty id is never ordered. */
  lemma {:induction false} NoEmptyId(hist: seq<OrchestratorBlock>)
    requires WellFormed(hist)
    ensures OrderOf(hist, EMPTY_ID).None? && DecisionOf(hist, EMPTY_ID).None?
  {
    if hist != [] {
      OrderInFound(hist[|hist| - 1].ctToOrder, EMPTY_ID);
      NoEmptyId(hist[..|hist| - 1]);
    }
  }

  /** Only ordered transactions are decided. */
  lemma {:induction false} DecidedWasOrdered(hist: seq<OrchestratorBlock>, t: TxId)
    requires WellFormed(hist) && DecisionOf(hist, t).Some?
    ensures OrderOf(hist, t).Some?
  {
    if t !in hist[|hist| - 1].tpcResult {
      DecidedWasOrdered(hist[..|hist| - 1], t);
    }
  }

  /** Orders and decisions are final: appending blocks never changes them. */
  lemma {:induction false} Final(hist: seq<OrchestratorBlock>, n: nat, t: TxId)
    requires WellFormed(hist) && n <= |hist|
    ensures WellFormed(hist[..n])
    ensures OrderOf(hist[..n], t).Some? ==>
              OrderOf(hist, t) == OrderOf(hist[..n], t) && OrderedAt(hist, t) == OrderedAt(hist[..n], t)
    ensures DecisionOf(hist[..n], t).Some? ==>
              DecisionOf(hist, t) == DecisionOf(hist[..n], t) && DecidedAt(hist, t) == DecidedAt(hist[..n], t)
    decreases |hist|
  {
    if n == |hist| {
      assert hist[..n] == hist;
    } else {
      var m := |hist| - 1;
      assert hist[..m][..n] == hist[..n];
      Final(hist[..m], n, t);
      OrderInFound(hist[m].ctToOrder, t);
    }
  }

  /** A decision sits at the position DecidedAt names, and nowhere else. */
  lemma {:induction false} DecidedOnce(hist: seq<OrchestratorBlock>, i: nat, t: TxId)
    requires WellFormed(hist) && i < |hist|
    ensures t in hist[i].tpcResult <==> DecisionOf(hist, t).Some? && DecidedAt(hist, t) == i
    ensures t in hist[i].tpcResult ==> DecisionOf(hist, t) == Some(hist[i].tpcResult[t])
    decreases |hist|
  {
    var m := |hist| - 1;
    if i < m {
      DecidedOnce(hist[..m], i, t);
    } else if t !in hist[m].tpcResult && DecisionOf(hist, t).Some? {
      DecidedAtInRange(hist[..m], t);
    }
  }

  lemma {:induction false} DecidedAtInRange(hist: seq<OrchestratorBlock>, t: TxId)
    requires DecisionOf(hist, t).Some?
    ensures DecidedAt(hist, t) < |hist|
  {
    if t !in hist[|hist| - 1].tpcResult {
      DecidedAtInRange(hist[..|hist| - 1], t);
    }
  }

  // ---------------------------------------------------------------------------
  // Shard blocks
  // ---------------------------------------------------------------------------

  /** Everything a shard has executed, in order. */
  function LogOf(blocks: seq<ShardBlock>): seq<Transaction> {
    if blocks == [] then [] else LogOf(blocks[..|blocks| - 1]) + blocks[|blocks| - 1].txOrdering
  }

  /** A shard's vote on t, if it has cast one. */
  function VoteOf(blocks: seq<ShardBlock>, t: TxId): Option<bool> {
    if blocks == [] then None
    else
      var n := |blocks| - 1;
      if t in blocks[n].tpcPrepare then Some(blocks[n].tpcPrepare[t]) else VoteOf(blocks[..n], t)
  }

  // ---------------------------------------------------------------------------
  // Parts of a transaction list
  // ---------------------------------------------------------------------------

  predicate IsWriteOp(e: Transaction) {
    e.txType.CrossWriteSet? || e.txType.Finalize?
  }

  /** The four types that carry out a commit. */
  predicate IsCommitOp(e: Transaction) {
    e.txType.CrossDebit? || e.txType.CrossCredit? || IsWriteOp(e)
  }

  function OfTx(txs: seq<Transaction>, t: TxId): seq<Transaction> {
    if txs == [] then []
    else if txs[0].txId == t then [txs[0]] + OfTx(txs[1..], t)
    else OfTx(txs[1..], t)
  }

  function CommitOps(txs: seq<Transaction>, t: TxId): seq<Transaction> {
    if txs == [] then []
    else if txs[0].txId == t && IsCommitOp(txs[0]) then [txs[0]] + CommitOps(txs[1..], t)
    else CommitOps(txs[1..], t)
  }

  function WriteOps(txs: seq<Transaction>): seq<Transaction> {
    if txs == [] then []
    else if IsWriteOp(txs[0]) then [txs[0]] + WriteOps(txs[1..])
    else WriteOps(txs[1..])
  }

  lemma {:induction false} OfTxConcat(xs: seq<Transaction>, ys: seq<Transaction>, t: TxId)
    ensures OfTx(xs + ys, t) == OfTx(xs, t) + OfTx(ys, t)
  {
    if xs == [] {
      assert xs + ys == ys;
    } else {
      assert (xs + ys)[1..] == xs[1..] + ys;
      OfTxConcat(xs[1..], ys, t);
    }
  }

  lemma {:induction false} CommitOpsConcat(xs: seq<Transaction>, ys: seq<Transaction>, t: TxId)
    ensures CommitOps(xs + ys, t) == CommitOps(xs, t) + CommitOps(ys, t)
  {
    if xs == [] {
      assert xs + ys == ys;
    } else {
      assert (xs + ys)[1..] == xs[1..] + ys;
      CommitOpsConcat(xs[1..], ys, t);
    }
  }

  lemma {:induction false} WriteOpsConcat(xs: seq<Transaction>, ys: seq<Transaction>)
    ensures WriteOps(xs + ys) == WriteOps(xs) + WriteOps(ys)
  {
    if xs == [] {
      assert xs + ys == ys;
    } else {
      assert (xs + ys)[1..] == xs[1..] + ys;
      WriteOpsConcat(xs[1..], ys);
    }
  }

  lemma {:induction false} OfPriorityConcat(xs: seq<Transaction>, ys: seq<Transaction>, p: nat)
    ensures OfPriority(xs + ys, p) == OfPriority(xs, p) + OfPriority(ys, p)
  {
    if xs == [] {
      assert xs + ys == ys;
    } else {
      assert (xs + ys)[1..] == xs[1..] + ys;
      OfPriorityConcat(xs[1..], ys, p);
    }
  }

  lemma {:induction false} OfTxOfPriority(txs: seq<Transaction>, t: TxId, p: nat)
    ensures OfTx(OfPriority(txs, p), t) == OfPriority(OfTx(txs, t), p)
  {
    if txs != [] {
      OfTxOfPriority(txs[1..], t, p);
    }
  }

  /** Sorting by priority and picking one transaction's entries commute. */
  lemma OfTxByPriority(txs: seq<Transaction>, t: TxId)
    ensures OfTx(ByPriority(txs), t) == ByPriority(OfTx(txs, t))
  {
    var q := i => OfPriority(txs, i);
    OfTxConcat(q(1) + q(2) + q(3) + q(4), q(5), t);
    OfTxConcat(q(1) + q(2) + q(3), q(4), t);
    OfTxConcat(q(1) + q(2), q(3), t);
    OfTxConcat(q(1), q(2), t);
    forall p { OfTxOfPriority(txs, t, p); }
  }

  lemma {:induction false} WriteOpsOfPriority(txs: seq<Transaction>, p: nat)
    ensures WriteOps(OfPriority(txs, p)) == if p == 1 then WriteOps(txs) else []
  {
    if txs != [] {
      WriteOpsOfPriority(txs[1..], p);
    }
  }

  /** Sorting by priority keeps the storage writes in queue order. */
  lemma WriteOpsByPriority(txs: seq<Transaction>)
    ensures WriteOps(ByPriority(txs)) == WriteOps(txs)
  {
    var q := i => OfPriority(txs, i);
    WriteOpsConcat(q(1) + q(2) + q(3) + q(4), q(5));
    WriteOpsConcat(q(1) + q(2) + q(3), q(4));
    WriteOpsConcat(q(1) + q(2), q(3));
    WriteOpsConcat(q(1), q(2));
    forall p { WriteOpsOfPriority(txs, p); }
  }

  lemma {:induction false} OfTxMember(txs: seq<Transaction>, t: TxId, e: Transaction)
    ensures e in OfTx(txs, t) <==> e in txs && e.txId == t
  {
    if txs != [] {
      OfTxMember(txs[1..], t, e);
    }
  }

  lemma {:induction false} OfPriorityMember(txs: seq<Transaction>, p: nat, e: Transaction)
    ensures e in OfPriority(txs, p) <==> e in txs && e.txType.Priority() == p
  {
    if txs != [] {
      OfPriorityMember(txs[1..], p, e);
    }
  }

  lemma ByPriorityMember(txs: seq<Transaction>, e: Transaction)
    ensures e in ByPriority(txs) <==> e in txs
  {
    OfPriorityMember(txs, 1, e);
    OfPriorityMember(txs, 2, e);
    OfPriorityMember(txs, 3, e);
    OfPriorityMember(txs, 4, e);
    OfPriorityMember(txs, 5, e);
  }

  // ---------------------------------------------------------------------------
  // The execution order is the stable sort by priority
  // ---------------------------------------------------------------------------

  lemma {:induction false} OfPriorityTwice(txs: seq<Transaction>, p: nat, q: nat)
    ensures OfPriority(OfPriority(txs, p), q) == if p == q then OfPriority(txs, p) else []
  {
    if txs != [] {
      OfPriorityTwice(txs[1..], p, q);
    }
  }

  lemma {:induction false} OfPriorityCount(txs: seq<Transaction>, p: nat, e: Transaction)
    ensures multiset(OfPriority(txs, p))[e] == if e.txType.Priority() == p then multiset(txs)[e] else 0
  {
    if txs != [] {
      OfPriorityCount(txs[1..], p, e);
      assert txs == [txs[0]] + txs[1..];
    }
  }

  lemma ByPriorityPermutes(txs: seq<Transaction>)
    ensures multiset(ByPriority(txs)) == multiset(txs)
  {
    forall e ensures multiset(ByPriority(txs))[e] == multiset(txs)[e] {
      OfPriorityCount(txs, 1, e);
      OfPriorityCount(txs, 2, e);
      OfPriorityCount(txs, 3, e);
      OfPriorityCount(txs, 4, e);
      OfPriorityCount(txs, 5, e);
    }
  }

  ghost predicate Ascending(txs: seq<Transaction>) {
    forall i, j :: 0 <= i < j < |txs| ==> txs[i].txType.Priority() <= txs[j].txType.Priority()
  }

  /** Appending a higher priority class keeps a list ascending. */
  lemma AppendClass(xs: seq<Transaction>, txs: seq<Transaction>, p: nat)
    requires Ascending(xs) && forall e :: e in xs ==> e.txType.Priority() < p
    ensures Ascending(xs + OfPriority(txs, p))
    ensures forall e :: e in xs + OfPriority(txs, p) ==> e.txType.Priority() < p + 1
  {
    forall e { OfPriorityMember(txs, p, e); }
    var all := xs + OfPriority(txs, p);
    forall i, j | 0 <= i < j < |all| ensures all[i].txType.Priority() <= all[j].txType.Priority() {
      assert all[i] in all && all[j] in all;
      if j >= |xs| {
        assert all[j] == OfPriority(txs, p)[j - |xs|];
        if i >= |xs| { assert all[i] == OfPriority(txs, p)[i - |xs|]; }
      }
    }
  }

  lemma ByPriorityKeepsClasses(txs: seq<Transaction>, p: nat)
    ensures OfPriority(ByPriority(txs), p) == OfPriority(txs, p)
  {
    var q1, q2, q3, q4, q5 := OfPriority(txs, 1), OfPriority(txs, 2), OfPriority(txs, 3), OfPriority(txs, 4),
        OfPriority(txs, 5);
    OfPriorityConcat(q1 + q2 + q3 + q4, q5, p);
    OfPriorityConcat(q1 + q2 + q3, q4, p);
    OfPriorityConcat(q1 + q2, q3, p);
    OfPriorityConcat(q1, q2, p);
    OfPriorityTwice(txs, 1, p);
    OfPriorityTwice(txs, 2, p);
    OfPriorityTwice(txs, 3, p);
    OfPriorityTwice(txs, 4, p);
    OfPriorityTwice(txs, 5, p);
    if p == 0 || p > 5 { NoOtherPriority(txs, p); }
  }

  /** ByPriority is the stable sort: a permutation, ascending in priority, and
      transactions of equal priority keep their queue order. */
  lemma ByPriorityIsStableSort(txs: seq<Transaction>)
    ensures multiset(ByPriority(txs)) == multiset(txs)
    ensures Ascending(ByPriority(txs))
    ensures forall p: nat :: OfPriority(ByPriority(txs), p) == OfPriority(txs, p)
  {
    ByPriorityPermutes(txs);
    NoOtherPriority(txs, 0);
    AppendClass([], txs, 1);
    AppendClass([] + OfPriority(txs, 1), txs, 2);
    AppendClass([] + OfPriority(txs, 1) + OfPriority(txs, 2), txs, 3);
    AppendClass([] + OfPriority(txs, 1) + OfPriority(txs, 2) + OfPriority(txs, 3), txs, 4);
    AppendClass([] + OfPriority(txs, 1) + OfPriority(txs, 2) + OfPriority(txs, 3) + OfPriority(txs, 4), txs, 5);
    assert [] + OfPriority(txs, 1) == OfPriority(txs, 1);
    forall p: nat { ByPriorityKeepsClasses(txs, p); }
  }

  lemma {:induction false} NoOtherPriority(txs: seq<Transaction>, p: nat)
    requires p == 0 || p > 5
    ensures OfPriority(txs, p) == []
  {
    if txs != [] {
      NoOtherPriority(txs[1..], p);
    }
  }
}
