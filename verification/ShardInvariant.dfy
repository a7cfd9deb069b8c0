/** The invariant of one shard, stated transaction by transaction: where each
    cross-shard transaction stands (Phase) as a function of what the shard has
    processed, queued, executed and voted. */
module ShardInvariant {
  import opened Protocol
  import opened EvmState
  import opened ShardSpec
  import opened History

  // ---------------------------------------------------------------------------
  // One transaction's share of the tables
  // ---------------------------------------------------------------------------

  datatype View = View(funds: Option<Funds>, credits: Option<seq<Funds>>, call: Option<CrossShardTx>,
                       rw: Option<seq<RwVariable>>, slots: set<SlotKey>, vote: Option<bool>)

  function Get<V>(m: map<TxId, V>, t: TxId): Option<V> {
    if t in m then Some(m[t]) else None
  }

  function ViewOf(tb: Tables, t: TxId): View {
    View(Get(tb.locked, t), Get(tb.credits, t), Get(tb.calls, t), Get(tb.rwSets, t), SlotsHeld(tb.slots, t),
        Get(tb.prepares, t))
  }

  const NOTHING := View(None, None, None, None, {}, None)

  ghost predicate Unheld(v: View) {
    v.funds.None? && v.rw.None? && v.slots == {}
  }

  /** In none of the five lock and pending tables. */
  ghost predicate Cleared(v: View) {
    v.(vote := None) == NOTHING
  }

  // ---------------------------------------------------------------------------
  // What shard s must hold and do for transaction tx
  // ---------------------------------------------------------------------------

  function FundsFor(tx: CrossShardTx, s: int): Option<Funds> {
    if s == tx.fromShard && tx.value > 0 then Some(Funds(tx.from, tx.value)) else None
  }

  function CreditsFor(tx: CrossShardTx, s: int): Option<seq<Funds>> {
    if Credited(tx, s) then Some([Funds(tx.to, tx.value)]) else None
  }

  function CallFor(tx: CrossShardTx, s: int): Option<CrossShardTx> {
    if s != tx.fromShard && tx.data != [] then Some(tx) else None
  }

  function DebitOps(tx: CrossShardTx, s: int): seq<Transaction> {
    if FundsFor(tx, s).Some? then [Debit(tx.id, FundsFor(tx, s).value)] else []
  }

  /** The commit operations of tx on an involved shard s other than the debit. */
  function OtherOps(tx: CrossShardTx, s: int): seq<Transaction> {
    (if CreditsFor(tx, s).Some? then CreditAll(tx.id, CreditsFor(tx, s).value) else [])
    + (if CallFor(tx, s).Some? && LocalRwSet(tx.rwSet,
        s) != [] then [WriteSetTx(tx.id, LocalRwSet(tx.rwSet, s))] else [])
    + (if LocalRwSet(tx.rwSet, s) != [] then [FinalizeTx(tx.id, LocalRwSet(tx.rwSet, s))] else [])
  }

  function Ops(tx: CrossShardTx, s: int): seq<Transaction> {
    DebitOps(tx, s) + OtherOps(tx, s)
  }

  ghost predicate Waiting(v: View, tx: CrossShardTx, s: int) {
    Unheld(v) && v.credits == CreditsFor(tx, s) && v.call == CallFor(tx, s)
  }

  ghost predicate Holding(v: View, tx: CrossShardTx, s: int) {
    && v.funds == FundsFor(tx, s)
    && v.credits == CreditsFor(tx, s)
    && v.call == CallFor(tx, s)
    && v.rw == Some(LocalRwSet(tx.rwSet, s))
    && v.slots == ReadKeys(LocalRwSet(tx.rwSet, s))
  }

  /** The operations carried out or still queued are the whole commit; only the
      debit may be missing, and only if reserved funds were not respected. */
  ghost predicate Complete(ops: seq<Transaction>, tx: CrossShardTx, s: int, safe: bool) {
    ops == Ops(tx, s) || (!safe && ops == OtherOps(tx, s))
  }

  // ---------------------------------------------------------------------------
  // Phases
  // ---------------------------------------------------------------------------

  /** What does not change while a shard produces a block. `safe`: every local
      transaction so far left the reservations covered. `framed`: contract calls
      write only at their two addresses and every written slot is also read. */
  datatype Ctx = Ctx(call: Call, init: World, s: int, hist: seq<OrchestratorBlock>,
                     blocks: seq<ShardBlock>, safe: bool, framed: bool)

  ghost predicate Uninvolved(v: View, rest: seq<Transaction>, log: seq<Transaction>, t: TxId) {
    && (forall i :: 0 <= i < |rest| ==> rest[i] == Typed(Unlock, t))
    && CommitOps(log, t) == []
    && v == NOTHING
  }

  ghost predicate Undecided(c: Ctx, v: View, st: map<SlotKey, Word>, rest: seq<Transaction>, vote: Option<bool>,
                            log: seq<Transaction>, tx: CrossShardTx)
  {
    && CommitOps(log, tx.id) == []
    && ((rest == [LockTx(tx, c.s)] && vote.None? && Waiting(v, tx, c.s))
        || (rest == [] && vote == Some(true) && Holding(v, tx, c.s) && LockTx(tx, c.s) in log
            && (c.framed ==> ReadsMatch(st, LocalRwSet(tx.rwSet, c.s))))
        || (rest == [] && vote == Some(false) && Cleared(v)))
  }

  ghost predicate Aborted(c: Ctx, v: View, rest: seq<Transaction>, vote: Option<bool>, log: seq<Transaction>,
                          tx: CrossShardTx) {
    && CommitOps(log, tx.id) == []
    && (forall i :: 0 <= i < |rest| ==>
          rest[i] == Typed(Unlock, tx.id) || rest[i] == Typed(CrossAbort, tx.id) || rest[i] == LockTx(tx, c.s))
    && (forall i, j :: 0 <= i < j < |rest| && rest[i].txType.Lock? ==> !rest[j].txType.Lock?)
    && ((exists i :: 0 <= i < |rest| && rest[i].txType.Lock?) ==> Unheld(v) && vote.None?)
  }

  /** Commit operations followed by one Unlock are still to be executed. */
  ghost predicate Committing(c: Ctx, v: View, st: map<SlotKey, Word>, rest: seq<Transaction>, log: seq<Transaction>,
                             tx: CrossShardTx) {
    && rest != []
    && var n := |rest| - 1;
    && rest[n] == Typed(Unlock, tx.id)
    && Complete(CommitOps(log, tx.id) + rest[..n], tx, c.s, c.safe)
    && (CommitOps(log, tx.id) == [] ==> Holding(v, tx, c.s))
    && (rest[0].txType.CrossDebit? ==> v.funds == FundsFor(tx, c.s))
    && (n > 0 ==> v.slots == ReadKeys(LocalRwSet(tx.rwSet, c.s)))
    && (n > 0 && c.framed && WriteOps(CommitOps(log, tx.id)) == [] ==> ReadsMatch(st, LocalRwSet(tx.rwSet, c.s)))
  }

  ghost predicate Committed(c: Ctx, v: View, st: map<SlotKey, Word>, rest: seq<Transaction>, vote: Option<bool>,
                            log: seq<Transaction>, tx: CrossShardTx)
  {
    && vote == Some(true)
    && LockTx(tx, c.s) in log
    && (Committing(c, v, st, rest, log, tx)
        || (rest == [] && Cleared(v) && Complete(CommitOps(log, tx.id), tx, c.s, c.safe)))
  }

  ghost predicate Phase(c: Ctx, v: View, st: map<SlotKey, Word>, rest: seq<Transaction>, log: seq<Transaction>,
                        t: TxId) {
    var prior := VoteOf(c.blocks, t);
    var vote := if v.vote.Some? then v.vote else prior;
    var order := OrderOf(c.hist, t);
    && (v.vote.Some? ==> prior.None?)
    && (order.None? ==> rest == [])
    && if order.None? || !Involved(order.value, c.s) then vote.None? && Uninvolved(v, rest, log, t)
       else match DecisionOf(c.hist, t)
         case None => Undecided(c, v, st, rest, vote, log, order.value)
         case Some(true) => Committed(c, v, st, rest, vote, log, order.value)
         case Some(false) => Aborted(c, v, rest, vote, log, order.value)
  }

  ghost function FullLog(c: Ctx, x: Exec): seq<Transaction> {
    LogOf(c.blocks) + x.included
  }

  ghost predicate PhaseAt(c: Ctx, x: Exec, rest: seq<Transaction>, t: TxId) {
    Phase(c, ViewOf(x.tables, t), x.world.storage, OfTx(rest, t), FullLog(c, x), t)
  }

  // ---------------------------------------------------------------------------
  // Re-execution and the values read
  // ---------------------------------------------------------------------------

  /** Run a list of transactions from a state; None if one of them fails. */
  function Replay(call: Call, w: World, log: seq<Transaction>): Option<World> {
    if log == [] then Some(w)
    else
      var n := |log| - 1;
      match Replay(call, w, log[..n])
      case None => None
      case Some(w') => ExecuteTx(call, w', log[n])
  }

  ghost predicate FirstWrite(log: seq<Transaction>, i: int)
    requires 0 <= i < |log|
  {
    IsWriteOp(log[i]) && forall j :: 0 <= j < i && log[j].txId == log[i].txId ==> !IsWriteOp(log[j])
  }

  /** After running `before`, the read set is current. */
  ghost predicate CurrentAfter(call: Call, init: World, before: seq<Transaction>, rwSet: seq<RwVariable>) {
    Replay(call, init, before).Some? && ReadsMatch(Replay(call, init, before).value.storage, rwSet)
  }

  /** Whenever a transaction's writes were first applied, its read set was current. */
  ghost predicate ReadsHeld(call: Call, init: World, log: seq<Transaction>) {
    forall i :: 0 <= i < |log| && FirstWrite(log, i) ==> CurrentAfter(call, init, log[..i], log[i].rwSet)
  }

  // ---------------------------------------------------------------------------
  // The invariant
  // ---------------------------------------------------------------------------

  ghost predicate Positive(locked: map<TxId, Funds>) {
    forall t :: t in locked ==> locked[t].amount > 0
  }

  /** No address has more reserved than it owns. */
  ghost predicate Covered(locked: map<TxId, Funds>, w: World) {
    forall a: Address :: Reserved(locked, a) <= Balance(w, a)
  }

  ghost predicate QueueOK(txs: seq<Transaction>) {
    forall i :: 0 <= i < |txs| ==> (txs[i].txType.Local? <==> txs[i].txId == EMPTY_ID)
  }

  ghost predicate Inv(c: Ctx, x: Exec, rest: seq<Transaction>) {
    && Replay(c.call, c.init, FullLog(c, x)) == Some(x.world)
    && (c.framed ==> ReadsHeld(c.call, c.init, FullLog(c, x)))
    && Positive(x.tables.locked)
    && (c.safe ==> Covered(x.tables.locked, x.world))
    && QueueOK(rest)
    && QueueOK(FullLog(c, x))
    && forall t :: t != EMPTY_ID ==> PhaseAt(c, x, rest, t)
  }

  /** Contract calls write storage only at the two addresses the lock check looks at. */
  ghost predicate CallFrame(call: Call) {
    forall tx, w, k: SlotKey :: call(tx, w).Some? && k.addr != tx.from && k.addr != tx.to ==>
      Load(call(tx, w).value.storage, k) == Load(w.storage, k)
  }

  /** Every slot tx writes on a shard is one it also reads there. */
  ghost predicate WritesRead(tx: CrossShardTx) {
    forall s :: WriteKeys(LocalRwSet(tx.rwSet, s)) <= ReadKeys(LocalRwSet(tx.rwSet, s))
  }

  ghost predicate CtxOK(c: Ctx) {
    && WellFormed(c.hist)
    && (c.framed ==> CallFrame(c.call))
    && (c.framed ==> forall t :: OrderOf(c.hist, t).Some? ==> WritesRead(OrderOf(c.hist, t).value))
  }

  /** A local transaction leaves every reservation covered: a plain transfer spends
      only unreserved money, a contract call ends in a covered state. */
  ghost predicate Respects(call: Call, x: Exec, e: Transaction) {
    e.txType.Local? && !LocalConflict(x.tables, e) && ExecuteTx(call, x.world, e).Some? ==>
      if e.data == [] then e.from == e.to || CanDebit(x.world, e.from, e.value, Reserved(x.tables.locked, e.from))
      else Covered(x.tables.locked, ExecuteTx(call, x.world, e).value)
  }

  ghost predicate AllRespect(call: Call, x: Exec, txs: seq<Transaction>)
    decreases txs
  {
    txs == [] || (Respects(call, x, txs[0]) && AllRespect(call, Step(call, x, txs[0]), txs[1..]))
  }

  // ---------------------------------------------------------------------------
  // Between blocks
  // ---------------------------------------------------------------------------

  /** No shard block repeats a vote. */
  ghost predicate VotesOnce(blocks: seq<ShardBlock>) {
    forall i, t :: 0 <= i < |blocks| && t in blocks[i].tpcPrepare ==> VoteOf(blocks, t) == Some(blocks[i].tpcPrepare[t])
  }

  /** Storage writes follow the order of the decisions. */
  ghost predicate InDecisionOrder(hist: seq<OrchestratorBlock>, ops: seq<Transaction>) {
    && (forall i :: 0 <= i < |ops| ==> DecisionOf(hist, ops[i].txId) == Some(true))
    && (forall i, j :: 0 <= i < j < |ops| ==> DecidedAt(hist, ops[i].txId) <= DecidedAt(hist, ops[j].txId))
  }

  ghost predicate CommitsOn(hist: seq<OrchestratorBlock>, s: int, t: TxId) {
    DecisionOf(hist, t) == Some(true) && OrderOf(hist, t).Some? && Involved(OrderOf(hist, t).value, s)
  }

  ghost function LocalReads(hist: seq<OrchestratorBlock>, s: int, t: TxId): set<SlotKey>
    requires OrderOf(hist, t).Some?
  {
    ReadKeys(LocalRwSet(OrderOf(hist, t).value.rwSet, s))
  }

  /** Transactions committed by the same block lock disjoint slots on shard s. */
  ghost predicate DisjointCommits(hist: seq<OrchestratorBlock>, s: int) {
    forall t, u :: t != u && CommitsOn(hist, s, t) && CommitsOn(hist, s, u)
                   && DecidedAt(hist, t) == DecidedAt(hist, u) ==>
      LocalReads(hist, s, t) !! LocalReads(hist, s, u)
  }

  ghost function CtxOf(call: Call, init: World, sh: Shard, hist: seq<OrchestratorBlock>, safe: bool,
                       framed: bool): Ctx {
    Ctx(call, init, sh.id, hist, sh.blocks, safe, framed)
  }

  ghost function Boundary(sh: Shard): Exec {
    Exec(sh.world, sh.tables, [])
  }

  ghost predicate ShardInv(call: Call, init: World, sh: Shard, hist: seq<OrchestratorBlock>, safe: bool, framed: bool) {
    && |hist| == sh.lastHeight + 1
    && CtxOK(CtxOf(call, init, sh, hist, safe, framed))
    && Inv(CtxOf(call, init, sh, hist, safe, framed), Boundary(sh), ByPriority(sh.queue))
    && sh.tables.prepares == map[]
    && VotesOnce(sh.blocks)
    && (forall t :: t in sh.processed <==> DecisionOf(hist, t).Some?)
    && InDecisionOrder(hist, WriteOps(LogOf(sh.blocks)) + WriteOps(sh.queue))
    && DisjointCommits(hist, sh.id)
  }
}
