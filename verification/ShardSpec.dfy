/** What a state shard does, as functions on values: the lock tables, the effect of
    one transaction during block production, and the intake of an orchestrator block.
    The classes of module ShardChain are proved to compute these functions. */
module ShardSpec {
  import opened Protocol
  import opened EvmState

  datatype Funds = Funds(address: Address, amount: int)

  /** The five lock and pending tables plus the votes of the block being built.
      Slot locks are one flat map here. */
  datatype Tables = Tables(
    locked: map<TxId, Funds>,
    credits: map<TxId, seq<Funds>>,
    calls: map<TxId, CrossShardTx>,
    slots: map<SlotKey, TxId>,
    rwSets: map<TxId, seq<RwVariable>>,
    prepares: map<TxId, bool>)

  const NO_TABLES := Tables(map[], map[], map[], map[], map[], map[])

  // ---------------------------------------------------------------------------
  // Fund reservations
  // ---------------------------------------------------------------------------

  function LocksOn(locked: map<TxId, Funds>, a: Address): map<nat, int> {
    map t | t in locked && locked[t].address == a :: locked[t].amount
  }

  /** The amount reserved on an address. */
  ghost function Reserved(locked: map<TxId, Funds>, a: Address): int {
    Sum(LocksOn(locked, a))
  }

  // ---------------------------------------------------------------------------
  // Slot locks
  // ---------------------------------------------------------------------------

  function SlotsHeld(slots: map<SlotKey, TxId>, t: TxId): set<SlotKey> {
    set k | k in slots && slots[k] == t
  }

  function Release(slots: map<SlotKey, TxId>, t: TxId): map<SlotKey, TxId> {
    map k | k in slots && slots[k] != t :: slots[k]
  }

  function ReleaseSome(slots: map<SlotKey, TxId>, t: TxId, keys: set<SlotKey>): map<SlotKey, TxId> {
    map k | k in slots && !(slots[k] == t && k in keys) :: slots[k]
  }

  function Acquire(slots: map<SlotKey, TxId>, t: TxId, keys: set<SlotKey>): map<SlotKey, TxId> {
    slots + (map k | k in keys :: t)
  }

  predicate AddressLocked(slots: map<SlotKey, TxId>, a: Address) {
    exists k :: k in slots && k.addr == a
  }

  /** One read item passes validation: its value is current and no other
      transaction holds the slot. */
  predicate Passes(storage: map<SlotKey, Word>, slots: map<SlotKey, TxId>, t: TxId, e: Entry) {
    Load(storage, e.key) == e.value && (e.key in slots ==> slots[e.key] == t)
  }

  /** How many read items pass before the first one that does not. */
  function PassCount(storage: map<SlotKey, Word>, slots: map<SlotKey, TxId>, t: TxId, entries: seq<Entry>): (n: nat)
    ensures n <= |entries|
    ensures forall i :: 0 <= i < n ==> Passes(storage, slots, t, entries[i])
    ensures n < |entries| ==> !Passes(storage, slots, t, entries[n])
  {
    if entries == [] || !Passes(storage, slots, t, entries[0]) then 0
    else 1 + PassCount(storage, slots, t, entries[1..])
  }

  ghost predicate ReadsMatch(storage: map<SlotKey, Word>, rwSet: seq<RwVariable>) {
    forall i :: 0 <= i < |ReadEntries(rwSet)| ==>
        Load(storage, ReadEntries(rwSet)[i].key) == ReadEntries(rwSet)[i].value
  }

  // ---------------------------------------------------------------------------
  // Block production: one transaction
  // ---------------------------------------------------------------------------

  function ClearAll(tb: Tables, t: TxId): Tables {
    Tables(tb.locked - {t}, tb.credits - {t}, tb.calls - {t}, Release(tb.slots, t), tb.rwSets - {t}, tb.prepares)
  }

  function OtherCredits(credits: seq<Funds>, a: Address): seq<Funds> {
    if credits == [] then []
    else if credits[0].address != a then [credits[0]] + OtherCredits(credits[1..], a)
    else OtherCredits(credits[1..], a)
  }

  function ClearCredit(credits: map<TxId, seq<Funds>>, t: TxId, a: Address): map<TxId, seq<Funds>> {
    if t !in credits then credits
    else if OtherCredits(credits[t], a) == [] then credits - {t}
    else credits[t := OtherCredits(credits[t], a)]
  }

  function CleanupAfterExecution(tb: Tables, tx: Transaction): Tables {
    if tx.txId == EMPTY_ID then tb
    else match tx.txType
      case CrossDebit => tb.(locked := tb.locked - {tx.txId})
      case CrossCredit => tb.(credits := ClearCredit(tb.credits, tx.txId, tx.to))
      case CrossWriteSet => tb.(calls := tb.calls - {tx.txId})
      case CrossAbort => ClearAll(tb, tx.txId)
      case Lock => tb.(prepares := tb.prepares[tx.txId := true])
      case Finalize => tb.(slots := Release(tb.slots, tx.txId), rwSets := tb.rwSets - {tx.txId})
      case Unlock => ClearAll(tb, tx.txId)
      case _ => tb
  }

  function FailLock(tb: Tables, t: TxId): Tables {
    var cleared := ClearAll(tb, t);
    cleared.(prepares := cleared.prepares[t := false])
  }

  /** The state while a block is being produced. */
  datatype Exec = Exec(world: World, tables: Tables, included: seq<Transaction>)

  predicate LocalConflict(tb: Tables, tx: Transaction) {
    tx.txType.Local? && (AddressLocked(tb.slots, tx.from) || AddressLocked(tb.slots, tx.to))
  }

  /** Reserve the value, if there is any to reserve. */
  function LockFunds(tb: Tables, tx: Transaction): Tables {
    if tx.value > 0 then tb.(locked := tb.locked[tx.txId := Funds(tx.from, tx.value)]) else tb
  }

  ghost predicate FundsAvailable(x: Exec, tx: Transaction) {
    tx.value > 0 ==> CanDebit(x.world, tx.from, tx.value, Reserved(x.tables.locked, tx.from))
  }

  /** The read set is current and free of other transactions' locks. */
  predicate ReadSetPasses(x: Exec, tx: Transaction) {
    PassCount(x.world.storage, x.tables.slots, tx.txId, ReadEntries(tx.rwSet)) == |ReadEntries(tx.rwSet)|
  }

  ghost predicate LockSucceeds(x: Exec, tx: Transaction) {
    FundsAvailable(x, tx) && ReadSetPasses(x, tx)
  }

  ghost function StepLock(x: Exec, tx: Transaction): Exec {
    if LockSucceeds(x, tx) then
      var funded := LockFunds(x.tables, tx);
      var held := funded.(slots := Acquire(funded.slots, tx.txId, ReadKeys(tx.rwSet)),
                          rwSets := funded.rwSets[tx.txId := tx.rwSet]);
      Exec(x.world, CleanupAfterExecution(held, tx), x.included + [tx])
    else
      x.(tables := FailLock(x.tables, tx.txId))
  }

  ghost function Step(call: Call, x: Exec, tx: Transaction): Exec {
    if LocalConflict(x.tables, tx) then x
    else if tx.txType.Lock? then StepLock(x, tx)
    else match ExecuteTx(call, x.world, tx)
      case None => x
      case Some(w) => Exec(w, CleanupAfterExecution(x.tables, tx), x.included + [tx])
  }

  ghost function Steps(call: Call, x: Exec, txs: seq<Transaction>): Exec
    decreases txs
  {
    if txs == [] then x else Steps(call, Step(call, x, txs[0]), txs[1..])
  }

  // ---------------------------------------------------------------------------
  // Block production: the execution order
  // ---------------------------------------------------------------------------

  function OfPriority(txs: seq<Transaction>, p: nat): seq<Transaction> {
    if txs == [] then []
    else if txs[0].txType.Priority() == p then [txs[0]] + OfPriority(txs[1..], p)
    else OfPriority(txs[1..], p)
  }

  /** Stable order by priority. */
  function ByPriority(txs: seq<Transaction>): seq<Transaction> {
    OfPriority(txs, 1) + OfPriority(txs, 2) + OfPriority(txs, 3) + OfPriority(txs, 4) + OfPriority(txs, 5)
  }

  // ---------------------------------------------------------------------------
  // A shard
  // ---------------------------------------------------------------------------

  datatype Shard = Shard(
    id: int,
    world: World,
    tables: Tables,
    queue: seq<Transaction>,
    processed: set<TxId>,
    lastHeight: nat,
    blocks: seq<ShardBlock>)

  ghost function ProduceBlock(call: Call, sh: Shard): Shard {
    var x := Steps(call, Exec(sh.world, sh.tables, []), ByPriority(sh.queue));
    sh.(world := x.world,
        tables := x.tables.(prepares := map[]),
        queue := [],
        blocks := sh.blocks + [ShardBlock(|sh.blocks|, x.included, x.tables.prepares)])
  }

  // ---------------------------------------------------------------------------
  // Intake of an orchestrator block
  // ---------------------------------------------------------------------------

  function Typed(ty: TxType, t: TxId): Transaction {
    Transaction(ty, t, 0, 0, 0, [], [])
  }

  function Debit(t: TxId, f: Funds): Transaction {
    Typed(CrossDebit, t).(from := f.address, value := f.amount)
  }

  function Credit(t: TxId, f: Funds): Transaction {
    Typed(CrossCredit, t).(to := f.address, value := f.amount)
  }

  function CreditAll(t: TxId, credits: seq<Funds>): seq<Transaction> {
    if credits == [] then [] else [Credit(t, credits[0])] + CreditAll(t, credits[1..])
  }

  function WriteSetTx(t: TxId, rwSet: seq<RwVariable>): Transaction {
    Typed(CrossWriteSet, t).(rwSet := rwSet)
  }

  function FinalizeTx(t: TxId, rwSet: seq<RwVariable>): Transaction {
    Typed(Finalize, t).(rwSet := rwSet)
  }

  /** The state changes queued when t commits. */
  function CommitEntries(tb: Tables, s: int, t: TxId): seq<Transaction> {
    (if t in tb.locked then [Debit(t, tb.locked[t])] else [])
    + (if t in tb.credits then CreditAll(t, tb.credits[t]) else [])
    + (if t in tb.calls && LocalRwSet(tb.calls[t].rwSet,
        s) != [] then [WriteSetTx(t, LocalRwSet(tb.calls[t].rwSet, s))] else [])
    + (if t in tb.rwSets && tb.rwSets[t] != [] then [FinalizeTx(t, tb.rwSets[t])] else [])
  }

  predicate HasData(tb: Tables, t: TxId) {
    t in tb.locked || t in tb.credits || t in tb.calls || t in tb.rwSets
  }

  function AbortEntries(tb: Tables, t: TxId): seq<Transaction> {
    if HasData(tb, t) then [Typed(CrossAbort, t)] else []
  }

  function DecisionEntries(tb: Tables, s: int, t: TxId, committed: bool): seq<Transaction> {
    (if committed then CommitEntries(tb, s, t) else AbortEntries(tb, t)) + [Typed(Unlock, t)]
  }

  /** One decision: skipped if this shard has already handled it. */
  function Decide(sh: Shard, t: TxId, committed: bool): Shard {
    if t in sh.processed then sh
    else sh.(processed := sh.processed + {t},
             queue := sh.queue + DecisionEntries(sh.tables, sh.id, t, committed))
  }

  function DecideAll(sh: Shard, results: map<TxId, bool>, order: seq<TxId>): Shard
    requires forall i :: 0 <= i < |order| ==> order[i] in results
    decreases order
  {
    if order == [] then sh else DecideAll(Decide(sh, order[0], results[order[0]]), results, order[1..])
  }

  function LockTx(tx: CrossShardTx, s: int): Transaction {
    Transaction(Lock, tx.id, tx.from, tx.to, if s == tx.fromShard then tx.value else 0, [], LocalRwSet(tx.rwSet, s))
  }

  predicate Credited(tx: CrossShardTx, s: int) {
    tx.value > 0 && ShardOf(tx.to) == s
  }

  function AddCredit(credits: map<TxId, seq<Funds>>, t: TxId, f: Funds): map<TxId, seq<Funds>> {
    credits[t := (if t in credits then credits[t] else []) + [f]]
  }

  /** One new transaction: an involved shard stores what a commit will need and
      queues a Lock. */
  function Intake(sh: Shard, tx: CrossShardTx): Shard {
    if !Involved(tx, sh.id) then sh
    else
      var credits := if Credited(tx, sh.id) then AddCredit(sh.tables.credits, tx.id,
          Funds(tx.to, tx.value)) else sh.tables.credits;
      var calls := if sh.id != tx.fromShard && tx.data != [] then sh.tables.calls[tx.id := tx] else sh.tables.calls;
      sh.(tables := sh.tables.(credits := credits, calls := calls), queue := sh.queue + [LockTx(tx, sh.id)])
  }

  function IntakeAll(sh: Shard, txs: seq<CrossShardTx>): Shard
    decreases txs
  {
    if txs == [] then sh else IntakeAll(Intake(sh, txs[0]), txs[1..])
  }

  ghost predicate Enumerates(order: seq<TxId>, ids: set<TxId>) {
    Distinct(order) && forall t :: t in order <==> t in ids
  }

  /** Handle an orchestrator block; the decisions are taken in the given order. */
  function Process(sh: Shard, b: OrchestratorBlock, order: seq<TxId>): Shard
    requires forall i :: 0 <= i < |order| ==> order[i] in b.tpcResult
  {
    if b.height <= sh.lastHeight then sh
    else IntakeAll(DecideAll(sh, b.tpcResult, order), b.ctToOrder).(lastHeight := b.height)
  }
}
