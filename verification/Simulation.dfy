/** The state a cross-shard transaction is simulated on: a lazily filled read cache, a
    write overlay and a stack of snapshots over the state held by the shards. */
module Simulation {
  import opened Protocol

  /** The state of the shards while a simulation runs. */
  datatype Remote = Remote(storage: SlotKey -> Word, balance: Address -> nat)

  datatype Account = Account(balance: nat, original: nat)

  const U256: nat := 0x1_00000000_00000000_00000000_00000000_00000000_00000000_00000000_00000000

  datatype Snap = Snap(accounts: map<Address, Account>, cache: map<SlotKey, Word>, writes: map<SlotKey, Word>)

  datatype Sim = Sim(accounts: map<Address, Account>, cache: map<SlotKey, Word>, writes: map<SlotKey, Word>,
                     olds: map<SlotKey, Word>, snapshots: seq<Snap>)

  const NEW_SIM := Sim(map[], map[], map[], map[], [])

  datatype Op =
    | GetState(k: SlotKey)
    | GetBoth(k: SlotKey)
    | SetState(k: SlotKey, value: Word)
    | Snapshot
    | Revert(id: nat)
    | GetBalance(a: Address)
    | AddBalance(a: Address, amount: nat)
    | SubBalance(a: Address, amount: nat)

  /** What a call returns: one number, or the current and the committed value. */
  datatype Answer = One(v: nat) | Two(current: nat, committed: nat)

  // ---------------------------------------------------------------------------
  // The implementation, as functions on values
  // ---------------------------------------------------------------------------

  function Fetched(r: Remote, sim: Sim, a: Address): Sim {
    if a in sim.accounts then sim
    else sim.(accounts := sim.accounts[a := Account(r.balance(a), r.balance(a))])
  }

  function Read(r: Remote, sim: Sim, k: SlotKey): (Sim, Word) {
    if k in sim.writes then (sim, sim.writes[k])
    else if k in sim.cache then (sim, sim.cache[k])
    else
      var sim1 := Fetched(r, sim, k.addr);
      (sim1.(cache := sim1.cache[k := r.storage(k)]), r.storage(k))
  }

  function Write(r: Remote, sim: Sim, k: SlotKey, value: Word): (Sim, Word) {
    var (sim1, prev) := Read(r, sim, k);
    var olds := if k in sim1.olds then sim1.olds else sim1.olds[k := prev];
    (sim1.(olds := olds, writes := sim1.writes[k := value]), prev)
  }

  function SetBalance(r: Remote, sim: Sim, a: Address, balance: nat): Sim {
    var sim1 := Fetched(r, sim, a);
    sim1.(accounts := sim1.accounts[a := sim1.accounts[a].(balance := balance)])
  }

  function BalanceOf(r: Remote, sim: Sim, a: Address): nat {
    Fetched(r, sim, a).accounts[a].balance
  }

  function Step(r: Remote, sim: Sim, op: Op): (Sim, Answer) {
    match op
    case GetState(k) => var (sim', v) := Read(r, sim, k); (sim', One(v))
    case GetBoth(k) =>
      var (sim', v) := Read(r, sim, k);
      (sim', Two(v, if k in sim'.cache then sim'.cache[k] else v))
    case SetState(k, value) => var (sim', v) := Write(r, sim, k, value); (sim', One(v))
    case Snapshot =>
      (sim.(snapshots := sim.snapshots + [Snap(sim.accounts, sim.cache, sim.writes)]), One(|sim.snapshots|))
    case Revert(id) =>
      if id >= |sim.snapshots| then (sim, One(0))
      else
        var s := sim.snapshots[id];
        (sim.(accounts := s.accounts, cache := s.cache, writes := s.writes, snapshots := sim.snapshots[..id]), One(0))
    case GetBalance(a) => (Fetched(r, sim, a), One(BalanceOf(r, sim, a)))
    case AddBalance(a, amount) =>
      (SetBalance(r, sim, a, (BalanceOf(r, sim, a) + amount) % U256), One(BalanceOf(r, sim, a)))
    case SubBalance(a, amount) =>
      (SetBalance(r, sim, a, (BalanceOf(r, sim, a) - amount) % U256), One(BalanceOf(r, sim, a)))
  }

  function Steps(r: Remote, ops: seq<Op>): (Sim, seq<Answer>) {
    if ops == [] then (NEW_SIM, [])
    else
      var n := |ops| - 1;
      var (sim, answers) := Steps(r, ops[..n]);
      var (sim', a) := Step(r, sim, ops[n]);
      (sim', answers + [a])
  }

  // ---------------------------------------------------------------------------
  // The reference: total maps and a stack of copies
  // ---------------------------------------------------------------------------

  datatype Copy = Copy(storage: SlotKey -> Word, balance: Address -> nat)

  datatype Plain = Plain(now: Copy, saved: seq<Copy>)

  function Put<K(==), V>(f: K -> V, k: K, v: V): K -> V {
    x => if x == k then v else f(x)
  }

  function PlainStep(r: Remote, p: Plain, op: Op): (Plain, Answer) {
    match op
    case GetState(k) => (p, One(p.now.storage(k)))
    case GetBoth(k) => (p, Two(p.now.storage(k), r.storage(k)))
    case SetState(k, value) => (p.(now := p.now.(storage := Put(p.now.storage, k, value))), One(p.now.storage(k)))
    case Snapshot => (p.(saved := p.saved + [p.now]), One(|p.saved|))
    case Revert(id) => if id >= |p.saved| then (p, One(0)) else (Plain(p.saved[id], p.saved[..id]), One(0))
    case GetBalance(a) => (p, One(p.now.balance(a)))
    case AddBalance(a, amount) =>
      (p.(now := p.now.(balance := Put<Address, nat>(p.now.balance, a, (p.now.balance(a) + amount) % U256))),
          One(p.now.balance(a)))
    case SubBalance(a, amount) =>
      (p.(now := p.now.(balance := Put<Address, nat>(p.now.balance, a, (p.now.balance(a) - amount) % U256))),
          One(p.now.balance(a)))
  }

  function PlainSteps(r: Remote, ops: seq<Op>): (Plain, seq<Answer>) {
    if ops == [] then (Plain(Copy(r.storage, r.balance), []), [])
    else
      var n := |ops| - 1;
      var (p, answers) := PlainSteps(r, ops[..n]);
      var (p', a) := PlainStep(r, p, ops[n]);
      (p', answers + [a])
  }

  // ---------------------------------------------------------------------------
  // Invariant and refinement
  // ---------------------------------------------------------------------------

  /** Caches agree with the shards and every written slot has been read. */
  ghost predicate Layers(r: Remote, accounts: map<Address, Account>, cache: map<SlotKey, Word>, writes: map<SlotKey,
                         Word>, olds: map<SlotKey, Word>) {
    && (forall k :: k in cache ==> cache[k] == r.storage(k))
    && (forall k :: k in writes ==> k in cache && k in olds)
    && (forall a :: a in accounts ==> accounts[a].original == r.balance(a))
  }

  ghost predicate SimInv(r: Remote, sim: Sim) {
    && Layers(r, sim.accounts, sim.cache, sim.writes, sim.olds)
    && (forall k :: k in sim.olds ==> sim.olds[k] == r.storage(k))
    && (forall i :: 0 <= i < |sim.snapshots| ==>
          Layers(r, sim.snapshots[i].accounts, sim.snapshots[i].cache, sim.snapshots[i].writes, sim.olds))
  }

  /** A layer of the implementation represents a copy of the reference. */
  ghost predicate Represents(r: Remote, accounts: map<Address, Account>, writes: map<SlotKey, Word>, copy: Copy) {
    && (forall k :: copy.storage(k) == if k in writes then writes[k] else r.storage(k))
    && (forall a :: copy.balance(a) == if a in accounts then accounts[a].balance else r.balance(a))
  }

  ghost predicate Refines(r: Remote, sim: Sim, p: Plain) {
    && Represents(r, sim.accounts, sim.writes, p.now)
    && |p.saved| == |sim.snapshots|
    && (forall i :: 0 <= i < |p.saved| ==> Represents(r, sim.snapshots[i].accounts, sim.snapshots[i].writes,
                                           p.saved[i]))
  }

  lemma OldsGrow(r: Remote, s: Snap, olds: map<SlotKey, Word>, olds': map<SlotKey, Word>)
    requires Layers(r, s.accounts, s.cache, s.writes, olds) && forall k :: k in olds ==> k in olds'
    ensures Layers(r, s.accounts, s.cache, s.writes, olds')
  {
  }

  lemma StepInv(r: Remote, sim: Sim, op: Op)
    requires SimInv(r, sim)
    ensures SimInv(r, Step(r, sim, op).0)
  {
    match op {
      case GetState(k) => ReadInv(r, sim, k);
      case GetBoth(k) => ReadInv(r, sim, k);
      case SetState(k, value) => WriteInv(r, sim, k, value);
      case Snapshot =>
      case Revert(id) =>
      case GetBalance(a) =>
      case AddBalance(a, amount) =>
      case SubBalance(a, amount) =>
    }
  }

  lemma ReadInv(r: Remote, sim: Sim, k: SlotKey)
    requires SimInv(r, sim)
    ensures SimInv(r, Read(r, sim, k).0)
  {
  }

  lemma WriteInv(r: Remote, sim: Sim, k: SlotKey, value: Word)
    requires SimInv(r, sim)
    ensures SimInv(r, Write(r, sim, k, value).0)
  {
    ReadInv(r, sim, k);
    var sim1, sim' := Read(r, sim, k).0, Write(r, sim, k, value).0;
    forall i | 0 <= i < |sim'.snapshots|
      ensures Layers(r, sim'.snapshots[i].accounts, sim'.snapshots[i].cache, sim'.snapshots[i].writes, sim'.olds)
    {
      OldsGrow(r, sim1.snapshots[i], sim1.olds, sim'.olds);
    }
  }

  lemma ReadIsStored(r: Remote, sim: Sim, copy: Copy, k: SlotKey)
    requires SimInv(r, sim) && Represents(r, sim.accounts, sim.writes, copy)
    ensures Read(r, sim, k).1 == copy.storage(k)
    ensures var sim' := Read(r, sim, k).0;
            sim'.writes == sim.writes && sim'.snapshots == sim.snapshots
                && Represents(r, sim'.accounts, sim'.writes, copy)
    ensures k in sim.writes || k in Read(r, sim, k).0.cache
  {
  }

  lemma WriteIsPut(r: Remote, sim: Sim, copy: Copy, k: SlotKey, value: Word)
    requires SimInv(r, sim) && Represents(r, sim.accounts, sim.writes, copy)
    ensures var sim' := Write(r, sim, k, value).0;
            sim'.snapshots == sim.snapshots && Represents(r, sim'.accounts, sim'.writes,
                copy.(storage := Put(copy.storage, k, value)))
  {
    ReadIsStored(r, sim, copy, k);
  }

  lemma SetBalanceIsPut(r: Remote, sim: Sim, copy: Copy, a: Address, balance: nat)
    requires Represents(r, sim.accounts, sim.writes, copy)
    ensures BalanceOf(r, sim, a) == copy.balance(a)
    ensures var sim' := SetBalance(r, sim, a, balance);
            sim'.snapshots == sim.snapshots && Represents(r, sim'.accounts, sim'.writes,
                copy.(balance := Put<Address, nat>(copy.balance, a, balance)))
  {
  }

  /** One operation, with its answer, keeps the two states in step. */
  ghost predicate InStep(r: Remote, sim: Sim, p: Plain, op: Op) {
    Refines(r, Step(r, sim, op).0, PlainStep(r, p, op).0) && Step(r, sim, op).1 == PlainStep(r, p, op).1
  }

  lemma StorageRefines(r: Remote, sim: Sim, p: Plain, op: Op)
    requires SimInv(r, sim) && Refines(r, sim, p) && (op.GetState? || op.GetBoth? || op.SetState?)
    ensures InStep(r, sim, p, op)
  {
    ReadIsStored(r, sim, p.now, op.k);
    if op.SetState? {
      WriteIsPut(r, sim, p.now, op.k, op.value);
    }
    StepInv(r, sim, op);
  }

  lemma BalanceRefines(r: Remote, sim: Sim, p: Plain, op: Op)
    requires SimInv(r, sim) && Refines(r, sim, p) && (op.GetBalance? || op.AddBalance? || op.SubBalance?)
    ensures InStep(r, sim, p, op)
  {
    if op.AddBalance? {
      SetBalanceIsPut(r, sim, p.now, op.a, (BalanceOf(r, sim, op.a) + op.amount) % U256);
    } else if op.SubBalance? {
      SetBalanceIsPut(r, sim, p.now, op.a, (BalanceOf(r, sim, op.a) - op.amount) % U256);
    }
  }

  lemma StackRefines(r: Remote, sim: Sim, p: Plain, op: Op)
    requires SimInv(r, sim) && Refines(r, sim, p) && (op.Snapshot? || op.Revert?)
    ensures InStep(r, sim, p, op)
  {
  }

  lemma StepRefines(r: Remote, sim: Sim, p: Plain, op: Op)
    requires SimInv(r, sim) && Refines(r, sim, p)
    ensures InStep(r, sim, p, op)
  {
    match op {
      case GetState(_) => StorageRefines(r, sim, p, op);
      case GetBoth(_) => StorageRefines(r, sim, p, op);
      case SetState(_, _) => StorageRefines(r, sim, p, op);
      case Snapshot => StackRefines(r, sim, p, op);
      case Revert(_) => StackRefines(r, sim, p, op);
      case GetBalance(_) => BalanceRefines(r, sim, p, op);
      case AddBalance(_, _) => BalanceRefines(r, sim, p, op);
      case SubBalance(_, _) => BalanceRefines(r, sim, p, op);
    }
  }

  lemma {:induction false} StepsInv(r: Remote, ops: seq<Op>)
    ensures SimInv(r, Steps(r, ops).0)
  {
    if ops != [] {
      StepsInv(r, ops[..|ops| - 1]);
      StepInv(r, Steps(r, ops[..|ops| - 1]).0, ops[|ops| - 1]);
    }
  }

  /** Over a fixed remote state, every sequence of reads, writes, snapshots and reverts
      gets the answers of a plain total map with a stack of saved copies. */
  lemma {:induction false} SimulationRefinesPlainMap(r: Remote, ops: seq<Op>)
    ensures Steps(r, ops).1 == PlainSteps(r, ops).1
    ensures Refines(r, Steps(r, ops).0, PlainSteps(r, ops).0)
  {
    if ops != [] {
      var n := |ops| - 1;
      StepsInv(r, ops[..n]);
      SimulationRefinesPlainMap(r, ops[..n]);
      StepRefines(r, Steps(r, ops[..n]).0, PlainSteps(r, ops[..n]).0, ops[n]);
    }
  }

  // ---------------------------------------------------------------------------
  // Which slots are recorded
  // ---------------------------------------------------------------------------

  /** The slots read and the slots written so far, apart from what a revert has undone. */
  datatype Marks = Marks(read: set<SlotKey>, written: set<SlotKey>)

  datatype Footprint = Footprint(now: Marks, saved: seq<Marks>)

  function FootprintStep(p: Footprint, op: Op): Footprint {
    match op
    case GetState(k) => p.(now := p.now.(read := p.now.read + {k}))
    case GetBoth(k) => p.(now := p.now.(read := p.now.read + {k}))
    case SetState(k, _) => p.(now := Marks(p.now.read + {k}, p.now.written + {k}))
    case Snapshot => p.(saved := p.saved + [p.now])
    case Revert(id) => if id >= |p.saved| then p else Footprint(p.saved[id], p.saved[..id])
    case _ => p
  }

  function FootprintOf(ops: seq<Op>): Footprint {
    if ops == [] then Footprint(Marks({}, {}), []) else FootprintStep(FootprintOf(ops[..|ops| - 1]), ops[|ops| - 1])
  }

  ghost predicate MarkedAs(m: Marks, cache: map<SlotKey, Word>, writes: map<SlotKey, Word>) {
    m.read == cache.Keys && m.written == writes.Keys
  }

  ghost predicate HasFootprint(p: Footprint, sim: Sim) {
    && MarkedAs(p.now, sim.cache, sim.writes)
    && |p.saved| == |sim.snapshots|
    && (forall i :: 0 <= i < |p.saved| ==> MarkedAs(p.saved[i], sim.snapshots[i].cache, sim.snapshots[i].writes))
  }

  lemma StepFootprint(r: Remote, sim: Sim, p: Footprint, op: Op)
    requires SimInv(r, sim) && HasFootprint(p, sim)
    ensures HasFootprint(FootprintStep(p, op), Step(r, sim, op).0)
  {
    match op {
      case GetState(k) => ReadMarks(r, sim, k);
      case GetBoth(k) => ReadMarks(r, sim, k);
      case SetState(k, value) => ReadMarks(r, sim, k); assert Write(r, sim, k, value).0.writes ==
                                                       sim.writes[k := value];
      case Snapshot =>
      case Revert(id) =>
      case GetBalance(a) =>
      case AddBalance(a, amount) =>
      case SubBalance(a, amount) =>
    }
  }

  lemma ReadMarks(r: Remote, sim: Sim, k: SlotKey)
    requires SimInv(r, sim)
    ensures var sim' := Read(r, sim, k).0;
            sim'.cache.Keys == sim.cache.Keys + {k} && sim'.writes == sim.writes && sim'.snapshots == sim.snapshots
  {
  }

  /** The cache and the overlay hold exactly the slots read and written, reverts included. */
  lemma {:induction false} RecordedSlots(r: Remote, ops: seq<Op>)
    ensures HasFootprint(FootprintOf(ops), Steps(r, ops).0)
  {
    if ops != [] {
      var n := |ops| - 1;
      StepsInv(r, ops[..n]);
      RecordedSlots(r, ops[..n]);
      StepFootprint(r, Steps(r, ops[..n]).0, FootprintOf(ops[..n]), ops[n]);
    }
  }
}
