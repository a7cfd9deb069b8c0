/** The read/write sets a simulation produces meet the conditions the commit protocol
    relies on. */
module RwSets {
  import opened Protocol
  import opened NestedMaps
  import opened RwItems
  import opened ShardInvariant
  import opened Simulation
  import opened StateDB
  import opened Conservation

  // ---------------------------------------------------------------------------
  // Slots of a read/write set
  // ---------------------------------------------------------------------------

  ghost predicate ReadsSlot(rw: RwVariable, s: Slot) {
    exists i :: 0 <= i < |rw.readSet| && rw.readSet[i].slot == s
  }

  ghost predicate WritesSlot(rw: RwVariable, s: Slot) {
    exists i :: 0 <= i < |rw.writeSet| && rw.writeSet[i].slot == s
  }

  /** Each slot an entry writes is one it reads. */
  ghost predicate SelfContained(rw: RwVariable) {
    forall s :: WritesSlot(rw, s) ==> ReadsSlot(rw, s)
  }

  lemma EntryContained(rw: RwVariable)
    requires SelfContained(rw)
    ensures Keys(WritesOf(rw.address, rw.writeSet)) <= Keys(ReadsOf(rw.address, rw.readSet))
  {
    var ws, rs := WritesOf(rw.address, rw.writeSet), ReadsOf(rw.address, rw.readSet);
    forall k | k in Keys(ws) ensures k in Keys(rs) {
      WritesOfAt(rw.address, rw.writeSet, 0);
      var i :| 0 <= i < |ws| && ws[i].key == k;
      WritesOfAt(rw.address, rw.writeSet, i);
      assert WritesSlot(rw, k.slot);
      var j :| 0 <= j < |rw.readSet| && rw.readSet[j].slot == k.slot;
      ReadsOfAt(rw.address, rw.readSet, j);
      assert rs[j].key == k;
    }
  }

  lemma {:induction false} LocalContained(rwSet: seq<RwVariable>, s: int)
    requires forall i :: 0 <= i < |rwSet| ==> SelfContained(rwSet[i])
    ensures WriteKeys(LocalRwSet(rwSet, s)) <= ReadKeys(LocalRwSet(rwSet, s))
  {
    if rwSet != [] {
      LocalContained(rwSet[1..], s);
      if rwSet[0].shardNum == s {
        var rest := LocalRwSet(rwSet[1..], s);
        assert LocalRwSet(rwSet, s)[1..] == rest;
        EntryContained(rwSet[0]);
        KeysConcat(WritesOf(rwSet[0].address, rwSet[0].writeSet), WriteEntries(rest));
        KeysConcat(ReadsOf(rwSet[0].address, rwSet[0].readSet), ReadEntries(rest));
      }
    }
  }

  // ---------------------------------------------------------------------------
  // What BuildRwSet produces
  // ---------------------------------------------------------------------------

  ghost predicate ReadAs(rw: RwVariable, s: Slot, value: Word) {
    exists m :: 0 <= m < |rw.readSet| && rw.readSet[m].slot == s && rw.readSet[m].value == value
  }

  /** No slot twice; every read is the shard's value; every written slot is read, and
      its recorded old value is that read. */
  ghost predicate WellRecorded(r: Remote, rw: RwVariable) {
    && (forall m, n :: 0 <= m < n < |rw.readSet| ==> rw.readSet[m].slot != rw.readSet[n].slot)
    && (forall m, n :: 0 <= m < n < |rw.writeSet| ==> rw.writeSet[m].slot != rw.writeSet[n].slot)
    && (forall m :: 0 <= m < |rw.readSet| ==> rw.readSet[m].value == r.storage(SlotKey(rw.address, rw.readSet[m].slot)))
    && (forall j :: 0 <= j < |rw.writeSet| ==>
          ReadAs(rw, rw.writeSet[j].slot, rw.writeSet[j].oldValue)
              && rw.writeSet[j].oldValue == r.storage(SlotKey(rw.address, rw.writeSet[j].slot)))
  }

  /** A slot of the address was read or written, or its balance ends up different, judged
      by the footprint and the plain map. */
  ghost predicate Concerned(r: Remote, ops: seq<Op>, a: Address) {
    (exists k :: k in FootprintOf(ops).now.read && k.addr == a) || PlainSteps(r, ops).0.now.balance(a) != r.balance(a)
  }

  /** The entry lists exactly the slots read and the slots written at its address, each
      written one with its value in the plain map. */
  ghost predicate ListsFootprint(r: Remote, ops: seq<Op>, rw: RwVariable) {
    && (forall s :: ReadsSlot(rw, s) <==> SlotKey(rw.address, s) in FootprintOf(ops).now.read)
    && (forall s :: WritesSlot(rw, s) <==> SlotKey(rw.address, s) in FootprintOf(ops).now.written)
    && (forall j :: 0 <= j < |rw.writeSet| ==>
          rw.writeSet[j].newValue == PlainSteps(r, ops).0.now.storage(SlotKey(rw.address, rw.writeSet[j].slot)))
  }

  /** In every simulation, reverts included: there is one entry for each address with a
      slot read or written or a balance changed, and no other. An entry names the shard of
      its address and lists exactly the slots read and the slots written there; no slot
      twice, every read with the shard's value, every written slot also read, with the old
      value the shard's and the new value the one the plain map ends with. Every slot that
      differs from the shard's value in the end is among the written ones. */
  lemma RwSetShape(r: Remote, ops: seq<Op>, rwSet: seq<RwVariable>)
    requires BuiltFrom(rwSet, Steps(r, ops).0)
    ensures forall i, j :: 0 <= i < j < |rwSet| ==> rwSet[i].address != rwSet[j].address
    ensures forall a :: HasEntry(rwSet, a) <==> Concerned(r, ops, a)
    ensures forall i :: 0 <= i < |rwSet| ==> WellRecorded(r, rwSet[i]) && ListsFootprint(r, ops, rwSet[i])
    ensures forall i :: 0 <= i < |rwSet| ==> rwSet[i].shardNum == ShardOf(rwSet[i].address)
    ensures forall k :: PlainSteps(r, ops).0.now.storage(k) != r.storage(k) ==> k in FootprintOf(ops).now.written
  {
    var sim := Steps(r, ops).0;
    StepsInv(r, ops);
    SimulationRefinesPlainMap(r, ops);
    RecordedSlots(r, ops);
    var cache: Values, writes: Values, olds: Values :|
      && Flattens(cache, sim.cache) && Flattens(writes, sim.writes) && Flattens(olds, sim.olds) && NoEmpty(cache)
          && NoEmpty(writes)
      && Lists(rwSet, cache.Keys + writes.Keys + BalanceChanges(sim.accounts), cache, writes, olds)
      && (forall i :: 0 <= i < |rwSet| ==> rwSet[i].shardNum == ShardOf(rwSet[i].address));
    forall i | 0 <= i < |rwSet| ensures WellRecorded(r, rwSet[i]) && ListsFootprint(r, ops, rwSet[i]) {
      EntryRecorded(r, sim, cache, writes, olds, rwSet[i]);
      EntryFootprint(r, ops, cache, writes, olds, rwSet[i]);
    }
    forall a ensures HasEntry(rwSet, a) <==> Concerned(r, ops, a) {
      ConcernedKeys(r, ops, cache, writes, a);
    }
  }

  lemma ConcernedKeys(r: Remote, ops: seq<Op>, cache: Values, writes: Values, a: Address)
    requires var sim := Steps(r, ops).0;
             Flattens(cache, sim.cache) && Flattens(writes, sim.writes) && NoEmpty(cache) && NoEmpty(writes)
    ensures a in cache.Keys + writes.Keys + BalanceChanges(Steps(r, ops).0.accounts) <==> Concerned(r, ops, a)
  {
    var sim := Steps(r, ops).0;
    StepsInv(r, ops);
    SimulationRefinesPlainMap(r, ops);
    RecordedSlots(r, ops);
    if a in cache {
      var s :| s in cache[a];
      assert SlotKey(a, s) in sim.cache;
    }
    if a in writes {
      var s :| s in writes[a];
      assert SlotKey(a, s) in sim.writes && SlotKey(a, s) in sim.cache;
    }
    if k :| k in sim.cache && k.addr == a {
      assert k.slot in Inner(cache, k.addr);
    }
    assert a in BalanceChanges(sim.accounts) <==> PlainSteps(r, ops).0.now.balance(a) != r.balance(a);
  }

  lemma EntryFootprint(r: Remote, ops: seq<Op>, cache: Values, writes: Values, olds: Values, rw: RwVariable)
    requires Flattens(cache, Steps(r, ops).0.cache) && Flattens(writes, Steps(r, ops).0.writes)
    requires EntryOf(rw, cache, writes, olds)
    ensures ListsFootprint(r, ops, rw)
  {
    var sim, a := Steps(r, ops).0, rw.address;
    SimulationRefinesPlainMap(r, ops);
    RecordedSlots(r, ops);
    forall s ensures ReadsSlot(rw, s) <==> SlotKey(a, s) in FootprintOf(ops).now.read {
      assert SlotKey(a, s) in sim.cache <==> s in Inner(cache, a);
    }
    forall s ensures WritesSlot(rw, s) <==> SlotKey(a, s) in FootprintOf(ops).now.written {
      assert SlotKey(a, s) in sim.writes <==> s in Inner(writes, a);
    }
    forall j | 0 <= j < |rw.writeSet|
      ensures rw.writeSet[j].newValue == PlainSteps(r, ops).0.now.storage(SlotKey(a, rw.writeSet[j].slot))
    {
      assert SlotKey(a, rw.writeSet[j].slot) in sim.writes;
    }
  }

  lemma EntryRecorded(r: Remote, sim: Sim, cache: Values, writes: Values, olds: Values, rw: RwVariable)
    requires SimInv(r, sim) && Flattens(cache, sim.cache) && Flattens(writes, sim.writes) && Flattens(olds, sim.olds)
    requires EntryOf(rw, cache, writes, olds)
    ensures WellRecorded(r, rw)
  {
    forall m | 0 <= m < |rw.readSet| ensures rw.readSet[m].value == r.storage(SlotKey(rw.address, rw.readSet[m].slot)) {
      var k := SlotKey(rw.address, rw.readSet[m].slot);
      assert k in sim.cache && sim.cache[k] == Inner(cache, rw.address)[k.slot];
    }
    forall j | 0 <= j < |rw.writeSet|
      ensures ReadAs(rw, rw.writeSet[j].slot, rw.writeSet[j].oldValue)
          && rw.writeSet[j].oldValue == r.storage(SlotKey(rw.address, rw.writeSet[j].slot))
    {
      WrittenItem(r, sim, cache, writes, olds, rw, j);
    }
  }

  lemma WrittenItem(r: Remote, sim: Sim, cache: Values, writes: Values, olds: Values, rw: RwVariable, j: nat)
    requires SimInv(r, sim) && Flattens(cache, sim.cache) && Flattens(writes, sim.writes) && Flattens(olds, sim.olds)
    requires EntryOf(rw, cache, writes, olds) && j < |rw.writeSet|
    ensures ReadAs(rw, rw.writeSet[j].slot, rw.writeSet[j].oldValue)
    ensures rw.writeSet[j].oldValue == r.storage(SlotKey(rw.address, rw.writeSet[j].slot))
  {
    var k := SlotKey(rw.address, rw.writeSet[j].slot);
    assert k in sim.writes;
    assert k in sim.cache && sim.cache[k] == r.storage(k);
    assert k in sim.olds && sim.olds[k] == r.storage(k);
    assert k.slot in Inner(cache, rw.address).Keys;
    var m :| 0 <= m < |rw.readSet| && rw.readSet[m].slot == k.slot;
    assert rw.readSet[m].value == Inner(cache, rw.address)[k.slot];
  }

  /** A transaction that carries a simulated read/write set meets the condition serial
      equivalence asks for: on every shard, what it writes it also reads. */
  lemma SimulatedWritesAreRead(r: Remote, ops: seq<Op>, tx: CrossShardTx)
    requires BuiltFrom(tx.rwSet, Steps(r, ops).0)
    ensures WritesRead(tx)
  {
    forall i | 0 <= i < |tx.rwSet| ensures SelfContained(tx.rwSet[i]) {
      forall s | WritesSlot(tx.rwSet[i], s) ensures ReadsSlot(tx.rwSet[i], s) {
        var j :| 0 <= j < |tx.rwSet[i].writeSet| && tx.rwSet[i].writeSet[j].slot == s;
        RwSetShape(r, ops, tx.rwSet);
        assert WellRecorded(r, tx.rwSet[i]) && ReadAs(tx.rwSet[i], s, tx.rwSet[i].writeSet[j].oldValue);
      }
    }
    forall s ensures WriteKeys(LocalRwSet(tx.rwSet, s)) <= ReadKeys(LocalRwSet(tx.rwSet, s)) {
      LocalContained(tx.rwSet, s);
    }
  }

  /** If the simulation leaves the recipient with a balance other than the fetched one,
      the recipient's shard is involved, so the transfer cannot stray. */
  lemma SimulatedTransferArrives(r: Remote, ops: seq<Op>, tx: CrossShardTx)
    requires BuiltFrom(tx.rwSet, Steps(r, ops).0)
    requires PlainSteps(r, ops).0.now.balance(tx.to) != r.balance(tx.to)
    ensures Involved(tx, ShardOf(tx.to)) && !Strayed(tx)
  {
    var sim := Steps(r, ops).0;
    StepsInv(r, ops);
    SimulationRefinesPlainMap(r, ops);
    assert tx.to in BalanceChanges(sim.accounts);
    assert HasEntry(tx.rwSet, tx.to);
    var i :| 0 <= i < |tx.rwSet| && tx.rwSet[i].address == tx.to;
    assert tx.rwSet[i].shardNum == ShardOf(tx.to);
    LocalRwSetNonEmpty(tx.rwSet, ShardOf(tx.to));
  }
}
