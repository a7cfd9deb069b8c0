/** The two state databases that record read/write sets, as objects: nested maps that
    are filled in place, and the loops that turn them into a read/write set. */
module StateDB {
  import opened Protocol
  import opened NestedMaps
  import opened EvmState
  import opened Simulation
  import opened ReadSets

  type Slots = map<Slot, Word>
  type Values = Nested<Word>

  // ---------------------------------------------------------------------------
  // Read/write sets
  // ---------------------------------------------------------------------------

  /** items lists the given slots of the map, each once. */
  ghost predicate ListsReads(items: seq<ReadSetItem>, slots: Slots, which: set<Slot>) {
    && (forall i :: 0 <= i < |items| ==> items[i].slot in which && items[i].slot in slots
                                         && items[i].value == slots[items[i].slot])
    && (forall i, j :: 0 <= i < j < |items| ==> items[i].slot != items[j].slot)
    && (forall s :: s in which ==> exists i :: 0 <= i < |items| && items[i].slot == s)
  }

  function OldValue(olds: Slots, s: Slot): Word {
    if s in olds then olds[s] else 0
  }

  ghost predicate ListsWrites(items: seq<WriteSetItem>, slots: Slots, olds: Slots, which: set<Slot>) {
    && (forall i :: 0 <= i < |items| ==>
          items[i].slot in which && items[i].slot in slots && items[i].newValue == slots[items[i].slot]
              && items[i].oldValue == OldValue(olds, items[i].slot))
    && (forall i, j :: 0 <= i < j < |items| ==> items[i].slot != items[j].slot)
    && (forall s :: s in which ==> exists i :: 0 <= i < |items| && items[i].slot == s)
  }

  lemma ListOneRead(items: seq<ReadSetItem>, slots: Slots, which: set<Slot>, s: Slot)
    requires ListsReads(items, slots, which) && s in slots && s !in which
    ensures ListsReads(items + [ReadSetItem(s, slots[s])], slots, which + {s})
  {
    var more := items + [ReadSetItem(s, slots[s])];
    assert more[|items|].slot == s;
    forall q | q in which ensures exists i :: 0 <= i < |more| && more[i].slot == q {
      var i :| 0 <= i < |items| && items[i].slot == q;
      assert more[i].slot == q;
    }
  }

  lemma ListOneWrite(items: seq<WriteSetItem>, slots: Slots, olds: Slots, which: set<Slot>, s: Slot)
    requires ListsWrites(items, slots, olds, which) && s in slots && s !in which
    ensures ListsWrites(items + [WriteSetItem(s, OldValue(olds, s), slots[s])], slots, olds, which + {s})
  {
    var more := items + [WriteSetItem(s, OldValue(olds, s), slots[s])];
    assert more[|items|].slot == s;
    forall q | q in which ensures exists i :: 0 <= i < |more| && more[i].slot == q {
      var i :| 0 <= i < |items| && items[i].slot == q;
      assert more[i].slot == q;
    }
  }

  method BuildReads(slots: Slots) returns (items: seq<ReadSetItem>)
    ensures ListsReads(items, slots, slots.Keys)
  {
    items := [];
    var left := slots.Keys;
    while left != {}
      invariant left <= slots.Keys
      invariant ListsReads(items, slots, slots.Keys - left)
      decreases left
    {
      var s :| s in left;
      ListOneRead(items, slots, slots.Keys - left, s);
      items := items + [ReadSetItem(s, slots[s])];
      assert slots.Keys - (left - {s}) == (slots.Keys - left) + {s};
      left := left - {s};
    }
    assert slots.Keys - left == slots.Keys;
  }

  method BuildWrites(slots: Slots, olds: Slots) returns (items: seq<WriteSetItem>)
    ensures ListsWrites(items, slots, olds, slots.Keys)
  {
    items := [];
    var left := slots.Keys;
    while left != {}
      invariant left <= slots.Keys
      invariant ListsWrites(items, slots, olds, slots.Keys - left)
      decreases left
    {
      var s :| s in left;
      ListOneWrite(items, slots, olds, slots.Keys - left, s);
      items := items + [WriteSetItem(s, OldValue(olds, s), slots[s])];
      assert slots.Keys - (left - {s}) == (slots.Keys - left) + {s};
      left := left - {s};
    }
    assert slots.Keys - left == slots.Keys;
  }

  ghost predicate HasEntry(rwSet: seq<RwVariable>, a: Address) {
    exists i :: 0 <= i < |rwSet| && rwSet[i].address == a
  }

  /** An entry lists exactly what was read and written at its address. */
  ghost predicate EntryOf(rw: RwVariable, cache: Values, writes: Values, olds: Values) {
    var a := rw.address;
    && ListsReads(rw.readSet, Inner(cache, a), Inner(cache, a).Keys)
    && ListsWrites(rw.writeSet, Inner(writes, a), Inner(olds, a), Inner(writes, a).Keys)
  }

  /** One entry for each of the addresses. */
  ghost predicate Lists(rwSet: seq<RwVariable>, addrs: set<Address>, cache: Values, writes: Values, olds: Values) {
    && (forall i, j :: 0 <= i < j < |rwSet| ==> rwSet[i].address != rwSet[j].address)
    && (forall a :: a in addrs <==> HasEntry(rwSet, a))
    && (forall i :: 0 <= i < |rwSet| ==> EntryOf(rwSet[i], cache, writes, olds))
  }

  lemma ListsMore(rwSet: seq<RwVariable>, addrs: set<Address>, cache: Values, writes: Values, olds: Values,
                  rw: RwVariable)
    requires Lists(rwSet, addrs, cache, writes, olds) && rw.address !in addrs && EntryOf(rw, cache, writes, olds)
    ensures Lists(rwSet + [rw], addrs + {rw.address}, cache, writes, olds)
  {
    var more := rwSet + [rw];
    assert more[|rwSet|] == rw;
    forall i | 0 <= i < |rwSet| ensures rwSet[i].address in addrs { assert HasEntry(rwSet, rwSet[i].address); }
    forall a ensures a in addrs + {rw.address} <==> HasEntry(more, a) {
      if a in addrs {
        var i :| 0 <= i < |rwSet| && rwSet[i].address == a;
        assert more[i].address == a;
      }
      if i :| 0 <= i < |more| && more[i].address == a {
        if i < |rwSet| { assert rwSet[i].address == a; }
      }
    }
  }

  /** rwSet is a read/write set built from simulation state sim. */
  ghost predicate BuiltFrom(rwSet: seq<RwVariable>, sim: Sim) {
    exists cache: Values, writes: Values, olds: Values ::
      && Flattens(cache, sim.cache) && Flattens(writes, sim.writes) && Flattens(olds, sim.olds) && NoEmpty(cache)
          && NoEmpty(writes)
      && Lists(rwSet, cache.Keys + writes.Keys + BalanceChanges(sim.accounts), cache, writes, olds)
      && (forall i :: 0 <= i < |rwSet| ==> rwSet[i].shardNum == ShardOf(rwSet[i].address))
  }

  // ---------------------------------------------------------------------------
  // The orchestrator's simulation state
  // ---------------------------------------------------------------------------

  datatype SavedState = SavedState(accounts: map<Address, Account>, cache: Values, writes: Values)

  ghost predicate SavedAs(s: SavedState, snap: Snap) {
    s.accounts == snap.accounts && Flattens(s.cache, snap.cache) && Flattens(s.writes, snap.writes)
        && NoEmpty(s.cache) && NoEmpty(s.writes)
  }

  class SimulationStateDB {
    const remote: Remote
    var accounts: map<Address, Account>
    var cache: Values
    var writes: Values
    var writeOlds: Values
    var snapshots: seq<SavedState>
    ghost var model: Sim

    ghost predicate Valid()
      reads this
    {
      && model.accounts == accounts
      && Flattens(cache, model.cache)
      && Flattens(writes, model.writes)
      && Flattens(writeOlds, model.olds)
      && NoEmpty(cache) && NoEmpty(writes)
      && |snapshots| == |model.snapshots|
      && forall i :: 0 <= i < |snapshots| ==> SavedAs(snapshots[i], model.snapshots[i])
    }

    constructor (remote: Remote)
      ensures Valid() && model == NEW_SIM && this.remote == remote
    {
      this.remote := remote;
      accounts, cache, writes, writeOlds, snapshots := map[], map[], map[], map[], [];
      model := NEW_SIM;
    }

    method GetOrFetchAccount(a: Address) returns (acct: Account)
      requires Valid()
      modifies this`accounts, this`model
      ensures Valid() && model == Fetched(remote, old(model), a)
      ensures a in accounts && acct == accounts[a]
    {
      if a !in accounts {
        accounts := accounts[a := Account(remote.balance(a), remote.balance(a))];
      }
      acct := accounts[a];
      model := Fetched(remote, model, a);
    }

    method GetState(k: SlotKey) returns (val: Word)
      requires Valid()
      modifies this`accounts, this`cache, this`model
      ensures Valid() && (model, val) == Read(remote, old(model), k)
    {
      if k.addr in writes && k.slot in writes[k.addr] {
        return writes[k.addr][k.slot];
      }
      if k.addr in cache && k.slot in cache[k.addr] {
        return cache[k.addr][k.slot];
      }
      assert k !in model.writes && k !in model.cache;
      var _ := GetOrFetchAccount(k.addr);
      val := remote.storage(k);
      FlattensPut(cache, model.cache, k, val);
      cache := StoreNested(cache, k, val);
      model := model.(cache := model.cache[k := val]);
    }

    method GetBalance(a: Address) returns (balance: nat)
      requires Valid()
      modifies this`accounts, this`model
      ensures Valid() && (model, One(balance)) == Step(remote, old(model), Op.GetBalance(a))
    {
      var acct := GetOrFetchAccount(a);
      balance := acct.balance;
    }

    method GetStateAndCommittedState(k: SlotKey) returns (current: Word, committed: Word)
      requires Valid()
      modifies this`accounts, this`cache, this`model
      ensures Valid() && (model, Two(current, committed)) == Step(remote, old(model), Op.GetBoth(k))
    {
      current := GetState(k);
      if k.addr in cache && k.slot in cache[k.addr] {
        return current, cache[k.addr][k.slot];
      }
      committed := current;
    }

    /** Only the first old value of a slot is kept. */
    method RememberOld(k: SlotKey, prev: Word)
      requires Valid()
      modifies this`writeOlds, this`model
      ensures Valid() && model ==
          old(model).(olds := if k in old(model).olds then old(model).olds else old(model).olds[k := prev])
    {
      if !(k.addr in writeOlds && k.slot in writeOlds[k.addr]) {
        FlattensPut(writeOlds, model.olds, k, prev);
        writeOlds := StoreNested(writeOlds, k, prev);
        model := model.(olds := model.olds[k := prev]);
      }
    }

    method Overlay(k: SlotKey, value: Word)
      requires Valid()
      modifies this`writes, this`model
      ensures Valid() && model == old(model).(writes := old(model).writes[k := value])
    {
      FlattensPut(writes, model.writes, k, value);
      writes := StoreNested(writes, k, value);
      model := model.(writes := model.writes[k := value]);
    }

    method SetState(k: SlotKey, value: Word) returns (prev: Word)
      requires Valid()
      modifies this
      ensures Valid() && (model, prev) == Write(remote, old(model), k, value)
    {
      prev := GetState(k);
      RememberOld(k, prev);
      Overlay(k, value);
    }

    method Snapshot() returns (id: nat)
      requires Valid()
      modifies this`snapshots, this`model
      ensures Valid() && (model, One(id)) == Step(remote, old(model), Op.Snapshot)
    {
      snapshots := snapshots + [SavedState(accounts, cache, writes)];
      id := |snapshots| - 1;
      model := Step(remote, model, Op.Snapshot).0;
    }

    method RevertToSnapshot(id: nat)
      requires Valid()
      modifies this
      ensures Valid() && model == Step(remote, old(model), Revert(id)).0
    {
      if id >= |snapshots| {
        return;
      }
      var snap := snapshots[id];
      assert SavedAs(snap, model.snapshots[id]);
      accounts, cache, writes := snap.accounts, snap.cache, snap.writes;
      snapshots := snapshots[..id];
      model := Step(remote, model, Revert(id)).0;
    }

    method AddBalance(a: Address, amount: nat) returns (prev: nat)
      requires Valid()
      modifies this`accounts, this`model
      ensures Valid() && (model, One(prev)) == Step(remote, old(model), Op.AddBalance(a, amount))
    {
      var acct := GetOrFetchAccount(a);
      prev := acct.balance;
      accounts := accounts[a := acct.(balance := (prev + amount) % U256)];
      model := model.(accounts := accounts);
    }

    method SubBalance(a: Address, amount: nat) returns (prev: nat)
      requires Valid()
      modifies this`accounts, this`model
      ensures Valid() && (model, One(prev)) == Step(remote, old(model), Op.SubBalance(a, amount))
    {
      var acct := GetOrFetchAccount(a);
      prev := acct.balance;
      accounts := accounts[a := acct.(balance := (prev - amount) % U256)];
      model := model.(accounts := accounts);
    }

    method BuildRwSet() returns (rwSet: seq<RwVariable>)
      requires Valid()
      ensures BuiltFrom(rwSet, model)
    {
      var addrSet := cache.Keys + writes.Keys + BalanceChanges(accounts);
      var left := addrSet;
      rwSet := [];
      while left != {}
        invariant left <= addrSet
        invariant Lists(rwSet, addrSet - left, cache, writes, writeOlds)
        invariant forall i :: 0 <= i < |rwSet| ==> rwSet[i].shardNum == ShardOf(rwSet[i].address)
        decreases left
      {
        var a :| a in left;
        var readSet := BuildReads(Inner(cache, a));
        var writeSet := BuildWrites(Inner(writes, a), Inner(writeOlds, a));
        ListsMore(rwSet, addrSet - left, cache, writes, writeOlds, RwVariable(a, ShardOf(a), readSet, writeSet));
        rwSet := rwSet + [RwVariable(a, ShardOf(a), readSet, writeSet)];
        assert addrSet - (left - {a}) == (addrSet - left) + {a};
        left := left - {a};
      }
      assert addrSet - left == addrSet;
    }
  }

  function BalanceChanges(accounts: map<Address, Account>): set<Address> {
    set a | a in accounts && accounts[a].balance != accounts[a].original
  }

  // ---------------------------------------------------------------------------
  // The shard's tracking state
  // ---------------------------------------------------------------------------

  class TrackingStateDB {
    const committed: map<SlotKey, Word>
    var inner: map<SlotKey, Word>
    var accessed: set<Address>
    var storageReads: Values
    var storageWrites: Values
    ghost var model: Tracker

    ghost predicate Valid()
      reads this
    {
      model.inner == inner && Flattens(storageReads, model.cache) && Flattens(storageWrites, model.writes)
    }

    constructor (storage: map<SlotKey, Word>)
      ensures Valid() && model == Tracker(storage, map[], map[]) && committed == storage && accessed == {}
    {
      committed, inner, accessed, storageReads, storageWrites := storage, storage, {}, map[], map[];
      model := Tracker(storage, map[], map[]);
    }

    /** Record the first read of a slot. */
    method RecordRead(k: SlotKey)
      requires Valid()
      modifies this`storageReads, this`model
      ensures Valid() && model == Recorded(old(model), k)
    {
      if !(k.addr in storageReads && k.slot in storageReads[k.addr]) {
        FlattensPut(storageReads, model.cache, k, Load(inner, k));
        storageReads := StoreNested(storageReads, k, Load(inner, k));
        model := model.(cache := model.cache[k := Load(inner, k)]);
      }
    }

    method GetState(k: SlotKey) returns (value: Word)
      requires Valid()
      modifies this
      ensures Valid() && (model, One(value)) == TrackStep(committed, old(model), Op.GetState(k))
      ensures accessed == old(accessed) + {k.addr}
    {
      accessed := accessed + {k.addr};
      value := Load(inner, k);
      RecordRead(k);
    }

    method GetStateAndCommittedState(k: SlotKey) returns (value: Word, original: Word)
      requires Valid()
      modifies this
      ensures Valid() && (model, Two(value, original)) == TrackStep(committed, old(model), Op.GetBoth(k))
      ensures accessed == old(accessed) + {k.addr}
    {
      accessed := accessed + {k.addr};
      value := Load(inner, k);
      original := Load(committed, k);
      RecordRead(k);
    }

    method SetState(k: SlotKey, value: Word) returns (prev: Word)
      requires Valid()
      modifies this
      ensures Valid() && (model, One(prev)) == TrackStep(committed, old(model), Op.SetState(k, value))
      ensures accessed == old(accessed) + {k.addr}
    {
      accessed := accessed + {k.addr};
      RecordRead(k);
      FlattensPut(storageWrites, model.writes, k, value);
      storageWrites := StoreNested(storageWrites, k, value);
      prev := Load(inner, k);
      inner := inner[k := value];
      model := model.(inner := inner, writes := model.writes[k := value]);
    }

    method BuildRwSet(shardNum: int) returns (rwSet: seq<RwVariable>)
      ensures Lists(rwSet, storageReads.Keys + storageWrites.Keys, storageReads, storageWrites, storageReads)
      ensures forall i :: 0 <= i < |rwSet| ==> rwSet[i].shardNum == shardNum
    {
      var addrSet := storageReads.Keys + storageWrites.Keys;
      var left := addrSet;
      rwSet := [];
      while left != {}
        invariant left <= addrSet
        invariant Lists(rwSet, addrSet - left, storageReads, storageWrites, storageReads)
        invariant forall i :: 0 <= i < |rwSet| ==> rwSet[i].shardNum == shardNum
        decreases left
      {
        var a :| a in left;
        var readSet := BuildReads(Inner(storageReads, a));
        var writeSet := BuildWrites(Inner(storageWrites, a), Inner(storageReads, a));
        ListsMore(rwSet, addrSet - left, storageReads, storageWrites, storageReads,
            RwVariable(a, shardNum, readSet, writeSet));
        rwSet := rwSet + [RwVariable(a, shardNum, readSet, writeSet)];
        assert addrSet - (left - {a}) == (addrSet - left) + {a};
        left := left - {a};
      }
      assert addrSet - left == addrSet;
    }
  }
}
