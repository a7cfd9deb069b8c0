/** Slot locks: a map of maps with per-slot locking and unlocking, a three-phase release
    of everything a transaction holds, and the validation of a read set that locks as it
    goes and rolls back on the first failure. */
module SlotLocks {
  import opened Protocol
  import opened NestedMaps
  import opened EvmState
  import opened ShardSpec

  datatype LockError =
    | Mismatch(key: SlotKey, expected: Word, actual: Word)
    | Held(key: SlotKey, holder: TxId)

  function TakeNested<V>(m: Nested<V>, k: SlotKey): Nested<V> {
    if k.addr in m then m[k.addr := m[k.addr] - {k.slot}] else m
  }

  lemma FlattensTake<V>(m: Nested<V>, f: map<SlotKey, V>, k: SlotKey)
    requires Flattens(m, f)
    ensures Flattens(TakeNested(m, k), f - {k})
  {
    var m', f' := TakeNested(m, k), f - {k};
    forall q ensures (q in f' <==> q.slot in Inner(m', q.addr)) && (q in f' ==> f'[q] == Inner(m', q.addr)[q.slot]) {
      assert q in f <==> q.slot in Inner(m, q.addr);
      if q.addr == k.addr && q.slot == k.slot { assert q == k; }
    }
  }

  lemma FlattensDrop<V>(m: Nested<V>, f: map<SlotKey, V>, a: Address)
    requires Flattens(m, f) && Inner(m, a) == map[]
    ensures Flattens(m - {a}, f)
  {
    forall q: SlotKey ensures Inner(m - {a}, q.addr) == Inner(m, q.addr) {
    }
  }

  // ---------------------------------------------------------------------------
  // Positions in a read/write set
  // ---------------------------------------------------------------------------

  lemma {:induction false} ReadsOfConcat(a: Address, xs: seq<ReadSetItem>, ys: seq<ReadSetItem>)
    ensures ReadsOf(a, xs + ys) == ReadsOf(a, xs) + ReadsOf(a, ys)
  {
    if xs == [] {
      assert xs + ys == ys;
    } else {
      assert (xs + ys)[1..] == xs[1..] + ys;
      ReadsOfConcat(a, xs[1..], ys);
    }
  }

  lemma {:induction false} ReadEntriesConcat(xs: seq<RwVariable>, ys: seq<RwVariable>)
    ensures ReadEntries(xs + ys) == ReadEntries(xs) + ReadEntries(ys)
  {
    if xs == [] {
      assert xs + ys == ys;
    } else {
      assert (xs + ys)[1..] == xs[1..] + ys;
      ReadEntriesConcat(xs[1..], ys);
    }
  }

  /** The entries before item j of variable i. */
  function Before(rwSet: seq<RwVariable>, i: nat, j: nat): seq<Entry>
    requires i < |rwSet| && j <= |rwSet[i].readSet|
  {
    ReadEntries(rwSet[..i]) + ReadsOf(rwSet[i].address, rwSet[i].readSet[..j])
  }

  lemma NextItem(rwSet: seq<RwVariable>, i: nat, j: nat)
    requires i < |rwSet| && j < |rwSet[i].readSet|
    ensures var e := Entry(SlotKey(rwSet[i].address, rwSet[i].readSet[j].slot), rwSet[i].readSet[j].value);
            && Before(rwSet, i, j + 1) == Before(rwSet, i, j) + [e]
            && Before(rwSet, i, j) + [e] <= ReadEntries(rwSet)
  {
    var a, items := rwSet[i].address, rwSet[i].readSet;
    var e := Entry(SlotKey(a, items[j].slot), items[j].value);
    assert items[..j + 1] == items[..j] + [items[j]];
    ReadsOfConcat(a, items[..j], [items[j]]);
    assert [items[j]][1..] == [];
    assert items == items[..j + 1] + items[j + 1..];
    ReadsOfConcat(a, items[..j + 1], items[j + 1..]);
    assert rwSet == rwSet[..i] + ([rwSet[i]] + rwSet[i + 1..]);
    ReadEntriesConcat(rwSet[..i], [rwSet[i]] + rwSet[i + 1..]);
    assert ([rwSet[i]] + rwSet[i + 1..])[1..] == rwSet[i + 1..];
  }

  lemma NextVariable(rwSet: seq<RwVariable>, i: nat)
    requires i < |rwSet|
    ensures ReadEntries(rwSet[..i + 1]) == Before(rwSet, i, |rwSet[i].readSet|)
    ensures Before(rwSet, i, 0) == ReadEntries(rwSet[..i])
  {
    assert rwSet[..i + 1] == rwSet[..i] + [rwSet[i]];
    ReadEntriesConcat(rwSet[..i], [rwSet[i]]);
    assert [rwSet[i]][1..] == [];
    assert rwSet[i].readSet[..|rwSet[i].readSet|] == rwSet[i].readSet;
    assert rwSet[i].readSet[..0] == [];
    assert ReadsOf(rwSet[i].address, rwSet[i].readSet) + [] == ReadsOf(rwSet[i].address, rwSet[i].readSet);
  }

  lemma {:induction false} PassCountIs(storage: map<SlotKey, Word>, slots: map<SlotKey, TxId>, t: TxId,
                                       entries: seq<Entry>, n: nat)
    requires n <= |entries| && forall i :: 0 <= i < n ==> Passes(storage, slots, t, entries[i])
    requires n < |entries| ==> !Passes(storage, slots, t, entries[n])
    ensures PassCount(storage, slots, t, entries) == n
    decreases n
  {
    if n > 0 {
      PassCountIs(storage, slots, t, entries[1..], n - 1);
    }
  }

  lemma AcquireOne(slots: map<SlotKey, TxId>, t: TxId, entries: seq<Entry>, e: Entry)
    ensures Keys(entries + [e]) == Keys(entries) + {e.key}
    ensures Acquire(slots, t, Keys(entries + [e])) == Acquire(slots, t, Keys(entries))[e.key := t]
  {
    var more := entries + [e];
    assert more[|entries|] == e;
    forall k ensures k in Keys(more) <==> k in Keys(entries) || k == e.key {
      if i :| 0 <= i < |entries| && entries[i].key == k { assert more[i].key == k; }
    }
  }

  function AsSet(keys: seq<SlotKey>): set<SlotKey> {
    set k | k in keys
  }

  lemma AsSetNext(keys: seq<SlotKey>, i: nat)
    requires i < |keys|
    ensures AsSet(keys[..i + 1]) == AsSet(keys[..i]) + {keys[i]}
  {
    assert keys[..i + 1] == keys[..i] + [keys[i]];
  }

  lemma ReleaseMore(slots: map<SlotKey, TxId>, t: TxId, keys: set<SlotKey>, k: SlotKey)
    ensures ReleaseSome(ReleaseSome(slots, t, keys), t, {k}) == ReleaseSome(slots, t, keys + {k})
  {
  }

  lemma ReleaseOne(slots: map<SlotKey, TxId>, t: TxId, k: SlotKey)
    ensures ReleaseSome(slots, t, {k}) == if k in slots && slots[k] == t then slots - {k} else slots
  {
  }

  lemma KeysOfKeys(entries: seq<Entry>, keys: seq<SlotKey>)
    requires |keys| == |entries| && forall i :: 0 <= i < |keys| ==> keys[i] == entries[i].key
    ensures Keys(entries) == AsSet(keys)
  {
    forall k ensures k in Keys(entries) <==> k in keys {
      if k in keys {
        var i :| 0 <= i < |keys| && keys[i] == k;
        assert entries[i].key == k;
      }
    }
  }

  // ---------------------------------------------------------------------------
  // The table as an object
  // ---------------------------------------------------------------------------

  class SlotTable {
    var slotLocks: Nested<TxId>
    ghost var flat: map<SlotKey, TxId>

    ghost predicate Valid()
      reads this
    {
      Flattens(slotLocks, flat) && NoEmpty(slotLocks)
    }

    constructor ()
      ensures Valid() && flat == map[]
    {
      slotLocks := map[];
      flat := map[];
    }

    method IsAddressLocked(a: Address) returns (b: bool)
      requires Valid()
      ensures b <==> AddressLocked(flat, a)
    {
      b := a in slotLocks && |slotLocks[a]| > 0;
      if b {
        var s :| s in slotLocks[a];
        assert SlotKey(a, s) in flat;
      }
    }

    /** Fails, changing nothing, exactly when another transaction holds the slot. */
    method LockSlot(t: TxId, k: SlotKey) returns (err: Option<LockError>)
      requires Valid()
      modifies this
      ensures Valid()
      ensures err == if k in old(flat) && old(flat)[k] != t then Some(Held(k, old(flat)[k])) else None
      ensures flat == if err.Some? then old(flat) else old(flat)[k := t]
    {
      if k.addr in slotLocks && k.slot in slotLocks[k.addr] {
        assert k in flat && flat[k] == slotLocks[k.addr][k.slot];
        if slotLocks[k.addr][k.slot] != t {
          return Some(Held(k, slotLocks[k.addr][k.slot]));
        }
        assert flat[k := t] == flat;
        return None;
      }
      assert k !in flat;
      FlattensPut(slotLocks, flat, k, t);
      slotLocks := StoreNested(slotLocks, k, t);
      flat := flat[k := t];
      err := None;
    }

    /** Releases the slot if t holds it. */
    method TakeSlot(k: SlotKey)
      requires Valid() && k.addr in slotLocks
      modifies this
      ensures Valid() && flat == old(flat) - {k}
    {
      FlattensTake(slotLocks, flat, k);
      var taken: map<Slot, TxId> := slotLocks[k.addr] - {k.slot};
      slotLocks := slotLocks[k.addr := taken];
      flat := flat - {k};
      if |taken| == 0 {
        FlattensDrop(slotLocks, flat, k.addr);
        slotLocks := slotLocks - {k.addr};
      }
    }

    method UnlockSlot(t: TxId, k: SlotKey)
      requires Valid()
      modifies this
      ensures Valid() && flat == ReleaseSome(old(flat), t, {k})
    {
      ReleaseOne(flat, t, k);
      if k.addr !in slotLocks {
        assert k !in flat;
        return;
      }
      var holder := if k.slot in slotLocks[k.addr] then slotLocks[k.addr][k.slot] else EMPTY_ID;
      if holder == t {
        assert k !in flat ==> flat - {k} == flat;
        TakeSlot(k);
      }
    }

    /** Phase 1 of the release: the slots t holds at the addresses in the table. */
    method CollectSlots(t: TxId) returns (found: seq<SlotKey>)
      requires Valid()
      ensures forall k :: k in found <==> k in flat && flat[k] == t
    {
      found := [];
      var addrs := slotLocks.Keys;
      while addrs != {}
        invariant addrs <= slotLocks.Keys
        invariant forall k :: k in found <==> k in flat && flat[k] == t && k.addr !in addrs
        decreases addrs
      {
        var a :| a in addrs;
        ghost var before := found;
        var slots := slotLocks[a].Keys;
        while slots != {}
          invariant slots <= slotLocks[a].Keys
          invariant forall k :: k in found <==> k in before
                                                || (k.addr == a && k in flat && flat[k] == t && k.slot !in slots)
          decreases slots
        {
          var s :| s in slots;
          assert SlotKey(a, s) in flat && flat[SlotKey(a, s)] == slotLocks[a][s];
          if slotLocks[a][s] == t {
            found := found + [SlotKey(a, s)];
          }
          slots := slots - {s};
        }
        addrs := addrs - {a};
      }
    }

    /** Phase 2: delete the collected slots; inner maps may become empty. */
    method DeleteSlots(keys: seq<SlotKey>)
      requires Flattens(slotLocks, flat)
      modifies this
      ensures Flattens(slotLocks, flat) && flat == old(flat) - AsSet(keys)
    {
      for i := 0 to |keys|
        invariant Flattens(slotLocks, flat) && flat == old(flat) - AsSet(keys[..i])
      {
        var k := keys[i];
        FlattensTake(slotLocks, flat, k);
        if k.addr in slotLocks {
          var taken: map<Slot, TxId> := slotLocks[k.addr] - {k.slot};
          slotLocks := slotLocks[k.addr := taken];
        }
        flat := flat - {k};
        AsSetNext(keys, i);
      }
      assert keys[..|keys|] == keys;
    }

    /** Phase 3: drop the inner maps that are now empty. */
    method DropEmpty()
      requires Flattens(slotLocks, flat)
      modifies this`slotLocks
      ensures Valid()
    {
      var gone := set a | a in slotLocks && |slotLocks[a]| == 0;
      ghost var start := gone;
      while gone != {}
        invariant Flattens(slotLocks, flat) && gone <= slotLocks.Keys
        invariant forall a :: a in slotLocks ==> (slotLocks[a] == map[] <==> a in gone)
        decreases gone
      {
        var a :| a in gone;
        FlattensDrop(slotLocks, flat, a);
        slotLocks := slotLocks - {a};
        gone := gone - {a};
      }
    }

    /** Releases exactly the slots t holds. */
    method UnlockAllSlotsForTx(t: TxId)
      requires Valid()
      modifies this
      ensures Valid() && flat == Release(old(flat), t)
    {
      var found := CollectSlots(t);
      DeleteSlots(found);
      DropEmpty();
      assert flat == Release(old(flat), t);
    }

    /** Undo: release the slots locked so far. */
    method Rollback(t: TxId, keys: seq<SlotKey>)
      requires Valid()
      modifies this
      ensures Valid() && flat == ReleaseSome(old(flat), t, AsSet(keys))
    {
      for i := 0 to |keys|
        invariant Valid() && flat == ReleaseSome(old(flat), t, AsSet(keys[..i]))
      {
        AsSetNext(keys, i);
        ReleaseMore(old(flat), t, AsSet(keys[..i]), keys[i]);
        UnlockSlot(t, keys[i]);
      }
      assert keys[..|keys|] == keys;
    }

    /** All or nothing: either every read item is current and free, and exactly its slots
        are locked in addition; or the first item that is not is reported and every slot
        locked on the way is released again (for a transaction that held none before,
        the table is as it was). Nobody else's locks change. */
    method ValidateAndLockReadSet(t: TxId, rwSet: seq<RwVariable>, storage: map<SlotKey, Word>)
        returns (err: Option<LockError>)
      requires Valid()
      modifies this
      ensures Valid()
      ensures var entries := ReadEntries(rwSet);
              var n := PassCount(storage, old(flat), t, entries);
              if n == |entries| then err.None? && flat == Acquire(old(flat), t, ReadKeys(rwSet))
              else
                && flat == ReleaseSome(old(flat), t, Keys(entries[..n]))
                && err == ItemError(storage, old(flat), t, entries[n])
    {
      var lockedSlots: seq<SlotKey> := [];
      ghost var done: seq<Entry> := [];
      ghost var entries := ReadEntries(rwSet);
      for i := 0 to |rwSet|
        invariant Valid() && done == ReadEntries(rwSet[..i])
        invariant Progress(old(flat), flat, storage, t, entries, done, lockedSlots)
      {
        NextVariable(rwSet, i);
        for j := 0 to |rwSet[i].readSet|
          invariant Valid() && done == Before(rwSet, i, j)
          invariant Progress(old(flat), flat, storage, t, entries, done, lockedSlots)
        {
          NextItem(rwSet, i, j);
          var key, expected := SlotKey(rwSet[i].address, rwSet[i].readSet[j].slot), rwSet[i].readSet[j].value;
          ghost var e := Entry(key, expected);
          assert entries[|done|] == e;
          ItemVerdict(old(flat), flat, storage, t, entries, done, lockedSlots, e);
          err := LockItem(t, key, expected, storage);
          if err.Some? {
            Stopped(old(flat), flat, storage, t, entries, done, lockedSlots);
            Rollback(t, lockedSlots);
            return;
          }
          ItemLocked(old(flat), storage, t, entries, done, lockedSlots, e);
          lockedSlots := lockedSlots + [key];
          done := done + [e];
        }
      }
      assert rwSet[..|rwSet|] == rwSet;
      PassCountIs(storage, old(flat), t, entries, |entries|);
      err := None;
    }

    /** One read item: compare its value, then try to lock its slot. */
    method LockItem(t: TxId, key: SlotKey, expected: Word, storage: map<SlotKey, Word>) returns (err: Option<LockError>)
      requires Valid()
      modifies this
      ensures Valid()
      ensures err == ItemError(storage, old(flat), t, Entry(key, expected))
      ensures flat == if err.Some? then old(flat) else old(flat)[key := t]
    {
      if Load(storage, key) != expected {
        return Some(Mismatch(key, expected, Load(storage, key)));
      }
      err := LockSlot(t, key);
    }
  }

  function ItemError(storage: map<SlotKey, Word>, slots: map<SlotKey, TxId>, t: TxId, e: Entry): Option<LockError> {
    if Load(storage, e.key) != e.value then Some(Mismatch(e.key, e.value, Load(storage, e.key)))
    else if e.key in slots && slots[e.key] != t then Some(Held(e.key, slots[e.key]))
    else None
  }

  /** The state of the validation loop after the items `done`. */
  ghost predicate Progress(before: map<SlotKey, TxId>, now: map<SlotKey, TxId>, storage: map<SlotKey, Word>, t: TxId,
                           entries: seq<Entry>, done: seq<Entry>, keys: seq<SlotKey>)
  {
    && done <= entries
    && now == Acquire(before, t, Keys(done))
    && (forall i :: 0 <= i < |done| ==> Passes(storage, before, t, done[i]))
    && |keys| == |done| && (forall i :: 0 <= i < |keys| ==> keys[i] == done[i].key)
  }

  /** The slots locked on the way make no difference to the next item. */
  lemma ItemVerdict(before: map<SlotKey, TxId>, now: map<SlotKey, TxId>, storage: map<SlotKey, Word>, t: TxId,
                    entries: seq<Entry>, done: seq<Entry>, keys: seq<SlotKey>, e: Entry)
    requires Progress(before, now, storage, t, entries, done, keys)
    ensures ItemError(storage, now, t, e) == ItemError(storage, before, t, e)
    ensures ItemError(storage, before, t, e).None? <==> Passes(storage, before, t, e)
  {
    if e.key in Keys(done) {
      var i :| 0 <= i < |done| && done[i].key == e.key;
      assert Passes(storage, before, t, done[i]);
    }
  }

  lemma ItemLocked(before: map<SlotKey, TxId>, storage: map<SlotKey, Word>, t: TxId,
                   entries: seq<Entry>, done: seq<Entry>, keys: seq<SlotKey>, e: Entry)
    requires Progress(before, Acquire(before, t, Keys(done)), storage, t, entries, done, keys)
    requires done + [e] <= entries && Passes(storage, before, t, e)
    ensures Progress(before, Acquire(before, t, Keys(done))[e.key := t], storage, t, entries, done + [e],
        keys + [e.key])
  {
    AcquireOne(before, t, done, e);
  }

  /** Rolling back from a failure releases just what the loop had locked. */
  lemma Stopped(before: map<SlotKey, TxId>, now: map<SlotKey, TxId>, storage: map<SlotKey, Word>, t: TxId,
                entries: seq<Entry>, done: seq<Entry>, keys: seq<SlotKey>)
    requires Progress(before, now, storage, t, entries, done, keys) && |done| < |entries|
    requires !Passes(storage, before, t, entries[|done|])
    ensures PassCount(storage, before, t, entries) == |done| && entries[..|done|] == done
    ensures ReleaseSome(now, t, AsSet(keys)) == ReleaseSome(before, t, Keys(done))
  {
    assert forall i :: 0 <= i < |done| ==> entries[i] == done[i];
    PassCountIs(storage, before, t, entries, |done|);
    KeysOfKeys(done, keys);
  }

  /** For a transaction that holds no slot, a failed validation changes nothing. */
  lemma FailureChangesNothing(slots: map<SlotKey, TxId>, t: TxId, keys: set<SlotKey>)
    requires SlotsHeld(slots, t) == {}
    ensures ReleaseSome(slots, t, keys) == slots
  {
    assert forall k :: k in slots && slots[k] == t ==> k in SlotsHeld(slots, t);
  }
}
