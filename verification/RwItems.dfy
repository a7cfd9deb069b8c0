/** Read/write sets item by item: what the flattened lists of entries and the share of
    one shard contain, and the value a list of writes leaves in a slot. */
module RwItems {
  import opened Protocol
  import opened EvmState

  // ---------------------------------------------------------------------------
  // Lists
  // ---------------------------------------------------------------------------

  lemma KeysConcat(xs: seq<Entry>, ys: seq<Entry>)
    ensures Keys(xs + ys) == Keys(xs) + Keys(ys)
  {
    var zs := xs + ys;
    forall k ensures k in Keys(zs) <==> k in Keys(xs) || k in Keys(ys) {
      if i :| 0 <= i < |xs| && xs[i].key == k { assert zs[i].key == k; }
      if i :| 0 <= i < |ys| && ys[i].key == k { assert zs[|xs| + i].key == k; }
    }
  }

  lemma {:induction false} ReadsOfAt(a: Address, items: seq<ReadSetItem>, i: nat)
    ensures |ReadsOf(a, items)| == |items|
    ensures i < |items| ==> ReadsOf(a, items)[i] == Entry(SlotKey(a, items[i].slot), items[i].value)
    decreases items
  {
    if items != [] { ReadsOfAt(a, items[1..], if i > 0 then i - 1 else 0); }
  }

  lemma {:induction false} WritesOfAt(a: Address, items: seq<WriteSetItem>, i: nat)
    ensures |WritesOf(a, items)| == |items|
    ensures i < |items| ==> WritesOf(a, items)[i] == Entry(SlotKey(a, items[i].slot), items[i].newValue)
    decreases items
  {
    if items != [] { WritesOfAt(a, items[1..], if i > 0 then i - 1 else 0); }
  }

  lemma {:induction false} WritesOfConcat(a: Address, xs: seq<WriteSetItem>, ys: seq<WriteSetItem>)
    ensures WritesOf(a, xs + ys) == WritesOf(a, xs) + WritesOf(a, ys)
  {
    if xs == [] {
      assert xs + ys == ys;
    } else {
      assert (xs + ys)[1..] == xs[1..] + ys;
      WritesOfConcat(a, xs[1..], ys);
    }
  }

  lemma {:induction false} WriteEntriesConcat(xs: seq<RwVariable>, ys: seq<RwVariable>)
    ensures WriteEntries(xs + ys) == WriteEntries(xs) + WriteEntries(ys)
  {
    if xs == [] {
      assert xs + ys == ys;
    } else {
      assert (xs + ys)[1..] == xs[1..] + ys;
      WriteEntriesConcat(xs[1..], ys);
    }
  }

  // ---------------------------------------------------------------------------
  // The share of one shard
  // ---------------------------------------------------------------------------

  /** The share of a shard keeps the list order. */
  lemma {:induction false} LocalRwSetConcat(xs: seq<RwVariable>, ys: seq<RwVariable>, s: int)
    ensures LocalRwSet(xs + ys, s) == LocalRwSet(xs, s) + LocalRwSet(ys, s)
  {
    if xs == [] {
      assert xs + ys == ys;
    } else {
      assert (xs + ys)[1..] == xs[1..] + ys;
      LocalRwSetConcat(xs[1..], ys, s);
    }
  }

  /** The share of a shard holds every variable of that shard as often as the whole set,
      and no other. */
  lemma {:induction false} LocalRwSetCount(rwSet: seq<RwVariable>, s: int, v: RwVariable)
    ensures multiset(LocalRwSet(rwSet, s))[v] == if v.shardNum == s then multiset(rwSet)[v] else 0
  {
    if rwSet != [] {
      LocalRwSetCount(rwSet[1..], s, v);
      assert rwSet == [rwSet[0]] + rwSet[1..];
    }
  }

  lemma OneVariable(v: RwVariable, s: int)
    ensures LocalRwSet([v], s) == if v.shardNum == s then [v] else []
    ensures ReadEntries([v]) == ReadsOf(v.address, v.readSet) && WriteEntries([v]) == WritesOf(v.address, v.writeSet)
  {
    assert [v][1..] == [];
    assert ReadEntries([v]) == ReadsOf(v.address, v.readSet) + [];
    assert WriteEntries([v]) == WritesOf(v.address, v.writeSet) + [];
  }

  /** The share of a shard, taken apart at variable i of that shard. */
  lemma LocalAround(rwSet: seq<RwVariable>, s: int, i: nat)
    requires i < |rwSet| && rwSet[i].shardNum == s
    ensures LocalRwSet(rwSet, s) == LocalRwSet(rwSet[..i], s) + [rwSet[i]] + LocalRwSet(rwSet[i + 1..], s)
  {
    assert rwSet == rwSet[..i] + [rwSet[i]] + rwSet[i + 1..];
    LocalRwSetConcat(rwSet[..i] + [rwSet[i]], rwSet[i + 1..], s);
    LocalRwSetConcat(rwSet[..i], [rwSet[i]], s);
    OneVariable(rwSet[i], s);
  }

  // ---------------------------------------------------------------------------
  // Items
  // ---------------------------------------------------------------------------

  /** Read item j of variable i is one of shard s and reads slot k. */
  predicate ReadItem(rwSet: seq<RwVariable>, s: int, i: int, j: int, k: SlotKey) {
    && 0 <= i < |rwSet| && 0 <= j < |rwSet[i].readSet| && rwSet[i].shardNum == s
    && SlotKey(rwSet[i].address, rwSet[i].readSet[j].slot) == k
  }

  /** Write item j of variable i is one of shard s and writes slot k. */
  predicate WriteItem(rwSet: seq<RwVariable>, s: int, i: int, j: int, k: SlotKey) {
    && 0 <= i < |rwSet| && 0 <= j < |rwSet[i].writeSet| && rwSet[i].shardNum == s
    && SlotKey(rwSet[i].address, rwSet[i].writeSet[j].slot) == k
  }

  /** Some item of the read/write set writes slot k of shard s. */
  ghost predicate WritesOn(rwSet: seq<RwVariable>, s: int, k: SlotKey) {
    exists i, j :: WriteItem(rwSet, s, i, j, k)
  }

  /** Item j of variable i is the last one that writes slot k of shard s. */
  ghost predicate LastItem(rwSet: seq<RwVariable>, s: int, i: int, j: int, k: SlotKey) {
    WriteItem(rwSet, s, i, j, k)
    && forall i', j' :: WriteItem(rwSet, s, i', j', k) ==> i' < i || (i' == i && j' <= j)
  }

  lemma WriteItemTail(rwSet: seq<RwVariable>, s: int, i: int, j: int, k: SlotKey)
    requires rwSet != []
    ensures i > 0 ==> (WriteItem(rwSet, s, i, j, k) <==> WriteItem(rwSet[1..], s, i - 1, j, k))
  {
    assert 0 < i < |rwSet| ==> rwSet[1..][i - 1] == rwSet[i];
  }

  lemma ItemKey(a: Address, items: seq<WriteSetItem>, k: SlotKey)
    ensures k in Keys(WritesOf(a, items)) <==> exists j :: 0 <= j < |items| && SlotKey(a, items[j].slot) == k
  {
    WritesOfAt(a, items, 0);
    var es := WritesOf(a, items);
    forall j | 0 <= j < |items| ensures es[j].key == SlotKey(a, items[j].slot) { WritesOfAt(a, items, j); }
  }

  /** The slots written by a shard's share are those its items write. */
  lemma {:induction false} WriteKeysAreItems(rwSet: seq<RwVariable>, s: int, k: SlotKey)
    ensures k in WriteKeys(LocalRwSet(rwSet, s)) <==> WritesOn(rwSet, s, k)
  {
    if rwSet != [] {
      var v, rest := rwSet[0], rwSet[1..];
      WriteKeysAreItems(rest, s, k);
      if v.shardNum == s {
        assert LocalRwSet(rwSet, s)[1..] == LocalRwSet(rest, s);
        KeysConcat(WritesOf(v.address, v.writeSet), WriteEntries(LocalRwSet(rest, s)));
        ItemKey(v.address, v.writeSet, k);
      }
      if i, j :| WriteItem(rest, s, i, j, k) {
        WriteItemTail(rwSet, s, i + 1, j, k);
      }
      if i, j :| WriteItem(rwSet, s, i, j, k) {
        WriteItemTail(rwSet, s, i, j, k);
        assert i == 0 ==> SlotKey(v.address, v.writeSet[j].slot) == k;
      }
      if v.shardNum == s && k in Keys(WritesOf(v.address, v.writeSet)) {
        var j :| 0 <= j < |v.writeSet| && SlotKey(v.address, v.writeSet[j].slot) == k;
        assert WriteItem(rwSet, s, 0, j, k);
      }
    }
  }

  lemma {:induction false} LastOf(before: seq<Entry>, e: Entry, after: seq<Entry>)
    requires e.key !in Keys(after)
    ensures LastWrite(before + [e] + after, e.key) == Some(e.value)
    decreases after
  {
    var all := before + [e] + after;
    if after == [] {
      assert all == before + [e];
    } else {
      var n := |after| - 1;
      assert after[n].key in Keys(after);
      assert all[..|all| - 1] == before + [e] + after[..n] && all[|all| - 1] == after[n];
      assert after == after[..n] + [after[n]];
      KeysConcat(after[..n], [after[n]]);
      LastOf(before, e, after[..n]);
    }
  }

  lemma ItemAround(a: Address, items: seq<WriteSetItem>, j: nat)
    requires j < |items|
    ensures WritesOf(a, items)
         == WritesOf(a, items[..j]) + [Entry(SlotKey(a, items[j].slot), items[j].newValue)]
             + WritesOf(a, items[j + 1..])
  {
    assert items == items[..j] + [items[j]] + items[j + 1..];
    WritesOfConcat(a, items[..j] + [items[j]], items[j + 1..]);
    WritesOfConcat(a, items[..j], [items[j]]);
    assert [items[j]][1..] == [];
    assert WritesOf(a, [items[j]]) == [Entry(SlotKey(a, items[j].slot), items[j].newValue)];
  }

  lemma VariableAround(rwSet: seq<RwVariable>, s: int, i: nat)
    requires i < |rwSet| && rwSet[i].shardNum == s
    ensures WriteEntries(LocalRwSet(rwSet, s))
         == WriteEntries(LocalRwSet(rwSet[..i], s)) + WritesOf(rwSet[i].address, rwSet[i].writeSet)
            + WriteEntries(LocalRwSet(rwSet[i + 1..], s))
  {
    var v, l, r := rwSet[i], LocalRwSet(rwSet[..i], s), LocalRwSet(rwSet[i + 1..], s);
    LocalAround(rwSet, s, i);
    WriteEntriesConcat(l + [v], r);
    WriteEntriesConcat(l, [v]);
    OneVariable(v, s);
  }

  lemma Regroup<T>(a: seq<T>, b: seq<T>, c: seq<T>, d: seq<T>, e: seq<T>)
    ensures a + (b + c + d) + e == (a + b) + c + (d + e)
  {
  }

  /** The writes of a shard's share, taken apart at item j of variable i. */
  lemma WritesAround(rwSet: seq<RwVariable>, s: int, i: nat, j: nat)
    requires i < |rwSet| && rwSet[i].shardNum == s && j < |rwSet[i].writeSet|
    ensures var v := rwSet[i];
            WriteEntries(LocalRwSet(rwSet, s))
            == (WriteEntries(LocalRwSet(rwSet[..i], s)) + WritesOf(v.address, v.writeSet[..j]))
               + [Entry(SlotKey(v.address, v.writeSet[j].slot), v.writeSet[j].newValue)]
               + (WritesOf(v.address, v.writeSet[j + 1..]) + WriteEntries(LocalRwSet(rwSet[i + 1..], s)))
  {
    var v := rwSet[i];
    VariableAround(rwSet, s, i);
    ItemAround(v.address, v.writeSet, j);
    Regroup(WriteEntries(LocalRwSet(rwSet[..i], s)), WritesOf(v.address, v.writeSet[..j]),
        [Entry(SlotKey(v.address, v.writeSet[j].slot), v.writeSet[j].newValue)],
        WritesOf(v.address, v.writeSet[j + 1..]), WriteEntries(LocalRwSet(rwSet[i + 1..], s)));
  }

  /** Applying a shard's share leaves the value of the last item in each slot. */
  lemma LastItemWins(rwSet: seq<RwVariable>, s: int, i: nat, j: nat, k: SlotKey)
    requires LastItem(rwSet, s, i, j, k)
    ensures LastWrite(WriteEntries(LocalRwSet(rwSet, s)), k) == Some(rwSet[i].writeSet[j].newValue)
  {
    var v, items := rwSet[i], rwSet[i].writeSet;
    var rest := WritesOf(v.address, items[j + 1..]) + WriteEntries(LocalRwSet(rwSet[i + 1..], s));
    WritesAround(rwSet, s, i, j);
    NothingAfter(rwSet, s, i, j, k);
    LastOf(WriteEntries(LocalRwSet(rwSet[..i], s)) + WritesOf(v.address, items[..j]), Entry(k, items[j].newValue),
        rest);
  }

  lemma NothingAfter(rwSet: seq<RwVariable>, s: int, i: nat, j: nat, k: SlotKey)
    requires LastItem(rwSet, s, i, j, k)
    ensures k !in Keys(WritesOf(rwSet[i].address, rwSet[i].writeSet[j + 1..])
        + WriteEntries(LocalRwSet(rwSet[i + 1..], s)))
  {
    var v, items := rwSet[i], rwSet[i].writeSet[j + 1..];
    KeysConcat(WritesOf(v.address, items), WriteEntries(LocalRwSet(rwSet[i + 1..], s)));
    ItemKey(v.address, items, k);
    WriteKeysAreItems(rwSet[i + 1..], s, k);
    forall m | 0 <= m < |items| ensures SlotKey(v.address, items[m].slot) != k {
      assert items[m] == v.writeSet[j + 1 + m];
      assert !WriteItem(rwSet, s, i, j + 1 + m, k);
    }
    var later := rwSet[i + 1..];
    if m, n :| WriteItem(later, s, m, n, k) {
      ItemFurtherOn(rwSet, s, i + 1, m, n, k);
      assert false;
    }
  }

  lemma ItemFurtherOn(rwSet: seq<RwVariable>, s: int, i: nat, m: int, n: int, k: SlotKey)
    requires i <= |rwSet| && WriteItem(rwSet[i..], s, m, n, k)
    ensures WriteItem(rwSet, s, i + m, n, k) && i + m >= i
  {
    assert rwSet[i..][m] == rwSet[i + m];
  }

  // ---------------------------------------------------------------------------
  // Reads
  // ---------------------------------------------------------------------------

  lemma {:induction false} ReadEntryOf(rwSet: seq<RwVariable>, i: nat, j: nat) returns (n: nat)
    requires i < |rwSet| && j < |rwSet[i].readSet|
    ensures n < |ReadEntries(rwSet)|
    ensures ReadEntries(rwSet)[n] == Entry(SlotKey(rwSet[i].address, rwSet[i].readSet[j].slot),
        rwSet[i].readSet[j].value)
    decreases i
  {
    ReadsOfAt(rwSet[0].address, rwSet[0].readSet, j);
    if i == 0 {
      n := j;
    } else {
      n := ReadEntryOf(rwSet[1..], i - 1, j);
      n := n + |ReadsOf(rwSet[0].address, rwSet[0].readSet)|;
    }
  }

  lemma {:induction false} ReadItemOf(rwSet: seq<RwVariable>, n: nat) returns (i: nat, j: nat)
    requires n < |ReadEntries(rwSet)|
    ensures i < |rwSet| && j < |rwSet[i].readSet|
    ensures ReadEntries(rwSet)[n] == Entry(SlotKey(rwSet[i].address, rwSet[i].readSet[j].slot),
        rwSet[i].readSet[j].value)
    decreases |rwSet|
  {
    var v := rwSet[0];
    ReadsOfAt(v.address, v.readSet, n);
    if n < |v.readSet| {
      i, j := 0, n;
    } else {
      i, j := ReadItemOf(rwSet[1..], n - |v.readSet|);
      i := i + 1;
    }
  }

  lemma {:induction false} LocalMember(rwSet: seq<RwVariable>, s: int, v: RwVariable)
    ensures v in LocalRwSet(rwSet, s) <==> v in rwSet && v.shardNum == s
  {
    LocalRwSetCount(rwSet, s, v);
    assert v in multiset(LocalRwSet(rwSet, s)) <==> v in LocalRwSet(rwSet, s);
    assert v in multiset(rwSet) <==> v in rwSet;
  }

  /** Every read item of a shard is an entry of its share, and every entry is such an item. */
  lemma ReadsAreItems(rwSet: seq<RwVariable>, s: int, e: Entry)
    ensures e in ReadEntries(LocalRwSet(rwSet, s))
       <==> exists i, j :: ReadItem(rwSet, s, i, j, e.key) && rwSet[i].readSet[j].value == e.value
  {
    var mine := LocalRwSet(rwSet, s);
    if i, j :| ReadItem(rwSet, s, i, j, e.key) && rwSet[i].readSet[j].value == e.value {
      LocalMember(rwSet, s, rwSet[i]);
      var m :| 0 <= m < |mine| && mine[m] == rwSet[i];
      var n := ReadEntryOf(mine, m, j);
      assert ReadEntries(mine)[n] == e;
    }
    if e in ReadEntries(mine) {
      var n :| 0 <= n < |ReadEntries(mine)| && ReadEntries(mine)[n] == e;
      var m, j := ReadItemOf(mine, n);
      LocalMember(rwSet, s, mine[m]);
      var i :| 0 <= i < |rwSet| && rwSet[i] == mine[m];
      assert ReadItem(rwSet, s, i, j, e.key);
    }
  }
}
