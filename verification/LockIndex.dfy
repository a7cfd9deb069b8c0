/** Fund reservations are kept twice: by transaction, and by address for quick sums.
    Both removal algorithms keep the two in agreement. */
module LockIndex {
  import opened Protocol
  import opened EvmState
  import opened ShardSpec

  datatype LockedEntry = LockedEntry(txId: TxId, amount: int)

  type Index = map<Address, seq<LockedEntry>>

  function EntriesAt(index: Index, a: Address): seq<LockedEntry> {
    if a in index then index[a] else []
  }

  ghost predicate HasLock(entries: seq<LockedEntry>, t: TxId) {
    exists i :: 0 <= i < |entries| && entries[i].txId == t
  }

  /** entries are exactly the locks held on address a, each once. */
  ghost predicate ListsLocks(entries: seq<LockedEntry>, locked: map<TxId, Funds>, a: Address) {
    && (forall i :: 0 <= i < |entries| ==> entries[i].txId in locked
                                           && locked[entries[i].txId] == Funds(a, entries[i].amount))
    && (forall i, j :: 0 <= i < j < |entries| ==> entries[i].txId != entries[j].txId)
    && (forall t :: t in locked && locked[t].address == a ==> HasLock(entries, t))
  }

  /** The index agrees with the table, address by address, and has no empty lists. */
  ghost predicate Agrees(locked: map<TxId, Funds>, index: Index) {
    (forall a: Address :: ListsLocks(EntriesAt(index, a), locked, a)) && forall a :: a in index ==> index[a] != []
  }

  // ---------------------------------------------------------------------------
  // Sums
  // ---------------------------------------------------------------------------

  function SumOf(entries: seq<LockedEntry>): int {
    if entries == [] then 0 else SumOf(entries[..|entries| - 1]) + entries[|entries| - 1].amount
  }

  /** The entries are the pairs of m, each once. */
  ghost predicate Pairs(entries: seq<LockedEntry>, m: map<nat, int>) {
    && (forall i :: 0 <= i < |entries| ==> entries[i].txId in m && m[entries[i].txId] == entries[i].amount)
    && (forall i, j :: 0 <= i < j < |entries| ==> entries[i].txId != entries[j].txId)
    && (forall t :: t in m ==> HasLock(entries, t))
  }

  lemma {:induction false} SumOfPairs(entries: seq<LockedEntry>, m: map<nat, int>)
    requires Pairs(entries, m)
    ensures SumOf(entries) == Sum(m)
    decreases |entries|
  {
    if entries == [] {
      assert forall t :: t in m ==> HasLock(entries, t);
      assert m == map[];
    } else {
      var n := |entries| - 1;
      var t := entries[n].txId;
      forall u | u in m - {t} ensures HasLock(entries[..n], u) {
        var i :| 0 <= i < |entries| && entries[i].txId == u;
        assert entries[..n][i].txId == u;
      }
      SumOfPairs(entries[..n], m - {t});
      SumWithout(m, t);
    }
  }

  /** The sum over the index is the sum over the table. */
  lemma IndexSum(locked: map<TxId, Funds>, index: Index, a: Address)
    requires Agrees(locked, index)
    ensures SumOf(EntriesAt(index, a)) == Reserved(locked, a)
  {
    assert ListsLocks(EntriesAt(index, a), locked, a);
    SumOfPairs(EntriesAt(index, a), LocksOn(locked, a));
  }

  // ---------------------------------------------------------------------------
  // Adding and removing
  // ---------------------------------------------------------------------------

  function AddEntry(index: Index, a: Address, e: LockedEntry): Index {
    index[a := EntriesAt(index, a) + [e]]
  }

  /** Adding a lock keeps the agreement exactly when the id holds no lock yet. */
  lemma AddAgreesIff(locked: map<TxId, Funds>, index: Index, t: TxId, f: Funds)
    requires Agrees(locked, index)
    ensures Agrees(locked[t := f], AddEntry(index, f.address, LockedEntry(t, f.amount))) <==> t !in locked
  {
    var e := LockedEntry(t, f.amount);
    var locked', index' := locked[t := f], AddEntry(index, f.address, e);
    var entries' := index'[f.address];
    assert entries'[|EntriesAt(index, f.address)|] == e;
    if t !in locked {
      forall a: Address ensures ListsLocks(EntriesAt(index', a), locked', a) {
        assert ListsLocks(EntriesAt(index, a), locked, a);
        if a == f.address { AddLists(EntriesAt(index, a), locked, t, f); }
      }
    } else {
      var a := locked[t].address;
      assert ListsLocks(EntriesAt(index, a), locked, a);
      assert HasLock(EntriesAt(index, a), t);
      var i :| 0 <= i < |EntriesAt(index, a)| && EntriesAt(index, a)[i].txId == t;
      assert EntriesAt(index', a)[i].txId == t;
      assert !ListsLocks(EntriesAt(index', a), locked', a);
    }
  }

  lemma AddLists(entries: seq<LockedEntry>, locked: map<TxId, Funds>, t: TxId, f: Funds)
    requires ListsLocks(entries, locked, f.address) && t !in locked
    ensures ListsLocks(entries + [LockedEntry(t, f.amount)], locked[t := f], f.address)
  {
    var more, locked' := entries + [LockedEntry(t, f.amount)], locked[t := f];
    assert more[|entries|].txId == t;
    forall u | u in locked' && locked'[u].address == f.address ensures HasLock(more, u) {
      if u != t {
        assert HasLock(entries, u);
        var i :| 0 <= i < |entries| && entries[i].txId == u;
        assert more[i].txId == u;
      }
    }
  }

  function SetEntries(index: Index, a: Address, entries: seq<LockedEntry>): Index {
    if entries == [] then index - {a} else index[a := entries]
  }

  /** Order-preserving removal. */
  function Without(entries: seq<LockedEntry>, i: nat): seq<LockedEntry>
    requires i < |entries|
  {
    entries[..i] + entries[i + 1..]
  }

  /** Removal by moving the last entry into the gap. */
  function SwapOut(entries: seq<LockedEntry>, i: nat): seq<LockedEntry>
    requires i < |entries|
  {
    entries[i := entries[|entries| - 1]][..|entries| - 1]
  }

  lemma WithoutLists(entries: seq<LockedEntry>, locked: map<TxId, Funds>, a: Address, i: nat)
    requires ListsLocks(entries, locked, a) && i < |entries|
    ensures ListsLocks(Without(entries, i), locked - {entries[i].txId}, a)
  {
    var less, t := Without(entries, i), entries[i].txId;
    assert forall j :: 0 <= j < |less| ==> less[j] == if j < i then entries[j] else entries[j + 1];
    forall u | u in locked - {t} && locked[u].address == a ensures HasLock(less, u) {
      assert HasLock(entries, u);
      var j :| 0 <= j < |entries| && entries[j].txId == u;
      assert less[if j < i then j else j - 1].txId == u;
    }
  }

  lemma SwapOutLists(entries: seq<LockedEntry>, locked: map<TxId, Funds>, a: Address, i: nat)
    requires ListsLocks(entries, locked, a) && i < |entries|
    ensures ListsLocks(SwapOut(entries, i), locked - {entries[i].txId}, a)
  {
    var less, t, n := SwapOut(entries, i), entries[i].txId, |entries| - 1;
    assert forall j :: 0 <= j < |less| ==> less[j] == if j == i then entries[n] else entries[j];
    forall u | u in locked - {t} && locked[u].address == a ensures HasLock(less, u) {
      assert HasLock(entries, u);
      var j :| 0 <= j < |entries| && entries[j].txId == u;
      assert less[if j == n then i else j].txId == u;
    }
  }

  /** Whichever way the entry is taken out, table and index still agree. */
  lemma RemoveAgrees(locked: map<TxId, Funds>, index: Index, t: TxId, entries: seq<LockedEntry>)
    requires Agrees(locked, index) && t in locked
    requires ListsLocks(entries, locked - {t}, locked[t].address)
    ensures Agrees(locked - {t}, SetEntries(index, locked[t].address, entries))
  {
    var a0 := locked[t].address;
    forall a: Address ensures ListsLocks(EntriesAt(SetEntries(index, a0, entries), a), locked - {t}, a) {
      assert ListsLocks(EntriesAt(index, a), locked, a);
      if a != a0 { OtherLists(EntriesAt(index, a), locked, a, t); }
    }
  }

  lemma OtherLists(entries: seq<LockedEntry>, locked: map<TxId, Funds>, a: Address, t: TxId)
    requires ListsLocks(entries, locked, a) && t in locked && locked[t].address != a
    ensures ListsLocks(entries, locked - {t}, a)
  {
    forall i | 0 <= i < |entries| ensures entries[i].txId in locked - {t} {
      assert locked[entries[i].txId].address == a;
    }
  }

  // ---------------------------------------------------------------------------
  // The two tables as an object
  // ---------------------------------------------------------------------------

  class FundLocks {
    var locked: map<TxId, Funds>
    var lockedByAddr: Index

    ghost predicate Valid()
      reads this
    {
      Agrees(locked, lockedByAddr)
    }

    constructor ()
      ensures Valid() && locked == map[]
    {
      locked, lockedByAddr := map[], map[];
    }

    /** Re-locking an id would leave its old entry behind in the index. */
    method LockFunds(t: TxId, a: Address, amount: int)
      requires Valid()
      modifies this
      ensures locked == old(locked)[t := Funds(a, amount)]
      ensures Valid() <==> t !in old(locked)
    {
      AddAgreesIff(locked, lockedByAddr, t, Funds(a, amount));
      locked := locked[t := Funds(a, amount)];
      lockedByAddr := lockedByAddr[a := (if a in lockedByAddr then lockedByAddr[a] else []) + [LockedEntry(t, amount)]];
    }

    method GetLockedAmountForAddr(a: Address) returns (total: int)
      requires Valid()
      ensures total == Reserved(locked, a)
    {
      total := 0;
      var entries := if a in lockedByAddr then lockedByAddr[a] else [];
      for i := 0 to |entries|
        invariant total == SumOf(entries[..i])
      {
        assert entries[..i + 1][..i] == entries[..i];
        total := total + entries[i].amount;
      }
      assert entries[..|entries|] == entries;
      IndexSum(locked, lockedByAddr, a);
    }

    /** Used by the block producer: keeps the order of the remaining entries. */
    method ClearLockLocked(t: TxId)
      requires Valid()
      modifies this
      ensures Valid() && locked == old(locked) - {t}
    {
      if t !in locked {
        return;
      }
      var a := locked[t].address;
      assert ListsLocks(EntriesAt(lockedByAddr, a), locked, a);
      assert HasLock(EntriesAt(lockedByAddr, a), t);
      var entries := lockedByAddr[a];
      var i := 0;
      while entries[i].txId != t
        invariant 0 <= i < |entries| && forall j :: 0 <= j < i ==> entries[j].txId != t
        decreases |entries| - i
      {
        i := i + 1;
      }
      WithoutLists(entries, locked, a, i);
      RemoveAgrees(locked, lockedByAddr, t, Without(entries, i));
      lockedByAddr := lockedByAddr[a := entries[..i] + entries[i + 1..]];
      if |lockedByAddr[a]| == 0 {
        lockedByAddr := lockedByAddr - {a};
      }
      assert lockedByAddr == SetEntries(old(lockedByAddr), a, Without(entries, i));
      locked := locked - {t};
    }

    /** Used by the request handlers: moves the last entry into the gap. */
    method ClearLock(t: TxId)
      requires Valid()
      modifies this
      ensures Valid() && locked == old(locked) - {t}
    {
      if t !in locked {
        return;
      }
      var a := locked[t].address;
      assert ListsLocks(EntriesAt(lockedByAddr, a), locked, a);
      assert HasLock(EntriesAt(lockedByAddr, a), t);
      var entries := lockedByAddr[a];
      var i := 0;
      while entries[i].txId != t
        invariant 0 <= i < |entries| && forall j :: 0 <= j < i ==> entries[j].txId != t
        decreases |entries| - i
      {
        i := i + 1;
      }
      SwapOutLists(entries, locked, a, i);
      RemoveAgrees(locked, lockedByAddr, t, SwapOut(entries, i));
      ghost var less := SwapOut(entries, i);
      entries := entries[i := entries[|entries| - 1]];
      lockedByAddr := lockedByAddr[a := entries[..|entries| - 1]];
      if |lockedByAddr[a]| == 0 {
        lockedByAddr := lockedByAddr - {a};
      }
      assert lockedByAddr == SetEntries(old(lockedByAddr), a, less);
      locked := locked - {t};
    }
  }
}
