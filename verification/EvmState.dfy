/** A shard's account state as the block producer sees it: balances and storage.
    Running contract code is not modelled; its outcome is a parameter (`Call`). */
module EvmState {
  import opened Protocol

  datatype World = World(balances: map<Address, int>, storage: map<SlotKey, Word>)

  /** What executing the contract call of a local transaction does: nothing on
      failure, otherwise the new state. */
  type Call = (Transaction, World) -> Option<World>

  function Balance(w: World, a: Address): int {
    if a in w.balances then w.balances[a] else 0
  }

  function Load(storage: map<SlotKey, Word>, k: SlotKey): Word {
    if k in storage then storage[k] else 0
  }

  function AddBalance(w: World, a: Address, amount: int): World {
    w.(balances := w.balances[a := Balance(w, a) + amount])
  }

  function Store(storage: map<SlotKey, Word>, entries: seq<Entry>): map<SlotKey, Word>
    decreases entries
  {
    if entries == [] then storage
    else Store(storage[entries[0].key := entries[0].value], entries[1..])
  }

  predicate CanDebit(w: World, a: Address, amount: int, lockedAmount: int) {
    Balance(w, a) - lockedAmount >= amount
  }

  function Transfer(w: World, from: Address, to: Address, amount: int): World {
    AddBalance(AddBalance(w, from, -amount), to, amount)
  }

  function ExecuteTx(call: Call, w: World, tx: Transaction): Option<World> {
    match tx.txType
    case Local =>
      if tx.value < 0 then None
      else if tx.data != [] then call(tx, w)
      else if Balance(w, tx.from) < tx.value then None
      else Some(Transfer(w, tx.from, tx.to, tx.value))
    case CrossDebit =>
      if Balance(w, tx.from) < tx.value then None else Some(AddBalance(w, tx.from, -tx.value))
    case CrossCredit => Some(AddBalance(w, tx.to, tx.value))
    case CrossWriteSet => Some(w.(storage := Store(w.storage, WriteEntries(tx.rwSet))))
    case Finalize => Some(w.(storage := Store(w.storage, WriteEntries(tx.rwSet))))
    case CrossAbort => Some(w)
    case Lock => Some(w)
    case Unlock => Some(w)
    case SimError => Some(w)
    case _ => None
  }

  // ---------------------------------------------------------------------------
  // Writing a list of entries
  // ---------------------------------------------------------------------------

  lemma {:induction false} StoreConcat(storage: map<SlotKey, Word>, xs: seq<Entry>, ys: seq<Entry>)
    ensures Store(storage, xs + ys) == Store(Store(storage, xs), ys)
    decreases xs
  {
    if xs == [] {
      assert xs + ys == ys;
    } else {
      assert (xs + ys)[1..] == xs[1..] + ys;
      StoreConcat(storage[xs[0].key := xs[0].value], xs[1..], ys);
    }
  }

  /** The value a list of writes leaves at key k: the last one, if there is any. */
  function LastWrite(entries: seq<Entry>, k: SlotKey): Option<Word> {
    if entries == [] then None
    else if entries[|entries| - 1].key == k then Some(entries[|entries| - 1].value)
    else LastWrite(entries[..|entries| - 1], k)
  }

  lemma {:induction false} LastWriteExists(entries: seq<Entry>, k: SlotKey)
    ensures LastWrite(entries, k).Some? <==> k in Keys(entries)
  {
    if entries != [] {
      var n := |entries| - 1;
      LastWriteExists(entries[..n], k);
      assert forall i :: 0 <= i < n ==> entries[..n][i].key == entries[i].key;
      if k in Keys(entries[..n]) {
        var i :| 0 <= i < n && entries[..n][i].key == k;
        assert entries[i].key == k;
      }
    }
  }

  lemma {:induction false} StoreAt(storage: map<SlotKey, Word>, entries: seq<Entry>, k: SlotKey)
    ensures Load(Store(storage, entries), k)
         == if LastWrite(entries, k).Some? then LastWrite(entries, k).value else Load(storage, k)
  {
    if entries != [] {
      var n := |entries| - 1;
      assert entries == entries[..n] + [entries[n]];
      StoreConcat(storage, entries[..n], [entries[n]]);
      StoreAt(storage, entries[..n], k);
    }
  }

  /** Slots that no entry names keep their value. */
  lemma StoreFrame(storage: map<SlotKey, Word>, entries: seq<Entry>, k: SlotKey)
    requires k !in Keys(entries)
    ensures Load(Store(storage, entries), k) == Load(storage, k)
  {
    LastWriteExists(entries, k);
    StoreAt(storage, entries, k);
  }

  /** Applying the same write set twice leaves every slot as applying it once. */
  lemma StoreTwice(storage: map<SlotKey, Word>, entries: seq<Entry>, k: SlotKey)
    ensures Load(Store(Store(storage, entries), entries), k) == Load(Store(storage, entries), k)
  {
    StoreAt(storage, entries, k);
    StoreAt(Store(storage, entries), entries, k);
  }

  // ---------------------------------------------------------------------------
  // Sums over finite maps
  // ---------------------------------------------------------------------------

  ghost function Sum(m: map<nat, int>): int {
    if m == map[] then 0
    else
      var k :| k in m;
      m[k] + Sum(m - {k})
  }

  lemma {:induction false} SumWithout(m: map<nat, int>, k: nat)
    requires k in m
    ensures Sum(m) == m[k] + Sum(m - {k})
    decreases m
  {
    var p :| p in m && Sum(m) == m[p] + Sum(m - {p});
    if p != k {
      SumWithout(m - {p}, k);
      assert m - {p} - {k} == m - {k} - {p};
      SumWithout(m - {k}, p);
    }
  }

  lemma SumUpdate(m: map<nat, int>, k: nat, v: int)
    ensures Sum(m[k := v]) == Sum(m) - (if k in m then m[k] else 0) + v
  {
    SumWithout(m[k := v], k);
    assert m[k := v] - {k} == m - {k};
    if k in m {
      SumWithout(m, k);
    } else {
      assert m - {k} == m;
    }
  }

  lemma {:induction false} SumNonNegative(m: map<nat, int>)
    requires forall k :: k in m ==> m[k] >= 0
    ensures Sum(m) >= 0
    ensures forall k :: k in m ==> m[k] <= Sum(m)
    decreases m
  {
    if m != map[] {
      forall k | k in m ensures m[k] <= Sum(m) && Sum(m) >= 0 {
        SumWithout(m, k);
        SumNonNegative(m - {k});
      }
    }
  }

  /** All the money on a shard. */
  ghost function Total(w: World): int {
    Sum(w.balances)
  }

  lemma AddBalanceTotal(w: World, a: Address, amount: int)
    ensures Total(AddBalance(w, a, amount)) == Total(w) + amount
  {
    SumUpdate(w.balances, a, Balance(w, a) + amount);
  }

  lemma TransferTotal(w: World, from: Address, to: Address, amount: int)
    ensures Total(Transfer(w, from, to, amount)) == Total(w)
  {
    AddBalanceTotal(w, from, -amount);
    AddBalanceTotal(AddBalance(w, from, -amount), to, amount);
  }
}
