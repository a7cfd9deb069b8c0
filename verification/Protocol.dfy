/** The wire types shared by the orchestrator and the state shards, and the two
    derived shard lists that decide who must vote. */
module Protocol {

  type TxId = nat          // transaction ids; EMPTY_ID plays the part of the empty string
  type Address = nat       // a 20-byte address read as a number
  type Slot = nat          // a 32-byte storage slot
  type Word = nat          // a 32-byte storage value

  const EMPTY_ID: TxId := 0
  const NUM_SHARDS: nat := 8

  /** An address lives on the shard given by its last byte. */
  function ShardOf(a: Address): nat {
    (a % 256) % NUM_SHARDS
  }

  /** Only the last byte b of an address matters. */
  lemma ShardOfLastByte(q: nat, b: nat)
    requires b < 256
    ensures ShardOf(256 * q + b) == b % 8
  {
    assert (256 * q + b) % 256 == b;
  }

  datatype Option<+T> = None | Some(value: T)

  datatype SlotKey = SlotKey(addr: Address, slot: Slot)
  datatype ReadSetItem = ReadSetItem(slot: Slot, value: Word)
  datatype WriteSetItem = WriteSetItem(slot: Slot, oldValue: Word, newValue: Word)
  datatype RwVariable = RwVariable(address: Address, shardNum: int,
                                   readSet: seq<ReadSetItem>, writeSet: seq<WriteSetItem>)

  datatype TxType =
    | Local | CrossDebit | CrossCredit | CrossWriteSet | CrossAbort
    | PrepareDebit | PrepareCredit | PrepareWriteSet
    | Lock | Unlock | SimError | Finalize | Unknown
  {
    function Priority(): nat {
      match this
      case CrossDebit | CrossCredit | CrossWriteSet | Finalize => 1
      case Unlock => 2
      case Lock => 3
      case SimError => 5
      case _ => 4
    }
  }

  datatype Transaction = Transaction(txType: TxType, txId: TxId, from: Address, to: Address,
                                     value: int, data: seq<nat>, rwSet: seq<RwVariable>)

  datatype CrossShardTx = CrossShardTx(id: TxId, fromShard: int, from: Address, to: Address,
                                       value: int, data: seq<nat>, rwSet: seq<RwVariable>)

  datatype OrchestratorBlock = OrchestratorBlock(height: nat, tpcResult: map<TxId, bool>,
                                                 ctToOrder: seq<CrossShardTx>)

  datatype ShardBlock = ShardBlock(height: nat, txOrdering: seq<Transaction>, tpcPrepare: map<TxId, bool>)

  /** No value occurs twice. */
  ghost predicate Distinct<T>(s: seq<T>) {
    forall i, j :: 0 <= i < j < |s| ==> s[i] != s[j]
  }

  // ---------------------------------------------------------------------------
  // Slots and values of a read/write set, flattened in list order
  // ---------------------------------------------------------------------------

  datatype Entry = Entry(key: SlotKey, value: Word)

  function ReadsOf(a: Address, items: seq<ReadSetItem>): seq<Entry> {
    if items == [] then [] else [Entry(SlotKey(a, items[0].slot), items[0].value)] + ReadsOf(a, items[1..])
  }

  function WritesOf(a: Address, items: seq<WriteSetItem>): seq<Entry> {
    if items == [] then [] else [Entry(SlotKey(a, items[0].slot), items[0].newValue)] + WritesOf(a, items[1..])
  }

  function ReadEntries(rwSet: seq<RwVariable>): seq<Entry> {
    if rwSet == [] then [] else ReadsOf(rwSet[0].address, rwSet[0].readSet) + ReadEntries(rwSet[1..])
  }

  function WriteEntries(rwSet: seq<RwVariable>): seq<Entry> {
    if rwSet == [] then [] else WritesOf(rwSet[0].address, rwSet[0].writeSet) + WriteEntries(rwSet[1..])
  }

  function Keys(entries: seq<Entry>): set<SlotKey> {
    set i | 0 <= i < |entries| :: entries[i].key
  }

  function ReadKeys(rwSet: seq<RwVariable>): set<SlotKey> {
    Keys(ReadEntries(rwSet))
  }

  function WriteKeys(rwSet: seq<RwVariable>): set<SlotKey> {
    Keys(WriteEntries(rwSet))
  }

  /** The entries of a read/write set that refer to shard s. */
  function LocalRwSet(rwSet: seq<RwVariable>, s: int): seq<RwVariable> {
    if rwSet == [] then []
    else if rwSet[0].shardNum == s then [rwSet[0]] + LocalRwSet(rwSet[1..], s)
    else LocalRwSet(rwSet[1..], s)
  }

  lemma {:induction false} LocalRwSetNonEmpty(rwSet: seq<RwVariable>, s: int)
    ensures LocalRwSet(rwSet, s) != [] <==> exists i :: 0 <= i < |rwSet| && rwSet[i].shardNum == s
  {
    if rwSet != [] {
      LocalRwSetNonEmpty(rwSet[1..], s);
      if rwSet[0].shardNum != s {
        if i :| 0 <= i < |rwSet| && rwSet[i].shardNum == s {
          assert rwSet[1..][i - 1].shardNum == s;
        }
        if j :| 0 <= j < |rwSet[1..]| && rwSet[1..][j].shardNum == s {
          assert rwSet[j + 1].shardNum == s;
        }
      }
    }
  }

  // ---------------------------------------------------------------------------
  // Which shards take part in a transaction
  // ---------------------------------------------------------------------------

  /** Shard s must vote on tx: it is the source or holds part of the read/write set. */
  predicate Involved(tx: CrossShardTx, s: int) {
    s == tx.fromShard || LocalRwSet(tx.rwSet, s) != []
  }

  function TargetShardsOf(rwSet: seq<RwVariable>): seq<int> {
    if rwSet == [] then []
    else
      var before := TargetShardsOf(rwSet[..|rwSet| - 1]);
      var s := rwSet[|rwSet| - 1].shardNum;
      if s in before then before else before + [s]
  }

  function InvolvedShardsOf(tx: CrossShardTx): seq<int> {
    var targets := TargetShardsOf(tx.rwSet);
    if tx.fromShard in targets then targets else [tx.fromShard] + targets
  }

  lemma {:induction false} TargetShardsAreDistinct(rwSet: seq<RwVariable>)
    ensures Distinct(TargetShardsOf(rwSet))
    ensures forall s :: s in TargetShardsOf(rwSet) <==> exists i :: 0 <= i < |rwSet| && rwSet[i].shardNum == s
  {
    if rwSet != [] {
      var n := |rwSet| - 1;
      TargetShardsAreDistinct(rwSet[..n]);
      forall s ensures s in TargetShardsOf(rwSet) <==> exists i :: 0 <= i < |rwSet| && rwSet[i].shardNum == s {
        if i :| 0 <= i < |rwSet| && rwSet[i].shardNum == s {
          if i < n { assert rwSet[..n][i].shardNum == s; }
        }
        if s in TargetShardsOf(rwSet[..n]) {
          var i :| 0 <= i < n && rwSet[..n][i].shardNum == s;
          assert rwSet[i].shardNum == s;
        }
      }
    }
  }

  /** The list of expected voters names each involved shard exactly once. */
  lemma InvolvedShardsAreTheVoters(tx: CrossShardTx)
    ensures Distinct(InvolvedShardsOf(tx))
    ensures forall s :: s in InvolvedShardsOf(tx) <==> Involved(tx, s)
  {
    TargetShardsAreDistinct(tx.rwSet);
    forall s ensures s in InvolvedShardsOf(tx) <==> Involved(tx, s) {
      LocalRwSetNonEmpty(tx.rwSet, s);
    }
  }

  method TargetShards(tx: CrossShardTx) returns (shards: seq<int>)
    ensures shards == TargetShardsOf(tx.rwSet)
  {
    var seen: set<int> := {};
    shards := [];
    for i := 0 to |tx.rwSet|
      invariant shards == TargetShardsOf(tx.rwSet[..i])
      invariant forall s :: s in seen <==> s in shards
    {
      assert tx.rwSet[..i + 1][..i] == tx.rwSet[..i];
      var s := tx.rwSet[i].shardNum;
      if s !in seen {
        seen := seen + {s};
        shards := shards + [s];
      }
    }
    assert tx.rwSet[..|tx.rwSet|] == tx.rwSet;
  }

  method InvolvedShards(tx: CrossShardTx) returns (shards: seq<int>)
    ensures shards == InvolvedShardsOf(tx)
    ensures Distinct(shards)
    ensures forall s :: s in shards <==> Involved(tx, s)
  {
    InvolvedShardsAreTheVoters(tx);
    shards := TargetShards(tx);
    for i := 0 to |shards|
      invariant tx.fromShard !in shards[..i]
    {
      if shards[i] == tx.fromShard {
        return;
      }
    }
    assert shards[..|shards|] == shards;
    shards := [tx.fromShard] + shards;
  }
}
