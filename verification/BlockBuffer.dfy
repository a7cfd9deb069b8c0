/** The reorder buffer between the network and a shard: blocks arrive in any order,
    any number of times, and leave in height order, each height once. */
module BlockBuffer {
  import opened Protocol

  datatype Buffer = Buffer(expected: nat, buffered: map<nat, OrchestratorBlock>, maxBuffer: int)

  /** Release the run of buffered blocks that starts at the expected height. */
  function Drain(expected: nat, buffered: map<nat, OrchestratorBlock>): (nat, map<nat, OrchestratorBlock>,
                 seq<OrchestratorBlock>)
    decreases buffered
  {
    if expected !in buffered then (expected, buffered, [])
    else
      var (e, m, released) := Drain(expected + 1, buffered - {expected});
      (e, m, [buffered[expected]] + released)
  }

  function Receive(buf: Buffer, b: OrchestratorBlock): (Buffer, seq<OrchestratorBlock>) {
    if b.height == buf.expected then
      var (e, m, released) := Drain(buf.expected + 1, buf.buffered);
      (buf.(expected := e, buffered := m), [b] + released)
    else if b.height > buf.expected && |buf.buffered| < buf.maxBuffer && b.height !in buf.buffered then
      (buf.(buffered := buf.buffered[b.height := b]), [])
    else
      (buf, [])
  }

  /** The buffer and everything released after a sequence of arrivals. */
  function ReceiveAll(buf: Buffer, arrivals: seq<OrchestratorBlock>): (Buffer, seq<OrchestratorBlock>) {
    if arrivals == [] then (buf, [])
    else
      var n := |arrivals| - 1;
      var (buf1, released) := ReceiveAll(buf, arrivals[..n]);
      var (buf2, more) := Receive(buf1, arrivals[n]);
      (buf2, released + more)
  }

  function NewBuffer(start: nat, maxBuffer: int): Buffer {
    Buffer(start, map[], maxBuffer)
  }

  // ---------------------------------------------------------------------------
  // The class
  // ---------------------------------------------------------------------------

  class ReorderBuffer {
    var expected: nat
    var buffered: map<nat, OrchestratorBlock>
    const maxBuffer: int

    ghost function Model(): Buffer
      reads this
    {
      Buffer(expected, buffered, maxBuffer)
    }

    constructor (startHeight: nat, maxBuffer: int)
      ensures Model() == NewBuffer(startHeight, maxBuffer)
    {
      this.expected := startHeight;
      this.buffered := map[];
      this.maxBuffer := maxBuffer;
    }

    method ProcessBlock(block: OrchestratorBlock) returns (result: seq<OrchestratorBlock>)
      modifies this
      ensures (Model(), result) == Receive(old(Model()), block)
    {
      if block.height == expected {
        result := [block];
        expected := expected + 1;
        ghost var whole := Drain(expected, buffered);
        assert result[1..] + whole.2 == whole.2;
        while expected in buffered
          invariant |result| > 0 && result[0] == block
          invariant var (e, m, rest) := Drain(expected, buffered); whole == (e, m, result[1..] + rest)
          decreases buffered
        {
          ghost var rest := Drain(expected + 1, buffered - {expected}).2;
          assert (result + [buffered[expected]])[1..] + rest == result[1..] + ([buffered[expected]] + rest);
          result := result + [buffered[expected]];
          buffered := buffered - {expected};
          expected := expected + 1;
        }
        assert result[1..] + [] == result[1..];
        assert result == [block] + result[1..];
      } else if block.height > expected {
        result := [];
        if |buffered| >= maxBuffer {
          return;
        }
        if block.height in buffered {
          return;
        }
        buffered := buffered[block.height := block];
      } else {
        result := [];
      }
    }
  }

  // ---------------------------------------------------------------------------
  // Order
  // ---------------------------------------------------------------------------

  /** Blocks of consecutive heights starting at h. */
  ghost predicate Consecutive(blocks: seq<OrchestratorBlock>, h: nat) {
    forall i :: 0 <= i < |blocks| ==> blocks[i].height == h + i
  }

  ghost predicate Stored(buffered: map<nat, OrchestratorBlock>, arrivals: seq<OrchestratorBlock>) {
    forall h :: h in buffered ==> buffered[h].height == h && buffered[h] in arrivals
  }

  ghost predicate AllIn(blocks: seq<OrchestratorBlock>, arrivals: seq<OrchestratorBlock>) {
    forall i :: 0 <= i < |blocks| ==> blocks[i] in arrivals
  }

  /** Draining empties a run of heights and keeps the rest. */
  lemma {:induction false} DrainRange(expected: nat, buffered: map<nat, OrchestratorBlock>)
    requires forall h :: h in buffered ==> h >= expected
    ensures var (e, m, released) := Drain(expected, buffered);
            && e == expected + |released|
            && (forall h :: h in m <==> h in buffered && h > e)
            && (forall h :: h in m ==> m[h] == buffered[h])
            && (forall h :: expected <= h < e ==> h in buffered && released[h - expected] == buffered[h])
    decreases buffered
  {
    if expected in buffered {
      var rest := buffered - {expected};
      DrainRange(expected + 1, rest);
      var (e, m, released) := Drain(expected + 1, rest);
      forall h | expected <= h < e ensures h in buffered
          && ([buffered[expected]] + released)[h - expected] == buffered[h] {
        if h > expected {
          assert h in rest && released[h - (expected + 1)] == rest[h];
        }
      }
    }
  }

  lemma SubsetSize(a: set<nat>, b: set<nat>)
    requires a <= b
    ensures |a| <= |b|
  {
    assert b == a + (b - a);
  }

  /** What draining leaves and releases, in terms of what had arrived. */
  ghost predicate DrainedFrom(expected: nat, buffered: map<nat, OrchestratorBlock>, arrivals: seq<OrchestratorBlock>,
                              e: nat, m: map<nat, OrchestratorBlock>, released: seq<OrchestratorBlock>)
  {
    && e == expected + |released|
    && Consecutive(released, expected)
    && AllIn(released, arrivals)
    && Stored(m, arrivals)
    && |m| <= |buffered|
    && (forall h :: h in m <==> h in buffered && h > e)
  }

  lemma {:induction false} DrainInOrder(expected: nat, buffered: map<nat, OrchestratorBlock>,
                                        arrivals: seq<OrchestratorBlock>)
    requires Stored(buffered, arrivals) && forall h :: h in buffered ==> h >= expected
    ensures var d := Drain(expected, buffered); DrainedFrom(expected, buffered, arrivals, d.0, d.1, d.2)
  {
    DrainRange(expected, buffered);
    var d := Drain(expected, buffered);
    FromRange(expected, buffered, arrivals, d.0, d.1, d.2);
  }

  lemma FromRange(expected: nat, buffered: map<nat, OrchestratorBlock>, arrivals: seq<OrchestratorBlock>,
                  e: nat, m: map<nat, OrchestratorBlock>, released: seq<OrchestratorBlock>)
    requires Stored(buffered, arrivals) && e == expected + |released|
    requires forall h :: h in m <==> h in buffered && h > e
    requires forall h :: h in m ==> m[h] == buffered[h]
    requires forall h :: expected <= h < e ==> h in buffered && released[h - expected] == buffered[h]
    ensures DrainedFrom(expected, buffered, arrivals, e, m, released)
  {
    SmallerMap(m, buffered);
    KeptStored(m, buffered, arrivals);
    FromBuffer(expected, buffered, arrivals, released);
  }

  lemma KeptStored(m: map<nat, OrchestratorBlock>, m': map<nat, OrchestratorBlock>, arrivals: seq<OrchestratorBlock>)
    requires Stored(m', arrivals) && forall h :: h in m ==> h in m' && m[h] == m'[h]
    ensures Stored(m, arrivals)
  {
  }

  lemma SmallerMap(m: map<nat, OrchestratorBlock>, m': map<nat, OrchestratorBlock>)
    requires forall h :: h in m ==> h in m'
    ensures |m| <= |m'|
  {
    SubsetSize(m.Keys, m'.Keys);
    assert |m.Keys| == |m| && |m'.Keys| == |m'|;
  }

  lemma FromBuffer(expected: nat, buffered: map<nat, OrchestratorBlock>, arrivals: seq<OrchestratorBlock>,
                   released: seq<OrchestratorBlock>)
    requires Stored(buffered, arrivals)
    requires forall h :: expected <= h < expected + |released| ==>
        h in buffered && released[h - expected] == buffered[h]
    ensures Consecutive(released, expected) && AllIn(released, arrivals)
  {
    forall i | 0 <= i < |released| ensures released[i] in arrivals && released[i].height == expected + i {
      var h := expected + i;
      assert released[h - expected] == buffered[h];
    }
  }

  ghost predicate InOrder(buf: Buffer, start: nat, arrivals: seq<OrchestratorBlock>, released: seq<OrchestratorBlock>) {
    && buf.expected == start + |released|
    && Consecutive(released, start)
    && AllIn(released, arrivals)
    && Stored(buf.buffered, arrivals)
    && (forall h :: h in buf.buffered ==> h > buf.expected)
    && |buf.buffered| <= (if buf.maxBuffer < 0 then 0 else buf.maxBuffer)
  }

  lemma ReceiveInOrder(buf: Buffer, start: nat, arrivals: seq<OrchestratorBlock>, released: seq<OrchestratorBlock>,
                       b: OrchestratorBlock)
    requires InOrder(buf, start, arrivals, released)
    ensures var (buf', more) := Receive(buf, b);
            InOrder(buf', start, arrivals + [b], released + more) && buf'.maxBuffer == buf.maxBuffer
  {
    if b.height == buf.expected {
      DrainInOrder(buf.expected + 1, buf.buffered, arrivals);
    }
  }

  /** From a fresh buffer, whatever arrives: the blocks released are received blocks of
      the heights start, start + 1, ..., expected - 1 in this order, and the buffer never
      holds more than its capacity. */
  lemma {:induction false} ReleasedInOrder(start: nat, maxBuffer: int, arrivals: seq<OrchestratorBlock>)
    ensures var (buf, released) := ReceiveAll(NewBuffer(start, maxBuffer), arrivals);
            InOrder(buf, start, arrivals, released) && buf.maxBuffer == maxBuffer
  {
    if arrivals != [] {
      var n := |arrivals| - 1;
      ReleasedInOrder(start, maxBuffer, arrivals[..n]);
      var (buf, released) := ReceiveAll(NewBuffer(start, maxBuffer), arrivals[..n]);
      ReceiveInOrder(buf, start, arrivals[..n], released, arrivals[n]);
      assert arrivals[..n] + [arrivals[n]] == arrivals;
    }
  }

  // ---------------------------------------------------------------------------
  // Completeness
  // ---------------------------------------------------------------------------

  ghost predicate Arrived(arrivals: seq<OrchestratorBlock>, h: nat) {
    exists i :: 0 <= i < |arrivals| && arrivals[i].height == h
  }

  /** Every height start..last arrives at least once, and nothing above it. */
  ghost predicate CoversAll(arrivals: seq<OrchestratorBlock>, start: nat, last: nat) {
    && (forall h :: start <= h <= last ==> Arrived(arrivals, h))
    && (forall i :: 0 <= i < |arrivals| ==> arrivals[i].height <= last)
  }

  lemma {:induction false} RangeSize(s: set<nat>, lo: nat, hi: nat)
    requires lo <= hi && forall h :: h in s ==> lo < h <= hi
    ensures |s| <= hi - lo
    decreases hi - lo
  {
    if lo == hi {
      assert s == {};
    } else {
      RangeSize(s - {hi}, lo, hi - 1);
    }
  }

  /** Nothing that arrived and is still needed has been dropped. */
  lemma {:induction false} NothingDropped(start: nat, maxBuffer: int, arrivals: seq<OrchestratorBlock>, last: nat)
    requires start <= last && last - start <= maxBuffer
    requires forall i :: 0 <= i < |arrivals| ==> arrivals[i].height <= last
    ensures var buf := ReceiveAll(NewBuffer(start, maxBuffer), arrivals).0;
            && buf.expected <= last + 1
            && forall i :: 0 <= i < |arrivals| && arrivals[i].height >= buf.expected ==>
                arrivals[i].height in buf.buffered
  {
    if arrivals != [] {
      var n := |arrivals| - 1;
      NothingDropped(start, maxBuffer, arrivals[..n], last);
      var (buf, released) := ReceiveAll(NewBuffer(start, maxBuffer), arrivals[..n]);
      ReleasedInOrder(start, maxBuffer, arrivals[..n]);
      KeepNeeded(buf, start, arrivals[..n], released, arrivals[n], last);
      var buf' := Receive(buf, arrivals[n]).0;
      forall i | 0 <= i < |arrivals|
          && arrivals[i].height >= buf'.expected ensures arrivals[i].height in buf'.buffered {
        if i < n { assert arrivals[..n][i] == arrivals[i]; }
      }
    }
  }

  lemma StoredBelow(buf: Buffer, start: nat, arrivals: seq<OrchestratorBlock>, released: seq<OrchestratorBlock>,
                    last: nat)
    requires InOrder(buf, start, arrivals, released)
    requires forall i :: 0 <= i < |arrivals| ==> arrivals[i].height <= last
    ensures forall h :: h in buf.buffered ==> buf.expected < h <= last
  {
    forall h | h in buf.buffered ensures h <= last {
      var i :| 0 <= i < |arrivals| && arrivals[i] == buf.buffered[h];
    }
  }

  /** There is room for any needed block that is not there yet. */
  lemma RoomLeft(buf: Buffer, h: nat, last: nat)
    requires buf.expected < h <= last && h !in buf.buffered && last - buf.expected <= buf.maxBuffer
    requires forall h :: h in buf.buffered ==> buf.expected < h <= last
    ensures |buf.buffered| < buf.maxBuffer
  {
    var keys := buf.buffered.Keys;
    RangeSize(keys + {h}, buf.expected, last);
    assert |keys + {h}| == |keys| + 1;
  }

  lemma KeepNeeded(buf: Buffer, start: nat, arrivals: seq<OrchestratorBlock>, released: seq<OrchestratorBlock>,
                   b: OrchestratorBlock, last: nat)
    requires InOrder(buf, start, arrivals, released) && buf.expected <= last + 1 && b.height <= last
        && last - start <= buf.maxBuffer
    requires forall i :: 0 <= i < |arrivals| ==> arrivals[i].height <= last
    ensures var buf' := Receive(buf, b).0;
            && buf.expected <= buf'.expected <= last + 1
            && (b.height >= buf'.expected ==> b.height in buf'.buffered)
            && (forall h :: h in buf.buffered && h >= buf'.expected ==> h in buf'.buffered)
  {
    StoredBelow(buf, start, arrivals, released, last);
    if b.height == buf.expected {
      DrainRange(buf.expected + 1, buf.buffered);
      var (e, m, out) := Drain(buf.expected + 1, buf.buffered);
      assert out != [] ==> e - 1 in buf.buffered;
      DrainStops(buf.expected + 1, buf.buffered);
    } else if b.height > buf.expected && b.height !in buf.buffered {
      RoomLeft(buf, b.height, last);
    }
  }

  /** Draining stops at a height that is not buffered. */
  lemma {:induction false} DrainStops(expected: nat, buffered: map<nat, OrchestratorBlock>)
    requires forall h :: h in buffered ==> h >= expected
    ensures Drain(expected, buffered).0 !in buffered
    decreases buffered
  {
    if expected in buffered {
      DrainStops(expected + 1, buffered - {expected});
      DrainRange(expected + 1, buffered - {expected});
    }
  }

  /** If the whole range fits the capacity, every arrival order releases all of it. */
  lemma Completeness(start: nat, maxBuffer: int, arrivals: seq<OrchestratorBlock>, last: nat)
    requires start <= last && last - start <= maxBuffer && CoversAll(arrivals, start, last)
    ensures var (buf, released) := ReceiveAll(NewBuffer(start, maxBuffer), arrivals);
            buf.expected == last + 1 && |released| == last + 1 - start
  {
    var (buf, released) := ReceiveAll(NewBuffer(start, maxBuffer), arrivals);
    NothingDropped(start, maxBuffer, arrivals, last);
    ReleasedInOrder(start, maxBuffer, arrivals);
    assert buf.expected <= last ==> Arrived(arrivals, buf.expected);
  }

  /** The worst order: the first block comes last. */
  function FirstComesLast(start: nat, n: nat): seq<OrchestratorBlock> {
    seq(n, i requires 0 <= i < n => OrchestratorBlock(start + 1 + i, map[], [])) + [OrchestratorBlock(start, map[], [])]
  }

  lemma {:induction false} FillsUp(start: nat, maxBuffer: nat, arrivals: seq<OrchestratorBlock>)
    requires forall i :: 0 <= i < |arrivals| ==> arrivals[i].height == start + 1 + i
    ensures var buf := ReceiveAll(NewBuffer(start, maxBuffer), arrivals).0;
            && buf.expected == start && buf.maxBuffer == maxBuffer
            && |buf.buffered| == (if |arrivals| <= maxBuffer then |arrivals| else maxBuffer)
            && forall h :: h in buf.buffered <==> start < h <= start + |arrivals| && h <= start + maxBuffer
  {
    if arrivals != [] {
      FillsUp(start, maxBuffer, arrivals[..|arrivals| - 1]);
    }
  }

  lemma WorstOrderFails(start: nat, maxBuffer: nat, last: nat)
    requires start <= last && last - start > maxBuffer
    ensures CoversAll(FirstComesLast(start, last - start), start, last)
    ensures ReceiveAll(NewBuffer(start, maxBuffer), FirstComesLast(start, last - start)).0.expected != last + 1
  {
    var n := last - start;
    var arrivals := FirstComesLast(start, n);
    forall h | start <= h <= last ensures Arrived(arrivals, h) {
      assert arrivals[if h == start then n else h - start - 1].height == h;
    }
    assert arrivals[..n] == arrivals[..|arrivals| - 1];
    FillsUp(start, maxBuffer, arrivals[..n]);
    DrainFull(start, maxBuffer, ReceiveAll(NewBuffer(start, maxBuffer), arrivals[..n]).0.buffered, last);
  }

  lemma DrainFull(start: nat, maxBuffer: nat, buffered: map<nat, OrchestratorBlock>, last: nat)
    requires last - start > maxBuffer
    requires forall h :: h in buffered ==> start < h <= start + maxBuffer
    ensures Drain(start + 1, buffered).0 <= last
  {
    DrainRange(start + 1, buffered);
    var e := Drain(start + 1, buffered).0;
    assert e > last ==> last in buffered;
  }

  /** The capacity bound is exact: every order of arrival releases the whole range
      start..last if and only if last - start is at most the capacity. */
  lemma CapacityIsExact(start: nat, maxBuffer: nat, last: nat)
    requires start <= last
    ensures (forall arrivals :: CoversAll(arrivals, start, last) ==>
        ReceiveAll(NewBuffer(start, maxBuffer), arrivals).0.expected == last + 1)
       <==> last - start <= maxBuffer
  {
    if last - start <= maxBuffer {
      forall arrivals | CoversAll(arrivals, start, last)
        ensures ReceiveAll(NewBuffer(start, maxBuffer), arrivals).0.expected == last + 1
      {
        Completeness(start, maxBuffer, arrivals, last);
      }
    } else {
      WorstOrderFails(start, maxBuffer, last);
    }
  }

  // ---------------------------------------------------------------------------
  // Delivery of a chain
  // ---------------------------------------------------------------------------

  /** All buffered blocks are blocks of the given chain, above the expected height. */
  ghost predicate FromChain(buf: Buffer, chain: seq<OrchestratorBlock>) {
    forall h :: h in buf.buffered ==> buf.expected < h < |chain| && buf.buffered[h] == chain[h]
  }

  lemma {:induction false} DrainChain(expected: nat, buffered: map<nat, OrchestratorBlock>,
                                      chain: seq<OrchestratorBlock>)
    requires forall h :: h in buffered ==> expected <= h < |chain| && buffered[h] == chain[h]
    requires expected <= |chain|
    ensures var (e, m, released) := Drain(expected, buffered);
            && expected <= e <= |chain| && released == chain[expected..e]
            && forall h :: h in m ==> e < h < |chain| && m[h] == chain[h]
    decreases buffered
  {
    if expected in buffered {
      DrainChain(expected + 1, buffered - {expected}, chain);
    }
  }

  /** Whichever block of a chain arrives, what is released is the next stretch of the chain. */
  lemma ReceiveChain(buf: Buffer, chain: seq<OrchestratorBlock>, h: nat)
    requires FromChain(buf, chain) && buf.expected <= |chain| && h < |chain| && chain[h].height == h
    ensures var (buf', released) := Receive(buf, chain[h]);
            && buf.expected <= buf'.expected <= |chain|
            && released == chain[buf.expected..buf'.expected]
            && FromChain(buf', chain)
  {
    if h == buf.expected {
      DrainChain(h + 1, buf.buffered, chain);
    }
  }
}
