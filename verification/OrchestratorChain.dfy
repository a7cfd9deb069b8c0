/** The orchestrator chain as an object updated in place; each method is proved to
    compute its namesake in OrchestratorSpec. */
module OrchestratorChain {
  import opened Protocol
  import opened OrchestratorSpec

  class Chain {
    var blocks: seq<OrchestratorBlock>
    var height: nat
    var pendingTxs: seq<CrossShardTx>
    var awaitingVotes: map<TxId, CrossShardTx>
    var pendingResult: map<TxId, bool>
    var votes: map<TxId, map<int, bool>>
    var expectedVoters: map<TxId, seq<int>>
    var voteStartBlock: map<TxId, nat>
    var voteTimeout: nat

    ghost predicate Valid()
      reads this
    {
      |blocks| == height + 1
    }

    ghost function Model(): Orch
      reads this
    {
      Orch(blocks, pendingTxs, awaitingVotes, pendingResult, votes, expectedVoters, voteStartBlock, voteTimeout)
    }

    constructor (voteTimeout: nat)
      ensures Valid() && Model() == NewOrch(voteTimeout)
    {
      blocks, height, pendingTxs := [GENESIS], 0, [];
      awaitingVotes, pendingResult, votes, expectedVoters, voteStartBlock := map[], map[], map[], map[], map[];
      this.voteTimeout := voteTimeout;
    }

    method AddTransaction(tx: CrossShardTx)
      requires Valid()
      modifies this`pendingTxs
      ensures Valid() && Model() == OrchestratorSpec.AddTransaction(old(Model()), tx)
    {
      pendingTxs := pendingTxs + [tx];
    }

    method Finish(t: TxId, committed: bool)
      modifies this`pendingResult, this`awaitingVotes, this`votes, this`expectedVoters, this`voteStartBlock
      ensures Model() == Settle(old(Model()), t, committed)
    {
      pendingResult := pendingResult[t := committed];
      awaitingVotes := awaitingVotes - {t};
      votes := votes - {t};
      expectedVoters := expectedVoters - {t};
      voteStartBlock := voteStartBlock - {t};
    }

    method AllHaveVoted(expected: seq<int>, cast: map<int, bool>) returns (allVoted: bool)
      ensures allVoted <==> AllVoted(expected, cast)
    {
      allVoted := |cast| >= |expected|;
      var i := 0;
      while i < |expected| && allVoted
        invariant 0 <= i <= |expected|
        invariant allVoted ==> |cast| >= |expected| && forall j :: 0 <= j < i ==> expected[j] in cast
        invariant !allVoted ==> !AllVoted(expected, cast)
      {
        if expected[i] !in cast {
          allVoted := false;
        }
        i := i + 1;
      }
    }

    method RecordVote(t: TxId, shardID: int, canCommit: bool) returns (accepted: bool)
      requires Valid()
      modifies this`pendingResult, this`awaitingVotes, this`votes, this`expectedVoters, this`voteStartBlock
      ensures Valid() && Model() == OrchestratorSpec.RecordVote(old(Model()), t, shardID, canCommit)
      ensures accepted <==> VoteAccepted(old(Model()), t, shardID)
    {
      if t !in awaitingVotes {
        return false;
      }
      var sofar := if t in votes then votes[t] else map[];
      if shardID in sofar {
        return false;
      }
      var cast := sofar[shardID := canCommit];
      if !canCommit {
        Finish(t, false);
        return true;
      }
      var expected := if t in expectedVoters then expectedVoters[t] else [];
      var all := AllHaveVoted(expected, cast);
      if all {
        Finish(t, true);
        return true;
      }
      votes := votes[t := cast];
      accepted := true;
    }

    /** The overdue transactions, found by walking the map in any order. */
    method FindTimedOut() returns (timedOut: seq<TxId>)
      requires Valid()
      ensures forall t :: t in timedOut <==> t in Expired(Model())
    {
      timedOut := [];
      var remaining := awaitingVotes.Keys;
      while remaining != {}
        invariant remaining <= awaitingVotes.Keys
        invariant forall t :: t in timedOut <==> t in Expired(Model()) && t !in remaining
        decreases remaining
      {
        var t :| t in remaining;
        remaining := remaining - {t};
        if t in voteStartBlock && height >= voteStartBlock[t] + voteTimeout {
          timedOut := timedOut + [t];
        }
      }
    }

    method AbortEach(timedOut: seq<TxId>)
      modifies this`pendingResult, this`awaitingVotes, this`votes, this`expectedVoters, this`voteStartBlock
      ensures Model() == AbortAll(old(Model()), Ids(timedOut))
    {
      ghost var start := Model();
      SettleNothing(start);
      for i := 0 to |timedOut|
        invariant Model() == AbortAll(start, Ids(timedOut[..i]))
      {
        SettleOneMore(start, Ids(timedOut[..i]), timedOut[i]);
        assert Ids(timedOut[..i + 1]) == Ids(timedOut[..i]) + {timedOut[i]};
        Finish(timedOut[i], false);
      }
      assert timedOut[..|timedOut|] == timedOut;
    }

    method CheckTimeouts() returns (timedOut: seq<TxId>)
      requires Valid()
      modifies this`pendingResult, this`awaitingVotes, this`votes, this`expectedVoters, this`voteStartBlock
      ensures Valid() && Model() == OrchestratorSpec.CheckTimeouts(old(Model()))
      ensures forall t :: t in timedOut <==> t in Expired(old(Model()))
    {
      timedOut := FindTimedOut();
      assert Ids(timedOut) == Expired(Model());
      AbortEach(timedOut);
    }

    method StartVoting(txs: seq<CrossShardTx>, newHeight: nat)
      modifies this`awaitingVotes, this`expectedVoters, this`voteStartBlock
      ensures Model() == Await(old(Model()), txs, newHeight)
    {
      for i := 0 to |txs|
        invariant Model() == Await(old(Model()), txs[..i], newHeight)
      {
        assert txs[..i + 1][..i] == txs[..i];
        var tx := txs[i];
        var involved := InvolvedShards(tx);
        awaitingVotes := awaitingVotes[tx.id := tx];
        expectedVoters := expectedVoters[tx.id := involved];
        voteStartBlock := voteStartBlock[tx.id := newHeight];
      }
      assert txs[..|txs|] == txs;
    }

    method ProduceBlock() returns (block: OrchestratorBlock)
      requires Valid()
      modifies this
      ensures Valid() && Model() == ProduceOrchBlock(old(Model()))
      ensures blocks == old(blocks) + [block]
    {
      var _ := CheckTimeouts();
      block := OrchestratorBlock(height + 1, pendingResult, pendingTxs);
      StartVoting(pendingTxs, height + 1);
      blocks := blocks + [block];
      height := height + 1;
      pendingTxs := [];
      pendingResult := map[];
    }
  }

  ghost function Ids(ts: seq<TxId>): set<TxId> {
    set t | t in ts
  }

  /** What CheckTimeouts does, for any set of transactions. */
  ghost function AbortAll(o: Orch, gone: set<TxId>): Orch {
    o.(result := o.result + (map t | t in gone :: false), awaiting := o.awaiting - gone, votes := o.votes - gone,
       expected := o.expected - gone, start := o.start - gone)
  }

  lemma MinusNothing<V>(m: map<TxId, V>)
    ensures m - {} == m
  {
  }

  lemma MinusOneMore<V>(m: map<TxId, V>, gone: set<TxId>, t: TxId)
    ensures m - gone - {t} == m - (gone + {t})
  {
  }

  lemma SettleNothing(o: Orch)
    ensures AbortAll(o, {}) == o
  {
    MinusNothing(o.awaiting);
    MinusNothing(o.votes);
    MinusNothing(o.expected);
    MinusNothing(o.start);
    assert AbortAll(o, {}).result == o.result;
  }

  lemma AbortOneMore(result: map<TxId, bool>, gone: set<TxId>, t: TxId)
    ensures (result + (map u | u in gone :: false))[t := false] == result + (map u | u in gone + {t} :: false)
  {
  }

  lemma SettleOneMore(o: Orch, gone: set<TxId>, t: TxId)
    ensures Settle(AbortAll(o, gone), t, false) == AbortAll(o, gone + {t})
  {
    MinusOneMore(o.awaiting, gone, t);
    MinusOneMore(o.votes, gone, t);
    MinusOneMore(o.expected, gone, t);
    MinusOneMore(o.start, gone, t);
    AbortOneMore(o.result, gone, t);
  }
}
