/** Choosing the commitment that a quorum of witnesses broadcast. */
module ConsensusCommitment {
  import opened Wrappers
  import opened Bytes
  import opened Blooms
  import opened Protocol
  import opened Sequences

  datatype Commitment = Commitment(dataHash: Digest, signature: seq<Byte>)

  predicate Saw(fnv: Fnv, w: Witness, c: Commitment) {
    Contains(fnv, w.broadcastBloom, c.dataHash)
  }

  /** A filter that started empty has seen the commitments whose hash its items cover under every key. */
  lemma SawIffBroadcast(fnv: Fnv, w: Witness, items: seq<seq<Byte>>, c: Commitment)
    requires w.broadcastBloom == AddAll(fnv, Empty(w.broadcastBloom.keys, 1024), items)
    ensures Saw(fnv, w, c)
            <==> forall k | 0 <= k < 8 ::
                   Covered(fnv, w.broadcastBloom.keys, 1024, items, c.dataHash, w.broadcastBloom.keys[k])
    ensures c.dataHash in items ==> Saw(fnv, w, c)
  {
    ContainsIffCovered(fnv, w.broadcastBloom.keys, 1024, items, c.dataHash);
  }

  /** The witness votes for the `i`-th commitment: it is the first one it saw. */
  predicate VotesFor(fnv: Fnv, commitments: seq<Commitment>, w: Witness, i: nat)
    requires i < |commitments|
  {
    Saw(fnv, w, commitments[i]) && forall j | 0 <= j < i :: !Saw(fnv, w, commitments[j])
  }

  /** The witnesses that vote for a commitment. */
  ghost function Voters(fnv: Fnv, commitments: seq<Commitment>, witnesses: seq<Witness>, i: nat): set<nat>
    requires i < |commitments|
  {
    set w: nat | w < |witnesses| && VotesFor(fnv, commitments, witnesses[w], i)
  }

  ghost function Score(fnv: Fnv, commitments: seq<Commitment>, witnesses: seq<Witness>, i: nat): nat
    requires i < |commitments|
  {
    |Voters(fnv, commitments, witnesses, i)|
  }

  /** The votes given to the first `n` commitments. */
  ghost function TotalScore(fnv: Fnv, commitments: seq<Commitment>, witnesses: seq<Witness>, n: nat): nat
    requires n <= |commitments|
  {
    if n == 0 then 0
    else TotalScore(fnv, commitments, witnesses, n - 1) + Score(fnv, commitments, witnesses, n - 1)
  }

  predicate VotesBefore(fnv: Fnv, commitments: seq<Commitment>, w: Witness, n: nat)
    requires n <= |commitments|
  {
    exists i :: 0 <= i < n && VotesFor(fnv, commitments, w, i)
  }

  ghost function VotersUpTo(fnv: Fnv, commitments: seq<Commitment>, witnesses: seq<Witness>, n: nat): set<nat>
    requires n <= |commitments|
  {
    set w: nat | w < |witnesses| && VotesBefore(fnv, commitments, witnesses[w], n)
  }

  lemma VotesBeforeStep(fnv: Fnv, commitments: seq<Commitment>, w: Witness, n: nat)
    requires n < |commitments|
    ensures VotesBefore(fnv, commitments, w, n + 1)
            <==> VotesBefore(fnv, commitments, w, n) || VotesFor(fnv, commitments, w, n)
    ensures !(VotesBefore(fnv, commitments, w, n) && VotesFor(fnv, commitments, w, n))
  {
  }

  lemma VotersUpToStep(fnv: Fnv, commitments: seq<Commitment>, witnesses: seq<Witness>, n: nat)
    requires n < |commitments|
    ensures |VotersUpTo(fnv, commitments, witnesses, n + 1)|
            == |VotersUpTo(fnv, commitments, witnesses, n)| + Score(fnv, commitments, witnesses, n)
  {
    forall w: nat | w < |witnesses|
      ensures VotesBefore(fnv, commitments, witnesses[w], n + 1)
              <==> VotesBefore(fnv, commitments, witnesses[w], n) || VotesFor(fnv, commitments, witnesses[w], n)
      ensures !(VotesBefore(fnv, commitments, witnesses[w], n) && VotesFor(fnv, commitments, witnesses[w], n))
    {
      VotesBeforeStep(fnv, commitments, witnesses[w], n);
    }
    var before, voters := VotersUpTo(fnv, commitments, witnesses, n), Voters(fnv, commitments, witnesses, n);
    assert before !! voters;
    assert VotersUpTo(fnv, commitments, witnesses, n + 1) == before + voters;
  }

  lemma NoVotersYet(fnv: Fnv, commitments: seq<Commitment>, witnesses: seq<Witness>)
    ensures |VotersUpTo(fnv, commitments, witnesses, 0)| == 0
  {
    assert VotersUpTo(fnv, commitments, witnesses, 0) == {};
  }

  lemma {:induction false} TotalIsUnion(fnv: Fnv, commitments: seq<Commitment>, witnesses: seq<Witness>, n: nat)
    requires n <= |commitments|
    ensures TotalScore(fnv, commitments, witnesses, n) == |VotersUpTo(fnv, commitments, witnesses, n)|
  {
    if n == 0 {
      NoVotersYet(fnv, commitments, witnesses);
    } else {
      var m := n - 1;
      TotalIsUnion(fnv, commitments, witnesses, m);
      VotersUpToStep(fnv, commitments, witnesses, m);
      TotalScoreStep(fnv, commitments, witnesses, m);
    }
  }

  lemma TotalScoreStep(fnv: Fnv, commitments: seq<Commitment>, witnesses: seq<Witness>, n: nat)
    requires n < |commitments|
    ensures TotalScore(fnv, commitments, witnesses, n + 1)
            == TotalScore(fnv, commitments, witnesses, n) + Score(fnv, commitments, witnesses, n)
  {
  }

  /** One vote each: all scores together never exceed the number of witnesses. */
  lemma TotalScoreBound(fnv: Fnv, commitments: seq<Commitment>, witnesses: seq<Witness>)
    ensures TotalScore(fnv, commitments, witnesses, |commitments|) <= |witnesses|
  {
    TotalIsUnion(fnv, commitments, witnesses, |commitments|);
    BoundedSetSize(VotersUpTo(fnv, commitments, witnesses, |commitments|), |witnesses|);
  }

  lemma TwoScoresBound(fnv: Fnv, commitments: seq<Commitment>, witnesses: seq<Witness>, i: nat, j: nat)
    requires i < j < |commitments|
    ensures Score(fnv, commitments, witnesses, i) + Score(fnv, commitments, witnesses, j) <= |witnesses|
  {
    var a, b := Voters(fnv, commitments, witnesses, i), Voters(fnv, commitments, witnesses, j);
    assert a !! b;
    BoundedSetSize(a + b, |witnesses|);
  }

  /** When two quorums cannot both fit among the witnesses, at most one commitment reaches it. */
  lemma QuorumIsUnique(fnv: Fnv, commitments: seq<Commitment>, witnesses: seq<Witness>, quorum: nat, i: nat, j: nat)
    requires 2 * quorum > |witnesses| && i < |commitments| && j < |commitments|
    requires Score(fnv, commitments, witnesses, i) >= quorum && Score(fnv, commitments, witnesses, j) >= quorum
    ensures i == j
  {
    if i < j {
      TwoScoresBound(fnv, commitments, witnesses, i, j);
    } else if j < i {
      TwoScoresBound(fnv, commitments, witnesses, j, i);
    }
  }

  lemma VoterAdded(fnv: Fnv, commitments: seq<Commitment>, witnesses: seq<Witness>, i: nat)
    requires witnesses != [] && i < |commitments|
    ensures var n := |witnesses| - 1;
            Score(fnv, commitments, witnesses, i)
            == Score(fnv, commitments, witnesses[..n], i)
               + if VotesFor(fnv, commitments, witnesses[n], i) then 1 else 0
  {
    var n := |witnesses| - 1;
    var before := Voters(fnv, commitments, witnesses[..n], i);
    if VotesFor(fnv, commitments, witnesses[n], i) {
      assert Voters(fnv, commitments, witnesses, i) == before + {n};
    } else {
      assert Voters(fnv, commitments, witnesses, i) == before;
    }
  }

  /** The scores after every witness has cast its vote. */
  method Tally(fnv: Fnv, commitments: seq<Commitment>, witnesses: seq<Witness>) returns (scores: array<nat>)
    ensures fresh(scores) && scores.Length == |commitments|
    ensures forall i | 0 <= i < |commitments| :: scores[i] == Score(fnv, commitments, witnesses, i)
  {
    scores := new nat[|commitments|](_ => 0);
    forall i | 0 <= i < |commitments|
      ensures Score(fnv, commitments, witnesses[..0], i) == 0
    {
      assert Voters(fnv, commitments, witnesses[..0], i) == {};
    }
    for w := 0 to |witnesses|
      invariant forall i | 0 <= i < |commitments| :: scores[i] == Score(fnv, commitments, witnesses[..w], i)
    {
      CastVote(fnv, commitments, witnesses[w], scores);
      assert witnesses[..w + 1][..w] == witnesses[..w];
      forall i | 0 <= i < |commitments|
        ensures scores[i] == Score(fnv, commitments, witnesses[..w + 1], i)
      {
        VoterAdded(fnv, commitments, witnesses[..w + 1], i);
      }
    }
    assert witnesses[..|witnesses|] == witnesses;
  }

  method CastVote(fnv: Fnv, commitments: seq<Commitment>, w: Witness, scores: array<nat>)
    requires scores.Length == |commitments|
    modifies scores
    ensures forall i | 0 <= i < |commitments| ::
              scores[i] == old(scores[i]) + if VotesFor(fnv, commitments, w, i) then 1 else 0
  {
    for index := 0 to |commitments|
      invariant forall j | 0 <= j < index :: !Saw(fnv, w, commitments[j])
      invariant forall i | 0 <= i < |commitments| :: scores[i] == old(scores[i])
    {
      if Contains(fnv, w.broadcastBloom, commitments[index].dataHash) {
        scores[index] := scores[index] + 1;
        break;
      }
    }
  }

  /** The last of the highest among the first `n` scores, if any of them reaches the quorum. */
  predicate Leads(scores: seq<nat>, quorum: nat, winner: Option<nat>, n: nat)
    requires n <= |scores|
  {
    match winner
    case None => forall j | 0 <= j < n :: scores[j] < quorum
    case Some(w) =>
      && w < n && scores[w] >= quorum
      && (forall j | 0 <= j < n :: scores[j] <= scores[w])
      && (forall j | w < j < n :: scores[j] < scores[w])
  }

  lemma LeadsOn(scores: seq<nat>, quorum: nat, winner: Option<nat>, n: nat)
    requires n < |scores| && Leads(scores, quorum, winner, n)
    ensures var better := scores[n] >= quorum && (winner.None? || scores[n] >= scores[winner.value]);
            Leads(scores, quorum, if better then Some(n) else winner, n + 1)
  {
  }

  /**
  The last of the highest-scoring commitments, provided it reaches the quorum; nothing when none
  does.
  */
  method SelectConsensusCommitment(fnv: Fnv, commitments: seq<Commitment>, witnesses: seq<Witness>, quorum: nat)
    returns (winner: Option<nat>)
    ensures winner.None? <==> forall i | 0 <= i < |commitments| :: Score(fnv, commitments, witnesses, i) < quorum
    ensures winner.Some? ==>
              && winner.value < |commitments|
              && Score(fnv, commitments, witnesses, winner.value) >= quorum
              && (forall i | 0 <= i < |commitments| ::
                    Score(fnv, commitments, witnesses, i) <= Score(fnv, commitments, witnesses, winner.value))
              && (forall i | winner.value < i < |commitments| ::
                    Score(fnv, commitments, witnesses, i) < Score(fnv, commitments, witnesses, winner.value))
  {
    var scores := Tally(fnv, commitments, witnesses);
    ghost var tally := scores[..];
    assert forall i | 0 <= i < |commitments| :: tally[i] == Score(fnv, commitments, witnesses, i);
    winner := None;
    for i := 0 to |commitments|
      invariant scores[..] == tally && Leads(tally, quorum, winner, i)
    {
      LeadsOn(tally, quorum, winner, i);
      if scores[i] >= quorum && (winner.None? || scores[i] >= scores[winner.value]) {
        winner := Some(i);
      }
    }
  }
}
