/** How many witnesses make a quorum, and what a quorum of them can and cannot decide. */
module CoordinatorQuorum {
  import opened Bytes
  import opened Blooms
  import opened Protocol
  import opened ConsensusCommitment
  import opened CoordinatorModel

  /** All of one or two witnesses, two of three, and from four on two thirds, rounded down. */
  predicate IsQuorumOf(quorum: nat, n: nat) {
    && (n == 1 ==> quorum == 1)
    && (n == 2 || n == 3 ==> quorum == 2)
    && (n >= 4 ==> 3 * quorum <= 2 * n < 3 * (quorum + 1))
  }

  /** There is a quorum of any number of witnesses but zero, and it is that one. */
  lemma QuorumIsTwoThirds(config: Config, numWitnesses: nat)
    ensures var n := if config.witnessNodes == 0 then numWitnesses else config.witnessNodes;
            && (Quorum(config, numWitnesses).Running? <==> n > 0)
            && (n > 0 ==> IsQuorumOf(Quorum(config, numWitnesses).value, n))
  {
  }

  /** A quorum is a majority of the witnesses, except of four. */
  lemma QuorumIsMajorityIff(quorum: nat, n: nat)
    requires n > 0 && IsQuorumOf(quorum, n)
    ensures 2 * quorum > n <==> n != 4
    ensures 0 < quorum <= n
  {
  }

  /**
  At the quorum of the protocol itself, at most one commitment is carried by it, whatever the number of
  witnesses in the messages up to the number there is a quorum of, so long as that is not four.
  */
  lemma WinnerIsUnique(config: Config, fnv: Fnv, commitments: seq<Commitment>, witnesses: seq<Witness>, i: nat, j: nat)
    requires config.witnessNodes == 0 || |witnesses| <= config.witnessNodes
    requires var n := if config.witnessNodes == 0 then |witnesses| else config.witnessNodes; 0 < n && n != 4
    requires i < |commitments| && j < |commitments|
    requires Quorum(config, |witnesses|).Running?
    requires Score(fnv, commitments, witnesses, i) >= Quorum(config, |witnesses|).value
    requires Score(fnv, commitments, witnesses, j) >= Quorum(config, |witnesses|).value
    ensures i == j
  {
    QuorumIsTwoThirds(config, |witnesses|);
    QuorumIsMajorityIff(Quorum(config, |witnesses|).value,
                        if config.witnessNodes == 0 then |witnesses| else config.witnessNodes);
    QuorumIsUnique(fnv, commitments, witnesses, Quorum(config, |witnesses|).value, i, j);
  }

  // ----- four witnesses -----

  /** Sends the digests that start with a zero to bit zero, and all others to bit one. */
  function FirstByteFnv(): Fnv {
    (item: seq<Byte>, key: nat) => if item != [] && item[0] == 0 then 0 else 1
  }

  function OneBit(bit: nat): (b: WitnessBloom)
    requires bit < 1024
  {
    Bloom(seq(8, _ => 0), seq(1024, p => p == bit))
  }

  function VoterFor(bit: nat): Witness
    requires bit < 1024
  {
    Witness(WitnessProof(0, 0, true), OneBit(0), OneBit(bit), seq(32, _ => 0))
  }

  function CommitmentWith(first: Byte): Commitment {
    Commitment([first] + seq(31, _ => 0), [])
  }

  lemma VoterSees(bit: nat, first: Byte)
    requires bit <= 1 && first <= 1
    ensures Saw(FirstByteFnv(), VoterFor(bit), CommitmentWith(first)) <==> bit == first
  {
    var b := OneBit(bit);
    assert b.keys[0] == 0 && |b.bits| == 1024;
    assert forall k | 0 <= k < |b.keys| ::
        Pos(FirstByteFnv(), |b.bits|, CommitmentWith(first).dataHash, b.keys[k]) == first;
  }

  const RIVALS: seq<Commitment> := [CommitmentWith(0), CommitmentWith(1)]

  const FOUR: seq<Witness> := [VoterFor(0), VoterFor(0), VoterFor(1), VoterFor(1)]

  lemma VoterVotes(bit: nat, i: nat)
    requires bit <= 1 && i <= 1
    ensures VotesFor(FirstByteFnv(), RIVALS, VoterFor(bit), i) <==> bit == i
  {
    VoterSees(bit, 0);
    VoterSees(bit, 1);
  }

  lemma RivalGetsTwo(i: nat)
    requires i <= 1
    ensures Score(FirstByteFnv(), RIVALS, FOUR, i) == 2
  {
    VoterVotes(0, i);
    VoterVotes(1, i);
    assert Voters(FirstByteFnv(), RIVALS, FOUR, i) == {2 * i, 2 * i + 1};
  }

  /** Of four witnesses, two for each of two commitments make a quorum for both. */
  lemma FourCanTie(config: Config)
    requires config.witnessNodes == 0 || config.witnessNodes == 4
    ensures |FOUR| == 4 && |RIVALS| == 2 && RIVALS[0] != RIVALS[1]
    ensures Quorum(config, |FOUR|) == Running(2)
    ensures Score(FirstByteFnv(), RIVALS, FOUR, 0) == 2 && Score(FirstByteFnv(), RIVALS, FOUR, 1) == 2
  {
    RivalGetsTwo(0);
    RivalGetsTwo(1);
    RivalsDiffer();
  }

  lemma RivalsDiffer()
    ensures CommitmentWith(0) != CommitmentWith(1)
  {
    assert CommitmentWith(0).dataHash[0] != CommitmentWith(1).dataHash[0];
  }
}
