/** Who does what in a round: the committee split and the election of witnesses. */
module Committees {
  import opened Wrappers
  import opened Bytes
  import opened Nonlinear
  import opened Protocol
  import opened SwapOrNot

  /** "committee" */
  const COMMITTEE_SALT: seq<Byte> := [99, 111, 109, 109, 105, 116, 116, 101, 101]
  /** "witness" */
  const WITNESS_SALT: seq<Byte> := [119, 105, 116, 110, 101, 115, 115]

  datatype CommitteeSelection = CommitteeSelection(
    tieBreakerNodes: nat,
    verifierNodes: nat,
    totalNodes: nat,
    witnessNodes: nat,
    seed: Digest)
  {
    function Shuffled(sha: Sha, index: nat, salt: seq<Byte>): (position: nat)
      requires index < totalNodes
      ensures position < totalNodes
    {
      ShuffledIndex(sha, sha(seed + salt), totalNodes, index)
    }

    function CommitteeFromPosition(position: nat): Committee {
      if position < tieBreakerNodes then TieBreaker
      else if position < tieBreakerNodes + verifierNodes then Verifier
      else Trainer
    }

    predicate WitnessFromPosition(position: nat) {
      if witnessNodes == 0 then position < SOLANA_MAX_NUM_WITNESSES else position < witnessNodes
    }

    function GetWitness(sha: Sha, index: nat): WitnessProof
      requires index < totalNodes
    {
      var position := Shuffled(sha, index, WITNESS_SALT);
      WitnessProof(position, index, WitnessFromPosition(position))
    }

    function GetCommittee(sha: Sha, index: nat): CommitteeProof
      requires index < totalNodes
    {
      var position := Shuffled(sha, index, COMMITTEE_SALT);
      CommitteeProof(CommitteeFromPosition(position), position, index)
    }

    predicate VerifyWitness(sha: Sha, proof: WitnessProof)
      requires proof.index < totalNodes
    {
      var position := Shuffled(sha, proof.index, WITNESS_SALT);
      proof.position == position && proof.isWitness == WitnessFromPosition(position)
    }

    predicate VerifyCommittee(sha: Sha, proof: CommitteeProof)
      requires proof.index < totalNodes
    {
      var position := Shuffled(sha, proof.index, COMMITTEE_SALT);
      proof.position == position && proof.committee == CommitteeFromPosition(position)
    }

    predicate VerifyWitnessForClient(sha: Sha, id: NodeId, proof: WitnessProof, clients: seq<Client>)
      requires VerifyClient(id, proof.index, clients) ==> proof.index < totalNodes
    {
      VerifyClient(id, proof.index, clients) && VerifyWitness(sha, proof)
    }

    predicate VerifyCommitteeForClient(sha: Sha, id: NodeId, proof: CommitteeProof, clients: seq<Client>)
      requires VerifyClient(id, proof.index, clients) ==> proof.index < totalNodes
    {
      VerifyClient(id, proof.index, clients) && VerifyCommittee(sha, proof)
    }

    /** The indices elected as witnesses. */
    ghost function Elected(sha: Sha): set<nat> {
      set i: nat | i < totalNodes && GetWitness(sha, i).isWitness
    }

    /** The indices assigned to one committee. */
    ghost function Members(sha: Sha, committee: Committee): set<nat> {
      set i: nat | i < totalNodes && GetCommittee(sha, i).committee == committee
    }

    /** How many witnesses a round elects. */
    function ElectedCount(): nat {
      var wanted := if witnessNodes == 0 then SOLANA_MAX_NUM_WITNESSES else witnessNodes;
      if totalNodes < wanted then totalNodes else wanted
    }
  }

  predicate VerifyClient(id: NodeId, index: nat, clients: seq<Client>) {
    index < |clients| && clients[index].id == id
  }

  function New(sha: Sha, tieBreakerNodes: nat, witnessNodes: nat, verificationPercent: nat, totalNodes: nat, seed: nat)
    : Result<CommitteeSelection, CoordinatorError>
  {
    if totalNodes >= U64_MAX then Failure(InvalidCommitteeSelection)
    else if totalNodes < tieBreakerNodes then Failure(InvalidCommitteeSelection)
    else if witnessNodes != 0 && totalNodes < witnessNodes then Failure(InvalidCommitteeSelection)
    else if verificationPercent > 100 then Failure(InvalidCommitteeSelection)
    else
      var freeNodes := totalNodes - tieBreakerNodes;
      var verifierNodes := freeNodes * verificationPercent / 100;
      Success(CommitteeSelection(
                tieBreakerNodes, verifierNodes, totalNodes, witnessNodes, sha(ToLittleEndian(seed, 8))))
  }

  /** A committee proof verifies exactly when it is the one the selection itself would issue. */
  lemma VerifyCommitteeIffIssued(sel: CommitteeSelection, sha: Sha, proof: CommitteeProof)
    requires proof.index < sel.totalNodes
    ensures sel.VerifyCommittee(sha, proof) <==> proof == sel.GetCommittee(sha, proof.index)
  {
    assert proof == CommitteeProof(proof.committee, proof.position, proof.index);
  }

  /** Likewise for witness proofs: nobody can verify a membership they were not given. */
  lemma VerifyWitnessIffIssued(sel: CommitteeSelection, sha: Sha, proof: WitnessProof)
    requires proof.index < sel.totalNodes
    ensures sel.VerifyWitness(sha, proof) <==> proof == sel.GetWitness(sha, proof.index)
  {
    assert proof == WitnessProof(proof.position, proof.index, proof.isWitness);
  }

  lemma PercentageBound(n: nat, percent: nat)
    requires percent <= 100
    ensures n * percent / 100 <= n
  {
    MulMonotone(n, percent, 100);
  }

  /**
  Over all indices the split is exact: every selection that `New` accepts puts precisely the
  requested numbers of nodes in each committee and elects precisely `ElectedCount` witnesses.
  */
  lemma SplitIsExact(sha: Sha, tieBreakerNodes: nat, witnessNodes: nat, verificationPercent: nat, totalNodes: nat,
                     seed: nat)
    requires New(sha, tieBreakerNodes, witnessNodes, verificationPercent, totalNodes, seed).Success?
    ensures var sel := New(sha, tieBreakerNodes, witnessNodes, verificationPercent, totalNodes, seed).value;
            var verifiers := (totalNodes - tieBreakerNodes) * verificationPercent / 100;
            && |sel.Members(sha, TieBreaker)| == tieBreakerNodes
            && |sel.Members(sha, Verifier)| == verifiers
            && |sel.Members(sha, Trainer)| == totalNodes - tieBreakerNodes - verifiers
            && |sel.Elected(sha)| == sel.ElectedCount()
  {
    PercentageBound(totalNodes - tieBreakerNodes, verificationPercent);
    var sel := New(sha, tieBreakerNodes, witnessNodes, verificationPercent, totalNodes, seed).value;
    CommitteeSizes(sel, sha);
    ElectedSize(sel, sha);
  }

  lemma CommitteeSizes(sel: CommitteeSelection, sha: Sha)
    requires sel.tieBreakerNodes + sel.verifierNodes <= sel.totalNodes
    ensures |sel.Members(sha, TieBreaker)| == sel.tieBreakerNodes
    ensures |sel.Members(sha, Verifier)| == sel.verifierNodes
    ensures |sel.Members(sha, Trainer)| == sel.totalNodes - sel.tieBreakerNodes - sel.verifierNodes
  {
    var s := sha(sel.seed + COMMITTEE_SALT);
    var t, v, n := sel.tieBreakerNodes, sel.verifierNodes, sel.totalNodes;
    LandingSize(sha, s, n, 0, t);
    assert sel.Members(sha, TieBreaker) == Landing(sha, s, n, 0, t);
    LandingSize(sha, s, n, t, t + v);
    assert sel.Members(sha, Verifier) == Landing(sha, s, n, t, t + v);
    LandingSize(sha, s, n, t + v, n);
    assert sel.Members(sha, Trainer) == Landing(sha, s, n, t + v, n);
  }

  lemma ElectedSize(sel: CommitteeSelection, sha: Sha)
    ensures |sel.Elected(sha)| == sel.ElectedCount()
  {
    var s := sha(sel.seed + WITNESS_SALT);
    LandingSize(sha, s, sel.totalNodes, 0, sel.ElectedCount());
    assert sel.Elected(sha) == Landing(sha, s, sel.totalNodes, 0, sel.ElectedCount());
  }

  // ----- a selection from scratch -----

  predicate IsAscii(text: string) {
    forall i | 0 <= i < |text| :: text[i] < 128 as char
  }

  function Ascii(text: string): (bytes: seq<Byte>)
    requires IsAscii(text)
    ensures |bytes| == |text|
  {
    seq(|text|, i requires 0 <= i < |text| => text[i] as int)
  }

  lemma SaltsSpell()
    ensures COMMITTEE_SALT == Ascii("committee") && WITNESS_SALT == Ascii("witness")
  {
  }

  /** The trace of the shuffle on a node, for the eight bytes of the round's seed and a salt in plain text. */
  predicate TracesNode(sha: Sha, bytes: seq<Byte>, salt: string, totalNodes: nat, trace: seq<nat>, index: nat)
    requires IsAscii(salt)
  {
    IsTrace(sha, sha(sha(bytes) + Ascii(salt)), totalNodes, trace) && trace[0] == index
  }

  /**
  What a selection issues to a node, from nothing but the numbers that were asked for, the eight bytes of the seed and
  the traces of the shuffle: the first positions are the tie breakers, then come the verifiers and then the
  trainers; the first positions of the other shuffle are the witnesses, at most thirty-two unless a number is asked for.
  */
  lemma IssuedFromScratch(sha: Sha, tieBreakerNodes: nat, witnessNodes: nat, verificationPercent: nat, totalNodes: nat,
                          seed: nat, index: nat)
    returns (bytes: seq<Byte>, duty: seq<nat>, election: seq<nat>)
    requires New(sha, tieBreakerNodes, witnessNodes, verificationPercent, totalNodes, seed).Success?
    requires index < totalNodes
    ensures |bytes| == 8 && FromLittleEndian(bytes) == seed % 0x1_0000_0000_0000_0000
    ensures TracesNode(sha, bytes, "committee", totalNodes, duty, index)
    ensures TracesNode(sha, bytes, "witness", totalNodes, election, index)
    ensures var selection := New(sha, tieBreakerNodes, witnessNodes, verificationPercent, totalNodes, seed).value;
            var verifiers := (totalNodes - tieBreakerNodes) * verificationPercent / 100;
            && selection.GetCommittee(sha, index)
               == CommitteeProof(if duty[90] < tieBreakerNodes then TieBreaker
                                 else if duty[90] < tieBreakerNodes + verifiers then Verifier
                                 else Trainer, duty[90], index)
            && selection.GetWitness(sha, index)
               == WitnessProof(election[90], index, election[90] < if witnessNodes == 0 then 32 else witnessNodes)
  {
    bytes := ToLittleEndian(seed, 8);
    LittleEndianRoundTrip(seed, 8);
    EightBytes();
    SaltsSpell();
    duty := ShuffledIndexEndsTrace(sha, sha(sha(bytes) + COMMITTEE_SALT), totalNodes, index);
    election := ShuffledIndexEndsTrace(sha, sha(sha(bytes) + WITNESS_SALT), totalNodes, index);
  }
}
