/** The data that the coordinator, the committees and the data assignment share. */
module Protocol {
  import opened Bytes
  import opened Blooms
  import opened Nonlinear

  const SOLANA_MAX_NUM_CLIENTS: nat := 256
  const SOLANA_MAX_NUM_WITNESSES: nat := 32
  const NUM_STORED_ROUNDS: nat := 4
  const U64_MAX: nat := 0xFFFF_FFFF_FFFF_FFFF

  /** A node's identity, as the bytes that get hashed. */
  type NodeId = seq<Byte>

  datatype CoordinatorError =
    | NoActiveRound
    | InvalidWitness
    | InvalidRunState
    | DuplicateWitness
    | InvalidHealthCheck
    | Halted
    | WitnessesFull
    | CannotResume
    | InvalidWithdraw
    | InvalidCommitteeSelection
    | InvalidCommitteeProof

  datatype ClientState = Healthy | Dropped | Withdrawn | Ejected

  datatype Client = Client(id: NodeId, state: ClientState, exitedHeight: nat)

  function NewClient(id: NodeId): Client {
    Client(id, Healthy, 0)
  }

  datatype Committee = TieBreaker | Verifier | Trainer

  datatype CommitteeProof = CommitteeProof(committee: Committee, position: nat, index: nat)

  datatype WitnessProof = WitnessProof(position: nat, index: nat, isWitness: bool)

  datatype Witness = Witness(
    proof: WitnessProof,
    participantBloom: WitnessBloom,
    broadcastBloom: WitnessBloom,
    broadcastMerkle: Digest)

  datatype Round = Round(
    witnesses: seq<Witness>,
    dataIndex: nat,
    randomSeed: nat,
    height: nat,
    clientsLen: nat,
    tieBreakerTasks: nat)

  const ZERO_ROUND: Round := Round([], 0, 0, 0, 0, 0)

  datatype Config = Config(
    warmupTime: nat,
    cooldownTime: nat,
    maxRoundTrainTime: nat,
    roundWitnessTime: nat,
    globalBatchSizeWarmupTokens: nat,
    epochTime: nat,
    totalSteps: nat,
    initMinClients: nat,
    minClients: nat,
    witnessNodes: nat,
    globalBatchSizeStart: nat,
    globalBatchSizeEnd: nat,
    verificationPercent: nat,
    waitingForMembersExtraTime: nat)
  {
    /** The sanity check every configuration passes before a run may start. */
    predicate Check() {
      && maxRoundTrainTime != 0
      && roundWitnessTime != 0
      && minClients != 0
      && initMinClients >= minClients
      && initMinClients <= SOLANA_MAX_NUM_CLIENTS
      && globalBatchSizeStart != 0
      && globalBatchSizeEnd != 0
      && globalBatchSizeEnd >= globalBatchSizeStart
      && totalSteps != 0
      && witnessNodes <= minClients
      && witnessNodes <= SOLANA_MAX_NUM_WITNESSES
      && cooldownTime > 0
      && waitingForMembersExtraTime > 0
    }

    /**
    Linear interpolation from the starting to the final batch size over the warmup tokens,
    rounded to the nearest integer with halves going up.
    */
    function BatchSize(tokensProcessed: nat): nat
      requires globalBatchSizeEnd >= globalBatchSizeStart
    {
      if tokensProcessed >= globalBatchSizeWarmupTokens then globalBatchSizeEnd
      else
        RoundedQuotient(
          globalBatchSizeStart * globalBatchSizeWarmupTokens
          + (globalBatchSizeEnd - globalBatchSizeStart) * tokensProcessed,
          globalBatchSizeWarmupTokens)
    }
  }

  /** `n / d` rounded to the nearest integer, halves up. */
  function RoundedQuotient(n: nat, d: nat): nat
    requires d > 0
  {
    (2 * n + d) / (2 * d)
  }

  /** The rounding error is at most a half, on either side. */
  lemma RoundedQuotientIsNearest(n: nat, d: nat)
    requires d > 0
    ensures var q := RoundedQuotient(n, d); 2 * n - d < 2 * d * q <= 2 * n + d
  {
    var q := RoundedQuotient(n, d);
    assert 2 * n + d == (2 * d) * q + (2 * n + d) % (2 * d);
  }

  lemma RoundedQuotientMonotone(m: nat, n: nat, d: nat)
    requires d > 0 && m <= n
    ensures RoundedQuotient(m, d) <= RoundedQuotient(n, d)
  {
    var p, q := RoundedQuotient(m, d), RoundedQuotient(n, d);
    RoundedQuotientIsNearest(m, d);
    RoundedQuotientIsNearest(n, d);
    assert 2 * d * (q + 1) == 2 * d * q + 2 * d;
    CancelFactor(2 * d, p, q + 1);
  }

  lemma CancelFactor(c: nat, x: int, y: int)
    requires c * x < c * y
    ensures x < y
  {
    if y <= x {
      MulMonotone(c, y, x);
    }
  }

  /** Whatever has been processed, a round's batch stays between the two configured sizes and is not empty. */
  lemma BatchSizeInRange(config: Config, tokens: nat)
    requires config.Check()
    ensures 0 < config.globalBatchSizeStart <= config.BatchSize(tokens) <= config.globalBatchSizeEnd
  {
    BatchSizeMonotone(config, 0, tokens);
    BatchSizeMonotone(config, tokens, tokens + config.globalBatchSizeWarmupTokens);
    var w := config.globalBatchSizeWarmupTokens;
    if w > 0 {
      var n := config.globalBatchSizeStart * w;
      assert config.BatchSize(0) == RoundedQuotient(n, w);
      RoundedQuotientExact(config.globalBatchSizeStart, w);
    }
  }

  lemma RoundedQuotientExact(q: nat, d: nat)
    requires d > 0
    ensures RoundedQuotient(q * d, d) == q
  {
    var r := RoundedQuotient(q * d, d);
    RoundedQuotientIsNearest(q * d, d);
    assert 2 * (q * d) == 2 * d * q;
    assert 2 * d * (q + 1) == 2 * d * q + 2 * d && 2 * d * (q - 1) == 2 * d * q - 2 * d;
    CancelFactor(2 * d, r, q + 1);
    CancelFactor(2 * d, q - 1, r);
  }

  /** The interpolated size is a rounded quotient, and reaches the final size at the end of the warmup. */
  lemma Interpolates(config: Config, t: nat)
    requires config.Check() && config.globalBatchSizeWarmupTokens > 0 && t <= config.globalBatchSizeWarmupTokens
    ensures config.BatchSize(t) == RoundedQuotient(Numerator(config, t), config.globalBatchSizeWarmupTokens)
  {
    var lo, hi, w := config.globalBatchSizeStart, config.globalBatchSizeEnd, config.globalBatchSizeWarmupTokens;
    if t == w {
      Distribute(lo, hi - lo, w);
      RoundedQuotientExact(hi, w);
    }
  }

  function Numerator(config: Config, t: nat): nat
    requires config.Check()
  {
    config.globalBatchSizeStart * config.globalBatchSizeWarmupTokens
    + (config.globalBatchSizeEnd - config.globalBatchSizeStart) * t
  }

  lemma NumeratorMonotone(config: Config, s: nat, t: nat)
    requires config.Check() && s <= t
    ensures Numerator(config, s) <= Numerator(config, t)
  {
    MulMonotone(config.globalBatchSizeEnd - config.globalBatchSizeStart, s, t);
  }

  /** Batches never shrink as more tokens are processed. */
  lemma BatchSizeMonotone(config: Config, s: nat, t: nat)
    requires config.Check() && s <= t
    ensures config.BatchSize(s) <= config.BatchSize(t)
  {
    var w := config.globalBatchSizeWarmupTokens;
    if s < w {
      var end := if t < w then t else w;
      Interpolates(config, s);
      Interpolates(config, end);
      NumeratorMonotone(config, s, end);
      RoundedQuotientMonotone(Numerator(config, s), Numerator(config, end), w);
    }
  }

  /**
  Before the end of the warmup the size is the whole number nearest to the line from the starting size, at no tokens, to
  the final size, at the warmup's tokens, the larger of two that are equally near; from then on it is the final size.
  */
  predicate OnLine(config: Config, tokens: nat, size: nat) {
    var lo, hi, w := config.globalBatchSizeStart, config.globalBatchSizeEnd, config.globalBatchSizeWarmupTokens;
    if tokens >= w then size == hi
    else
      var line := lo * w + (hi - lo) * tokens; // w times the line's value
      2 * line - w < 2 * w * size <= 2 * line + w
  }

  lemma BatchSizeFollowsLine(config: Config, tokens: nat)
    requires config.Check()
    ensures OnLine(config, tokens, config.BatchSize(tokens))
  {
    var w := config.globalBatchSizeWarmupTokens;
    if tokens < w {
      RoundedQuotientIsNearest(Numerator(config, tokens), w);
    }
  }
}
