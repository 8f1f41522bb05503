/** What every request is answered with, state by state and error by error. */
module CoordinatorReplies {
  import opened Wrappers
  import opened Protocol
  import opened Committees
  import opened CoordinatorModel
  import opened CoordinatorInvariant
  import opened CoordinatorWitnesses
  import opened CoordinatorHealth
  import opened CoordinatorDecisions

  /** A coordinator that is paused, finished or not set up turns away whatever it is sent, and does nothing. */
  lemma HaltedTurnsAway(h: Hashes, s: State, event: Event)
    requires s.runState == Paused || s.runState == Finished || s.runState == Uninitialized
    requires !event.ResumeEvent? && !event.WithdrawEvent? && !event.WithdrawAllEvent?
    ensures Apply(h, s, event) == Running(Step(s, Rejected(Halted)))
  {
  }

  /** A pause is put off to the end of a round or cooldown, taken at once between epochs if everybody can leave. */
  lemma PauseReply(h: Hashes, s: State, now: nat)
    requires Inv(h, s)
    ensures Pause(s, now).Running?
    ensures var step := Pause(s, now).value;
            match s.runState
            case RoundTrain => step == Step(s.(pendingPause := true), Accepted)
            case RoundWitness => step == Step(s.(pendingPause := true), Accepted)
            case Cooldown => step == Step(s.(pendingPause := true), Accepted)
            case WaitingForMembers => TakesPause(s, now, step)
            case Warmup => TakesPause(s, now, step)
            case _ => step == Step(s, Rejected(Halted))
  {
    WithdrawFromSucceedsIff(s.epoch.clients, 0);
  }

  predicate TakesPause(s: State, now: nat, step: Step) {
    if AllHealthy(s.epoch.clients) then
      && step.reply == Accepted
      && step.state.runState == Paused && step.state.runStateStart == now && AllWithdrawn(step.state.epoch.clients)
    else step.reply == Rejected(InvalidWithdraw) && step.state.runState == s.runState
  }

  lemma ResumeReply(h: Hashes, s: State, now: nat)
    requires Inv(h, s)
    ensures Resume(s, now)
            == Running(if s.runState != Paused then Step(s, Rejected(CannotResume))
                       else Step(s.(runState := if s.progress.step < s.config.totalSteps then WaitingForMembers
                                                else Finished,
                                    runStateStart := now), Accepted))
  {
  }

  /** One client withdraws, and nobody else changes, if they are listed and healthy; else nothing happens. */
  lemma WithdrawReply(s: State, index: nat)
    ensures var (step, clients) := (Withdraw(s, index), s.epoch.clients);
            if index < |clients| && clients[index].state == Healthy then
              && step.reply == Accepted
              && step.state == s.(epoch := s.epoch.(clients := step.state.epoch.clients))
              && |step.state.epoch.clients| == |clients|
              && forall i | 0 <= i < |clients| ::
                   step.state.epoch.clients[i] == if i == index then clients[i].(state := Withdrawn) else clients[i]
            else step == Step(s, Rejected(InvalidWithdraw))
  {
  }

  /** The message carries the proof that its sender was elected, under the sender's own index. */
  predicate CarriesOwnProof(h: Hashes, s: State, from: NodeId, w: Witness)
    requires s.epoch.roundsHead < NUM_STORED_ROUNDS
  {
    && VerifyClient(from, w.proof.index, s.epoch.clients)
    && w.proof.index < Behind(s.epoch, 0).clientsLen
    && w.proof == WitnessSelection(h, s, Behind(s.epoch, 0)).GetWitness(h.sha, w.proof.index)
    && w.proof.isWitness
  }

  /** Why a witness message is turned away, first reason first. */
  lemma WitnessReply(h: Hashes, s: State, from: NodeId, w: Witness, now: nat)
    requires Inv(h, s)
    ensures AddWitness(h, s, from, w, now).Running?
    ensures AddWitness(h, s, from, w, now).value.reply
            == match s.runState
               case RoundTrain => RoundReply(h, s, from, w)
               case RoundWitness => RoundReply(h, s, from, w)
               case WaitingForMembers => Rejected(InvalidRunState)
               case Warmup => Rejected(InvalidRunState)
               case Cooldown => Rejected(InvalidRunState)
               case _ => Rejected(Halted)
  {
    if InRound(s) {
      ElectionSucceedsInRounds(h, s);
      AddWitnessMeaning(h, s, from, w, now);
      AlreadyReportedMeaning(Behind(s.epoch, 0).witnesses, s.epoch.clients, from);
      if s.config.verificationPercent <= 100 && VerifyClient(from, w.proof.index, s.epoch.clients) {
        VerifyWitnessIffIssued(WitnessSelection(h, s, Behind(s.epoch, 0)), h.sha, w.proof);
      }
    }
  }

  function RoundReply(h: Hashes, s: State, from: NodeId, w: Witness): Reply
    requires s.epoch.roundsHead < NUM_STORED_ROUNDS
  {
    if s.config.verificationPercent > 100 then Rejected(InvalidCommitteeSelection)
    else if !CarriesOwnProof(h, s, from, w) then Rejected(InvalidWitness)
    else if Reported(Behind(s.epoch, 0).witnesses, s.epoch.clients, from) then Rejected(DuplicateWitness)
    else Accepted
  }

  /** A warmup message that does not abort; in training it comes too late, and is accepted without effect. */
  lemma WarmupReply(h: Hashes, s: State, from: NodeId, w: Witness, now: nat, seed: nat)
    requires Inv(h, s) && AddWarmupWitness(s, from, w, now, seed).Running?
    ensures var step := AddWarmupWitness(s, from, w, now, seed).value;
            match s.runState
            case RoundTrain => step == Step(s, Accepted)
            case Warmup =>
              step.reply == (if Reported(Behind(s.epoch, 0).witnesses, s.epoch.clients, from)
                             then Rejected(DuplicateWitness)
                             else if |Behind(s.epoch, 0).witnesses| >= 32 then Rejected(WitnessesFull)
                             else Accepted)
            case WaitingForMembers => step == Step(s, Rejected(InvalidRunState))
            case RoundWitness => step == Step(s, Rejected(InvalidRunState))
            case Cooldown => step == Step(s, Rejected(InvalidRunState))
            case _ => step == Step(s, Rejected(Halted))
  {
    AlreadyReportedMeaning(Behind(s.epoch, 0).witnesses, s.epoch.clients, from);
  }

  /** The first check that is not of an unhealthy trainer, if there is one, is the one at `k`. */
  predicate FirstOutOfOrder(h: Hashes, s: State, checks: HealthChecks, k: nat) {
    && k < |checks| && !Unhealthy(h, s, checks[k])
    && forall j | 0 <= j < k :: Unhealthy(h, s, checks[j])
  }

  lemma FirstIsOutOfOrder(h: Hashes, s: State, checks: HealthChecks)
    requires HealthCheckable(s) && FromCoordinator(h, s, -1).Success?
    requires FirstOutOfOrder(h, s, checks, 0) && FirstRejection(h, s, checks).Running?
    ensures FirstRejection(h, s, checks).value == Some(Reason(h, s, checks[0]))
  {
    PreviousIsClosed(s);
    IsHealthyMeaning(h, s, checks[0].0, checks[0].1);
  }

  lemma RestIsOutOfOrder(h: Hashes, s: State, checks: HealthChecks, k: nat)
    requires FirstOutOfOrder(h, s, checks, k) && k > 0
    ensures FirstOutOfOrder(h, s, checks[1..], k - 1) && checks[1..][k - 1] == checks[k]
    ensures FirstRejection(h, s, checks) == FirstRejection(h, s, checks[1..])
  {
    assert Unhealthy(h, s, checks[0]);
  }

  lemma {:induction false} RejectionReason(h: Hashes, s: State, checks: HealthChecks, k: nat)
    requires HealthCheckable(s) && FromCoordinator(h, s, -1).Success?
    requires FirstOutOfOrder(h, s, checks, k) && FirstRejection(h, s, checks).Running?
    ensures FirstRejection(h, s, checks).value == Some(Reason(h, s, checks[k]))
    decreases k
  {
    if k > 0 {
      RestIsOutOfOrder(h, s, checks, k);
      RejectionReason(h, s, checks[1..], k - 1);
    } else {
      FirstIsOutOfOrder(h, s, checks);
    }
  }

  /** The client is healthy after all, or the proof is not theirs. */
  function Reason(h: Hashes, s: State, check: (NodeId, CommitteeProof)): CoordinatorError {
    if Verified(h, s, check.0, check.1) then InvalidHealthCheck else InvalidCommitteeProof
  }

  /** Why a health check is turned away, where the previous round has a selection: for its first check out of order. */
  lemma HealthCheckReply(h: Hashes, s: State, checks: HealthChecks)
    requires Inv(h, s) && HealthCheck(h, s, checks).Running?
    ensures var reply := HealthCheck(h, s, checks).value.reply;
            && (s.IsHalted() ==> reply == Rejected(Halted))
            && (!s.IsHalted() && Behind(s.epoch, 0).height < 2 ==> reply == Rejected(InvalidHealthCheck))
            && (CheckAllowed(s) && !CheckAccepted(h, s, checks) && FromCoordinator(h, s, -1).Success? ==>
                  exists k: nat :: FirstOutOfOrder(h, s, checks, k) && reply == Rejected(Reason(h, s, checks[k])))
  {
    if CheckAllowed(s) && !CheckAccepted(h, s, checks) && FromCoordinator(h, s, -1).Success? {
      var k := FindOutOfOrder(h, s, checks);
      RejectionReason(h, s, checks, k);
    }
  }

  lemma FindOutOfOrder(h: Hashes, s: State, checks: HealthChecks) returns (k: nat)
    requires exists i :: 0 <= i < |checks| && !Unhealthy(h, s, checks[i])
    ensures FirstOutOfOrder(h, s, checks, k)
  {
    k := 0;
    while Unhealthy(h, s, checks[k])
      invariant k < |checks| && forall j | 0 <= j < k :: Unhealthy(h, s, checks[j])
      decreases |checks| - k
    {
      k := k + 1;
    }
  }
}
