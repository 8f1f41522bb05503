/** Who counts as dropped, over whole runs: nobody without a check that named them. */
module CoordinatorDrops {
  import opened Wrappers
  import opened Protocol
  import opened CoordinatorModel
  import opened CoordinatorInvariant
  import opened CoordinatorWitnesses
  import opened CoordinatorSteps
  import opened CoordinatorHealth
  import opened CoordinatorRuns
  import opened CoordinatorDecisions
  import opened CoordinatorEpochs

  ghost function DroppedAmong(clients: seq<Client>): set<NodeId> {
    set c | c in clients && c.state == Dropped :: c.id
  }

  /** Everybody the epoch has dropped, whether still listed or gone. */
  ghost function DroppedIds(e: EpochState): set<NodeId> {
    DroppedAmong(e.clients) + DroppedAmong(e.exitedClients)
  }

  // ----- what leaves the dropped as they are -----

  lemma DroppedOfConcat(a: seq<Client>, b: seq<Client>)
    ensures DroppedAmong(a + b) == DroppedAmong(a) + DroppedAmong(b)
  {
  }

  lemma WithdrawAtDropsNobody(clients: seq<Client>, index: nat)
    requires CanWithdraw(clients, index)
    ensures DroppedAmong(WithdrawAt(clients, index)) == DroppedAmong(clients)
  {
    var after := WithdrawAt(clients, index);
    forall c | c in clients && c.state == Dropped ensures c in after {
      var k :| 0 <= k < |clients| && clients[k] == c;
      assert after[k] == c;
    }
  }

  lemma {:induction false} WithdrawFromDropsNobody(clients: seq<Client>, i: nat)
    ensures DroppedAmong(WithdrawFrom(clients, i).0) == DroppedAmong(clients)
    decreases |clients| - i
  {
    if CanWithdraw(clients, i) {
      WithdrawAtDropsNobody(clients, i);
      WithdrawFromDropsNobody(WithdrawAt(clients, i), i + 1);
    }
  }

  /** All the dropped leave at a purge. */
  lemma {:induction false} DroppedLeave(clients: seq<Client>, height: nat)
    ensures DroppedAmong(Leaving(clients, height)) == DroppedAmong(clients)
  {
    if clients != [] {
      var n := |clients| - 1;
      var last := clients[n];
      DroppedLeave(clients[..n], height);
      DroppedOfConcat(clients[..n], [last]);
      DroppedOfConcat(Leaving(clients[..n], height), [last.(exitedHeight := height)]);
      assert clients == clients[..n] + [last];
      assert DroppedAmong([last.(exitedHeight := height)]) == if last.state == Dropped then {last.id} else {};
      assert DroppedAmong([last]) == if last.state == Dropped then {last.id} else {};
      assert Leaving(clients, height) == Leaving(clients[..n], height)
        + if last.state == Healthy then [] else [last.(exitedHeight := height)];
    }
  }

  lemma HealthyAreNotDropped(clients: seq<Client>)
    requires AllHealthy(clients)
    ensures DroppedAmong(clients) == {}
  {
  }

  lemma PurgeDropsNobody(e: EpochState, height: nat)
    requires MoveClientsToExited(e, height).Running?
    ensures DroppedIds(MoveClientsToExited(e, height).value) == DroppedIds(e)
  {
    PurgeSplits(e.clients, height);
    HealthyAreNotDropped(Staying(e.clients));
    DroppedLeave(e.clients, height);
    DroppedOfConcat(e.exitedClients, Leaving(e.clients, height));
  }

  // ----- ticks -----

  lemma AfterClosingDropsNobody(s: State, numWitnesses: nat, now: nat, seed: nat)
    requires AfterClosing(s, numWitnesses, now, seed).Running?
    ensures DroppedIds(AfterClosing(s, numWitnesses, now, seed).value.state.epoch) == DroppedIds(s.epoch)
  {
    if numWitnesses == 0 {
      WithdrawFromDropsNobody(s.epoch.clients, 0);
    } else {
      WitnessedRoundKeepsClients(s, numWitnesses, now, seed);
    }
  }

  lemma WitnessedRoundKeepsClients(s: State, numWitnesses: nat, now: nat, seed: nat)
    requires numWitnesses > 0 && AfterClosing(s, numWitnesses, now, seed).Running?
    ensures var t := AfterClosing(s, numWitnesses, now, seed).value.state;
            t.epoch.clients == s.epoch.clients && t.epoch.exitedClients == s.epoch.exitedClients
  {
  }

  lemma ClosingDropsNobody(h: Hashes, s: State, now: nat, seed: nat)
    requires Inv(h, s) && s.runState == RoundWitness && TickRoundWitness(s, now, seed).Running?
    ensures DroppedIds(TickRoundWitness(s, now, seed).value.state.epoch) == DroppedIds(s.epoch)
  {
    if s.TimedOut(now, s.config.roundWitnessTime) {
      var e := s.epoch.(firstRound := false);
      RoundClosingOk(h, s);
      ClosingIsAfterClosing(h, s, now, seed);
      PurgeDropsNobody(e, Behind(s.epoch, 0).height);
      AfterClosingDropsNobody(RoundClosing(s), |Behind(s.epoch, 0).witnesses|, now, seed);
    }
  }

  lemma CooldownDropsNobody(h: Hashes, s: State, now: nat)
    requires Inv(h, s) && s.runState == Cooldown && TickCooldown(s, now).Running?
    ensures DroppedIds(TickCooldown(s, now).value.state.epoch) == DroppedIds(s.epoch)
  {
    if s.TimedOut(now, s.config.cooldownTime) {
      CooldownIsAfterCooldown(h, s, now);
      PurgeCannotOverflow(s.epoch, Behind(s.epoch, 0).height);
      PurgeDropsNobody(s.epoch, Behind(s.epoch, 0).height);
      WithdrawFromDropsNobody(EpochOver(s).epoch.clients, 0);
    }
  }

  lemma WarmupDropsNobody(s: State, now: nat, seed: nat)
    requires TickWarmup(s, now, seed).Running?
    ensures DroppedIds(TickWarmup(s, now, seed).value.state.epoch) == DroppedIds(s.epoch)
  {
    if !s.TimedOut(now, s.config.warmupTime) {
      PurgeDropsNobody(s.epoch, 0);
    }
  }

  lemma AdmissionStartsAfresh(h: Hashes, s: State, pending: Option<seq<NodeId>>, now: nat)
    requires Inv(h, s) && s.runState == WaitingForMembers && TickWaitingForMembers(s, pending, now).Running?
    ensures var t := TickWaitingForMembers(s, pending, now).value.state;
            DroppedIds(t.epoch) == if Admits(s, t) then {} else DroppedIds(s.epoch)
  {
    AdmissionDecision(h, s, pending, now);
  }

  /** A tick drops nobody, and only an admission forgets who was dropped. */
  lemma TickDropsNobody(h: Hashes, s: State, pending: Option<seq<NodeId>>, now: nat, seed: nat)
    requires Inv(h, s) && Tick(s, pending, now, seed).Running?
    ensures var t := Tick(s, pending, now, seed).value.state;
            DroppedIds(t.epoch) == if Admits(s, t) then {} else DroppedIds(s.epoch)
  {
    match s.runState
    case WaitingForMembers => AdmissionStartsAfresh(h, s, pending, now);
    case Warmup => WarmupDropsNobody(s, now, seed);
    case RoundWitness => ClosingDropsNobody(h, s, now, seed);
    case Cooldown => CooldownDropsNobody(h, s, now);
    case _ =>
  }

  // ----- health checks -----

  /** Fewer of the previous round's witnesses than needed have the client in their participant filter. */
  ghost predicate LacksVouchers(h: Hashes, s: State, id: NodeId) {
    && HealthCheckable(s) && Closed(s.config, Behind(s.epoch, 1))
    && |Vouchers(h, id, Behind(s.epoch, 1).witnesses)| < NeededVouchers(s)
  }

  /** The check proves a client of the previous round that is listed, healthy and short of vouchers. */
  ghost predicate Condemns(h: Hashes, s: State, check: (NodeId, CommitteeProof), id: NodeId) {
    && check.0 == id && Verified(h, s, id, check.1)
    && NamesHealthy(s.epoch.clients, check, id)
    && LacksVouchers(h, s, id)
  }

  /** The event is an accepted health check that condemns the client. */
  ghost predicate Drops(h: Hashes, s: State, event: Event, id: NodeId) {
    && event.HealthCheckEvent? && CheckAccepted(h, s, event.checks)
    && exists k | 0 <= k < |event.checks| :: Condemns(h, s, event.checks[k], id)
  }

  /** In an accepted health check, naming somebody healthy condemns them. */
  lemma NamedIsCondemned(h: Hashes, s: State, checks: HealthChecks, k: nat)
    requires Inv(h, s) && CheckAccepted(h, s, checks) && k < |checks|
    ensures var index := checks[k].1.index;
            && index < |s.epoch.clients|
            && (s.epoch.clients[index].state == Healthy ==>
                  Condemns(h, s, checks[k], s.epoch.clients[index].id))
  {
    assert Unhealthy(h, s, checks[k]);
    IsHealthyMeaning(h, s, checks[k].0, checks[k].1);
    HealthScoreCounts(h, checks[k].0, Behind(s.epoch, 1).witnesses);
  }

  lemma HealthCheckDrops(h: Hashes, s: State, checks: HealthChecks, id: NodeId)
    requires Inv(h, s) && HealthCheck(h, s, checks).Running?
    ensures id in DroppedAmong(HealthCheck(h, s, checks).value.state.epoch.clients)
            <==> id in DroppedAmong(s.epoch.clients) || Drops(h, s, HealthCheckEvent(checks), id)
  {
    HealthCheckMeaning(h, s, checks);
    if CheckAccepted(h, s, checks) {
      var after := HealthCheck(h, s, checks).value.state.epoch.clients;
      assert DropsExactly(s.epoch.clients, checks, after);
      DroppedByNaming(s.epoch.clients, checks, after, id);
      if k :| 0 <= k < |checks| && NamesHealthy(s.epoch.clients, checks[k], id) {
        NamedIsCondemned(h, s, checks, k);
      }
    }
  }

  predicate NamesHealthy(clients: seq<Client>, check: (NodeId, CommitteeProof), id: NodeId) {
    check.1.index < |clients| && clients[check.1.index].id == id && clients[check.1.index].state == Healthy
  }

  lemma DroppedByNaming(before: seq<Client>, checks: HealthChecks, after: seq<Client>, id: NodeId)
    requires DropsExactly(before, checks, after)
    ensures id in DroppedAmong(after)
            <==> id in DroppedAmong(before) || exists k | 0 <= k < |checks| :: NamesHealthy(before, checks[k], id)
  {
    if c :| c in after && c.state == Dropped && c.id == id {
      var i :| 0 <= i < |after| && after[i] == c;
      if before[i].state == Healthy {
        var k :| 0 <= k < |checks| && checks[k].1.index == i;
        assert NamesHealthy(before, checks[k], id);
      } else {
        assert before[i] in before;
      }
    }
    if c :| c in before && c.state == Dropped && c.id == id {
      var i :| 0 <= i < |before| && before[i] == c;
      assert after[i] == c;
    }
    if k :| 0 <= k < |checks| && NamesHealthy(before, checks[k], id) {
      var i := checks[k].1.index;
      assert Named(checks, i);
      assert after[i] in after;
    }
  }

  // ----- the other events -----

  lemma WarmupWitnessDropsNobody(s: State, from: NodeId, w: Witness, now: nat, seed: nat)
    requires AddWarmupWitness(s, from, w, now, seed).Running?
    ensures DroppedIds(AddWarmupWitness(s, from, w, now, seed).value.state.epoch) == DroppedIds(s.epoch)
  {
  }

  lemma WitnessDropsNobody(h: Hashes, s: State, from: NodeId, w: Witness, now: nat)
    requires Inv(h, s) && AddWitness(h, s, from, w, now).Running?
    ensures DroppedIds(AddWitness(h, s, from, w, now).value.state.epoch) == DroppedIds(s.epoch)
  {
    if InRound(s) {
      AddWitnessMeaning(h, s, from, w, now);
    }
  }

  lemma LeavingDropsNobody(h: Hashes, s: State, event: Event)
    requires event.WithdrawEvent? || event.WithdrawAllEvent? || event.PauseEvent? || event.ResumeEvent?
    requires Apply(h, s, event).Running?
    ensures DroppedIds(Apply(h, s, event).value.state.epoch) == DroppedIds(s.epoch)
  {
    WithdrawFromDropsNobody(s.epoch.clients, 0);
    if event.WithdrawEvent? && CanWithdraw(s.epoch.clients, event.index) {
      WithdrawAtDropsNobody(s.epoch.clients, event.index);
    }
  }

  /**
  After any event exactly those are dropped who were before, unless a new epoch opens, and those whom
  the event condemns.
  */
  lemma ApplyDrops(h: Hashes, s: State, event: Event, id: NodeId)
    requires Inv(h, s) && Apply(h, s, event).Running?
    ensures var t := Apply(h, s, event).value.state;
            id in DroppedIds(t.epoch)
            <==> (id in DroppedIds(s.epoch) && !Admits(s, t)) || Drops(h, s, event, id)
  {
    if event.TickEvent? {
      TickDropsNobody(h, s, event.pending, event.now, event.seed);
    } else {
      OnlyTicksAdmit(h, s, event);
      if event.HealthCheckEvent? {
        HealthCheckTouchesClients(h, s, event.checks);
        HealthCheckDrops(h, s, event.checks, id);
      } else if event.WarmupWitnessEvent? {
        WarmupWitnessDropsNobody(s, event.from, event.message, event.now, event.seed);
      } else if event.WitnessEvent? {
        WitnessDropsNobody(h, s, event.from, event.message, event.now);
      } else {
        LeavingDropsNobody(h, s, event);
      }
    }
  }

  // ----- runs -----

  /** After `n` events the next one drops the client. */
  ghost predicate DropsAt(h: Hashes, s: State, events: seq<Event>, n: nat, id: NodeId)
    requires n < |events|
  {
    Run(h, s, events[..n]).Running? && Drops(h, Run(h, s, events[..n]).value, events[n], id)
  }

  /** The event after the first `n` opens an epoch. */
  predicate AdmitsAt(h: Hashes, s: State, events: seq<Event>, n: nat)
    requires n < |events|
  {
    && Run(h, s, events[..n]).Running? && Run(h, s, events[..n + 1]).Running?
    && Admits(Run(h, s, events[..n]).value, Run(h, s, events[..n + 1]).value)
  }

  ghost function DropTimes(h: Hashes, s: State, events: seq<Event>, id: NodeId): set<nat> {
    set n: nat | n < |events| && DropsAt(h, s, events, n, id)
  }

  function AdmissionTimes(h: Hashes, s: State, events: seq<Event>): set<nat> {
    set n: nat | n < |events| && AdmitsAt(h, s, events, n)
  }

  /** Before time `k` there is a drop, and no admission after it. */
  predicate LastingDrop(drops: set<nat>, admissions: set<nat>, k: nat) {
    exists n | n in drops :: n < k && forall m | m in admissions :: !(n < m < k)
  }

  lemma LastingDropStep(drops: set<nat>, admissions: set<nat>, k: nat)
    ensures LastingDrop(drops, admissions, k + 1)
            <==> (LastingDrop(drops, admissions, k) && k !in admissions) || k in drops
  {
  }

  lemma {:induction false} DroppedAfter(h: Hashes, s: State, events: seq<Event>, k: nat, id: NodeId)
    requires Inv(h, s) && k <= |events| && Run(h, s, events[..k]).Running? && id !in DroppedIds(s.epoch)
    ensures id in DroppedIds(Run(h, s, events[..k]).value.epoch)
            <==> LastingDrop(DropTimes(h, s, events, id), AdmissionTimes(h, s, events), k)
  {
    if k > 0 {
      var n := k - 1;
      OneMoreEvent(h, s, events, n);
      DroppedAfter(h, s, events, n, id);
      LastingDropStep(DropTimes(h, s, events, id), AdmissionTimes(h, s, events), n);
      RunsAreSafe(h, s, events[..n]);
      ApplyDrops(h, Run(h, s, events[..n]).value, events[n], id);
    }
  }

  /**
  Over any run, a client that was not dropped at its start is dropped at its end if and only if, since
  the last admission, an accepted health check named them while they were listed, healthy and in the
  filters of fewer of the previous round's witnesses than the quorum.
  */
  lemma DroppedIffCondemned(h: Hashes, s: State, events: seq<Event>, id: NodeId)
    requires Inv(h, s) && Run(h, s, events).Running? && id !in DroppedIds(s.epoch)
    ensures id in DroppedIds(Run(h, s, events).value.epoch)
            <==> LastingDrop(DropTimes(h, s, events, id), AdmissionTimes(h, s, events), |events|)
  {
    assert events[..|events|] == events;
    DroppedAfter(h, s, events, |events|, id);
  }
}
