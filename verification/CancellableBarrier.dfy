/**
The cancellable barrier as a protocol: each region under the lock is one atomic step, and a thread
in the condition variable's wait is asleep until it is notified or wakes up for no reason.
*/
module CancellableBarriers {

  // ----- what the lock protects -----

  datatype Shared = Shared(count: nat, total: nat, generation: nat, cancelled: bool)

  /** How a locked region ends for the thread that ran it. */
  datatype Outcome = Sleeps | ReturnsOk | ReturnsCancelled

  /** Entering `wait`: up to the first sleep, or to the return. */
  function Arrive(s: Shared): (Shared, Outcome) {
    if s.cancelled then (s, ReturnsCancelled)
    else if s.count + 1 < s.total then (s.(count := s.count + 1), Sleeps)
    else (s.(count := 0, generation := s.generation + 1), ReturnsOk)
  }

  /** Holding the lock again after a wakeup, having entered in generation `entered`. */
  function Recheck(s: Shared, entered: nat): Outcome {
    if s.count < s.total && s.generation == entered && !s.cancelled then Sleeps
    else if s.cancelled then ReturnsCancelled
    else ReturnsOk
  }

  /** The barrier object; `notified` reports whether a method woke the sleepers. */
  class CancellableBarrier {
    var count: nat
    const total: nat
    var generation: nat
    var cancelled: bool

    ghost function View(): Shared
      reads this
    {
      Shared(count, total, generation, cancelled)
    }

    constructor (n: nat)
      requires n > 0
      ensures View() == Shared(0, n, 0, false)
    {
      count, total, generation, cancelled := 0, n, 0, false;
    }

    method EnterWait() returns (outcome: Outcome, entered: nat, notified: bool)
      modifies this
      ensures (View(), outcome) == Arrive(old(View()))
      ensures entered == old(generation)
      ensures notified <==> outcome == ReturnsOk
    {
      entered, notified := generation, false;
      if cancelled {
        return ReturnsCancelled, entered, notified;
      }
      count := count + 1;
      if count < total {
        outcome := Sleeps;
      } else {
        count := 0;
        generation := generation + 1;
        notified := true;
        outcome := ReturnsOk;
      }
    }

    method AfterWakeup(entered: nat) returns (outcome: Outcome)
      ensures outcome == Recheck(View(), entered)
    {
      if count < total && generation == entered && !cancelled {
        return Sleeps;
      }
      return if cancelled then ReturnsCancelled else ReturnsOk;
    }

    method Cancel() returns (notified: bool)
      modifies this
      ensures View() == old(View()).(cancelled := true) && notified
    {
      cancelled := true;
      notified := true;
    }

    method Reset()
      modifies this
      ensures View() == Shared(0, total, old(generation) + 1, false)
    {
      cancelled := false;
      count := 0;
      generation := generation + 1;
    }
  }

  // ----- threads around it -----

  /** A thread inside `wait` is asleep, or woken and not yet back under the lock. */
  datatype Thread = Asleep(entered: nat) | Woken(entered: nat)

  /** One return from `wait`, with the generation it had entered. */
  datatype Return = Return(generation: nat, ok: bool)

  /**
  The whole system: the threads inside `wait`, how many have ever entered each generation, and
  every return so far.
  */
  datatype System = System(
    shared: Shared,
    inside: map<nat, Thread>,
    entries: seq<nat>,
    history: seq<Return>)

  function Notified(inside: map<nat, Thread>): map<nat, Thread> {
    map t | t in inside :: Woken(inside[t].entered)
  }

  datatype Event =
    | Enter(thread: nat)
    | WakeSpuriously(thread: nat)
    | Resume(thread: nat)
    | CancelAll
    | ResetAll

  /** Nobody is inside `wait` for the current generation. */
  predicate Quiescent(s: System) {
    forall t | t in s.inside :: s.inside[t].entered != s.shared.generation
  }

  /** When an event can happen; a reset is allowed only while nobody waits in the current generation. */
  predicate Enabled(s: System, event: Event) {
    match event
    case Enter(t) => t !in s.inside
    case WakeSpuriously(t) => t in s.inside && s.inside[t].Asleep?
    case Resume(t) => t in s.inside && s.inside[t].Woken?
    case CancelAll => true
    case ResetAll => Quiescent(s)
  }

  /** The entry counts after one more thread has entered, and perhaps completed, the generation. */
  function CountEntry(s: System, completes: bool): seq<nat> {
    if |s.entries| == 0 then s.entries
    else
      var g := |s.entries| - 1;
      s.entries[g := s.entries[g] + 1] + if completes then [0] else []
  }

  function AfterEnter(s: System, t: nat): System {
    var (shared, outcome) := Arrive(s.shared);
    match outcome
    case ReturnsCancelled => s
    case Sleeps =>
      System(shared, s.inside[t := Asleep(s.shared.generation)], CountEntry(s, false), s.history)
    case ReturnsOk =>
      System(shared, Notified(s.inside), CountEntry(s, true), s.history + [Return(s.shared.generation, true)])
  }

  function AfterResume(s: System, t: nat): System
    requires t in s.inside
  {
    var entered := s.inside[t].entered;
    match Recheck(s.shared, entered)
    case Sleeps => s.(inside := s.inside[t := Asleep(entered)])
    case ReturnsOk => s.(inside := s.inside - {t}, history := s.history + [Return(entered, true)])
    case ReturnsCancelled => s.(inside := s.inside - {t}, history := s.history + [Return(entered, false)])
  }

  function AfterReset(s: System): System {
    s.(shared := Shared(0, s.shared.total, s.shared.generation + 1, false), entries := s.entries + [0])
  }

  function Next(s: System, event: Event): System
    requires Enabled(s, event)
  {
    match event
    case Enter(t) => AfterEnter(s, t)
    case WakeSpuriously(t) => s.(inside := s.inside[t := Woken(s.inside[t].entered)])
    case Resume(t) => AfterResume(s, t)
    case CancelAll => s.(shared := s.shared.(cancelled := true), inside := Notified(s.inside))
    case ResetAll => AfterReset(s)
  }

  function Start(total: nat): System {
    System(Shared(0, total, 0, false), map[], [0], [])
  }

  // ----- what every reachable system satisfies -----

  ghost function Waiters(s: System, g: nat): set<nat> {
    set t | t in s.inside && s.inside[t].entered == g
  }

  function ReturnsFrom(history: seq<Return>, g: nat): nat {
    if history == [] then 0
    else ReturnsFrom(history[..|history| - 1], g) + if history[|history| - 1].generation == g then 1 else 0
  }

  /** The count never reaches the total while the lock is free. */
  predicate CountOk(s: System) {
    && s.shared.count < s.shared.total
    && |s.entries| == s.shared.generation + 1
    && s.entries[s.shared.generation] == s.shared.count
  }

  /** A thread still asleep waits for the current generation, and nobody has cancelled it. */
  predicate NoLostWakeup(s: System) {
    forall t | t in s.inside && s.inside[t].Asleep? ::
      s.inside[t].entered == s.shared.generation && !s.shared.cancelled
  }

  /** A generation that somebody left successfully, or will, was entered by everybody it needs. */
  predicate FullGenerations(s: System) {
    && (forall t | t in s.inside ::
          s.inside[t].entered < |s.entries|
          && (s.inside[t].entered < s.shared.generation ==> s.entries[s.inside[t].entered] == s.shared.total))
    && (forall r | r in s.history ::
          r.generation < |s.entries|
          && (r.ok ==> r.generation < s.shared.generation && s.entries[r.generation] == s.shared.total))
  }

  /** Everybody who entered a generation is still inside or has returned from it, once. */
  ghost predicate Conserved(s: System) {
    forall g {:trigger Waiters(s, g)} {:trigger ReturnsFrom(s.history, g)} | 0 <= g < |s.entries| ::
      |Waiters(s, g)| + ReturnsFrom(s.history, g) == s.entries[g]
  }

  ghost predicate Inv(s: System) {
    CountOk(s) && NoLostWakeup(s) && FullGenerations(s) && Conserved(s)
  }

  lemma StartInv(total: nat)
    requires total > 0
    ensures Inv(Start(total))
  {
    assert Waiters(Start(total), 0) == {};
  }

  lemma ReturnsFromFuture(history: seq<Return>, g: nat)
    requires forall r | r in history :: r.generation != g
    ensures ReturnsFrom(history, g) == 0
  {
    if history != [] {
      ReturnsFromFuture(history[..|history| - 1], g);
    }
  }

  lemma NotifyKeepsWaiters(s: System, t: System, g: nat)
    requires t.inside == Notified(s.inside)
    ensures Waiters(t, g) == Waiters(s, g)
  {
  }

  lemma AddedReturn(history: seq<Return>, r: Return, g: nat)
    ensures ReturnsFrom(history + [r], g) == ReturnsFrom(history, g) + if r.generation == g then 1 else 0
  {
    assert (history + [r])[..|history|] == history;
  }

  lemma SleepingConserves(s: System, t: nat, g: nat)
    requires Inv(s) && t !in s.inside && Arrive(s.shared).1 == Sleeps && g < |s.entries|
    ensures var n := AfterEnter(s, t); |Waiters(n, g)| + ReturnsFrom(n.history, g) == n.entries[g]
  {
    var n := AfterEnter(s, t);
    assert |Waiters(s, g)| + ReturnsFrom(s.history, g) == s.entries[g];
    if g == s.shared.generation {
      assert Waiters(n, g) == Waiters(s, g) + {t};
    } else {
      assert Waiters(n, g) == Waiters(s, g);
    }
  }

  /** Completing a generation counts one more entry in it and opens the next. */
  lemma CompletedEntries(s: System, t: nat, g: nat)
    requires CountOk(s) && Arrive(s.shared).1 == ReturnsOk && g <= |s.entries|
    ensures var n := AfterEnter(s, t);
            && |n.entries| == |s.entries| + 1
            && n.entries[g]
               == if g == |s.entries| then 0 else s.entries[g] + if g == s.shared.generation then 1 else 0
  {
  }

  lemma CompletingConserves(s: System, t: nat, g: nat)
    requires Inv(s) && t !in s.inside && Arrive(s.shared).1 == ReturnsOk && g <= |s.entries|
    ensures var n := AfterEnter(s, t);
            g < |n.entries| && |Waiters(n, g)| + ReturnsFrom(n.history, g) == n.entries[g]
  {
    var n, r := AfterEnter(s, t), Return(s.shared.generation, true);
    assert n.history == s.history + [r] && n.inside == Notified(s.inside);
    CompletedEntries(s, t, g);
    NotifyKeepsWaiters(s, n, g);
    AddedReturn(s.history, r, g);
    if g < |s.entries| {
      assert |Waiters(s, g)| + ReturnsFrom(s.history, g) == s.entries[g];
    } else {
      assert Waiters(s, g) == {};
      ReturnsFromFuture(s.history, g);
    }
  }

  lemma EnterKeepsConserved(s: System, t: nat)
    requires Inv(s) && t !in s.inside
    ensures Conserved(AfterEnter(s, t))
  {
    var n := AfterEnter(s, t);
    forall g {:trigger Waiters(n, g)} {:trigger ReturnsFrom(n.history, g)} | 0 <= g < |n.entries|
      ensures |Waiters(n, g)| + ReturnsFrom(n.history, g) == n.entries[g]
    {
      match Arrive(s.shared).1
      case ReturnsCancelled =>
      case Sleeps => SleepingConserves(s, t, g);
      case ReturnsOk => CompletingConserves(s, t, g);
    }
  }

  lemma EnterKeepsInv(s: System, t: nat)
    requires Inv(s) && t !in s.inside
    ensures Inv(AfterEnter(s, t))
  {
    EnterKeepsConserved(s, t);
  }

  lemma WakeKeepsInv(s: System, t: nat)
    requires Inv(s) && t in s.inside
    ensures Inv(s.(inside := s.inside[t := Woken(s.inside[t].entered)]))
  {
    var n := s.(inside := s.inside[t := Woken(s.inside[t].entered)]);
    forall g {:trigger Waiters(n, g)} {:trigger ReturnsFrom(n.history, g)} | 0 <= g < |n.entries|
      ensures |Waiters(n, g)| + ReturnsFrom(n.history, g) == n.entries[g]
    {
      assert Waiters(n, g) == Waiters(s, g);
    }
  }

  /** A thread that leaves moves from the waiters of its generation to its returns. */
  lemma LeavingConserves(s: System, n: System, t: nat, ok: bool, g: nat)
    requires t in s.inside && n.inside == s.inside - {t}
    requires n.history == s.history + [Return(s.inside[t].entered, ok)]
    ensures |Waiters(n, g)| + ReturnsFrom(n.history, g) == |Waiters(s, g)| + ReturnsFrom(s.history, g)
  {
    AddedReturn(s.history, Return(s.inside[t].entered, ok), g);
    if g == s.inside[t].entered {
      assert Waiters(s, g) == Waiters(n, g) + {t};
    } else {
      assert Waiters(n, g) == Waiters(s, g);
    }
  }

  lemma ResumeKeepsConserved(s: System, t: nat)
    requires Inv(s) && t in s.inside
    ensures Conserved(AfterResume(s, t))
  {
    var n := AfterResume(s, t);
    var outcome := Recheck(s.shared, s.inside[t].entered);
    forall g {:trigger Waiters(n, g)} {:trigger ReturnsFrom(n.history, g)} | 0 <= g < |n.entries|
      ensures |Waiters(n, g)| + ReturnsFrom(n.history, g) == n.entries[g]
    {
      assert |Waiters(s, g)| + ReturnsFrom(s.history, g) == s.entries[g];
      if outcome == Sleeps {
        assert Waiters(n, g) == Waiters(s, g);
      } else {
        LeavingConserves(s, n, t, outcome == ReturnsOk, g);
      }
    }
  }

  lemma ResumeKeepsInv(s: System, t: nat)
    requires Inv(s) && t in s.inside
    ensures Inv(AfterResume(s, t))
  {
    ResumeKeepsConserved(s, t);
  }

  lemma CancelKeepsInv(s: System)
    requires Inv(s)
    ensures Inv(Next(s, CancelAll))
  {
    var n := Next(s, CancelAll);
    forall g {:trigger Waiters(n, g)} {:trigger ReturnsFrom(n.history, g)} | 0 <= g < |n.entries|
      ensures |Waiters(n, g)| + ReturnsFrom(n.history, g) == n.entries[g]
    {
      NotifyKeepsWaiters(s, n, g);
    }
  }

  /** The invariant survives a reset exactly when nobody is inside `wait` for the current generation. */
  lemma ResetKeepsInvIff(s: System)
    requires Inv(s)
    ensures Inv(AfterReset(s)) <==> Quiescent(s)
  {
    var n := AfterReset(s);
    if Quiescent(s) {
      forall g {:trigger Waiters(n, g)} {:trigger ReturnsFrom(n.history, g)} | 0 <= g < |n.entries|
        ensures |Waiters(n, g)| + ReturnsFrom(n.history, g) == n.entries[g]
      {
        assert Waiters(n, g) == Waiters(s, g);
        if g == |s.entries| {
          assert Waiters(s, g) == {};
          ReturnsFromFuture(s.history, g);
        } else {
          assert |Waiters(s, g)| + ReturnsFrom(s.history, g) == s.entries[g];
        }
      }
    } else {
      var t :| t in s.inside && s.inside[t].entered == s.shared.generation;
      assert n.inside[t].entered < n.shared.generation;
      assert n.entries[s.shared.generation] == s.shared.count;
    }
  }

  lemma NextKeepsInv(s: System, event: Event)
    requires Inv(s) && Enabled(s, event)
    ensures Inv(Next(s, event))
  {
    match event
    case Enter(t) => EnterKeepsInv(s, t);
    case WakeSpuriously(t) => WakeKeepsInv(s, t);
    case Resume(t) => ResumeKeepsInv(s, t);
    case CancelAll => CancelKeepsInv(s);
    case ResetAll => ResetKeepsInvIff(s);
  }

  /** An interleaving: each event can happen when its turn comes. */
  predicate Possible(s: System, events: seq<Event>)
    decreases |events|
  {
    events == [] || (Enabled(s, events[0]) && Possible(Next(s, events[0]), events[1..]))
  }

  function Run(s: System, events: seq<Event>): System
    requires Possible(s, events)
    decreases |events|
  {
    if events == [] then s else Run(Next(s, events[0]), events[1..])
  }

  lemma {:induction false} RunKeepsInv(s: System, events: seq<Event>)
    requires Inv(s) && Possible(s, events)
    ensures Inv(Run(s, events))
    decreases |events|
  {
    if events != [] {
      NextKeepsInv(s, events[0]);
      RunKeepsInv(Next(s, events[0]), events[1..]);
    }
  }

  /** What the barrier is for: nobody returns success from a generation that did not fill up. */
  predicate PromiseKept(s: System) {
    forall r | r in s.history && r.ok :: r.generation < |s.entries| && s.entries[r.generation] == s.shared.total
  }

  /**
  Over all interleavings, with spurious wakeups and cancellations: a successful return happens only
  from a generation that `total` threads entered, and at most `total` times for each; the count stays
  below the total; and whoever is asleep waits for the current generation, uncancelled.
  */
  lemma BarrierIsSafe(total: nat, events: seq<Event>)
    requires total > 0 && Possible(Start(total), events)
    ensures var s := Run(Start(total), events);
            && s.shared.count < s.shared.total
            && NoLostWakeup(s)
            && PromiseKept(s)
            && (forall g: nat | g < |s.entries| :: ReturnsFrom(s.history, g) <= s.entries[g] <= s.shared.total)
  {
    StartInv(total);
    RunKeepsInv(Start(total), events);
    RunKeepsEntries(Start(total), events);
    var s := Run(Start(total), events);
    forall g: nat | g < |s.entries|
      ensures ReturnsFrom(s.history, g) <= s.entries[g]
    {
      assert |Waiters(s, g)| + ReturnsFrom(s.history, g) == s.entries[g];
    }
  }

  /** No generation is entered by more threads than the barrier is for. */
  predicate EntriesBounded(s: System) {
    forall g: nat | g < |s.entries| :: s.entries[g] <= s.shared.total
  }

  lemma {:induction false} RunKeepsEntries(s: System, events: seq<Event>)
    requires Inv(s) && EntriesBounded(s) && Possible(s, events)
    ensures EntriesBounded(Run(s, events))
    decreases |events|
  {
    if events != [] {
      NextKeepsInv(s, events[0]);
      assert EntriesBounded(Next(s, events[0]));
      RunKeepsEntries(Next(s, events[0]), events[1..]);
    }
  }

  // ----- a reset at the wrong time -----

  /** The thread wakes up, if it sleeps, and takes the lock. */
  function WakeAndResume(s: System, t: nat): seq<Event>
    requires t in s.inside
  {
    if s.inside[t].Asleep? then [WakeSpuriously(t), Resume(t)] else [Resume(t)]
  }

  /**
  Whoever is inside `wait` for the generation that a reset ends can return success at once, from a
  generation that fewer threads entered than the barrier is for.
  */
  lemma ResetBreaksPromise(s: System, t: nat)
    requires Inv(s) && t in s.inside && s.inside[t].entered == s.shared.generation
    ensures var n := AfterReset(s);
            && Possible(n, WakeAndResume(n, t))
            && var m := Run(n, WakeAndResume(n, t));
               && m.history == s.history + [Return(s.shared.generation, true)]
               && m.entries == s.entries + [0] && m.shared.total == s.shared.total
               && s.entries[s.shared.generation] < s.shared.total
               && !PromiseKept(m)
  {
    var n := AfterReset(s);
    WakeAndResumeRuns(n, t);
    var m := Run(n, WakeAndResume(n, t));
    assert m.history == s.history + [Return(s.shared.generation, true)];
    assert m.history[|s.history|] in m.history;
  }

  lemma WakeAndResumeRuns(n: System, t: nat)
    requires t in n.inside
    ensures Possible(n, WakeAndResume(n, t))
    ensures Run(n, WakeAndResume(n, t))
            == if n.inside[t].Asleep? then AfterResume(Next(n, WakeSpuriously(t)), t) else AfterResume(n, t)
  {
    if n.inside[t].Asleep? {
      var woken := Next(n, WakeSpuriously(t));
      ResumeRuns(woken, t);
      assert WakeAndResume(n, t)[1..] == [Resume(t)];
      assert Possible(woken, WakeAndResume(n, t)[1..]);
    } else {
      ResumeRuns(n, t);
    }
  }

  lemma ResumeRuns(n: System, t: nat)
    requires t in n.inside && n.inside[t].Woken?
    ensures Possible(n, [Resume(t)]) && Run(n, [Resume(t)]) == AfterResume(n, t)
  {
    assert [Resume(t)][1..] == [];
  }

  /**
  Everything that can happen after a reset keeps the barrier's promise if and only if nobody is inside
  `wait` for the generation that the reset ends.
  */
  lemma ResetIsSafeIff(s: System)
    requires Inv(s)
    ensures (forall events | Possible(AfterReset(s), events) :: PromiseKept(Run(AfterReset(s), events)))
            <==> Quiescent(s)
  {
    var n := AfterReset(s);
    ResetKeepsInvIff(s);
    if Quiescent(s) {
      forall events | Possible(n, events)
        ensures PromiseKept(Run(n, events))
      {
        RunKeepsInv(n, events);
      }
    } else {
      var t :| t in s.inside && s.inside[t].entered == s.shared.generation;
      ResetBreaksPromise(s, t);
    }
  }

  /** For instance: a barrier for two, one thread inside, a reset, and that thread returns success alone. */
  lemma ResetCanBreakPromise()
    ensures Possible(Start(2), [Enter(0)])
    ensures var n := AfterReset(Run(Start(2), [Enter(0)]));
            && Possible(n, [WakeSpuriously(0), Resume(0)])
            && var m := Run(n, [WakeSpuriously(0), Resume(0)]);
               m.history == [Return(0, true)] && m.entries[0] == 1 && !PromiseKept(m)
  {
    StartInv(2);
    EnterKeepsInv(Start(2), 0);
    var s := AfterEnter(Start(2), 0);
    assert [Enter(0)][1..] == [];
    assert Possible(s, []) && Run(Start(2), [Enter(0)]) == s;
    assert 0 in s.inside && s.inside[0] == Asleep(0);
    ResetBreaksPromise(s, 0);
  }
}
