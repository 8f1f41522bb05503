/** The linear congruential generator and the Fisher-Yates shuffle that it drives. */
module DeterministicShuffle {

  const LCG_A: nat := 6364136223846793005
  const LCG_C: nat := 1442695040888963407
  const WORD: nat := 0x1_0000_0000_0000_0000

  /** One step of the generator, in wrapping 64-bit arithmetic. */
  function NextState(state: nat): (next: nat)
    ensures next < WORD
  {
    (state * LCG_A + LCG_C) % WORD
  }

  class Lcg {
    var state: nat

    constructor (seed: nat)
      ensures state == seed
    {
      state := seed;
    }

    method NextU64() returns (r: nat)
      modifies this
      ensures state == r == NextState(old(state))
    {
      state := (state * LCG_A + LCG_C) % WORD;
      r := state;
    }

    method NextRange(max: nat) returns (r: nat)
      requires 0 < max
      modifies this
      ensures state == NextState(old(state))
      ensures r == state % max
    {
      var word := NextU64();
      r := word % max;
    }
  }

  function Swap<T>(items: seq<T>, i: nat, j: nat): (r: seq<T>)
    requires i < |items| && j < |items|
    ensures |r| == |items|
  {
    items[i := items[j]][j := items[i]]
  }

  /** The shuffle from position `i` down, with the generator in `state`. */
  function ShuffleDown<T>(items: seq<T>, state: nat, i: nat): (r: seq<T>)
    requires i < |items| || i == 0
    ensures |r| == |items|
    decreases i
  {
    if i == 0 then items
    else
      var next := NextState(state);
      ShuffleDown(Swap(items, i, next % (i + 1)), next, i - 1)
  }

  function Shuffled<T>(items: seq<T>, seed: nat): (r: seq<T>)
    ensures |r| == |items|
  {
    if items == [] then [] else ShuffleDown(items, seed, |items| - 1)
  }

  lemma SwapIsPermutation<T>(items: seq<T>, i: nat, j: nat)
    requires i < |items| && j < |items|
    ensures multiset(Swap(items, i, j)) == multiset(items)
  {
  }

  lemma {:induction false} ShuffleDownIsPermutation<T>(items: seq<T>, state: nat, i: nat)
    requires i < |items| || i == 0
    ensures multiset(ShuffleDown(items, state, i)) == multiset(items)
    decreases i
  {
    if i > 0 {
      var next := NextState(state);
      SwapIsPermutation(items, i, next % (i + 1));
      ShuffleDownIsPermutation(Swap(items, i, next % (i + 1)), next, i - 1);
    }
  }

  /** Whatever the seed, the shuffle only reorders. */
  lemma ShuffledIsPermutation<T>(items: seq<T>, seed: nat)
    ensures multiset(Shuffled(items, seed)) == multiset(items)
  {
    if items != [] {
      ShuffleDownIsPermutation(items, seed, |items| - 1);
    }
  }

  // ----- which item goes where -----

  /** The items left once the last position has taken the item at `j`: the last one has gone to its place. */
  function LeftAfter<T>(items: seq<T>, j: nat): (rest: seq<T>)
    requires j < |items|
    ensures |rest| == |items| - 1
  {
    var n := |items| - 1;
    if j == n then items[..n] else items[..n][j := items[n]]
  }

  lemma SwapSplits<T>(items: seq<T>, i: nat, j: nat)
    requires j <= i < |items|
    ensures Swap(items, i, j)[..i] == Swap(items[..i + 1], i, j)[..i]
    ensures Swap(items, i, j)[i..] == [items[j]] + items[i + 1..]
    ensures Swap(items[..i + 1], i, j)[i..] == [items[j]]
  {
  }

  /** What lies above position `i` plays no part in the shuffle from there down. */
  lemma {:induction false} TailStays<T>(items: seq<T>, state: nat, i: nat)
    requires i < |items|
    ensures ShuffleDown(items, state, i) == ShuffleDown(items[..i + 1], state, i) + items[i + 1..]
    decreases i
  {
    if i > 0 {
      var next := NextState(state);
      var j := next % (i + 1);
      SwapSplits(items, i, j);
      TailStays(Swap(items, i, j), next, i - 1);
      TailStays(Swap(items[..i + 1], i, j), next, i - 1);
    }
  }

  /**
  The last position takes the item that the first draw names, counted around the items; and all the other positions
  are the shuffle, from the state after that draw, of the items left then. A single item stays.
  */
  lemma LastTakesDrawn<T>(items: seq<T>, seed: nat)
    requires items != []
    ensures var n := |items|;
            var next := (seed * 6364136223846793005 + 1442695040888963407) % 0x1_0000_0000_0000_0000;
            && Shuffled(items, seed)[n - 1] == items[next % n]
            && Shuffled(items, seed)[..n - 1] == Shuffled(LeftAfter(items, next % n), next)
  {
    var n, next := |items|, NextState(seed);
    if n == 1 {
      assert items[..0] == [];
    } else {
      var swapped := Swap(items, n - 1, next % n);
      TailStays(swapped, next, n - 2);
      assert swapped[..n - 1] == LeftAfter(items, next % n);
      assert swapped[n - 1..] == [items[next % n]];
    }
  }

  /** The state after some draws. */
  function StateAfter(seed: nat, draws: nat): nat {
    if draws == 0 then seed
    else (StateAfter(seed, draws - 1) * 6364136223846793005 + 1442695040888963407) % 0x1_0000_0000_0000_0000
  }

  /** Further draws continue from the state after the first. */
  lemma {:induction false} StateAfterFirst(seed: nat, draws: nat)
    ensures StateAfter(StateAfter(seed, 1), draws) == StateAfter(seed, draws + 1)
  {
    if draws > 0 {
      StateAfterFirst(seed, draws - 1);
    }
  }

  /** Of `n` items: the draw for each position but the first, last position first, names that position itself. */
  predicate DrawsOwn(seed: nat, n: nat) {
    forall draws | 1 <= draws < n :: StateAfter(seed, draws) % (n - draws + 1) == n - draws
  }

  lemma LaterDrawsOwn(seed: nat, n: nat)
    requires DrawsOwn(seed, n + 1) && n > 0
    ensures StateAfter(seed, 1) % (n + 1) == n && DrawsOwn(StateAfter(seed, 1), n)
  {
    assert StateAfter(seed, 1) % (n + 1 - 1 + 1) == n;
    forall draws | 1 <= draws < n
      ensures StateAfter(StateAfter(seed, 1), draws) % (n - draws + 1) == n - draws
    {
      StateAfterFirst(seed, draws);
      assert StateAfter(seed, draws + 1) % (n + 1 - (draws + 1) + 1) == n - draws;
    }
  }

  lemma LastStays<T>(items: seq<T>, seed: nat)
    requires items != [] && StateAfter(seed, 1) % |items| == |items| - 1
    ensures var n := |items| - 1;
            Shuffled(items, seed) == Shuffled(items[..n], StateAfter(seed, 1)) + [items[n]]
  {
    var n := |items| - 1;
    assert StateAfter(seed, 0) == seed;
    LastTakesDrawn(items, seed);
    assert Shuffled(items, seed) == Shuffled(items, seed)[..n] + [Shuffled(items, seed)[n]];
  }

  /** Then nothing moves. */
  lemma {:induction false} OwnDrawsKeepOrder<T>(items: seq<T>, seed: nat)
    requires DrawsOwn(seed, |items|)
    ensures Shuffled(items, seed) == items
    decreases |items|
  {
    if |items| > 1 {
      var n := |items| - 1;
      LaterDrawsOwn(seed, n);
      LastStays(items, seed);
      OwnDrawsKeepOrder(items[..n], StateAfter(seed, 1));
    }
  }

  /** For instance a pair under seed zero, whose first draw is odd. */
  lemma PairStaysUnderZero<T>(a: T, b: T)
    ensures Shuffled([a, b], 0) == [a, b]
  {
    assert StateAfter(0, 0) == 0;
    assert StateAfter(0, 1) == 1442695040888963407;
    OwnDrawsKeepOrder([a, b], 0);
  }

  method Shuffle<T>(items: array<T>, seed: nat)
    modifies items
    ensures items[..] == Shuffled(old(items[..]), seed)
  {
    var rng := new Lcg(seed);
    if items.Length == 0 {
      return;
    }
    var i := items.Length - 1;
    while i > 0
      invariant 0 <= i < items.Length
      invariant ShuffleDown(items[..], rng.state, i) == Shuffled(old(items[..]), seed)
    {
      var j := rng.NextRange(i + 1);
      ghost var before := items[..];
      items[i], items[j] := items[j], items[i];
      assert items[..] == Swap(before, i, j);
      i := i - 1;
    }
  }
}
