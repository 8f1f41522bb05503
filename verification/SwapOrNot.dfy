/**
The swap-or-not shuffle of a virtual list of `count` indices: ninety rounds, each of which
either leaves an index alone or reflects it around a pivot that the seed determines.
*/
module SwapOrNot {
  import opened Bytes

  const SHUFFLE_ROUND_COUNT: nat := 90

  function Pivot(sha: Sha, seed: Digest, count: nat, round: nat): (p: nat)
    requires 0 < count && round < SHUFFLE_ROUND_COUNT
    ensures p < count
  {
    FromLittleEndian(sha(seed + [round])[0..8]) % count
  }

  /** The reflection of `x` around the pivot. */
  function Flip(pivot: nat, count: nat, x: nat): (y: nat)
    requires pivot < count && x < count
    ensures y < count
  {
    (pivot + count - x) % count
  }

  /** The pseudo-random bit that decides for both members of a reflected pair. */
  predicate SwapBit(sha: Sha, seed: Digest, round: nat, position: nat)
    requires round < SHUFFLE_ROUND_COUNT
  {
    var source := sha(seed + [round] + ToLittleEndian(position / 256, 8)[0..4]);
    TestBit(source[position % 256 / 8], position % 8)
  }

  /** One round. */
  function SwapRound(sha: Sha, seed: Digest, count: nat, round: nat, x: nat): (y: nat)
    requires x < count && round < SHUFFLE_ROUND_COUNT
    ensures y < count
  {
    var flip := Flip(Pivot(sha, seed, count, round), count, x);
    if SwapBit(sha, seed, round, if x < flip then flip else x) then flip else x
  }

  /** Rounds `0 .. rounds`, in that order. */
  function Shuffle(sha: Sha, seed: Digest, count: nat, rounds: nat, x: nat): (y: nat)
    requires x < count && rounds <= SHUFFLE_ROUND_COUNT
    ensures y < count
  {
    if rounds == 0 then x
    else SwapRound(sha, seed, count, rounds - 1, Shuffle(sha, seed, count, rounds - 1, x))
  }

  /** Rounds `rounds .. 0`, the last one first. */
  function Unshuffle(sha: Sha, seed: Digest, count: nat, rounds: nat, y: nat): (x: nat)
    requires y < count && rounds <= SHUFFLE_ROUND_COUNT
    ensures x < count
  {
    if rounds == 0 then y
    else Unshuffle(sha, seed, count, rounds - 1, SwapRound(sha, seed, count, rounds - 1, y))
  }

  /** Where the full shuffle sends `index`. */
  function ShuffledIndex(sha: Sha, seed: Digest, count: nat, index: nat): (y: nat)
    requires index < count
    ensures y < count
  {
    Shuffle(sha, seed, count, SHUFFLE_ROUND_COUNT, index)
  }

  method ComputeShuffledIndex(sha: Sha, index: nat, count: nat, seed: Digest) returns (current: nat)
    requires index < count
    ensures current == ShuffledIndex(sha, seed, count, index)
  {
    current := index;
    for round := 0 to SHUFFLE_ROUND_COUNT
      invariant current < count
      invariant current == Shuffle(sha, seed, count, round, index)
    {
      current := ComputeRound(sha, seed, count, round, current);
    }
  }

  method ComputeRound(sha: Sha, seed: Digest, count: nat, round: nat, current: nat) returns (next: nat)
    requires current < count && round < SHUFFLE_ROUND_COUNT
    ensures next == SwapRound(sha, seed, count, round, current)
  {
    var hashResult := sha(seed + [round]);
    var pivot := FromLittleEndian(hashResult[0..8]) % count;
    assert pivot == Pivot(sha, seed, count, round);
    var flip := (pivot + count - current) % count;
    assert flip == Flip(pivot, count, current);
    var position := if current < flip then flip else current;
    var source := sha(seed + [round] + ToLittleEndian(position / 256, 8)[0..4]);
    var byte := source[position % 256 / 8];
    next := if TestBit(byte, position % 8) then flip else current;
  }

  lemma ReduceOnce(y: nat, count: nat)
    requires y < count
    ensures (y + count) % count == y && y % count == y
  {
  }

  lemma FlipIsReflection(pivot: nat, count: nat, x: nat)
    requires pivot < count && x < count
    ensures Flip(pivot, count, x) == if x <= pivot then pivot - x else pivot + count - x
  {
    if x <= pivot {
      ReduceOnce(pivot - x, count);
    } else {
      ReduceOnce(pivot + count - x, count);
    }
  }

  /** Every round undoes itself: both members of a reflected pair read the same bit. */
  lemma SwapRoundIsInvolution(sha: Sha, seed: Digest, count: nat, round: nat, x: nat)
    requires x < count && round < SHUFFLE_ROUND_COUNT
    ensures SwapRound(sha, seed, count, round, SwapRound(sha, seed, count, round, x)) == x
  {
    var pivot := Pivot(sha, seed, count, round);
    FlipIsReflection(pivot, count, x);
    FlipIsReflection(pivot, count, Flip(pivot, count, x));
  }

  lemma {:induction false} UnshuffleInvertsShuffle(sha: Sha, seed: Digest, count: nat, rounds: nat, x: nat)
    requires x < count && rounds <= SHUFFLE_ROUND_COUNT
    ensures Unshuffle(sha, seed, count, rounds, Shuffle(sha, seed, count, rounds, x)) == x
  {
    if rounds > 0 {
      var y := Shuffle(sha, seed, count, rounds - 1, x);
      SwapRoundIsInvolution(sha, seed, count, rounds - 1, y);
      UnshuffleInvertsShuffle(sha, seed, count, rounds - 1, x);
    }
  }

  lemma {:induction false} ShuffleInvertsUnshuffle(sha: Sha, seed: Digest, count: nat, rounds: nat, y: nat)
    requires y < count && rounds <= SHUFFLE_ROUND_COUNT
    ensures Shuffle(sha, seed, count, rounds, Unshuffle(sha, seed, count, rounds, y)) == y
  {
    if rounds > 0 {
      var z := SwapRound(sha, seed, count, rounds - 1, y);
      ShuffleInvertsUnshuffle(sha, seed, count, rounds - 1, z);
      SwapRoundIsInvolution(sha, seed, count, rounds - 1, y);
    }
  }

  /** The index that the full shuffle sends to position `p`. */
  function UnshuffledIndex(sha: Sha, seed: Digest, count: nat, p: nat): (i: nat)
    requires p < count
    ensures i < count
  {
    Unshuffle(sha, seed, count, SHUFFLE_ROUND_COUNT, p)
  }

  /** The shuffle is a bijection on `[0, count)`, for every seed and every hash function: it has an inverse. */
  lemma ShuffledIndexIsBijection(sha: Sha, seed: Digest, count: nat)
    ensures forall i: nat | i < count ::
              UnshuffledIndex(sha, seed, count, ShuffledIndex(sha, seed, count, i)) == i
    ensures forall p: nat | p < count ::
              ShuffledIndex(sha, seed, count, UnshuffledIndex(sha, seed, count, p)) == p
  {
    forall i: nat | i < count
      ensures UnshuffledIndex(sha, seed, count, ShuffledIndex(sha, seed, count, i)) == i
    {
      UnshuffleInvertsShuffle(sha, seed, count, SHUFFLE_ROUND_COUNT, i);
    }
    forall p: nat | p < count
      ensures ShuffledIndex(sha, seed, count, UnshuffledIndex(sha, seed, count, p)) == p
    {
      ShuffleInvertsUnshuffle(sha, seed, count, SHUFFLE_ROUND_COUNT, p);
    }
  }

  /** The indices that the shuffle sends into the window `[lo, hi)`. */
  function Landing(sha: Sha, seed: Digest, count: nat, lo: nat, hi: nat): set<nat> {
    set i: nat | i < count && lo <= ShuffledIndex(sha, seed, count, i) < hi
  }

  /** Exactly as many indices land in a window as it has positions. */
  lemma {:induction false} LandingSize(sha: Sha, seed: Digest, count: nat, lo: nat, hi: nat)
    requires lo <= hi <= count
    ensures |Landing(sha, seed, count, lo, hi)| == hi - lo
    decreases hi - lo
  {
    if lo < hi {
      LandingSize(sha, seed, count, lo, hi - 1);
      LandingGrowsByOne(sha, seed, count, lo, hi);
    } else {
      NothingLandsInNoWindow(sha, seed, count, lo);
    }
  }

  lemma NothingLandsInNoWindow(sha: Sha, seed: Digest, count: nat, lo: nat)
    ensures Landing(sha, seed, count, lo, lo) == {}
  {
  }

  lemma LandingGrows(sha: Sha, seed: Digest, count: nat, lo: nat, hi: nat)
    requires lo < hi <= count
    ensures var i := UnshuffledIndex(sha, seed, count, hi - 1);
            && i !in Landing(sha, seed, count, lo, hi - 1)
            && Landing(sha, seed, count, lo, hi) == Landing(sha, seed, count, lo, hi - 1) + {i}
  {
    ShuffledIndexIsBijection(sha, seed, count);
  }

  lemma LandingGrowsByOne(sha: Sha, seed: Digest, count: nat, lo: nat, hi: nat)
    requires lo < hi <= count
    ensures |Landing(sha, seed, count, lo, hi)| == |Landing(sha, seed, count, lo, hi - 1)| + 1
  {
    LandingGrows(sha, seed, count, lo, hi);
    OneMoreElement(Landing(sha, seed, count, lo, hi - 1), UnshuffledIndex(sha, seed, count, hi - 1),
                   Landing(sha, seed, count, lo, hi));
  }

  lemma OneMoreElement(before: set<nat>, i: nat, after: set<nat>)
    requires i !in before && after == before + {i}
    ensures |after| == |before| + 1
  {
  }

  // ----- the shuffle from scratch -----

  /** The bit for position `m`: the digest of its block of 256 positions, read as one number. */
  predicate BitIsSet(sha: Sha, seed: Digest, round: Byte, m: nat) {
    var block := [m / 0x100 % 256, m / 0x1_0000 % 256, m / 0x100_0000 % 256, m / 0x1_0000_0000 % 256];
    FromLittleEndian(sha(seed + [round] + block)) / Pow2(m % 256) % 2 == 1
  }

  /** The two indices add up to the round's pivot, modulo the count. */
  predicate Partners(sha: Sha, seed: Digest, count: nat, round: Byte, x: nat, y: nat)
    requires 0 < count
  {
    (x + y) % count == FromLittleEndian(sha(seed + [round])[..8]) % count
  }

  /** `y` is `x` or its partner: the partner exactly when the bit for the larger of the two is set. */
  predicate KeepsOrReflects(sha: Sha, seed: Digest, count: nat, round: Byte, x: nat, y: nat)
    requires 0 < count
  {
    exists partner | 0 <= partner < count && Partners(sha, seed, count, round, x, partner) ::
      y == if BitIsSet(sha, seed, round, if x < partner then partner else x) then partner else x
  }

  /** The indices that an index passes through, from before the first of ninety rounds to after the last. */
  predicate IsTrace(sha: Sha, seed: Digest, count: nat, trace: seq<nat>) {
    && |trace| == 91
    && (forall r | 0 <= r < 91 :: trace[r] < count)
    && forall r | 0 <= r < 90 :: KeepsOrReflects(sha, seed, count, r, trace[r], trace[r + 1])
  }

  lemma BlockBytes(m: nat)
    ensures ToLittleEndian(m / 256, 8)[0..4]
            == [m / 0x100 % 256, m / 0x1_0000 % 256, m / 0x100_0000 % 256, m / 0x1_0000_0000 % 256]
  {
    var b := m / 256;
    assert ToLittleEndian(b, 8) == [b % 256] + ToLittleEndian(b / 256, 7);
    assert ToLittleEndian(b / 256, 7) == [b / 256 % 256] + ToLittleEndian(b / 256 / 256, 6);
    assert ToLittleEndian(b / 256 / 256, 6) == [b / 256 / 256 % 256] + ToLittleEndian(b / 256 / 256 / 256, 5);
    assert ToLittleEndian(b / 256 / 256 / 256, 5)[0] == b / 256 / 256 / 256 % 256;
  }

  lemma SwapBitIsBit(sha: Sha, seed: Digest, round: nat, m: nat)
    requires round < SHUFFLE_ROUND_COUNT
    ensures SwapBit(sha, seed, round, m) <==> BitIsSet(sha, seed, round, m)
  {
    BlockBytes(m);
    var source := sha(seed + [round] + ToLittleEndian(m / 256, 8)[0..4]);
    BitOfLittleEndian(source, m % 256);
    EighthOfBlock(m);
  }

  lemma EighthOfBlock(m: nat)
    ensures m % 256 % 8 == m % 8
  {
    assert m == 8 * (32 * (m / 256)) + m % 256;
  }

  /** The partner is unique. */
  lemma OnePartner(count: nat, x: nat, a: nat, b: nat)
    requires x < count && a < count && b < count && (x + a) % count == (x + b) % count
    ensures a == b
  {
    WrapOnce(x + a, count);
    WrapOnce(x + b, count);
  }

  lemma WrapOnce(n: nat, count: nat)
    requires n < 2 * count
    ensures n % count == if n < count then n else n - count
  {
    if n >= count {
      ReduceOnce(n - count, count);
    } else {
      ReduceOnce(n, count);
    }
  }

  lemma FlipIsPartner(sha: Sha, seed: Digest, count: nat, round: nat, x: nat)
    requires x < count && round < SHUFFLE_ROUND_COUNT
    ensures Partners(sha, seed, count, round, x, Flip(Pivot(sha, seed, count, round), count, x))
  {
    var pivot := Pivot(sha, seed, count, round);
    FlipIsReflection(pivot, count, x);
    WrapOnce(x + Flip(pivot, count, x), count);
    assert sha(seed + [round])[0..8] == sha(seed + [round])[..8];
  }

  /** A round keeps or reflects, and nothing else does what it does. */
  lemma RoundKeepsOrReflects(sha: Sha, seed: Digest, count: nat, round: nat, x: nat, y: nat)
    requires x < count && round < SHUFFLE_ROUND_COUNT
    ensures KeepsOrReflects(sha, seed, count, round, x, y) <==> y == SwapRound(sha, seed, count, round, x)
  {
    var flip := Flip(Pivot(sha, seed, count, round), count, x);
    FlipIsPartner(sha, seed, count, round, x);
    SwapBitIsBit(sha, seed, round, if x < flip then flip else x);
    forall partner | 0 <= partner < count && Partners(sha, seed, count, round, x, partner)
      ensures partner == flip
    {
      OnePartner(count, x, partner, flip);
    }
  }

  /** The prefix of the trace up to a round. */
  function TraceTo(sha: Sha, seed: Digest, count: nat, index: nat, rounds: nat): (trace: seq<nat>)
    requires index < count && rounds <= SHUFFLE_ROUND_COUNT
    ensures |trace| == rounds + 1
    ensures forall r | 0 <= r <= rounds :: trace[r] == Shuffle(sha, seed, count, r, index)
  {
    seq(rounds + 1, r requires 0 <= r <= rounds => Shuffle(sha, seed, count, r, index))
  }

  lemma {:induction false} TraceFollows(sha: Sha, seed: Digest, count: nat, trace: seq<nat>, r: nat)
    requires IsTrace(sha, seed, count, trace) && r <= 90
    ensures trace[r] == Shuffle(sha, seed, count, r, trace[0])
  {
    if r > 0 {
      TraceFollows(sha, seed, count, trace, r - 1);
      assert KeepsOrReflects(sha, seed, count, r - 1, trace[r - 1], trace[r - 1 + 1]);
      RoundKeepsOrReflects(sha, seed, count, r - 1, trace[r - 1], trace[r]);
    }
  }

  /**
  The shuffle sends an index to the end of its trace: there is one, and any trace from the index
  ends there.
  */
  lemma ShuffledIndexEndsTrace(sha: Sha, seed: Digest, count: nat, index: nat) returns (trace: seq<nat>)
    requires index < count
    ensures IsTrace(sha, seed, count, trace)
    ensures trace[0] == index && trace[90] == ShuffledIndex(sha, seed, count, index)
    ensures forall other | IsTrace(sha, seed, count, other) && other[0] == index ::
              other[90] == ShuffledIndex(sha, seed, count, index)
  {
    trace := TraceTo(sha, seed, count, index, SHUFFLE_ROUND_COUNT);
    forall r: nat | r < SHUFFLE_ROUND_COUNT
      ensures KeepsOrReflects(sha, seed, count, r, trace[r], trace[r + 1])
    {
      RoundKeepsOrReflects(sha, seed, count, r, trace[r], trace[r + 1]);
    }
    forall other | IsTrace(sha, seed, count, other) && other[0] == index
      ensures other[90] == ShuffledIndex(sha, seed, count, index)
    {
      TraceFollows(sha, seed, count, other, 90);
    }
  }

  // ----- an example -----

  /** Seven under the first round's pivot, bit five set for its first block, and zero everywhere else. */
  function ExampleSha(): Sha {
    (s: seq<Byte>) =>
      if |s| == 33 && s[32] == 0 then [7] + seq(31, _ => 0)
      else if |s| == 37 && s[32..] == [0, 0, 0, 0, 0] then [32] + seq(31, _ => 0)
      else seq(32, _ => 0)
  }

  lemma {:induction false} QuietRounds(sha: Sha, seed: Digest, count: nat, index: nat, rounds: nat)
    requires index < count && 1 <= rounds <= SHUFFLE_ROUND_COUNT
    requires forall r: nat, m: nat | 1 <= r < rounds && m < count :: !SwapBit(sha, seed, r, m)
    ensures Shuffle(sha, seed, count, rounds, index) == Shuffle(sha, seed, count, 1, index)
  {
    if rounds > 1 {
      QuietRounds(sha, seed, count, index, rounds - 1);
    }
  }

  lemma {:induction false} ZerosAreZero(n: nat)
    ensures FromLittleEndian(seq(n, _ => 0)) == 0
  {
    if n > 0 {
      ZerosAreZero(n - 1);
      assert seq(n, _ => 0 as Byte)[1..] == seq(n - 1, _ => 0 as Byte);
    }
  }

  lemma ExampleBit(seed: Digest, round: nat, m: nat)
    requires round < SHUFFLE_ROUND_COUNT && m < 256
    ensures SwapBit(ExampleSha(), seed, round, m) <==> round == 0 && m == 5
  {
    var block := ToLittleEndian(m / 256, 8)[0..4];
    BlockBytes(m);
    assert block == [0, 0, 0, 0];
    var input := seed + [round] + block;
    assert |input| == 37 && input[32..] == [round, 0, 0, 0, 0];
    assert input[32..][0] == round;
    ExampleByte(if round == 0 && m / 8 == 0 then 32 else 0, m % 8);
  }

  lemma ExampleByte(b: Byte, k: nat)
    requires k < 8 && (b == 32 || b == 0)
    ensures TestBit(b, k) <==> b == 32 && k == 5
  {
    assert Pow2(5) == 32 && Pow2(6) == 64 && Pow2(7) == 128 && Pow2(4) == 16;
  }

  lemma ExamplePivot(seed: Digest)
    ensures Pivot(ExampleSha(), seed, 10, 0) == 7
  {
    var digest := ExampleSha()(seed + [0]);
    assert digest[0..8] == [7] + seq(7, _ => 0 as Byte);
    assert digest[0..8][1..] == seq(7, _ => 0 as Byte);
    ZerosAreZero(7);
  }

  /**
  Of ten, index two has five as its partner in the first round, and the bit of the larger of the two, five, decides: it
  is set, though that of the smaller is not, and nothing moves afterwards.
  */
  lemma LargerOfPairDecides(seed: Digest)
    ensures ShuffledIndex(ExampleSha(), seed, 10, 2) == 5
  {
    var sha := ExampleSha();
    forall r: nat, m: nat | r < SHUFFLE_ROUND_COUNT && m < 10
      ensures SwapBit(sha, seed, r, m) <==> r == 0 && m == 5
    {
      ExampleBit(seed, r, m);
    }
    ExampleFirstRound(sha, seed, 10);
    QuietRounds(sha, seed, 10, 2, SHUFFLE_ROUND_COUNT);
  }

  lemma ExampleFirstRound(sha: Sha, seed: Digest, count: nat)
    requires sha == ExampleSha() && count == 10
    ensures Shuffle(sha, seed, count, 1, 2) == 5
  {
    ExamplePivot(seed);
    ExampleBit(seed, 0, 5);
    FlipIsReflection(7, count, 2);
    assert Shuffle(sha, seed, count, 0, 2) == 2;
  }
}
