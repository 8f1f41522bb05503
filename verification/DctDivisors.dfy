/** Prime factors by a 6k±1 wheel, all divisors from them, and the largest one within a bound. */
module DctDivisors {
  import opened Nonlinear
  import opened Sequences

  predicate Divides(d: int, n: int)
    requires d != 0
  {
    n % d == 0
  }

  predicate IsPrime(p: int) {
    p >= 2 && forall d | 2 <= d < p :: !Divides(d, p)
  }

  function Product(s: seq<int>): int {
    if s == [] then 1 else Product(s[..|s| - 1]) * s[|s| - 1]
  }

  predicate Ascending(s: seq<int>) {
    forall i, j | 0 <= i < j < |s| :: s[i] <= s[j]
  }

  predicate StrictlyAscending(s: seq<int>) {
    forall i, j | 0 <= i < j < |s| :: s[i] < s[j]
  }

  predicate AllPrime(s: seq<int>) {
    forall i | 0 <= i < |s| :: IsPrime(s[i])
  }

  // ----- divisibility -----

  lemma Small(d: int, k: int)
    requires d > 0 && -d < d * k < d
    ensures k == 0
  {
    if k >= 1 {
      MulAtLeast(d, k);
    } else if k <= -1 {
      MulAtLeast(d, -k);
    }
  }

  lemma MulAtLeast(d: int, k: int)
    requires d > 0 && k >= 1
    ensures d * k >= d && d * k >= k
  {
  }

  lemma MultipleIsDivisible(d: int, q: int)
    requires d > 0
    ensures Divides(d, d * q) && (d * q) / d == q
  {
    var n := d * q;
    assert n == d * (n / d) + n % d;
    assert d * (n / d - q) == -(n % d);
    Small(d, n / d - q);
  }

  lemma Quotient(d: int, n: int)
    requires d > 0 && Divides(d, n)
    ensures n == d * (n / d)
  {
  }

  lemma PositiveQuotient(d: int, n: int)
    requires d > 0 && n > 0 && Divides(d, n)
    ensures n == d * (n / d) && 1 <= n / d <= n && d <= n
  {
    Quotient(d, n);
    PositiveFactors(d, n / d);
    MulAtLeast(d, n / d);
  }

  lemma PositiveFactors(d: int, q: int)
    requires d > 0 && d * q > 0
    ensures q >= 1
  {
  }

  lemma DividesTransitive(a: int, b: int, c: int)
    requires a > 0 && b > 0 && Divides(a, b) && Divides(b, c)
    ensures Divides(a, c)
  {
    Quotient(a, b);
    Quotient(b, c);
    Associate(a, b / a, c / b);
    MultipleIsDivisible(a, (b / a) * (c / b));
  }

  lemma Associate(x: int, y: int, z: int)
    ensures (x * y) * z == x * (y * z)
  {
  }

  lemma DividesSum(d: int, a: int, b: int)
    requires d > 0 && Divides(d, a) && Divides(d, b)
    ensures Divides(d, a + b) && Divides(d, a - b)
  {
    Quotient(d, a);
    Quotient(d, b);
    assert d * (a / d) + d * (b / d) == d * (a / d + b / d);
    assert d * (a / d) - d * (b / d) == d * (a / d - b / d);
    MultipleIsDivisible(d, a / d + b / d);
    MultipleIsDivisible(d, a / d - b / d);
  }

  // ----- primes -----

  /** No number from 2 up to `bound` divides `n`. */
  predicate NoDivisorBelow(n: int, bound: int) {
    forall d | 2 <= d < bound :: !Divides(d, n)
  }

  lemma SmallestDivisorIsPrime(n: int, k: int)
    requires k >= 2 && Divides(k, n) && NoDivisorBelow(n, k)
    ensures IsPrime(k)
  {
    forall d | 2 <= d < k
      ensures !Divides(d, k)
    {
      if Divides(d, k) {
        DividesTransitive(d, k, n);
      }
    }
  }

  lemma QuotientKeepsBound(n: int, k: int, bound: int)
    requires k > 0 && n > 0 && Divides(k, n) && NoDivisorBelow(n, bound)
    ensures NoDivisorBelow(n / k, bound)
  {
    QuotientDivides(k, n);
    forall d | 2 <= d < bound
      ensures !Divides(d, n / k)
    {
      if Divides(d, n / k) {
        DividesTransitive(d, n / k, n);
      }
    }
  }

  lemma QuotientDivides(k: int, n: int)
    requires k > 0 && n > 0 && Divides(k, n)
    ensures n / k > 0 && Divides(n / k, n)
  {
    var q := n / k;
    PositiveQuotient(k, n);
    assert n == q * k;
    MultipleIsDivisible(q, k);
  }

  /** What is left of a number without small divisors is prime once their square exceeds it. */
  lemma RestIsPrime(n: int, bound: int)
    requires n > 1 && bound >= 2 && NoDivisorBelow(n, bound) && bound * bound > n
    ensures IsPrime(n) && n >= bound
  {
    MultipleIsDivisible(n, 1);
    assert n >= bound;
    forall d | 2 <= d < n
      ensures !Divides(d, n)
    {
      if Divides(d, n) {
        PositiveQuotient(d, n);
        var q := n / d;
        MultipleIsDivisible(q, d);
        if q != 1 {
          assert d >= bound && q >= bound;
          MulBothAtLeast(d, q, bound);
        }
      }
    }
  }

  lemma MulBothAtLeast(x: int, y: int, bound: int)
    requires x >= bound >= 0 && y >= bound
    ensures x * y >= bound * bound
  {
    assert x * y >= bound * y by { MulMonotone(y, bound, x); }
    MulMonotone(bound, bound, y);
  }

  lemma WheelResidues(i: int)
    requires i % 6 == 5
    ensures (i + 1) % 2 == 0 && (i + 3) % 2 == 0 && (i + 4) % 3 == 0 && (i + 5) % 2 == 0
  {
  }

  /** The numbers that the wheel skips are multiples of two or three. */
  lemma WheelSkips(n: int, i: int)
    requires i > 0 && i % 6 == 5 && !Divides(2, n) && !Divides(3, n)
    ensures !Divides(i + 1, n) && !Divides(i + 3, n) && !Divides(i + 4, n) && !Divides(i + 5, n)
  {
    WheelResidues(i);
    MultipleDoesNotDivide(2, i + 1, n);
    MultipleDoesNotDivide(2, i + 3, n);
    MultipleDoesNotDivide(3, i + 4, n);
    MultipleDoesNotDivide(2, i + 5, n);
  }

  lemma MultipleDoesNotDivide(q: int, d: int, n: int)
    requires q > 0 && d > 0 && Divides(q, d) && !Divides(q, n)
    ensures !Divides(d, n)
  {
    if Divides(d, n) {
      DividesTransitive(q, d, n);
    }
  }

  // ----- prime factors -----

  /** The factors found so far, with what is left of the number. */
  predicate Factoring(whole: int, factors: seq<int>, rest: int, bound: int) {
    && rest >= 1
    && Product(factors) * rest == whole
    && AllPrime(factors) && Ascending(factors)
    && (forall i | 0 <= i < |factors| :: factors[i] < bound)
    && NoDivisorBelow(rest, bound)
  }

  /** The same while `k` itself is being divided out. */
  predicate Dividing(whole: int, factors: seq<int>, rest: int, k: int) {
    && rest >= 1
    && Product(factors) * rest == whole
    && AllPrime(factors) && Ascending(factors)
    && (forall i | 0 <= i < |factors| :: factors[i] <= k)
    && NoDivisorBelow(rest, k)
  }

  lemma FactorFound(whole: int, factors: seq<int>, rest: int, k: int)
    requires k >= 2 && Divides(k, rest) && Dividing(whole, factors, rest, k)
    ensures 1 <= rest / k < rest
    ensures Dividing(whole, factors + [k], rest / k, k)
  {
    SmallestDivisorIsPrime(rest, k);
    QuotientKeepsBound(rest, k, k);
    PositiveQuotient(k, rest);
    assert (factors + [k])[..|factors|] == factors;
    Associate(Product(factors), k, rest / k);
    StrictlySmaller(k, rest / k);
  }

  lemma StrictlySmaller(k: int, q: int)
    requires k >= 2 && q >= 1
    ensures q < k * q
  {
  }

  lemma StillDivides(k: int, rest: int, n: int)
    requires k > 0 && rest > 0 && Divides(k, rest) && Divides(rest, n)
    ensures rest / k > 0 && Divides(rest / k, n)
  {
    QuotientDivides(k, rest);
    DividesTransitive(rest / k, rest, n);
  }

  function Abs(n: int): nat {
    if n < 0 then -n else n
  }

  /** The sign makes no difference to divisibility, nor to an exact quotient. */
  lemma SignDoesNotMatter(k: int, n: int)
    requires k > 0
    ensures Divides(k, n) <==> Divides(k, Abs(n))
    ensures Divides(k, n) ==> Abs(n / k) == Abs(n) / k && (n < 0 <==> n / k < 0)
  {
    if Divides(k, n) {
      Quotient(k, n);
      assert -n == k * -(n / k);
      MultipleIsDivisible(k, -(n / k));
    } else if Divides(k, -n) {
      Quotient(k, -n);
      assert n == k * -(-n / k);
      MultipleIsDivisible(k, -(-n / k));
    }
  }

  /** Divides out every power of `k`. */
  method Extract(n: int, k: int, found: seq<int>, ghost whole: int) returns (rest: int, factors: seq<int>)
    requires k >= 2 && Factoring(whole, found, Abs(n), k)
    ensures Factoring(whole, factors, Abs(rest), k + 1)
    ensures Abs(rest) <= Abs(n) && Divides(Abs(rest), Abs(n)) && (rest < 0 <==> n < 0)
  {
    rest, factors := n, found;
    MultipleIsDivisible(Abs(n), 1);
    SignDoesNotMatter(k, rest);
    while rest % k == 0
      invariant 1 <= Abs(rest) <= Abs(n) && Divides(Abs(rest), Abs(n)) && (rest < 0 <==> n < 0)
      invariant Dividing(whole, factors, Abs(rest), k)
      invariant Divides(k, rest) <==> Divides(k, Abs(rest))
      decreases Abs(rest)
    {
      SignDoesNotMatter(k, rest);
      FactorFound(whole, factors, Abs(rest), k);
      StillDivides(k, Abs(rest), Abs(n));
      factors := factors + [k];
      rest := rest / k;
      SignDoesNotMatter(k, rest);
    }
  }

  /** One turn of the wheel: the two candidates `i` and `i + 2`. */
  method Turn(n: int, i: int, found: seq<int>, ghost whole: int) returns (rest: int, factors: seq<int>)
    requires i >= 5 && i % 6 == 5 && Factoring(whole, found, n, i)
    ensures Factoring(whole, factors, rest, i + 6)
    ensures rest <= n
  {
    assert !Divides(2, n) && !Divides(3, n);
    rest, factors := Extract(n, i, found, whole);
    WheelTurns(n, rest, i);
    Widen(whole, factors, rest, i + 1, i + 2);
    ghost var middle := rest;
    rest, factors := Extract(rest, i + 2, factors, whole);
    WheelTurns(middle, rest, i);
    Widen(whole, factors, rest, i + 3, i + 6);
  }

  /** All the twos and threes of a number, and nothing else. */
  ghost predicate TwosAndThrees(divisors: seq<int>, number: int) {
    && Ascending(divisors)
    && (forall i | 0 <= i < |divisors| :: divisors[i] == 2 || divisors[i] == 3)
    && exists rest :: Product(divisors) * rest == number && !Divides(2, rest) && !Divides(3, rest)
  }

  /** Nothing for zero; of a negative number only the twos and threes, for the wheel stops at once. */
  method GetPrimeDivisors(number: int) returns (divisors: seq<int>)
    ensures number == 0 ==> divisors == []
    ensures number >= 1 ==> Product(divisors) == number && AllPrime(divisors) && Ascending(divisors)
    ensures number < 0 ==> TwosAndThrees(divisors, number)
  {
    if number == 0 {
      return [];
    }
    var n := number;
    ghost var whole := Abs(number);
    n, divisors := Extract(n, 2, [], whole);
    n, divisors := Extract(n, 3, divisors, whole);
    var i := 5;
    FourDoesNotDivide(Abs(n));
    if n < 0 {
      OnlyTwosAndThrees(number, divisors, n);
    }
    while i * i <= n
      invariant i >= 5 && i % 6 == 5
      invariant n > 0 ==> Factoring(whole, divisors, n, i)
      invariant n < 0 ==> TwosAndThrees(divisors, number)
      invariant n != 0 && (n < 0 <==> number < 0)
      decreases n - i
    {
      SquareAbove(i);
      n, divisors := Turn(n, i, divisors, whole);
      i := i + 6;
    }
    if n > 1 {
      LastFactor(whole, divisors, n, i);
      divisors := divisors + [n];
    }
  }

  lemma OnlyTwosAndThrees(number: int, factors: seq<int>, rest: int)
    requires number < 0 && rest < 0 && Factoring(-number, factors, -rest, 4)
    ensures TwosAndThrees(factors, number)
  {
    assert Product(factors) * rest == -(Product(factors) * -rest);
    assert !Divides(2, -rest) && !Divides(3, -rest);
    SignDoesNotMatter(2, rest);
    SignDoesNotMatter(3, rest);
    forall i | 0 <= i < |factors|
      ensures factors[i] == 2 || factors[i] == 3
    {
      assert IsPrime(factors[i]);
    }
  }

  lemma LastFactor(whole: int, factors: seq<int>, rest: int, bound: int)
    requires Factoring(whole, factors, rest, bound) && rest > 1 && bound >= 2 && bound * bound > rest
    ensures Product(factors + [rest]) == whole && AllPrime(factors + [rest]) && Ascending(factors + [rest])
  {
    RestIsPrime(rest, bound);
    assert (factors + [rest])[..|factors|] == factors;
  }

  lemma FourDoesNotDivide(n: int)
    requires NoDivisorBelow(n, 4)
    ensures NoDivisorBelow(n, 5)
  {
    MultipleDoesNotDivide(2, 4, n);
  }

  lemma SquareAbove(i: int)
    requires i >= 5
    ensures i * i >= 5 * i
  {
  }

  /** Dividing out cannot bring two or three back. */
  lemma WheelTurns(n: int, rest: int, i: int)
    requires i > 0 && i % 6 == 5 && n >= 1 && rest >= 1 && Divides(rest, n)
    requires !Divides(2, n) && !Divides(3, n)
    ensures !Divides(2, rest) && !Divides(3, rest)
    ensures !Divides(i + 1, rest) && !Divides(i + 3, rest) && !Divides(i + 4, rest) && !Divides(i + 5, rest)
  {
    if Divides(2, rest) {
      DividesTransitive(2, rest, n);
    }
    if Divides(3, rest) {
      DividesTransitive(3, rest, n);
    }
    WheelSkips(rest, i);
  }

  lemma Widen(whole: int, factors: seq<int>, rest: int, bound: int, wider: int)
    requires Factoring(whole, factors, rest, bound) && 2 <= bound <= wider
    requires forall d | bound <= d < wider :: !Divides(d, rest)
    ensures Factoring(whole, factors, rest, wider)
  {
  }

  // ----- Euclid's lemma, and the divisors of a product with a prime -----

  lemma {:induction false} EuclidsLemma(p: int, a: int, b: int)
    requires IsPrime(p) && a >= 0 && Divides(p, a * b)
    ensures Divides(p, a) || Divides(p, b)
    decreases a
  {
    if a >= p {
      MultipleIsDivisible(p, b);
      DividesSum(p, a * b, p * b);
      assert a * b - p * b == (a - p) * b;
      EuclidsLemma(p, a - p, b);
      ReduceBy(p, a);
    } else if a >= 2 {
      EuclidReduces(p, a, b);
      EuclidsLemma(p, p % a, b);
      RemainderNotDivisible(p, a);
    } else if a == 0 {
      MultipleIsDivisible(p, 0);
    }
  }

  lemma ReduceBy(p: int, a: int)
    requires p > 0 && a >= p
    ensures Divides(p, a - p) ==> Divides(p, a)
  {
    if Divides(p, a - p) {
      MultipleIsDivisible(p, 1);
      DividesSum(p, a - p, p);
    }
  }

  lemma EuclidReduces(p: int, a: int, b: int)
    requires p > 0 && 2 <= a < p && Divides(p, a * b)
    ensures Divides(p, (p % a) * b)
  {
    var q := p / a;
    assert p == a * q + p % a;
    Quotient(p, a * b);
    var k := (a * b) / p;
    MultipleIsDivisible(p, b);
    MultipleIsDivisible(p, k * q);
    DividesSum(p, p * b, p * (k * q));
    assert (p % a) * b == p * b - (a * b) * q by {
      Distribute(a * q, p % a, b);
      Commute(a, q, b);
    }
    Associate(p, k, q);
  }

  lemma Commute(x: int, y: int, z: int)
    ensures (x * y) * z == (x * z) * y
  {
  }

  lemma RemainderNotDivisible(p: int, a: int)
    requires IsPrime(p) && 2 <= a < p
    ensures 0 < p % a < a && !Divides(p, p % a)
  {
    assert !Divides(a, p);
    assert (p % a) % p == p % a;
  }

  /** A divisor of `m * p` either divides `m` already or is `p` times one that does. */
  lemma DivisorOfTimesPrime(d: int, m: int, p: int)
    requires d > 0 && m > 0 && IsPrime(p) && Divides(d, m * p)
    ensures Divides(d, m) || (Divides(p, d) && d / p > 0 && Divides(d / p, m))
  {
    var q := (m * p) / d;
    Quotient(d, m * p);
    assert m * p == d * q == p * m;
    MultipleIsDivisible(p, m);
    EuclidsLemma(p, d, q);
    if Divides(p, q) {
      Quotient(p, q);
      var r := q / p;
      CancelPrime(p, m, d, r, q);
      MultipleIsDivisible(d, r);
    } else {
      PositiveQuotient(p, d);
      var e := d / p;
      CancelPrime(p, m, q, e, d);
      MultipleIsDivisible(e, q);
    }
  }

  lemma CancelPrime(p: int, m: int, x: int, r: int, y: int)
    requires p > 0 && p * m == x * y && y == p * r
    ensures m == x * r && m == r * x
  {
    assert p * m == p * (x * r) by {
      Rearrange(x, p, r);
    }
    Cancel(p, m, x * r);
  }

  lemma Rearrange(x: int, p: int, r: int)
    ensures x * (p * r) == p * (x * r)
  {
  }

  lemma Cancel(p: int, a: int, b: int)
    requires p > 0 && p * a == p * b
    ensures a == b
  {
    assert p * (a - b) == 0;
    Small(p, a - b);
  }

  // ----- lists of divisors -----

  /** The list holds every positive divisor of `m`, once. */
  ghost predicate ListsDivisors(list: seq<int>, m: int) {
    && (forall i | 0 <= i < |list| :: list[i] > 0 && Divides(list[i], m))
    && (forall d | d > 0 && Divides(d, m) :: d in list)
    && (forall i, j | 0 <= i < j < |list| :: list[i] != list[j])
  }

  function Scaled(list: seq<int>, factor: int): (r: seq<int>)
    ensures |r| == |list|
  {
    seq(|list|, i requires 0 <= i < |list| => list[i] * factor)
  }

  function Power(p: int, k: nat): int {
    if k == 0 then 1 else Power(p, k - 1) * p
  }

  lemma {:induction false} PowerPositive(p: int, k: nat)
    requires p > 0
    ensures Power(p, k) > 0
  {
    if k > 0 {
      PowerPositive(p, k - 1);
      MulAtLeast(Power(p, k - 1), p);
    }
  }

  /** New divisors that one more factor `p` brings: `p` to the full power times a divisor of the rest. */
  lemma {:induction false} NewDivisors(d: int, rest: int, p: int, k: nat)
    requires d > 0 && rest > 0 && IsPrime(p)
    requires Divides(d, rest * Power(p, k + 1)) && !Divides(d, rest * Power(p, k))
    ensures exists e :: e > 0 && Divides(e, rest) && d == e * Power(p, k + 1)
  {
    PowerPositive(p, k);
    MulAtLeast(rest, Power(p, k));
    Associate(rest, Power(p, k), p);
    DivisorOfTimesPrime(d, rest * Power(p, k), p);
    var d' := d / p;
    PositiveQuotient(p, d);
    if k == 0 {
      assert Power(p, 1) == p && rest * Power(p, 0) == rest;
      assert d' > 0 && Divides(d', rest) && d == d' * Power(p, 1);
    } else {
      if Divides(d', rest * Power(p, k - 1)) {
        LiftDivisor(d', rest * Power(p, k - 1), p);
        Associate(rest, Power(p, k - 1), p);
        assert false;
      }
      NewDivisors(d', rest, p, k - 1);
      var e :| e > 0 && Divides(e, rest) && d' == e * Power(p, k);
      Associate(e, Power(p, k), p);
      assert d == e * Power(p, k + 1);
    }
  }

  lemma LiftDivisor(d: int, m: int, p: int)
    requires d > 0 && p > 0 && Divides(d, m)
    ensures Divides(p * d, m * p)
  {
    Quotient(d, m);
    MulAtLeast(p, d);
    Rearrange(d, p, m / d);
    assert m * p == (p * d) * (m / d) by {
      Associate(p, d, m / d);
    }
    MultipleIsDivisible(p * d, m / d);
  }

  lemma OldDivisorsRemain(d: int, rest: int, p: int, k: nat)
    requires d > 0 && p > 0 && Divides(d, rest * Power(p, k))
    ensures Divides(d, rest * Power(p, k + 1))
  {
    var m := rest * Power(p, k);
    Quotient(d, m);
    Associate(d, m / d, p);
    Associate(rest, Power(p, k), p);
    MultipleIsDivisible(d, (m / d) * p);
  }

  lemma ScaledDivides(e: int, rest: int, f: int)
    requires e > 0 && f > 0 && Divides(e, rest)
    ensures e * f > 0 && Divides(e * f, rest * f)
  {
    MulAtLeast(e, f);
    Quotient(e, rest);
    Commute(e, rest / e, f);
    MultipleIsDivisible(e * f, rest / e);
  }

  /** A divisor that uses the full power cannot have been there before. */
  lemma FullPowerIsNew(e: int, rest: int, p: int, k: nat)
    requires e > 0 && p > 0 && !Divides(p, rest)
    requires e * Power(p, k + 1) > 0
    ensures !Divides(e * Power(p, k + 1), rest * Power(p, k))
  {
    var f := Power(p, k);
    PowerPositive(p, k);
    if Divides(e * Power(p, k + 1), rest * f) {
      var q := (rest * f) / (e * Power(p, k + 1));
      Quotient(e * Power(p, k + 1), rest * f);
      FactorOut(rest, f, e, p, q);
      MultipleIsDivisible(p, e * q);
    }
  }

  lemma FactorOut(rest: int, f: int, e: int, p: int, q: int)
    requires f > 0 && rest * f == (e * (f * p)) * q
    ensures rest == p * (e * q)
  {
    assert (e * (f * p)) * q == f * (p * (e * q)) by {
      Rearrange(e, f, p);
      Associate(f, e * p, q);
      Associate(e, p, q);
      Rearrange(e, p, q);
    }
    Cancel(f, rest, p * (e * q));
  }

  /** What the slice scales to is divisors, and new ones. */
  lemma ScaledIsNew(list: seq<int>, slice: seq<int>, rest: int, p: int, k: nat, i: nat)
    requires rest > 0 && IsPrime(p) && !Divides(p, rest) && i < |slice|
    requires ListsDivisors(list, rest * Power(p, k)) && ListsDivisors(slice, rest)
    ensures var d := Scaled(slice, Power(p, k + 1))[i]; d > 0 && Divides(d, rest * Power(p, k + 1)) && d !in list
  {
    PowerPositive(p, k + 1);
    ScaledDivides(slice[i], rest, Power(p, k + 1));
    FullPowerIsNew(slice[i], rest, p, k);
  }

  lemma DistinctTogether(list: seq<int>, more: seq<int>)
    requires forall i, j | 0 <= i < j < |list| :: list[i] != list[j]
    requires forall i, j | 0 <= i < j < |more| :: more[i] != more[j]
    requires forall i | 0 <= i < |more| :: more[i] !in list
    ensures forall i, j | 0 <= i < j < |list + more| :: (list + more)[i] != (list + more)[j]
  {
  }

  /** One more factor `p`: the old divisors, and the scaled ones of the rest, are all there is. */
  lemma MoreDivisors(list: seq<int>, slice: seq<int>, rest: int, p: int, k: nat)
    requires rest > 0 && IsPrime(p) && !Divides(p, rest)
    requires ListsDivisors(list, rest * Power(p, k)) && ListsDivisors(slice, rest)
    ensures ListsDivisors(list + Scaled(slice, Power(p, k + 1)), rest * Power(p, k + 1))
  {
    var f := Power(p, k + 1);
    var scaled := Scaled(slice, f);
    PowerPositive(p, k + 1);
    forall i | 0 <= i < |list|
      ensures Divides(list[i], rest * f)
    {
      OldDivisorsRemain(list[i], rest, p, k);
    }
    forall i | 0 <= i < |scaled|
      ensures scaled[i] > 0 && Divides(scaled[i], rest * f) && scaled[i] !in list
    {
      ScaledIsNew(list, slice, rest, p, k, i);
    }
    forall d | d > 0 && Divides(d, rest * f)
      ensures d in list + scaled
    {
      NothingMissing(list, slice, rest, p, k, d);
    }
    ScaledDistinct(slice, f);
    DistinctTogether(list, scaled);
  }

  lemma ScaledDistinct(slice: seq<int>, f: int)
    requires f > 0
    requires forall i, j | 0 <= i < j < |slice| :: slice[i] != slice[j]
    ensures forall i, j | 0 <= i < j < |slice| :: Scaled(slice, f)[i] != Scaled(slice, f)[j]
  {
    forall i, j | 0 <= i < j < |slice|
      ensures Scaled(slice, f)[i] != Scaled(slice, f)[j]
    {
      if slice[i] * f == slice[j] * f {
        Cancel(f, slice[i], slice[j]);
      }
    }
  }

  lemma NothingMissing(list: seq<int>, slice: seq<int>, rest: int, p: int, k: nat, d: int)
    requires rest > 0 && IsPrime(p)
    requires ListsDivisors(list, rest * Power(p, k)) && ListsDivisors(slice, rest)
    requires d > 0 && Divides(d, rest * Power(p, k + 1))
    ensures d in list + Scaled(slice, Power(p, k + 1))
  {
    var f := Power(p, k + 1);
    if Divides(d, rest * Power(p, k)) {
      assert d in list;
    } else {
      NewDivisors(d, rest, p, k);
      var e :| e > 0 && Divides(e, rest) && d == e * f;
      assert e in slice;
      var i :| 0 <= i < |slice| && slice[i] == e;
      assert Scaled(slice, f)[i] == d;
    }
  }

  // ----- building the list -----

  lemma {:induction false} ProductPositive(primes: seq<int>)
    requires AllPrime(primes)
    ensures Product(primes) >= 1
  {
    if primes != [] {
      var n := |primes| - 1;
      ProductPositive(primes[..n]);
      MulAtLeast(Product(primes[..n]), primes[n]);
    }
  }

  /** A prime that divides a product of primes is one of them. */
  lemma {:induction false} PrimeInProduct(p: int, primes: seq<int>)
    requires IsPrime(p) && AllPrime(primes) && Divides(p, Product(primes))
    ensures p in primes
  {
    if primes != [] {
      var n := |primes| - 1;
      ProductPositive(primes[..n]);
      EuclidsLemma(p, Product(primes[..n]), primes[n]);
      if Divides(p, Product(primes[..n])) {
        PrimeInProduct(p, primes[..n]);
      } else {
        PositiveQuotient(p, primes[n]);
        assert p == primes[n];
      }
    }
  }

  /** The loop's state after some primes: how their product splits at the last of them. */
  ghost predicate Building(divisors: seq<int>, product: int, lastPrime: int, factor: int, sliceLen: nat,
                           rest: int, k: nat)
  {
    && rest > 0 && IsPrime(lastPrime) && !Divides(lastPrime, rest)
    && factor == Power(lastPrime, k)
    && product == rest * factor
    && sliceLen <= |divisors|
    && ListsDivisors(divisors[..sliceLen], rest)
    && ListsDivisors(divisors, product)
  }

  /** A new prime starts from everything found so far. */
  lemma NewPrime(divisors: seq<int>, product: int, p: int)
    requires product > 0 && IsPrime(p) && !Divides(p, product) && ListsDivisors(divisors, product)
    ensures Building(divisors, product, p, 1, |divisors|, product, 0)
  {
    assert divisors[..|divisors|] == divisors;
  }

  /** Multiplying in the last prime once more. */
  lemma SamePrime(divisors: seq<int>, product: int, p: int, factor: int, sliceLen: nat, rest: int, k: nat)
    requires Building(divisors, product, p, factor, sliceLen, rest, k)
    ensures Building(divisors + Scaled(divisors[..sliceLen], factor * p), product * p, p, factor * p, sliceLen,
                     rest, k + 1)
  {
    MoreDivisors(divisors, divisors[..sliceLen], rest, p, k);
    Associate(rest, factor, p);
    assert (divisors + Scaled(divisors[..sliceLen], factor * p))[..sliceLen] == divisors[..sliceLen];
  }

  method Multiply(divisors: seq<int>, sliceLen: nat, factor: int) returns (all: seq<int>)
    requires sliceLen <= |divisors|
    ensures all == divisors + Scaled(divisors[..sliceLen], factor)
  {
    all := divisors;
    for i := 0 to sliceLen
      invariant all == divisors + Scaled(divisors[..sliceLen], factor)[..i]
    {
      all := all + [all[i] * factor];
    }
  }

  lemma OneListsItself()
    ensures ListsDivisors([1], 1)
  {
    forall d | d > 0 && Divides(d, 1)
      ensures d in [1]
    {
      PositiveQuotient(d, 1);
    }
  }

  /** A prime not met yet divides nothing so far. */
  lemma FreshPrime(primes: seq<int>, t: nat)
    requires AllPrime(primes) && Ascending(primes) && t < |primes|
    requires t > 0 ==> primes[t - 1] != primes[t]
    ensures Product(primes[..t]) > 0 && !Divides(primes[t], Product(primes[..t]))
  {
    ProductPositive(primes[..t]);
    if Divides(primes[t], Product(primes[..t])) {
      PrimeInProduct(primes[t], primes[..t]);
    }
  }

  /** The loop's state after the first `t` primes. */
  ghost predicate MultipliedOut(primes: seq<int>, t: nat, divisors: seq<int>, lastPrime: int, factor: int,
                                sliceLen: nat, rest: int, k: nat)
    requires t <= |primes|
  {
    if t == 0 then divisors == [1] && lastPrime == 0
    else
      && lastPrime == primes[t - 1]
      && Building(divisors, Product(primes[..t]), lastPrime, factor, sliceLen, rest, k)
  }

  lemma ListedSoFar(primes: seq<int>, t: nat, divisors: seq<int>, lastPrime: int, factor: int, sliceLen: nat,
                    rest: int, k: nat)
    requires t <= |primes| && MultipliedOut(primes, t, divisors, lastPrime, factor, sliceLen, rest, k)
    ensures ListsDivisors(divisors, Product(primes[..t]))
  {
    if t == 0 {
      OneListsItself();
    }
  }

  lemma ProductStep(primes: seq<int>, t: nat)
    requires t < |primes|
    ensures Product(primes[..t + 1]) == Product(primes[..t]) * primes[t]
  {
    assert primes[..t + 1][..t] == primes[..t];
  }

  /** A new prime takes everything so far as its slice, the same prime again keeps it. */
  function NextSlice(divisors: seq<int>, lastPrime: int, prime: int, sliceLen: nat): nat {
    if lastPrime != prime then |divisors| else sliceLen
  }

  function NextFactor(lastPrime: int, prime: int, factor: int): int {
    if lastPrime != prime then prime else factor * prime
  }

  /** One turn of the loop. */
  lemma NextMultiplied(primes: seq<int>, t: nat, divisors: seq<int>, lastPrime: int, factor: int, sliceLen: nat,
                       rest: int, k: nat)
    returns (nextRest: int, nextK: nat)
    requires AllPrime(primes) && Ascending(primes) && t < |primes|
    requires MultipliedOut(primes, t, divisors, lastPrime, factor, sliceLen, rest, k)
    ensures var slice := NextSlice(divisors, lastPrime, primes[t], sliceLen);
            var scale := NextFactor(lastPrime, primes[t], factor);
            && slice <= |divisors|
            && MultipliedOut(primes, t + 1, divisors + Scaled(divisors[..slice], scale), primes[t], scale, slice,
                             nextRest, nextK)
  {
    var prime, product := primes[t], Product(primes[..t]);
    ProductStep(primes, t);
    if lastPrime != prime {
      ListedSoFar(primes, t, divisors, lastPrime, factor, sliceLen, rest, k);
      FreshPrime(primes, t);
      NewPrime(divisors, product, prime);
      SamePrime(divisors, product, prime, 1, |divisors|, product, 0);
      nextRest, nextK := product, 1;
    } else {
      assert t > 0 by { assert IsPrime(prime); }
      SamePrime(divisors, product, prime, factor, sliceLen, rest, k);
      nextRest, nextK := rest, k + 1;
    }
  }

  /** All products of prime powers, built up prime by prime. */
  method MultiplyOut(primes: seq<int>) returns (divisors: seq<int>)
    requires AllPrime(primes) && Ascending(primes)
    ensures ListsDivisors(divisors, Product(primes))
  {
    divisors := [1];
    var lastPrime, factor := 0, 0;
    var sliceLen: nat := 0;
    ghost var rest, k := 1, 0;
    for t := 0 to |primes|
      invariant MultipliedOut(primes, t, divisors, lastPrime, factor, sliceLen, rest, k)
    {
      var prime := primes[t];
      rest, k := NextMultiplied(primes, t, divisors, lastPrime, factor, sliceLen, rest, k);
      if lastPrime != prime {
        sliceLen := |divisors|;
        factor := prime;
      } else {
        factor := factor * prime;
      }
      divisors := Multiply(divisors, sliceLen, factor);
      lastPrime := prime;
    }
    ListedSoFar(primes, |primes|, divisors, lastPrime, factor, sliceLen, rest, k);
    assert primes[..|primes|] == primes;
  }

  // ----- sorting -----

  function InsertSorted(s: seq<int>, x: int): seq<int> {
    if s == [] || s[|s| - 1] <= x then s + [x] else InsertSorted(s[..|s| - 1], x) + [s[|s| - 1]]
  }

  lemma {:induction false} InsertSortedBounded(s: seq<int>, x: int, bound: int)
    requires x <= bound && forall i | 0 <= i < |s| :: s[i] <= bound
    ensures forall i | 0 <= i < |InsertSorted(s, x)| :: InsertSorted(s, x)[i] <= bound
  {
    if s != [] && s[|s| - 1] > x {
      InsertSortedBounded(s[..|s| - 1], x, bound);
    }
  }

  lemma {:induction false} InsertSortedAscends(s: seq<int>, x: int)
    requires Ascending(s)
    ensures Ascending(InsertSorted(s, x))
  {
    if s != [] && s[|s| - 1] > x {
      InsertSortedAscends(s[..|s| - 1], x);
      InsertSortedBounded(s[..|s| - 1], x, s[|s| - 1]);
    }
  }

  lemma {:induction false} InsertSortedAdds(s: seq<int>, x: int)
    ensures multiset(InsertSorted(s, x)) == multiset(s) + multiset{x}
  {
    if s != [] && s[|s| - 1] > x {
      InsertSortedAdds(s[..|s| - 1], x);
      assert s == s[..|s| - 1] + [s[|s| - 1]];
    }
  }

  /** Stands for the library's sort: the same elements in ascending order. */
  method SortUnstable(list: seq<int>) returns (sorted: seq<int>)
    ensures Ascending(sorted) && multiset(sorted) == multiset(list)
  {
    sorted := [];
    for i := 0 to |list|
      invariant Ascending(sorted) && multiset(sorted) == multiset(list[..i])
    {
      InsertSortedAscends(sorted, list[i]);
      InsertSortedAdds(sorted, list[i]);
      sorted := InsertSorted(sorted, list[i]);
      assert list[..i + 1] == list[..i] + [list[i]];
    }
    assert list[..|list|] == list;
  }

  /** The divisors in ascending order: exactly the positive divisors, none twice. */
  ghost predicate IsDivisorTable(table: seq<int>, n: int) {
    && StrictlyAscending(table)
    && forall d :: d in table <==> d > 0 && Divides(d, n)
  }

  lemma SortedIsTable(list: seq<int>, sorted: seq<int>, n: int)
    requires ListsDivisors(list, n) && Ascending(sorted) && multiset(sorted) == multiset(list)
    ensures IsDivisorTable(sorted, n)
  {
    forall i, j | 0 <= i < j < |sorted|
      ensures sorted[i] < sorted[j]
    {
      CountedOnce(list, sorted[i]);
      if sorted[i] == sorted[j] {
        CountedTwice(sorted, i, j);
      }
    }
    forall d
      ensures d in sorted <==> d > 0 && Divides(d, n)
    {
      assert d in sorted <==> d in multiset(sorted);
      assert d in list <==> d in multiset(list);
    }
  }

  method GetDivisors(n: int) returns (divisors: seq<int>)
    ensures n < 1 ==> divisors == []
    ensures n >= 1 ==> IsDivisorTable(divisors, n)
  {
    if n == 1 {
      divisors := [1];
      OneListsItself();
      assert IsDivisorTable(divisors, 1);
    } else if n > 1 {
      var primes := GetPrimeDivisors(n);
      var list := MultiplyOut(primes);
      divisors := SortUnstable(list);
      SortedIsTable(list, divisors, n);
    } else {
      divisors := [];
    }
  }

  /** The largest divisor of `n` within the bound; below one there is none, and the answer is one. */
  method GetSmallerSplit(n: int, closeTo: int) returns (split: int)
    ensures n < 1 ==> split == n
    ensures n >= 1 && closeTo >= 1 ==>
              && split > 0 && Divides(split, n) && split <= closeTo
              && forall d | d > 0 && Divides(d, n) && d <= closeTo :: d <= split
    ensures n >= 1 && closeTo < 1 ==> split == 1
  {
    var all := GetDivisors(n);
    if n >= 1 {
      TableBounds(all, n);
    }
    for ix := 0 to |all|
      invariant forall k | 0 <= k < ix :: all[k] < closeTo
    {
      var val := all[ix];
      if val == closeTo {
        return val;
      }
      if val > closeTo {
        if ix == 0 {
          return val;
        }
        LargestBelow(all, n, ix, closeTo);
        return all[ix - 1];
      }
    }
    return n;
  }

  lemma TableBounds(table: seq<int>, n: int)
    requires n >= 1 && IsDivisorTable(table, n)
    ensures table != [] && table[0] == 1 && table[|table| - 1] == n
  {
    MultipleIsDivisible(1, n);
    MultipleIsDivisible(n, 1);
    assert 1 in table && n in table;
    var i :| 0 <= i < |table| && table[i] == n;
    if i < |table| - 1 {
      var d := table[|table| - 1];
      assert d in table;
      PositiveQuotient(d, n);
    }
    assert table[0] in table;
  }

  lemma SmallerStandsBefore(table: seq<int>, k: nat, ix: nat)
    requires StrictlyAscending(table) && k < |table| && 0 < ix < |table| && table[k] < table[ix]
    ensures k < ix && table[k] <= table[ix - 1]
  {
  }

  lemma LargestBelow(table: seq<int>, n: int, ix: nat, bound: int)
    requires n >= 1 && IsDivisorTable(table, n) && 0 < ix < |table|
    requires table[ix - 1] < bound < table[ix]
    ensures table[ix - 1] > 0 && Divides(table[ix - 1], n)
    ensures forall d | d > 0 && Divides(d, n) && d <= bound :: d <= table[ix - 1]
  {
    assert table[ix - 1] in table;
    forall d | d > 0 && Divides(d, n) && d <= bound
      ensures d <= table[ix - 1]
    {
      assert d in table;
      var k :| 0 <= k < |table| && table[k] == d;
      SmallerStandsBefore(table, k, ix);
    }
  }
}
