/** How often elements stand in a sequence, in which order, and how many a set can have. */
module Sequences {

  predicate Distinct<T(==)>(s: seq<T>) {
    forall i, j | 0 <= i < j < |s| :: s[i] != s[j]
  }

  lemma {:induction false} CountedOnce<T>(s: seq<T>, x: T)
    requires Distinct(s)
    ensures multiset(s)[x] <= 1
  {
    if s != [] {
      var n := |s| - 1;
      CountedOnce(s[..n], x);
      assert s == s[..n] + [s[n]];
    }
  }

  lemma CountedTwice<T>(s: seq<T>, i: nat, j: nat)
    requires i < j < |s| && s[i] == s[j]
    ensures multiset(s)[s[i]] >= 2
  {
    assert s == s[..i] + [s[i]] + s[i + 1..j] + [s[j]] + s[j + 1..];
  }

  /** A part of distinct elements is distinct. */
  lemma PartIsDistinct<T>(part: seq<T>, rest: seq<T>, all: seq<T>)
    requires Distinct(all)
    requires multiset(part) + multiset(rest) == multiset(all)
    ensures Distinct(part)
  {
    forall i, j | 0 <= i < j < |part|
      ensures part[i] != part[j]
    {
      if part[i] == part[j] {
        CountedTwice(part, i, j);
        CountedOnce(all, part[i]);
      }
    }
  }

  lemma {:induction false} BoundedSetSize(s: set<nat>, n: nat)
    requires forall x | x in s :: x < n
    ensures |s| <= n
  {
    if n == 0 {
      assert s == {};
    } else {
      BoundedSetSize(s - {n - 1}, n - 1);
      assert s <= (s - {n - 1}) + {n - 1};
      if n - 1 in s {
        assert s == (s - {n - 1}) + {n - 1};
      } else {
        assert s == s - {n - 1};
      }
    }
  }

  // ----- subsequences -----

  /** The elements of `part` stand in `all`, in the same order. */
  predicate Subsequence<T(==)>(part: seq<T>, all: seq<T>)
    decreases |all|
  {
    if part == [] then true
    else if all == [] then false
    else
      var m, n := |part| - 1, |all| - 1;
      if part[m] == all[n] then Subsequence(part[..m], all[..n]) else Subsequence(part, all[..n])
  }

  lemma {:induction false} SubsequenceReflexive<T>(s: seq<T>)
    ensures Subsequence(s, s)
  {
    if s != [] {
      SubsequenceReflexive(s[..|s| - 1]);
    }
  }

  /** One more element, in both or in the whole only, keeps the order. */
  lemma KeepsOrder<T>(part: seq<T>, all: seq<T>, x: T)
    requires Subsequence(part, all)
    ensures Subsequence(part, all + [x]) && Subsequence(part + [x], all + [x])
  {
    assert (all + [x])[..|all|] == all && (part + [x])[..|part|] == part;
    if part != [] && part[|part| - 1] == x {
      SubsequenceWithoutLast(part, all);
    }
  }

  lemma {:induction false} SubsequenceWithoutLast<T>(part: seq<T>, all: seq<T>)
    requires part != [] && Subsequence(part, all)
    ensures Subsequence(part[..|part| - 1], all)
    decreases |all|
  {
    var m, n := |part| - 1, |all| - 1;
    if part[m] != all[n] {
      SubsequenceWithoutLast(part, all[..n]);
    }
    if m > 0 && part[m - 1] == all[n] {
      SubsequenceWithoutLast(part[..m], all[..n]);
    }
  }

  lemma {:induction false} SubsequenceTransitive<T>(a: seq<T>, b: seq<T>, c: seq<T>)
    requires Subsequence(a, b) && Subsequence(b, c)
    ensures Subsequence(a, c)
    decreases |c|
  {
    if a != [] {
      var k, m, n := |a| - 1, |b| - 1, |c| - 1;
      if b[m] != c[n] {
        SubsequenceTransitive(a, b, c[..n]);
        if a[k] == c[n] {
          SubsequenceWithoutLast(a, c[..n]);
        }
      } else if a[k] == b[m] {
        SubsequenceTransitive(a[..k], b[..m], c[..n]);
      } else {
        SubsequenceTransitive(a, b[..m], c[..n]);
      }
    }
  }

  lemma {:induction false} SubsequenceSize<T>(part: seq<T>, all: seq<T>)
    requires Subsequence(part, all)
    ensures |part| <= |all| && (|part| == |all| ==> part == all)
    decreases |all|
  {
    if part != [] {
      var m, n := |part| - 1, |all| - 1;
      if part[m] == all[n] {
        SubsequenceSize(part[..m], all[..n]);
      } else {
        SubsequenceSize(part, all[..n]);
      }
    }
  }

  lemma {:induction false} SubsequenceMembers<T>(part: seq<T>, all: seq<T>, x: T)
    requires Subsequence(part, all) && x in part
    ensures x in all
    decreases |all|
  {
    var m, n := |part| - 1, |all| - 1;
    if part[m] != all[n] {
      SubsequenceMembers(part, all[..n], x);
    } else if x != part[m] {
      SubsequenceMembers(part[..m], all[..n], x);
    }
  }

  lemma {:induction false} SuffixIsSubsequence<T>(front: seq<T>, back: seq<T>)
    ensures Subsequence(back, front + back)
  {
    if back != [] {
      var n := |back| - 1;
      SuffixIsSubsequence(front, back[..n]);
      assert (front + back)[..|front| + n] == front + back[..n];
    }
  }

  predicate Disjoint<T(==)>(a: seq<T>, b: seq<T>) {
    forall i | 0 <= i < |a| :: a[i] !in b
  }

  /** Whatever in `back` stands in `all` has only elements of `back` behind it. */
  predicate StandLast<T(==)>(back: seq<T>, all: seq<T>) {
    forall i, j | 0 <= i < j < |all| && all[i] in back :: all[j] in back
  }

  /** Of distinct elements made up of two parts, none is in both. */
  lemma InOnePart<T>(front: seq<T>, back: seq<T>, all: seq<T>, x: T)
    requires Distinct(all)
    requires multiset(front) + multiset(back) == multiset(all)
    ensures !(x in front && x in back)
  {
    CountedOnce(all, x);
    assert (multiset(front) + multiset(back))[x] == multiset(front)[x] + multiset(back)[x];
  }

  /** Where the last part is in order and stands last, its last element is the last of all. */
  lemma LastOfBack<T>(back: seq<T>, all: seq<T>)
    requires Distinct(all)
    requires back != [] && Subsequence(back, all) && StandLast(back, all)
    ensures all != [] && back[|back| - 1] == all[|all| - 1]
  {
    var last, n := back[|back| - 1], |all| - 1;
    SubsequenceMembers(back, all, last);
    var i :| 0 <= i <= n && all[i] == last;
    if i < n {
      assert all[n] in back;
      SubsequenceMembers(back, all[..n], all[n]);
    }
  }

  lemma BackStandsLast<T>(back: seq<T>, all: seq<T>)
    requires Distinct(all)
    requires back != [] && all != [] && StandLast(back, all) && back[|back| - 1] == all[|all| - 1]
    ensures StandLast(back[..|back| - 1], all[..|all| - 1])
  {
    var m, n := |back| - 1, |all| - 1;
    assert back == back[..m] + [back[m]];
    forall i, j | 0 <= i < j < n && all[i] in back[..m]
      ensures all[j] in back[..m]
    {
      assert all[i] in back;
      assert all[j] in back && all[j] != back[m];
    }
    assert forall i | 0 <= i < n :: all[..n][i] == all[i];
  }

  /** Two parts without common elements, each in order, of which the second stands last. */
  predicate Split<T(==)>(front: seq<T>, back: seq<T>, all: seq<T>) {
    && Distinct(all) && Disjoint(front, back) && |front| + |back| == |all|
    && Subsequence(front, all) && Subsequence(back, all) && StandLast(back, all)
  }

  lemma SplitWithoutLast<T>(front: seq<T>, back: seq<T>, all: seq<T>)
    requires Split(front, back, all) && back != []
    ensures all != [] && back[|back| - 1] == all[|all| - 1]
    ensures Split(front, back[..|back| - 1], all[..|all| - 1])
  {
    LastOfBack(back, all);
    BackStandsLast(back, all);
    assert back[|back| - 1] in back;
  }

  lemma SameLast<T>(front: seq<T>, back: seq<T>, all: seq<T>)
    requires all != [] && back != [] && back[|back| - 1] == all[|all| - 1]
    requires front + back[..|back| - 1] == all[..|all| - 1]
    ensures front + back == all
  {
    assert all == all[..|all| - 1] + [all[|all| - 1]];
  }

  /** Such parts follow each other. */
  lemma {:induction false} SplitPartsFollow<T>(front: seq<T>, back: seq<T>, all: seq<T>)
    requires Split(front, back, all)
    ensures front + back == all
    decreases |all|
  {
    if back == [] {
      SubsequenceSize(front, all);
    } else {
      SplitWithoutLast(front, back, all);
      SplitPartsFollow(front, back[..|back| - 1], all[..|all| - 1]);
      SameLast(front, back, all);
    }
  }

  lemma LastsFollow<T>(front: seq<T>, back: seq<T>, all: seq<T>)
    requires Distinct(all)
    requires front + back == all
    ensures StandLast(back, all) && Subsequence(back, all)
  {
    SuffixIsSubsequence(front, back);
    forall i, j | 0 <= i < j < |all| && all[i] in back
      ensures all[j] in back
    {
      var k :| 0 <= k < |back| && back[k] == all[i];
      assert all[|front| + k] == all[i];
      assert all[j] == back[j - |front|];
    }
  }

  /**
  Of distinct elements made up of two parts, the first of them in order, the parts follow each other
  exactly if the second stands last and is in order.
  */
  lemma SplitIff<T>(front: seq<T>, back: seq<T>, all: seq<T>)
    requires Distinct(all)
    requires multiset(front) + multiset(back) == multiset(all) && Subsequence(front, all)
    ensures front + back == all <==> StandLast(back, all) && Subsequence(back, all)
  {
    if front + back == all {
      LastsFollow(front, back, all);
    } else if StandLast(back, all) && Subsequence(back, all) {
      assert |multiset(front)| + |multiset(back)| == |multiset(all)|;
      assert Disjoint(front, back) by {
        forall i | 0 <= i < |front| ensures front[i] !in back {
          InOnePart(front, back, all, front[i]);
        }
      }
      SplitPartsFollow(front, back, all);
    }
  }
}
