/** Closed intervals, and the tree that stores pairwise disjoint ones under their start. */
module Intervals {
  import opened Wrappers

  datatype ClosedInterval = ClosedInterval(start: int, end: int) {
    predicate Contains(point: int) {
      start <= point && point <= end
    }

    predicate Overlaps(other: ClosedInterval) {
      start <= other.end && other.start <= end
    }
  }

  /** Overlapping is having a point in common. */
  lemma OverlapIffSharedPoint(a: ClosedInterval, b: ClosedInterval)
    requires a.start <= a.end && b.start <= b.end
    ensures a.Overlaps(b) <==> exists point :: a.Contains(point) && b.Contains(point)
  {
    if a.Overlaps(b) {
      var point := if a.start < b.start then b.start else a.start;
      assert a.Contains(point) && b.Contains(point);
    }
  }

  // ----- the ordered map underneath -----

  datatype Entry<V> = Entry(interval: ClosedInterval, value: V)

  /** Entries in increasing order of their key, the start of the interval. */
  predicate Sorted<V>(tree: seq<Entry<V>>) {
    forall i, j | 0 <= i < j < |tree| :: tree[i].interval.start < tree[j].interval.start
  }

  /** How many keys are at most `key`: the last of these is the nearest from below. */
  function CountUpTo<V>(tree: seq<Entry<V>>, key: int): (n: nat)
    ensures n <= |tree|
    ensures Sorted(tree) ==> forall i | 0 <= i < n :: tree[i].interval.start <= key
    ensures Sorted(tree) ==> forall i | n <= i < |tree| :: tree[i].interval.start > key
  {
    if tree == [] then 0
    else if tree[|tree| - 1].interval.start <= key then |tree|
    else
      assert Sorted(tree) ==> Sorted(tree[..|tree| - 1]);
      assert forall i | 0 <= i < |tree| - 1 :: tree[..|tree| - 1][i] == tree[i];
      CountUpTo(tree[..|tree| - 1], key)
  }

  /** Inserts under the interval's start, replacing an entry with the same key. */
  function Put<V>(tree: seq<Entry<V>>, entry: Entry<V>): seq<Entry<V>> {
    var n := CountUpTo(tree, entry.interval.start);
    var kept := if n > 0 && tree[n - 1].interval.start == entry.interval.start then n - 1 else n;
    tree[..kept] + [entry] + tree[n..]
  }

  /** Removes whatever is stored under the interval's start, and answers only for an exact match. */
  function Without<V>(tree: seq<Entry<V>>, interval: ClosedInterval): (seq<Entry<V>>, Option<V>) {
    var n := CountUpTo(tree, interval.start);
    if n == 0 || tree[n - 1].interval.start != interval.start then (tree, None)
    else (tree[..n - 1] + tree[n..], if tree[n - 1].interval == interval then Some(tree[n - 1].value) else None)
  }

  // ----- the tree -----

  predicate WellFormed<V>(tree: seq<Entry<V>>) {
    forall i | 0 <= i < |tree| :: tree[i].interval.start <= tree[i].interval.end
  }

  predicate Disjoint<V>(tree: seq<Entry<V>>) {
    forall i, j | 0 <= i < j < |tree| :: !tree[i].interval.Overlaps(tree[j].interval)
  }

  /** The new interval overlaps one that is stored. */
  predicate Collides<V>(tree: seq<Entry<V>>, interval: ClosedInterval) {
    exists i :: 0 <= i < |tree| && tree[i].interval.Overlaps(interval)
  }

  class IntervalTree<V> {
    var tree: seq<Entry<V>>

    /** Keys are ordered, intervals are not empty, and no two of them share a point. */
    ghost predicate Valid()
      reads this
    {
      Sorted(tree) && WellFormed(tree) && Disjoint(tree)
    }

    constructor ()
      ensures Valid() && tree == []
    {
      tree := [];
    }

    method Clear()
      modifies this
      ensures Valid() && tree == []
    {
      tree := [];
    }

    /** Looking at two neighbours decides whether any stored interval at all is in the way. */
    method Insert(interval: ClosedInterval, value: V) returns (r: Result<(), string>)
      requires Valid() && interval.start <= interval.end
      modifies this
      ensures Valid()
      ensures r.Success? <==> !Collides(old(tree), interval)
      ensures r.Failure? ==> tree == old(tree)
      ensures r.Success? ==> multiset(tree) == multiset(old(tree)) + multiset{Entry(interval, value)}
    {
      var below := CountUpTo(tree, interval.start);
      if below > 0 {
        var existing := tree[below - 1];
        if existing.interval.end >= interval.start {
          assert existing.interval.Overlaps(interval);
          return Failure("Overlapping interval");
        }
      }
      var atLeast := CountUpTo(tree, interval.start - 1);
      if atLeast < |tree| {
        var existing := tree[atLeast];
        if existing.interval.start <= interval.end {
          assert existing.interval.Overlaps(interval);
          return Failure("Overlapping interval");
        }
      }
      NeighboursDecide(tree, interval, below);
      PutKeepsValid(tree, Entry(interval, value), below);
      tree := Put(tree, Entry(interval, value));
      return Success(());
    }

    method Remove(interval: ClosedInterval) returns (r: Option<V>)
      requires Valid()
      modifies this
      ensures Valid()
      ensures (tree, r) == Without(old(tree), interval)
    {
      var n := CountUpTo(tree, interval.start);
      if n == 0 || tree[n - 1].interval.start != interval.start {
        return None;
      }
      var stored := tree[n - 1];
      DroppingKeepsValid(tree, n - 1);
      tree := tree[..n - 1] + tree[n..];
      return if stored.interval == interval then Some(stored.value) else None;
    }

    method Get(point: int) returns (r: Option<V>)
      requires Valid()
      ensures r.Some? <==> exists i :: 0 <= i < |tree| && tree[i].interval.Contains(point)
      ensures forall i | 0 <= i < |tree| && tree[i].interval.Contains(point) :: r == Some(tree[i].value)
    {
      var below := CountUpTo(tree, point);
      OnlyNearestCanContain(tree, point, below);
      if below == 0 {
        return None;
      }
      var entry := tree[below - 1];
      return if entry.interval.Contains(point) then Some(entry.value) else None;
    }
  }

  /** If neither neighbour is in the way, nothing is. */
  lemma NeighboursDecide<V>(tree: seq<Entry<V>>, interval: ClosedInterval, below: nat)
    requires Sorted(tree) && WellFormed(tree) && Disjoint(tree) && interval.start <= interval.end
    requires below == CountUpTo(tree, interval.start)
    requires below > 0 ==> tree[below - 1].interval.end < interval.start
    requires CountUpTo(tree, interval.start - 1) < |tree| ==>
               tree[CountUpTo(tree, interval.start - 1)].interval.start > interval.end
    ensures !Collides(tree, interval)
    ensures below > 0 ==> tree[below - 1].interval.start < interval.start
  {
    forall i | 0 <= i < below
      ensures !tree[i].interval.Overlaps(interval)
    {
      BelowIsClear(tree, interval, below, i);
    }
    var atLeast := CountUpTo(tree, interval.start - 1);
    forall i | below <= i < |tree|
      ensures !tree[i].interval.Overlaps(interval)
    {
      assert tree[i].interval.start > interval.start;
      assert i >= atLeast;
      assert tree[atLeast].interval.start <= tree[i].interval.start;
    }
  }

  lemma BelowIsClear<V>(tree: seq<Entry<V>>, interval: ClosedInterval, below: nat, i: nat)
    requires WellFormed(tree) && Disjoint(tree) && Sorted(tree) && i < below <= |tree|
    requires tree[below - 1].interval.end < interval.start
    ensures !tree[i].interval.Overlaps(interval)
  {
    if i < below - 1 {
      assert !tree[i].interval.Overlaps(tree[below - 1].interval);
      assert tree[i].interval.start < tree[below - 1].interval.start;
    }
  }

  lemma PutKeepsValid<V>(tree: seq<Entry<V>>, entry: Entry<V>, below: nat)
    requires Sorted(tree) && WellFormed(tree) && Disjoint(tree)
    requires entry.interval.start <= entry.interval.end && !Collides(tree, entry.interval)
    requires below == CountUpTo(tree, entry.interval.start)
    requires below > 0 ==> tree[below - 1].interval.start < entry.interval.start
    ensures Put(tree, entry) == tree[..below] + [entry] + tree[below..]
    ensures Sorted(Put(tree, entry)) && WellFormed(Put(tree, entry)) && Disjoint(Put(tree, entry))
    ensures multiset(Put(tree, entry)) == multiset(tree) + multiset{entry}
  {
    PutInserts(tree, entry, below);
    KeysAround(tree, entry.interval.start, below);
    SortedAfterPut(tree, entry, below);
    DisjointAfterPut(tree, entry, below);
    InsertionAddsOne(tree, entry, below);
  }

  lemma PutInserts<V>(tree: seq<Entry<V>>, entry: Entry<V>, below: nat)
    requires below == CountUpTo(tree, entry.interval.start)
    requires below > 0 ==> tree[below - 1].interval.start < entry.interval.start
    ensures Put(tree, entry) == tree[..below] + [entry] + tree[below..]
  {
  }

  lemma KeysAround<V>(tree: seq<Entry<V>>, key: int, below: nat)
    requires Sorted(tree) && below == CountUpTo(tree, key)
    requires below > 0 ==> tree[below - 1].interval.start < key
    ensures forall i | 0 <= i < below :: tree[i].interval.start < key
    ensures forall i | below <= i < |tree| :: tree[i].interval.start > key
  {
    forall i | 0 <= i < below
      ensures tree[i].interval.start < key
    {
      assert i < below - 1 ==> tree[i].interval.start < tree[below - 1].interval.start;
    }
  }

  lemma InsertionAddsOne<T>(s: seq<T>, x: T, n: nat)
    requires n <= |s|
    ensures multiset(s[..n] + [x] + s[n..]) == multiset(s) + multiset{x}
  {
    assert s == s[..n] + s[n..];
  }

  lemma SortedAfterPut<V>(tree: seq<Entry<V>>, entry: Entry<V>, n: nat)
    requires n <= |tree| && Sorted(tree)
    requires forall i | 0 <= i < n :: tree[i].interval.start < entry.interval.start
    requires forall i | n <= i < |tree| :: tree[i].interval.start > entry.interval.start
    ensures Sorted(tree[..n] + [entry] + tree[n..])
  {
    var after := tree[..n] + [entry] + tree[n..];
    forall i, j | 0 <= i < j < |after|
      ensures after[i].interval.start < after[j].interval.start
    {
      assert after[i] == if i < n then tree[i] else if i == n then entry else tree[i - 1];
      assert after[j] == if j < n then tree[j] else if j == n then entry else tree[j - 1];
    }
  }

  lemma DisjointAfterPut<V>(tree: seq<Entry<V>>, entry: Entry<V>, n: nat)
    requires n <= |tree| && Disjoint(tree) && WellFormed(tree)
    requires entry.interval.start <= entry.interval.end && !Collides(tree, entry.interval)
    ensures Disjoint(tree[..n] + [entry] + tree[n..])
    ensures WellFormed(tree[..n] + [entry] + tree[n..])
  {
    var after := tree[..n] + [entry] + tree[n..];
    forall i, j | 0 <= i < j < |after|
      ensures !after[i].interval.Overlaps(after[j].interval)
    {
      assert after[i] == if i < n then tree[i] else if i == n then entry else tree[i - 1];
      assert after[j] == if j < n then tree[j] else if j == n then entry else tree[j - 1];
      if i == n {
        assert !tree[j - 1].interval.Overlaps(entry.interval);
      } else if j == n {
        assert !tree[i].interval.Overlaps(entry.interval);
      }
    }
  }

  lemma OnlyNearestCanContain<V>(tree: seq<Entry<V>>, point: int, below: nat)
    requires Sorted(tree) && WellFormed(tree) && Disjoint(tree)
    requires below == CountUpTo(tree, point)
    ensures forall i | 0 <= i < |tree| && tree[i].interval.Contains(point) :: i == below - 1
  {
    forall i | 0 <= i < below - 1
      ensures !tree[i].interval.Contains(point)
    {
      assert !tree[i].interval.Overlaps(tree[below - 1].interval);
      assert tree[i].interval.start < tree[below - 1].interval.start <= point;
    }
  }

  lemma DroppingKeepsValid<V>(tree: seq<Entry<V>>, n: nat)
    requires n < |tree| && Sorted(tree) && WellFormed(tree) && Disjoint(tree)
    ensures var after := tree[..n] + tree[n + 1..]; Sorted(after) && WellFormed(after) && Disjoint(after)
  {
    var after := tree[..n] + tree[n + 1..];
    assert forall i | 0 <= i < |after| :: after[i] == if i < n then tree[i] else tree[i + 1];
  }

  /** Some stored interval starts where this one does but ends elsewhere. */
  predicate HasSameStartOtherEnd<V>(tree: seq<Entry<V>>, interval: ClosedInterval) {
    exists i :: 0 <= i < |tree|
      && tree[i].interval.start == interval.start && tree[i].interval.end != interval.end
  }

  /**
  Removal answers nothing and yet deletes an entry exactly when an interval with the same start and
  another end is stored; otherwise it deletes precisely what it answers with.
  */
  lemma RemovalLosesEntryIff<V>(tree: seq<Entry<V>>, interval: ClosedInterval)
    requires Sorted(tree)
    ensures var (after, answer) := Without(tree, interval);
            (answer.None? && |after| < |tree|) <==> HasSameStartOtherEnd(tree, interval)
    ensures var (after, answer) := Without(tree, interval);
            !HasSameStartOtherEnd(tree, interval) ==>
              multiset(tree) == multiset(after) + if answer.Some? then multiset{Entry(interval, answer.value)}
                                                  else multiset{}
  {
    var n := CountUpTo(tree, interval.start);
    if n > 0 && tree[n - 1].interval.start == interval.start {
      assert tree == tree[..n - 1] + [tree[n - 1]] + tree[n..];
      assert forall i | 0 <= i < |tree| && tree[i].interval.start == interval.start :: i == n - 1;
      assert HasSameStartOtherEnd(tree, interval) <==> tree[n - 1].interval.end != interval.end;
    } else {
      NoSuchKey(tree, interval.start, n);
    }
  }

  lemma NoSuchKey<V>(tree: seq<Entry<V>>, key: int, n: nat)
    requires Sorted(tree) && n == CountUpTo(tree, key)
    requires n > 0 ==> tree[n - 1].interval.start != key
    ensures forall i | 0 <= i < |tree| :: tree[i].interval.start != key
  {
    forall i | 0 <= i < |tree|
      ensures tree[i].interval.start != key
    {
      if i < n - 1 {
        assert tree[i].interval.start < tree[n - 1].interval.start;
      }
    }
  }

  /** For instance, asking to remove `[0, 5]` where `[0, 9]` is stored. */
  lemma RemovalCanLoseEntry(value: int)
    ensures Without([Entry(ClosedInterval(0, 9), value)], ClosedInterval(0, 5)) == ([], None)
  {
    var tree := [Entry(ClosedInterval(0, 9), value)];
    assert CountUpTo(tree, 0) == 1;
    assert tree[..0] + tree[1..] == [];
  }
}
