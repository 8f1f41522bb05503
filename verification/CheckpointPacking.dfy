/** Packing a checkpoint's tensors, in the order of their names, into parts of bounded size. */
module CheckpointPacking {
  import opened Wrappers

  /** A named tensor and its size: the number of its elements times the size of one. */
  datatype Tensor = Tensor(name: string, bytes: nat)

  datatype FilePart = FilePart(tensors: seq<Tensor>, size: nat)

  datatype SaveError = NoTensors | TensorTooBig(name: string, size: nat)

  // ----- ordering by name -----

  predicate NameAtMost(a: string, b: string) {
    a == [] || (b != [] && (a[0] < b[0] || (a[0] == b[0] && NameAtMost(a[1..], b[1..]))))
  }

  lemma {:induction false} NamesTotal(a: string, b: string)
    ensures NameAtMost(a, b) || NameAtMost(b, a)
  {
    if a != [] && b != [] && a[0] == b[0] {
      NamesTotal(a[1..], b[1..]);
    }
  }

  lemma {:induction false} NamesTransitive(a: string, b: string, c: string)
    requires NameAtMost(a, b) && NameAtMost(b, c)
    ensures NameAtMost(a, c)
  {
    if a != [] && a[0] == b[0] && b[0] == c[0] {
      NamesTransitive(a[1..], b[1..], c[1..]);
    }
  }

  /** Names are compared as words in a dictionary: where they first differ decides, and a prefix comes first. */
  lemma {:induction false} NamesByFirstDifference(a: string, b: string, k: nat)
    requires k <= |a| && k <= |b| && a[..k] == b[..k]
    requires k == |a| || k == |b| || a[k] != b[k]
    ensures NameAtMost(a, b) <==> k == |a| || (k < |b| && a[k] < b[k])
  {
    if k > 0 {
      assert a[..k][0] == b[..k][0];
      assert a[1..][..k - 1] == a[..k][1..] == b[..k][1..] == b[1..][..k - 1];
      NamesByFirstDifference(a[1..], b[1..], k - 1);
    }
  }

  predicate SortedByName(s: seq<Tensor>) {
    forall i, j | 0 <= i < j < |s| :: NameAtMost(s[i].name, s[j].name)
  }

  /** Stable insertion from the right. */
  function InsertByName(s: seq<Tensor>, t: Tensor): seq<Tensor> {
    if s == [] || NameAtMost(s[|s| - 1].name, t.name) then s + [t]
    else InsertByName(s[..|s| - 1], t) + [s[|s| - 1]]
  }

  function SortByName(s: seq<Tensor>): seq<Tensor> {
    if s == [] then [] else InsertByName(SortByName(s[..|s| - 1]), s[|s| - 1])
  }

  lemma {:induction false} InsertKeepsUpperBound(s: seq<Tensor>, t: Tensor, name: string)
    requires NameAtMost(t.name, name) && forall i | 0 <= i < |s| :: NameAtMost(s[i].name, name)
    ensures forall i | 0 <= i < |InsertByName(s, t)| :: NameAtMost(InsertByName(s, t)[i].name, name)
  {
    if s != [] && !NameAtMost(s[|s| - 1].name, t.name) {
      InsertKeepsUpperBound(s[..|s| - 1], t, name);
    }
  }

  lemma {:induction false} InsertKeepsSorted(s: seq<Tensor>, t: Tensor)
    requires SortedByName(s)
    ensures SortedByName(InsertByName(s, t))
  {
    if s == [] {
    } else if NameAtMost(s[|s| - 1].name, t.name) {
      forall i | 0 <= i < |s|
        ensures NameAtMost(s[i].name, t.name)
      {
        if i < |s| - 1 {
          NamesTransitive(s[i].name, s[|s| - 1].name, t.name);
        }
      }
    } else {
      NamesTotal(s[|s| - 1].name, t.name);
      InsertKeepsSorted(s[..|s| - 1], t);
      InsertKeepsUpperBound(s[..|s| - 1], t, s[|s| - 1].name);
    }
  }

  lemma {:induction false} InsertAddsTensor(s: seq<Tensor>, t: Tensor)
    ensures multiset(InsertByName(s, t)) == multiset(s) + multiset{t}
  {
    if s != [] && !NameAtMost(s[|s| - 1].name, t.name) {
      InsertAddsTensor(s[..|s| - 1], t);
      assert s == s[..|s| - 1] + [s[|s| - 1]];
    }
  }

  /** The same tensors, ordered by name. */
  lemma {:induction false} SortByNameMeaning(s: seq<Tensor>)
    ensures SortedByName(SortByName(s)) && multiset(SortByName(s)) == multiset(s)
  {
    if s != [] {
      var n := |s| - 1;
      SortByNameMeaning(s[..n]);
      InsertKeepsSorted(SortByName(s[..n]), s[n]);
      InsertAddsTensor(SortByName(s[..n]), s[n]);
      assert multiset(s) == multiset(s[..n]) + multiset{s[n]} by {
        assert s == s[..n] + [s[n]];
      }
    }
  }

  // ----- packings -----

  function TotalBytes(s: seq<Tensor>): nat {
    if s == [] then 0 else TotalBytes(s[..|s| - 1]) + s[|s| - 1].bytes
  }

  lemma {:induction false} TotalOfConcat(a: seq<Tensor>, b: seq<Tensor>)
    ensures TotalBytes(a + b) == TotalBytes(a) + TotalBytes(b)
  {
    if b == [] {
      assert a + b == a;
    } else {
      var n := |b| - 1;
      TotalOfConcat(a, b[..n]);
      assert (a + b)[..|a + b| - 1] == a + b[..n];
    }
  }

  /** The tensors of the parts, one part after the other. */
  function Contents(parts: seq<FilePart>): seq<Tensor> {
    if parts == [] then [] else Contents(parts[..|parts| - 1]) + parts[|parts| - 1].tensors
  }

  /** Every part records the size of its tensors, and fits. */
  predicate PartsFit(parts: seq<FilePart>, cap: nat) {
    forall i | 0 <= i < |parts| :: parts[i].size == TotalBytes(parts[i].tensors) && parts[i].size <= cap
  }

  /** The part at `i` was opened only because its first tensor did not fit into the one before it. */
  predicate OpenedForNeed(parts: seq<FilePart>, cap: nat, i: nat)
    requires 0 < i < |parts|
  {
    parts[i].tensors != [] && parts[i - 1].size + parts[i].tensors[0].bytes > cap
  }

  predicate Greedy(parts: seq<FilePart>, cap: nat) {
    |parts| <= 1 || (OpenedForNeed(parts, cap, |parts| - 1) && Greedy(parts[..|parts| - 1], cap))
  }

  lemma {:induction false} GreedyAt(parts: seq<FilePart>, cap: nat, i: nat)
    requires Greedy(parts, cap) && 0 < i < |parts|
    ensures OpenedForNeed(parts, cap, i)
  {
    if i < |parts| - 1 {
      GreedyAt(parts[..|parts| - 1], cap, i);
    }
  }

  predicate AllFit(s: seq<Tensor>, cap: nat) {
    forall i | 0 <= i < |s| :: s[i].bytes <= cap
  }

  /** The parts after placing one more tensor. */
  function Place(parts: seq<FilePart>, t: Tensor, cap: nat): seq<FilePart>
    requires parts != []
  {
    var last := parts[|parts| - 1];
    if t.bytes + last.size > cap then parts + [FilePart([t], t.bytes)]
    else parts[..|parts| - 1] + [FilePart(last.tensors + [t], last.size + t.bytes)]
  }

  /** The state of the loop once the tensors of `prefix` are placed. */
  predicate Packed(parts: seq<FilePart>, prefix: seq<Tensor>, cap: nat) {
    && parts != []
    && Contents(parts) == prefix
    && PartsFit(parts, cap)
    && Greedy(parts, cap)
    && (if prefix == [] then parts == [FilePart([], 0)] else parts[0].tensors != [])
  }

  lemma PlaceKeepsContents(parts: seq<FilePart>, t: Tensor, cap: nat)
    requires parts != []
    ensures Contents(Place(parts, t, cap)) == Contents(parts) + [t]
  {
    var n := |parts| - 1;
    var after := Place(parts, t, cap);
    if t.bytes + parts[n].size > cap {
      assert after[..|after| - 1] == parts;
    } else {
      assert after[..|after| - 1] == parts[..n];
    }
  }

  lemma OneMoreTensor(s: seq<Tensor>, t: Tensor)
    ensures TotalBytes(s + [t]) == TotalBytes(s) + t.bytes
  {
    assert (s + [t])[..|s|] == s;
  }

  lemma FitAfterAppend(parts: seq<FilePart>, last: FilePart, cap: nat)
    requires PartsFit(parts, cap) && last.size == TotalBytes(last.tensors) && last.size <= cap
    ensures PartsFit(parts + [last], cap)
  {
  }

  /** Opening a new part for a tensor that does not fit. */
  lemma OpenPartKeepsPacked(parts: seq<FilePart>, prefix: seq<Tensor>, t: Tensor, cap: nat)
    requires Packed(parts, prefix, cap) && t.bytes <= cap
    requires t.bytes + parts[|parts| - 1].size > cap
    ensures Packed(Place(parts, t, cap), prefix + [t], cap)
  {
    var newPart := FilePart([t], t.bytes);
    var after := parts + [newPart];
    PlaceKeepsContents(parts, t, cap);
    OneMoreTensor([], t);
    assert [] + [t] == [t];
    FitAfterAppend(parts, newPart, cap);
    assert after[..|after| - 1] == parts;
    assert OpenedForNeed(after, cap, |parts|);
    assert after[0] == parts[0];
  }

  /** Adding a tensor to the last part. */
  lemma FillPartKeepsPacked(parts: seq<FilePart>, prefix: seq<Tensor>, t: Tensor, cap: nat)
    requires Packed(parts, prefix, cap) && t.bytes + parts[|parts| - 1].size <= cap
    ensures Packed(Place(parts, t, cap), prefix + [t], cap)
  {
    var n := |parts| - 1;
    var filled := FilePart(parts[n].tensors + [t], parts[n].size + t.bytes);
    var after := parts[..n] + [filled];
    PlaceKeepsContents(parts, t, cap);
    OneMoreTensor(parts[n].tensors, t);
    FitAfterAppend(parts[..n], filled, cap);
    assert after[..n] == parts[..n];
    if n > 0 {
      assert after[n - 1] == parts[n - 1];
      assert OpenedForNeed(after, cap, n);
      assert after[0] == parts[0];
    }
  }

  lemma PlaceKeepsPacked(parts: seq<FilePart>, prefix: seq<Tensor>, t: Tensor, cap: nat)
    requires Packed(parts, prefix, cap) && t.bytes <= cap
    ensures Packed(Place(parts, t, cap), prefix + [t], cap)
  {
    if t.bytes + parts[|parts| - 1].size > cap {
      OpenPartKeepsPacked(parts, prefix, t, cap);
    } else {
      FillPartKeepsPacked(parts, prefix, t, cap);
    }
  }

  method PlaceTensor(parts: seq<FilePart>, t: Tensor, cap: nat) returns (placed: seq<FilePart>)
    requires parts != []
    ensures placed == Place(parts, t, cap)
  {
    placed := parts;
    if t.bytes + placed[|placed| - 1].size > cap {
      placed := placed + [FilePart([], 0)];
    }
    var last := placed[|placed| - 1];
    assert [] + [t] == [t] && (parts + [FilePart([], 0)])[..|parts|] == parts;
    placed := placed[..|placed| - 1] + [FilePart(last.tensors + [t], last.size + t.bytes)];
  }

  /** The tensor at `k` is the first that is too big for any part. */
  predicate FirstTooBig(s: seq<Tensor>, cap: nat, k: int) {
    0 <= k < |s| && AllFit(s[..k], cap) && s[k].bytes > cap
  }

  /** The first `k` tensors fit and are placed. */
  predicate PackedUpTo(parts: seq<FilePart>, sorted: seq<Tensor>, cap: nat, k: nat)
    requires k <= |sorted|
  {
    AllFit(sorted[..k], cap) && Packed(parts, sorted[..k], cap)
  }

  lemma PackedNone(sorted: seq<Tensor>, cap: nat)
    ensures PackedUpTo([FilePart([], 0)], sorted, cap, 0)
  {
    assert [FilePart([], 0)][..0] == [];
  }

  lemma PackedOneMore(parts: seq<FilePart>, sorted: seq<Tensor>, cap: nat, k: nat)
    requires k < |sorted| && PackedUpTo(parts, sorted, cap, k) && sorted[k].bytes <= cap
    ensures PackedUpTo(Place(parts, sorted[k], cap), sorted, cap, k + 1)
  {
    var before := sorted[..k];
    assert sorted[..k + 1] == before + [sorted[k]];
    AllFitOneMore(before, sorted[k], cap);
    PlaceKeepsPacked(parts, before, sorted[k], cap);
  }

  lemma AllFitOneMore(s: seq<Tensor>, t: Tensor, cap: nat)
    requires AllFit(s, cap) && t.bytes <= cap
    ensures AllFit(s + [t], cap)
  {
  }

  method PackSorted(sorted: seq<Tensor>, cap: nat) returns (r: Result<seq<FilePart>, SaveError>)
    requires sorted != []
    ensures r.Success? <==> AllFit(sorted, cap)
    ensures r.Success? ==> Packed(r.value, sorted, cap)
    ensures r.Failure? ==>
              exists k :: FirstTooBig(sorted, cap, k) && r.error == TensorTooBig(sorted[k].name, sorted[k].bytes)
  {
    var parts := [FilePart([], 0)];
    PackedNone(sorted, cap);
    for k := 0 to |sorted|
      invariant PackedUpTo(parts, sorted, cap, k)
    {
      var size := sorted[k].bytes;
      if size > cap {
        assert FirstTooBig(sorted, cap, k);
        return Failure(TensorTooBig(sorted[k].name, size));
      }
      PackedOneMore(parts, sorted, cap, k);
      parts := PlaceTensor(parts, sorted[k], cap);
    }
    assert sorted[..|sorted|] == sorted;
    return Success(parts);
  }

  /**
  Packs the tensors in the order of their names, whatever order they come in. It fails for want of
  tensors, or at the first in that order that is too big; otherwise the parts are exactly them.
  */
  method PackTensors(tensors: seq<Tensor>, cap: nat) returns (r: Result<seq<FilePart>, SaveError>)
    ensures tensors == [] ==> r == Failure(NoTensors)
    ensures var sorted := SortByName(tensors);
            tensors != [] ==>
              && (r.Success? <==> AllFit(sorted, cap))
              && (r.Success? ==> Packed(r.value, sorted, cap))
              && (r.Failure? ==>
                    exists k :: FirstTooBig(sorted, cap, k)
                      && r.error == TensorTooBig(sorted[k].name, sorted[k].bytes))
  {
    if tensors == [] {
      return Failure(NoTensors);
    }
    var sorted := SortByName(tensors);
    SortByNameMeaning(tensors);
    assert tensors[0] in multiset(tensors);
    r := PackSorted(sorted, cap);
  }

  // ----- how good a packing is -----

  lemma {:induction false} FirstTensorCounts(s: seq<Tensor>)
    requires s != []
    ensures s[0].bytes <= TotalBytes(s)
  {
    if |s| > 1 {
      FirstTensorCounts(s[..|s| - 1]);
    }
  }

  /** Any two neighbouring parts together exceed the cap. */
  lemma NeighboursExceedCap(parts: seq<FilePart>, prefix: seq<Tensor>, cap: nat, i: nat)
    requires Packed(parts, prefix, cap) && 0 < i < |parts|
    ensures parts[i - 1].size + parts[i].size > cap
  {
    GreedyAt(parts, cap, i);
    FirstTensorCounts(parts[i].tensors);
  }

  function TotalSize(parts: seq<FilePart>): nat {
    if parts == [] then 0 else TotalSize(parts[..|parts| - 1]) + parts[|parts| - 1].size
  }

  /** The sizes that are recorded add up to the bytes of all tensors. */
  lemma {:induction false} RecordedSizesAddUp(parts: seq<FilePart>, cap: nat)
    requires PartsFit(parts, cap)
    ensures TotalSize(parts) == TotalBytes(Contents(parts))
  {
    if parts != [] {
      var n := |parts| - 1;
      RecordedSizesAddUp(parts[..n], cap);
      TotalOfConcat(Contents(parts[..n]), parts[n].tensors);
    }
  }

  /** With `k` parts the total exceeds the cap `k / 2` times over. */
  lemma {:induction false} PartsAreHalfFull(parts: seq<FilePart>, prefix: seq<Tensor>, cap: nat, k: nat)
    requires Packed(parts, prefix, cap) && k <= |parts|
    ensures TotalSize(parts[..k]) >= k / 2 * cap
    ensures k >= 2 ==> TotalSize(parts[..k]) > k / 2 * cap
  {
    if k >= 2 {
      PartsAreHalfFull(parts, prefix, cap, k - 2);
      NeighboursExceedCap(parts, prefix, cap, k - 1);
      assert parts[..k][..k - 1] == parts[..k - 1] && parts[..k - 1][..k - 2] == parts[..k - 2];
      HalfStep(k, cap);
    }
  }

  lemma HalfStep(k: nat, cap: nat)
    requires k >= 2
    ensures k / 2 * cap == (k - 2) / 2 * cap + cap
  {
    assert k / 2 == (k - 2) / 2 + 1;
  }

  // ----- no other packing in this order needs fewer parts -----

  /** The tensors in the first `k` parts. */
  function Reach(parts: seq<FilePart>, k: nat): nat
    requires k <= |parts|
  {
    |Contents(parts[..k])|
  }

  /** A part holds the tensors from where the parts before it end. */
  lemma {:induction false} PartIsSlice(parts: seq<FilePart>, k: nat)
    requires k < |parts|
    ensures Reach(parts, k) <= Reach(parts, k + 1) <= |Contents(parts)|
    ensures Contents(parts)[Reach(parts, k)..Reach(parts, k + 1)] == parts[k].tensors
    decreases |parts|
  {
    var n := |parts| - 1;
    assert parts[..k + 1][..k] == parts[..k];
    if k < n {
      PartIsSlice(parts[..n], k);
      assert parts[..n][..k] == parts[..k] && parts[..n][..k + 1] == parts[..k + 1];
    } else {
      assert parts[..k + 1] == parts;
    }
  }

  lemma SliceTotal(s: seq<Tensor>, lo: nat, hi: nat, from: nat, to: nat)
    requires lo <= from <= to <= hi <= |s|
    ensures TotalBytes(s[from..to]) <= TotalBytes(s[lo..hi])
  {
    assert s[lo..hi] == s[lo..from] + (s[from..to] + s[to..hi]);
    TotalOfConcat(s[lo..from], s[from..to] + s[to..hi]);
    TotalOfConcat(s[from..to], s[to..hi]);
  }

  /** The greedy packing is always at least as far as any other packing of the same sequence. */
  lemma {:induction false} GreedyStaysAhead(parts: seq<FilePart>, other: seq<FilePart>, prefix: seq<Tensor>,
                                            cap: nat, k: nat)
    requires Packed(parts, prefix, cap) && PartsFit(other, cap) && Contents(other) == prefix
    requires k < |parts| && k <= |other|
    ensures Reach(parts, k) >= Reach(other, k)
  {
    if k > 0 {
      GreedyStaysAhead(parts, other, prefix, cap, k - 1);
      PartIsSlice(parts, k - 1);
      PartIsSlice(parts, k);
      PartIsSlice(other, k - 1);
      if Reach(parts, k) < Reach(other, k) {
        ClosedTooEarly(parts, other, prefix, cap, k);
      }
    }
  }

  lemma {:induction false} ClosedTooEarly(parts: seq<FilePart>, other: seq<FilePart>, prefix: seq<Tensor>,
                                          cap: nat, k: nat)
    requires Packed(parts, prefix, cap) && Contents(other) == prefix
    requires 0 < k < |parts| && k <= |other|
    requires Reach(parts, k - 1) >= Reach(other, k - 1) && Reach(parts, k) < Reach(other, k) <= |prefix|
    requires Reach(parts, k - 1) <= Reach(parts, k) <= Reach(parts, k + 1) <= |prefix|
    requires prefix[Reach(parts, k - 1)..Reach(parts, k)] == parts[k - 1].tensors
    requires prefix[Reach(parts, k)..Reach(parts, k + 1)] == parts[k].tensors
    requires prefix[Reach(other, k - 1)..Reach(other, k)] == other[k - 1].tensors
    ensures TotalBytes(other[k - 1].tensors) > cap
  {
    GreedyAt(parts, cap, k);
    assert parts[k].tensors[0] == prefix[Reach(parts, k)];
    WiderSliceExceeds(prefix, Reach(parts, k - 1), Reach(parts, k), Reach(other, k - 1), Reach(other, k), cap);
  }

  lemma WiderSliceExceeds(s: seq<Tensor>, lo: nat, hi: nat, from: nat, to: nat, cap: nat)
    requires from <= lo <= hi < to <= |s|
    requires TotalBytes(s[lo..hi]) + s[hi].bytes > cap
    ensures TotalBytes(s[from..to]) > cap
  {
    assert s[lo..hi + 1] == s[lo..hi] + [s[hi]];
    OneMoreTensor(s[lo..hi], s[hi]);
    SliceTotal(s, from, to, lo, hi + 1);
  }

  /** No packing that keeps the order and respects the cap has fewer parts. */
  lemma {:induction false} GreedyIsOptimal(parts: seq<FilePart>, other: seq<FilePart>, prefix: seq<Tensor>, cap: nat)
    requires prefix != [] && Packed(parts, prefix, cap)
    requires PartsFit(other, cap) && Contents(other) == prefix
    ensures |parts| <= |other|
  {
    if |other| < |parts| {
      var k := |other|;
      GreedyStaysAhead(parts, other, prefix, cap, k);
      assert other[..k] == other;
      PartIsSlice(parts, k);
      if k > 0 {
        GreedyAt(parts, cap, k);
      }
    }
  }
}
