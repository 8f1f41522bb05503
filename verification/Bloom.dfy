/**
The Bloom filter that witnesses use to report participants and broadcasts. `Bloom` is the
value that travels inside a witness message; `BloomFilter` is the filter being filled in place.
*/
module Blooms {
  import opened Bytes

  datatype Bloom = Bloom(keys: seq<nat>, bits: seq<bool>)

  /** The filter carried by a witness: sixteen words, eight keys. */
  type WitnessBloom = b: Bloom | |b.keys| == 8 && |b.bits| == 1024
    witness Bloom(seq(8, _ => 0), seq(1024, _ => false))

  function Empty(keys: seq<nat>, numBits: nat): (b: Bloom)
    ensures b.keys == keys && |b.bits| == numBits
  {
    Bloom(keys, seq(numBits, _ => false))
  }

  /** The bit that `item` selects under one key: zero when there are no bits at all. */
  function Pos(fnv: Fnv, numBits: nat, item: seq<Byte>, key: nat): (p: nat)
    ensures 0 < numBits ==> p < numBits
  {
    if numBits == 0 then 0 else fnv(item, key) % numBits
  }

  predicate Contains(fnv: Fnv, b: Bloom, item: seq<Byte>)
    requires 0 < |b.bits|
  {
    forall k | 0 <= k < |b.keys| :: b.bits[Pos(fnv, |b.bits|, item, b.keys[k])]
  }

  /** The filter after setting the bits of `item` for the first `n` keys. */
  function AddPrefix(fnv: Fnv, b: Bloom, item: seq<Byte>, n: nat): (r: Bloom)
    requires 0 < |b.bits| && n <= |b.keys|
    ensures r.keys == b.keys && |r.bits| == |b.bits|
  {
    if n == 0 then b
    else
      var r := AddPrefix(fnv, b, item, n - 1);
      r.(bits := r.bits[Pos(fnv, |b.bits|, item, b.keys[n - 1]) := true])
  }

  function Add(fnv: Fnv, b: Bloom, item: seq<Byte>): (r: Bloom)
    requires 0 < |b.bits|
    ensures r.keys == b.keys && |r.bits| == |b.bits|
  {
    AddPrefix(fnv, b, item, |b.keys|)
  }

  function AddAll(fnv: Fnv, b: Bloom, items: seq<seq<Byte>>): (r: Bloom)
    requires 0 < |b.bits|
    ensures r.keys == b.keys && |r.bits| == |b.bits|
  {
    if items == [] then b else Add(fnv, AddAll(fnv, b, items[..|items| - 1]), items[|items| - 1])
  }

  /** Position `p` is one of those that `item` selects. */
  predicate Selects(fnv: Fnv, b: Bloom, item: seq<Byte>, p: nat)
    requires 0 < |b.bits|
  {
    exists k :: 0 <= k < |b.keys| && fnv(item, b.keys[k]) % |b.bits| == p
  }

  lemma {:induction false} AddPrefixBits(fnv: Fnv, b: Bloom, item: seq<Byte>, n: nat, p: nat)
    requires n <= |b.keys| && p < |b.bits|
    ensures AddPrefix(fnv, b, item, n).bits[p]
            <==> b.bits[p] || exists k :: 0 <= k < n && fnv(item, b.keys[k]) % |b.bits| == p
  {
    if n > 0 {
      AddPrefixBits(fnv, b, item, n - 1, p);
      if fnv(item, b.keys[n - 1]) % |b.bits| == p {
        assert AddPrefix(fnv, b, item, n).bits[p];
      }
    }
  }

  /** After any adds a bit is set exactly when it was set before or some added item selects it. */
  lemma {:induction false} AddAllBits(fnv: Fnv, b: Bloom, items: seq<seq<Byte>>, p: nat)
    requires p < |b.bits|
    ensures AddAll(fnv, b, items).bits[p]
            <==> b.bits[p] || exists i :: 0 <= i < |items| && Selects(fnv, b, items[i], p)
  {
    if items != [] {
      var n := |items| - 1;
      var before := AddAll(fnv, b, items[..n]);
      AddAllBits(fnv, b, items[..n], p);
      AddPrefixBits(fnv, before, items[n], |b.keys|, p);
      assert Selects(fnv, before, items[n], p) == Selects(fnv, b, items[n], p);
      if i :| 0 <= i < |items| && Selects(fnv, b, items[i], p) {
        assert i < n ==> items[..n][i] == items[i];
      }
    }
  }

  /** Under some key some of the items hashes to the same bit as `item` does under `key`. */
  predicate Covered(fnv: Fnv, keys: seq<nat>, numBits: nat, items: seq<seq<Byte>>, item: seq<Byte>, key: nat)
    requires 0 < numBits
  {
    exists i, l :: 0 <= i < |items| && 0 <= l < |keys| && fnv(items[i], keys[l]) % numBits == fnv(item, key) % numBits
  }

  lemma CoveredIfSet(fnv: Fnv, keys: seq<nat>, numBits: nat, items: seq<seq<Byte>>, item: seq<Byte>, key: nat)
    requires 0 < numBits
    ensures AddAll(fnv, Empty(keys, numBits), items).bits[Pos(fnv, numBits, item, key)]
            <==> Covered(fnv, keys, numBits, items, item, key)
  {
    var e, p := Empty(keys, numBits), fnv(item, key) % numBits;
    AddAllBits(fnv, e, items, p);
    if i, l :| 0 <= i < |items| && 0 <= l < |keys| && fnv(items[i], keys[l]) % numBits == p {
      assert fnv(items[i], e.keys[l]) % |e.bits| == p;
      assert Selects(fnv, e, items[i], p);
    }
  }

  /**
  What a filter that started empty answers: yes exactly when under every key the queried item hashes to the
  same bit as some added item under some key. In particular an added item is never denied.
  */
  lemma ContainsIffCovered(fnv: Fnv, keys: seq<nat>, numBits: nat, items: seq<seq<Byte>>, item: seq<Byte>)
    requires 0 < numBits
    ensures var b := AddAll(fnv, Empty(keys, numBits), items);
            && (Contains(fnv, b, item)
                <==> forall k | 0 <= k < |keys| :: Covered(fnv, keys, numBits, items, item, keys[k]))
            && (item in items ==> Contains(fnv, b, item))
  {
    forall k | 0 <= k < |keys|
      ensures AddAll(fnv, Empty(keys, numBits), items).bits[Pos(fnv, numBits, item, keys[k])]
              <==> Covered(fnv, keys, numBits, items, item, keys[k])
    {
      CoveredIfSet(fnv, keys, numBits, items, item, keys[k]);
    }
    if item in items {
      NoFalseNegatives(fnv, Empty(keys, numBits), items, item);
    }
  }

  /** An item added at any point is contained for ever after, whatever the filter held at first. */
  lemma NoFalseNegatives(fnv: Fnv, b: Bloom, items: seq<seq<Byte>>, item: seq<Byte>)
    requires 0 < |b.bits|
    requires item in items
    ensures Contains(fnv, AddAll(fnv, b, items), item)
  {
    var i :| 0 <= i < |items| && items[i] == item;
    forall k | 0 <= k < |b.keys|
      ensures AddAll(fnv, b, items).bits[Pos(fnv, |b.bits|, item, b.keys[k])]
    {
      var p := fnv(item, b.keys[k]) % |b.bits|;
      assert Selects(fnv, b, items[i], p);
      AddAllBits(fnv, b, items, p);
    }
  }

  /**
  For instance: when the hash sends all that was added to an empty filter to bit zero, under every key, and another item
  to bit one, then that item is denied.
  */
  lemma OtherItemIsDenied(fnv: Fnv, keys: seq<nat>, numBits: nat, items: seq<seq<Byte>>, other: seq<Byte>)
    requires keys != [] && numBits > 1
    requires forall i, l | 0 <= i < |items| && 0 <= l < |keys| :: fnv(items[i], keys[l]) == 0
    requires forall l | 0 <= l < |keys| :: fnv(other, keys[l]) == 1
    ensures !Contains(fnv, AddAll(fnv, Empty(keys, numBits), items), other)
  {
    ContainsIffCovered(fnv, keys, numBits, items, other);
    NextBit(numBits);
    assert !Covered(fnv, keys, numBits, items, other, keys[0]);
  }

  lemma NextBit(numBits: nat)
    requires numBits > 1
    ensures 0 % numBits == 0 && 1 % numBits == 1
  {
  }

  class BloomFilter {
    const keys: seq<nat>
    var bits: array<bool>

    ghost function View(): Bloom
      reads this, bits
    {
      Bloom(keys, bits[..])
    }

    /** A filter of `words` 64-bit words and `numKeys` keys; the two requirements are the source's assertions. */
    constructor (numBits: nat, words: nat, numKeys: nat, keysSlice: seq<nat>)
      requires numBits <= words * 64
      requires |keysSlice| == numKeys
      ensures fresh(bits)
      ensures View() == Empty(keysSlice, words * 64)
    {
      keys := keysSlice;
      bits := new bool[words * 64](_ => false);
    }

    method Clear()
      modifies this
      ensures fresh(bits)
      ensures View() == Empty(keys, old(bits.Length))
    {
      bits := new bool[bits.Length](_ => false);
    }

    method AddItem(fnv: Fnv, item: seq<Byte>)
      requires 0 < bits.Length
      modifies bits
      ensures View() == Add(fnv, old(View()), item)
      ensures forall p | 0 <= p < bits.Length ::
                bits[p] <==> old(bits[p]) || exists k :: 0 <= k < |keys| && fnv(item, keys[k]) % bits.Length == p
    {
      ghost var before := View();
      for n := 0 to |keys|
        invariant View() == AddPrefix(fnv, before, item, n)
      {
        var pos := Pos(fnv, bits.Length, item, keys[n]);
        if !bits[pos] {
          bits[pos] := true;
        } else {
          assert bits[..] == bits[..][pos := true];
        }
      }
      forall p | 0 <= p < bits.Length
        ensures bits[p] <==> before.bits[p] || exists k :: 0 <= k < |keys| && fnv(item, keys[k]) % bits.Length == p
      {
        AddPrefixBits(fnv, before, item, |keys|, p);
        assert View().bits[p] == bits[p];
      }
    }

    method Query(fnv: Fnv, item: seq<Byte>) returns (found: bool)
      requires 0 < bits.Length
      ensures found == Contains(fnv, View(), item)
      ensures found <==> forall k | 0 <= k < |keys| :: bits[fnv(item, keys[k]) % bits.Length]
    {
      for n := 0 to |keys|
        invariant forall k | 0 <= k < n :: bits[Pos(fnv, bits.Length, item, keys[k])]
      {
        var pos := Pos(fnv, bits.Length, item, keys[n]);
        if !bits[pos] {
          return false;
        }
      }
      return true;
    }
  }
}
