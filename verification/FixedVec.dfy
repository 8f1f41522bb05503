/** A list of bounded length in a fixed array, whose unused slots always hold the default value. */
module FixedVecs {
  import opened Wrappers

  /** The elements that pass, in order. */
  function Filter<T>(f: T -> bool, s: seq<T>): (r: seq<T>)
    ensures |r| <= |s|
  {
    if s == [] then []
    else Filter(f, s[..|s| - 1]) + if f(s[|s| - 1]) then [s[|s| - 1]] else []
  }

  /** Filtering keeps all the elements that pass, with their multiplicity, and nothing else. */
  lemma {:induction false} FilterKeepsPassing<T>(f: T -> bool, s: seq<T>, x: T)
    ensures multiset(Filter(f, s))[x] == if f(x) then multiset(s)[x] else 0
  {
    if s != [] {
      FilterKeepsPassing(f, s[..|s| - 1], x);
      assert s == s[..|s| - 1] + [s[|s| - 1]];
    }
  }

  class FixedVec<T(==)> {
    const default: T
    const data: array<T>
    var len: nat

    ghost predicate Valid()
      reads this, data
    {
      len <= data.Length && forall i | len <= i < data.Length :: data[i] == default
    }

    ghost function Contents(): seq<T>
      reads this, data
      requires Valid()
    {
      data[..len]
    }

    constructor (capacity: nat, default: T)
      ensures Valid() && fresh(data) && data.Length == capacity
      ensures this.default == default && Contents() == []
    {
      this.default := default;
      data := new T[capacity](_ => default);
      len := 0;
    }

    method Push(value: T) returns (r: Result<(), string>)
      requires Valid()
      modifies this, data
      ensures Valid()
      ensures r.Success? <==> old(len) < data.Length
      ensures Contents() == if r.Success? then old(Contents()) + [value] else old(Contents())
    {
      if len < data.Length {
        data[len] := value;
        len := len + 1;
        return Success(());
      } else {
        return Failure("FixedVec is full");
      }
    }

    method Pop() returns (r: Option<T>)
      requires Valid()
      modifies this, data
      ensures Valid()
      ensures old(Contents()) == [] ==> r.None? && Contents() == []
      ensures old(Contents()) != [] ==> r.Some? && Contents() + [r.value] == old(Contents())
    {
      if len > 0 {
        len := len - 1;
        r := Some(data[len]);
        data[len] := default;
      } else {
        r := None;
      }
    }

    method Clear()
      requires Valid()
      modifies this, data
      ensures Valid() && Contents() == []
    {
      for i := 0 to len
        invariant forall k | 0 <= k < i || len <= k < data.Length :: data[k] == default
        modifies data
      {
        data[i] := default;
      }
      len := 0;
    }

    /** Pushes the items in order and stops at the first that does not fit. */
    method Extend(items: seq<T>) returns (r: Result<(), string>)
      requires Valid()
      modifies this, data
      ensures Valid()
      ensures r.Success? <==> old(len) + |items| <= data.Length
      ensures Contents() == old(Contents()) + items[..if r.Success? then |items| else data.Length - old(len)]
    {
      for i := 0 to |items|
        invariant Valid() && Contents() == old(Contents()) + items[..i]
      {
        var pushed := Push(items[i]);
        if pushed.Failure? {
          return pushed;
        }
        assert items[..i + 1] == items[..i] + [items[i]];
      }
      return Success(());
    }

    method Remove(index: nat) returns (r: Option<T>)
      requires Valid()
      modifies this, data
      ensures Valid()
      ensures index >= old(len) ==> r.None? && Contents() == old(Contents())
      ensures index < old(len) ==>
                && r == Some(old(Contents())[index])
                && Contents() == old(Contents())[..index] + old(Contents())[index + 1..]
    {
      if index >= len {
        return None;
      }
      r := Some(data[index]);
      var lastPos := len - 1;
      for i := index to lastPos
        invariant forall k | 0 <= k < index || i < k < data.Length :: data[k] == old(data[k])
        invariant forall k | index <= k < i :: data[k] == old(data[k + 1])
        invariant i < len && data[i] == old(data[i])
        modifies data
      {
        data[i] := data[i + 1];
      }
      data[lastPos] := default;
      len := len - 1;
    }

    method Insert(index: nat, element: T) returns (r: Result<(), string>)
      requires Valid()
      modifies this, data
      ensures Valid()
      ensures r.Success? <==> old(len) < data.Length && index <= old(len)
      ensures r.Failure? ==> Contents() == old(Contents())
      ensures r.Success? ==> Contents() == old(Contents())[..index] + [element] + old(Contents())[index..]
    {
      if len >= data.Length {
        return Failure("FixedVec is full");
      }
      if index > len {
        return Failure("Index out of bounds");
      }
      for i := len downto index
        invariant forall k | 0 <= k <= i || len < k < data.Length :: data[k] == old(data[k])
        invariant forall k | i < k <= len :: data[k] == old(data[k - 1])
        modifies data
      {
        data[i + 1] := data[i];
      }
      data[index] := element;
      len := len + 1;
      return Success(());
    }

    /** Keeps the elements that pass, moving them down over the ones that do not. */
    method Retain(f: T -> bool)
      requires Valid()
      modifies this, data
      ensures Valid()
      ensures Contents() == Filter(f, old(Contents()))
    {
      var read, write := 0, 0;
      while read < len
        invariant write <= read <= len == old(len)
        invariant forall k | read <= k < data.Length :: data[k] == old(data[k])
        invariant data[..write] == Filter(f, old(Contents())[..read])
        modifies data
      {
        assert old(Contents())[..read + 1][..read] == old(Contents())[..read];
        if f(data[read]) {
          if read != write {
            data[write] := data[read];
          }
          write := write + 1;
        }
        read := read + 1;
      }
      assert old(Contents())[..len] == old(Contents());
      ghost var kept := data[..write];
      for i := write to len
        invariant data[..write] == kept
        invariant forall k | write <= k < i || len <= k < data.Length :: data[k] == default
        modifies data
      {
        data[i] := default;
      }
      len := write;
    }
  }
}
