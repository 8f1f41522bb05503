/**
The Merkle tree held as one flat vector of nodes, level after level, and the proofs read from it.
Soundness is stated without assuming anything of the hash: where a claim would need a hash free of
collisions, the lemma says which two of the strings hashed on the way collide.
*/
module MerkleTrees {
  import opened Wrappers
  import opened Bytes

  const LEAF_PREFIX: seq<Byte> := [0]
  const INTERMEDIATE_PREFIX: seq<Byte> := [1]

  function HashLeaf(sha: Sha, item: seq<Byte>): Digest {
    sha(LEAF_PREFIX + item)
  }

  /** The bytes that an inner node hashes. */
  function Preimage(left: Digest, right: Digest): seq<Byte> {
    INTERMEDIATE_PREFIX + left + right
  }

  function HashNode(sha: Sha, left: Digest, right: Digest): Digest {
    sha(Preimage(left, right))
  }

  predicate Collision(sha: Sha, x: seq<Byte>, y: seq<Byte>) {
    x != y && sha(x) == sha(y)
  }

  /** Two different inner nodes with the same hash. */
  predicate NodeCollision(sha: Sha, x: seq<Byte>, y: seq<Byte>) {
    |x| == |y| == 65 && Collision(sha, x, y)
  }

  lemma PreimageInjective(a: Digest, b: Digest, c: Digest, d: Digest)
    requires Preimage(a, b) == Preimage(c, d)
    ensures a == c && b == d
  {
    assert Preimage(a, b)[1..33] == a && Preimage(c, d)[1..33] == c;
    assert Preimage(a, b)[33..] == b && Preimage(c, d)[33..] == d;
  }

  // ----- the tree as levels -----

  function NextLevelLen(levelLen: nat): nat {
    if levelLen == 1 then 0 else (levelLen + 1) / 2
  }

  /** The level above: each node hashes a pair, the last one with itself if it has no partner. */
  function NextLevel(sha: Sha, level: seq<Digest>): (next: seq<Digest>)
    ensures |next| == (|level| + 1) / 2
  {
    seq((|level| + 1) / 2, i requires 0 <= i < (|level| + 1) / 2 => Parent(sha, level, i))
  }

  function Parent(sha: Sha, level: seq<Digest>, i: nat): Digest
    requires 2 * i < |level|
  {
    HashNode(sha, level[2 * i], if 2 * i + 1 < |level| then level[2 * i + 1] else level[2 * i])
  }

  /** The bytes hashed for the i-th pair of a level. */
  function PairPreimage(level: seq<Digest>, i: nat): seq<Byte>
    requires 2 * i < |level|
  {
    Preimage(level[2 * i], if 2 * i + 1 < |level| then level[2 * i + 1] else level[2 * i])
  }

  /** All levels from this one up, one after the other. */
  function Flat(sha: Sha, level: seq<Digest>): seq<Digest>
    decreases |level|
  {
    if |level| <= 1 then level else level + Flat(sha, NextLevel(sha, level))
  }

  function Root(sha: Sha, level: seq<Digest>): Digest
    requires level != []
    decreases |level|
  {
    if |level| == 1 then level[0] else Root(sha, NextLevel(sha, level))
  }

  function Height(n: nat): nat {
    if n <= 1 then 0 else 1 + Height((n + 1) / 2)
  }

  function Leaves(sha: Sha, items: seq<seq<Byte>>): (leaves: seq<Digest>)
    ensures |leaves| == |items|
  {
    seq(|items|, i requires 0 <= i < |items| => HashLeaf(sha, items[i]))
  }

  /** The last node of the flat vector is the root. */
  lemma {:induction false} FlatEndsInRoot(sha: Sha, level: seq<Digest>)
    requires level != []
    ensures Flat(sha, level) != []
    ensures Flat(sha, level)[|Flat(sha, level)| - 1] == Root(sha, level)
    decreases |level|
  {
    if |level| > 1 {
      FlatEndsInRoot(sha, NextLevel(sha, level));
    }
  }

  /** For instance of three items: leaves are hashed after a zero byte, nodes after a one, the odd leaf twice. */
  lemma RootOfThree(sha: Sha, a: seq<Byte>, b: seq<Byte>, c: seq<Byte>)
    ensures Root(sha, Leaves(sha, [a, b, c]))
            == sha([1] + sha([1] + sha([0] + a) + sha([0] + b)) + sha([1] + sha([0] + c) + sha([0] + c)))
  {
    var leaves := Leaves(sha, [a, b, c]);
    var pairs := NextLevel(sha, leaves);
    assert |pairs| == 2 && |NextLevel(sha, pairs)| == 1;
    assert Root(sha, leaves) == Root(sha, pairs) == Root(sha, NextLevel(sha, pairs)) == NextLevel(sha, pairs)[0];
  }

  // ----- how many nodes there are -----

  function FloorLog2(n: nat): nat {
    if n <= 1 then 0 else 1 + FloorLog2(n / 2)
  }

  lemma {:induction false} HeightBound(k: nat)
    requires k >= 1
    ensures Height(k + 1) <= FloorLog2(k) + 1
  {
    if k >= 2 {
      HeightBound(k / 2);
      assert (k + 1 + 1) / 2 == k / 2 + 1;
    }
  }

  lemma {:induction false} FloorLog2Monotone(m: nat, n: nat)
    requires m <= n
    ensures FloorLog2(m) <= FloorLog2(n)
  {
    if m > 1 {
      FloorLog2Monotone(m / 2, n / 2);
    }
  }

  lemma {:induction false} FlatSize(sha: Sha, level: seq<Digest>)
    requires level != []
    ensures |Flat(sha, level)| <= 2 * |level| + Height(|level|) - 1
    decreases |level|
  {
    if |level| > 1 {
      FlatSize(sha, NextLevel(sha, level));
      if |level| % 2 == 1 {
        HeightOfOdd(|level|);
      }
    }
  }

  lemma HeightOfOdd(n: nat)
    requires n > 1
    ensures Height(n) == 1 + Height((n + 1) / 2)
  {
  }

  /** The vector never outgrows the capacity reserved for it. */
  lemma NodeCountBound(sha: Sha, items: seq<seq<Byte>>)
    requires items != []
    ensures |Flat(sha, Leaves(sha, items))| <= 2 * |items| + FloorLog2(|items|) + 1
  {
    var n := |items|;
    FlatSize(sha, Leaves(sha, items));
    if n > 1 {
      HeightBound(n - 1);
      FloorLog2Monotone(n - 1, n);
    }
  }

  // ----- building the vector -----

  datatype MerkleTree = MerkleTree(leafCount: nat, nodes: seq<Digest>) {
    function GetRoot(): Option<Digest> {
      if nodes == [] then None else Some(nodes[|nodes| - 1])
    }
  }

  /** The vector that the loops below build is the tree, level by level. */
  method NewTree(sha: Sha, items: seq<seq<Byte>>) returns (tree: MerkleTree)
    ensures tree == MerkleTree(|items|, Flat(sha, Leaves(sha, items)))
  {
    var nodes := HashLeaves(sha, items);
    var levelLen: nat := NextLevelLen(|items|);
    var levelStart: nat := |items|;
    var prevLevelLen: nat := |items|;
    var prevLevelStart: nat := 0;
    ghost var level := nodes;
    ghost var below: seq<Digest> := [];
    assert below + level == level && below + Flat(sha, level) == Flat(sha, level);
    while levelLen > 0
      invariant nodes == below + level
      invariant prevLevelStart == |below| && prevLevelLen == |level|
      invariant levelStart == |nodes| && levelLen == NextLevelLen(prevLevelLen)
      invariant below + Flat(sha, level) == Flat(sha, Leaves(sha, items))
      decreases prevLevelLen
    {
      BuildStep(sha, below, level);
      nodes := AppendLevel(sha, nodes, prevLevelStart, prevLevelLen, levelLen, level);
      below, level := below + level, NextLevel(sha, level);
      prevLevelStart := levelStart;
      prevLevelLen := levelLen;
      levelStart := levelStart + levelLen;
      levelLen := NextLevelLen(levelLen);
    }
    tree := MerkleTree(|items|, nodes);
  }

  method HashLeaves(sha: Sha, items: seq<seq<Byte>>) returns (nodes: seq<Digest>)
    ensures nodes == Leaves(sha, items)
  {
    nodes := [];
    for i := 0 to |items|
      invariant nodes == Leaves(sha, items)[..i]
    {
      nodes := nodes + [HashLeaf(sha, items[i])];
    }
  }

  lemma BuildStep(sha: Sha, below: seq<Digest>, level: seq<Digest>)
    requires |level| > 1
    ensures below + Flat(sha, level) == (below + level) + Flat(sha, NextLevel(sha, level))
  {
  }

  method AppendLevel(sha: Sha, start: seq<Digest>, prevLevelStart: nat, prevLevelLen: nat, levelLen: nat,
                     ghost level: seq<Digest>)
    returns (nodes: seq<Digest>)
    requires prevLevelStart + prevLevelLen == |start| && level == start[prevLevelStart..]
    requires prevLevelLen > 1 && levelLen == NextLevelLen(prevLevelLen)
    ensures nodes == start + NextLevel(sha, level)
  {
    nodes := start;
    for i := 0 to levelLen
      invariant nodes == start + NextLevel(sha, level)[..i]
    {
      var prevLevelIdx := 2 * i;
      var left := nodes[prevLevelStart + prevLevelIdx];
      var right :=
        if prevLevelIdx + 1 < prevLevelLen then nodes[prevLevelStart + prevLevelIdx + 1]
        else nodes[prevLevelStart + prevLevelIdx];
      assert left == level[2 * i];
      assert HashNode(sha, left, right) == Parent(sha, level, i);
      nodes := nodes + [HashNode(sha, left, right)];
    }
  }

  // ----- proofs -----

  datatype ProofEntry = ProofEntry(target: Digest, leftSibling: Option<Digest>, rightSibling: Option<Digest>) {
    predicate OneSibling() {
      leftSibling.None? != rightSibling.None?
    }
  }

  /** The source asserts that an entry has exactly one sibling. */
  function NewEntry(target: Digest, left: Option<Digest>, right: Option<Digest>): (entry: ProofEntry)
    requires left.None? != right.None?
    ensures entry.OneSibling()
  {
    ProofEntry(target, left, right)
  }

  function LeftOf(level: seq<Digest>, index: nat): Option<Digest>
    requires index < |level|
  {
    if index % 2 == 0 then None else Some(level[index - 1])
  }

  function RightOf(level: seq<Digest>, index: nat): Option<Digest>
    requires index < |level|
  {
    if index % 2 == 1 then None else Some(if index + 1 < |level| then level[index + 1] else level[index])
  }

  /** The proof for a node of a level: its sibling and parent, then the parent's, up to the root. */
  function Path(sha: Sha, level: seq<Digest>, index: nat): (path: seq<ProofEntry>)
    requires index < |level|
    ensures |path| == Height(|level|)
    decreases |level|
  {
    if |level| == 1 then []
    else
      var next := NextLevel(sha, level);
      [NewEntry(next[index / 2], LeftOf(level, index), RightOf(level, index))] + Path(sha, next, index / 2)
  }

  /** The entry for the node reached, if it has been reached from below. */
  function Reached(target: Digest, left: Option<Digest>, right: Option<Digest>): seq<ProofEntry>
    requires (left.Some? || right.Some?) ==> left.None? != right.None?
  {
    if left.Some? || right.Some? then [NewEntry(target, left, right)] else []
  }

  /** The climb stands at a node of `level`, with `entries` read so far, and is on its way to `goal`. */
  ghost predicate Climbing(sha: Sha, nodes: seq<Digest>, levelStart: nat, level: seq<Digest>, nodeIndex: nat,
                           left: Option<Digest>, right: Option<Digest>,
                           entries: seq<ProofEntry>, goal: seq<ProofEntry>)
  {
    && nodeIndex < |level|
    && levelStart <= |nodes| && nodes[levelStart..] == Flat(sha, level)
    && ((left.Some? || right.Some?) ==> left.None? != right.None?)
    && goal == entries + (Reached(level[nodeIndex], left, right) + Path(sha, level, nodeIndex))
  }

  lemma TailSplits(nodes: seq<Digest>, start: nat, head: seq<Digest>, rest: seq<Digest>)
    requires start <= |nodes| && nodes[start..] == head + rest
    ensures start + |head| <= |nodes|
    ensures nodes[start..start + |head|] == head && nodes[start + |head|..] == rest
  {
    assert nodes == nodes[..start] + (head + rest);
  }

  lemma ClimbSeesLevel(sha: Sha, nodes: seq<Digest>, levelStart: nat, level: seq<Digest>)
    requires levelStart <= |nodes| && nodes[levelStart..] == Flat(sha, level)
    ensures levelStart + |level| <= |nodes|
    ensures nodes[levelStart..levelStart + |level|] == level
    ensures |level| > 1 ==> nodes[levelStart + |level|..] == Flat(sha, NextLevel(sha, level))
  {
    if |level| > 1 {
      TailSplits(nodes, levelStart, level, Flat(sha, NextLevel(sha, level)));
    } else {
      assert level == level + [];
      TailSplits(nodes, levelStart, level, []);
    }
  }

  lemma Climb(sha: Sha, nodes: seq<Digest>, levelStart: nat, level: seq<Digest>, nodeIndex: nat,
              left: Option<Digest>, right: Option<Digest>, entries: seq<ProofEntry>, goal: seq<ProofEntry>)
    requires Climbing(sha, nodes, levelStart, level, nodeIndex, left, right, entries, goal)
    ensures levelStart + |level| <= |nodes| && nodes[levelStart..levelStart + |level|] == level
    ensures var read := entries + Reached(level[nodeIndex], left, right);
            if |level| == 1 then goal == read
            else Climbing(sha, nodes, levelStart + |level|, NextLevel(sha, level), nodeIndex / 2,
                          LeftOf(level, nodeIndex), RightOf(level, nodeIndex), read, goal)
  {
    ClimbSeesLevel(sha, nodes, levelStart, level);
    var read := entries + Reached(level[nodeIndex], left, right);
    assert goal == read + Path(sha, level, nodeIndex);
    if |level| > 1 {
      PathStep(sha, level, nodeIndex);
      assert Reached(NextLevel(sha, level)[nodeIndex / 2], LeftOf(level, nodeIndex), RightOf(level, nodeIndex))
          == [FirstEntry(sha, level, nodeIndex)];
    }
  }

  lemma ClimbStarts(sha: Sha, leaves: seq<Digest>, index: nat)
    requires index < |leaves|
    ensures Climbing(sha, Flat(sha, leaves), 0, leaves, index, None, None, [], Path(sha, leaves, index))
  {
    assert Path(sha, leaves, index) == [] + ([] + Path(sha, leaves, index));
  }

  /** The state of the loop that climbs: at a level, or past the root. */
  ghost predicate ClimbState(sha: Sha, nodes: seq<Digest>, levelStart: nat, levelLen: nat, level: seq<Digest>,
                             nodeIndex: nat, left: Option<Digest>, right: Option<Digest>,
                             entries: seq<ProofEntry>, goal: seq<ProofEntry>)
  {
    if levelLen == 0 then entries == goal
    else levelLen == |level| && Climbing(sha, nodes, levelStart, level, nodeIndex, left, right, entries, goal)
  }

  /** One turn of the loop. */
  lemma ClimbOn(sha: Sha, nodes: seq<Digest>, levelStart: nat, levelLen: nat, level: seq<Digest>, nodeIndex: nat,
                left: Option<Digest>, right: Option<Digest>, entries: seq<ProofEntry>, goal: seq<ProofEntry>)
    requires levelLen > 0
    requires ClimbState(sha, nodes, levelStart, levelLen, level, nodeIndex, left, right, entries, goal)
    ensures levelStart + levelLen <= |nodes| && nodes[levelStart..levelStart + levelLen] == level
    ensures nodeIndex < levelLen == |level| && ((left.Some? || right.Some?) ==> left.None? != right.None?)
    ensures ClimbState(sha, nodes, levelStart + levelLen, NextLevelLen(levelLen), NextLevel(sha, level), nodeIndex / 2,
                       LeftOf(level, nodeIndex), RightOf(level, nodeIndex),
                       entries + Reached(level[nodeIndex], left, right), goal)
  {
    Climb(sha, nodes, levelStart, level, nodeIndex, left, right, entries, goal);
  }

  method Siblings(level: seq<Digest>, nodeIndex: nat) returns (left: Option<Digest>, right: Option<Digest>)
    requires nodeIndex < |level|
    ensures left == LeftOf(level, nodeIndex) && right == RightOf(level, nodeIndex)
  {
    if nodeIndex % 2 == 0 {
      left := None;
      right := if nodeIndex + 1 < |level| then Some(level[nodeIndex + 1]) else Some(level[nodeIndex]);
    } else {
      left := Some(level[nodeIndex - 1]);
      right := None;
    }
  }

  method Read(entries: seq<ProofEntry>, target: Digest, left: Option<Digest>, right: Option<Digest>)
    returns (read: seq<ProofEntry>)
    requires (left.Some? || right.Some?) ==> left.None? != right.None?
    ensures read == entries + Reached(target, left, right)
  {
    read := entries;
    if left.Some? || right.Some? {
      read := read + [NewEntry(target, left, right)];
    }
  }

  method FindPath(sha: Sha, tree: MerkleTree, index: nat, ghost leaves: seq<Digest>)
    returns (path: Option<seq<ProofEntry>>)
    requires tree == MerkleTree(|leaves|, Flat(sha, leaves))
    ensures path == if index >= |leaves| then None else Some(Path(sha, leaves, index))
  {
    if index >= tree.leafCount {
      return None;
    }
    var levelLen: nat := tree.leafCount;
    var levelStart: nat := 0;
    var entries: seq<ProofEntry> := [];
    var nodeIndex: nat := index;
    var left: Option<Digest> := None;
    var right: Option<Digest> := None;
    ghost var goal := Path(sha, leaves, index);
    ghost var level := leaves;
    ClimbStarts(sha, leaves, index);
    while levelLen > 0
      invariant ClimbState(sha, tree.nodes, levelStart, levelLen, level, nodeIndex, left, right, entries, goal)
      decreases levelLen
    {
      ClimbOn(sha, tree.nodes, levelStart, levelLen, level, nodeIndex, left, right, entries, goal);
      var nodes := tree.nodes[levelStart..levelStart + levelLen];
      entries := Read(entries, nodes[nodeIndex], left, right);
      left, right := Siblings(nodes, nodeIndex);
      nodeIndex := nodeIndex / 2;
      levelStart := levelStart + levelLen;
      levelLen := NextLevelLen(levelLen);
      level := NextLevel(sha, level);
    }
    return Some(entries);
  }

  /** What an entry makes of the candidate below it. */
  function Combine(sha: Sha, entry: ProofEntry, candidate: Digest): Digest {
    HashNode(sha,
             if entry.leftSibling.Some? then entry.leftSibling.value else candidate,
             if entry.rightSibling.Some? then entry.rightSibling.value else candidate)
  }

  predicate Verify(sha: Sha, path: seq<ProofEntry>, candidate: Digest) {
    path == []
    || (Combine(sha, path[0], candidate) == path[0].target && Verify(sha, path[1..], path[0].target))
  }

  predicate VerifyItem(sha: Sha, path: seq<ProofEntry>, item: seq<Byte>) {
    Verify(sha, path, HashLeaf(sha, item))
  }

  function ProofRoot(path: seq<ProofEntry>): Option<Digest> {
    if path == [] then None else Some(path[|path| - 1].target)
  }

  lemma CombineGivesParent(sha: Sha, level: seq<Digest>, index: nat, target: Digest)
    requires index < |level|
    ensures 2 * (index / 2) < |level|
    ensures Combine(sha, ProofEntry(target, LeftOf(level, index), RightOf(level, index)), level[index])
            == Parent(sha, level, index / 2)
  {
    if index % 2 == 0 {
      assert 2 * (index / 2) == index;
    } else {
      assert 2 * (index / 2) == index - 1;
    }
  }

  /** The first entry of a node's path. */
  function FirstEntry(sha: Sha, level: seq<Digest>, index: nat): ProofEntry
    requires index < |level| && |level| > 1
  {
    NewEntry(NextLevel(sha, level)[index / 2], LeftOf(level, index), RightOf(level, index))
  }

  lemma PathStep(sha: Sha, level: seq<Digest>, index: nat)
    requires index < |level| && |level| > 1
    ensures Path(sha, level, index)
            == [FirstEntry(sha, level, index)] + Path(sha, NextLevel(sha, level), index / 2)
    ensures Path(sha, level, index)[1..] == Path(sha, NextLevel(sha, level), index / 2)
    ensures Combine(sha, FirstEntry(sha, level, index), level[index]) == NextLevel(sha, level)[index / 2]
  {
    CombineGivesParent(sha, level, index, NextLevel(sha, level)[index / 2]);
  }

  /** Every node's own path verifies it. */
  lemma {:induction false} OwnPathVerifies(sha: Sha, level: seq<Digest>, index: nat)
    requires index < |level|
    ensures Verify(sha, Path(sha, level, index), level[index])
    decreases |level|
  {
    if |level| > 1 {
      PathStep(sha, level, index);
      OwnPathVerifies(sha, NextLevel(sha, level), index / 2);
    }
  }

  /** The entries of a path found in a tree have one sibling each. */
  lemma {:induction false} PathsHaveOneSibling(sha: Sha, level: seq<Digest>, index: nat, k: nat)
    requires index < |level| && k < Height(|level|)
    ensures Path(sha, level, index)[k].OneSibling()
    decreases |level|
  {
    PathStep(sha, level, index);
    if k > 0 {
      PathsHaveOneSibling(sha, NextLevel(sha, level), index / 2, k - 1);
      assert Path(sha, level, index)[k] == Path(sha, level, index)[1..][k - 1];
    }
  }

  /** With at least two nodes the path records the root of the tree. */
  lemma {:induction false} PathEndsInRoot(sha: Sha, level: seq<Digest>, index: nat)
    requires index < |level| && |level| >= 2
    ensures ProofRoot(Path(sha, level, index)) == Some(Root(sha, level))
    decreases |level|
  {
    var next := NextLevel(sha, level);
    var path := Path(sha, level, index);
    if |next| >= 2 {
      PathEndsInRoot(sha, next, index / 2);
      assert path[|path| - 1] == Path(sha, next, index / 2)[|path| - 2];
    } else {
      assert Path(sha, next, index / 2) == [];
    }
  }

  /** The proof found for any item verifies that item and leads to the tree's root. */
  lemma FoundPathsVerify(sha: Sha, items: seq<seq<Byte>>, index: nat)
    requires index < |items|
    ensures var path := Path(sha, Leaves(sha, items), index);
            && VerifyItem(sha, path, items[index])
            && (|items| >= 2 ==>
                  ProofRoot(path) == MerkleTree(|items|, Flat(sha, Leaves(sha, items))).GetRoot())
  {
    var leaves := Leaves(sha, items);
    OwnPathVerifies(sha, leaves, index);
    FlatEndsInRoot(sha, leaves);
    if |items| >= 2 {
      PathEndsInRoot(sha, leaves, index);
    }
  }

  // ----- soundness -----

  /** The bytes hashed by an entry over a candidate. */
  function EntryPreimage(entry: ProofEntry, candidate: Digest): seq<Byte> {
    Preimage(if entry.leftSibling.Some? then entry.leftSibling.value else candidate,
             if entry.rightSibling.Some? then entry.rightSibling.value else candidate)
  }

  /** A proof that is not empty verifies one candidate only, unless its first entry shows a collision. */
  lemma OneCandidatePerProof(sha: Sha, path: seq<ProofEntry>, a: Digest, b: Digest)
    requires path != [] && path[0].OneSibling()
    requires Verify(sha, path, a) && Verify(sha, path, b)
    ensures a == b || NodeCollision(sha, EntryPreimage(path[0], a), EntryPreimage(path[0], b))
  {
    if EntryPreimage(path[0], a) == EntryPreimage(path[0], b) {
      var l, r := path[0].leftSibling, path[0].rightSibling;
      PreimageInjective(if l.Some? then l.value else a, if r.Some? then r.value else a,
                        if l.Some? then l.value else b, if r.Some? then r.value else b);
    }
  }

  /** What a proof claims as root for a candidate. */
  function ClaimedRoot(path: seq<ProofEntry>, candidate: Digest): Digest {
    if path == [] then candidate else path[|path| - 1].target
  }

  /** The candidate that entry k is checked with, and for k == |path| the one after the last entry. */
  function CandidateAt(path: seq<ProofEntry>, candidate: Digest, k: nat): Digest
    requires k <= |path|
  {
    if k == 0 then candidate else path[k - 1].target
  }

  /** Checking the path from the candidate hashes x at one of its entries. */
  ghost predicate HashedInPath(path: seq<ProofEntry>, candidate: Digest, x: seq<Byte>) {
    exists k | 0 <= k < |path| :: x == EntryPreimage(path[k], CandidateAt(path, candidate, k))
  }

  /** Verifying the proof for an item hashes x. */
  ghost predicate HashedByProof(sha: Sha, path: seq<ProofEntry>, item: seq<Byte>, x: seq<Byte>) {
    x == LEAF_PREFIX + item || HashedInPath(path, HashLeaf(sha, item), x)
  }

  /** Building the levels above this one hashes y for one of the pairs. */
  ghost predicate HashedInTree(sha: Sha, level: seq<Digest>, y: seq<Byte>)
    decreases |level|
  {
    && |level| > 1
    && ((exists i | 0 <= i && 2 * i < |level| :: y == PairPreimage(level, i))
        || HashedInTree(sha, NextLevel(sha, level), y))
  }

  /** Building the tree of the items hashes y. */
  ghost predicate HashedByTree(sha: Sha, items: seq<seq<Byte>>, y: seq<Byte>) {
    (exists i | 0 <= i < |items| :: y == LEAF_PREFIX + items[i]) || HashedInTree(sha, Leaves(sha, items), y)
  }

  /** What the rest of a path hashes, the path hashes. */
  lemma HashedInRest(path: seq<ProofEntry>, candidate: Digest, x: seq<Byte>)
    requires path != [] && HashedInPath(path[1..], path[0].target, x)
    ensures HashedInPath(path, candidate, x)
  {
    var rest, parent := path[1..], path[0].target;
    var k :| 0 <= k < |rest| && x == EntryPreimage(rest[k], CandidateAt(rest, parent, k));
    assert path[k + 1] == rest[k] && CandidateAt(path, candidate, k + 1) == CandidateAt(rest, parent, k);
  }

  /**
  A proof, read from the tree or made up, that is as long as the tree is high, verifies a candidate and
  claims the tree's root: then the candidate is a node of the level, or an inner node hashed by the
  proof and a different one hashed by the tree have the same hash.
  */
  lemma {:induction false} ProofsShowMembership(sha: Sha, level: seq<Digest>, path: seq<ProofEntry>, candidate: Digest)
    returns (x: seq<Byte>, y: seq<Byte>)
    requires level != [] && |path| == Height(|level|)
    requires forall k | 0 <= k < |path| :: path[k].OneSibling()
    requires Verify(sha, path, candidate) && ClaimedRoot(path, candidate) == Root(sha, level)
    ensures candidate in level
            || (NodeCollision(sha, x, y) && HashedInPath(path, candidate, x) && HashedInTree(sha, level, y))
    decreases |level|
  {
    x, y := [], [];
    if |level| > 1 {
      var next := NextLevel(sha, level);
      var parent := path[0].target;
      assert ClaimedRoot(path[1..], parent) == ClaimedRoot(path, candidate);
      x, y := ProofsShowMembership(sha, next, path[1..], parent);
      if parent in next {
        x, y := ChildShowsMembership(sha, level, path[0], candidate);
        assert EntryPreimage(path[0], candidate) == EntryPreimage(path[0], CandidateAt(path, candidate, 0));
      } else {
        HashedInRest(path, candidate, x);
      }
    }
  }

  lemma ChildShowsMembership(sha: Sha, level: seq<Digest>, entry: ProofEntry, candidate: Digest)
    returns (x: seq<Byte>, y: seq<Byte>)
    requires |level| > 1 && entry.OneSibling()
    requires Combine(sha, entry, candidate) in NextLevel(sha, level)
    ensures x == EntryPreimage(entry, candidate)
    ensures candidate in level || (NodeCollision(sha, x, y) && HashedInTree(sha, level, y))
  {
    var i: nat :| i < |NextLevel(sha, level)| && NextLevel(sha, level)[i] == Combine(sha, entry, candidate);
    x, y := EntryPreimage(entry, candidate), PairPreimage(level, i);
    if x == y {
      var left := level[2 * i];
      var right := if 2 * i + 1 < |level| then level[2 * i + 1] else level[2 * i];
      var l, r := entry.leftSibling, entry.rightSibling;
      PreimageInjective(if l.Some? then l.value else candidate, if r.Some? then r.value else candidate, left, right);
    }
  }

  /** The prefixes keep leaves and inner nodes apart. */
  lemma LeafIsNoNode(sha: Sha, item: seq<Byte>, left: Digest, right: Digest)
    requires HashLeaf(sha, item) == HashNode(sha, left, right)
    ensures Collision(sha, LEAF_PREFIX + item, Preimage(left, right))
  {
    assert (LEAF_PREFIX + item)[0] != Preimage(left, right)[0];
  }

  /** A leaf of the tree with an item's hash is that item's. */
  lemma LeafShowsItem(sha: Sha, items: seq<seq<Byte>>, item: seq<Byte>) returns (y: seq<Byte>)
    requires HashLeaf(sha, item) in Leaves(sha, items)
    ensures item in items || (Collision(sha, LEAF_PREFIX + item, y) && HashedByTree(sha, items, y))
  {
    var i: nat :| i < |items| && HashLeaf(sha, items[i]) == HashLeaf(sha, item);
    y := LEAF_PREFIX + items[i];
    assert (LEAF_PREFIX + item)[1..] == item && y[1..] == items[i];
  }

  /** A proof shorter than the tree is high takes a leaf for one of its inner nodes. */
  lemma {:induction false} ShortProofCollides(sha: Sha, level: seq<Digest>, path: seq<ProofEntry>, item: seq<Byte>)
    returns (x: seq<Byte>, y: seq<Byte>)
    requires level != [] && |path| < Height(|level|)
    requires forall k | 0 <= k < |path| :: path[k].OneSibling()
    requires VerifyItem(sha, path, item) && ClaimedRoot(path, HashLeaf(sha, item)) == Root(sha, level)
    ensures Collision(sha, x, y) && HashedByProof(sha, path, item, x) && HashedInTree(sha, level, y)
    decreases |level|
  {
    var next := NextLevel(sha, level);
    if |path| < Height(|next|) {
      x, y := ShortProofCollides(sha, next, path, item);
    } else {
      x, y := ProofsShowMembership(sha, next, path, HashLeaf(sha, item));
      if HashLeaf(sha, item) in next {
        var i: nat :| i < |next| && next[i] == HashLeaf(sha, item);
        var left := level[2 * i];
        var right := if 2 * i + 1 < |level| then level[2 * i + 1] else level[2 * i];
        LeafIsNoNode(sha, item, left, right);
        x, y := LEAF_PREFIX + item, PairPreimage(level, i);
      }
    }
  }

  /** A proof longer than the tree is high takes an inner node of its own for a leaf. */
  lemma {:induction false} LongProofCollides(sha: Sha, items: seq<seq<Byte>>, path: seq<ProofEntry>, candidate: Digest)
    returns (x: seq<Byte>, y: seq<Byte>)
    requires items != [] && |path| > Height(|items|)
    requires forall k | 0 <= k < |path| :: path[k].OneSibling()
    requires Verify(sha, path, candidate) && ClaimedRoot(path, candidate) == Root(sha, Leaves(sha, items))
    ensures Collision(sha, x, y) && HashedInPath(path, candidate, x) && HashedByTree(sha, items, y)
    decreases |path|
  {
    var parent := path[0].target;
    assert ClaimedRoot(path[1..], parent) == ClaimedRoot(path, candidate);
    if |path| - 1 > Height(|items|) {
      x, y := LongProofCollides(sha, items, path[1..], parent);
      HashedInRest(path, candidate, x);
    } else {
      var leaves := Leaves(sha, items);
      x, y := ProofsShowMembership(sha, leaves, path[1..], parent);
      if parent in leaves {
        var i: nat :| i < |leaves| && leaves[i] == parent;
        var l := if path[0].leftSibling.Some? then path[0].leftSibling.value else candidate;
        var r := if path[0].rightSibling.Some? then path[0].rightSibling.value else candidate;
        LeafIsNoNode(sha, items[i], l, r);
        x, y := EntryPreimage(path[0], CandidateAt(path, candidate, 0)), LEAF_PREFIX + items[i];
      } else {
        HashedInRest(path, candidate, x);
      }
    }
  }

  /**
  Any proof at all, of any length, read from the tree or made up: if it verifies an item and claims
  the root of the tree of `items`, then the item is one of them, or a string hashed while verifying
  and a different one hashed while building the tree have the same hash.
  */
  lemma VerifiedItemIsInTree(sha: Sha, items: seq<seq<Byte>>, path: seq<ProofEntry>, item: seq<Byte>)
    returns (x: seq<Byte>, y: seq<Byte>)
    requires items != []
    requires forall k | 0 <= k < |path| :: path[k].OneSibling()
    requires VerifyItem(sha, path, item)
    requires ClaimedRoot(path, HashLeaf(sha, item)) == Root(sha, Leaves(sha, items))
    ensures item in items
            || (Collision(sha, x, y) && HashedByProof(sha, path, item, x) && HashedByTree(sha, items, y))
  {
    var leaves, leaf := Leaves(sha, items), HashLeaf(sha, item);
    if |path| < Height(|items|) {
      x, y := ShortProofCollides(sha, leaves, path, item);
    } else if |path| > Height(|items|) {
      x, y := LongProofCollides(sha, items, path, leaf);
    } else {
      x, y := ProofsShowMembership(sha, leaves, path, leaf);
      if leaf in leaves {
        x := LEAF_PREFIX + item;
        y := LeafShowsItem(sha, items, item);
      }
    }
  }

  // ----- owned proofs -----

  /** The owned form of a proof looks at the siblings the other way round. */
  function CombineOwned(sha: Sha, entry: ProofEntry, candidate: Digest): Digest {
    HashNode(sha,
             if entry.rightSibling.Some? then entry.rightSibling.value else candidate,
             if entry.leftSibling.Some? then entry.leftSibling.value else candidate)
  }

  predicate VerifyOwned(sha: Sha, path: seq<ProofEntry>, candidate: Digest) {
    path == []
    || (CombineOwned(sha, path[0], candidate) == path[0].target && VerifyOwned(sha, path[1..], path[0].target))
  }

  function Sibling(entry: ProofEntry): Digest
    requires entry.OneSibling()
  {
    if entry.leftSibling.Some? then entry.leftSibling.value else entry.rightSibling.value
  }

  /** At every level of the proof the sibling is the node itself. */
  predicate SiblingsAreTwins(path: seq<ProofEntry>, candidate: Digest)
    requires forall k | 0 <= k < |path| :: path[k].OneSibling()
  {
    path == [] || (Sibling(path[0]) == candidate && SiblingsAreTwins(path[1..], path[0].target))
  }

  /** The bytes hashed by an entry over a candidate in the owned form. */
  function SwappedPreimage(entry: ProofEntry, candidate: Digest): seq<Byte> {
    Preimage(if entry.rightSibling.Some? then entry.rightSibling.value else candidate,
             if entry.leftSibling.Some? then entry.leftSibling.value else candidate)
  }

  /** At some entry of the path, the inner node it hashes and the same node the other way round collide. */
  ghost predicate SwapCollides(sha: Sha, path: seq<ProofEntry>, candidate: Digest) {
    exists k | 0 <= k < |path| ::
      NodeCollision(sha, EntryPreimage(path[k], CandidateAt(path, candidate, k)),
                    SwappedPreimage(path[k], CandidateAt(path, candidate, k)))
  }

  lemma SwapCollidesInRest(sha: Sha, path: seq<ProofEntry>, candidate: Digest)
    requires path != [] && SwapCollides(sha, path[1..], path[0].target)
    ensures SwapCollides(sha, path, candidate)
  {
    var rest, parent := path[1..], path[0].target;
    var k :| 0 <= k < |rest|
             && NodeCollision(sha, EntryPreimage(rest[k], CandidateAt(rest, parent, k)),
                              SwappedPreimage(rest[k], CandidateAt(rest, parent, k)));
    assert path[k + 1] == rest[k] && CandidateAt(path, candidate, k + 1) == CandidateAt(rest, parent, k);
  }

  /** An entry hashes the same bytes both ways exactly when the sibling is the candidate. */
  lemma SwapFixedIffTwin(entry: ProofEntry, candidate: Digest)
    requires entry.OneSibling()
    ensures EntryPreimage(entry, candidate) == SwappedPreimage(entry, candidate) <==> Sibling(entry) == candidate
  {
    if EntryPreimage(entry, candidate) == SwappedPreimage(entry, candidate) {
      var l := if entry.leftSibling.Some? then entry.leftSibling.value else candidate;
      var r := if entry.rightSibling.Some? then entry.rightSibling.value else candidate;
      PreimageInjective(l, r, r, l);
    }
  }

  /**
  Converting a proof to its owned form keeps it valid exactly when every sibling on the way equals
  the node beside it; in any other case the owned form rejects what the proof accepts. The one
  exception is a proof with an inner node whose hash is the same with its two halves swapped.
  */
  lemma {:induction false} OwnedProofsVerifyIffTwins(sha: Sha, path: seq<ProofEntry>, candidate: Digest)
    requires forall k | 0 <= k < |path| :: path[k].OneSibling()
    requires Verify(sha, path, candidate)
    ensures SwapCollides(sha, path, candidate)
            || (VerifyOwned(sha, path, candidate) <==> SiblingsAreTwins(path, candidate))
  {
    if path != [] {
      var entry := path[0];
      OwnedProofsVerifyIffTwins(sha, path[1..], entry.target);
      if SwapCollides(sha, path[1..], entry.target) {
        SwapCollidesInRest(sha, path, candidate);
      } else {
        SwapFixedIffTwin(entry, candidate);
        assert CandidateAt(path, candidate, 0) == candidate;
      }
    }
  }

  /**
  For instance the proof of the first of two different items: it verifies, and its owned form does not, unless
  the two leaves collide or an inner node of the proof does with itself the other way round.
  */
  lemma OwnedProofCanFail(sha: Sha, a: seq<Byte>, b: seq<Byte>)
    requires a != b
    ensures var path := Path(sha, Leaves(sha, [a, b]), 0);
            && VerifyItem(sha, path, a)
            && (|| !VerifyOwned(sha, path, HashLeaf(sha, a))
                || Collision(sha, LEAF_PREFIX + a, LEAF_PREFIX + b)
                || SwapCollides(sha, path, HashLeaf(sha, a)))
  {
    var leaves := Leaves(sha, [a, b]);
    var path := Path(sha, leaves, 0);
    FoundPathsVerify(sha, [a, b], 0);
    PathStep(sha, leaves, 0);
    forall k | 0 <= k < |path| ensures path[k].OneSibling() {
      PathsHaveOneSibling(sha, leaves, 0, k);
    }
    OwnedProofsVerifyIffTwins(sha, path, leaves[0]);
    assert (LEAF_PREFIX + a)[1..] == a && (LEAF_PREFIX + b)[1..] == b;
  }
}
