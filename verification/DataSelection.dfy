/** Splitting a round's batch among its trainers, and recomputing where a step's data starts. */
module DataSelection {
  import opened Wrappers
  import opened Bytes
  import opened Protocol
  import opened Committees
  import opened DeterministicShuffle
  import opened Intervals
  import opened Sequences
  import opened CoordinatorModel
  import opened CoordinatorInvariant
  import opened CoordinatorWitnesses
  import opened CoordinatorSteps
  import opened CoordinatorRuns
  import opened CoordinatorEpochs

  // ----- shares of a batch -----

  /** The share of the `i`-th of `n` trainers: the first `total % n` get one more than the rest. */
  function Share(total: nat, n: nat, i: nat): nat
    requires 0 < n
  {
    total / n + if i < total % n then 1 else 0
  }

  /** Where the share of the `i`-th trainer starts. */
  function Offset(total: nat, n: nat, i: nat): nat
    requires 0 < n
  {
    if i == 0 then 0 else Offset(total, n, i - 1) + Share(total, n, i - 1)
  }

  /** How many trainers get anything. */
  function BatchCount(total: nat, n: nat): nat {
    if total < n then total else n
  }

  function BatchOf(start: nat, total: nat, n: nat, i: nat): ClosedInterval
    requires 0 < n
  {
    ClosedInterval(start + Offset(total, n, i), start + Offset(total, n, i + 1) - 1)
  }

  /** The batches of a round, in order: the first `upTo` non-empty shares, end to end. */
  function Batches(start: nat, total: nat, n: nat, upTo: nat): (s: seq<ClosedInterval>)
    requires 0 < n
    ensures |s| == upTo
  {
    if upTo == 0 then [] else Batches(start, total, n, upTo - 1) + [BatchOf(start, total, n, upTo - 1)]
  }

  function RoundBatches(start: nat, total: nat, n: nat): (s: seq<ClosedInterval>)
    requires 0 < n
    ensures |s| == BatchCount(total, n)
  {
    Batches(start, total, n, BatchCount(total, n))
  }

  lemma {:induction false} BatchAtIndex(start: nat, total: nat, n: nat, upTo: nat, i: nat)
    requires 0 < n && i < upTo
    ensures Batches(start, total, n, upTo)[i] == BatchOf(start, total, n, i)
  {
    if i < upTo - 1 {
      BatchAtIndex(start, total, n, upTo - 1, i);
    }
  }

  lemma {:induction false} OffsetClosedForm(total: nat, n: nat, i: nat)
    requires 0 < n
    ensures Offset(total, n, i) == i * (total / n) + if i < total % n then i else total % n
  {
    if i > 0 {
      OffsetClosedForm(total, n, i - 1);
      assert (i - 1) * (total / n) + total / n == i * (total / n);
    }
  }

  /** Nobody's share is left over and nobody is served twice: the shares add up to the batch. */
  lemma SharesAddUp(total: nat, n: nat)
    requires 0 < n
    ensures Offset(total, n, n) == total
    ensures Offset(total, n, BatchCount(total, n)) == total
  {
    OffsetClosedForm(total, n, n);
    assert n * (total / n) + total % n == total;
    if total < n {
      OffsetClosedForm(total, n, total);
      SmallQuotient(total, n);
    }
  }

  lemma SmallQuotient(total: nat, n: nat)
    requires total < n
    ensures total / n == 0 && total % n == total
  {
  }

  lemma ShareIsEmptyIff(total: nat, n: nat, i: nat)
    requires i < n
    ensures Share(total, n, i) == 0 <==> i >= BatchCount(total, n)
  {
    if total < n {
      SmallQuotient(total, n);
    } else {
      assert total / n >= 1;
    }
  }

  lemma {:induction false} OffsetMonotone(total: nat, n: nat, i: nat, j: nat)
    requires 0 < n && i <= j
    ensures Offset(total, n, i) <= Offset(total, n, j)
  {
    if i < j {
      OffsetMonotone(total, n, i, j - 1);
    }
  }

  predicate InSomeBatch(bs: seq<ClosedInterval>, point: int) {
    exists i :: 0 <= i < |bs| && bs[i].Contains(point)
  }

  /** Batches laid end to end over `[start, start + total)`, none of them empty. */
  ghost predicate Tiles(bs: seq<ClosedInterval>, start: int, total: nat) {
    && (forall i | 0 <= i < |bs| :: bs[i].start <= bs[i].end)
    && (forall i, j | 0 <= i < j < |bs| :: bs[i].end < bs[j].start)
    && (forall i, j | 0 <= i < j < |bs| && j == i + 1 :: bs[j].start == bs[i].end + 1)
    && (forall i | 0 <= i < |bs| :: start <= bs[i].start && bs[i].end < start + total)
    && (forall point {:trigger InSomeBatch(bs, point)} | start <= point < start + total :: InSomeBatch(bs, point))
  }

  predicate SizesWithinOne(bs: seq<ClosedInterval>) {
    forall i, j | 0 <= i < |bs| && 0 <= j < |bs| :: (bs[i].end - bs[i].start) - (bs[j].end - bs[j].start) <= 1
  }

  lemma BatchMeaning(start: nat, total: nat, n: nat, i: nat)
    requires 0 < n && i < BatchCount(total, n)
    ensures var b := RoundBatches(start, total, n)[i];
            && b == BatchOf(start, total, n, i)
            && b.end - b.start == Share(total, n, i) - 1 >= 0
            && b.end < start + total
  {
    BatchAtIndex(start, total, n, BatchCount(total, n), i);
    ShareIsEmptyIff(total, n, i);
    SharesAddUp(total, n);
    OffsetMonotone(total, n, i + 1, BatchCount(total, n));
  }

  lemma BatchesInOrder(start: nat, total: nat, n: nat, i: nat, j: nat)
    requires 0 < n && i < j < BatchCount(total, n)
    ensures var bs := RoundBatches(start, total, n);
            bs[i].end < bs[j].start && (j == i + 1 ==> bs[j].start == bs[i].end + 1)
  {
    BatchMeaning(start, total, n, i);
    BatchMeaning(start, total, n, j);
    OffsetMonotone(total, n, i + 1, j);
  }

  lemma BatchesCover(start: nat, total: nat, n: nat, point: int)
    requires 0 < n && start <= point < start + total
    ensures InSomeBatch(RoundBatches(start, total, n), point)
  {
    SharesAddUp(total, n);
    var i := Locate(total, n, BatchCount(total, n), point - start);
    BatchMeaning(start, total, n, i);
    assert RoundBatches(start, total, n)[i].Contains(point);
  }

  /**
  The batches partition the round's data: there is one for every trainer while the data lasts, none is empty, each
  starts where the last one ended, together they cover it exactly, and no two sizes differ by more than one.
  */
  lemma BatchesPartition(start: nat, total: nat, n: nat)
    requires 0 < n
    ensures |RoundBatches(start, total, n)| == if total < n then total else n
    ensures Tiles(RoundBatches(start, total, n), start, total)
    ensures SizesWithinOne(RoundBatches(start, total, n))
  {
    var bs := RoundBatches(start, total, n);
    forall i: nat | i < |bs|
      ensures bs[i].start <= bs[i].end && bs[i].end - bs[i].start == Share(total, n, i) - 1
      ensures start <= bs[i].start && bs[i].end < start + total
    {
      BatchMeaning(start, total, n, i);
    }
    forall i: nat, j: nat | i < j < |bs|
      ensures bs[i].end < bs[j].start && (j == i + 1 ==> bs[j].start == bs[i].end + 1)
    {
      BatchesInOrder(start, total, n, i, j);
    }
    forall point {:trigger InSomeBatch(bs, point)} | start <= point < start + total
      ensures InSomeBatch(bs, point)
    {
      BatchesCover(start, total, n, point);
    }
  }

  /** The larger batches come first. */
  lemma LargerBatchesFirst(start: nat, total: nat, n: nat, i: nat, j: nat)
    requires 0 < n && i < j < |RoundBatches(start, total, n)|
    ensures var bs := RoundBatches(start, total, n);
            bs[i].end - bs[i].start >= bs[j].end - bs[j].start
  {
    BatchMeaning(start, total, n, i);
    BatchMeaning(start, total, n, j);
  }

  lemma {:induction false} Locate(total: nat, n: nat, upTo: nat, point: nat) returns (i: nat)
    requires 0 < n && point < Offset(total, n, upTo)
    ensures i < upTo && Offset(total, n, i) <= point < Offset(total, n, i + 1)
  {
    if point >= Offset(total, n, upTo - 1) {
      i := upTo - 1;
    } else {
      i := Locate(total, n, upTo - 1, point);
    }
  }

  method GetBatchIdsForRound(round: Round, s: State, numTrainerNodes: nat) returns (ids: seq<ClosedInterval>)
    requires 0 < numTrainerNodes
    ensures ids == RoundBatches(round.dataIndex, s.BatchAt(round.dataIndex), numTrainerNodes)
  {
    var n := numTrainerNodes;
    var start := round.dataIndex;
    var total := s.BatchAt(round.dataIndex);
    var end := start + total;
    var baseSize := total / n;
    var remainder := total % n;
    ghost var count := BatchCount(total, n);
    ids := [];
    var current := start;
    for i := 0 to n
      invariant current == start + Offset(total, n, i)
      invariant |ids| == if i < count then i else count
      invariant ids == Batches(start, total, n, |ids|)
    {
      ShareIsEmptyIff(total, n, i);
      var nodeSize := baseSize + if i < remainder then 1 else 0;
      assert nodeSize == Share(total, n, i);
      if nodeSize > 0 {
        var batchEnd := current + nodeSize - 1;
        assert ClosedInterval(current, batchEnd) == BatchOf(start, total, n, i);
        ids := ids + [ClosedInterval(current, batchEnd)];
        current := batchEnd + 1;
        if current >= end {
          FullCountOnce(total, n, i + 1);
          break;
        }
      }
    }
  }

  /** Once the whole batch is handed out, so is every non-empty share. */
  lemma FullCountOnce(total: nat, n: nat, i: nat)
    requires 0 < n && i <= BatchCount(total, n) && Offset(total, n, i) >= total
    ensures i == BatchCount(total, n)
  {
    if i < BatchCount(total, n) {
      SharesAddUp(total, n);
      ShareIsEmptyIff(total, n, i);
      OffsetMonotone(total, n, i + 1, BatchCount(total, n));
    }
  }

  // ----- assigning the batches -----

  /** One entry of the map from batches to nodes. */
  datatype Assignment = Assignment(batch: ClosedInterval, node: NodeId)

  predicate BatchBefore(a: ClosedInterval, b: ClosedInterval) {
    a.start < b.start || (a.start == b.start && a.end < b.end)
  }

  /** Inserts into the map, kept in the order of its keys; an equal key is overwritten. */
  function InsertBatch(m: seq<Assignment>, batch: ClosedInterval, node: NodeId): seq<Assignment> {
    if m == [] || BatchBefore(m[|m| - 1].batch, batch) then m + [Assignment(batch, node)]
    else if m[|m| - 1].batch == batch then m[..|m| - 1] + [Assignment(batch, node)]
    else InsertBatch(m[..|m| - 1], batch, node) + [m[|m| - 1]]
  }

  predicate IsTrainer(sha: Sha, selection: CommitteeSelection, i: nat)
    requires i < selection.totalNodes
  {
    selection.GetCommittee(sha, i).committee == Trainer
  }

  /** The clients that the committee makes trainers, in client order. */
  function Trainers(sha: Sha, selection: CommitteeSelection, clients: seq<Client>): seq<Client>
    requires |clients| <= selection.totalNodes
  {
    if clients == [] then []
    else
      var n := |clients| - 1;
      Trainers(sha, selection, clients[..n])
      + if IsTrainer(sha, selection, n) then [clients[n]] else []
  }

  /** Nobody has a duty that the assignment does not cover; the source asserts this. */
  predicate DutiesCovered(sha: Sha, s: State, selection: CommitteeSelection)
    requires s.epoch.roundsHead < NUM_STORED_ROUNDS && |s.epoch.clients| <= selection.totalNodes
  {
    forall i: nat | i < |s.epoch.clients| ::
      && (selection.GetCommittee(sha, i).committee == TieBreaker ==> Behind(s.epoch, 0).tieBreakerTasks == 0)
      && (selection.GetCommittee(sha, i).committee == Verifier ==> s.config.verificationPercent == 0)
  }

  /** The `i`-th batch goes to the `i`-th trainer of the given order, and there are no others. */
  predicate Assigns(assignments: seq<Assignment>, batches: seq<ClosedInterval>, order: seq<Client>) {
    && |assignments| == |batches| <= |order|
    && forall i | 0 <= i < |batches| :: assignments[i] == Assignment(batches[i], order[i].id)
  }

  /** The assignment for the current round: its batches for the trainers, in their shuffled order. */
  predicate Assigned(sha: Sha, s: State, selection: CommitteeSelection, assignments: seq<Assignment>) {
    && s.epoch.roundsHead < NUM_STORED_ROUNDS && |s.epoch.clients| <= selection.totalNodes
    && var round := Behind(s.epoch, 0);
       var order := Shuffled(Trainers(sha, selection, s.epoch.clients), round.randomSeed);
       if order == [] then assignments == []
       else Assigns(assignments, RoundBatches(round.dataIndex, s.BatchAt(round.dataIndex), |order|), order)
  }

  method CollectTrainers(sha: Sha, s: State, selection: CommitteeSelection) returns (trainers: seq<Client>)
    requires s.epoch.roundsHead < NUM_STORED_ROUNDS
    requires |s.epoch.clients| <= selection.totalNodes
    requires DutiesCovered(sha, s, selection)
    ensures trainers == Trainers(sha, selection, s.epoch.clients)
  {
    var clients := s.epoch.clients;
    trainers := [];
    for i := 0 to |clients|
      invariant trainers == Trainers(sha, selection, clients[..i])
    {
      assert clients[..i + 1][..i] == clients[..i];
      var committee := selection.GetCommittee(sha, i).committee;
      if committee == Trainer {
        trainers := trainers + [clients[i]];
      } else if committee == TieBreaker {
        assert Behind(s.epoch, 0).tieBreakerTasks == 0;
      } else {
        assert s.config.verificationPercent == 0;
      }
    }
    assert clients[..|clients|] == clients;
  }

  method AssignDataForState(sha: Sha, s: State, selection: CommitteeSelection) returns (assignments: seq<Assignment>)
    requires s.epoch.roundsHead < NUM_STORED_ROUNDS
    requires |s.epoch.clients| <= selection.totalNodes
    requires DutiesCovered(sha, s, selection)
    ensures Assigned(sha, s, selection, assignments)
  {
    var round := s.epoch.rounds[s.epoch.roundsHead];
    var trainers := CollectTrainers(sha, s, selection);
    if |trainers| == 0 {
      return [];
    }
    var nodes := new Client[|trainers|](i requires 0 <= i < |trainers| => trainers[i]);
    assert nodes[..] == trainers;
    Shuffle(nodes, round.randomSeed);
    assignments := HandOut(nodes[..], round.dataIndex, s.BatchAt(round.dataIndex));
  }

  method HandOut(order: seq<Client>, start: nat, total: nat) returns (assignments: seq<Assignment>)
    requires order != []
    ensures Assigns(assignments, RoundBatches(start, total, |order|), order)
  {
    var n := |order|;
    var baseSize := total / n;
    var remainder := total % n;
    ghost var count := BatchCount(total, n);
    assignments := [];
    var current := start;
    for i := 0 to n
      invariant current == start + Offset(total, n, i)
      invariant |assignments| == if i < count then i else count
      invariant forall k | 0 <= k < |assignments| ::
          assignments[k] == Assignment(BatchOf(start, total, n, k), order[k].id)
    {
      ShareIsEmptyIff(total, n, i);
      var nodeSize := baseSize + if i < remainder then 1 else 0;
      assert nodeSize == Share(total, n, i);
      if nodeSize > 0 {
        var endIndex := current + nodeSize - 1;
        var batch := ClosedInterval(current, endIndex);
        assert batch == BatchOf(start, total, n, i);
        if i > 0 {
          ShareIsEmptyIff(total, n, i - 1);
          assert BatchBefore(assignments[i - 1].batch, batch);
        }
        assignments := InsertBatch(assignments, batch, order[i].id);
        current := endIndex + 1;
      }
    }
    forall k | 0 <= k < count
      ensures RoundBatches(start, total, n)[k] == BatchOf(start, total, n, k)
    {
      BatchAtIndex(start, total, n, count, k);
    }
  }

  /** With no tie breakers and no verifiers everybody trains. */
  lemma {:induction false} EverybodyTrains(sha: Sha, selection: CommitteeSelection, clients: seq<Client>)
    requires |clients| <= selection.totalNodes
    requires selection.tieBreakerNodes == 0 && selection.verifierNodes == 0
    ensures Trainers(sha, selection, clients) == clients
  {
    if clients != [] {
      var n := |clients| - 1;
      EverybodyTrains(sha, selection, clients[..n]);
      assert clients == clients[..n] + [clients[n]];
    }
  }

  function Below(all: set<nat>, n: nat): set<nat> {
    set i | i in all && i < n
  }

  lemma BelowStep(all: set<nat>, n: nat)
    ensures |Below(all, n + 1)| == |Below(all, n)| + if n in all then 1 else 0
  {
    if n in all {
      assert Below(all, n + 1) == Below(all, n) + {n};
    } else {
      assert Below(all, n + 1) == Below(all, n);
    }
  }

  lemma {:induction false} TrainersCount(sha: Sha, selection: CommitteeSelection, clients: seq<Client>)
    requires |clients| <= selection.totalNodes
    ensures |Trainers(sha, selection, clients)| == |Below(selection.Members(sha, Trainer), |clients|)|
  {
    var members := selection.Members(sha, Trainer);
    if clients == [] {
      assert Below(members, 0) == {};
    } else {
      var n := |clients| - 1;
      TrainersCount(sha, selection, clients[..n]);
      BelowStep(members, n);
      assert IsTrainer(sha, selection, n) <==> n in members;
    }
  }

  /**
  The trainers found by asking every client are as many as the selection says there are, so a
  node that knows only that number lists the same batches as one that computes the assignment.
  */
  lemma TrainersMatchSelection(sha: Sha, tieBreakers: nat, witnesses: nat, percent: nat, clients: seq<Client>,
                               seed: nat)
    requires New(sha, tieBreakers, witnesses, percent, |clients|, seed).Success?
    ensures var selection := New(sha, tieBreakers, witnesses, percent, |clients|, seed).value;
            |Trainers(sha, selection, clients)|
            == selection.totalNodes - selection.tieBreakerNodes - selection.verifierNodes
  {
    var selection := New(sha, tieBreakers, witnesses, percent, |clients|, seed).value;
    SplitIsExact(sha, tieBreakers, witnesses, percent, |clients|, seed);
    TrainersCount(sha, selection, clients);
    var members := selection.Members(sha, Trainer);
    assert Below(members, |clients|) == members;
  }

  // ----- one node's batches -----

  function BatchIdsForNode(assignments: seq<Assignment>, node: NodeId): seq<ClosedInterval> {
    if assignments == [] then []
    else
      var n := |assignments| - 1;
      BatchIdsForNode(assignments[..n], node)
      + if assignments[n].node == node then [assignments[n].batch] else []
  }

  lemma {:induction false} NoBatchesForStrangers(assignments: seq<Assignment>, node: NodeId)
    requires forall i | 0 <= i < |assignments| :: assignments[i].node != node
    ensures BatchIdsForNode(assignments, node) == []
  {
    if assignments != [] {
      NoBatchesForStrangers(assignments[..|assignments| - 1], node);
    }
  }

  lemma {:induction false} OneBatchEach(assignments: seq<Assignment>, i: nat)
    requires i < |assignments|
    requires forall j | 0 <= j < |assignments| && j != i :: assignments[j].node != assignments[i].node
    ensures BatchIdsForNode(assignments, assignments[i].node) == [assignments[i].batch]
  {
    var n := |assignments| - 1;
    if i < n {
      assert assignments[..n][i] == assignments[i];
      OneBatchEach(assignments[..n], i);
    } else {
      NoBatchesForStrangers(assignments[..n], assignments[i].node);
    }
  }

  lemma OneListEach(assignments: seq<Assignment>, batches: seq<ClosedInterval>, order: seq<Client>, i: nat)
    requires Assigns(assignments, batches, order) && DistinctIds(order) && i < |order|
    ensures BatchIdsForNode(assignments, order[i].id) == if i < |batches| then [batches[i]] else []
  {
    if i < |batches| {
      OneBatchEach(assignments, i);
    } else {
      NoBatchesForStrangers(assignments, order[i].id);
    }
  }

  /** Reordering keeps distinct ids distinct. */
  lemma ShuffleKeepsIdsDistinct(clients: seq<Client>, seed: nat)
    requires DistinctIds(clients)
    ensures DistinctIds(Shuffled(clients, seed))
  {
    var order := Shuffled(clients, seed);
    ShuffledIsPermutation(clients, seed);
    forall i, j | 0 <= i < j < |order|
      ensures order[i].id != order[j].id
    {
      if order[i].id == order[j].id {
        assert order[i] in multiset(clients) && order[j] in multiset(clients);
        CountedTwice(order, i, j);
        CountedOnce(clients, order[i]);
      }
    }
  }

  /**
  With distinct ids, shuffled in any way, the nodes' own lists partition the round's batches: the trainer at
  position `i` of the order has exactly the `i`-th batch, or nothing when there are fewer batches.
  */
  lemma NodeListsPartition(assignments: seq<Assignment>, batches: seq<ClosedInterval>, trainers: seq<Client>, seed: nat,
                           i: nat)
    requires Assigns(assignments, batches, Shuffled(trainers, seed)) && DistinctIds(trainers) && i < |trainers|
    ensures BatchIdsForNode(assignments, Shuffled(trainers, seed)[i].id) == if i < |batches| then [batches[i]] else []
  {
    ShuffleKeepsIdsDistinct(trainers, seed);
    OneListEach(assignments, batches, Shuffled(trainers, seed), i);
  }

  /** With a batch for everybody, the last batch goes to the trainer that the generator draws first. */
  lemma LastBatchGoesToDrawn(assignments: seq<Assignment>, batches: seq<ClosedInterval>, trainers: seq<Client>,
                             seed: nat)
    requires Assigns(assignments, batches, Shuffled(trainers, seed)) && |batches| == |trainers| > 0
    ensures var n := |trainers|;
            var draw := (seed * 6364136223846793005 + 1442695040888963407) % 0x1_0000_0000_0000_0000;
            assignments[n - 1] == Assignment(batches[n - 1], trainers[draw % n].id)
  {
    LastTakesDrawn(trainers, seed);
  }

  // ----- a round from end to end -----

  /** In a reachable round without verifiers the assignment has what it asks for, and everybody trains. */
  lemma RoundIsAssignable(h: Hashes, s: State)
    requires Inv(h, s) && InRound(s) && s.config.verificationPercent == 0
    ensures FromCoordinator(h, s, 0).Success?
    ensures var selection := FromCoordinator(h, s, 0).value;
            && selection.totalNodes == |s.epoch.clients| > 0
            && DutiesCovered(h.sha, s, selection)
            && Trainers(h.sha, selection, s.epoch.clients) == s.epoch.clients
  {
    ElectionSucceedsInRounds(h, s);
    EverybodyTrains(h.sha, FromCoordinator(h, s, 0).value, s.epoch.clients);
  }

  /** The node has the data index in one of its batches. */
  predicate TrainsOn(assignments: seq<Assignment>, node: NodeId, point: int) {
    InSomeBatch(BatchIdsForNode(assignments, node), point)
  }

  lemma SameClient(clients: seq<Client>, order: seq<Client>, c: Client) returns (i: nat)
    requires multiset(clients) == multiset(order) && c in order
    ensures i < |clients| && clients[i] == c
  {
    assert c in multiset(clients);
    i :| i < |clients| && clients[i] == c;
  }

  /** Who trains on a data index: the client at that position of the order whose batch contains it, and nobody else. */
  lemma TrainerAt(assignments: seq<Assignment>, batches: seq<ClosedInterval>, order: seq<Client>, i: nat, point: int)
    requires Assigns(assignments, batches, order) && DistinctIds(order) && i < |order|
    ensures TrainsOn(assignments, order[i].id, point) <==> i < |batches| && batches[i].Contains(point)
  {
    OneListEach(assignments, batches, order, i);
    if i < |batches| {
      assert [batches[i]][0] == batches[i];
      assert batches[i].Contains(point) ==> [batches[i]][0].Contains(point);
    }
  }

  /** The data index belongs to exactly one client, `trainer`, if it lies between `start` and `end`, else to none. */
  predicate OneTrainer(assignments: seq<Assignment>, clients: seq<Client>, start: int, end: int, point: int,
                       trainer: int)
  {
    if start <= point < end then
      && 0 <= trainer < |clients|
      && forall j | 0 <= j < |clients| :: TrainsOn(assignments, clients[j].id, point) <==> j == trainer
    else
      forall j | 0 <= j < |clients| :: !TrainsOn(assignments, clients[j].id, point)
  }

  /** The batch that has the data index, or minus one where there is none. */
  lemma LocateBatch(start: nat, total: nat, n: nat, point: int) returns (place: int)
    requires 0 < n
    ensures -1 <= place < BatchCount(total, n) && (place >= 0 <==> start <= point < start + total)
    ensures var batches := RoundBatches(start, total, n);
            forall k | 0 <= k < |batches| :: batches[k].Contains(point) <==> k == place
  {
    var batches := RoundBatches(start, total, n);
    BatchesPartition(start, total, n);
    place := -1;
    if start <= point < start + total {
      assert InSomeBatch(batches, point);
      place :| 0 <= place < |batches| && batches[place].Contains(point);
    }
  }

  lemma PointIsTrained(assignments: seq<Assignment>, clients: seq<Client>, order: seq<Client>, start: nat, total: nat,
                       point: int)
    returns (trainer: nat)
    requires clients != [] && Assigns(assignments, RoundBatches(start, total, |clients|), order)
    requires DistinctIds(order) && DistinctIds(clients)
    requires multiset(clients) == multiset(order) && |order| == |clients|
    ensures OneTrainer(assignments, clients, start, start + total, point, trainer)
  {
    var place := LocateBatch(start, total, |clients|, point);
    trainer := 0;
    if place >= 0 {
      trainer := SameClient(clients, order, order[place]);
    }
    forall j | 0 <= j < |clients|
      ensures TrainsOn(assignments, clients[j].id, point) <==> place >= 0 && j == trainer
    {
      assert clients[j] in multiset(order);
      var i := SameClient(order, clients, clients[j]);
      TrainerAt(assignments, RoundBatches(start, total, |clients|), order, i, point);
    }
  }

  lemma ShuffledClientsShare(assignments: seq<Assignment>, clients: seq<Client>, seed: nat, start: nat, total: nat,
                             point: int)
    returns (trainer: nat)
    requires clients != [] && DistinctIds(clients)
    requires Assigns(assignments, RoundBatches(start, total, |clients|), Shuffled(clients, seed))
    ensures var batches := RoundBatches(start, total, |clients|);
            |assignments| == |batches| && forall k | 0 <= k < |batches| :: assignments[k].batch == batches[k]
    ensures OneTrainer(assignments, clients, start, start + total, point, trainer)
  {
    ShuffledIsPermutation(clients, seed);
    ShuffleKeepsIdsDistinct(clients, seed);
    trainer := PointIsTrained(assignments, clients, Shuffled(clients, seed), start, total, point);
  }

  /** The i-th batch of the round's data goes to the i-th of the shuffled clients. */
  predicate SharesRound(s: State, assignments: seq<Assignment>)
    requires s.epoch.roundsHead < NUM_STORED_ROUNDS
  {
    && s.epoch.clients != []
    && Assigns(assignments, RoundBatches(RoundStart(s), RoundEnd(s) - RoundStart(s), |s.epoch.clients|),
               Shuffled(s.epoch.clients, Behind(s.epoch, 0).randomSeed))
  }

  lemma AssignedInRound(h: Hashes, s: State, assignments: seq<Assignment>)
    requires Inv(h, s) && InRound(s) && s.config.verificationPercent == 0
    requires FromCoordinator(h, s, 0).Success? && Assigned(h.sha, s, FromCoordinator(h, s, 0).value, assignments)
    ensures SharesRound(s, assignments)
  {
    RoundIsAssignable(h, s);
    assert Shuffled(s.epoch.clients, Behind(s.epoch, 0).randomSeed) != [];
  }

  /**
  The keys of the assignment, in order, are the round's batches for as many trainers as there are clients, and the
  data index is in the list of exactly one listed client, `trainer`, if it is the round's, and else in nobody's.
  */
  predicate Partitions(s: State, assignments: seq<Assignment>, point: int, trainer: nat)
    requires s.epoch.roundsHead < NUM_STORED_ROUNDS && s.epoch.clients != []
  {
    var batches := RoundBatches(RoundStart(s), RoundEnd(s) - RoundStart(s), |s.epoch.clients|);
    && |assignments| == |batches| && (forall k | 0 <= k < |batches| :: assignments[k].batch == batches[k])
    && OneTrainer(assignments, s.epoch.clients, RoundStart(s), RoundEnd(s), point, trainer)
  }

  lemma SharedRoundIsPartitioned(s: State, assignments: seq<Assignment>, point: int) returns (trainer: nat)
    requires s.epoch.roundsHead < NUM_STORED_ROUNDS && SharesRound(s, assignments) && DistinctIds(s.epoch.clients)
    ensures Partitions(s, assignments, point, trainer)
  {
    trainer := ClientsShareRange(assignments, s.epoch.clients, Behind(s.epoch, 0).randomSeed,
                                 RoundStart(s), RoundEnd(s), point);
  }

  /**
  In every reachable round without verifiers, with distinct client ids: the keys of the assignment, in order, are the
  round's batches for that many trainers, the ones that every node lists for itself; and every index of the
  round's data is in the list of exactly one listed client, every other index in nobody's.
  */
  lemma RoundIsPartitioned(h: Hashes, s: State, assignments: seq<Assignment>, point: int) returns (trainer: nat)
    requires Inv(h, s) && InRound(s) && s.config.verificationPercent == 0
    ensures FromCoordinator(h, s, 0).Success? && |s.epoch.clients| > 0
    ensures DistinctIds(s.epoch.clients) && Assigned(h.sha, s, FromCoordinator(h, s, 0).value, assignments) ==>
              Partitions(s, assignments, point, trainer)
  {
    trainer := 0;
    RoundIsAssignable(h, s);
    if DistinctIds(s.epoch.clients) && Assigned(h.sha, s, FromCoordinator(h, s, 0).value, assignments) {
      AssignedInRound(h, s, assignments);
      trainer := SharedRoundIsPartitioned(s, assignments, point);
    }
  }

  lemma ClientsShareRange(assignments: seq<Assignment>, clients: seq<Client>, seed: nat, start: nat, end: nat,
                          point: int)
    returns (trainer: nat)
    requires clients != [] && DistinctIds(clients) && start <= end
    requires Assigns(assignments, RoundBatches(start, end - start, |clients|), Shuffled(clients, seed))
    ensures var batches := RoundBatches(start, end - start, |clients|);
            |assignments| == |batches| && forall k | 0 <= k < |batches| :: assignments[k].batch == batches[k]
    ensures OneTrainer(assignments, clients, start, end, point, trainer)
  {
    trainer := ShuffledClientsShare(assignments, clients, seed, start, end - start, point);
  }

  /**
  From the admission of an epoch with distinct pending ids, over any run within the epoch: whenever it is in a round,
  without verifiers, the assignment gives every index of the round's data to exactly one listed client.
  */
  lemma AdmittedClientsShareRounds(h: Hashes, s: State, pending: seq<NodeId>, now: nat, seed: nat, events: seq<Event>,
                                   assignments: seq<Assignment>, point: int)
    returns (trainer: nat)
    requires Inv(h, s) && s.runState == WaitingForMembers && s.config.verificationPercent == 0
    requires forall i, j | 0 <= i < j < |pending| :: pending[i] != pending[j]
    ensures Tick(s, Some(pending), now, seed).Running?
    ensures var admitted := Tick(s, Some(pending), now, seed).value.state;
            admitted.runState == Warmup && Run(h, admitted, events).Running? && WithinEpoch(h, admitted, events)
            && InRound(Run(h, admitted, events).value) ==>
              var t := Run(h, admitted, events).value;
              FromCoordinator(h, t, 0).Success?
              && (Assigned(h.sha, t, FromCoordinator(h, t, 0).value, assignments) ==>
                    t.epoch.roundsHead < NUM_STORED_ROUNDS
                    && OneTrainer(assignments, t.epoch.clients, RoundStart(t), RoundEnd(t), point, trainer))
  {
    trainer := 0;
    IdsStayDistinct(h, s, pending, now, seed, events);
    TickKeepsInv(h, s, Some(pending), now, seed);
    ApplyKeepsConfig(h, s, TickEvent(Some(pending), now, seed));
    var admitted := Tick(s, Some(pending), now, seed).value.state;
    if admitted.runState == Warmup && Run(h, admitted, events).Running? && WithinEpoch(h, admitted, events)
       && InRound(Run(h, admitted, events).value)
    {
      RunsAreSafe(h, admitted, events);
      RunKeepsConfig(h, admitted, events);
      trainer := RoundIsPartitioned(h, Run(h, admitted, events).value, assignments, point);
    }
  }

  // ----- the data cursor -----

  /** The configured batch of a step whose data starts at the index. */
  function ConfiguredBatch(config: CheckedConfig, sequenceLength: nat, dataIndex: nat): nat {
    config.BatchSize(dataIndex * sequenceLength)
  }

  /** The data consumed by the first `n` steps, straight from the configured schedule. */
  function ConfiguredCursor(config: CheckedConfig, sequenceLength: nat, n: nat): nat {
    if n == 0 then 0
    else
      var before := ConfiguredCursor(config, sequenceLength, n - 1);
      before + ConfiguredBatch(config, sequenceLength, before)
  }

  /** Where the data of a step starts, recomputed from the first step; zero outside the run. */
  function DataIndexForStep(config: CheckedConfig, sequenceLength: nat, step: nat): nat {
    if step <= 1 || step > config.totalSteps then 0 else ConfiguredCursor(config, sequenceLength, step - 1)
  }

  /** One turn of the loop. */
  method NextDataIndex(config: CheckedConfig, sequenceLength: nat, index: nat) returns (next: nat)
    ensures next == index + ConfiguredBatch(config, sequenceLength, index)
  {
    var tokens := index * sequenceLength;
    var batchSize := config.BatchSize(tokens);
    next := index + batchSize;
  }

  method GetDataIndexForStep(s: State, targetStep: nat) returns (index: nat)
    ensures index == DataIndexForStep(s.config, s.sequenceLength, targetStep)
  {
    if targetStep <= 1 || targetStep > s.config.totalSteps {
      return 0;
    }
    index := 0;
    for step := 1 to targetStep
      invariant index == ConfiguredCursor(s.config, s.sequenceLength, step - 1)
    {
      index := NextDataIndex(s.config, s.sequenceLength, index);
    }
  }

  lemma {:induction false} ScheduledCursor(s: State, n: nat)
    requires s.Scheduled()
    ensures Cursor(s.batchRule, n) == ConfiguredCursor(s.config, s.sequenceLength, n)
  {
    if n > 0 {
      ScheduledCursor(s, n - 1);
    }
  }

  /** The cursor the state keeps, wherever it is kept, is the recomputed one for the current step. */
  predicate CursorAgrees(s: State) {
    && s.epoch.roundsHead < NUM_STORED_ROUNDS
    && var round := Behind(s.epoch, 0);
       var expected := DataIndexForStep(s.config, s.sequenceLength, s.progress.step);
       match s.runState
       case RoundTrain => round.dataIndex == expected
       case RoundWitness => round.dataIndex == expected
       case Cooldown => round.dataIndex + s.BatchAt(round.dataIndex) == expected
       case _ => s.progress.epochStartDataIndex == expected
  }

  /**
  Over every run from the initial state, across epochs, failed warmups, pauses and resumes, the
  data cursor that the coordinator moves along agrees with the one recomputed from scratch.
  */
  lemma CursorAgreesOverRuns(h: Hashes, s: State, events: seq<Event>)
    requires Initial(s) && Run(h, s, events).Running?
    ensures CursorAgrees(Run(h, s, events).value)
  {
    InitialInv(h, s);
    RunsAreSafe(h, s, events);
    RunKeepsConfig(h, s, events);
    InvFixesCursor(h, Run(h, s, events).value);
  }

  lemma InvFixesCursor(h: Hashes, s: State)
    requires Inv(h, s) && s.Scheduled()
    ensures CursorAgrees(s)
  {
    ScheduledCursor(s, s.progress.step - 1);
  }

  lemma CursorGrows(s: State, n: nat)
    requires s.Scheduled()
    ensures Cursor(s.batchRule, n) < Cursor(s.batchRule, n + 1)
  {
    BatchSizeInRange(s.config, Cursor(s.batchRule, n) * s.sequenceLength);
  }

  lemma {:induction false} CursorMonotone(s: State, m: nat, n: nat)
    requires s.Scheduled() && m <= n
    ensures Cursor(s.batchRule, m) <= Cursor(s.batchRule, n)
  {
    if m < n {
      CursorMonotone(s, m, n - 1);
      CursorGrows(s, n - 1);
    }
  }

  /** The data of a state's current round. */
  function RoundStart(s: State): nat
    requires s.epoch.roundsHead < NUM_STORED_ROUNDS
  {
    Behind(s.epoch, 0).dataIndex
  }

  function RoundEnd(s: State): nat
    requires s.epoch.roundsHead < NUM_STORED_ROUNDS
  {
    RoundStart(s) + s.BatchAt(RoundStart(s))
  }

  /** A configured batch lies on the configured line, at the tokens before it: every index is a sequence of tokens. */
  lemma ConfiguredBatchOnLine(config: CheckedConfig, sequenceLength: nat, dataIndex: nat)
    ensures OnLine(config, dataIndex * sequenceLength, ConfiguredBatch(config, sequenceLength, dataIndex))
  {
    BatchSizeFollowsLine(config, dataIndex * sequenceLength);
  }

  lemma RunIsScheduled(h: Hashes, s: State, events: seq<Event>)
    requires Initial(s) && Run(h, s, events).Running?
    ensures Inv(h, Run(h, s, events).value) && Run(h, s, events).value.Scheduled()
  {
    InitialInv(h, s);
    RunsAreSafe(h, s, events);
    RunKeepsConfig(h, s, events);
  }

  /** Every reachable round has as much data as is configured for where it starts. */
  lemma RoundSizeIsConfigured(h: Hashes, s: State, events: seq<Event>)
    requires Initial(s) && Run(h, s, events).Running? && InRound(Run(h, s, events).value)
    ensures var t := Run(h, s, events).value;
            && t.epoch.roundsHead < NUM_STORED_ROUNDS
            && RoundEnd(t) - RoundStart(t) == ConfiguredBatch(t.config, t.sequenceLength, RoundStart(t))
  {
    RunIsScheduled(h, s, events);
  }

  /** The round's data is exactly what the state's step consumes. */
  predicate SpansStep(s: State) {
    && s.epoch.roundsHead < NUM_STORED_ROUNDS && s.progress.step >= 1
    && RoundStart(s) == Cursor(s.batchRule, s.progress.step - 1)
    && RoundEnd(s) == Cursor(s.batchRule, s.progress.step)
  }

  lemma RoundSpansStep(h: Hashes, s: State)
    requires Inv(h, s) && InRound(s)
    ensures SpansStep(s)
  {
  }

  /** The data of `a`'s round ends before `b`'s starts, and just before when `b` is the next step. */
  predicate UsesDataBefore(a: State, b: State) {
    && a.epoch.roundsHead < NUM_STORED_ROUNDS && b.epoch.roundsHead < NUM_STORED_ROUNDS
    && RoundStart(a) < RoundEnd(a) <= RoundStart(b)
    && (b.progress.step == a.progress.step + 1 ==> RoundEnd(a) == RoundStart(b))
  }

  lemma SpansAreDisjoint(a: State, b: State)
    requires SpansStep(a) && SpansStep(b)
    requires SameRun(a, b) && a.Scheduled() && a.progress.step < b.progress.step
    ensures UsesDataBefore(a, b)
  {
    CursorGrows(a, a.progress.step - 1);
    CursorMonotone(a, a.progress.step, b.progress.step - 1);
  }

  /**
  In one run, whatever happened in between, the rounds of two different steps use disjoint and
  non-empty data, the earlier step's first; consecutive steps leave no gap.
  */
  lemma StepsUseDisjointData(h: Hashes, s: State, earlier: seq<Event>, later: seq<Event>)
    requires Initial(s)
    ensures var a, b := Run(h, s, earlier), Run(h, s, later);
            a.Running? && b.Running? && InRound(a.value) && InRound(b.value)
            && a.value.progress.step < b.value.progress.step ==>
              UsesDataBefore(a.value, b.value)
  {
    var a, b := Run(h, s, earlier), Run(h, s, later);
    if a.Running? && b.Running? && InRound(a.value) && InRound(b.value)
       && a.value.progress.step < b.value.progress.step
    {
      InitialInv(h, s);
      RunsAreSafe(h, s, earlier);
      RunsAreSafe(h, s, later);
      RunKeepsConfig(h, s, earlier);
      RunKeepsConfig(h, s, later);
      RoundSpansStep(h, a.value);
      RoundSpansStep(h, b.value);
      SpansAreDisjoint(a.value, b.value);
    }
  }
}
