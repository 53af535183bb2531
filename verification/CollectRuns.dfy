/**
 Repeated collecting: the persistent memory per target, and why a run of failures ends.
 */
module CollectRuns {
  import opened Options
  import opened Candidates
  import opened TryOrder

  datatype Outcome = Collected | CollectFailed | NotEquipped

  /** One collect action: a pick from the clusters at hand and, if that found nothing, another one
      from the refreshed clusters; the memory after each pick; and how the digging went. */
  datatype Attempt = Attempt(filter: set<string>, clusters: seq<Cluster>, world: World,
                             first: Option<(Cluster, Block)>, middle: Bucket, refreshed: seq<Cluster>, later: World,
                             chosen: Option<(Cluster, Block)>, picked: Bucket, outcome: Outcome)

  const EMPTY := Bucket({}, {})

  function Recorded(bucket: Bucket, block: Block): Bucket {
    Bucket(bucket.failedBlocks + {block.key}, bucket.failedClusters)
  }

  /** The memory that an action leaves: success forgets everything, a failed block is remembered, and
      without a fitting tool, or without a block, it is what the picks have made it. */
  function MemoryAfter(a: Attempt): Bucket {
    match a.chosen
    case None => a.picked
    case Some((_, block)) =>
      match a.outcome
      case Collected => EMPTY
      case CollectFailed => Recorded(a.picked, block)
      case NotEquipped => a.picked
  }

  /** A pick from no clusters finds nothing and remembers nothing. */
  ghost predicate PicksFrom(before: Bucket, after: Bucket, clusters: seq<Cluster>, filter: set<string>, world: World,
                            result: Option<(Cluster, Block)>) {
    if clusters == [] then result.None? && after == before
    else
      && Picked(before, after, clusters, filter, world, result)
      && PickIs(before, after, clusters, filter, world, result)
  }

  ghost predicate Acts(before: Bucket, a: Attempt) {
    && PicksFrom(before, a.middle, a.clusters, a.filter, a.world, a.first)
    && if a.first.Some? then a.chosen == a.first && a.picked == a.middle
       else PicksFrom(a.middle, a.picked, a.refreshed, a.filter, a.later, a.chosen)
  }

  // ---------------------------------------------------------------- runs

  function Memory(start: Bucket, attempts: seq<Attempt>): Bucket {
    if attempts == [] then start else MemoryAfter(attempts[|attempts| - 1])
  }

  /** Actions for one target, one after the other. The clusters are queried anew and the world may
      change every time, also between the two picks of one action. */
  ghost predicate Happens(start: Bucket, attempts: seq<Attempt>) {
    attempts == [] ||
    (var front := attempts[..|attempts| - 1];
     Happens(start, front) && Acts(Memory(start, front), attempts[|attempts| - 1]))
  }

  predicate Succeeded(a: Attempt) { a.chosen.Some? && a.outcome.Collected? }

  predicate Failed(a: Attempt) { a.chosen.Some? && a.outcome.CollectFailed? }

  ghost predicate Ongoing(attempts: seq<Attempt>) {
    forall i | 0 <= i < |attempts| :: !Succeeded(attempts[i])
  }

  /** The coordinates worth trying. */
  function MatchingKeys(clusters: seq<Cluster>, filter: set<string>): set<string> {
    set c, b | c in clusters && b in Matching(c, filter) :: b.key
  }

  function Offered(a: Attempt): set<string> {
    MatchingKeys(a.clusters, a.filter) + MatchingKeys(a.refreshed, a.filter)
  }

  /** All coordinates that any query of the run has offered. */
  function AllOffered(attempts: seq<Attempt>): set<string> {
    if attempts == [] then {} else AllOffered(attempts[..|attempts| - 1]) + Offered(attempts[|attempts| - 1])
  }

  /** The coordinates that failed, in order. */
  function FailedKeys(attempts: seq<Attempt>): seq<string> {
    if attempts == [] then []
    else
      var last := attempts[|attempts| - 1];
      FailedKeys(attempts[..|attempts| - 1]) + if Failed(last) then [last.chosen.value.1.key] else []
  }

  lemma PickIsFresh(before: Bucket, after: Bucket, clusters: seq<Cluster>, filter: set<string>, world: World,
                    result: Option<(Cluster, Block)>)
    requires PicksFrom(before, after, clusters, filter, world, result)
    ensures before.failedBlocks <= after.failedBlocks
    ensures result.Some? ==> result.value.1.key !in before.failedBlocks
    ensures result.Some? ==> result.value.1.key in MatchingKeys(clusters, filter)
  {
    hide PickIs, Matching, Live, FirstInLine, Exhausted, Done, PassedOver, NothingLive, Distance;
  }

  lemma ActIsFresh(before: Bucket, a: Attempt)
    requires Acts(before, a)
    ensures before.failedBlocks <= a.picked.failedBlocks
    ensures a.chosen.Some? ==> a.chosen.value.1.key !in before.failedBlocks && a.chosen.value.1.key in Offered(a)
    ensures !Succeeded(a) ==> before.failedBlocks <= MemoryAfter(a).failedBlocks
    ensures Failed(a) ==> a.chosen.value.1.key in MemoryAfter(a).failedBlocks
  {
    hide PicksFrom, MatchingKeys;
    PickIsFresh(before, a.middle, a.clusters, a.filter, a.world, a.first);
    if a.first.None? {
      PickIsFresh(a.middle, a.picked, a.refreshed, a.filter, a.later, a.chosen);
    }
  }

  lemma {:induction false} SizeOfSubset(a: set<string>, b: set<string>)
    requires a <= b
    ensures |a| <= |b|
  {
    if x :| x in a {
      SizeOfSubset(a - {x}, b - {x});
    }
  }

  lemma FailureUsesUp(all: set<string>, before: set<string>, after: set<string>, key: string)
    requires before <= after && key in all && key !in before && key in after
    ensures |all - after| + 1 <= |all - before|
  {
    assert all - after <= (all - before) - {key};
    SizeOfSubset(all - after, (all - before) - {key});
  }

  lemma NothingUsedUp(all: set<string>, before: set<string>, after: set<string>)
    requires before <= after
    ensures |all - after| <= |all - before|
  {
    SizeOfSubset(all - after, all - before);
  }

  /** Until a success, however the clusters and the world change, no coordinate fails twice, and the
      failures are at most the coordinates offered that had not failed before. */
  lemma {:induction false} FailuresAreFresh(start: Bucket, attempts: seq<Attempt>, all: set<string>)
    requires Happens(start, attempts) && Ongoing(attempts) && AllOffered(attempts) <= all
    ensures start.failedBlocks <= Memory(start, attempts).failedBlocks
    ensures forall i, j | 0 <= i < j < |FailedKeys(attempts)| :: FailedKeys(attempts)[i] != FailedKeys(attempts)[j]
    ensures forall k | k in FailedKeys(attempts) ::
            k !in start.failedBlocks && k in all && k in Memory(start, attempts).failedBlocks
    ensures |FailedKeys(attempts)| + |all - Memory(start, attempts).failedBlocks| <= |all - start.failedBlocks|
    decreases |attempts|
  {
    hide Acts, MemoryAfter, Offered, Failed, Succeeded;
    if attempts != [] {
      var front, last := attempts[..|attempts| - 1], attempts[|attempts| - 1];
      assert Succeeded(last) == Succeeded(attempts[|attempts| - 1]);
      FailuresAreFresh(start, front, all);
      var before, after := Memory(start, front), Memory(start, attempts);
      ActIsFresh(before, last);
      if Failed(last) {
        FailedIsChosen(last);
        FailureUsesUp(all, before.failedBlocks, after.failedBlocks, last.chosen.value.1.key);
      } else {
        NothingUsedUp(all, before.failedBlocks, after.failedBlocks);
      }
    }
  }

  lemma FailedIsChosen(a: Attempt)
    ensures Failed(a) ==> a.chosen.Some?
  {}

  lemma FailuresNeverRepeat(start: Bucket, attempts: seq<Attempt>)
    requires Happens(start, attempts) && Ongoing(attempts)
    ensures forall i, j | 0 <= i < j < |FailedKeys(attempts)| :: FailedKeys(attempts)[i] != FailedKeys(attempts)[j]
    ensures forall k | k in FailedKeys(attempts) :: k in AllOffered(attempts) - start.failedBlocks
    ensures |FailedKeys(attempts)| <= |AllOffered(attempts) - start.failedBlocks|
  {
    hide Happens, Ongoing, FailedKeys, AllOffered, Memory;
    FailuresAreFresh(start, attempts, AllOffered(attempts));
  }

  lemma {:induction false} HappensSoFar(start: Bucket, attempts: seq<Attempt>, n: nat)
    requires Happens(start, attempts) && n <= |attempts|
    ensures Happens(start, attempts[..n])
    ensures n < |attempts| ==> Acts(Memory(start, attempts[..n]), attempts[n])
    decreases |attempts|
  {
    hide Acts, Memory;
    if n < |attempts| {
      var front := attempts[..|attempts| - 1];
      assert front[..n] == attempts[..n];
      HappensSoFar(start, front, n);
    } else {
      assert attempts[..n] == attempts;
    }
  }

  lemma {:induction false} FailureIsKept(start: Bucket, attempts: seq<Attempt>, i: nat)
    requires Happens(start, attempts) && Ongoing(attempts) && i < |attempts| && Failed(attempts[i])
    ensures attempts[i].chosen.value.1.key in Memory(start, attempts).failedBlocks
    decreases |attempts|
  {
    hide Acts, MemoryAfter, Succeeded;
    var front, last := attempts[..|attempts| - 1], attempts[|attempts| - 1];
    ActIsFresh(Memory(start, front), last);
    if i < |front| {
      assert front[i] == attempts[i];
      assert !Succeeded(last);
      FailureIsKept(start, front, i);
    }
  }

  /** A coordinate is picked again before a success only if no tool could be equipped for it: a
      recorded failure is never picked again, whether or not that later attempt fails. */
  lemma PickedAgainOnlyUnequipped(start: Bucket, attempts: seq<Attempt>, i: nat, j: nat)
    requires Happens(start, attempts) && i < j < |attempts| && Ongoing(attempts[..j])
    requires attempts[i].chosen.Some? && attempts[j].chosen.Some?
    requires attempts[i].chosen.value.1.key == attempts[j].chosen.value.1.key
    ensures attempts[i].outcome.NotEquipped?
  {
    hide Acts, Happens;
    HappensSoFar(start, attempts, j);
    ActIsFresh(Memory(start, attempts[..j]), attempts[j]);
    assert attempts[..j][i] == attempts[i] && !Succeeded(attempts[..j][i]);
    if attempts[i].outcome.CollectFailed? {
      FailureIsKept(start, attempts[..j], i);
    }
  }

  // ---------------------------------------------------------------- why a cluster is marked

  ghost predicate Lists(a: Attempt, c: Cluster) { c in a.clusters || c in a.refreshed }

  /** A query of the run listed the id with matches that have all failed by now. */
  ghost predicate HasReason(attempts: seq<Attempt>, failed: set<string>, id: string) {
    exists i, c :: 0 <= i < |attempts| && Lists(attempts[i], c) && c.id == id
        && Exhausted(c, attempts[i].filter, failed)
  }

  lemma ReasonStays(front: seq<Attempt>, last: Attempt, failed: set<string>, more: set<string>, id: string)
    requires failed <= more && HasReason(front, failed, id)
    ensures HasReason(front + [last], more, id)
  {
    hide Exhausted, Lists;
    var i, c :| 0 <= i < |front| && Lists(front[i], c) && c.id == id && Exhausted(c, front[i].filter, failed);
    ExhaustedStays(c, front[i].filter, failed, more);
    assert (front + [last])[i] == front[i];
  }

  lemma NewReason(front: seq<Attempt>, last: Attempt, clusters: seq<Cluster>, failed: set<string>, more: set<string>,
                  id: string)
    requires clusters == last.clusters || clusters == last.refreshed
    requires failed <= more && Done(clusters, last.filter, failed, id)
    ensures HasReason(front + [last], more, id)
  {
    hide Exhausted;
    var c :| c in clusters && c.id == id && Exhausted(c, last.filter, failed);
    ExhaustedStays(c, last.filter, failed, more);
    assert (front + [last])[|front|] == last && Lists(last, c);
  }

  /** A query lists a match at the coordinate, and there is no block, or air, or another block. */
  ghost predicate FoundGone(clusters: seq<Cluster>, filter: set<string>, world: World, key: string) {
    exists c, b :: c in clusters && b in Matching(c, filter) && b.key == key
        && (key in world.live ==> world.live[key] == "" || world.live[key] in world.air
                                  || (b.name != "" && b.name != world.live[key]))
  }

  /** An action records a coordinate: a pick finds the block gone, or digging it fails. */
  ghost predicate Records(a: Attempt, key: string) {
    || FoundGone(a.clusters, a.filter, a.world, key)
    || FoundGone(a.refreshed, a.filter, a.later, key)
    || (a.chosen.Some? && a.outcome.CollectFailed? && a.chosen.value.1.key == key)
  }

  lemma NewFailuresAreGone(before: Bucket, after: Bucket, clusters: seq<Cluster>, filter: set<string>, world: World,
                           result: Option<(Cluster, Block)>, key: string)
    requires PicksFrom(before, after, clusters, filter, world, result)
    requires key in after.failedBlocks && key !in before.failedBlocks
    ensures FoundGone(clusters, filter, world, key)
  {
    hide PickIs, Matching, FirstInLine, Exhausted, Done, PassedOver, NothingLive;
    assert FoundStale(before, clusters, filter, world, key);
  }

  /** What one action leaves of the failed coordinates: nothing after a success, otherwise those that were
      there, those its picks found gone, and the block that it picked, equipped for and failed to dig. */
  lemma ActionRecords(before: Bucket, a: Attempt, key: string)
    requires Acts(before, a)
    ensures key in MemoryAfter(a).failedBlocks ==> key in before.failedBlocks || Records(a, key)
    ensures a.chosen.None? || a.outcome.NotEquipped? ==> MemoryAfter(a) == a.picked
    ensures Succeeded(a) ==> MemoryAfter(a) == Bucket({}, {})
    ensures Failed(a) ==> MemoryAfter(a).failedBlocks == a.picked.failedBlocks + {a.chosen.value.1.key}
    ensures Failed(a) ==> MemoryAfter(a).failedClusters == a.picked.failedClusters
  {
    hide PicksFrom, FoundGone;
    if key in a.picked.failedBlocks && key !in before.failedBlocks {
      if key in a.middle.failedBlocks {
        NewFailuresAreGone(before, a.middle, a.clusters, a.filter, a.world, a.first, key);
      } else {
        NewFailuresAreGone(a.middle, a.picked, a.refreshed, a.filter, a.later, a.chosen, key);
      }
    }
  }

  /** In every run a coordinate counts as failed only if it did at the start and nothing was collected
      since, or some action after the last success recorded it. */
  lemma {:induction false} FailuresHaveReason(start: Bucket, attempts: seq<Attempt>, key: string)
    requires Happens(start, attempts) && key in Memory(start, attempts).failedBlocks
    ensures || (key in start.failedBlocks && Ongoing(attempts))
            || exists i :: 0 <= i < |attempts| && Records(attempts[i], key) && Ongoing(attempts[i..])
    decreases |attempts|
  {
    hide Acts, MemoryAfter, Succeeded, Records;
    if attempts != [] {
      var front, last := attempts[..|attempts| - 1], attempts[|attempts| - 1];
      ActionRecords(Memory(start, front), last, key);
      assert !Succeeded(last);
      if Records(last, key) {
        assert attempts[|attempts| - 1..] == [last];
      } else {
        FailuresHaveReason(start, front, key);
        if i :| 0 <= i < |front| && Records(front[i], key) && Ongoing(front[i..]) {
          assert attempts[i..] == front[i..] + [last];
          assert attempts[i] == front[i];
        }
      }
    }
  }

  /** And until a success nothing that was recorded is forgotten, be it a coordinate or a mark. */
  lemma {:induction false} NothingForgotten(start: Bucket, attempts: seq<Attempt>)
    requires Happens(start, attempts) && Ongoing(attempts)
    ensures start.failedBlocks <= Memory(start, attempts).failedBlocks
    ensures start.failedClusters <= Memory(start, attempts).failedClusters
    decreases |attempts|
  {
    hide Acts, Succeeded;
    if attempts != [] {
      var front, last := attempts[..|attempts| - 1], attempts[|attempts| - 1];
      assert !Succeeded(last);
      NothingForgotten(start, front);
      ActForgetsNothing(Memory(start, front), last);
    }
  }

  lemma ActForgetsNothing(before: Bucket, a: Attempt)
    requires Acts(before, a) && !Succeeded(a)
    ensures before.failedBlocks <= MemoryAfter(a).failedBlocks
    ensures before.failedClusters <= MemoryAfter(a).failedClusters
  {
    hide PickIs, Matching, Live, FirstInLine, Exhausted, Done, PassedOver, NothingLive, FoundStale;
  }

  lemma NewMarksAreDone(before: Bucket, after: Bucket, clusters: seq<Cluster>, filter: set<string>, world: World,
                        result: Option<(Cluster, Block)>, id: string)
    requires PicksFrom(before, after, clusters, filter, world, result) && id in after.failedClusters
             && id !in before.failedClusters
    ensures Done(clusters, filter, after.failedBlocks, id)
  {
    hide PickIs, Matching, Live, FirstInLine, Exhausted, Done, PassedOver, NothingLive, FoundStale;
  }

  lemma NoNewMarksElsewhere(a: Attempt)
    ensures MemoryAfter(a).failedClusters <= a.picked.failedClusters
    ensures !Succeeded(a) ==> a.picked.failedBlocks <= MemoryAfter(a).failedBlocks
    ensures Succeeded(a) ==> MemoryAfter(a).failedClusters == {}
  {}

  /** In every run, whatever the queries list and however ids are given out: an id is marked only if some
      query listed it with matches that have all failed. */
  lemma {:induction false} MarksHaveReason(start: Bucket, attempts: seq<Attempt>, id: string)
    requires Happens(start, attempts) && id in Memory(start, attempts).failedClusters
    ensures id in start.failedClusters || HasReason(attempts, Memory(start, attempts).failedBlocks, id)
    decreases |attempts|
  {
    hide PicksFrom, HasReason, MemoryAfter, Succeeded;
    if attempts != [] {
      var front, last := attempts[..|attempts| - 1], attempts[|attempts| - 1];
      var before, failed := Memory(start, front), Memory(start, attempts).failedBlocks;
      assert attempts == front + [last];
      NoNewMarksElsewhere(last);
      PickIsFresh(before, last.middle, last.clusters, last.filter, last.world, last.first);
      if last.first.None? {
        PickIsFresh(last.middle, last.picked, last.refreshed, last.filter, last.later, last.chosen);
      }
      if id in before.failedClusters {
        MarksHaveReason(start, front, id);
        if id !in start.failedClusters {
          ReasonStays(front, last, before.failedBlocks, failed, id);
        }
      } else if id in last.middle.failedClusters {
        NewMarksAreDone(before, last.middle, last.clusters, last.filter, last.world, last.first, id);
        NewReason(front, last, last.clusters, last.middle.failedBlocks, failed, id);
      } else {
        NewMarksAreDone(last.middle, last.picked, last.refreshed, last.filter, last.later, last.chosen, id);
        NewReason(front, last, last.refreshed, last.picked.failedBlocks, failed, id);
      }
    }
  }

  /** What a query lists under an id is part of what every earlier query listed under it. */
  ghost predicate KeepsItsBlocks(attempts: seq<Attempt>, c: Cluster, filter: set<string>) {
    forall i, d | 0 <= i < |attempts| && Lists(attempts[i], d) && d.id == c.id ::
      forall b | b in Matching(c, filter) :: exists x :: x in Matching(d, attempts[i].filter) && x.key == b.key
  }

  /** So as long as ids keep denoting the same blocks the memory is truthful about every further query. */
  lemma RunStaysConsistent(start: Bucket, attempts: seq<Attempt>, clusters: seq<Cluster>, filter: set<string>)
    requires Happens(start, attempts)
    requires forall c | c in clusters :: c.id !in start.failedClusters && KeepsItsBlocks(attempts, c, filter)
    ensures Consistent(Memory(start, attempts), clusters, filter)
  {
    hide PickIs, Matching, Happens, Lists, Memory;
    var memory := Memory(start, attempts);
    forall c | c in clusters && c.id in memory.failedClusters ensures Exhausted(c, filter, memory.failedBlocks) {
      MarksHaveReason(start, attempts, c.id);
      var i, d :| 0 <= i < |attempts| && Lists(attempts[i], d) && d.id == c.id
                  && Exhausted(d, attempts[i].filter, memory.failedBlocks);
    }
  }

  // ---------------------------------------------------------------- when nothing is found

  /** When an action finds nothing, each of its queries is exhausted exactly when what it listed under
      marked ids was spent in the memory that the pick found. */
  lemma NothingMoreToTryIff(start: Bucket, attempts: seq<Attempt>)
    requires Happens(start, attempts) && attempts != [] && attempts[|attempts| - 1].chosen.None?
    requires UniqueIds(attempts[|attempts| - 1].clusters) && UniqueIds(attempts[|attempts| - 1].refreshed)
    ensures var a, before := attempts[|attempts| - 1], Memory(start, attempts[..|attempts| - 1]);
      && (AllExhausted(a.clusters, a.filter, a.middle.failedBlocks) <==> MarkedAreSpent(before, a.clusters, a.filter))
      && (AllExhausted(a.refreshed, a.filter, Memory(start, attempts).failedBlocks) <==>
            MarkedAreSpent(a.middle, a.refreshed, a.filter))
  {
    hide PicksFrom, UniqueIds, AllExhausted, MarkedAreSpent;
    var a, before := attempts[|attempts| - 1], Memory(start, attempts[..|attempts| - 1]);
    EmptyQueryIff(before, a.middle, a.clusters, a.filter, a.world);
    EmptyQueryIff(a.middle, a.picked, a.refreshed, a.filter, a.later);
  }

  lemma EmptyQueryIff(before: Bucket, after: Bucket, clusters: seq<Cluster>, filter: set<string>, world: World)
    requires PicksFrom(before, after, clusters, filter, world, None) && UniqueIds(clusters)
    ensures AllExhausted(clusters, filter, after.failedBlocks) <==> MarkedAreSpent(before, clusters, filter)
  {
    hide PickIs, Picked, UniqueIds, Matching;
    if clusters != [] {
      EmptyPickIff(before, after, clusters, filter, world);
    }
  }

  /** Ids are numbered anew at every refresh. When the first query lists only a block that is gone, under some
      id, and the refreshed one another block under the same id, the action finds nothing and leaves
      that block untried, be it there or not. */
  lemma RenumberedClusterIsSkipped(a: Attempt, id: string, gone: Block, other: Block, m: int, n: int)
    requires Acts(EMPTY, a) && id != "" && gone.key != other.key
    requires a.clusters == [Cluster(id, m, [gone])] && a.refreshed == [Cluster(id, n, [other])]
    requires a.filter == {} || (gone.name in a.filter && other.name in a.filter)
    requires !Live(a.world, gone)
    ensures a.chosen.None? && other in Matching(a.refreshed[0], a.filter)
    ensures other.key !in MemoryAfter(a).failedBlocks && id in MemoryAfter(a).failedClusters
  {
    var c, d := a.clusters[0], a.refreshed[0];
    MatchesOfOne(c, a.filter, gone);
    MatchesOfOne(d, a.filter, other);
    hide PickIs, Matching, Live, FirstInLine, Exhausted, Done, PassedOver, NothingLive, Distance;
    assert c in a.clusters && d in a.refreshed;
    assert a.first.None?;
    assert id in a.middle.failedClusters;
    assert other.key !in a.middle.failedBlocks;
  }

  lemma MatchesOfOne(c: Cluster, filter: set<string>, b: Block)
    requires c.blocks == [b] && (filter == {} || b.name in filter)
    ensures Matching(c, filter) == [b]
  {
    assert c.blocks[0] == b && c.blocks[1..] == [];
    assert Select(c.blocks, filter, {}) == [b] + Select(c.blocks[1..], filter, {});
  }

  ghost predicate ListsOnlyMarked(bucket: Bucket, clusters: seq<Cluster>) {
    forall c | c in clusters :: c.id in bucket.failedClusters
  }

  lemma MarkedIsNotTried(before: Bucket, clusters: seq<Cluster>, filter: set<string>, world: World, key: string)
    requires ListsOnlyMarked(before, clusters)
    ensures !FoundStale(before, clusters, filter, world, key)
  {
    hide PickIs, Matching, Live;
  }

  lemma MarkedIsNotNew(before: Bucket, clusters: seq<Cluster>, filter: set<string>, failed: set<string>, id: string)
    requires ListsOnlyMarked(before, clusters) && Done(clusters, filter, failed, id)
    ensures id in before.failedClusters
  {
    hide Exhausted;
  }

  lemma MarkedQueryFindsNothing(before: Bucket, after: Bucket, clusters: seq<Cluster>, filter: set<string>,
                                world: World, result: Option<(Cluster, Block)>)
    requires PicksFrom(before, after, clusters, filter, world, result) && ListsOnlyMarked(before, clusters)
    ensures result.None? && after == before
  {
    hide PickIs, Matching, Live, FirstInLine, Exhausted, PassedOver, NothingLive, Distance, FoundStale, Done;
    forall k ensures !FoundStale(before, clusters, filter, world, k) {
      MarkedIsNotTried(before, clusters, filter, world, k);
    }
    forall id | Done(clusters, filter, after.failedBlocks, id) ensures id in before.failedClusters {
      MarkedIsNotNew(before, clusters, filter, after.failedBlocks, id);
    }
    assert after.failedBlocks == before.failedBlocks && after.failedClusters == before.failedClusters;
  }

  /** As long as the queries list only marked ids, every action finds nothing and changes nothing, however many
      there are and whatever blocks those ids now denote: only a success clears a mark. */
  lemma {:induction false} MarkedQueriesFindNothing(start: Bucket, attempts: seq<Attempt>)
    requires Happens(start, attempts)
    requires forall a | a in attempts :: ListsOnlyMarked(start, a.clusters) && ListsOnlyMarked(start, a.refreshed)
    ensures Memory(start, attempts) == start && forall a | a in attempts :: a.chosen.None?
    decreases |attempts|
  {
    hide PicksFrom, ListsOnlyMarked;
    if attempts != [] {
      var front, last := attempts[..|attempts| - 1], attempts[|attempts| - 1];
      assert attempts == front + [last];
      MarkedQueriesFindNothing(start, front);
      MarkedQueryFindsNothing(start, last.middle, last.clusters, last.filter, last.world, last.first);
      MarkedQueryFindsNothing(last.middle, last.picked, last.refreshed, last.filter, last.later, last.chosen);
    }
  }

  // ---------------------------------------------------------------- the memory of the bot

  class ResourceAttempts {
    var state: map<string, Bucket>
    /** For each target, its actions since the last success. */
    ghost var history: map<string, seq<Attempt>>

    function BucketOf(key: string): Bucket
      reads this`state
    {
      if key in state then state[key] else EMPTY
    }

    ghost function HistoryOf(key: string): seq<Attempt>
      reads this`history
    {
      if key in history then history[key] else []
    }

    ghost predicate Remembers(key: string)
      reads this
    {
      Happens(EMPTY, HistoryOf(key)) && Ongoing(HistoryOf(key)) && BucketOf(key) == Memory(EMPTY, HistoryOf(key))
    }

    ghost predicate Valid()
      reads this
    {
      forall key :: Remembers(key)
    }

    constructor ()
      ensures Valid() && state == map[] && history == map[]
    {
      state, history := map[], map[];
    }

    /** Picks a candidate with the memory of `key`; without clusters the memory is not even created. */
    method Pick(key: string, clusters: seq<Cluster>, filter: set<string>, world: World)
      returns (result: Option<(Cluster, Block)>)
      modifies this`state
      ensures clusters == [] ==> state == old(state)
      ensures clusters != [] ==> state == old(state)[key := BucketOf(key)]
      ensures PicksFrom(old(BucketOf(key)), BucketOf(key), clusters, filter, world, result)
    {
      if clusters == [] {
        return None;
      }
      hide PickIs, Picked;
      var after;
      result, after := PickClusterCandidate(clusters, filter, world, BucketOf(key));
      state := state[key := after];
    }

    method RecordFailure(key: string, block: Block)
      modifies this`state
      ensures state == old(state)[key := Recorded(old(BucketOf(key)), block)]
    {
      state := state[key := Recorded(BucketOf(key), block)];
    }

    /** Success wipes the memory of this target and of no other. */
    method Reset(key: string)
      modifies this`state
      ensures state == old(state) - {key}
    {
      state := state - {key};
    }

    /** One collect action in cluster mode: pick, refresh and pick once more if that found nothing,
        then remember, forget or leave the memory alone. */
    method Act(key: string, clusters: seq<Cluster>, refreshed: seq<Cluster>, filter: set<string>, world: World,
               later: World, outcome: Outcome)
      returns (chosen: Option<(Cluster, Block)>, ghost a: Attempt)
      modifies this`state
      ensures Acts(old(BucketOf(key)), a) && BucketOf(key) == MemoryAfter(a)
      ensures a == Attempt(filter, clusters, world, a.first, a.middle, refreshed, later, chosen, a.picked, outcome)
      ensures forall k | k != key :: BucketOf(k) == old(BucketOf(k))
    {
      hide PicksFrom;
      var first := Pick(key, clusters, filter, world);
      ghost var middle := BucketOf(key);
      chosen := first;
      if first.None? {
        chosen := Pick(key, refreshed, filter, later);
      }
      a := Attempt(filter, clusters, world, first, middle, refreshed, later, chosen, BucketOf(key), outcome);
      if chosen.Some? {
        match outcome
        case Collected => Reset(key);
        case CollectFailed => RecordFailure(key, chosen.value.1);
        case NotEquipped =>
      }
    }

    /** The action is a step of the target's run, so every theorem about runs is about this object;
        the other targets are as they were. */
    method Collect(key: string, clusters: seq<Cluster>, refreshed: seq<Cluster>, filter: set<string>, world: World,
                   later: World, outcome: Outcome)
      returns (chosen: Option<(Cluster, Block)>, ghost a: Attempt)
      requires Valid()
      modifies this
      ensures Valid()
      ensures Acts(old(BucketOf(key)), a) && BucketOf(key) == MemoryAfter(a)
      ensures a == Attempt(filter, clusters, world, a.first, a.middle, refreshed, later, chosen, a.picked, outcome)
      ensures HistoryOf(key) == if Succeeded(a) then [] else old(HistoryOf(key)) + [a]
      ensures forall k | k != key :: BucketOf(k) == old(BucketOf(k)) && HistoryOf(k) == old(HistoryOf(k))
    {
      hide Acts, Happens, Ongoing, Memory, MemoryAfter, Succeeded;
      ghost var earlier := HistoryOf(key);
      assert Remembers(key);
      chosen, a := Act(key, clusters, refreshed, filter, world, later, outcome);
      SuccessForgets(a);
      GoesOn(earlier, a);
      history := history[key := if Succeeded(a) then [] else earlier + [a]];
      forall k ensures Remembers(k) {
        assert old(Remembers(k));
      }
    }
  }

  lemma SuccessForgets(a: Attempt)
    ensures Succeeded(a) ==> MemoryAfter(a) == EMPTY
  {}

  /** One more action continues the run, or starts it anew after a success. */
  lemma GoesOn(earlier: seq<Attempt>, a: Attempt)
    requires Happens(EMPTY, earlier) && Ongoing(earlier) && Acts(Memory(EMPTY, earlier), a)
    ensures Happens(EMPTY, []) && Ongoing([]) && Memory(EMPTY, []) == EMPTY
    ensures Happens(EMPTY, earlier + [a]) && Memory(EMPTY, earlier + [a]) == MemoryAfter(a)
    ensures !Succeeded(a) ==> Ongoing(earlier + [a])
  {
    hide Acts, MemoryAfter, Succeeded;
    assert (earlier + [a])[..|earlier|] == earlier;
  }
}
