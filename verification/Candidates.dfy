/**
 Choosing the next block to collect, with a memory of blocks and clusters that failed.
 */
module Candidates {
  import opened Options
  import opened Sorting
  import opened TryOrder

  // ---------------------------------------------------------------- what a pick promises

  ghost predicate Exhausted(cluster: Cluster, filter: set<string>, failed: set<string>) {
    forall b | b in Matching(cluster, filter) :: b.key in failed
  }

  ghost predicate UniqueIds(clusters: seq<Cluster>) {
    forall i, j | 0 <= i < j < |clusters| :: clusters[i].id != clusters[j].id
  }

  /** A failed cluster has no matching block left. */
  ghost predicate Consistent(bucket: Bucket, clusters: seq<Cluster>, filter: set<string>) {
    forall c | c in clusters && c.id in bucket.failedClusters :: Exhausted(c, filter, bucket.failedBlocks)
  }

  ghost predicate Listed(entry: Entry, filter: set<string>, failed: set<string>, world: World) {
    && entry.candidates != []
    && (forall b :: b in entry.candidates <==> b in CandidatesOf(entry.cluster, filter, failed))
    && (forall i, j | 0 <= i < j < |entry.candidates| ::
          Distance(world, entry.candidates[i]) <= Distance(world, entry.candidates[j]))
  }

  /** Block `b` of `other` comes before block `p` of `cluster`: nearer, or as near in a smaller cluster. */
  predicate Ahead(world: World, other: Cluster, b: Block, cluster: Cluster, p: Block) {
    Distance(world, b) < Distance(world, p) || (Distance(world, b) == Distance(world, p) && other.count < cluster.count)
  }

  /** All matches of some listed cluster of that id have failed. */
  ghost predicate Done(clusters: seq<Cluster>, filter: set<string>, failed: set<string>, id: string) {
    exists c :: c in clusters && c.id == id && Exhausted(c, filter, failed)
  }

  /** A cluster that a pick does not go on with: its id was marked before, whatever it lists now, or
      all matches under its id have failed. */
  ghost predicate PassedOver(before: Bucket, after: Bucket, clusters: seq<Cluster>, filter: set<string>, c: Cluster) {
    c.id in before.failedClusters || Done(clusters, filter, after.failedBlocks, c.id)
  }

  /** Every match of the cluster has failed before or is not there. */
  ghost predicate NothingLive(before: Bucket, filter: set<string>, world: World, c: Cluster) {
    forall b | b in Matching(c, filter) :: b.key in before.failedBlocks || !Live(world, b)
  }

  /** The block behind a coordinate was tried, in a cluster that was not marked, and was not there. */
  ghost predicate FoundStale(before: Bucket, clusters: seq<Cluster>, filter: set<string>, world: World, key: string) {
    exists c, b :: c in clusters && c.id !in before.failedClusters && b in Matching(c, filter) && b.key == key
        && !Live(world, b)
  }

  /** Some untried match of the cluster has nothing ahead of it but what has failed or is passed over. */
  ghost predicate FirstInLine(before: Bucket, after: Bucket, clusters: seq<Cluster>, filter: set<string>, world: World,
                              cluster: Cluster) {
    exists p :: p in Matching(cluster, filter) && p.key !in before.failedBlocks &&
      forall other, b | other in clusters && b in Matching(other, filter) && Ahead(world, other, b, cluster, p) ::
        b.key in after.failedBlocks || PassedOver(before, after, clusters, filter, other)
  }

  /** What one pick does to the memory and what it may answer, for any memory and any clusters. */
  ghost predicate Picked(before: Bucket, after: Bucket, clusters: seq<Cluster>, filter: set<string>, world: World,
                         result: Option<(Cluster, Block)>) {
    && before.failedBlocks <= after.failedBlocks && before.failedClusters <= after.failedClusters
    && (forall k | k in after.failedBlocks && k !in before.failedBlocks ::
        FoundStale(before, clusters, filter, world, k))
    && (forall id | id in after.failedClusters && id !in before.failedClusters ::
          Done(clusters, filter, after.failedBlocks, id))
    && (forall c | c in clusters && Matching(c, filter) != [] && Exhausted(c, filter, before.failedBlocks) ::
          c.id in after.failedClusters)
    && match result {
      case None =>
        forall c | c in clusters ::
          && PassedOver(before, after, clusters, filter, c)
          && (PassedOver(before, before, clusters, filter, c) || NothingLive(before, filter, world, c))
          && (c.id == "" || Matching(c, filter) == [] || c.id in after.failedClusters)
      case Some((cluster, block)) =>
        && cluster in clusters && cluster.id !in before.failedClusters
        && block in Matching(cluster, filter) && block.key !in before.failedBlocks && Live(world, block)
        && (forall b | b in Matching(cluster, filter) && Distance(world, b) < Distance(world, block) ::
              b.key in after.failedBlocks)
        && FirstInLine(before, after, clusters, filter, world, cluster)
    }
  }

  // ---------------------------------------------------------------- the chooser

  /** The first pass: clusters with untried matching blocks, nearest blocks first; a cluster
      whose matching blocks have all failed is remembered. */
  method ListClusters(clusters: seq<Cluster>, filter: set<string>, world: World, bucket: Bucket)
    returns (entries: seq<Entry>, failedClusters: set<string>, ghost origins: seq<nat>)
    ensures Covered(bucket, failedClusters, clusters, filter, world, entries)
    ensures Lined(bucket, clusters, filter, world, entries, origins, |clusters|) && Rising(origins)
    ensures Marked(bucket, clusters, filter, failedClusters, |clusters|)
  {
    hide Listed, Exhausted, Done, Covered, CandidatesOf, Matching, Sort, Lined, Rising, Marked, Skipped, Spent;
    entries, failedClusters, origins := [], bucket.failedClusters, [];
    NothingCovered(bucket, filter, world);
    LineStarts(bucket, clusters, filter, world);
    for i := 0 to |clusters|
      invariant Covered(bucket, failedClusters, clusters[..i], filter, world, entries)
      invariant Lined(bucket, clusters, filter, world, entries, origins, i) && Rising(origins)
      invariant Marked(bucket, clusters, filter, failedClusters, i)
    {
      var cluster := clusters[i];
      assert clusters[..i + 1] == clusters[..i] + [cluster];
      ghost var marked, listed := failedClusters, entries;
      MarksOneMore(bucket, clusters, filter, marked, i);
      SpentIff(cluster, filter, bucket.failedBlocks);
      if cluster.id !in failedClusters {
        var candidates := CandidatesOf(cluster, filter, bucket.failedBlocks);
        if Matching(cluster, filter) == [] {
          NoneExhausted(cluster, filter, bucket.failedBlocks);
          NoMatchNoCandidate(cluster, filter, bucket.failedBlocks);
        } else if candidates == [] {
          NoneExhausted(cluster, filter, bucket.failedBlocks);
          failedClusters := failedClusters + {cluster.id};
        } else {
          SomeUntried(cluster, filter, bucket.failedBlocks);
          SortedIsListed(cluster, filter, bucket.failedBlocks, world);
          LineGrows(bucket, clusters, filter, world, entries, origins, i);
          entries := entries + [Entry(cluster, Sort(NearestFirst(world), candidates))];
          origins := origins + [i];
        }
      }
      if entries == listed {
        LineStays(bucket, clusters, filter, world, entries, origins, i);
      }
      CoversOneMore(bucket, marked, failedClusters, clusters[..i], cluster, filter, world, listed, entries);
    }
    assert clusters[..|clusters|] == clusters;
  }

  /** The entries are clusters that are not marked, with all their untried matches; a cluster that is
      not among them was marked before, is marked now because all its matches have failed, or has none. */
  ghost predicate Covered(before: Bucket, failedClusters: set<string>, clusters: seq<Cluster>, filter: set<string>,
                          world: World, entries: seq<Entry>) {
    && before.failedClusters <= failedClusters
    && (forall id | id in failedClusters && id !in before.failedClusters ::
        Done(clusters, filter, before.failedBlocks, id))
    && (forall e | e in entries :: e.cluster in clusters && e.cluster.id !in before.failedClusters)
    && (forall e | e in entries :: Listed(e, filter, before.failedBlocks, world))
    && (forall c | c in clusters :: Placed(c, failedClusters, before.failedBlocks, filter, entries))
  }

  ghost predicate Placed(c: Cluster, failedClusters: set<string>, failed: set<string>, filter: set<string>,
                         entries: seq<Entry>) {
    if Exhausted(c, filter, failed) then Matching(c, filter) == [] || c.id in failedClusters
    else c.id in failedClusters || exists e :: e in entries && e.cluster == c
  }

  lemma NothingCovered(before: Bucket, filter: set<string>, world: World)
    ensures Covered(before, before.failedClusters, [], filter, world, [])
  {}

  lemma DoneInMore(clusters: seq<Cluster>, c: Cluster, filter: set<string>, failed: set<string>, id: string)
    ensures Done(clusters, filter, failed, id) ==> Done(clusters + [c], filter, failed, id)
    ensures c.id == id && Exhausted(c, filter, failed) ==> Done(clusters + [c], filter, failed, id)
  {
    hide Exhausted;
    if Done(clusters, filter, failed, id) {
      var d :| d in clusters && d.id == id && Exhausted(d, filter, failed);
      assert d in clusters + [c];
    }
    assert c in clusters + [c];
  }

  lemma PlacedStays(c: Cluster, marked: set<string>, failedClusters: set<string>, failed: set<string>,
                    filter: set<string>, listed: seq<Entry>, entries: seq<Entry>)
    requires Placed(c, marked, failed, filter, listed) && marked <= failedClusters && listed <= entries
    ensures Placed(c, failedClusters, failed, filter, entries)
  {
    hide Exhausted, Matching;
    assert forall e | e in listed :: e in entries;
  }

  lemma CoversOneMore(before: Bucket, marked: set<string>, failedClusters: set<string>, clusters: seq<Cluster>,
                      c: Cluster, filter: set<string>, world: World, listed: seq<Entry>, entries: seq<Entry>)
    requires Covered(before, marked, clusters, filter, world, listed)
    requires failedClusters == marked
          || (failedClusters == marked + {c.id} && Exhausted(c, filter, before.failedBlocks)
              && Matching(c, filter) != [])
    requires entries == listed || (|entries| == |listed| + 1 && listed == entries[..|listed|]
               && entries[|listed|].cluster == c && c.id !in marked
                  && Listed(entries[|listed|], filter, before.failedBlocks, world))
    requires c.id in failedClusters || Exhausted(c, filter, before.failedBlocks) || entries != listed
    requires c.id !in failedClusters && Exhausted(c, filter, before.failedBlocks) ==> Matching(c, filter) == []
    ensures Covered(before, failedClusters, clusters + [c], filter, world, entries)
  {
    hide Exhausted, Listed, Matching, Done, Placed;
    forall id | id in failedClusters && id !in before.failedClusters
      ensures Done(clusters + [c], filter, before.failedBlocks, id)
    {
      DoneInMore(clusters, c, filter, before.failedBlocks, id);
    }
    forall e | e in entries
      ensures e.cluster in clusters + [c] && e.cluster.id !in before.failedClusters
              && Listed(e, filter, before.failedBlocks, world)
    {
      var i :| 0 <= i < |entries| && entries[i] == e;
      if i < |listed| {
        assert listed[i] == e && e in listed;
      }
    }
    forall d | d in clusters + [c] ensures Placed(d, failedClusters, before.failedBlocks, filter, entries) {
      if d in clusters {
        PlacedStays(d, marked, failedClusters, before.failedBlocks, filter, listed, entries);
      } else {
        PlacedNow(c, failedClusters, before.failedBlocks, filter, entries, entries != listed);
      }
    }
  }

  lemma PlacedNow(c: Cluster, failedClusters: set<string>, failed: set<string>, filter: set<string>,
                  entries: seq<Entry>, added: bool)
    requires added ==> entries != [] && entries[|entries| - 1].cluster == c
    requires c.id in failedClusters || Exhausted(c, filter, failed) || added
    requires c.id !in failedClusters && Exhausted(c, filter, failed) ==> Matching(c, filter) == []
    ensures Placed(c, failedClusters, failed, filter, entries)
  {
    hide Exhausted, Matching;
    if added {
      assert entries[|entries| - 1] in entries;
    }
  }

  lemma SomeUntried(cluster: Cluster, filter: set<string>, failed: set<string>)
    requires CandidatesOf(cluster, filter, failed) != []
    ensures !Exhausted(cluster, filter, failed)
  {
    CandidatesAreUntriedMatches(cluster, filter, failed);
    hide Matching, CandidatesOf;
    assert CandidatesOf(cluster, filter, failed)[0] in CandidatesOf(cluster, filter, failed);
  }

  lemma NoneExhausted(cluster: Cluster, filter: set<string>, failed: set<string>)
    ensures CandidatesOf(cluster, filter, failed) == [] ==> Exhausted(cluster, filter, failed)
    ensures Matching(cluster, filter) == [] ==> Exhausted(cluster, filter, failed)
  {
    CandidatesAreUntriedMatches(cluster, filter, failed);
    hide Select;
    if CandidatesOf(cluster, filter, failed) == [] {
      assert forall b :: b !in CandidatesOf(cluster, filter, failed);
    }
  }

  lemma NoMatchNoCandidate(cluster: Cluster, filter: set<string>, failed: set<string>)
    requires Matching(cluster, filter) == []
    ensures CandidatesOf(cluster, filter, failed) == []
  {
    hide Matching, CandidatesOf;
    var candidates := CandidatesOf(cluster, filter, failed);
    assert candidates != [] ==> candidates[0] in candidates;
    CandidatesAreUntriedMatches(cluster, filter, failed);
  }

  lemma SortedIsListed(cluster: Cluster, filter: set<string>, failed: set<string>, world: World)
    requires CandidatesOf(cluster, filter, failed) != []
    ensures Listed(Entry(cluster, Sort(NearestFirst(world), CandidatesOf(cluster, filter, failed))), filter, failed,
            world)
  {
    hide Sort, CandidatesOf, NearestFirst, Distance, SortedBy, TotalOrder;
    var candidates := CandidatesOf(cluster, filter, failed);
    NearestFirstIsTotal(world);
    SortSorts(NearestFirst(world), candidates);
    var sorted := Sort(NearestFirst(world), candidates);
    forall b ensures b in sorted <==> b in candidates {
      assert b in multiset(sorted) <==> b in multiset(candidates);
    }
    SortedMeansNearestFirst(world, sorted);
  }

  lemma SortedMeansNearestFirst(world: World, blocks: seq<Block>)
    requires SortedBy(NearestFirst(world), blocks)
    ensures forall i, j | 0 <= i < j < |blocks| :: Distance(world, blocks[i]) <= Distance(world, blocks[j])
  {
    hide Distance;
    forall i, j | 0 <= i < j < |blocks| ensures Distance(world, blocks[i]) <= Distance(world, blocks[j]) {
      assert NearestFirst(world)(blocks[i], blocks[j]);
    }
  }

  /** Goes through the candidates of one cluster: stale ones are remembered, the first live one is the answer. */
  method TryCandidates(candidates: seq<Block>, world: World, failed: set<string>)
    returns (hit: Option<nat>, failed': set<string>)
    ensures hit.None? ==> failed' == failed + KeysOf(candidates, |candidates|)
    ensures hit.Some? ==> hit.value < |candidates| && failed' == failed + KeysOf(candidates, hit.value)
    ensures failed <= failed'
    ensures forall k | k in failed' && k !in failed :: exists b :: b in candidates && b.key == k && !Live(world, b)
    ensures match hit
      case None => forall b | b in candidates :: b.key in failed' && !Live(world, b)
      case Some(n) => n < |candidates| && Live(world, candidates[n]) && forall i | 0 <= i < n ::
          candidates[i].key in failed' && !Live(world, candidates[i])
  {
    hide Live;
    failed' := failed;
    for i := 0 to |candidates|
      invariant failed' == failed + KeysOf(candidates, i)
      invariant forall k | k in failed' && k !in failed :: exists b :: b in candidates && b.key == k && !Live(world, b)
      invariant forall j | 0 <= j < i :: candidates[j].key in failed' && !Live(world, candidates[j])
    {
      if Live(world, candidates[i]) {
        return Some(i), failed';
      }
      assert candidates[i] in candidates;
      failed' := failed' + {candidates[i].key};
    }
    hit := None;
  }

  ghost predicate Tried(entry: Entry, failed: set<string>) {
    forall b | b in entry.candidates :: b.key in failed
  }

  lemma ExhaustedStays(cluster: Cluster, filter: set<string>, failed: set<string>, more: set<string>)
    requires failed <= more && Exhausted(cluster, filter, failed)
    ensures Exhausted(cluster, filter, more)
  {
    hide Matching;
  }

  lemma TriedMeansExhausted(entry: Entry, filter: set<string>, failed: set<string>, more: set<string>, world: World)
    requires Listed(entry, filter, failed, world) && failed <= more && Tried(entry, more)
    ensures Exhausted(entry.cluster, filter, more)
  {
    CandidatesAreUntriedMatches(entry.cluster, filter, failed);
    hide Matching, CandidatesOf;
  }

  lemma SameId(clusters: seq<Cluster>, c: Cluster, d: Cluster)
    requires UniqueIds(clusters) && c in clusters && d in clusters && c.id == d.id
    ensures c == d
  {
    var i :| 0 <= i < |clusters| && clusters[i] == c;
    var j :| 0 <= j < |clusters| && clusters[j] == d;
  }

  lemma StaysConsistent(before: Bucket, after: Bucket, clusters: seq<Cluster>, filter: set<string>)
    requires UniqueIds(clusters) && Consistent(before, clusters, filter) && before.failedBlocks <= after.failedBlocks
    requires forall id | id in after.failedClusters && id !in before.failedClusters ::
             Done(clusters, filter, after.failedBlocks, id)
    ensures Consistent(after, clusters, filter)
  {
    hide Exhausted, UniqueIds;
    forall c | c in clusters && c.id in after.failedClusters ensures Exhausted(c, filter, after.failedBlocks) {
      if c.id in before.failedClusters {
        ExhaustedStays(c, filter, before.failedBlocks, after.failedBlocks);
      } else {
        var d :| d in clusters && d.id == c.id && Exhausted(d, filter, after.failedBlocks);
        SameId(clusters, c, d);
      }
    }
  }

  lemma DoneStays(clusters: seq<Cluster>, filter: set<string>, failed: set<string>, more: set<string>, id: string)
    requires failed <= more && Done(clusters, filter, failed, id)
    ensures Done(clusters, filter, more, id)
  {
    hide Exhausted;
    var c :| c in clusters && c.id == id && Exhausted(c, filter, failed);
    ExhaustedStays(c, filter, failed, more);
  }

  /** With distinct ids, a pick keeps a truthful memory truthful. */
  lemma PickKeepsConsistent(before: Bucket, after: Bucket, clusters: seq<Cluster>, filter: set<string>, world: World,
                            result: Option<(Cluster, Block)>)
    requires Picked(before, after, clusters, filter, world, result)
    requires UniqueIds(clusters) && Consistent(before, clusters, filter)
    ensures Consistent(after, clusters, filter)
  {
    hide Exhausted, UniqueIds, Consistent, Matching, Live, FirstInLine, FoundStale;
    StaysConsistent(before, after, clusters, filter);
  }

  ghost predicate NoneLive(entry: Entry, world: World) {
    forall b | b in entry.candidates :: !Live(world, b)
  }

  /** What is known after the second pass has tried the first `n` entries. */
  ghost predicate Passed(before: Bucket, now: Bucket, clusters: seq<Cluster>, filter: set<string>, world: World,
                         entries: seq<Entry>, n: nat)
    requires n <= |entries|
  {
    && before.failedBlocks <= now.failedBlocks && before.failedClusters <= now.failedClusters
    && (forall k | k in now.failedBlocks && k !in before.failedBlocks :: FoundStale(before, clusters, filter, world, k))
    && (forall id | id in now.failedClusters && id !in before.failedClusters ::
        Done(clusters, filter, now.failedBlocks, id))
    && (forall i | 0 <= i < n :: Tried(entries[i], now.failedBlocks))
    && (forall i | 0 <= i < n :: NoneLive(entries[i], world))
    && (forall i | 0 <= i < n :: entries[i].cluster.id == "" || entries[i].cluster.id in now.failedClusters)
  }

  lemma NewlyStale(before: Bucket, clusters: seq<Cluster>, filter: set<string>, world: World, entry: Entry, b: Block)
    requires entry.cluster in clusters && entry.cluster.id !in before.failedClusters
    requires Listed(entry, filter, before.failedBlocks, world) && b in entry.candidates && !Live(world, b)
    ensures FoundStale(before, clusters, filter, world, b.key)
  {
    CandidatesAreUntriedMatches(entry.cluster, filter, before.failedBlocks);
    hide Matching, CandidatesOf, Live;
  }

  lemma PassGrows(before: Bucket, now: Bucket, failed: set<string>, failedClusters: set<string>,
                  clusters: seq<Cluster>, filter: set<string>, world: World, entries: seq<Entry>, n: nat)
    requires n < |entries| && Passed(before, now, clusters, filter, world, entries, n)
    requires entries[n].cluster in clusters && entries[n].cluster.id !in before.failedClusters
    requires Listed(entries[n], filter, before.failedBlocks, world)
    requires now.failedBlocks <= failed
    requires forall k | k in failed && k !in now.failedBlocks ::
               exists b :: b in entries[n].candidates && b.key == k && !Live(world, b)
    requires failedClusters == now.failedClusters
          || (failedClusters == now.failedClusters + {entries[n].cluster.id} && Tried(entries[n], failed))
    ensures Passed(before, Bucket(failed, failedClusters), clusters, filter, world, entries, n)
  {
    var entry := entries[n];
    if Tried(entry, failed) {
      TriedMeansExhausted(entry, filter, before.failedBlocks, failed, world);
    }
    hide Live, Exhausted, Done, FoundStale, Listed, Tried;
    forall id | id in failedClusters && id !in before.failedClusters ensures Done(clusters, filter, failed, id) {
      if id in now.failedClusters {
        DoneStays(clusters, filter, now.failedBlocks, failed, id);
      } else {
        EntryIsDone(clusters, filter, failed, entry.cluster);
      }
    }
    forall k | k in failed && k !in before.failedBlocks ensures FoundStale(before, clusters, filter, world, k) {
      if k !in now.failedBlocks {
        var b :| b in entry.candidates && b.key == k && !Live(world, b);
        NewlyStale(before, clusters, filter, world, entry, b);
      }
    }
    forall i | 0 <= i < n ensures Tried(entries[i], failed) {
      TriedStays(entries[i], now.failedBlocks, failed);
    }
  }

  lemma EntryIsDone(clusters: seq<Cluster>, filter: set<string>, failed: set<string>, c: Cluster)
    requires c in clusters && Exhausted(c, filter, failed)
    ensures Done(clusters, filter, failed, c.id)
  {
    hide Exhausted;
  }

  lemma TriedStays(entry: Entry, failed: set<string>, more: set<string>)
    requires Tried(entry, failed) && failed <= more
    ensures Tried(entry, more)
  {}

  lemma MarksExhausted(before: Bucket, failedClusters: set<string>, clusters: seq<Cluster>, filter: set<string>,
                       world: World, entries: seq<Entry>)
    requires Covered(before, failedClusters, clusters, filter, world, entries)
    ensures forall c | c in clusters && Matching(c, filter) != [] && Exhausted(c, filter, before.failedBlocks) ::
            c.id in failedClusters
  {
    hide Listed, Exhausted, Done, Matching;
    forall c | c in clusters && Matching(c, filter) != [] && Exhausted(c, filter, before.failedBlocks)
      ensures c.id in failedClusters
    {
      assert Placed(c, failedClusters, before.failedBlocks, filter, entries);
    }
  }

  /** After both passes every cluster is passed over, and marked if it has matches and an id. */
  lemma ClusterIsPassedOver(before: Bucket, after: Bucket, failedClusters: set<string>, clusters: seq<Cluster>,
                            filter: set<string>, world: World, entries: seq<Entry>, c: Cluster)
    requires Covered(before, failedClusters, clusters, filter, world, entries) && failedClusters <= after.failedClusters
    requires Passed(before, after, clusters, filter, world, entries, |entries|) && c in clusters
    ensures PassedOver(before, after, clusters, filter, c)
    ensures PassedOver(before, before, clusters, filter, c) || NothingLive(before, filter, world, c)
    ensures c.id == "" || Matching(c, filter) == [] || c.id in after.failedClusters
  {
    hide Listed, Exhausted, Done, Tried, Matching, FoundStale, NothingLive, NoneLive, Live;
    assert Placed(c, failedClusters, before.failedBlocks, filter, entries);
    if c.id !in failedClusters {
      if Exhausted(c, filter, before.failedBlocks) {
        ExhaustedStays(c, filter, before.failedBlocks, after.failedBlocks);
        EntryIsDone(clusters, filter, before.failedBlocks, c);
      } else {
        var e :| e in entries && e.cluster == c;
        var i :| 0 <= i < |entries| && entries[i] == e;
        NoneLiveMeans(e, before, filter, world);
        TriedMeansExhausted(e, filter, before.failedBlocks, after.failedBlocks, world);
      }
      EntryIsDone(clusters, filter, after.failedBlocks, c);
    }
  }

  lemma NoneLiveMeans(entry: Entry, before: Bucket, filter: set<string>, world: World)
    requires Listed(entry, filter, before.failedBlocks, world) && NoneLive(entry, world)
    ensures NothingLive(before, filter, world, entry.cluster)
  {
    CandidatesAreUntriedMatches(entry.cluster, filter, before.failedBlocks);
    hide Matching, CandidatesOf, Live, Distance;
  }

  lemma PickedNothing(before: Bucket, after: Bucket, failedClusters: set<string>, clusters: seq<Cluster>,
                      filter: set<string>, world: World, entries: seq<Entry>)
    requires Covered(before, failedClusters, clusters, filter, world, entries) && failedClusters <= after.failedClusters
    requires Passed(before, after, clusters, filter, world, entries, |entries|)
    ensures Picked(before, after, clusters, filter, world, None)
  {
    hide Listed, Exhausted, UniqueIds, Live, Done, Tried, Matching, FoundStale, PassedOver, Covered, NothingLive;
    hide NoneLive;
    MarksExhausted(before, failedClusters, clusters, filter, world, entries);
    forall c | c in clusters
      ensures PassedOver(before, after, clusters, filter, c)
      ensures PassedOver(before, before, clusters, filter, c) || NothingLive(before, filter, world, c)
      ensures c.id == "" || Matching(c, filter) == [] || c.id in after.failedClusters
    {
      ClusterIsPassedOver(before, after, failedClusters, clusters, filter, world, entries, c);
    }
  }

  /** Matches of the cluster that are nearer than its first live candidate have failed. */
  lemma NearerHaveFailed(entry: Entry, filter: set<string>, before: set<string>, after: set<string>, world: World,
                         k: nat, b: Block)
    requires Listed(entry, filter, before, world) && before <= after && k < |entry.candidates|
    requires forall i | 0 <= i < k :: entry.candidates[i].key in after
    requires b in Matching(entry.cluster, filter) && Distance(world, b) < Distance(world, entry.candidates[k])
    ensures b.key in after
  {
    CandidatesAreUntriedMatches(entry.cluster, filter, before);
    hide Matching, CandidatesOf, Distance;
    if b.key !in before {
      assert b in entry.candidates;
      var i :| 0 <= i < |entry.candidates| && entry.candidates[i] == b;
    }
  }

  lemma ListedMatches(entry: Entry, filter: set<string>, failed: set<string>, world: World, k: nat)
    requires Listed(entry, filter, failed, world) && k < |entry.candidates|
    ensures entry.candidates[k] in Matching(entry.cluster, filter) && entry.candidates[k].key !in failed
  {
    CandidatesAreUntriedMatches(entry.cluster, filter, failed);
    hide Matching, CandidatesOf, Distance;
    assert entry.candidates[k] in entry.candidates;
  }

  lemma PickedBlock(before: Bucket, after: Bucket, failedClusters: set<string>, clusters: seq<Cluster>,
                    filter: set<string>, world: World, entries: seq<Entry>, n: nat, k: nat)
    requires Covered(before, failedClusters, clusters, filter, world, entries) && failedClusters <= after.failedClusters
    requires n < |entries| && Passed(before, after, clusters, filter, world, entries, n)
    requires SortedBy(EntryOrder(world), entries)
    requires k < |entries[n].candidates| && Live(world, entries[n].candidates[k])
    requires forall i | 0 <= i < k :: entries[n].candidates[i].key in after.failedBlocks
    ensures Picked(before, after, clusters, filter, world, Some((entries[n].cluster, entries[n].candidates[k])))
  {
    hide Exhausted, UniqueIds, Live, Done, Tried, Matching, CandidatesOf, Distance, EntryOrder, FirstInLine, Listed;
    hide SortedBy;
    hide FoundStale, Placed;
    assert entries[n] in entries;
    var entry := entries[n];
    MarksExhausted(before, failedClusters, clusters, filter, world, entries);
    NothingAhead(before, after, failedClusters, clusters, filter, world, entries, n);
    ListedMatches(entry, filter, before.failedBlocks, world, k);
    forall b | b in Matching(entry.cluster, filter) && Distance(world, b) < Distance(world, entry.candidates[k])
      ensures b.key in after.failedBlocks
    {
      NearerHaveFailed(entry, filter, before.failedBlocks, after.failedBlocks, world, k, b);
    }
  }

  /** A block ahead of the first entry that is being tried has failed, or its cluster is passed over. */
  lemma AheadIsPast(before: Bucket, after: Bucket, failedClusters: set<string>, clusters: seq<Cluster>,
                    filter: set<string>, world: World, entries: seq<Entry>, n: nat, other: Cluster, b: Block)
    requires Covered(before, failedClusters, clusters, filter, world, entries) && failedClusters <= after.failedClusters
    requires n < |entries| && Passed(before, after, clusters, filter, world, entries, n)
    requires SortedBy(EntryOrder(world), entries)
    requires other in clusters && b in Matching(other, filter) && entries[n].candidates != []
    requires Ahead(world, other, b, entries[n].cluster, entries[n].candidates[0])
    ensures b.key in after.failedBlocks || PassedOver(before, after, clusters, filter, other)
  {
    hide Matching, Distance, EntryOrder, Live, Done, FoundStale, Listed, Tried, Exhausted, Ahead;
    assert Placed(other, failedClusters, before.failedBlocks, filter, entries);
    if other.id !in failedClusters {
      if Exhausted(other, filter, before.failedBlocks) {
        ExhaustedStays(other, filter, before.failedBlocks, after.failedBlocks);
        EntryIsDone(clusters, filter, after.failedBlocks, other);
      } else {
        var e :| e in entries && e.cluster == other;
        var m :| 0 <= m < |entries| && entries[m] == e;
        if m >= n {
          LaterIsNotAhead(before, filter, world, entries, n, m, b);
        } else {
          TriedMeansExhausted(e, filter, before.failedBlocks, after.failedBlocks, world);
          EntryIsDone(clusters, filter, after.failedBlocks, other);
        }
      }
    }
  }

  lemma LaterIsNotAhead(before: Bucket, filter: set<string>, world: World, entries: seq<Entry>, n: nat, m: nat,
                        b: Block)
    requires SortedBy(EntryOrder(world), entries) && n <= m < |entries|
    requires entries[n].candidates != [] && Listed(entries[m], filter, before.failedBlocks, world)
    requires b in Matching(entries[m].cluster, filter)
    requires Ahead(world, entries[m].cluster, b, entries[n].cluster, entries[n].candidates[0])
    ensures b.key in before.failedBlocks
  {
    CandidatesAreUntriedMatches(entries[m].cluster, filter, before.failedBlocks);
    hide Matching, CandidatesOf, Distance, EntryOrder;
    if b.key !in before.failedBlocks {
      assert b in entries[m].candidates;
      var i :| 0 <= i < |entries[m].candidates| && entries[m].candidates[i] == b;
      if m > n {
        EntryOrderMeans(world, entries[n], entries[m]);
      }
    }
  }

  lemma NothingAhead(before: Bucket, after: Bucket, failedClusters: set<string>, clusters: seq<Cluster>,
                     filter: set<string>, world: World, entries: seq<Entry>, n: nat)
    requires Covered(before, failedClusters, clusters, filter, world, entries) && failedClusters <= after.failedClusters
    requires n < |entries| && Passed(before, after, clusters, filter, world, entries, n)
    requires SortedBy(EntryOrder(world), entries)
    ensures FirstInLine(before, after, clusters, filter, world, entries[n].cluster)
  {
    hide Matching, CandidatesOf, Distance, EntryOrder, Live, Done, FoundStale, Listed, Tried, Exhausted, Ahead;
    hide PassedOver, Placed;
    hide SortedBy;
    assert entries[n] in entries;
    var cluster := entries[n].cluster;
    ListedSome(entries[n], filter, before.failedBlocks, world);
    ListedMatches(entries[n], filter, before.failedBlocks, world, 0);
    var p := entries[n].candidates[0];
    forall other, b | other in clusters && b in Matching(other, filter) && Ahead(world, other, b, cluster, p)
      ensures b.key in after.failedBlocks || PassedOver(before, after, clusters, filter, other)
    {
      AheadIsPast(before, after, failedClusters, clusters, filter, world, entries, n, other, b);
    }
  }

  lemma ListedSome(entry: Entry, filter: set<string>, failed: set<string>, world: World)
    requires Listed(entry, filter, failed, world)
    ensures entry.candidates != []
  {}

  lemma EntryOrderMeans(world: World, a: Entry, b: Entry)
    requires EntryOrder(world)(a, b) && a.candidates != [] && b.candidates != []
    ensures var x, y := Distance(world, a.candidates[0]), Distance(world, b.candidates[0]);
      x < y || (x == y && a.cluster.count <= b.cluster.count)
  {}

  /** Both passes. The entries are tried nearest preferred block first, smaller clusters first among equals. */
  method PickClusterCandidate(clusters: seq<Cluster>, filter: set<string>, world: World, bucket: Bucket)
    returns (result: Option<(Cluster, Block)>, after: Bucket)
    ensures Picked(bucket, after, clusters, filter, world, result)
    ensures PickIs(bucket, after, clusters, filter, world, result)
    ensures result.Some? ==> var block := result.value.1;
      && block.key in world.live && world.live[block.key] != "" && world.live[block.key] !in world.air
      && (block.name == "" || block.name == world.live[block.key])
  {
    hide Listed, Exhausted, Live, Picked, Passed, Covered, Tried, NoneLive;
    hide Lined, Rising, Marked, InTurn, TriedInVain, PickIs, KeysOf;
    ghost var listedAt, origins;
    var listed, failedClusters;
    listed, failedClusters, listedAt := ListClusters(clusters, filter, world, bucket);
    var entries := Sort(EntryOrder(world), listed);
    EntriesKept(listed, world);
    EntryOrderIsTotal(world);
    SortSorts(EntryOrder(world), listed);
    hide EntryOrder, Sort;
    origins := SortedInTurn(bucket, clusters, filter, world, listed, listedAt);
    LinedUp(bucket, clusters, filter, world, entries, origins);
    PassStarts(bucket, failedClusters, clusters, filter, world, listed, entries);
    TrialStarts(bucket, failedClusters, clusters, filter, world, origins);
    after := Bucket(bucket.failedBlocks, failedClusters);
    for n := 0 to |entries|
      invariant failedClusters <= after.failedClusters
      invariant Passed(bucket, after, clusters, filter, world, entries, n)
      invariant TriedInVain(bucket, after, clusters, filter, world, origins, n)
    {
      assert entries[n] in entries;
      CoveredEntry(bucket, failedClusters, clusters, filter, world, entries, n);
      var hit, failed := TryCandidates(entries[n].candidates, world, after.failedBlocks);
      if hit.Some? {
        LiveMeans(world, entries[n].candidates[hit.value]);
        LineStops(bucket, after, clusters, filter, world, entries, origins, n, hit.value);
        PassGrows(bucket, after, failed, after.failedClusters, clusters, filter, world, entries, n);
        after := Bucket(failed, after.failedClusters);
        PickedBlock(bucket, after, failedClusters, clusters, filter, world, entries, n, hit.value);
        return Some((entries[n].cluster, entries[n].candidates[hit.value])), after;
      }
      TriedAll(entries[n], failed, world);
      TrialGoesOn(bucket, after, clusters, filter, world, entries, origins, n);
      var id := entries[n].cluster.id;
      var more := if id != "" then after.failedClusters + {id} else after.failedClusters;
      PassGrows(bucket, after, failed, more, clusters, filter, world, entries, n);
      after := Bucket(failed, more);
      PassNext(bucket, after, clusters, filter, world, entries, n);
    }
    PickedNothing(bucket, after, failedClusters, clusters, filter, world, entries);
    LineRunsOut(bucket, after, clusters, filter, world, entries, origins);
    RanOut(bucket, after, clusters, filter, world);
    result := None;
  }

  lemma LiveMeans(world: World, block: Block)
    requires Live(world, block)
    ensures block.key in world.live && world.live[block.key] != "" && world.live[block.key] !in world.air
    ensures block.name == "" || block.name == world.live[block.key]
  {}

  lemma LinedUp(bucket: Bucket, clusters: seq<Cluster>, filter: set<string>, world: World, entries: seq<Entry>,
                origins: seq<nat>)
    requires Lined(bucket, clusters, filter, world, entries, origins, |clusters|)
    ensures |origins| == |entries|
  {}

  lemma RanOut(bucket: Bucket, after: Bucket, clusters: seq<Cluster>, filter: set<string>, world: World)
    requires RunsOut(bucket, after, clusters, filter, world)
    ensures PickIs(bucket, after, clusters, filter, world, None)
  {
    hide RunsOut;
  }

  lemma EntriesKept(listed: seq<Entry>, world: World)
    ensures forall e :: e in Sort(EntryOrder(world), listed) <==> e in listed
  {
    SortKeeps(EntryOrder(world), listed);
    hide Sort, EntryOrder;
    forall e ensures e in Sort(EntryOrder(world), listed) <==> e in listed {
      assert e in multiset(Sort(EntryOrder(world), listed)) <==> e in multiset(listed);
    }
  }

  lemma TriedAll(entry: Entry, failed: set<string>, world: World)
    requires forall b | b in entry.candidates :: b.key in failed && !Live(world, b)
    ensures Tried(entry, failed) && NoneLive(entry, world)
  {}

  lemma PassNext(before: Bucket, now: Bucket, clusters: seq<Cluster>, filter: set<string>, world: World,
                 entries: seq<Entry>, n: nat)
    requires n < |entries| && Passed(before, now, clusters, filter, world, entries, n)
             && Tried(entries[n], now.failedBlocks)
    requires NoneLive(entries[n], world) && (entries[n].cluster.id == "" || entries[n].cluster.id in now.failedClusters)
    ensures Passed(before, now, clusters, filter, world, entries, n + 1)
  {
    hide Live, Matching, Done, Tried, NoneLive;
  }

  lemma CoveredEntry(before: Bucket, failedClusters: set<string>, clusters: seq<Cluster>, filter: set<string>,
                     world: World, entries: seq<Entry>, n: nat)
    requires Covered(before, failedClusters, clusters, filter, world, entries) && n < |entries|
    ensures entries[n].cluster in clusters && entries[n].cluster.id !in before.failedClusters
    ensures Listed(entries[n], filter, before.failedBlocks, world)
  {
    hide Listed, Done, Placed;
    assert entries[n] in entries;
  }

  lemma PassStarts(bucket: Bucket, failedClusters: set<string>, clusters: seq<Cluster>, filter: set<string>,
                   world: World, listed: seq<Entry>, entries: seq<Entry>)
    requires Covered(bucket, failedClusters, clusters, filter, world, listed)
    requires forall e :: e in entries <==> e in listed
    ensures Covered(bucket, failedClusters, clusters, filter, world, entries)
    ensures Passed(bucket, Bucket(bucket.failedBlocks, failedClusters), clusters, filter, world, entries, 0)
  {
    hide Listed, Exhausted, Live, Done, Matching;
  }

  // ---------------------------------------------------------------- what no answer means

  lemma DoneIsExhausted(clusters: seq<Cluster>, filter: set<string>, failed: set<string>, c: Cluster)
    requires UniqueIds(clusters) && c in clusters
    ensures Done(clusters, filter, failed, c.id) <==> Exhausted(c, filter, failed)
  {
    hide Exhausted, UniqueIds;
    if Done(clusters, filter, failed, c.id) {
      var d :| d in clusters && d.id == c.id && Exhausted(d, filter, failed);
      SameId(clusters, c, d);
    }
  }

  /** With distinct ids a pick finds nothing exactly when no cluster that is not marked has a live match
      that has not failed: what marked clusters list is never looked at. */
  lemma PicksNothingIff(before: Bucket, after: Bucket, clusters: seq<Cluster>, filter: set<string>, world: World,
                        result: Option<(Cluster, Block)>)
    requires Picked(before, after, clusters, filter, world, result) && UniqueIds(clusters)
    ensures result.None? <==> forall c | c in clusters ::
            c.id in before.failedClusters || NothingLive(before, filter, world, c)
  {
    hide UniqueIds, Matching, Live, FirstInLine, FoundStale, Done, Distance;
    if result.None? {
      forall c | c in clusters ensures c.id in before.failedClusters || NothingLive(before, filter, world, c) {
        DoneIsExhausted(clusters, filter, before.failedBlocks, c);
      }
    }
  }

  ghost predicate AllExhausted(clusters: seq<Cluster>, filter: set<string>, failed: set<string>) {
    forall c | c in clusters :: Exhausted(c, filter, failed)
  }

  /** A cluster that is not marked lists a match at this coordinate. */
  ghost predicate OfferedUnmarked(bucket: Bucket, clusters: seq<Cluster>, filter: set<string>, key: string) {
    exists d, b :: d in clusters && d.id !in bucket.failedClusters && b in Matching(d, filter) && b.key == key
  }

  /** Whatever the marked clusters list has failed, or is listed by a cluster that is not marked as well. */
  ghost predicate MarkedAreSpent(bucket: Bucket, clusters: seq<Cluster>, filter: set<string>) {
    forall c, b | c in clusters && c.id in bucket.failedClusters && b in Matching(c, filter) ::
      b.key in bucket.failedBlocks || OfferedUnmarked(bucket, clusters, filter, b.key)
  }

  /** When a pick finds nothing, everything that was listed has failed exactly when the marked clusters
      were spent; otherwise untried blocks are left behind a mark. */
  lemma EmptyPickIff(before: Bucket, after: Bucket, clusters: seq<Cluster>, filter: set<string>, world: World)
    requires Picked(before, after, clusters, filter, world, None) && UniqueIds(clusters)
    ensures AllExhausted(clusters, filter, after.failedBlocks) <==> MarkedAreSpent(before, clusters, filter)
  {
    hide UniqueIds, Matching, Live, FirstInLine, Done, NothingLive, Distance;
    forall c | c in clusters && c.id !in before.failedClusters ensures Exhausted(c, filter, after.failedBlocks) {
      DoneIsExhausted(clusters, filter, after.failedBlocks, c);
    }
    if MarkedAreSpent(before, clusters, filter) {
      forall c, b | c in clusters && b in Matching(c, filter) ensures b.key in after.failedBlocks {
        if c.id in before.failedClusters && b.key !in before.failedBlocks {
          var d, x :| d in clusters && d.id !in before.failedClusters && x in Matching(d, filter) && x.key == b.key;
          assert Exhausted(d, filter, after.failedBlocks);
        }
      }
    }
    if AllExhausted(clusters, filter, after.failedBlocks) {
      forall c, b | c in clusters && c.id in before.failedClusters && b in Matching(c, filter)
        ensures b.key in before.failedBlocks || OfferedUnmarked(before, clusters, filter, b.key)
      {
        assert Exhausted(c, filter, after.failedBlocks);
        if b.key !in before.failedBlocks {
          assert FoundStale(before, clusters, filter, world, b.key);
        }
      }
    }
  }

  /** No coordinate is a match in two clusters. */
  ghost predicate KeysApart(clusters: seq<Cluster>, filter: set<string>) {
    forall c, d, b, x | c in clusters && d in clusters && b in Matching(c, filter) && x in Matching(d, filter)
        && b.key == x.key ::
      c.id == d.id
  }

  /** When clusters do not share coordinates, that is when the memory was truthful about the query. */
  lemma EmptyPickIffConsistent(before: Bucket, after: Bucket, clusters: seq<Cluster>, filter: set<string>, world: World)
    requires Picked(before, after, clusters, filter, world, None) && UniqueIds(clusters) && KeysApart(clusters, filter)
    ensures AllExhausted(clusters, filter, after.failedBlocks) <==> Consistent(before, clusters, filter)
  {
    hide Picked, UniqueIds, Matching, AllExhausted;
    EmptyPickIff(before, after, clusters, filter, world);
  }
}
