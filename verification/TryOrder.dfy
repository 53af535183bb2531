/**
 The order in which a pick tries the blocks at hand, and what exactly it answers and remembers.
 */
module TryOrder {
  import opened Options
  import opened Sorting

  /** A block as the resource cache reports it; `key` is the text of its coordinates. */
  datatype Block = Block(key: string, name: string)
  datatype Cluster = Cluster(id: string, count: int, blocks: seq<Block>)

  /** What the bot sees at one moment: the live block names, which names are air, and how far
      (squared) each coordinate is. */
  datatype World = World(live: map<string, string>, air: set<string>, distance: map<string, nat>)

  datatype Bucket = Bucket(failedBlocks: set<string>, failedClusters: set<string>)

  const UNKNOWN_DISTANCE: nat := 999999

  function Distance(world: World, block: Block): (d: nat)
    ensures block.key in world.distance ==> d == world.distance[block.key]
    ensures block.key !in world.distance ==> d == 999999
  {
    if block.key in world.distance then world.distance[block.key] else UNKNOWN_DISTANCE
  }

  /** The block is still there: not missing, not air, and the one that was reported. */
  predicate Live(world: World, block: Block) {
    && block.key in world.live
    && var name := world.live[block.key];
    && name != "" && name !in world.air && (block.name == "" || name == block.name)
  }

  /** Asked for, by name unless every name will do, and not failed. */
  predicate Wanted(b: Block, filter: set<string>, failed: set<string>) {
    (filter == {} || b.name in filter) && b.key !in failed
  }

  function Select(blocks: seq<Block>, filter: set<string>, failed: set<string>): seq<Block> {
    if blocks == [] then []
    else (if Wanted(blocks[0], filter, failed) then [blocks[0]] else [])
         + Select(blocks[1..], filter, failed)
  }

  function Matching(cluster: Cluster, filter: set<string>): seq<Block> { Select(cluster.blocks, filter, {}) }

  function CandidatesOf(cluster: Cluster, filter: set<string>, failed: set<string>): seq<Block> {
    Select(cluster.blocks, filter, failed)
  }

  lemma {:induction false} SelectSelects(blocks: seq<Block>, filter: set<string>, failed: set<string>)
    ensures forall b :: b in Select(blocks, filter, failed) <==>
                        b in blocks && (filter == {} || b.name in filter) && b.key !in failed
    decreases |blocks|
  {
    if blocks != [] {
      SelectSelects(blocks[1..], filter, failed);
      assert blocks == [blocks[0]] + blocks[1..];
    }
  }

  lemma CandidatesAreUntriedMatches(cluster: Cluster, filter: set<string>, failed: set<string>)
    ensures forall b :: b in CandidatesOf(cluster, filter, failed) <==>
                        b in Matching(cluster, filter) && b.key !in failed
  {
    SelectSelects(cluster.blocks, filter, {});
    SelectSelects(cluster.blocks, filter, failed);
    hide Select;
  }

  /** The first candidate of the cluster in the order of distance. */
  function Preferred(world: World, entry: Entry): nat
    requires entry.candidates != []
  {
    Distance(world, entry.candidates[0])
  }

  datatype Entry = Entry(cluster: Cluster, candidates: seq<Block>)

  function NearestFirst(world: World): (Block, Block) -> bool {
    (a: Block, b: Block) => Distance(world, a) <= Distance(world, b)
  }

  function EntryOrder(world: World): (Entry, Entry) -> bool {
    (a: Entry, b: Entry) =>
      a.candidates == [] || (b.candidates != [] && (
        Preferred(world, a) < Preferred(world, b)
        || (Preferred(world, a) == Preferred(world, b) && a.cluster.count <= b.cluster.count)))
  }

  lemma NearestFirstIsTotal(world: World)
    ensures TotalOrder(NearestFirst(world))
  {}

  lemma EntryOrderIsTotal(world: World)
    ensures TotalOrder(EntryOrder(world))
  {
    hide Distance;
  }

  // ---------------------------------------------------------------- the order of the tries

  /** Block `v` of the cluster is asked for and has not failed. */
  predicate Untried(c: Cluster, filter: set<string>, failed: set<string>, v: nat): (untried: bool)
    ensures untried ==> v < |c.blocks|
  {
    v < |c.blocks| && (filter == {} || c.blocks[v].name in filter) && c.blocks[v].key !in failed
  }

  /** The cluster has blocks that are asked for, and all of them have failed. */
  ghost predicate Spent(c: Cluster, filter: set<string>, failed: set<string>) {
    (exists v: nat :: Untried(c, filter, {}, v)) && (forall v: nat :: !Untried(c, filter, failed, v))
  }

  ghost predicate SpentBefore(bucket: Bucket, clusters: seq<Cluster>, filter: set<string>, id: string, n: nat) {
    exists w :: 0 <= w < n && w < |clusters| && clusters[w].id == id && Spent(clusters[w], filter, bucket.failedBlocks)
  }

  /** The cluster's id was marked before, or a spent cluster of that id stands further up. */
  ghost predicate Skipped(bucket: Bucket, clusters: seq<Cluster>, filter: set<string>, u: nat)
    requires u < |clusters|
  {
    clusters[u].id in bucket.failedClusters || SpentBefore(bucket, clusters, filter, clusters[u].id, u)
  }

  ghost predicate Tryable(bucket: Bucket, clusters: seq<Cluster>, filter: set<string>, u: nat, v: nat): (tryable: bool)
    ensures tryable ==> u < |clusters| && v < |clusters[u].blocks|
  {
    u < |clusters| && !Skipped(bucket, clusters, filter, u) && Untried(clusters[u], filter, bucket.failedBlocks, v)
  }

  predicate Nearer(world: World, clusters: seq<Cluster>, u: nat, b: Block, w: nat, p: Block)
    requires u < |clusters| && w < |clusters|
  {
    || Distance(world, b) < Distance(world, p)
    || (Distance(world, b) == Distance(world, p)
        && (clusters[u].count < clusters[w].count || (clusters[u].count == clusters[w].count && u < w)))
  }

  /** Cluster `u` is tried before cluster `w`: some untried block of `u` is nearer than all of `w`;
      at the same distance the smaller cluster comes first, and at the same size the one listed first. */
  ghost predicate Sooner(bucket: Bucket, clusters: seq<Cluster>, filter: set<string>, world: World, u: nat, w: nat)
    requires u < |clusters| && w < |clusters|
  {
    exists v: nat :: Untried(clusters[u], filter, bucket.failedBlocks, v) &&
      forall x: nat | Untried(clusters[w], filter, bucket.failedBlocks, x) ::
        Nearer(world, clusters, u, clusters[u].blocks[v], w, clusters[w].blocks[x])
  }

  /** Block `v` of cluster `u` is tried before block `x` of cluster `w`: within one cluster the nearer
      block comes first, and at the same distance the one listed first. */
  ghost predicate Earlier(bucket: Bucket, clusters: seq<Cluster>, filter: set<string>, world: World, u: nat, v: nat,
                          w: nat, x: nat)
    requires Tryable(bucket, clusters, filter, u, v) && Tryable(bucket, clusters, filter, w, x)
  {
    if u != w then Sooner(bucket, clusters, filter, world, u, w)
    else
      var d, e := Distance(world, clusters[u].blocks[v]), Distance(world, clusters[w].blocks[x]);
      d < e || (d == e && v < x)
  }

  /** The pick stops at block `v` of cluster `u`: the first one in that order that is there. Exactly what
      comes before it is remembered, and exactly the clusters with nothing left are marked. */
  ghost predicate StopsAt(bucket: Bucket, after: Bucket, clusters: seq<Cluster>, filter: set<string>, world: World,
                          u: nat, v: nat): (stops: bool)
    ensures stops ==> u < |clusters| && v < |clusters[u].blocks|
  {
    && Tryable(bucket, clusters, filter, u, v) && Live(world, clusters[u].blocks[v])
    && (forall w: nat, x: nat | Tryable(bucket, clusters, filter, w, x)
        && Earlier(bucket, clusters, filter, world, w, x, u, v) :: !Live(world, clusters[w].blocks[x]))
    && (forall k :: k in after.failedBlocks <==>
        k in bucket.failedBlocks || TriedBefore(bucket, clusters, filter, world, u, v, k))
    && (forall id :: id in after.failedClusters <==>
        || id in bucket.failedClusters || SpentBefore(bucket, clusters, filter, id, |clusters|)
        || (id != "" && LeftBefore(bucket, clusters, filter, world, u, id)))
  }

  ghost predicate TriedBefore(bucket: Bucket, clusters: seq<Cluster>, filter: set<string>, world: World, u: nat, v: nat,
                              k: string)
    requires Tryable(bucket, clusters, filter, u, v)
  {
    exists w: nat, x: nat :: Tryable(bucket, clusters, filter, w, x)
        && Earlier(bucket, clusters, filter, world, w, x, u, v) && clusters[w].blocks[x].key == k
  }

  ghost predicate LeftBefore(bucket: Bucket, clusters: seq<Cluster>, filter: set<string>, world: World, u: nat,
                             id: string)
    requires u < |clusters|
  {
    exists w: nat, x: nat :: Tryable(bucket, clusters, filter, w, x) && clusters[w].id == id && w != u
        && Sooner(bucket, clusters, filter, world, w, u)
  }

  /** Nothing that can be tried is there: all of it is remembered, and its clusters are marked. */
  ghost predicate RunsOut(bucket: Bucket, after: Bucket, clusters: seq<Cluster>, filter: set<string>, world: World) {
    && (forall w: nat, x: nat | Tryable(bucket, clusters, filter, w, x) :: !Live(world, clusters[w].blocks[x]))
    && (forall k :: k in after.failedBlocks <==>
        || k in bucket.failedBlocks
        || exists w: nat, x: nat :: Tryable(bucket, clusters, filter, w, x) && clusters[w].blocks[x].key == k)
    && (forall id :: id in after.failedClusters <==>
        || id in bucket.failedClusters || SpentBefore(bucket, clusters, filter, id, |clusters|)
        || (id != "" && Offers(bucket, clusters, filter, id)))
  }

  ghost predicate Offers(bucket: Bucket, clusters: seq<Cluster>, filter: set<string>, id: string) {
    exists w: nat, x: nat :: Tryable(bucket, clusters, filter, w, x) && clusters[w].id == id
  }

  /** All that one pick does: what it answers, and what its memory is afterwards. */
  ghost predicate PickIs(bucket: Bucket, after: Bucket, clusters: seq<Cluster>, filter: set<string>, world: World,
                         result: Option<(Cluster, Block)>) {
    if result.None? then RunsOut(bucket, after, clusters, filter, world)
    else
      exists u: nat, v: nat :: StopsAt(bucket, after, clusters, filter, world, u, v)
          && result == Some((clusters[u], clusters[u].blocks[v]))
  }

  // ---------------------------------------------------------------- the candidates of one cluster

  lemma SelectUnfolds(blocks: seq<Block>, filter: set<string>, failed: set<string>)
    requires blocks != []
    ensures Select(blocks, filter, failed)
         == (if Wanted(blocks[0], filter, failed) then [blocks[0]] else []) + Select(blocks[1..], filter, failed)
  {}

  /** Where the selected blocks stand. */
  ghost predicate SelectedAt(blocks: seq<Block>, filter: set<string>, failed: set<string>, selected: seq<Block>,
                             places: seq<nat>) {
    && |places| == |selected|
    && (forall i | 0 <= i < |places| ::
          places[i] < |blocks| && Wanted(blocks[places[i]], filter, failed) && selected[i] == blocks[places[i]])
    && (forall i, j | 0 <= i < j < |places| :: places[i] < places[j])
    && (forall v: nat {:trigger v in places} | v < |blocks| && Wanted(blocks[v], filter, failed) :: v in places)
  }

  lemma {:induction false} SelectPlaces(blocks: seq<Block>, filter: set<string>, failed: set<string>)
    returns (places: seq<nat>)
    ensures SelectedAt(blocks, filter, failed, Select(blocks, filter, failed), places)
    decreases |blocks|
  {
    hide SelectedAt, Wanted, Select;
    if blocks == [] {
      NothingSelected(filter, failed);
      places := [];
    } else {
      SelectUnfolds(blocks, filter, failed);
      var below := SelectPlaces(blocks[1..], filter, failed);
      assert blocks == [blocks[0]] + blocks[1..];
      if Wanted(blocks[0], filter, failed) {
        places := [0] + Shifted(below);
        SelectedMore(blocks[0], blocks[1..], filter, failed, Select(blocks[1..], filter, failed), below);
      } else {
        places := Shifted(below);
        assert Select(blocks, filter, failed) == Select(blocks[1..], filter, failed);
        SelectedSame(blocks[0], blocks[1..], filter, failed, Select(blocks[1..], filter, failed), below);
      }
    }
  }

  lemma SelectedMore(b: Block, rest: seq<Block>, filter: set<string>, failed: set<string>, selected: seq<Block>,
                     places: seq<nat>)
    requires Wanted(b, filter, failed) && SelectedAt(rest, filter, failed, selected, places)
    ensures SelectedAt([b] + rest, filter, failed, [b] + selected, [0] + Shifted(places))
  {
    hide Wanted;
    var all, ps := [b] + rest, [0] + Shifted(places);
    forall i | 0 <= i < |ps|
      ensures ps[i] < |all| && Wanted(all[ps[i]], filter, failed) && ([b] + selected)[i] == all[ps[i]]
    {
      if i > 0 {
        var k: nat := i - 1;
        assert ps[i] == places[k] + 1 && all[ps[i]] == rest[places[k]];
      }
    }
    forall v: nat | v < |all| && Wanted(all[v], filter, failed) ensures v in ps {
      if v > 0 {
        assert (v - 1) as nat in places by { assert rest[v - 1] == all[v]; }
        InShifted(places, v);
      } else {
        assert ps[0] == v;
      }
    }
  }

  lemma SelectedSame(b: Block, rest: seq<Block>, filter: set<string>, failed: set<string>, selected: seq<Block>,
                     places: seq<nat>)
    requires !Wanted(b, filter, failed) && SelectedAt(rest, filter, failed, selected, places)
    ensures SelectedAt([b] + rest, filter, failed, selected, Shifted(places))
  {
    hide Wanted;
    forall v: nat | v < |[b] + rest| && Wanted(([b] + rest)[v], filter, failed) ensures v in Shifted(places) {
      assert v > 0 && rest[v - 1] == ([b] + rest)[v];
      assert (v - 1) as nat in places;
      InShifted(places, v);
    }
  }

  lemma NothingSelected(filter: set<string>, failed: set<string>)
    ensures SelectedAt([], filter, failed, Select([], filter, failed), [])
  {}

  lemma InShifted(places: seq<nat>, v: nat)
    ensures v in Shifted(places) <==> v > 0 && (v - 1) as nat in places
  {
    if v > 0 && (v - 1) as nat in places {
      var i :| 0 <= i < |places| && places[i] == v - 1;
      assert Shifted(places)[i] == v;
    }
  }

  /** The candidates are the untried blocks at these places, each once, nearest first and then as listed. */
  ghost predicate TriesOf(c: Cluster, filter: set<string>, failed: set<string>, world: World, candidates: seq<Block>,
                          places: seq<nat>) {
    && |places| == |candidates|
    && (forall i | 0 <= i < |places| :: Untried(c, filter, failed, places[i]) && candidates[i] == c.blocks[places[i]])
    && (forall v: nat {:trigger v in places} | Untried(c, filter, failed, v) :: v in places)
    && (forall i, j | 0 <= i < j < |places| ::
          || Distance(world, candidates[i]) < Distance(world, candidates[j])
          || (Distance(world, candidates[i]) == Distance(world, candidates[j]) && places[i] < places[j]))
  }

  function Tries(c: Cluster, filter: set<string>, failed: set<string>, world: World): seq<Block> {
    Sort(NearestFirst(world), CandidatesOf(c, filter, failed))
  }

  lemma TriesAreInOrder(c: Cluster, filter: set<string>, failed: set<string>, world: World) returns (places: seq<nat>)
    ensures TriesOf(c, filter, failed, world, Tries(c, filter, failed, world), places)
  {
    hide Select, Sort, Distance, TotalOrder, Arranges, TriesOf, Untried, Wanted, NearestFirst;
    var selected := CandidatesOf(c, filter, failed);
    var listed := SelectPlaces(c.blocks, filter, failed);
    forall v: nat | Untried(c, filter, failed, v) ensures v in listed {
      UntriedMeans(c, filter, failed, v);
    }
    forall i | 0 <= i < |listed| ensures Untried(c, filter, failed, listed[i]) {
      UntriedMeans(c, filter, failed, listed[i]);
    }
    NearestFirstIsTotal(world);
    var order := SortIsStable(NearestFirst(world), selected);
    OrderFits(NearestFirst(world), selected, order);
    places := Composed(listed, order);
    assert Tries(c, filter, failed, world) == Sort(NearestFirst(world), selected);
    ComposedTries(c, filter, failed, world, selected, listed, order);
  }

  lemma UntriedMeans(c: Cluster, filter: set<string>, failed: set<string>, v: nat)
    ensures Untried(c, filter, failed, v) <==> v < |c.blocks| && Wanted(c.blocks[v], filter, failed)
  {}

  lemma OrderFits<T(!new)>(leq: (T, T) -> bool, xs: seq<T>, order: seq<nat>)
    requires Arranges(leq, xs, Sort(leq, xs), order)
    ensures |order| == |xs| && forall i | 0 <= i < |order| :: order[i] < |xs|
  {}

  function Composed(listed: seq<nat>, order: seq<nat>): (places: seq<nat>)
    requires forall i | 0 <= i < |order| :: order[i] < |listed|
    ensures |places| == |order| && forall i | 0 <= i < |order| :: places[i] == listed[order[i]]
  {
    seq(|order|, i requires 0 <= i < |order| => listed[order[i]])
  }

  lemma ComposedTries(c: Cluster, filter: set<string>, failed: set<string>, world: World, selected: seq<Block>,
                      listed: seq<nat>, order: seq<nat>)
    requires |listed| == |selected| == |order|
    requires forall i | 0 <= i < |order| :: order[i] < |listed|
    requires forall i | 0 <= i < |listed| :: listed[i] < |c.blocks| && selected[i] == c.blocks[listed[i]]
    requires forall i, j | 0 <= i < j < |listed| :: listed[i] < listed[j]
    requires forall i | 0 <= i < |listed| :: Untried(c, filter, failed, listed[i])
    requires forall v: nat | Untried(c, filter, failed, v) :: v in listed
    requires Arranges(NearestFirst(world), selected, Tries(c, filter, failed, world), order)
    ensures TriesOf(c, filter, failed, world, Tries(c, filter, failed, world), Composed(listed, order))
  {
    hide Arranges, Tries, Distance, Untried, NearestFirst;
    var sorted, places := Tries(c, filter, failed, world), Composed(listed, order);
    OrderLengths(NearestFirst(world), selected, sorted, order);
    forall i | 0 <= i < |places| ensures Untried(c, filter, failed, places[i]) && sorted[i] == c.blocks[places[i]] {
      OrderPlace(NearestFirst(world), selected, sorted, order, i);
      assert Untried(c, filter, failed, listed[order[i]]);
    }
    forall v: nat | Untried(c, filter, failed, v) ensures v in places {
      OrderHasAll(NearestFirst(world), selected, sorted, order, listed, v);
    }
    forall i, j | 0 <= i < j < |places|
      ensures || Distance(world, sorted[i]) < Distance(world, sorted[j])
              || (Distance(world, sorted[i]) == Distance(world, sorted[j]) && places[i] < places[j])
    {
      NearestFirstMeans(world, sorted[i], sorted[j]);
      NearestFirstMeans(world, sorted[j], sorted[i]);
      OrderPair(NearestFirst(world), selected, sorted, order, i, j);
    }
  }

  lemma OrderLengths<T(!new)>(leq: (T, T) -> bool, xs: seq<T>, ys: seq<T>, order: seq<nat>)
    requires Arranges(leq, xs, ys, order)
    ensures |order| == |ys| == |xs|
  {}

  lemma OrderPlace<T(!new)>(leq: (T, T) -> bool, xs: seq<T>, ys: seq<T>, order: seq<nat>, i: nat)
    requires Arranges(leq, xs, ys, order) && i < |ys|
    ensures order[i] < |xs| && ys[i] == xs[order[i]]
  {}

  lemma OrderPair<T(!new)>(leq: (T, T) -> bool, xs: seq<T>, ys: seq<T>, order: seq<nat>, i: nat, j: nat)
    requires Arranges(leq, xs, ys, order) && i < j < |ys|
    ensures leq(ys[i], ys[j]) && order[i] != order[j] && (leq(ys[j], ys[i]) ==> order[i] < order[j])
  {}

  lemma OrderHasAll<T(!new)>(leq: (T, T) -> bool, xs: seq<T>, ys: seq<T>, order: seq<nat>, listed: seq<nat>, v: nat)
    requires Arranges(leq, xs, ys, order) && v in listed && |listed| == |xs|
    requires forall i | 0 <= i < |order| :: order[i] < |listed|
    ensures v in Composed(listed, order)
  {
    var k: nat :| k < |listed| && listed[k] == v;
    assert k in order;
    var i :| 0 <= i < |order| && order[i] == k;
    assert Composed(listed, order)[i] == v;
  }

  lemma NearestFirstMeans(world: World, a: Block, b: Block)
    ensures NearestFirst(world)(a, b) <==> Distance(world, a) <= Distance(world, b)
  {}

  lemma NoTries(c: Cluster, filter: set<string>, failed: set<string>, v: nat)
    requires CandidatesOf(c, filter, failed) == []
    ensures !Untried(c, filter, failed, v)
  {
    hide Select, Wanted;
    var places := SelectPlaces(c.blocks, filter, failed);
    UntriedMeans(c, filter, failed, v);
    assert v !in places;
  }

  lemma SomeTry(c: Cluster, filter: set<string>, failed: set<string>) returns (v: nat)
    requires CandidatesOf(c, filter, failed) != []
    ensures Untried(c, filter, failed, v)
  {
    hide Select, Wanted;
    var places := SelectPlaces(c.blocks, filter, failed);
    v := places[0];
    UntriedMeans(c, filter, failed, v);
  }

  /** A cluster is spent when it has matches and no candidates. */
  lemma SpentIff(c: Cluster, filter: set<string>, failed: set<string>)
    ensures Spent(c, filter, failed) <==> Matching(c, filter) != [] && CandidatesOf(c, filter, failed) == []
  {
    hide Select, Untried, CandidatesOf, Matching;
    assert Matching(c, filter) == CandidatesOf(c, filter, {}) by { MatchesAreCandidates(c, filter); }
    if CandidatesOf(c, filter, {}) == [] {
      forall v: nat ensures !Untried(c, filter, {}, v) { NoTries(c, filter, {}, v); }
    } else {
      var w := SomeTry(c, filter, {});
    }
    if CandidatesOf(c, filter, failed) == [] {
      forall v: nat ensures !Untried(c, filter, failed, v) { NoTries(c, filter, failed, v); }
    } else {
      var w := SomeTry(c, filter, failed);
    }
  }

  lemma MatchesAreCandidates(c: Cluster, filter: set<string>)
    ensures Matching(c, filter) == CandidatesOf(c, filter, {})
  {}

  // ---------------------------------------------------------------- the first pass

  function EntryOf(bucket: Bucket, filter: set<string>, world: World, c: Cluster): Entry {
    Entry(c, Tries(c, filter, bucket.failedBlocks, world))
  }

  /** The entries are those of the clusters at `origins`: among the first `n` clusters the ones
      with something to try. */
  ghost predicate Lined(bucket: Bucket, clusters: seq<Cluster>, filter: set<string>, world: World, entries: seq<Entry>,
                        origins: seq<nat>, n: nat) {
    && |origins| == |entries|
    && (forall i | 0 <= i < |origins| ::
          origins[i] < |clusters| && entries[i] == EntryOf(bucket, filter, world, clusters[origins[i]]))
    && (forall i | 0 <= i < |origins| :: entries[i].candidates != [])
    && (forall i | 0 <= i < |origins| :: origins[i] < n && !Skipped(bucket, clusters, filter, origins[i]))
    && (forall i, j | 0 <= i < j < |origins| :: origins[i] != origins[j])
    && (forall u: nat, v: nat | u < n && Tryable(bucket, clusters, filter, u, v) :: u in origins)
  }

  ghost predicate Rising(origins: seq<nat>) {
    forall i, j | 0 <= i < j < |origins| :: origins[i] < origins[j]
  }

  ghost predicate Marked(bucket: Bucket, clusters: seq<Cluster>, filter: set<string>, marks: set<string>, n: nat) {
    forall id :: id in marks <==> id in bucket.failedClusters || SpentBefore(bucket, clusters, filter, id, n)
  }

  lemma SpentOneMore(bucket: Bucket, clusters: seq<Cluster>, filter: set<string>, id: string, n: nat)
    requires n < |clusters|
    ensures SpentBefore(bucket, clusters, filter, id, n + 1)
            <==> SpentBefore(bucket, clusters, filter, id, n)
                 || (clusters[n].id == id && Spent(clusters[n], filter, bucket.failedBlocks))
  {
    hide Spent;
  }

  /** What the next cluster adds to the marks. */
  lemma MarksOneMore(bucket: Bucket, clusters: seq<Cluster>, filter: set<string>, marks: set<string>, n: nat)
    requires n < |clusters| && Marked(bucket, clusters, filter, marks, n)
    ensures clusters[n].id in marks <==> Skipped(bucket, clusters, filter, n)
    ensures Spent(clusters[n], filter, bucket.failedBlocks) ==>
              Marked(bucket, clusters, filter, marks + {clusters[n].id}, n + 1)
    ensures clusters[n].id in marks || !Spent(clusters[n], filter, bucket.failedBlocks) ==>
              Marked(bucket, clusters, filter, marks, n + 1)
  {
    hide Spent, SpentBefore;
    forall id
      ensures SpentBefore(bucket, clusters, filter, id, n + 1)
              <==> SpentBefore(bucket, clusters, filter, id, n)
                   || (clusters[n].id == id && Spent(clusters[n], filter, bucket.failedBlocks))
    {
      SpentOneMore(bucket, clusters, filter, id, n);
    }
  }

  lemma LineStarts(bucket: Bucket, clusters: seq<Cluster>, filter: set<string>, world: World)
    ensures Lined(bucket, clusters, filter, world, [], [], 0) && Rising([])
    ensures Marked(bucket, clusters, filter, bucket.failedClusters, 0)
  {
    hide Spent, Tryable;
  }

  /** A cluster that is skipped or has no candidates adds no entry. */
  lemma LineStays(bucket: Bucket, clusters: seq<Cluster>, filter: set<string>, world: World, entries: seq<Entry>,
                  origins: seq<nat>, n: nat)
    requires n < |clusters| && Lined(bucket, clusters, filter, world, entries, origins, n)
    requires Skipped(bucket, clusters, filter, n) || CandidatesOf(clusters[n], filter, bucket.failedBlocks) == []
    ensures Lined(bucket, clusters, filter, world, entries, origins, n + 1)
  {
    hide Skipped, Untried, Tries, CandidatesOf, EntryOf;
    forall v: nat ensures !Tryable(bucket, clusters, filter, n, v) {
      if CandidatesOf(clusters[n], filter, bucket.failedBlocks) == [] {
        NoTries(clusters[n], filter, bucket.failedBlocks, v);
      }
    }
    hide Tryable;
  }

  lemma LineGrows(bucket: Bucket, clusters: seq<Cluster>, filter: set<string>, world: World, entries: seq<Entry>,
                  origins: seq<nat>, n: nat)
    requires n < |clusters| && Lined(bucket, clusters, filter, world, entries, origins, n) && Rising(origins)
    requires !Skipped(bucket, clusters, filter, n) && CandidatesOf(clusters[n], filter, bucket.failedBlocks) != []
    ensures Lined(bucket, clusters, filter, world, entries + [EntryOf(bucket, filter, world, clusters[n])],
                  origins + [n], n + 1)
    ensures Rising(origins + [n])
  {
    hide Skipped, Tryable, CandidatesOf;
    TriesKeepAll(clusters[n], filter, bucket.failedBlocks, world);
    hide Tries;
    var e, os := EntryOf(bucket, filter, world, clusters[n]), origins + [n];
    assert os[|origins|] == n;
    forall u: nat, v: nat | u < n + 1 && Tryable(bucket, clusters, filter, u, v) ensures u in os {
      if u < n {
        assert u in origins;
      }
    }
  }

  lemma TriesKeepAll(c: Cluster, filter: set<string>, failed: set<string>, world: World)
    ensures |Tries(c, filter, failed, world)| == |CandidatesOf(c, filter, failed)|
  {
    NearestFirstIsTotal(world);
    SortSorts(NearestFirst(world), CandidatesOf(c, filter, failed));
  }

  // ---------------------------------------------------------------- the order of the clusters

  ghost predicate InTurn(bucket: Bucket, clusters: seq<Cluster>, filter: set<string>, world: World, origins: seq<nat>) {
    && (forall i | 0 <= i < |origins| :: origins[i] < |clusters|)
    && (forall i, j | 0 <= i < j < |origins| :: Sooner(bucket, clusters, filter, world, origins[i], origins[j]))
  }

  /** The first candidate is an untried block, and none is nearer. */
  lemma FirstTry(c: Cluster, filter: set<string>, failed: set<string>, world: World) returns (v: nat)
    requires Tries(c, filter, failed, world) != []
    ensures Untried(c, filter, failed, v) && c.blocks[v] == Tries(c, filter, failed, world)[0]
    ensures forall x: nat | Untried(c, filter, failed, x) ::
              Distance(world, c.blocks[v]) <= Distance(world, c.blocks[x])
  {
    hide Tries, Distance, Untried;
    var places := TriesAreInOrder(c, filter, failed, world);
    v := places[0];
    forall x: nat | Untried(c, filter, failed, x)
      ensures Distance(world, c.blocks[v]) <= Distance(world, c.blocks[x])
    {
      assert x in places;
      var i :| 0 <= i < |places| && places[i] == x;
    }
  }

  lemma EntryIsSooner(bucket: Bucket, clusters: seq<Cluster>, filter: set<string>, world: World, u: nat, w: nat)
    requires u < |clusters| && w < |clusters|
    requires var e, f := EntryOf(bucket, filter, world, clusters[u]), EntryOf(bucket, filter, world, clusters[w]);
      && e.candidates != [] && f.candidates != []
      && EntryOrder(world)(e, f) && (EntryOrder(world)(f, e) ==> u < w)
    ensures Sooner(bucket, clusters, filter, world, u, w)
  {
    hide Tries, Distance, Untried;
    var v := FirstTry(clusters[u], filter, bucket.failedBlocks, world);
    var y := FirstTry(clusters[w], filter, bucket.failedBlocks, world);
    forall x: nat | Untried(clusters[w], filter, bucket.failedBlocks, x)
      ensures Nearer(world, clusters, u, clusters[u].blocks[v], w, clusters[w].blocks[x])
    {
      assert Distance(world, clusters[w].blocks[y]) <= Distance(world, clusters[w].blocks[x]);
    }
  }

  /** Sorting the entries puts their clusters in the order of the tries. */
  lemma SortedInTurn(bucket: Bucket, clusters: seq<Cluster>, filter: set<string>, world: World, listed: seq<Entry>,
                     origins: seq<nat>)
    returns (sorted: seq<nat>)
    requires Lined(bucket, clusters, filter, world, listed, origins, |clusters|) && Rising(origins)
    ensures Lined(bucket, clusters, filter, world, Sort(EntryOrder(world), listed), sorted, |clusters|)
    ensures InTurn(bucket, clusters, filter, world, sorted)
  {
    hide Sort, EntryOrder, Sooner, EntryOf, Skipped, Tryable, TotalOrder, Arranges;
    var entries := Sort(EntryOrder(world), listed);
    EntryOrderIsTotal(world);
    var order := SortIsStable(EntryOrder(world), listed);
    OrderFits(EntryOrder(world), listed, order);
    OrderLengths(EntryOrder(world), listed, entries, order);
    sorted := Composed(origins, order);
    forall i | 0 <= i < |sorted| ensures sorted[i] == origins[order[i]] && entries[i] == listed[order[i]] {
      OrderPlace(EntryOrder(world), listed, entries, order, i);
    }
    forall u: nat, v: nat | u < |clusters| && Tryable(bucket, clusters, filter, u, v) ensures u in sorted {
      OrderHasAll(EntryOrder(world), listed, entries, order, origins, u);
    }
    forall i, j | 0 <= i < j < |sorted|
      ensures sorted[i] != sorted[j] && Sooner(bucket, clusters, filter, world, sorted[i], sorted[j])
    {
      OrderPair(EntryOrder(world), listed, entries, order, i, j);
      EntryIsSooner(bucket, clusters, filter, world, sorted[i], sorted[j]);
    }
  }

  // ---------------------------------------------------------------- the second pass

  ghost predicate KeyTried(bucket: Bucket, clusters: seq<Cluster>, filter: set<string>, u: nat, k: string) {
    u < |clusters| && exists v: nat :: Untried(clusters[u], filter, bucket.failedBlocks, v)
                                       && clusters[u].blocks[v].key == k
  }

  ghost predicate NoneThere(bucket: Bucket, clusters: seq<Cluster>, filter: set<string>, world: World, u: nat) {
    u < |clusters| && forall v: nat | Untried(clusters[u], filter, bucket.failedBlocks, v) ::
        !Live(world, clusters[u].blocks[v])
  }

  /** The clusters at the first `n` places have been tried in vain. */
  ghost predicate TriedInVain(bucket: Bucket, now: Bucket, clusters: seq<Cluster>, filter: set<string>, world: World,
                              origins: seq<nat>, n: nat)
    requires n <= |origins|
  {
    && (forall i | 0 <= i < n :: NoneThere(bucket, clusters, filter, world, origins[i]))
    && (forall k :: k in now.failedBlocks <==>
        k in bucket.failedBlocks || exists i :: 0 <= i < n && KeyTried(bucket, clusters, filter, origins[i], k))
    && (forall id :: id in now.failedClusters <==>
        || id in bucket.failedClusters || SpentBefore(bucket, clusters, filter, id, |clusters|)
        || (id != "" && InLine(clusters, origins, n, id)))
  }

  ghost predicate InLine(clusters: seq<Cluster>, origins: seq<nat>, n: nat, id: string)
    requires n <= |origins|
  {
    exists i :: 0 <= i < n && origins[i] < |clusters| && clusters[origins[i]].id == id
  }

  lemma TrialStarts(bucket: Bucket, marks: set<string>, clusters: seq<Cluster>, filter: set<string>, world: World,
                    origins: seq<nat>)
    requires Marked(bucket, clusters, filter, marks, |clusters|)
    ensures TriedInVain(bucket, Bucket(bucket.failedBlocks, marks), clusters, filter, world, origins, 0)
  {
    hide SpentBefore, KeyTried;
  }

  /** The coordinates of the first `n` candidates. */
  function KeysOf(candidates: seq<Block>, n: nat): set<string>
    requires n <= |candidates|
  {
    set i | 0 <= i < n :: candidates[i].key
  }

  lemma AllTried(bucket: Bucket, clusters: seq<Cluster>, filter: set<string>, world: World, u: nat)
    requires u < |clusters|
    ensures var candidates := EntryOf(bucket, filter, world, clusters[u]).candidates;
      && (forall k :: k in KeysOf(candidates, |candidates|) <==> KeyTried(bucket, clusters, filter, u, k))
      && ((forall i | 0 <= i < |candidates| :: !Live(world, candidates[i])) ==>
            NoneThere(bucket, clusters, filter, world, u))
  {
    hide Tries, Distance, Untried, Live;
    var c, candidates := clusters[u], EntryOf(bucket, filter, world, clusters[u]).candidates;
    var places := TriesAreInOrder(c, filter, bucket.failedBlocks, world);
    forall k | k in KeysOf(candidates, |candidates|) ensures KeyTried(bucket, clusters, filter, u, k) {
      var i :| 0 <= i < |candidates| && candidates[i].key == k;
      assert Untried(c, filter, bucket.failedBlocks, places[i]);
    }
    forall v: nat | Untried(c, filter, bucket.failedBlocks, v)
      ensures c.blocks[v].key in KeysOf(candidates, |candidates|) && c.blocks[v] in candidates
    {
      assert v in places;
      var i :| 0 <= i < |places| && places[i] == v;
      assert candidates[i] == c.blocks[v];
    }
  }

  lemma TrialGoesOn(bucket: Bucket, now: Bucket, clusters: seq<Cluster>, filter: set<string>, world: World,
                    entries: seq<Entry>, origins: seq<nat>, n: nat)
    requires Lined(bucket, clusters, filter, world, entries, origins, |clusters|) && n < |entries|
    requires TriedInVain(bucket, now, clusters, filter, world, origins, n)
    requires forall i | 0 <= i < |entries[n].candidates| :: !Live(world, entries[n].candidates[i])
    ensures var id := entries[n].cluster.id;
      TriedInVain(bucket,
                  Bucket(now.failedBlocks + KeysOf(entries[n].candidates, |entries[n].candidates|),
                         if id != "" then now.failedClusters + {id} else now.failedClusters),
                  clusters, filter, world, origins, n + 1)
  {
    hide Skipped, Tryable, SpentBefore, KeyTried, NoneThere, Live, KeysOf;
    var u, candidates := origins[n], entries[n].candidates;
    AllTried(bucket, clusters, filter, world, u);
    assert entries[n].cluster == clusters[u];
    hide EntryOf;
  }

  /** With nothing left in line the pick has run out. */
  lemma LineRunsOut(bucket: Bucket, now: Bucket, clusters: seq<Cluster>, filter: set<string>, world: World,
                    entries: seq<Entry>, origins: seq<nat>)
    requires Lined(bucket, clusters, filter, world, entries, origins, |clusters|)
    requires TriedInVain(bucket, now, clusters, filter, world, origins, |origins|)
    ensures RunsOut(bucket, now, clusters, filter, world)
  {
    hide Skipped, SpentBefore, Live, EntryOf, Untried;
    forall w: nat, x: nat | Tryable(bucket, clusters, filter, w, x)
      ensures !Live(world, clusters[w].blocks[x]) && clusters[w].blocks[x].key in now.failedBlocks
    {
      assert w in origins;
      var i :| 0 <= i < |origins| && origins[i] == w;
      assert NoneThere(bucket, clusters, filter, world, origins[i]);
      assert KeyTried(bucket, clusters, filter, origins[i], clusters[w].blocks[x].key);
    }
    forall k | k in now.failedBlocks && k !in bucket.failedBlocks
      ensures exists w: nat, x: nat :: Tryable(bucket, clusters, filter, w, x) && clusters[w].blocks[x].key == k
    {
      var i :| 0 <= i < |origins| && KeyTried(bucket, clusters, filter, origins[i], k);
      var v: nat :| Untried(clusters[origins[i]], filter, bucket.failedBlocks, v)
                    && clusters[origins[i]].blocks[v].key == k;
      assert Tryable(bucket, clusters, filter, origins[i], v);
    }
    forall id ensures InLine(clusters, origins, |origins|, id) <==> Offers(bucket, clusters, filter, id) {
      MarksRunOut(bucket, clusters, filter, world, entries, origins, id);
    }
  }

  lemma MarksRunOut(bucket: Bucket, clusters: seq<Cluster>, filter: set<string>, world: World, entries: seq<Entry>,
                    origins: seq<nat>, id: string)
    requires Lined(bucket, clusters, filter, world, entries, origins, |clusters|)
    ensures InLine(clusters, origins, |origins|, id) <==> Offers(bucket, clusters, filter, id)
  {
    hide Skipped, Tries, Distance;
    if i :| 0 <= i < |origins| && origins[i] < |clusters| && clusters[origins[i]].id == id {
      var x := FirstTry(clusters[origins[i]], filter, bucket.failedBlocks, world);
      assert Tryable(bucket, clusters, filter, origins[i], x);
    }
    if w: nat, x: nat :| Tryable(bucket, clusters, filter, w, x) && clusters[w].id == id {
      assert w in origins;
    }
  }

  lemma NotBothSooner(bucket: Bucket, clusters: seq<Cluster>, filter: set<string>, world: World, u: nat, w: nat)
    requires u < |clusters| && w < |clusters| && Sooner(bucket, clusters, filter, world, u, w)
    ensures !Sooner(bucket, clusters, filter, world, w, u)
  {
    hide Distance, Untried;
  }

  /** The order of the tries is the order in line. */
  lemma EarlierMeans(bucket: Bucket, clusters: seq<Cluster>, filter: set<string>, world: World, origins: seq<nat>,
                     m: nat, x: nat, n: nat, v: nat)
    requires InTurn(bucket, clusters, filter, world, origins) && m < |origins| && n < |origins|
    requires forall i, j | 0 <= i < j < |origins| :: origins[i] != origins[j]
    requires Tryable(bucket, clusters, filter, origins[m], x) && Tryable(bucket, clusters, filter, origins[n], v)
    ensures m != n ==> (Earlier(bucket, clusters, filter, world, origins[m], x, origins[n], v) <==> m < n)
    ensures m != n ==> (Sooner(bucket, clusters, filter, world, origins[m], origins[n]) <==> m < n)
    ensures m != n ==> origins[m] != origins[n]
  {
    hide Sooner, Tryable, Distance;
    if m < n {
      NotBothSooner(bucket, clusters, filter, world, origins[m], origins[n]);
    } else if n < m {
      NotBothSooner(bucket, clusters, filter, world, origins[n], origins[m]);
    }
  }

  /** The candidates of one cluster are tried in the order of their places. */
  lemma InClusterMeans(bucket: Bucket, clusters: seq<Cluster>, filter: set<string>, world: World, u: nat,
                       candidates: seq<Block>, places: seq<nat>, l: nat, k: nat)
    requires u < |clusters| && l < |places| && k < |places|
    requires TriesOf(clusters[u], filter, bucket.failedBlocks, world, candidates, places)
    requires Tryable(bucket, clusters, filter, u, places[l]) && Tryable(bucket, clusters, filter, u, places[k])
    ensures Earlier(bucket, clusters, filter, world, u, places[l], u, places[k]) <==> l < k
  {
    hide Tryable, Distance, Untried;
    assert candidates[l] == clusters[u].blocks[places[l]] && candidates[k] == clusters[u].blocks[places[k]];
  }

  ghost predicate StandsAt(origins: seq<nat>, places: seq<nat>, n: nat, k: nat, w: nat, x: nat)
    requires n < |origins| && k <= |places|
  {
    || (exists m :: 0 <= m < n && origins[m] == w)
    || (w == origins[n] && exists l :: 0 <= l < k && places[l] == x)
  }

  /** What is tried before candidate `k` of the cluster at place `n`: all of the clusters before it,
      and the candidates before that one. */
  lemma EarlierIff(bucket: Bucket, clusters: seq<Cluster>, filter: set<string>, world: World, entries: seq<Entry>,
                   origins: seq<nat>, places: seq<nat>, n: nat, k: nat, w: nat, x: nat)
    requires Lined(bucket, clusters, filter, world, entries, origins, |clusters|) && n < |entries|
    requires InTurn(bucket, clusters, filter, world, origins)
    requires TriesOf(clusters[origins[n]], filter, bucket.failedBlocks, world, entries[n].candidates, places)
    requires k < |places| && Tryable(bucket, clusters, filter, origins[n], places[k])
    requires Tryable(bucket, clusters, filter, w, x)
    ensures Earlier(bucket, clusters, filter, world, w, x, origins[n], places[k])
            <==> StandsAt(origins, places, n, k, w, x)
  {
    hide Skipped, EntryOf, Sooner, InTurn, Distance, Earlier;
    assert w in origins;
    var m :| 0 <= m < |origins| && origins[m] == w;
    if m != n {
      EarlierMeans(bucket, clusters, filter, world, origins, m, x, n, places[k]);
    } else {
      assert x in places;
      var l :| 0 <= l < |places| && places[l] == x;
      InClusterMeans(bucket, clusters, filter, world, w, entries[n].candidates, places, l, k);
    }
  }

  /** The first live candidate in line is where the pick stops. */
  lemma LineStops(bucket: Bucket, now: Bucket, clusters: seq<Cluster>, filter: set<string>, world: World,
                  entries: seq<Entry>, origins: seq<nat>, n: nat, k: nat)
    requires Lined(bucket, clusters, filter, world, entries, origins, |clusters|) && n < |entries|
    requires InTurn(bucket, clusters, filter, world, origins)
    requires TriedInVain(bucket, now, clusters, filter, world, origins, n)
    requires k < |entries[n].candidates| && Live(world, entries[n].candidates[k])
    requires forall i | 0 <= i < k :: !Live(world, entries[n].candidates[i])
    ensures var after := Bucket(now.failedBlocks + KeysOf(entries[n].candidates, k), now.failedClusters);
      PickIs(bucket, after, clusters, filter, world, Some((entries[n].cluster, entries[n].candidates[k])))
  {
    hide Skipped, SpentBefore, Live, KeyTried, NoneThere, Earlier, InTurn, Tries, TriesOf, StopsAt, Untried;
    var u, candidates := origins[n], entries[n].candidates;
    var places := TriesAreInOrder(clusters[u], filter, bucket.failedBlocks, world);
    TriesPlace(clusters[u], filter, bucket.failedBlocks, world, candidates, places, k);
    var v, after := places[k], Bucket(now.failedBlocks + KeysOf(candidates, k), now.failedClusters);
    StopsAtTried(bucket, now, clusters, filter, world, entries, origins, places, n, k);
    assert StopsAt(bucket, after, clusters, filter, world, u, v);
  }

  lemma TriesPlace(c: Cluster, filter: set<string>, failed: set<string>, world: World, candidates: seq<Block>,
                   places: seq<nat>, k: nat)
    requires TriesOf(c, filter, failed, world, candidates, places) && k < |candidates|
    ensures |places| == |candidates| && Untried(c, filter, failed, places[k]) && candidates[k] == c.blocks[places[k]]
  {}

  lemma StopsAtTried(bucket: Bucket, now: Bucket, clusters: seq<Cluster>, filter: set<string>, world: World,
                     entries: seq<Entry>, origins: seq<nat>, places: seq<nat>, n: nat, k: nat)
    requires Lined(bucket, clusters, filter, world, entries, origins, |clusters|) && n < |entries|
    requires InTurn(bucket, clusters, filter, world, origins)
    requires TriedInVain(bucket, now, clusters, filter, world, origins, n)
    requires TriesOf(clusters[origins[n]], filter, bucket.failedBlocks, world, entries[n].candidates, places)
    requires k < |entries[n].candidates| == |places| && Live(world, entries[n].candidates[k])
    requires forall i | 0 <= i < k :: !Live(world, entries[n].candidates[i])
    ensures var after := Bucket(now.failedBlocks + KeysOf(entries[n].candidates, k), now.failedClusters);
      StopsAt(bucket, after, clusters, filter, world, origins[n], places[k])
  {
    hide Skipped, SpentBefore, Live, Earlier, InTurn, Tries, TriesOf, Lined, TriedInVain, TriedBefore, LeftBefore;
    hide Untried;
    InLineBlock(bucket, clusters, filter, world, entries, origins, places, n, k);
    var u, v, candidates := origins[n], places[k], entries[n].candidates;
    var after := Bucket(now.failedBlocks + KeysOf(candidates, k), now.failedClusters);
    InLineTryable(bucket, clusters, filter, world, entries, origins, places, n, k);
    forall w: nat, x: nat | Tryable(bucket, clusters, filter, w, x)
        && Earlier(bucket, clusters, filter, world, w, x, u, v)
      ensures !Live(world, clusters[w].blocks[x])
    {
      EarlierIsGone(bucket, now, clusters, filter, world, entries, origins, places, n, k, w, x);
    }
    forall key ensures key in after.failedBlocks
        <==> key in bucket.failedBlocks || TriedBefore(bucket, clusters, filter, world, u, v, key)
    {
      EarlierKeys(bucket, now, clusters, filter, world, entries, origins, places, n, k, key);
    }
    forall id ensures id in after.failedClusters
        <==> || id in bucket.failedClusters || SpentBefore(bucket, clusters, filter, id, |clusters|)
             || (id != "" && LeftBefore(bucket, clusters, filter, world, u, id))
    {
      EarlierIds(bucket, now, clusters, filter, world, entries, origins, places, n, k, id);
    }
  }

  lemma InLineBlock(bucket: Bucket, clusters: seq<Cluster>, filter: set<string>, world: World, entries: seq<Entry>,
                    origins: seq<nat>, places: seq<nat>, n: nat, k: nat)
    requires Lined(bucket, clusters, filter, world, entries, origins, |clusters|) && n < |entries|
    requires TriesOf(clusters[origins[n]], filter, bucket.failedBlocks, world, entries[n].candidates, places)
    requires k < |places|
    ensures |origins| == |entries| && origins[n] < |clusters| && places[k] < |clusters[origins[n]].blocks|
    ensures clusters[origins[n]].blocks[places[k]] == entries[n].candidates[k]
  {
    hide Skipped, EntryOf, Distance;
  }

  lemma InLineTryable(bucket: Bucket, clusters: seq<Cluster>, filter: set<string>, world: World, entries: seq<Entry>,
                      origins: seq<nat>, places: seq<nat>, n: nat, k: nat)
    requires Lined(bucket, clusters, filter, world, entries, origins, |clusters|) && n < |entries|
    requires TriesOf(clusters[origins[n]], filter, bucket.failedBlocks, world, entries[n].candidates, places)
    requires k < |places|
    ensures Tryable(bucket, clusters, filter, origins[n], places[k])
  {
    hide Skipped, EntryOf, Distance, Untried;
  }

  lemma EarlierIsGone(bucket: Bucket, now: Bucket, clusters: seq<Cluster>, filter: set<string>, world: World,
                      entries: seq<Entry>, origins: seq<nat>, places: seq<nat>, n: nat, k: nat, w: nat, x: nat)
    requires Lined(bucket, clusters, filter, world, entries, origins, |clusters|) && n < |entries|
    requires InTurn(bucket, clusters, filter, world, origins)
    requires TriedInVain(bucket, now, clusters, filter, world, origins, n)
    requires TriesOf(clusters[origins[n]], filter, bucket.failedBlocks, world, entries[n].candidates, places)
    requires k < |places| && forall i | 0 <= i < k :: !Live(world, entries[n].candidates[i])
    requires Tryable(bucket, clusters, filter, origins[n], places[k]) && Tryable(bucket, clusters, filter, w, x)
    requires Earlier(bucket, clusters, filter, world, w, x, origins[n], places[k])
    ensures !Live(world, clusters[w].blocks[x])
  {
    hide Skipped, SpentBefore, Live, Earlier, InTurn, EntryOf, Distance, KeyTried, Untried;
    EarlierIff(bucket, clusters, filter, world, entries, origins, places, n, k, w, x);
    if w == origins[n] && exists l :: 0 <= l < k && places[l] == x {
      var l :| 0 <= l < k && places[l] == x;
      assert entries[n].candidates[l] == clusters[w].blocks[x];
    } else {
      var m :| 0 <= m < n && origins[m] == w;
      assert NoneThere(bucket, clusters, filter, world, origins[m]);
    }
  }

  lemma EarlierKeys(bucket: Bucket, now: Bucket, clusters: seq<Cluster>, filter: set<string>, world: World,
                    entries: seq<Entry>, origins: seq<nat>, places: seq<nat>, n: nat, k: nat, key: string)
    requires Lined(bucket, clusters, filter, world, entries, origins, |clusters|) && n < |entries|
    requires InTurn(bucket, clusters, filter, world, origins)
    requires TriedInVain(bucket, now, clusters, filter, world, origins, n)
    requires TriesOf(clusters[origins[n]], filter, bucket.failedBlocks, world, entries[n].candidates, places)
    requires k < |places| && Tryable(bucket, clusters, filter, origins[n], places[k])
    ensures key in now.failedBlocks + KeysOf(entries[n].candidates, k)
            <==> key in bucket.failedBlocks
                 || TriedBefore(bucket, clusters, filter, world, origins[n], places[k], key)
  {
    hide SpentBefore, Earlier, InTurn, EntryOf, Distance, NoneThere, Skipped, Untried;
    var u, v := origins[n], places[k];
    if l :| 0 <= l < k && entries[n].candidates[l].key == key {
      InLineTryable(bucket, clusters, filter, world, entries, origins, places, n, l);
      EarlierIff(bucket, clusters, filter, world, entries, origins, places, n, k, u, places[l]);
      assert clusters[u].blocks[places[l]].key == key;
    }
    if m :| 0 <= m < n && KeyTried(bucket, clusters, filter, origins[m], key) {
      var x: nat :| Untried(clusters[origins[m]], filter, bucket.failedBlocks, x)
                    && clusters[origins[m]].blocks[x].key == key;
      assert Tryable(bucket, clusters, filter, origins[m], x);
      EarlierIff(bucket, clusters, filter, world, entries, origins, places, n, k, origins[m], x);
    }
    if TriedBefore(bucket, clusters, filter, world, u, v, key) {
      var w: nat, x: nat :| Tryable(bucket, clusters, filter, w, x)
                            && Earlier(bucket, clusters, filter, world, w, x, u, v) && clusters[w].blocks[x].key == key;
      EarlierIff(bucket, clusters, filter, world, entries, origins, places, n, k, w, x);
      if m :| 0 <= m < n && origins[m] == w {
        assert KeyTried(bucket, clusters, filter, origins[m], key);
      } else {
        var l :| 0 <= l < k && places[l] == x;
        assert entries[n].candidates[l].key == key;
      }
    }
  }

  lemma EarlierIds(bucket: Bucket, now: Bucket, clusters: seq<Cluster>, filter: set<string>, world: World,
                   entries: seq<Entry>, origins: seq<nat>, places: seq<nat>, n: nat, k: nat, id: string)
    requires Lined(bucket, clusters, filter, world, entries, origins, |clusters|) && n < |entries|
    requires InTurn(bucket, clusters, filter, world, origins)
    requires TriedInVain(bucket, now, clusters, filter, world, origins, n)
    requires k < |places| && Tryable(bucket, clusters, filter, origins[n], places[k])
    ensures id in now.failedClusters
            <==> || id in bucket.failedClusters || SpentBefore(bucket, clusters, filter, id, |clusters|)
                 || (id != "" && LeftBefore(bucket, clusters, filter, world, origins[n], id))
  {
    hide SpentBefore, InTurn, Distance, NoneThere, Skipped, KeyTried, Sooner, Tries;
    if m :| 0 <= m < n && origins[m] < |clusters| && clusters[origins[m]].id == id {
      var x := FirstTry(clusters[origins[m]], filter, bucket.failedBlocks, world);
      assert Tryable(bucket, clusters, filter, origins[m], x);
      EarlierMeans(bucket, clusters, filter, world, origins, m, x, n, places[k]);
    }
    if LeftBefore(bucket, clusters, filter, world, origins[n], id) {
      var w: nat, x: nat :| Tryable(bucket, clusters, filter, w, x) && clusters[w].id == id && w != origins[n]
                            && Sooner(bucket, clusters, filter, world, w, origins[n]);
      assert w in origins;
      var m :| 0 <= m < |origins| && origins[m] == w;
      EarlierMeans(bucket, clusters, filter, world, origins, m, x, n, places[k]);
    }
  }

  // ---------------------------------------------------------------- one outcome only

  lemma FirstUntried(c: Cluster, filter: set<string>, failed: set<string>, world: World, v: nat)
    requires Untried(c, filter, failed, v)
    ensures Tries(c, filter, failed, world) != []
  {
    hide Tries, Untried, Distance;
    var places := TriesAreInOrder(c, filter, failed, world);
    assert v in places;
  }

  lemma OneIsSooner(bucket: Bucket, clusters: seq<Cluster>, filter: set<string>, world: World, u: nat, w: nat)
    requires u < |clusters| && w < |clusters| && u != w
    requires exists v: nat :: Untried(clusters[u], filter, bucket.failedBlocks, v)
    requires exists x: nat :: Untried(clusters[w], filter, bucket.failedBlocks, x)
    ensures Sooner(bucket, clusters, filter, world, u, w) || Sooner(bucket, clusters, filter, world, w, u)
  {
    hide Tries, Untried, Distance;
    var v: nat :| Untried(clusters[u], filter, bucket.failedBlocks, v);
    var x: nat :| Untried(clusters[w], filter, bucket.failedBlocks, x);
    FirstUntried(clusters[u], filter, bucket.failedBlocks, world, v);
    FirstUntried(clusters[w], filter, bucket.failedBlocks, world, x);
    var p := FirstTry(clusters[u], filter, bucket.failedBlocks, world);
    var q := FirstTry(clusters[w], filter, bucket.failedBlocks, world);
    if Nearer(world, clusters, u, clusters[u].blocks[p], w, clusters[w].blocks[q]) {
      assert forall y: nat | Untried(clusters[w], filter, bucket.failedBlocks, y) ::
          Nearer(world, clusters, u, clusters[u].blocks[p], w, clusters[w].blocks[y]);
    } else {
      assert forall y: nat | Untried(clusters[u], filter, bucket.failedBlocks, y) ::
          Nearer(world, clusters, w, clusters[w].blocks[q], u, clusters[u].blocks[y]);
    }
  }

  lemma OneIsEarlier(bucket: Bucket, clusters: seq<Cluster>, filter: set<string>, world: World, u: nat, v: nat, w: nat,
                     x: nat)
    requires Tryable(bucket, clusters, filter, u, v) && Tryable(bucket, clusters, filter, w, x)
    ensures || (u == w && v == x) || Earlier(bucket, clusters, filter, world, u, v, w, x)
            || Earlier(bucket, clusters, filter, world, w, x, u, v)
  {
    hide Skipped, Untried, Distance, Sooner;
    if u != w {
      OneIsSooner(bucket, clusters, filter, world, u, w);
    }
  }

  lemma StopsOnce(bucket: Bucket, after: Bucket, after': Bucket, clusters: seq<Cluster>, filter: set<string>,
                  world: World, u: nat, v: nat, w: nat, x: nat)
    requires StopsAt(bucket, after, clusters, filter, world, u, v)
    requires StopsAt(bucket, after', clusters, filter, world, w, x)
    ensures u == w && v == x && after == after'
  {
    hide Tryable, Earlier, Live, SpentBefore, LeftBefore, TriedBefore;
    OneIsEarlier(bucket, clusters, filter, world, u, v, w, x);
    assert after.failedBlocks == after'.failedBlocks && after.failedClusters == after'.failedClusters;
  }

  /** That is all there is to know about a pick: memory, clusters and world leave one outcome. */
  lemma PickIsDetermined(bucket: Bucket, after: Bucket, after': Bucket, clusters: seq<Cluster>, filter: set<string>,
                         world: World, result: Option<(Cluster, Block)>, result': Option<(Cluster, Block)>)
    requires PickIs(bucket, after, clusters, filter, world, result)
    requires PickIs(bucket, after', clusters, filter, world, result')
    ensures result == result' && after == after'
  {
    hide StopsAt, RunsOut;
    if result.None? && result'.None? {
      RunsOutOnce(bucket, after, after', clusters, filter, world);
    } else if result.Some? && result'.Some? {
      var u: nat, v: nat :| StopsAt(bucket, after, clusters, filter, world, u, v)
                            && result == Some((clusters[u], clusters[u].blocks[v]));
      var w: nat, x: nat :| StopsAt(bucket, after', clusters, filter, world, w, x)
                            && result' == Some((clusters[w], clusters[w].blocks[x]));
      StopsOnce(bucket, after, after', clusters, filter, world, u, v, w, x);
    } else if result.Some? {
      NotBoth(bucket, after, after', clusters, filter, world);
    } else {
      NotBoth(bucket, after', after, clusters, filter, world);
    }
  }

  lemma RunsOutOnce(bucket: Bucket, after: Bucket, after': Bucket, clusters: seq<Cluster>, filter: set<string>,
                    world: World)
    requires RunsOut(bucket, after, clusters, filter, world) && RunsOut(bucket, after', clusters, filter, world)
    ensures after == after'
  {
    hide Tryable, Live, SpentBefore, Offers;
    assert forall k :: k in after.failedBlocks <==> k in after'.failedBlocks;
    assert after.failedBlocks == after'.failedBlocks && after.failedClusters == after'.failedClusters;
  }

  lemma NotBoth(bucket: Bucket, after: Bucket, after': Bucket, clusters: seq<Cluster>, filter: set<string>,
                world: World)
    requires RunsOut(bucket, after', clusters, filter, world)
    ensures forall u: nat, v: nat :: !StopsAt(bucket, after, clusters, filter, world, u, v)
  {
    hide Tryable, Live, SpentBefore, Offers, Earlier, TriedBefore, LeftBefore;
  }
}
