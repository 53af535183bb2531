/**
 Classifying item and block ids into tags, the reverse index, and the aggregate tags.
 */
module Classification {
  import opened Options
  import opened Sorting
  import RecentContext

  /** A dictionary from tag to ids, in insertion order. */
  datatype Tag = Tag(name: string, items: seq<string>)

  /** A tag with the ids its pattern matches. */
  datatype Rule = Rule(tag: string, accepts: set<string>)

  datatype Generator = Regex(rules: seq<Rule>) | Food(foods: set<string>)

  datatype Generated = Generated(tags: seq<Tag>, rest: seq<string>)

  ghost predicate Distinct(ids: seq<string>) {
    forall i, j | 0 <= i < j < |ids| :: ids[i] != ids[j]
  }

  function Items(tags: seq<Tag>, name: string): seq<string> {
    if tags == [] then [] else if tags[0].name == name then tags[0].items else Items(tags[1..], name)
  }

  predicate Has(tags: seq<Tag>, name: string) {
    tags != [] && (tags[0].name == name || Has(tags[1..], name))
  }

  /** Extends the list of a tag, which is created at the end when it is new. */
  function Extend(tags: seq<Tag>, name: string, items: seq<string>): seq<Tag> {
    if tags == [] then [Tag(name, items)]
    else if tags[0].name == name then [Tag(name, tags[0].items + items)] + tags[1..]
    else [tags[0]] + Extend(tags[1..], name, items)
  }

  /** Replaces the list of a tag, which is created at the end when it is new. */
  function Assign(tags: seq<Tag>, name: string, items: seq<string>): seq<Tag> {
    if tags == [] then [Tag(name, items)]
    else if tags[0].name == name then [Tag(name, items)] + tags[1..]
    else [tags[0]] + Assign(tags[1..], name, items)
  }

  function All(tags: seq<Tag>): seq<string> {
    if tags == [] then [] else tags[0].items + All(tags[1..])
  }

  lemma {:induction false} ItemsAfterExtend(tags: seq<Tag>, name: string, items: seq<string>, other: string)
    ensures Items(Extend(tags, name, items), other) == if other == name then Items(tags, name) + items
            else Items(tags, other)
    decreases |tags|
  {
    if tags != [] {
      ItemsAfterExtend(tags[1..], name, items, other);
    } else {
      assert [] + items == items;
    }
  }

  lemma {:induction false} ItemsAfterAssign(tags: seq<Tag>, name: string, items: seq<string>, other: string)
    ensures Items(Assign(tags, name, items), other) == if other == name then items else Items(tags, other)
    ensures Has(Assign(tags, name, items), other) <==> other == name || Has(tags, other)
    decreases |tags|
  {
    if tags != [] {
      ItemsAfterAssign(tags[1..], name, items, other);
    }
  }

  /** As in a dictionary: extending or replacing a tag that is there keeps its place among the others, and a
      new one goes to the end. */
  lemma {:induction false} TagsKeepPlaces(tags: seq<Tag>, name: string, items: seq<string>)
    ensures var n, longer, replaced := |tags|, Extend(tags, name, items), Assign(tags, name, items);
      && |longer| == |replaced| == (if Has(tags, name) then n else n + 1)
      && (forall i | 0 <= i < n :: longer[i].name == tags[i].name == replaced[i].name)
      && (!Has(tags, name) ==> longer[n].name == name == replaced[n].name)
    decreases |tags|
  {
    if tags != [] && tags[0].name != name {
      var rest := tags[1..];
      TagsKeepPlaces(rest, name, items);
      LaterPlaces(tags[0], rest, Extend(rest, name, items));
      LaterPlaces(tags[0], rest, Assign(rest, name, items));
      assert tags == [tags[0]] + rest;
    }
  }

  lemma LaterPlaces(first: Tag, tags: seq<Tag>, longer: seq<Tag>)
    requires |tags| <= |longer| && forall i | 0 <= i < |tags| :: longer[i].name == tags[i].name
    ensures forall i | 0 <= i < |tags| + 1 :: ([first] + longer)[i].name == ([first] + tags)[i].name
    ensures |longer| > |tags| ==> ([first] + longer)[|tags| + 1] == longer[|tags|]
  {}

  lemma {:induction false} ExtendKeepsAll(tags: seq<Tag>, name: string, items: seq<string>)
    ensures multiset(All(Extend(tags, name, items))) == multiset(All(tags)) + multiset(items)
    decreases |tags|
  {
    if tags != [] {
      ExtendKeepsAll(tags[1..], name, items);
    } else {
      assert items + All([]) == items;
    }
  }

  // ---------------------------------------------------------------- generators

  function FirstTag(rules: seq<Rule>, id: string): Option<string> {
    if rules == [] then None
    else if id in rules[0].accepts then Some(rules[0].tag) else FirstTag(rules[1..], id)
  }

  /** Every id goes to the tag of the first rule that matches it, or stays unclassified. */
  function ByRules(rules: seq<Rule>, ids: seq<string>): Generated {
    if ids == [] then Generated([], [])
    else
      var before, id := ByRules(rules, ids[..|ids| - 1]), ids[|ids| - 1];
      match FirstTag(rules, id)
      case None => before.(rest := before.rest + [id])
      case Some(tag) => before.(tags := Extend(before.tags, tag, [id]))
  }

  function Select(ids: seq<string>, accepted: set<string>, wanted: bool): seq<string> {
    if ids == [] then []
    else (if (ids[0] in accepted) == wanted then [ids[0]] else []) + Select(ids[1..], accepted, wanted)
  }

  /** `sorted(set(ids))`. */
  function SortedSet(ids: seq<string>): seq<string> {
    Sort((a, b) => RecentContext.KeyLeq(a, b), Deduped(ids))
  }

  function ByFoods(foods: set<string>, ids: seq<string>): Generated {
    var eaten := SortedSet(Select(ids, foods, true));
    Generated(if eaten == [] then [] else [Tag("food", eaten)], SortedSet(Select(ids, foods, false)))
  }

  function Generate(generator: Generator, ids: seq<string>): Generated {
    match generator
    case Regex(rules) => ByRules(rules, ids)
    case Food(foods) => ByFoods(foods, ids)
  }

  function ExtendAll(tags: seq<Tag>, more: seq<Tag>): seq<Tag>
    decreases |more|
  {
    if more == [] then tags else ExtendAll(Extend(tags, more[0].name, more[0].items), more[1..])
  }

  /** Each generator classifies what the one before it left over. */
  function Build(generators: seq<Generator>, tags: seq<Tag>, remaining: seq<string>): Generated
    decreases |generators|
  {
    if generators == [] then Generated(tags, remaining)
    else
      var step := Generate(generators[0], remaining);
      Build(generators[1..], ExtendAll(tags, step.tags), step.rest)
  }

  /** The ids that carry a tag and the unclassified ones are together exactly the given ids. */
  ghost predicate Conserves(ids: seq<string>, result: Generated) {
    multiset(All(result.tags)) + multiset(result.rest) == multiset(ids)
  }

  lemma {:induction false} RulesConserve(rules: seq<Rule>, ids: seq<string>)
    ensures Conserves(ids, ByRules(rules, ids))
    decreases |ids|
  {
    if ids != [] {
      var front, id := ids[..|ids| - 1], ids[|ids| - 1];
      var before := ByRules(rules, front);
      RulesConserve(rules, front);
      assert ids == front + [id];
      if FirstTag(rules, id).Some? {
        ExtendKeepsAll(before.tags, FirstTag(rules, id).value, [id]);
      }
    }
  }

  /** The tag of an id is that of the first rule that matches it; without such a rule there is none. */
  lemma {:induction false} FirstTagIsFirst(rules: seq<Rule>, id: string) returns (k: nat)
    ensures k <= |rules| && forall j | 0 <= j < k :: id !in rules[j].accepts
    ensures k < |rules| ==> id in rules[k].accepts && FirstTag(rules, id) == Some(rules[k].tag)
    ensures k == |rules| ==> FirstTag(rules, id) == None
    decreases |rules|
  {
    k := 0;
    if rules != [] && id !in rules[0].accepts {
      var later := FirstTagIsFirst(rules[1..], id);
      k := later + 1;
      assert forall j | 0 < j < |rules| :: rules[j] == rules[1..][j - 1];
    }
  }

  /** A list keeps the ids at these places, in their order. */
  ghost predicate KeptAt(ids: seq<string>, kept: seq<string>, places: seq<nat>) {
    && |places| == |kept|
    && (forall i | 0 <= i < |places| :: places[i] < |ids| && kept[i] == ids[places[i]])
    && (forall i, j | 0 <= i < j < |places| :: places[i] < places[j])
  }

  /** Under every tag, and among the unclassified, the ids stand as they came, repetitions included. */
  lemma {:induction false} RulesKeepOrder(rules: seq<Rule>, ids: seq<string>, tag: Option<string>)
    returns (places: seq<nat>)
    ensures var result := ByRules(rules, ids);
      KeptAt(ids, if tag.Some? then Items(result.tags, tag.value) else result.rest, places)
    ensures forall k: nat {:trigger k in places} | k < |ids| :: k in places <==> FirstTag(rules, ids[k]) == tag
    decreases |ids|
  {
    hide FirstTag, Extend, Items, KeptAt;
    if ids == [] {
      places := [];
      NothingKept(rules, tag);
    } else {
      var front, id := ids[..|ids| - 1], ids[|ids| - 1];
      var before := RulesKeepOrder(rules, front, tag);
      assert ids == front + [id];
      var found, result := FirstTag(rules, id), ByRules(rules, front);
      if found.Some? && tag.Some? {
        ItemsAfterExtend(result.tags, found.value, [id], tag.value);
      }
      var kept := if tag.Some? then Items(result.tags, tag.value) else result.rest;
      KeptOneMore(front, kept, before, id);
      places := if found == tag then before + [|front|] else before;
      forall k: nat {:trigger k in places} | k < |ids| ensures k in places <==> FirstTag(rules, ids[k]) == tag {
        PlaceAdded(before, |front|, k, found == tag);
        assert k < |front| ==> front[k] == ids[k] && (k in before <==> FirstTag(rules, front[k]) == tag);
      }
    }
  }

  lemma NothingKept(rules: seq<Rule>, tag: Option<string>)
    ensures var result := ByRules(rules, []);
      KeptAt([], if tag.Some? then Items(result.tags, tag.value) else result.rest, [])
  {}

  lemma KeptOneMore(ids: seq<string>, kept: seq<string>, places: seq<nat>, id: string)
    requires KeptAt(ids, kept, places)
    ensures KeptAt(ids + [id], kept + [id], places + [|ids|]) && KeptAt(ids + [id], kept, places)
    ensures forall i | 0 <= i < |places| :: places[i] < |ids|
  {}

  lemma PlaceAdded(places: seq<nat>, n: nat, k: nat, added: bool)
    requires k <= n && forall i | 0 <= i < |places| :: places[i] < n
    ensures k in (if added then places + [n] else places) <==> if k < n then k in places else added
  {}

  /** Under the rules an id carries a tag exactly when the tag's rule is the first to match it. */
  lemma {:induction false} RulesTagByFirstMatch(rules: seq<Rule>, ids: seq<string>, id: string)
    ensures var result := ByRules(rules, ids);
      && (forall tag :: id in Items(result.tags, tag) <==> id in ids && FirstTag(rules, id) == Some(tag))
      && (id in result.rest <==> id in ids && FirstTag(rules, id) == None)
    decreases |ids|
  {
    if ids != [] {
      var front, last := ids[..|ids| - 1], ids[|ids| - 1];
      RulesTagByFirstMatch(rules, front, id);
      assert ids == front + [last];
      hide FirstTag, Extend;
      var before := ByRules(rules, front);
      if FirstTag(rules, last).Some? {
        forall tag
          ensures id in Items(ByRules(rules, ids).tags, tag) <==> id in ids && FirstTag(rules, id) == Some(tag)
        {
          ItemsAfterExtend(before.tags, FirstTag(rules, last).value, [last], tag);
        }
      }
    }
  }

  lemma {:induction false} SelectFirst(ids: seq<string>, accepted: set<string>)
    requires ids != []
    ensures var hit := ids[0] in accepted;
      && Select(ids, accepted, hit) == [ids[0]] + Select(ids[1..], accepted, hit)
      && Select(ids, accepted, !hit) == Select(ids[1..], accepted, !hit)
  {
    assert [] + Select(ids[1..], accepted, !(ids[0] in accepted)) == Select(ids[1..], accepted, !(ids[0] in accepted));
  }

  lemma SelectNothing(accepted: set<string>)
    ensures Select([], accepted, true) == [] == Select([], accepted, false)
  {}

  lemma {:induction false} SelectSplits(ids: seq<string>, accepted: set<string>)
    ensures multiset(Select(ids, accepted, true)) + multiset(Select(ids, accepted, false)) == multiset(ids)
    decreases |ids|
  {
    hide Select;
    if ids == [] {
      SelectNothing(accepted);
    } else {
      SelectSplits(ids[1..], accepted);
      SelectFirst(ids, accepted);
      assert ids == [ids[0]] + ids[1..];
    }
  }

  lemma {:induction false} SelectIsPart(ids: seq<string>, accepted: set<string>, wanted: bool)
    requires Distinct(ids)
    ensures Distinct(Select(ids, accepted, wanted)) && forall x | x in Select(ids, accepted, wanted) :: x in ids
    decreases |ids|
  {
    if ids != [] {
      SelectIsPart(ids[1..], accepted, wanted);
      assert ids[0] !in ids[1..];
      assert ids[0] !in Select(ids[1..], accepted, wanted);
    }
  }

  lemma {:induction false} DedupedOfDistinct(ids: seq<string>)
    requires Distinct(ids)
    ensures Deduped(ids) == ids
    decreases |ids|
  {
    if ids != [] {
      DedupedOfDistinct(ids[..|ids| - 1]);
      assert ids == ids[..|ids| - 1] + [ids[|ids| - 1]];
    }
  }

  /** The ids stand in ascending order, each once. */
  lemma SortedSetAscends(ids: seq<string>)
    ensures var s := SortedSet(ids);
      forall i, j | 0 <= i < j < |s| :: s[i] != s[j] && RecentContext.KeyLeq(s[i], s[j])
  {
    var leq := (a, b) => RecentContext.KeyLeq(a, b);
    KeysAreOrdered(leq);
    var places := SortIsStable(leq, Deduped(ids));
    var s := SortedSet(ids);
    if ids != [] {
      DedupedKeeps(ids, ids[0]);
    }
    hide Sort, TotalOrder, Deduped;
    forall i, j | 0 <= i < j < |s| ensures s[i] != s[j] && RecentContext.KeyLeq(s[i], s[j]) {
      assert places[i] != places[j] && leq(s[i], s[j]);
      assert s[i] == Deduped(ids)[places[i]] && s[j] == Deduped(ids)[places[j]];
    }
  }

  lemma KeysAreOrdered(leq: (string, string) -> bool)
    requires forall a, b :: leq(a, b) == RecentContext.KeyLeq(a, b)
    ensures TotalOrder(leq)
  {
    forall a, b ensures leq(a, b) || leq(b, a) { RecentContext.KeyLeqIsTotal(a, b); }
    forall a, b, c | leq(a, b) && leq(b, c) ensures leq(a, c) { RecentContext.KeyLeqIsTransitive(a, b, c); }
  }

  lemma SortedSetKeeps(ids: seq<string>)
    requires Distinct(ids)
    ensures multiset(SortedSet(ids)) == multiset(ids)
  {
    DedupedOfDistinct(ids);
    SortKeeps((a, b) => RecentContext.KeyLeq(a, b), ids);
  }

  lemma FoodsConserve(foods: set<string>, ids: seq<string>)
    requires Distinct(ids)
    ensures Conserves(ids, ByFoods(foods, ids))
  {
    SelectSplits(ids, foods);
    SelectIsPart(ids, foods, true);
    SelectIsPart(ids, foods, false);
    SortedSetKeeps(Select(ids, foods, true));
    SortedSetKeeps(Select(ids, foods, false));
    hide SortedSet, Select;
    var eaten := SortedSet(Select(ids, foods, true));
    assert eaten + [] == eaten;
    assert All([Tag("food", eaten)]) == eaten + All([Tag("food", eaten)][1..]);
  }

  lemma {:induction false} ExtendAllKeepsAll(tags: seq<Tag>, more: seq<Tag>)
    ensures multiset(All(ExtendAll(tags, more))) == multiset(All(tags)) + multiset(All(more))
    decreases |more|
  {
    if more != [] {
      ExtendKeepsAll(tags, more[0].name, more[0].items);
      ExtendAllKeepsAll(Extend(tags, more[0].name, more[0].items), more[1..]);
    }
  }

  lemma {:induction false} DistinctByCount(ids: seq<string>)
    ensures Distinct(ids) <==> forall x :: multiset(ids)[x] <= 1
    decreases |ids|
  {
    if ids != [] {
      var front, last := ids[..|ids| - 1], ids[|ids| - 1];
      DistinctByCount(front);
      assert ids == front + [last];
      if Distinct(ids) {
        assert last !in front;
      } else if Distinct(front) {
        var i :| 0 <= i < |front| && front[i] == last;
        assert multiset(front)[last] >= 1;
        assert multiset(ids)[last] >= 2;
      } else {
        var x :| multiset(front)[x] > 1;
        assert multiset(ids)[x] > 1;
      }
    }
  }

  lemma GenerateConserves(generator: Generator, ids: seq<string>)
    requires Distinct(ids)
    ensures Conserves(ids, Generate(generator, ids)) && Distinct(Generate(generator, ids).rest)
  {
    match generator {
      case Regex(rules) => RulesConserve(rules, ids);
      case Food(foods) => FoodsConserve(foods, ids);
    }
    hide ByRules, ByFoods, Distinct;
    var result := Generate(generator, ids);
    DistinctByCount(ids);
    DistinctByCount(result.rest);
    forall x ensures multiset(result.rest)[x] <= 1 {
      assert multiset(ids)[x] == multiset(All(result.tags))[x] + multiset(result.rest)[x];
    }
  }

  /** Through any chain of generators every id ends up in exactly one place: once under one tag,
      or once among the unclassified. */
  lemma {:induction false} BuildConserves(generators: seq<Generator>, tags: seq<Tag>, remaining: seq<string>)
    requires Distinct(remaining)
    ensures var result := Build(generators, tags, remaining);
      multiset(All(result.tags)) + multiset(result.rest) == multiset(All(tags)) + multiset(remaining)
    decreases |generators|
  {
    if generators != [] {
      GenerateConserves(generators[0], remaining);
      hide Generate, Distinct;
      var step := Generate(generators[0], remaining);
      ExtendAllKeepsAll(tags, step.tags);
      BuildConserves(generators[1..], ExtendAll(tags, step.tags), step.rest);
    }
  }

  // ---------------------------------------------------------------- where an id ends up

  ghost predicate NamesDiffer(tags: seq<Tag>) {
    forall i, j | 0 <= i < j < |tags| :: tags[i].name != tags[j].name
  }

  /** Where one generator puts an id it is given: under the tag of its first matching rule, or under
      "food"; None if it leaves the id unclassified. */
  function PlaceBy(generator: Generator, id: string): Option<string> {
    match generator
    case Regex(rules) => FirstTag(rules, id)
    case Food(foods) => if id in foods then Some("food") else None
  }

  /** Where a chain puts an id: where the first generator that has a place for it does. */
  function Place(generators: seq<Generator>, id: string): Option<string> {
    if generators == [] then None
    else if PlaceBy(generators[0], id).Some? then PlaceBy(generators[0], id) else Place(generators[1..], id)
  }

  /** And that is the place that a generator has when no generator before it has one. */
  lemma {:induction false} PlaceIsFirst(generators: seq<Generator>, id: string, k: nat)
    requires k < |generators| && forall j | 0 <= j < k :: PlaceBy(generators[j], id) == None
    ensures PlaceBy(generators[k], id).Some? || k + 1 == |generators| ==>
              Place(generators, id) == PlaceBy(generators[k], id)
    decreases k
  {
    hide PlaceBy;
    if k > 0 {
      PlaceIsFirst(generators[1..], id, k - 1);
    }
  }

  lemma {:induction false} NamesAfterExtend(tags: seq<Tag>, name: string, items: seq<string>)
    requires NamesDiffer(tags)
    ensures NamesDiffer(Extend(tags, name, items))
    ensures forall tag | tag in Extend(tags, name, items) :: tag.name == name || exists other ::
            other in tags && other.name == tag.name
    decreases |tags|
  {
    if tags != [] && tags[0].name != name {
      NamesAfterExtend(tags[1..], name, items);
      var rest := Extend(tags[1..], name, items);
      forall i | 0 <= i < |rest| ensures rest[i].name != tags[0].name {
        assert rest[i] in rest;
      }
    }
  }

  lemma {:induction false} NamesAfterRules(rules: seq<Rule>, ids: seq<string>)
    ensures NamesDiffer(ByRules(rules, ids).tags)
    decreases |ids|
  {
    hide NamesDiffer, Extend, FirstTag;
    NoNames();
    if ids != [] {
      var front, id := ids[..|ids| - 1], ids[|ids| - 1];
      NamesAfterRules(rules, front);
      if FirstTag(rules, id).Some? {
        NamesAfterExtend(ByRules(rules, front).tags, FirstTag(rules, id).value, [id]);
      }
    }
  }

  lemma NoNames()
    ensures NamesDiffer([])
  {}

  lemma {:induction false} NamesAfterExtendAll(tags: seq<Tag>, more: seq<Tag>)
    requires NamesDiffer(tags)
    ensures NamesDiffer(ExtendAll(tags, more))
    decreases |more|
  {
    hide NamesDiffer, Extend;
    if more != [] {
      NamesAfterExtend(tags, more[0].name, more[0].items);
      NamesAfterExtendAll(Extend(tags, more[0].name, more[0].items), more[1..]);
    }
  }

  /** The tags of a build are the keys of a dictionary: no name occurs twice. */
  lemma {:induction false} BuildNamesDiffer(generators: seq<Generator>, tags: seq<Tag>, remaining: seq<string>)
    requires NamesDiffer(tags)
    ensures NamesDiffer(Build(generators, tags, remaining).tags)
    decreases |generators|
  {
    hide NamesDiffer, Generate;
    if generators != [] {
      var step := Generate(generators[0], remaining);
      NamesAfterExtendAll(tags, step.tags);
      BuildNamesDiffer(generators[1..], ExtendAll(tags, step.tags), step.rest);
    }
  }

  lemma {:induction false} ItemsOfNoTag(tags: seq<Tag>, name: string)
    requires forall i | 0 <= i < |tags| :: tags[i].name != name
    ensures Items(tags, name) == []
    decreases |tags|
  {
    if tags != [] { ItemsOfNoTag(tags[1..], name); }
  }

  lemma {:induction false} ItemsAfterExtendAll(tags: seq<Tag>, more: seq<Tag>, name: string)
    requires NamesDiffer(more)
    ensures Items(ExtendAll(tags, more), name) == Items(tags, name) + Items(more, name)
    decreases |more|
  {
    hide Items, Extend;
    NoItems(more, name);
    if more != [] {
      ItemsAfterExtendAll(Extend(tags, more[0].name, more[0].items), more[1..], name);
      ItemsAfterExtend(tags, more[0].name, more[0].items, name);
      if more[0].name == name {
        ItemsOfNoTag(more[1..], name);
      }
    }
  }

  lemma NoItems(tags: seq<Tag>, name: string)
    ensures Items(tags, name) == if tags == [] then [] else if tags[0].name == name then tags[0].items
            else Items(tags[1..], name)
  {}

  lemma {:induction false} SelectHolds(ids: seq<string>, accepted: set<string>, wanted: bool, id: string)
    ensures id in Select(ids, accepted, wanted) <==> id in ids && ((id in accepted) == wanted)
    decreases |ids|
  {
    if ids != [] {
      SelectHolds(ids[1..], accepted, wanted, id);
      var rest := Select(ids[1..], accepted, wanted);
      assert id in Select(ids, accepted, wanted) <==> ((ids[0] in accepted) == wanted && id == ids[0]) || id in rest;
      assert id in ids <==> id == ids[0] || id in ids[1..];
    }
  }

  /** The food tag holds exactly the foods among the ids, and the rest is everything else. */
  lemma FoodsAreTagged(foods: set<string>, ids: seq<string>, id: string)
    ensures var result := ByFoods(foods, ids);
      && (forall tag :: id in Items(result.tags, tag) <==> tag == "food" && id in ids && id in foods)
      && (id in result.rest <==> id in ids && id !in foods)
  {
    SelectHolds(ids, foods, true, id);
    SelectHolds(ids, foods, false, id);
    SortedSetHolds(Select(ids, foods, true), id);
    SortedSetHolds(Select(ids, foods, false), id);
    hide Select, SortedSet;
    var eaten := SortedSet(Select(ids, foods, true));
    forall tag ensures Items([Tag("food", eaten)], tag) == if tag == "food" then eaten else [] {
      assert [Tag("food", eaten)][1..] == [];
    }
  }

  /** One generator puts every id of its input where `PlaceBy` says, and leaves the others. */
  lemma GeneratePlaces(generator: Generator, ids: seq<string>, id: string)
    ensures var result := Generate(generator, ids);
      && NamesDiffer(result.tags)
      && (forall tag :: id in Items(result.tags, tag) <==> id in ids && PlaceBy(generator, id) == Some(tag))
      && (id in result.rest <==> id in ids && PlaceBy(generator, id) == None)
  {
    hide Items, ByRules, FirstTag, Select, SortedSet;
    match generator
    case Regex(rules) =>
      NamesAfterRules(rules, ids);
      RulesTagByFirstMatch(rules, ids, id);
    case Food(foods) =>
      FoodsAreTagged(foods, ids, id);
  }

  /** Through any chain, an id of the input ends up under exactly the tag of its place, or among the
      unclassified when it has none; what was tagged before stays. */
  lemma {:induction false} BuildPlaces(generators: seq<Generator>, tags: seq<Tag>, remaining: seq<string>, id: string,
                                       tag: string)
    ensures var result := Build(generators, tags, remaining);
      && (id in Items(result.tags, tag)
          <==> id in Items(tags, tag) || (id in remaining && Place(generators, id) == Some(tag)))
      && (id in result.rest <==> id in remaining && Place(generators, id) == None)
    decreases |generators|
  {
    hide Items, Generate, PlaceBy, NamesDiffer, ExtendAll;
    if generators != [] {
      var step := Generate(generators[0], remaining);
      GeneratePlaces(generators[0], remaining, id);
      ItemsAfterExtendAll(tags, step.tags, tag);
      BuildPlaces(generators[1..], ExtendAll(tags, step.tags), step.rest, id, tag);
    }
  }

  /** The whole build: an id carries a tag exactly when it is its place, and is unclassified exactly
      when no generator has a place for it. */
  lemma EachIdInItsPlace(generators: seq<Generator>, ids: seq<string>, id: string)
    ensures var result := Build(generators, [], ids);
      && (forall tag :: id in Items(result.tags, tag) <==> id in ids && Place(generators, id) == Some(tag))
      && (id in result.rest <==> id in ids && Place(generators, id) == None)
  {
    hide Items, Build, Place;
    forall tag
      ensures id in Items(Build(generators, [], ids).tags, tag) <==> id in ids && Place(generators, id) == Some(tag)
    {
      BuildPlaces(generators, [], ids, id, tag);
      NoItems([], tag);
    }
    BuildPlaces(generators, [], ids, id, "");
  }

  // ---------------------------------------------------------------- nothing is lost or counted twice

  lemma {:induction false} TwoTagsCountTwice(tags: seq<Tag>, s: string, t: string, id: string)
    ensures id in Items(tags, s) ==> multiset(All(tags))[id] >= 1
    ensures s != t && id in Items(tags, s) && id in Items(tags, t) ==> multiset(All(tags))[id] >= 2
    decreases |tags|
  {
    if tags != [] {
      TwoTagsCountTwice(tags[1..], s, t, id);
      TwoTagsCountTwice(tags[1..], t, s, id);
      hide Items;
      var rest := All(tags[1..]);
      assert multiset(All(tags))[id] == multiset(tags[0].items)[id] + multiset(rest)[id];
    }
  }

  lemma CountedOnce(tags: seq<Tag>, rest: seq<string>, s: string, t: string, id: string)
    requires multiset(All(tags))[id] + multiset(rest)[id] == 1
    requires id in Items(tags, s) && id in Items(tags, t)
    ensures s == t && id !in rest
  {
    TwoTagsCountTwice(tags, s, t, id);
    hide Items, All;
    assert id in rest <==> id in multiset(rest);
  }

  lemma EachIdHasOnePlace(generators: seq<Generator>, ids: seq<string>, id: string)
    requires Distinct(ids) && id in ids
    ensures var result := Build(generators, [], ids);
      && multiset(All(result.tags))[id] + multiset(result.rest)[id] == 1
      && (forall s, t | id in Items(result.tags, s) && id in Items(result.tags, t) :: s == t && id !in result.rest)
      && match Place(generators, id)
         case Some(tag) => id in Items(result.tags, tag)
         case None => id in result.rest
  {
    EachIdInItsPlace(generators, ids, id);
    BuildConserves(generators, [], ids);
    DistinctByCount(ids);
    assert multiset(All([])) == multiset{};
    hide Distinct, Build, Items, All, Place;
    var result := Build(generators, [], ids);
    assert id in multiset(ids);
    assert (multiset(All(result.tags)) + multiset(result.rest))[id] == (multiset(All([])) + multiset(ids))[id];
    forall s, t | id in Items(result.tags, s) && id in Items(result.tags, t) ensures s == t && id !in result.rest {
      CountedOnce(result.tags, result.rest, s, t, id);
    }
  }

  // ---------------------------------------------------------------- the loops

  method GenerateByRules(rules: seq<Rule>, ids: seq<string>) returns (result: Generated)
    ensures result == ByRules(rules, ids)
  {
    hide Extend;
    var tags: seq<Tag>, unclassified: seq<string> := [], [];
    for i := 0 to |ids|
      invariant Generated(tags, unclassified) == ByRules(rules, ids[..i])
    {
      assert ids[..i + 1][..i] == ids[..i];
      var matched := false;
      assert rules[0..] == rules;
      for j := 0 to |rules|
        invariant !matched && FirstTag(rules, ids[i]) == FirstTag(rules[j..], ids[i])
      {
        assert rules[j..][1..] == rules[j + 1..];
        if ids[i] in rules[j].accepts {
          tags := Extend(tags, rules[j].tag, [ids[i]]);
          matched := true;
          break;
        }
      }
      if !matched {
        unclassified := unclassified + [ids[i]];
      }
    }
    assert ids[..|ids|] == ids;
    result := Generated(tags, unclassified);
  }

  method BuildTags(generators: seq<Generator>, allIds: seq<string>) returns (result: Generated)
    ensures result == Build(generators, [], allIds)
  {
    hide ByRules, ByFoods, Extend;
    var tags: seq<Tag>, remaining := [], allIds;
    assert generators[0..] == generators;
    for i := 0 to |generators|
      invariant Build(generators[i..], tags, remaining) == Build(generators, [], allIds)
    {
      assert generators[i..][1..] == generators[i + 1..];
      var step: Generated;
      match generators[i] {
        case Regex(rules) => step := GenerateByRules(rules, remaining);
        case Food(foods) => step := ByFoods(foods, remaining);
      }
      tags := Merge(tags, step.tags);
      remaining := step.rest;
    }
    result := Generated(tags, remaining);
  }

  method Merge(tags: seq<Tag>, more: seq<Tag>) returns (merged: seq<Tag>)
    ensures merged == ExtendAll(tags, more)
  {
    hide Extend;
    merged := tags;
    assert more[0..] == more;
    for j := 0 to |more|
      invariant ExtendAll(merged, more[j..]) == ExtendAll(tags, more)
    {
      assert more[j..][1..] == more[j + 1..];
      merged := Extend(merged, more[j].name, more[j].items);
    }
  }

  /** The reverse index is the exact inverse of the tags. */
  method BuildReverseIndex(tags: seq<Tag>) returns (index: map<string, set<string>>)
    requires NamesDiffer(tags)
    ensures forall id :: id in index <==> Tagged(tags, id)
    ensures forall id, t | id in index :: t in index[id] <==> id in Items(tags, t)
  {
    hide Inverts, Tagged, Items;
    index := map[];
    NothingInverts();
    for i := 0 to |tags|
      invariant Inverts(tags[..i], index)
    {
      var tag := tags[i];
      assert tag.items[..0] == [];
      InvertsNothingMore(tags[..i], tag, index);
      for j := 0 to |tag.items|
        invariant Inverts(tags[..i] + [Tag(tag.name, tag.items[..j])], index)
      {
        var id := tag.items[j];
        assert tag.items[..j + 1] == tag.items[..j] + [id];
        InvertsOneMore(tags[..i], tag.name, tag.items[..j], id, index);
        index := index[id := (if id in index then index[id] else {}) + {tag.name}];
      }
      assert tag.items[..|tag.items|] == tag.items;
      assert tags[..i + 1] == tags[..i] + [tag];
    }
    assert tags[..|tags|] == tags;
    InversionIsExact(tags, index);
  }

  ghost predicate Tagged(tags: seq<Tag>, id: string) {
    exists t :: id in Items(tags, t)
  }

  ghost predicate Carries(tags: seq<Tag>, t: string, id: string) {
    exists i :: 0 <= i < |tags| && tags[i].name == t && id in tags[i].items
  }

  ghost predicate Inverts(tags: seq<Tag>, index: map<string, set<string>>) {
    && (forall id | id in index :: index[id] != {})
    && (forall id, t :: (id in index && t in index[id]) <==> Carries(tags, t, id))
  }

  lemma CarriesAppend(tags: seq<Tag>, tag: Tag, t: string, id: string)
    ensures Carries(tags + [tag], t, id) <==> Carries(tags, t, id) || (tag.name == t && id in tag.items)
  {
    var longer := tags + [tag];
    if i :| 0 <= i < |tags| && tags[i].name == t && id in tags[i].items {
      assert longer[i] == tags[i];
    }
    assert longer[|tags|] == tag;
  }

  lemma NothingInverts()
    ensures Inverts([], map[])
  {
  }

  lemma InvertsNothingMore(tags: seq<Tag>, tag: Tag, index: map<string, set<string>>)
    requires Inverts(tags, index)
    ensures Inverts(tags + [Tag(tag.name, [])], index)
  {
    hide Carries;
    forall id, t ensures Carries(tags + [Tag(tag.name, [])], t, id) <==> Carries(tags, t, id) {
      CarriesAppend(tags, Tag(tag.name, []), t, id);
    }
  }

  lemma InvertsOneMore(tags: seq<Tag>, name: string, items: seq<string>, id: string, index: map<string, set<string>>)
    requires Inverts(tags + [Tag(name, items)], index)
    ensures Inverts(tags + [Tag(name, items + [id])], index[id := (if id in index then index[id] else {}) + {name}])
  {
    hide Carries;
    forall x, t ensures Carries(tags + [Tag(name, items + [id])], t, x)
                   <==> Carries(tags + [Tag(name, items)], t, x) || (t == name && x == id) {
      CarriesAppend(tags, Tag(name, items), t, x);
      CarriesAppend(tags, Tag(name, items + [id]), t, x);
    }
  }

  lemma {:induction false} ItemsAreCarried(tags: seq<Tag>, t: string, id: string)
    requires NamesDiffer(tags)
    ensures id in Items(tags, t) <==> Carries(tags, t, id)
    decreases |tags|
  {
    if tags != [] {
      ItemsAreCarried(tags[1..], t, id);
      if i :| 0 <= i < |tags| && tags[i].name == t && id in tags[i].items && i > 0 {
        assert tags[1..][i - 1] == tags[i];
      }
      if i :| 0 <= i < |tags[1..]| && tags[1..][i].name == t && id in tags[1..][i].items {
        assert tags[i + 1] == tags[1..][i];
      }
    }
  }

  lemma IndexedIffTagged(tags: seq<Tag>, index: map<string, set<string>>, id: string)
    requires NamesDiffer(tags)
    requires Inverts(tags, index)
    ensures id in index <==> Tagged(tags, id)
    ensures id in index ==> forall t :: t in index[id] <==> id in Items(tags, t)
  {
    hide Carries, Items;
    forall t ensures id in Items(tags, t) <==> id in index && t in index[id] {
      ItemsAreCarried(tags, t, id);
    }
    if id in index {
      var t :| t in index[id];
      assert id in Items(tags, t);
    }
  }

  lemma InversionIsExact(tags: seq<Tag>, index: map<string, set<string>>)
    requires NamesDiffer(tags)
    requires Inverts(tags, index)
    ensures forall id :: id in index <==> Tagged(tags, id)
    ensures forall id, t | id in index :: t in index[id] <==> id in Items(tags, t)
  {
    hide Carries, Items, Inverts, Tagged;
    forall id ensures id in index <==> Tagged(tags, id) {
      IndexedIffTagged(tags, index, id);
    }
    forall id, t | id in index ensures t in index[id] <==> id in Items(tags, t) {
      IndexedIffTagged(tags, index, id);
    }
  }

  /** Tags and index together: an id is indexed exactly when it has a place, and under that tag alone. */
  method BuildKnowledgeBase(generators: seq<Generator>, allIds: seq<string>)
    returns (result: Generated, index: map<string, set<string>>)
    ensures result == Build(generators, [], allIds)
    ensures forall id :: id in index <==> id in allIds && Place(generators, id).Some?
    ensures forall id | id in index :: index[id] == {Place(generators, id).value}
  {
    result := BuildTags(generators, allIds);
    BuildNamesDiffer(generators, [], allIds);
    index := BuildReverseIndex(result.tags);
    IndexFollowsPlace(generators, allIds, index);
  }

  lemma IndexFollowsPlace(generators: seq<Generator>, ids: seq<string>, index: map<string, set<string>>)
    requires forall id :: id in index <==> Tagged(Build(generators, [], ids).tags, id)
    requires forall id, t | id in index :: t in index[id] <==> id in Items(Build(generators, [], ids).tags, t)
    ensures forall id :: id in index <==> id in ids && Place(generators, id).Some?
    ensures forall id | id in index :: index[id] == {Place(generators, id).value}
  {
    hide Items, Build, Place;
    forall id ensures id in index <==> id in ids && Place(generators, id).Some?
      ensures id in index ==> index[id] == {Place(generators, id).value}
    {
      EachIdInItsPlace(generators, ids, id);
      if id in ids && Place(generators, id).Some? {
        assert id in Items(Build(generators, [], ids).tags, Place(generators, id).value);
      }
      if id in index {
        forall t ensures t in index[id] <==> t == Place(generators, id).value {
          assert t in index[id] <==> id in Items(Build(generators, [], ids).tags, t);
        }
      }
    }
  }

  // ---------------------------------------------------------------- aggregates

  datatype Aggregate = Aggregate(name: string, sources: seq<string>)

  function Union(tags: seq<Tag>, sources: seq<string>): seq<string> {
    if sources == [] then [] else Items(tags, sources[0]) + Union(tags, sources[1..])
  }

  /** Each aggregate collects its sources from the original tags; an empty one is not added. */
  function Aggregated(tags: seq<Tag>, result: seq<Tag>, aggregates: seq<Aggregate>): seq<Tag>
    decreases |aggregates|
  {
    if aggregates == [] then result
    else
      var items := Union(tags, aggregates[0].sources);
      var next := if items == [] then result else Assign(result, aggregates[0].name, SortedSet(items));
      Aggregated(tags, next, aggregates[1..])
  }

  function AddAggregateTags(tags: seq<Tag>, aggregates: seq<Aggregate>): seq<Tag> { Aggregated(tags, tags, aggregates) }

  ghost predicate UniqueAggregates(aggregates: seq<Aggregate>) {
    forall i, j | 0 <= i < j < |aggregates| :: aggregates[i].name != aggregates[j].name
  }

  /** No aggregate is the source of an aggregate. */
  ghost predicate Flat(aggregates: seq<Aggregate>) {
    forall i, j | 0 <= i < |aggregates| && 0 <= j < |aggregates| :: aggregates[i].name !in aggregates[j].sources
  }

  lemma {:induction false} UnionCollects(tags: seq<Tag>, sources: seq<string>, x: string)
    ensures x in Union(tags, sources) <==> exists src :: src in sources && x in Items(tags, src)
    decreases |sources|
  {
    hide Items;
    if sources != [] {
      UnionCollects(tags, sources[1..], x);
      var first := sources[0];
      if src :| src in sources && x in Items(tags, src) {
        assert src == first || src in sources[1..];
      }
      if src :| src in sources[1..] && x in Items(tags, src) {
        assert src in sources;
      }
      if x in Items(tags, first) {
        assert first in sources;
      }
    }
  }

  lemma SortedSetHolds(ids: seq<string>, x: string)
    ensures x in SortedSet(ids) <==> x in ids
  {
    DedupedKeeps(ids, x);
    var leq := (a, b) => RecentContext.KeyLeq(a, b);
    SortKeeps(leq, Deduped(ids));
    assert x in multiset(Sort(leq, Deduped(ids))) <==> x in multiset(Deduped(ids));
  }

  function Wanted(tags: seq<Tag>, aggregates: seq<Aggregate>, name: string): Option<seq<string>> {
    if aggregates == [] then None
    else if aggregates[0].name == name && Union(tags, aggregates[0].sources) != [] then
      Some(SortedSet(Union(tags, aggregates[0].sources)))
    else Wanted(tags, aggregates[1..], name)
  }

  lemma {:induction false} NotAnAggregate(tags: seq<Tag>, aggregates: seq<Aggregate>, name: string)
    requires forall i | 0 <= i < |aggregates| :: aggregates[i].name != name
    ensures Wanted(tags, aggregates, name) == None
    decreases |aggregates|
  {
    if aggregates != [] { NotAnAggregate(tags, aggregates[1..], name); }
  }

  /** An aggregate holds what its sources hold together; every other tag is as it was. */
  lemma {:induction false} AggregatedItems(tags: seq<Tag>, result: seq<Tag>, aggregates: seq<Aggregate>, name: string)
    requires UniqueAggregates(aggregates)
    ensures Items(Aggregated(tags, result, aggregates), name)
         == match Wanted(tags, aggregates, name) case Some(items) => items case None => Items(result, name)
    decreases |aggregates|
  {
    if aggregates != [] {
      hide Items, SortedSet, Union;
      var first, items := aggregates[0], Union(tags, aggregates[0].sources);
      var next := if items == [] then result else Assign(result, first.name, SortedSet(items));
      AggregatedItems(tags, next, aggregates[1..], name);
      ItemsAfterAssign(result, first.name, SortedSet(items), name);
      if first.name == name {
        NotAnAggregate(tags, aggregates[1..], name);
      }
    }
  }

  lemma {:induction false} AggregateIsUnion(tags: seq<Tag>, aggregates: seq<Aggregate>, k: nat, x: string)
    requires UniqueAggregates(aggregates) && k < |aggregates| && Union(tags, aggregates[k].sources) != []
    ensures x in Items(AddAggregateTags(tags, aggregates), aggregates[k].name)
       <==> exists src :: src in aggregates[k].sources && x in Items(tags, src)
  {
    AggregatedItems(tags, tags, aggregates, aggregates[k].name);
    WantedAt(tags, aggregates, k);
    hide Items, SortedSet, Union;
    SortedSetHolds(Union(tags, aggregates[k].sources), x);
    UnionCollects(tags, aggregates[k].sources, x);
  }

  /** A tag is there afterwards if it was before or is an aggregate with members; a tag that is no such
      aggregate is as it was, and the members of one that is stand in ascending order, each once. */
  lemma AggregatesAreAdded(tags: seq<Tag>, aggregates: seq<Aggregate>, name: string)
    requires UniqueAggregates(aggregates)
    ensures var result := AddAggregateTags(tags, aggregates);
      var added := exists k :: 0 <= k < |aggregates| && aggregates[k].name == name && HasMembers(tags, aggregates[k]);
      && (Has(result, name) <==> Has(tags, name) || added)
      && (!added ==> Items(result, name) == Items(tags, name))
      && (added ==> forall i, j | 0 <= i < j < |Items(result, name)| ::
            Items(result, name)[i] != Items(result, name)[j]
            && RecentContext.KeyLeq(Items(result, name)[i], Items(result, name)[j]))
  {
    hide Items, Has, Union, Wanted, SortedSet, UniqueAggregates, HasMembers;
    AggregatedItems(tags, tags, aggregates, name);
    AggregatedHasIff(tags, tags, aggregates, name);
    WantedIff(tags, aggregates, name);
    if k :| 0 <= k < |aggregates| && aggregates[k].name == name && HasMembers(tags, aggregates[k]) {
      MembersUnite(tags, aggregates[k]);
      WantedAt(tags, aggregates, k);
      SortedSetAscends(Union(tags, aggregates[k].sources));
    }
  }

  ghost predicate HasMembers(tags: seq<Tag>, aggregate: Aggregate) {
    exists src :: src in aggregate.sources && Items(tags, src) != []
  }

  lemma {:induction false} UnionEmptyIff(tags: seq<Tag>, sources: seq<string>)
    ensures Union(tags, sources) == [] <==> forall src | src in sources :: Items(tags, src) == []
    decreases |sources|
  {
    hide Items;
    if sources != [] {
      UnionEmptyIff(tags, sources[1..]);
      assert sources == [sources[0]] + sources[1..];
      assert |Union(tags, sources)| == |Items(tags, sources[0])| + |Union(tags, sources[1..])|;
    }
  }

  lemma MembersUnite(tags: seq<Tag>, aggregate: Aggregate)
    ensures HasMembers(tags, aggregate) <==> Union(tags, aggregate.sources) != []
  {
    hide Items, Union;
    UnionEmptyIff(tags, aggregate.sources);
  }

  lemma {:induction false} WantedIff(tags: seq<Tag>, aggregates: seq<Aggregate>, name: string)
    ensures Wanted(tags, aggregates, name).Some?
            <==> exists k :: 0 <= k < |aggregates| && aggregates[k].name == name && HasMembers(tags, aggregates[k])
    decreases |aggregates|
  {
    hide Union, SortedSet, HasMembers;
    if aggregates != [] {
      MembersUnite(tags, aggregates[0]);
      WantedIff(tags, aggregates[1..], name);
      assert forall k | 0 <= k < |aggregates[1..]| :: aggregates[1..][k] == aggregates[k + 1];
    }
  }

  lemma {:induction false} AggregatedHasIff(tags: seq<Tag>, result: seq<Tag>, aggregates: seq<Aggregate>, name: string)
    ensures Has(Aggregated(tags, result, aggregates), name)
            <==> Has(result, name) || Wanted(tags, aggregates, name).Some?
    decreases |aggregates|
  {
    if aggregates != [] {
      hide Has, Items, SortedSet, Union;
      var first, items := aggregates[0], Union(tags, aggregates[0].sources);
      var next := if items == [] then result else Assign(result, first.name, SortedSet(items));
      ItemsAfterAssign(result, first.name, SortedSet(items), name);
      AggregatedHasIff(tags, next, aggregates[1..], name);
    }
  }

  lemma {:induction false} WantedAt(tags: seq<Tag>, aggregates: seq<Aggregate>, k: nat)
    requires UniqueAggregates(aggregates) && k < |aggregates| && Union(tags, aggregates[k].sources) != []
    ensures Wanted(tags, aggregates, aggregates[k].name) == Some(SortedSet(Union(tags, aggregates[k].sources)))
    decreases |aggregates|
  {
    hide SortedSet, Union;
    if k > 0 {
      WantedAt(tags, aggregates[1..], k - 1);
    }
  }

  lemma {:induction false} SameUnion(a: seq<Tag>, b: seq<Tag>, sources: seq<string>)
    requires forall src | src in sources :: Items(a, src) == Items(b, src)
    ensures Union(a, sources) == Union(b, sources)
    decreases |sources|
  {
    if sources != [] { SameUnion(a, b, sources[1..]); }
  }

  lemma SameUnions(tags: seq<Tag>, aggregates: seq<Aggregate>)
    requires UniqueAggregates(aggregates) && Flat(aggregates)
    ensures var once := AddAggregateTags(tags, aggregates);
      forall i | 0 <= i < |aggregates| :: Union(once, aggregates[i].sources) == Union(tags, aggregates[i].sources)
  {
    hide Items, Union, Wanted, SortedSet, UniqueAggregates;
    var once := AddAggregateTags(tags, aggregates);
    forall i | 0 <= i < |aggregates| ensures Union(once, aggregates[i].sources) == Union(tags, aggregates[i].sources) {
      forall src | src in aggregates[i].sources ensures Items(once, src) == Items(tags, src) {
        AggregatedItems(tags, tags, aggregates, src);
        NotAnAggregate(tags, aggregates, src);
      }
      SameUnion(once, tags, aggregates[i].sources);
    }
  }

  /** Assigning a tag what it holds changes nothing. */
  lemma {:induction false} AssignTheSame(tags: seq<Tag>, name: string)
    requires Has(tags, name)
    ensures Assign(tags, name, Items(tags, name)) == tags
    decreases |tags|
  {
    assert tags == [tags[0]] + tags[1..];
    if tags[0].name != name {
      AssignTheSame(tags[1..], name);
    }
  }

  /** Every aggregate that has members is there already, with those members. */
  ghost predicate Settled(once: seq<Tag>, aggregates: seq<Aggregate>) {
    forall i | 0 <= i < |aggregates| && Union(once, aggregates[i].sources) != [] ::
      Has(once, aggregates[i].name) && Items(once, aggregates[i].name) == SortedSet(Union(once, aggregates[i].sources))
  }

  lemma {:induction false} SettledStays(once: seq<Tag>, aggregates: seq<Aggregate>)
    requires Settled(once, aggregates)
    ensures Aggregated(once, once, aggregates) == once
    decreases |aggregates|
  {
    if aggregates != [] {
      hide Has, Items, SortedSet, Union, Assign;
      SettledRest(once, aggregates);
      SettledStays(once, aggregates[1..]);
      if Union(once, aggregates[0].sources) != [] {
        AssignTheSame(once, aggregates[0].name);
      }
    }
  }

  lemma SettledRest(once: seq<Tag>, aggregates: seq<Aggregate>)
    requires aggregates != [] && Settled(once, aggregates)
    ensures Settled(once, aggregates[1..])
  {
    hide Has, Items, SortedSet, Union;
    assert forall i | 0 <= i < |aggregates[1..]| :: aggregates[1..][i] == aggregates[i + 1];
  }

  /** Aggregating twice gives the tags of aggregating once, in the same order. */
  lemma AggregationIsIdempotent(tags: seq<Tag>, aggregates: seq<Aggregate>)
    requires UniqueAggregates(aggregates) && Flat(aggregates)
    ensures var once := AddAggregateTags(tags, aggregates);
      AddAggregateTags(once, aggregates) == once
  {
    SameUnions(tags, aggregates);
    hide Has, Items, SortedSet, Union, Wanted, Aggregated, UniqueAggregates, Flat;
    var once := AddAggregateTags(tags, aggregates);
    forall i | 0 <= i < |aggregates| && Union(once, aggregates[i].sources) != []
      ensures Has(once, aggregates[i].name)
           && Items(once, aggregates[i].name) == SortedSet(Union(once, aggregates[i].sources))
    {
      WantedAt(tags, aggregates, i);
      AggregatedHasIff(tags, tags, aggregates, aggregates[i].name);
      AggregatedItems(tags, tags, aggregates, aggregates[i].name);
    }
    SettledStays(once, aggregates);
  }

  method Collect(tags: seq<Tag>, sources: seq<string>) returns (items: seq<string>)
    ensures items == Union(tags, sources)
  {
    hide Items;
    items := [];
    assert sources[0..] == sources;
    for j := 0 to |sources|
      invariant items + Union(tags, sources[j..]) == Union(tags, sources)
    {
      assert sources[j..][1..] == sources[j + 1..];
      var more := Items(tags, sources[j]);
      assert (items + more) + Union(tags, sources[j + 1..]) == items + (more + Union(tags, sources[j + 1..]));
      items := items + more;
    }
  }

  method AggregateTags(tags: seq<Tag>, aggregates: seq<Aggregate>) returns (result: seq<Tag>)
    ensures result == AddAggregateTags(tags, aggregates)
  {
    hide Union, Assign, SortedSet;
    result := tags;
    assert aggregates[0..] == aggregates;
    for i := 0 to |aggregates|
      invariant Aggregated(tags, result, aggregates[i..]) == Aggregated(tags, tags, aggregates)
    {
      assert aggregates[i..][1..] == aggregates[i + 1..];
      var items := Collect(tags, aggregates[i].sources);
      if items != [] {
        result := Assign(result, aggregates[i].name, SortedSet(items));
      }
    }
  }
}
