/**
 The crafting budget of a request depends on what the request can come to, and on nothing else
 in the catalog.
 */
module BudgetParts {
  import opened Integers
  import opened Budget
  import opened BudgetPlan
  import opened BudgetEngine

  /** Two catalogs that have the same families say the same about a name. */
  ghost predicate Agree(cat: Catalog, part: Catalog, name: Name) {
    && (forall n :: Family(part, n) == Family(cat, n))
    && (name in part.recipes <==> name in cat.recipes)
    && (name in cat.recipes ==> part.recipes[name] == cat.recipes[name])
    && (name in part.tools <==> name in cat.tools) && (name in cat.tools ==> part.tools[name] == cat.tools[name])
  }

  lemma MinedTheSame(cat: Catalog, part: Catalog, name: Name, desired: int, seen: set<Name>, stock: Bag)
    requires Sound(cat) && Sound(part) && Agree(cat, part, name) && name !in cat.recipes
    requires var left := stock - Draw(Family(cat, name), Max(desired, 1), stock);
      name in cat.tools ==> Analyze(part, cat.tools[name], 1, {}, left) == Analyze(cat, cat.tools[name], 1, {}, left)
    ensures Analyze(part, name, desired, seen, stock) == Analyze(cat, name, desired, seen, stock)
  {
    hide Draw, Taken, SumCounts, Sound, LevelOf, Unseen, Descends, Family, Copies, AnalyzeLines, Analyze;
    var drawn, used := LeafNode(cat, name, desired, seen, stock);
    var _, _ := LeafNode(part, name, desired, seen, stock);
  }

  lemma CraftedTheSame(cat: Catalog, part: Catalog, name: Name, desired: int, seen: set<Name>, stock: Bag)
    requires Sound(cat) && Sound(part) && Agree(cat, part, name) && name in cat.recipes
    requires forall crafts: nat, left ::
      AnalyzeLines(part, name, crafts, seen, left, 0) == AnalyzeLines(cat, name, crafts, seen, left, 0)
    ensures Analyze(part, name, desired, seen, stock) == Analyze(cat, name, desired, seen, stock)
  {
    hide Draw, Taken, SumCounts, Sound, LevelOf, Unseen, Descends, Family, NothingMissing, Times, CraftsNeeded, Copies;
    hide AnalyzeLines;
  }

  /** Of a sound catalog, any closed part that has the name gives the same budget and stock. */
  lemma {:induction false} PartIsEnough(cat: Catalog, names: set<Name>, name: Name, desired: int, seen: set<Name>,
                                        stock: Bag)
    requires Sound(cat) && SoundFor(cat, names, name)
    ensures Analyze(Part(cat, names), name, desired, seen, stock) == Analyze(cat, name, desired, seen, stock)
    decreases LevelOf(Part(cat, names), name), Unseen(Part(cat, names), name, seen), 1, 0
  {
    hide Draw, Taken, SumCounts, Sound, LevelOf, Unseen, Descends, Part, SoundFor, Family, NothingMissing, Times;
    hide CraftsNeeded, AnalyzeLines, Copies, Analyze;
    var part := Part(cat, names);
    PartAgrees(cat, names, name);
    if name !in cat.recipes {
      if name in cat.tools {
        ToolDescent(part, name);
        StaysWithin(cat, names, name);
        PartIsEnough(cat, names, cat.tools[name], 1, {}, stock - Draw(Family(cat, name), Max(desired, 1), stock));
      }
      MinedTheSame(cat, part, name, desired, seen, stock);
    } else {
      forall crafts: nat, left
        ensures AnalyzeLines(part, name, crafts, seen, left, 0) == AnalyzeLines(cat, name, crafts, seen, left, 0)
      {
        PartIsEnoughForLines(cat, names, name, crafts, seen, left, 0);
      }
      CraftedTheSame(cat, part, name, desired, seen, stock);
    }
  }

  lemma {:induction false} PartIsEnoughForLines(cat: Catalog, names: set<Name>, name: Name, crafts: nat,
                                                seen: set<Name>, stock: Bag, k: nat)
    requires Sound(cat) && SoundFor(cat, names, name) && name in cat.recipes && k <= |cat.recipes[name].materials|
    ensures name in Part(cat, names).recipes && Part(cat, names).recipes[name] == cat.recipes[name]
    ensures AnalyzeLines(Part(cat, names), name, crafts, seen, stock, k)
            == AnalyzeLines(cat, name, crafts, seen, stock, k)
    decreases LevelOf(Part(cat, names), name), Unseen(Part(cat, names), name, seen), 0,
              |cat.recipes[name].materials| - k
  {
    hide Draw, Taken, SumCounts, Analyze, AnalyzeLines, Cons, Copies, Times, Sound, LevelOf, Unseen, Descends, Part;
    hide SoundFor, Family;
    var part := Part(cat, names);
    PartAgrees(cat, names, name);
    StaysWithin(cat, names, name);
    if k == |cat.recipes[name].materials| {
      UnfoldEnd(cat, name, crafts, seen, stock);
      UnfoldEnd(part, name, crafts, seen, stock);
      return;
    }
    var m, required := MaterialAt(cat, name, k), RequiredAt(cat, name, crafts, k);
    if required <= 0 {
      UnfoldSkipped(cat, name, crafts, seen, stock, k);
      UnfoldSkipped(part, name, crafts, seen, stock, k);
      PartIsEnoughForLines(cat, names, name, crafts, seen, stock, k + 1);
    } else if m in seen {
      var _, drawn, _, _ := UnfoldStopped(cat, name, crafts, seen, stock, k);
      var _, _, _, _ := UnfoldStopped(part, name, crafts, seen, stock, k);
      PartIsEnoughForLines(cat, names, name, crafts, seen, stock - drawn, k + 1);
    } else {
      var _, sub, _ := UnfoldExplored(cat, name, crafts, seen, stock, k);
      var _, _, _ := UnfoldExplored(part, name, crafts, seen, stock, k);
      PartIsEnough(cat, names, m, required, seen + {cat.recipes[name].item}, stock);
      PartIsEnoughForLines(cat, names, name, crafts, seen, sub.stock, k + 1);
    }
  }
}
