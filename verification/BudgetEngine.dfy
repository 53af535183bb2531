/**
 The budget recursion as it runs: one shared stock that is reserved from in place,
 loops that accumulate the status lines, and a private copy of the stock for each tool.
 */
module BudgetEngine {
  import opened Integers
  import opened Options
  import opened Budget
  import opened BudgetPlan

  /** `taken` items, `drawn`, have left `before`; a draw of `left` more from `names` completes
      the draw of `amount` from `family`. */
  ghost predicate Drawing(family: seq<Name>, amount: nat, before: Bag, drawn: Bag, taken: nat, names: seq<Name>,
                          left: nat, now: Bag) {
    && now == before - drawn
    && Draw(family, amount, before) == drawn + Draw(names, left, now)
    && Taken(family, amount, before) == taken + Taken(names, left, now)
  }

  lemma DrawingStarts(family: seq<Name>, amount: nat, before: Bag)
    ensures Drawing(family, amount, before, multiset{}, 0, family, amount, before)
  {
    assert before - multiset{} == before;
    assert multiset{} + Draw(family, amount, before) == Draw(family, amount, before);
  }

  lemma DrawingGoesOn(family: seq<Name>, amount: nat, before: Bag, drawn: Bag, taken: nat, names: seq<Name>, left: nat,
                      now: Bag)
    requires names != [] && Drawing(family, amount, before, drawn, taken, names, left, now)
    ensures var used := Min(left, now[names[0]]);
      Drawing(family, amount, before, drawn + Copies(names[0], used), taken + used,
              names[1..], left - used, now[names[0] := now[names[0]] - used])
  {
    hide Draw, Taken;
    var used := Min(left, now[names[0]]);
    DrawStep(names, left, now);
    assert now[names[0] := now[names[0]] - used] == now - Copies(names[0], used);
    SubtractTwice(before, drawn, Copies(names[0], used));
    AddTwice(drawn, Copies(names[0], used), Draw(names[1..], left - used, now - Copies(names[0], used)));
  }

  lemma AddTwice(a: Bag, b: Bag, c: Bag)
    ensures a + (b + c) == (a + b) + c
  {}

  lemma DrawingEnds(family: seq<Name>, amount: nat, before: Bag, drawn: Bag, taken: nat, names: seq<Name>, left: nat,
                    now: Bag)
    requires names == [] || left == 0
    requires Drawing(family, amount, before, drawn, taken, names, left, now)
    ensures now == before - Draw(family, amount, before) && taken == Taken(family, amount, before)
  {
    assert Draw(names, left, now) == multiset{};
    assert drawn + multiset{} == drawn;
  }

  class Stock {
    var items: Bag

    constructor (items: Bag)
      ensures this.items == items
    {
      this.items := items;
    }

    /** Takes at most `amount` items for `name`, kind after kind, and counts them. */
    method Consume(cat: Catalog, name: Name, amount: int) returns (consumed: nat)
      modifies this
      ensures items == old(items) - Draw(Family(cat, name), Max(amount, 0), old(items))
      ensures consumed == Taken(Family(cat, name), Max(amount, 0), old(items))
    {
      hide Draw, Taken, Drawing;
      var names, remaining: nat := Family(cat, name), Max(amount, 0);
      ghost var drawn: Bag := multiset{};
      consumed := 0;
      DrawingStarts(names, remaining, items);
      assert names[0..] == names;
      var i := 0;
      while i < |names| && remaining > 0
        invariant i <= |names|
        invariant Drawing(names, Max(amount, 0), old(items), drawn, consumed, names[i..], remaining, items)
      {
        DrawingGoesOn(names, Max(amount, 0), old(items), drawn, consumed, names[i..], remaining, items);
        assert names[i..][1..] == names[i + 1..];
        var used := Min(remaining, items[names[i]]);
        drawn := drawn + Copies(names[i], used);
        items := items[names[i] := items[names[i]] - used];
        remaining, consumed, i := remaining - used, consumed + used, i + 1;
      }
      DrawingEnds(names, Max(amount, 0), old(items), drawn, consumed, names[i..], remaining, items);
    }
  }

  /** The recursion reserves from `stock` in place, and leaves there what it did not need. Only what the
      request can come to has to be sound: `names`, and the theorems are about that part of the catalog. */
  method AnalyzeWithInventory(cat: Catalog, name: Name, stock: Stock, desired: int, seen: set<Name>,
                              ghost names: set<Name>)
    returns (b: Budget)
    requires SoundFor(cat, names, name)
    modifies stock
    ensures var a := Analyze(Part(cat, names), name, desired, seen, old(stock.items));
      b == a.budget && stock.items == a.stock
    decreases LevelOf(Part(cat, names), name), Unseen(Part(cat, names), name, seen), 2
  {
    if name in cat.recipes {
      b := AnalyzeCrafted(cat, name, stock, desired, seen, names);
    } else {
      b := AnalyzeMined(cat, name, stock, desired, seen, names);
    }
  }

  lemma PartAgrees(cat: Catalog, names: set<Name>, name: Name)
    requires SoundFor(cat, names, name)
    ensures var part := Part(cat, names);
      && Sound(part) && (forall n :: Family(part, n) == Family(cat, n))
      && (name in part.recipes <==> name in cat.recipes)
      && (name in cat.recipes ==> part.recipes[name] == cat.recipes[name])
      && (name in part.tools <==> name in cat.tools) && (name in cat.tools ==> part.tools[name] == cat.tools[name])
  {}

  lemma StaysWithin(cat: Catalog, names: set<Name>, name: Name)
    requires SoundFor(cat, names, name)
    ensures name !in cat.recipes && name in cat.tools ==> SoundFor(cat, names, cat.tools[name])
    ensures name in cat.recipes ==>
              forall k | 0 <= k < |cat.recipes[name].materials| && cat.recipes[name].materials[k].1 > 0 ::
              SoundFor(cat, names, cat.recipes[name].materials[k].0)
  {}

  /** A name without a recipe: what is not in stock is missing, and the tool that mining
      it takes is budgeted on a copy of the stock. */
  method AnalyzeMined(cat: Catalog, name: Name, stock: Stock, desired: int, ghost seen: set<Name>,
                      ghost names: set<Name>)
    returns (b: Budget)
    requires SoundFor(cat, names, name) && name !in cat.recipes
    modifies stock
    ensures var a := Analyze(Part(cat, names), name, desired, seen, old(stock.items));
      b == a.budget && stock.items == a.stock
    decreases LevelOf(Part(cat, names), name), Unseen(Part(cat, names), name, seen), 1
  {
    hide Draw, Taken, SumCounts, Analyze, AnalyzeLines, Copies, Sound, LevelOf, Unseen, Descends, Direct, ForTools;
    hide Family;
    hide Part, SoundFor;
    ghost var part := Part(cat, names);
    PartAgrees(cat, names, name);
    var total: nat := Max(desired, 1);
    ghost var drawn, taken := LeafNode(part, name, desired, seen, stock.items);
    var owned := SumCounts(Family(cat, name), stock.items);
    var used := stock.Consume(cat, name, total);
    var missing := Max(total - used, 0);
    var base := Copies(name, missing);
    var tool := None;
    if name in cat.tools {
      ToolDescent(part, name);
      StaysWithin(cat, names, name);
      var copy := new Stock(stock.items);
      var budget := AnalyzeWithInventory(cat, cat.tools[name], copy, 1, {}, names);
      tool := Some(budget);
      base := base + budget.baseMissing;
    }
    b := Leaf(name, total, owned, used, missing, used >= total, tool, base);
  }

  /** A name with a recipe: the rest is crafted, and the surplus of the last craft goes back. */
  method AnalyzeCrafted(cat: Catalog, name: Name, stock: Stock, desired: int, seen: set<Name>, ghost names: set<Name>)
    returns (b: Budget)
    requires SoundFor(cat, names, name) && name in cat.recipes
    modifies stock
    ensures var a := Analyze(Part(cat, names), name, desired, seen, old(stock.items));
      b == a.budget && stock.items == a.stock
    decreases LevelOf(Part(cat, names), name), Unseen(Part(cat, names), name, seen), 1
  {
    hide Draw, Taken, SumCounts, Analyze, AnalyzeLines, NothingMissing, Copies, Times, CraftsNeeded;
    hide Sound, LevelOf, Unseen, Descends, Part, SoundFor, Family;
    ghost var part := Part(cat, names);
    PartAgrees(cat, names, name);
    var recipe, total: nat := cat.recipes[name], Max(desired, 1);
    ghost var _, _, needed, produced, below := CraftNode(part, name, desired, seen, stock.items);
    ConcreteFamily(part, name);
    DrawOne(recipe.item, total, stock.items);
    var owned := SumCounts(Family(cat, recipe.item), stock.items);
    var used := stock.Consume(cat, recipe.item, total);
    var missing := Max(total - used, 0);
    var output := Max(recipe.outputCount, 1);
    var crafts := CraftsNeeded(missing, output);
    assert crafts == needed;
    var lines, base := AnalyzeMaterials(cat, name, stock, crafts, seen, names);
    var leftover := Max(Times(output, crafts) - missing, 0);
    PutBack(stock.items, recipe.item, leftover);
    if crafts > 0 && leftover > 0 {
      stock.items := stock.items[recipe.item := stock.items[recipe.item] + leftover];
    }
    b := Craft(recipe.item, total, owned, used, missing, NothingMissing(lines), output, crafts, lines, base);
  }

  lemma ConcreteFamily(cat: Catalog, name: Name)
    requires Sound(cat) && name in cat.recipes
    ensures Family(cat, cat.recipes[name].item) == [cat.recipes[name].item]
  {}

  lemma PutBack(stock: Bag, item: Name, n: nat)
    ensures stock[item := stock[item] + n] == stock + Copies(item, n)
    ensures stock + Copies(item, 0) == stock
  {}

  ghost predicate Progress(full: LineAnalysis, lines: seq<Line>, base: Bag, rest: LineAnalysis) {
    full.lines == lines + rest.lines && full.stock == rest.stock && full.baseMissing == base + rest.baseMissing
  }

  /** The loop over the materials of a recipe. */
  method AnalyzeMaterials(cat: Catalog, name: Name, stock: Stock, crafts: nat, seen: set<Name>, ghost names: set<Name>)
    returns (lines: seq<Line>, base: Bag)
    requires SoundFor(cat, names, name) && name in cat.recipes && name in Part(cat, names).recipes
    modifies stock
    ensures var below := AnalyzeLines(Part(cat, names), name, crafts, seen, old(stock.items), 0);
      lines == below.lines && base == below.baseMissing && stock.items == below.stock
    decreases LevelOf(Part(cat, names), name), Unseen(Part(cat, names), name, seen), 0
  {
    hide Draw, Taken, SumCounts, Analyze, AnalyzeLines, Progress, Times, Cons, Copies;
    hide Sound, LevelOf, Unseen, Descends, Part, SoundFor, Family;
    ghost var part := Part(cat, names);
    PartAgrees(cat, names, name);
    StaysWithin(cat, names, name);
    var recipe := cat.recipes[name];
    ghost var full := AnalyzeLines(part, name, crafts, seen, stock.items, 0);
    lines, base := [], multiset{};
    ProgressStarts(full);
    for k := 0 to |recipe.materials|
      invariant Progress(full, lines, base, AnalyzeLines(part, name, crafts, seen, stock.items, k))
    {
      ghost var before := stock.items;
      var (material, perCraft) := recipe.materials[k];
      var required := Times(perCraft, crafts);
      if required <= 0 {
        UnfoldSkipped(part, name, crafts, seen, before, k);
      } else {
        var owned := SumCounts(Family(cat, material), stock.items);
        if material in seen {
          ghost var l, drawn, gone, rest := UnfoldStopped(part, name, crafts, seen, before, k);
          var used := stock.Consume(cat, material, required);
          var missing := Max(required - used, 0);
          ProgressGrows(full, lines, base, l, drawn + gone, [], gone, rest);
          lines := lines + [Stopped(Status(material, required, owned, used, missing))];
          base := base + Copies(material, missing);
        } else {
          ghost var l, a, rest := UnfoldExplored(part, name, crafts, seen, before, k);
          var sub := AnalyzeWithInventory(cat, material, stock, required, seen + {recipe.item}, names);
          ProgressGrows(full, lines, base, l, a.delivered, a.steps, sub.baseMissing, rest);
          lines := lines + [Explored(Status(material, required, owned, sub.fulfilled, sub.missing), sub)];
          base := base + sub.baseMissing;
        }
      }
    }
    UnfoldEnd(part, name, crafts, seen, stock.items);
    ProgressEnds(full, lines, base, stock.items);
  }

  lemma ProgressStarts(full: LineAnalysis)
    ensures Progress(full, [], multiset{}, full)
  {}

  lemma ProgressEnds(full: LineAnalysis, lines: seq<Line>, base: Bag, stock: Bag)
    requires Progress(full, lines, base, Done(stock))
    ensures full.lines == lines && full.baseMissing == base && full.stock == stock
  {}

  lemma ProgressGrows(full: LineAnalysis, lines: seq<Line>, base: Bag, line: Line, delivered: Bag, steps: seq<Step>,
                      missing: Bag, rest: LineAnalysis)
    requires Progress(full, lines, base, Cons(line, delivered, steps, missing, rest))
    ensures Progress(full, lines + [line], base + missing, rest)
  {
    assert lines + ([line] + rest.lines) == (lines + [line]) + rest.lines;
  }

  /** The entry point: nothing to analyse for an empty name, otherwise a budget drawn up on a
      copy of the caller's inventory. */
  method AnalyzeDependencyBudget(cat: Catalog, target: Option<Name>, inventory: Bag, desired: int,
                                 ghost names: set<Name>)
    returns (b: Option<Budget>)
    requires target.Some? ==> SoundFor(cat, names, target.value)
    ensures b == if target.None? then None
                 else Some(Analyze(Part(cat, names), target.value, desired, {}, inventory).budget)
  {
    if target.None? {
      return None;
    }
    var working := new Stock(inventory);
    var budget := AnalyzeWithInventory(cat, target.value, working, desired, {}, names);
    b := Some(budget);
  }

  /** In a sound catalog every request is, with any closed part that has its name. */
  lemma SoundForAll(cat: Catalog, names: set<Name>, name: Name)
    requires Sound(cat) && name in names && ClosedUnder(cat, names)
    ensures SoundFor(cat, names, name)
  {
    var part := Part(cat, names);
    var levels :| Descends(cat, levels);
    assert Descends(part, levels);
    assert forall n, m | TakesMaterial(part, n, m) :: TakesMaterial(cat, n, m);
    hide Descends, TakesMaterial;
  }
}
