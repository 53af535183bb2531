/**
 When a crafting budget is empty: what the stock must hold for nothing to be listed as
 missing, and for a target to be craftable at once.
 */
module BudgetCoverage {
  import opened Integers
  import opened Budget
  import opened BudgetPlan
  import opened BudgetAccount

  // ---------------------------------------------------------------- nothing is missing

  /** The stock covers a request: comparisons of amounts in stock all the way down. A mined item
      must be there in full, and what is left must cover its tool; the rest of a crafted item is
      covered when its materials are, one after the other, on what the ones before leave. */
  ghost predicate Covered(cat: Catalog, name: Name, desired: int, seen: set<Name>, stock: Bag)
    requires Sound(cat)
    decreases LevelOf(cat, name), Unseen(cat, name, seen), 1, 0
  {
    var total := Max(desired, 1);
    if name !in cat.recipes then
      && Available(Family(cat, name), stock) >= total
      && (name in cat.tools ==> Covered(cat, cat.tools[name], 1, {}, stock - Draw(Family(cat, name), total, stock)))
    else
      var recipe := cat.recipes[name];
      var used := Min(total, stock[recipe.item]);
      CoveredMaterials(cat, name, CraftsNeeded(total - used, Max(recipe.outputCount, 1)), seen,
          stock - Copies(recipe.item, used), 0)
  }

  ghost predicate CoveredMaterials(cat: Catalog, name: Name, crafts: nat, seen: set<Name>, stock: Bag, k: nat)
    requires Sound(cat) && name in cat.recipes && k <= |cat.recipes[name].materials|
    decreases LevelOf(cat, name), Unseen(cat, name, seen), 0, |cat.recipes[name].materials| - k
  {
    if k == |cat.recipes[name].materials| then true
    else
      var (m, perCraft) := cat.recipes[name].materials[k];
      var required := Times(perCraft, crafts);
      if required <= 0 then CoveredMaterials(cat, name, crafts, seen, stock, k + 1)
      else if m in seen then
        && Available(Family(cat, m), stock) >= required
        && CoveredMaterials(cat, name, crafts, seen, stock - Draw(Family(cat, m), required, stock), k + 1)
      else
        Descent(cat, name, seen, k);
        var below := seen + {cat.recipes[name].item};
        && Covered(cat, m, required, below, stock)
        && CoveredMaterials(cat, name, crafts, seen, Analyze(cat, m, required, below, stock).stock, k + 1)
  }

  lemma NothingOf(x: Name, n: nat)
    ensures Copies(x, n) == multiset{} <==> n == 0
  {
    assert Copies(x, n)[x] == n;
  }

  lemma MaterialsUnfold(cat: Catalog, name: Name, crafts: nat, seen: set<Name>, stock: Bag, k: nat)
    requires AtMaterial(cat, name, k)
    ensures var m, required := MaterialAt(cat, name, k), RequiredAt(cat, name, crafts, k);
      CoveredMaterials(cat, name, crafts, seen, stock, k) <==>
      if required <= 0 then CoveredMaterials(cat, name, crafts, seen, stock, k + 1)
      else if m in seen then
        && Available(Family(cat, m), stock) >= required
        && CoveredMaterials(cat, name, crafts, seen, stock - Draw(Family(cat, m), required, stock), k + 1)
      else
        && Covered(cat, m, required, seen + {cat.recipes[name].item}, stock)
        && CoveredMaterials(cat, name, crafts, seen,
           Analyze(cat, m, required, seen + {cat.recipes[name].item}, stock).stock, k + 1)
  {
    hide Covered, Analyze, Available, Draw, Times, Sound, LevelOf, Unseen, Descends, Family;
  }

  lemma MaterialsEnd(cat: Catalog, name: Name, crafts: nat, seen: set<Name>, stock: Bag)
    requires Sound(cat) && name in cat.recipes
    ensures CoveredMaterials(cat, name, crafts, seen, stock, |cat.recipes[name].materials|)
  {}

  lemma CraftedUnfold(cat: Catalog, name: Name, desired: int, seen: set<Name>, stock: Bag)
    requires Sound(cat) && name in cat.recipes
    ensures var recipe, total := cat.recipes[name], Max(desired, 1);
      var used := Min(total, stock[recipe.item]);
      var crafts := CraftsNeeded(total - used, Max(recipe.outputCount, 1));
      && (Covered(cat, name, desired, seen, stock) <==>
            CoveredMaterials(cat, name, crafts, seen, stock - Copies(recipe.item, used), 0))
      && Analyze(cat, name, desired, seen, stock).budget.baseMissing
         == AnalyzeLines(cat, name, crafts, seen, stock - Copies(recipe.item, used), 0).baseMissing
  {
    hide CoveredMaterials, AnalyzeLines, SumCounts, NothingMissing, Times, CraftsNeeded, Sound, LevelOf, Unseen;
    hide Descends, Taken, Draw;
    ItsOwnDraw(cat, name, Max(desired, 1), stock);
  }

  lemma MinedUnfold(cat: Catalog, name: Name, desired: int, seen: set<Name>, stock: Bag)
    requires Sound(cat) && name !in cat.recipes
    ensures var total := Max(desired, 1);
      Covered(cat, name, desired, seen, stock) <==>
        && Available(Family(cat, name), stock) >= total
        && (name in cat.tools ==> Covered(cat, cat.tools[name], 1, {}, stock - Draw(Family(cat, name), total, stock)))
  {
    hide Sound, LevelOf, Unseen, Descends, Available, Draw, CoveredMaterials, Family;
  }

  /** Nothing is listed as missing for a mined item exactly when stock holds all of it and
      nothing is missing of its tool on what is left. */
  lemma MinedMissesNothingIff(cat: Catalog, name: Name, desired: int, seen: set<Name>, stock: Bag)
    requires Sound(cat) && name !in cat.recipes
    ensures var total := Max(desired, 1);
      Analyze(cat, name, desired, seen, stock).budget.baseMissing == multiset{} <==>
        && Available(Family(cat, name), stock) >= total
        && (name in cat.tools ==>
              Analyze(cat, cat.tools[name], 1, {}, stock - Draw(Family(cat, name), total, stock)).budget.baseMissing
                  == multiset{})
  {
    hide Analyze, Sound, Draw, Taken, Available, SumCounts, Copies, Family;
    var drawn, used := LeafNode(cat, name, desired, seen, stock);
    TakenIsMin(Family(cat, name), Max(desired, 1), stock);
    var b := Analyze(cat, name, desired, seen, stock).budget;
    NothingOf(name, b.missing);
    EmptySum(Direct(b), ForTools(b));
  }

  /** Nothing is listed as missing exactly when the stock covers the request. */
  lemma {:induction false} MissesNothingIff(cat: Catalog, name: Name, desired: int, seen: set<Name>, stock: Bag)
    requires Sound(cat)
    ensures Analyze(cat, name, desired, seen, stock).budget.baseMissing == multiset{}
            <==> Covered(cat, name, desired, seen, stock)
    decreases LevelOf(cat, name), Unseen(cat, name, seen), 1, 0
  {
    hide Analyze, AnalyzeLines, Covered, CoveredMaterials, Sound, LevelOf, Unseen, Descends, Draw, Available, Family;
    hide Copies, CraftsNeeded;
    if name in cat.recipes {
      var recipe, total := cat.recipes[name], Max(desired, 1);
      var used := Min(total, stock[recipe.item]);
      CraftedUnfold(cat, name, desired, seen, stock);
      MaterialsMissNothingIff(cat, name, CraftsNeeded(total - used, Max(recipe.outputCount, 1)), seen,
          stock - Copies(recipe.item, used), 0);
    } else {
      MinedUnfold(cat, name, desired, seen, stock);
      MinedMissesNothingIff(cat, name, desired, seen, stock);
      if name in cat.tools {
        ToolDescent(cat, name);
        MissesNothingIff(cat, cat.tools[name], 1, {}, stock - Draw(Family(cat, name), Max(desired, 1), stock));
      }
    }
  }

  lemma {:induction false} MaterialsMissNothingIff(cat: Catalog, name: Name, crafts: nat, seen: set<Name>, stock: Bag,
                                                   k: nat)
    requires Sound(cat) && name in cat.recipes && k <= |cat.recipes[name].materials|
    ensures AnalyzeLines(cat, name, crafts, seen, stock, k).baseMissing == multiset{}
            <==> CoveredMaterials(cat, name, crafts, seen, stock, k)
    decreases LevelOf(cat, name), Unseen(cat, name, seen), 0, |cat.recipes[name].materials| - k
  {
    hide Analyze, AnalyzeLines, Covered, CoveredMaterials, Sound, LevelOf, Unseen, Descends, Draw, Available, Family;
    hide Copies, Taken;
    hide StoppedLine, ExploredLine, RequiredAt, MaterialAt, SumCounts;
    if k == |cat.recipes[name].materials| {
      UnfoldEnd(cat, name, crafts, seen, stock);
      MaterialsEnd(cat, name, crafts, seen, stock);
      return;
    }
    var m, required := MaterialAt(cat, name, k), RequiredAt(cat, name, crafts, k);
    MaterialsUnfold(cat, name, crafts, seen, stock, k);
    if required <= 0 {
      UnfoldSkipped(cat, name, crafts, seen, stock, k);
      MaterialsMissNothingIff(cat, name, crafts, seen, stock, k + 1);
    } else if m in seen {
      var line, drawn, missing, rest := UnfoldStopped(cat, name, crafts, seen, stock, k);
      UsedIsMin(cat, m, required, stock);
      StoppedFields(cat, m, required, stock);
      NothingOf(m, line.status.missing);
      EmptySum(missing, rest.baseMissing);
      MaterialsMissNothingIff(cat, name, crafts, seen, stock - drawn, k + 1);
    } else {
      var line, sub, rest := UnfoldExplored(cat, name, crafts, seen, stock, k);
      EmptySum(sub.budget.baseMissing, rest.baseMissing);
      MissesNothingIff(cat, m, required, seen + {cat.recipes[name].item}, stock);
      MaterialsMissNothingIff(cat, name, crafts, seen, sub.stock, k + 1);
    }
  }

  // ---------------------------------------------------------------- craftable at once

  /** What a request for a material takes from stock: the item its recipe makes, unless the
      guard stops it or it has none. */
  function Resolved(cat: Catalog, m: Name, seen: set<Name>): Name {
    if m in seen || m !in cat.recipes then m else cat.recipes[m].item
  }

  /** The stock holds the materials of some crafts, each on what the ones before leave. */
  ghost predicate Holds(cat: Catalog, name: Name, crafts: nat, seen: set<Name>, stock: Bag, k: nat)
    requires name in cat.recipes && k <= |cat.recipes[name].materials|
    decreases |cat.recipes[name].materials| - k
  {
    if k == |cat.recipes[name].materials| then true
    else
      var (m, perCraft) := cat.recipes[name].materials[k];
      var required := Times(perCraft, crafts);
      if required <= 0 then Holds(cat, name, crafts, seen, stock, k + 1)
      else
        var family := Family(cat, Resolved(cat, m, seen));
        Available(family, stock) >= required
            && Holds(cat, name, crafts, seen, stock - Draw(family, required, stock), k + 1)
  }

  lemma HoldsUnfold(cat: Catalog, name: Name, crafts: nat, seen: set<Name>, stock: Bag, k: nat)
    requires AtMaterial(cat, name, k)
    ensures var required, family := RequiredAt(cat, name, crafts, k),
            Family(cat, Resolved(cat, MaterialAt(cat, name, k), seen));
      Holds(cat, name, crafts, seen, stock, k) <==>
      if required <= 0 then Holds(cat, name, crafts, seen, stock, k + 1)
      else
        && Available(family, stock) >= required
        && Holds(cat, name, crafts, seen, stock - Draw(family, required, stock), k + 1)
  {
    hide Available, Draw, Times, Sound, Family, Resolved;
  }

  /** A request that stock meets changes nothing but what it takes. */
  lemma MetFromStock(cat: Catalog, name: Name, desired: nat, seen: set<Name>, stock: Bag)
    requires Sound(cat) && desired > 0
    ensures var a, family := Analyze(cat, name, desired, seen, stock),
            Family(cat, if name in cat.recipes then cat.recipes[name].item else name);
      && (a.budget.missing == 0 <==> Available(family, stock) >= desired)
      && (a.budget.missing == 0 ==> a.stock == stock - Draw(family, desired, stock))
  {
    hide Analyze, AnalyzeLines, Draw, Taken, SumCounts, Available, Sound, Family, NothingMissing, CraftsNeeded, Times;
    hide UsesStock;
    StockComesFirst(cat, name, desired, seen, stock);
    if name in cat.recipes {
      var item := cat.recipes[name].item;
      var total, used, crafts, produced, below := CraftNode(cat, name, desired, seen, stock);
      ItsOwnDraw(cat, name, desired, stock);
      if crafts == 0 {
        NoCraftsNoLines(cat, name, seen, stock - Copies(item, used), 0);
        NothingOf(item, 0);
      }
    } else {
      var drawn, used := LeafNode(cat, name, desired, seen, stock);
    }
  }

  lemma ConsMissing(line: Line, delivered: Bag, steps: seq<Step>, missing: Bag, rest: LineAnalysis)
    ensures NothingMissing(Cons(line, delivered, steps, missing, rest).lines)
            <==> line.status.missing == 0 && NothingMissing(rest.lines)
  {
    assert ([line] + rest.lines)[1..] == rest.lines;
  }

  lemma {:induction false} MaterialsHeldIff(cat: Catalog, name: Name, crafts: nat, seen: set<Name>, stock: Bag, k: nat)
    requires Sound(cat) && name in cat.recipes && k <= |cat.recipes[name].materials|
    ensures NothingMissing(AnalyzeLines(cat, name, crafts, seen, stock, k).lines)
            <==> Holds(cat, name, crafts, seen, stock, k)
    decreases |cat.recipes[name].materials| - k
  {
    hide Analyze, AnalyzeLines, Holds, Sound, Draw, Available, Family, Copies, Taken, LevelOf, Unseen, Descends;
    hide StoppedLine, ExploredLine, RequiredAt, MaterialAt, SumCounts, NothingMissing, Cons;
    if k == |cat.recipes[name].materials| {
      UnfoldEnd(cat, name, crafts, seen, stock);
      HoldsEnd(cat, name, crafts, seen, stock);
      return;
    }
    var m, required := MaterialAt(cat, name, k), RequiredAt(cat, name, crafts, k);
    HoldsUnfold(cat, name, crafts, seen, stock, k);
    if required <= 0 {
      UnfoldSkipped(cat, name, crafts, seen, stock, k);
      MaterialsHeldIff(cat, name, crafts, seen, stock, k + 1);
    } else if m in seen {
      var line, drawn, missing, rest := UnfoldStopped(cat, name, crafts, seen, stock, k);
      UsedIsMin(cat, m, required, stock);
      StoppedFields(cat, m, required, stock);
      ConsMissing(line, drawn + missing, [], missing, rest);
      MaterialsHeldIff(cat, name, crafts, seen, stock - drawn, k + 1);
    } else {
      var line, sub, rest := UnfoldExplored(cat, name, crafts, seen, stock, k);
      ConsMissing(line, sub.delivered, sub.steps, sub.budget.baseMissing, rest);
      MetFromStock(cat, m, required, seen + {cat.recipes[name].item}, stock);
      if sub.budget.missing == 0 {
        MaterialsHeldIff(cat, name, crafts, seen, sub.stock, k + 1);
      }
    }
  }

  lemma HoldsEnd(cat: Catalog, name: Name, crafts: nat, seen: set<Name>, stock: Bag)
    requires name in cat.recipes
    ensures Holds(cat, name, crafts, seen, stock, |cat.recipes[name].materials|) && NothingMissing([])
  {}

  /** A crafted target can be crafted now exactly when the stock left by the target itself holds
      the materials of the crafts for the rest. */
  lemma CanCraftNowIff(cat: Catalog, name: Name, desired: int, seen: set<Name>, stock: Bag)
    requires Sound(cat) && name in cat.recipes
    ensures var recipe, total := cat.recipes[name], Max(desired, 1);
      var used := Min(total, stock[recipe.item]);
      Analyze(cat, name, desired, seen, stock).budget.canCraftNow <==>
      Holds(cat, name, CraftsNeeded(total - used, Max(recipe.outputCount, 1)), seen, stock - Copies(recipe.item, used),
          0)
  {
    hide Analyze, AnalyzeLines, Holds, Sound, CraftsNeeded, Copies, Times, NothingMissing;
    var recipe, total := cat.recipes[name], Max(desired, 1);
    var used := Min(total, stock[recipe.item]);
    CanCraftFlag(cat, name, desired, seen, stock);
    MaterialsHeldIff(cat, name, CraftsNeeded(total - used, Max(recipe.outputCount, 1)), seen,
        stock - Copies(recipe.item, used), 0);
  }

  lemma CanCraftFlag(cat: Catalog, name: Name, desired: int, seen: set<Name>, stock: Bag)
    requires Sound(cat) && name in cat.recipes
    ensures var recipe, total := cat.recipes[name], Max(desired, 1);
      var used := Min(total, stock[recipe.item]);
      var crafts := CraftsNeeded(total - used, Max(recipe.outputCount, 1));
      Analyze(cat, name, desired, seen, stock).budget.canCraftNow
      == NothingMissing(AnalyzeLines(cat, name, crafts, seen, stock - Copies(recipe.item, used), 0).lines)
  {
    hide AnalyzeLines, SumCounts, NothingMissing, Times, CraftsNeeded, Sound, LevelOf, Unseen, Descends, Taken, Draw;
    ItsOwnDraw(cat, name, Max(desired, 1), stock);
  }
}
