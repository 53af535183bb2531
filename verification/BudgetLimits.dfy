/**
 Where the crafting budget stops being what a caller may expect: requests that never return
 because what they need needs them, and targets that can be had at once but still list
 something as missing.
 */
module BudgetLimits {
  import opened Integers
  import opened Options
  import opened Budget
  import opened BudgetPlan
  import opened BudgetAccount
  import opened BudgetCoverage
  import opened BudgetCycles

  // ---------------------------------------------------------------- requests without end

  /** The arguments of one call of the recursion, the stock being the one it finds. */
  datatype Call = Call(name: Name, desired: int, seen: set<Name>, stock: Bag)

  /** To answer `c` the recursion must first answer `d`: about the first material of the recipe,
      or about the tool of an item without one. */
  ghost predicate Needs(cat: Catalog, c: Call, d: Call) {
    var total := Max(c.desired, 1);
    if c.name in cat.recipes then
      && var recipe := cat.recipes[c.name];
      && var family := Family(cat, recipe.item);
      && var missing := total - Taken(family, total, c.stock);
      && |recipe.materials| > 0
      && var (material, perCraft) := recipe.materials[0];
      && var required := Times(perCraft, CraftsNeeded(missing, Max(recipe.outputCount, 1)));
      && required > 0 && material !in c.seen
      && d == Call(material, required, c.seen + {recipe.item}, c.stock - Draw(family, total, c.stock))
    else
      && c.name in cat.tools
      && d == Call(cat.tools[c.name], 1, {}, c.stock - Draw(Family(cat, c.name), total, c.stock))
  }

  /** At least `n` more calls, each needed by the one before. */
  ghost predicate LeadsOn(cat: Catalog, c: Call, n: nat)
    decreases n
  {
    n == 0 || exists d :: Needs(cat, c, d) && LeadsOn(cat, d, n - 1)
  }

  /** However many calls are made there is a further one: the request is never answered. */
  ghost predicate NeverReturns(cat: Catalog, c: Call) {
    forall n: nat :: LeadsOn(cat, c, n)
  }

  lemma OneMore(cat: Catalog, c: Call, d: Call, n: nat)
    requires Needs(cat, c, d) && LeadsOn(cat, d, n)
    ensures LeadsOn(cat, c, n + 1)
  {
    hide Needs;
  }

  lemma TimesIsPositive(count: int, crafts: nat)
    requires count > 0
    ensures Times(count, crafts) > 0 <==> crafts > 0
  {
    if crafts > 0 {
      assert count * crafts >= crafts;
    }
  }

  /** The measure of the recursion as one number. */
  ghost function Budgeted(cat: Catalog, c: Call): nat
    requires Sound(cat)
  {
    Weight(LevelOf(cat, c.name), 6 * |cat.recipes.Keys| + 6) + Unseen(cat, c.name, c.seen)
  }

  /** So many times `step`. */
  function Weight(level: nat, step: nat): nat {
    if level == 0 then 0 else Weight(level - 1, step) + step
  }

  lemma {:induction false} WeightGrows(low: nat, high: nat, step: nat)
    requires low < high
    ensures Weight(low, step) + step <= Weight(high, step)
    decreases high
  {
    if low < high - 1 {
      WeightGrows(low, high - 1, step);
    }
  }

  lemma UnseenIsBounded(cat: Catalog, name: Name, seen: set<Name>)
    ensures Unseen(cat, name, seen) < 6 * |cat.recipes.Keys| + 6
  {
    assert cat.recipes.Keys - seen <= cat.recipes.Keys;
    SizeOfPart(cat.recipes.Keys - seen, cat.recipes.Keys);
  }

  lemma NeedsLess(cat: Catalog, c: Call, d: Call)
    requires Sound(cat) && Needs(cat, c, d)
    ensures Budgeted(cat, d) < Budgeted(cat, c)
  {
    hide Sound, LevelOf, Unseen, Weight, Draw, Taken, CraftsNeeded, Times;
    if c.name in cat.recipes {
      Descent(cat, c.name, c.seen, 0);
    } else {
      ToolDescent(cat, c.name);
    }
    UnseenIsBounded(cat, d.name, d.seen);
    if LevelOf(cat, d.name) < LevelOf(cat, c.name) {
      WeightGrows(LevelOf(cat, d.name), LevelOf(cat, c.name), 6 * |cat.recipes.Keys| + 6);
    }
  }

  lemma {:induction false} SoundLeadsOnFor(cat: Catalog, c: Call, n: nat)
    requires Sound(cat) && LeadsOn(cat, c, n)
    ensures n <= Budgeted(cat, c)
    decreases n
  {
    hide Needs, Budgeted, Sound;
    if n > 0 {
      var d :| Needs(cat, c, d) && LeadsOn(cat, d, n - 1);
      NeedsLess(cat, c, d);
      SoundLeadsOnFor(cat, d, n - 1);
    }
  }

  /** In a sound catalog no request goes on without end, on any stock. */
  lemma SoundRequestsReturn(cat: Catalog, c: Call)
    requires Sound(cat)
    ensures !NeverReturns(cat, c)
  {
    hide LeadsOn, Sound, Budgeted;
    var n := Budgeted(cat, c) + 1;
    if LeadsOn(cat, c, n) {
      SoundLeadsOnFor(cat, c, n);
    }
  }

  // ---------------------------------------------------------------- cycles of any length

  /** A name with the items whose crafting is under way. */
  datatype Spot = Spot(name: Name, seen: set<Name>)

  /** Where a request goes on if stock holds nothing that is crafted: to the first material of the recipe
      unless the guard stops it, or to the tool, with nothing seen. */
  function NextSpot(cat: Catalog, s: Spot): Option<Spot> {
    if s.name in cat.recipes then
      var recipe := cat.recipes[s.name];
      if |recipe.materials| > 0 && recipe.materials[0].1 > 0 && recipe.materials[0].0 !in s.seen then
        Some(Spot(recipe.materials[0].0, s.seen + {recipe.item}))
      else None
    else if s.name in cat.tools then Some(Spot(cat.tools[s.name], {}))
    else None
  }

  function SpotAfter(cat: Catalog, s: Spot, steps: nat): Option<Spot>
    decreases steps
  {
    if steps == 0 then Some(s)
    else if NextSpot(cat, s).None? then None
    else SpotAfter(cat, NextSpot(cat, s).value, steps - 1)
  }

  function SpotOf(c: Call): Spot { Spot(c.name, c.seen) }

  /** The stock holds nothing that any recipe makes. */
  ghost predicate Bare(cat: Catalog, stock: Bag) {
    forall n | n in cat.recipes :: stock[cat.recipes[n].item] == 0
  }

  ghost function Follow(cat: Catalog, c: Call): Call {
    var total := Max(c.desired, 1);
    if c.name in cat.recipes && |cat.recipes[c.name].materials| > 0 then
      var recipe := cat.recipes[c.name];
      Call(recipe.materials[0].0, Times(recipe.materials[0].1, CraftsNeeded(total, Max(recipe.outputCount, 1))),
           c.seen + {recipe.item}, c.stock - Draw(Family(cat, recipe.item), total, c.stock))
    else if c.name in cat.tools then
      Call(cat.tools[c.name], 1, {}, c.stock - Draw(Family(cat, c.name), total, c.stock))
    else c
  }

  lemma BareNeeds(cat: Catalog, c: Call)
    requires Canonical(cat) && Bare(cat, c.stock)
    ensures Bare(cat, Follow(cat, c).stock)
    ensures forall d :: Needs(cat, c, d) <==> NextSpot(cat, SpotOf(c)).Some? && d == Follow(cat, c)
    ensures NextSpot(cat, SpotOf(c)).Some? ==> NextSpot(cat, SpotOf(c)).value == SpotOf(Follow(cat, c))
  {
    if c.name in cat.recipes {
      var recipe, total := cat.recipes[c.name], Max(c.desired, 1);
      DrawOne(recipe.item, total, c.stock);
      CraftsAreEnough(total, Max(recipe.outputCount, 1));
      if |recipe.materials| > 0 && recipe.materials[0].1 > 0 {
        TimesIsPositive(recipe.materials[0].1, CraftsNeeded(total, Max(recipe.outputCount, 1)));
      }
    }
    hide Draw, Taken, Times, CraftsNeeded;
  }

  /** On such a stock a request leads on exactly as far as the walk of first steps goes. */
  lemma {:induction false} LeadsOnIff(cat: Catalog, c: Call, n: nat)
    requires Canonical(cat) && Bare(cat, c.stock)
    ensures LeadsOn(cat, c, n) <==> SpotAfter(cat, SpotOf(c), n).Some?
    decreases n
  {
    hide Needs, NextSpot, Follow, Bare, Canonical, SpotOf;
    if n > 0 {
      BareNeeds(cat, c);
      var d := Follow(cat, c);
      LeadsOnIff(cat, d, n - 1);
      if NextSpot(cat, SpotOf(c)).Some? {
        assert Needs(cat, c, d);
        assert SpotAfter(cat, SpotOf(c), n) == SpotAfter(cat, SpotOf(d), n - 1);
      } else {
        assert forall e :: !Needs(cat, c, e);
      }
    }
  }

  lemma {:induction false} SpotsAdd(cat: Catalog, s: Spot, p: nat, q: nat)
    requires SpotAfter(cat, s, p).Some?
    ensures SpotAfter(cat, s, p + q) == SpotAfter(cat, SpotAfter(cat, s, p).value, q)
    decreases p
  {
    hide NextSpot;
    if p > 0 {
      SpotsAdd(cat, NextSpot(cat, s).value, p - 1, q);
    }
  }

  lemma {:induction false} EarlierSpots(cat: Catalog, s: Spot, p: nat, q: nat)
    requires SpotAfter(cat, s, p).Some? && q <= p
    ensures SpotAfter(cat, s, q).Some?
    decreases q
  {
    hide NextSpot;
    if q > 0 {
      EarlierSpots(cat, NextSpot(cat, s).value, p - 1, q - 1);
    }
  }

  lemma {:induction false} CircleGoesOn(cat: Catalog, s: Spot, length: nat, n: nat)
    requires length > 0 && SpotAfter(cat, s, length) == Some(s)
    ensures SpotAfter(cat, s, n).Some?
    decreases n
  {
    if n <= length {
      EarlierSpots(cat, s, length, n);
    } else {
      CircleGoesOn(cat, s, length, n - length);
      SpotsAdd(cat, s, length, n - length);
    }
  }

  /** A walk of first steps that comes back to a name with the same items seen, after any number of steps
      and over any number of recipes and tools, is a request that is never answered. */
  lemma CircleNeverReturns(cat: Catalog, c: Call, before: nat, length: nat)
    requires Canonical(cat) && Bare(cat, c.stock) && length > 0
    requires var s := SpotAfter(cat, SpotOf(c), before); s.Some? && SpotAfter(cat, s.value, length) == s
    ensures NeverReturns(cat, c) && !Sound(cat)
  {
    hide Canonical, Bare, LeadsOn, SpotAfter, Sound;
    var s := SpotAfter(cat, SpotOf(c), before).value;
    forall n: nat ensures LeadsOn(cat, c, n) {
      CircleGoesOn(cat, s, length, n);
      SpotsAdd(cat, SpotOf(c), before, n);
      EarlierSpots(cat, SpotOf(c), before + n, n);
      LeadsOnIff(cat, c, n);
    }
    if Sound(cat) {
      SoundRequestsReturn(cat, c);
    }
  }

  // ---------------------------------------------------------------- a virtual name made from itself

  /** The recipe picked for a virtual name asks for the same name first, as when planks are
      made from planks. */
  ghost predicate AliasCycle(cat: Catalog, alias: Name) {
    && !alias.Item? && alias in cat.recipes
    && var recipe := cat.recipes[alias];
    && recipe.item.Item? && |recipe.materials| > 0
    && recipe.materials[0].0 == alias && recipe.materials[0].1 > 0
  }

  /** The request that a request for the alias leads to. */
  ghost function NextCall(cat: Catalog, c: Call): Call
    requires AliasCycle(cat, c.name)
  {
    var recipe, total := cat.recipes[c.name], Max(c.desired, 1);
    var missing := total - Min(total, c.stock[recipe.item]);
    Call(c.name, Times(recipe.materials[0].1, CraftsNeeded(missing, Max(recipe.outputCount, 1))),
         c.seen + {recipe.item}, c.stock - Copies(recipe.item, Min(total, c.stock[recipe.item])))
  }

  /** A request for the alias goes on to another one exactly when stock does not cover it. */
  lemma AliasNeedsItselfIff(cat: Catalog, c: Call)
    requires AliasCycle(cat, c.name) && c.name !in c.seen
    ensures Needs(cat, c, NextCall(cat, c)) <==> c.stock[cat.recipes[c.name].item] < Max(c.desired, 1)
    ensures forall d | Needs(cat, c, d) :: d == NextCall(cat, c)
  {
    var recipe, total := cat.recipes[c.name], Max(c.desired, 1);
    DrawOne(recipe.item, total, c.stock);
    var missing := total - Min(total, c.stock[recipe.item]);
    CraftsAreEnough(missing, Max(recipe.outputCount, 1));
    TimesIsPositive(recipe.materials[0].1, CraftsNeeded(missing, Max(recipe.outputCount, 1)));
    hide Draw, Taken, Times, CraftsNeeded, Copies;
  }

  /** Once stock falls short it stays short. */
  lemma NextIsShort(cat: Catalog, c: Call)
    requires AliasCycle(cat, c.name) && c.name !in c.seen
    requires c.stock[cat.recipes[c.name].item] < Max(c.desired, 1)
    ensures var d := NextCall(cat, c);
      d.name == c.name && d.name !in d.seen && d.stock[cat.recipes[d.name].item] < Max(d.desired, 1)
  {
    hide Times, CraftsNeeded;
  }

  lemma {:induction false} AliasLeadsOn(cat: Catalog, c: Call, n: nat)
    requires AliasCycle(cat, c.name) && c.name !in c.seen
    requires c.stock[cat.recipes[c.name].item] < Max(c.desired, 1)
    ensures LeadsOn(cat, c, n)
    decreases n
  {
    hide Needs, AliasCycle, NextCall;
    if n > 0 {
      AliasNeedsItselfIff(cat, c);
      NextIsShort(cat, c);
      AliasLeadsOn(cat, NextCall(cat, c), n - 1);
      OneMore(cat, c, NextCall(cat, c), n - 1);
    }
  }

  /** The cycle guard remembers the item a recipe makes but tests the name a material is asked for
      by. When a virtual name is made from itself the two never meet: a request returns exactly
      when stock covers it, and no level can make such a recipe descend. */
  lemma AliasNeverReturnsIff(cat: Catalog, c: Call)
    requires AliasCycle(cat, c.name) && c.name !in c.seen
    ensures NeverReturns(cat, c) <==> c.stock[cat.recipes[c.name].item] < Max(c.desired, 1)
    ensures !Sound(cat)
  {
    hide Needs, NextCall;
    AliasNeedsItselfIff(cat, c);
    if c.stock[cat.recipes[c.name].item] < Max(c.desired, 1) {
      forall n: nat ensures LeadsOn(cat, c, n) { AliasLeadsOn(cat, c, n); }
    } else {
      assert !LeadsOn(cat, c, 1);
    }
    assert TakesMaterial(cat, c.name, c.name);
    match c.name {
      case AnyLog =>
      case Planks =>
      case Item(_) =>
    }
  }

  // ---------------------------------------------------------------- a tool made from what it mines

  /** An item is mined with a tool whose recipe asks for that item first. */
  ghost predicate ToolCycle(cat: Catalog, ore: Name, tool: Name) {
    && tool.Item? && tool !in Family(cat, ore) && ore != tool
    && ore !in cat.recipes && ore in cat.tools && cat.tools[ore] == tool
    && tool in cat.recipes
    && var recipe := cat.recipes[tool];
    && recipe.item == tool && |recipe.materials| > 0
    && recipe.materials[0].0 == ore && recipe.materials[0].1 > 0
  }

  ghost function ToolCall(cat: Catalog, ore: Name, tool: Name, c: Call): Call {
    Call(tool, 1, {}, c.stock - Draw(Family(cat, ore), Max(c.desired, 1), c.stock))
  }

  ghost function OreCall(cat: Catalog, ore: Name, tool: Name, d: Call): Call
    requires ToolCycle(cat, ore, tool)
  {
    var recipe := cat.recipes[tool];
    Call(ore, Times(recipe.materials[0].1, CraftsNeeded(1, Max(recipe.outputCount, 1))), {tool},
        d.stock - Copies(tool, 0))
  }

  lemma OreNeedsTool(cat: Catalog, ore: Name, tool: Name, c: Call)
    requires ToolCycle(cat, ore, tool) && c.name == ore
    ensures forall d :: Needs(cat, c, d) <==> d == ToolCall(cat, ore, tool, c)
    ensures ToolCall(cat, ore, tool, c).stock[tool] == c.stock[tool]
  {
    DrawStaysInFamily(Family(cat, ore), Max(c.desired, 1), c.stock);
    hide Draw, Taken, Family;
    assert tool !in Draw(Family(cat, ore), Max(c.desired, 1), c.stock);
  }

  lemma ToolNeedsOreIff(cat: Catalog, ore: Name, tool: Name, d: Call)
    requires ToolCycle(cat, ore, tool) && d == Call(tool, 1, {}, d.stock)
    ensures Needs(cat, d, OreCall(cat, ore, tool, d)) <==> d.stock[tool] == 0
    ensures forall e | Needs(cat, d, e) :: d.stock[tool] == 0
    ensures OreCall(cat, ore, tool, d).stock[tool] == d.stock[tool]
  {
    var recipe := cat.recipes[tool];
    DrawOne(tool, 1, d.stock);
    CraftsAreEnough(1, Max(recipe.outputCount, 1));
    CraftsAreEnough(0, Max(recipe.outputCount, 1));
    TimesIsPositive(recipe.materials[0].1, CraftsNeeded(1, Max(recipe.outputCount, 1)));
    TimesIsPositive(recipe.materials[0].1, CraftsNeeded(0, Max(recipe.outputCount, 1)));
    assert {} + {tool} == {tool};
    hide Draw, Taken, Times, CraftsNeeded;
  }

  lemma {:induction false} ToolCycleLeadsOn(cat: Catalog, ore: Name, tool: Name, c: Call, n: nat)
    requires ToolCycle(cat, ore, tool) && c.name == ore && c.stock[tool] == 0
    ensures LeadsOn(cat, c, n)
    decreases n
  {
    hide Needs, ToolCycle;
    if n > 0 {
      var d := ToolCall(cat, ore, tool, c);
      OreNeedsTool(cat, ore, tool, c);
      if n > 1 {
        var e := OreCall(cat, ore, tool, d);
        ToolNeedsOreIff(cat, ore, tool, d);
        ToolCycleLeadsOn(cat, ore, tool, e, n - 2);
        OneMore(cat, d, e, n - 2);
      }
      OneMore(cat, c, d, n - 1);
    }
  }

  /** The budget of a tool starts with nothing seen and asks for the tool again wherever its own
      material is mined with it, even if that is in stock: a request for the material returns
      exactly when the tool is in stock. */
  lemma ToolCycleNeverReturnsIff(cat: Catalog, ore: Name, tool: Name, c: Call)
    requires ToolCycle(cat, ore, tool) && c.name == ore
    ensures NeverReturns(cat, c) <==> c.stock[tool] == 0
    ensures !Sound(cat)
  {
    hide Needs, ToolCall, OreCall;
    var d := ToolCall(cat, ore, tool, c);
    OreNeedsTool(cat, ore, tool, c);
    if c.stock[tool] == 0 {
      forall n: nat ensures LeadsOn(cat, c, n) { ToolCycleLeadsOn(cat, ore, tool, c, n); }
    } else {
      ToolIsInStock(cat, ore, tool, c);
      assert !LeadsOn(cat, c, 2);
    }
    forall levels ensures !Descends(cat, levels) {
      assert cat.recipes[tool].materials[0].0 == ore;
    }
  }

  lemma ToolIsInStock(cat: Catalog, ore: Name, tool: Name, c: Call)
    requires ToolCycle(cat, ore, tool) && c.name == ore && c.stock[tool] > 0
    ensures !LeadsOn(cat, c, 2)
  {
    hide Needs, ToolCycle;
    var d := ToolCall(cat, ore, tool, c);
    OreNeedsTool(cat, ore, tool, c);
    ToolNeedsOreIff(cat, ore, tool, d);
    assert !LeadsOn(cat, d, 1);
  }

  // ---------------------------------------------------------------- had at once, yet missing something

  /** An item that is fully in stock lists the missing parts of its tool all the same. */
  lemma StockedItemStillMissesItsTool(ore: Name, pick: Name)
    requires ore.Item? && pick.Item? && ore != pick
    ensures var cat := Catalog(map[], map[ore := pick], [], []);
      && Sound(cat)
      && var b := Analyze(cat, ore, 1, {}, Copies(ore, 1)).budget;
      && b.missing == 0 && b.canCraftNow && b.baseMissing == Copies(pick, 1)
  {
    var cat := Catalog(map[], map[ore := pick], [], []);
    assert Descends(cat, map[ore := 1]);
    hide Analyze, Copies;
    MinedFromStock(cat, ore, pick, 1, {});
  }

  /** So does an item that can be crafted now because its mined material is in stock. */
  lemma CraftableItemStillMissesATool(item: Name, ore: Name, pick: Name, n: nat)
    requires item.Item? && ore.Item? && pick.Item? && item != ore && ore != pick && pick != item && n > 0
    ensures var cat := Catalog(map[item := Recipe(item, [(ore, n)], 1)], map[ore := pick], [], []);
      && Sound(cat)
      && var b := Analyze(cat, item, 1, {}, Copies(ore, n)).budget;
      && b.canCraftNow && b.baseMissing == Copies(pick, 1)
  {
    hide Analyze, AnalyzeLines, SumCounts, Times, CraftsNeeded, NothingMissing;
    var cat := Catalog(map[item := Recipe(item, [(ore, n)], 1)], map[ore := pick], [], []);
    assert Descends(cat, map[item := 1, ore := 1]);
    var total, used, crafts, produced, below := CraftNode(cat, item, 1, {}, Copies(ore, n));
    CraftsAreEnough(1, 1);
    OneCraft(produced, crafts, n);
    assert Copies(ore, n) - Copies(item, 0) == Copies(ore, n);
    MaterialInStock(cat, item, ore, pick, n);
  }

  lemma OneCraft(produced: nat, crafts: nat, n: nat)
    requires produced == Times(1, crafts) && produced == 1
    ensures crafts == 1 && Times(n, crafts) == n
  {}

  lemma MinedFromStock(cat: Catalog, ore: Name, pick: Name, n: nat, seen: set<Name>)
    requires Sound(cat) && ore.Item? && pick.Item? && ore != pick && n > 0
    requires ore !in cat.recipes && pick !in cat.recipes && ore in cat.tools && cat.tools[ore] == pick
             && pick !in cat.tools
    ensures var b := Analyze(cat, ore, n, seen, Copies(ore, n)).budget;
      b.missing == 0 && b.canCraftNow && b.baseMissing == Copies(pick, 1)
  {
    hide Analyze, Sound, Draw, Taken, SumCounts, LevelOf, Unseen, Descends;
    var drawn, taken := LeafNode(cat, ore, n, seen, Copies(ore, n));
    DrawOne(ore, n, Copies(ore, n));
    var left := Copies(ore, n) - drawn;
    var drawn', taken' := LeafNode(cat, pick, 1, {}, left);
    DrawOne(pick, 1, left);
    assert Copies(ore, 0) == multiset{};
  }

  lemma MaterialInStock(cat: Catalog, item: Name, ore: Name, pick: Name, n: nat)
    requires item.Item? && ore.Item? && pick.Item? && item != ore && ore != pick && pick != item && n > 0
    requires cat == Catalog(map[item := Recipe(item, [(ore, n)], 1)], map[ore := pick], [], []) && Sound(cat)
    ensures var below := AnalyzeLines(cat, item, 1, {}, Copies(ore, n), 0);
      NothingMissing(below.lines) && below.baseMissing == Copies(pick, 1)
  {
    hide Analyze, AnalyzeLines, Sound, LevelOf, Unseen, Descends, Copies, SumCounts, Times, NothingMissing, Cons;
    TimesOne(n);
    assert AtMaterial(cat, item, 0);
    var line, sub, rest := UnfoldExplored(cat, item, 1, {}, Copies(ore, n), 0);
    UnfoldEnd(cat, item, 1, {}, sub.stock);
    MinedFromStock(cat, ore, pick, n, {} + {item});
    ConsMissing(line, sub.delivered, sub.steps, sub.budget.baseMissing, rest);
    ConsBase(line, sub.delivered, sub.steps, sub.budget.baseMissing, rest);
    HoldsEnd(cat, item, 1, {}, sub.stock);
  }

  lemma TimesOne(n: nat)
    ensures Times(n, 1) == n
  {}

  lemma ConsBase(line: Line, delivered: Bag, steps: seq<Step>, missing: Bag, rest: LineAnalysis)
    ensures Cons(line, delivered, steps, missing, rest).baseMissing == missing + rest.baseMissing
    ensures rest.baseMissing == multiset{} ==> missing + rest.baseMissing == missing
  {}

  // ---------------------------------------------------------------- the classes of the balance

  ghost predicate Families(cat: Catalog) {
    && AllDifferent(cat.logs) && AllDifferent(cat.planks)
    && (forall x | x in cat.logs :: x.Item? && x !in cat.planks)
    && (forall x | x in cat.planks :: x.Item?)
  }

  /** With families of distinct items that do not overlap, the logs, the planks and every
      other single item are classes, so the balance holds for each of them. */
  lemma FamiliesAreClasses(cat: Catalog, x: Name)
    requires Families(cat) && x.Item? && x !in cat.logs && x !in cat.planks
    ensures Class(cat, [AnyLog] + cat.logs) && Class(cat, [Planks] + cat.planks) && Class(cat, [x])
  {
    FamilyIsClass(cat, AnyLog);
    FamilyIsClass(cat, Planks);
    forall y, m | Satisfies(cat, y, m) ensures y in [x] <==> m in [x] {
      match m
      case AnyLog =>
      case Planks =>
      case Item(_) =>
    }
  }

  lemma FamilyIsClass(cat: Catalog, name: Name)
    requires Families(cat) && !name.Item?
    ensures Class(cat, [name] + Family(cat, name))
  {
    var members := [name] + Family(cat, name);
    forall x ensures x in members <==> x == name || x in Family(cat, name) {
      if i :| 0 <= i < |Family(cat, name)| && Family(cat, name)[i] == x {
        assert members[i + 1] == x;
      }
    }
    forall i, j | 0 <= i < j < |members| ensures members[i] != members[j] {
      assert members[j] == Family(cat, name)[j - 1];
    }
    forall x, m | Satisfies(cat, x, m) ensures x in members <==> m in members {
      match m
      case AnyLog =>
      case Planks =>
      case Item(_) =>
    }
  }
}
