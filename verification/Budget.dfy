/**
 The crafting-dependency budget: what has to be gathered and crafted to obtain
 some items, given a stock that the recursion reserves from as it goes.

 A dictionary from item name to a natural count is a `multiset`: `get(name, 0)` is
 the multiplicity and assigning a count is multiset update.
 */
module Budget {
  import opened Integers
  import opened Options

  /** A name after normalisation: one of the two virtual names that stand for a whole
      family of items ("any_log", "planks"), or the name of one item. */
  datatype Name = AnyLog | Planks | Item(id: string)
  type Bag = multiset<Name>

  datatype Recipe = Recipe(item: Name, materials: seq<(Name, int)>, outputCount: int)

  /** The recipe picked for each name (for one preferred log), the tool each name's
      mining rule asks for, and the items that the two virtual names stand for. */
  datatype Catalog = Catalog(recipes: map<Name, Recipe>, tools: map<Name, Name>, logs: seq<Name>, planks: seq<Name>)

  function Family(cat: Catalog, name: Name): seq<Name> {
    match name
    case AnyLog => cat.logs
    case Planks => cat.planks
    case Item(_) => [name]
  }

  /** An item `x` may be handed over where `name` is asked for. A virtual name also
      stands for itself: one unit of the family that is still to be gathered. */
  predicate Satisfies(cat: Catalog, x: Name, name: Name) {
    x == name || x in Family(cat, name)
  }

  /** A recipe makes an item of the family it is asked for, and a concrete one. */
  predicate Canonical(cat: Catalog) {
    forall n | n in cat.recipes ::
      var item := cat.recipes[n].item;
      item.Item? && item in Family(cat, n)
  }

  type Levels = map<Name, nat>

  function At(levels: Levels, n: Name): nat { if n in levels then levels[n] else 0 }

  ghost predicate TakesMaterial(cat: Catalog, n: Name, m: Name) {
    n in cat.recipes && exists k :: 0 <= k < |cat.recipes[n].materials| && cat.recipes[n].materials[k].1 > 0
                                    && cat.recipes[n].materials[k].0 == m
  }

  ghost predicate TakesTool(cat: Catalog, n: Name, m: Name) {
    n !in cat.recipes && n in cat.tools && cat.tools[n] == m
  }

  /** No virtual name is made from itself, nor the two from each other. */
  ghost predicate AliasesApart(cat: Catalog) {
    && !TakesMaterial(cat, Planks, Planks) && !TakesMaterial(cat, AnyLog, AnyLog)
    && !(TakesMaterial(cat, Planks, AnyLog) && TakesMaterial(cat, AnyLog, Planks))
  }

  /** A level never rises from a name to the materials of its recipe, and falls from a mined item to its tool. */
  ghost predicate Descends(cat: Catalog, levels: Levels) {
    && (forall n, k | n in cat.recipes && 0 <= k < |cat.recipes[n].materials| && cat.recipes[n].materials[k].1 > 0 ::
          At(levels, cat.recipes[n].materials[k].0) <= At(levels, n))
    && (forall n | n in cat.tools && n !in cat.recipes :: At(levels, cat.tools[n]) < At(levels, n))
  }

  ghost predicate Sound(cat: Catalog) {
    Canonical(cat) && AliasesApart(cat) && exists levels :: Descends(cat, levels)
  }

  ghost function LevelOf(cat: Catalog, n: Name): nat
    requires Sound(cat)
  {
    var levels :| Descends(cat, levels); At(levels, n)
  }

  /** The recipes and tools of some names. */
  function Part(cat: Catalog, names: set<Name>): Catalog {
    Catalog(map n | n in cat.recipes && n in names :: cat.recipes[n],
            map n | n in cat.tools && n in names :: cat.tools[n], cat.logs, cat.planks)
  }

  /** With a name come the materials its recipe takes, or its tool. */
  ghost predicate ClosedUnder(cat: Catalog, names: set<Name>) {
    && (forall n, k | n in names && n in cat.recipes && 0 <= k < |cat.recipes[n].materials|
        && cat.recipes[n].materials[k].1 > 0 ::
          cat.recipes[n].materials[k].0 in names)
    && (forall n | n in names && n in cat.tools && n !in cat.recipes :: cat.tools[n] in names)
  }

  /** What a request for the name can come to is sound, whatever the rest of the catalog holds. */
  ghost predicate SoundFor(cat: Catalog, names: set<Name>, name: Name) {
    name in names && ClosedUnder(cat, names) && Sound(Part(cat, names))
  }

  // ---------------------------------------------------------------- stock

  function Copies(x: Name, n: nat): Bag { multiset{}[x := n] }

  function SumCounts(names: seq<Name>, bag: Bag): nat {
    if names == [] then 0 else bag[names[0]] + SumCounts(names[1..], bag)
  }

  ghost predicate AllDifferent(names: seq<Name>) {
    forall i, j | 0 <= i < j < |names| :: names[i] != names[j]
  }

  /** The items of a family that are in stock, each kind counted once. */
  function Available(family: seq<Name>, stock: Bag): nat {
    if family == [] then 0 else stock[family[0]] + Available(family[1..], stock[family[0] := 0])
  }

  /** What `_consume_inventory_item` takes: at most `amount` items, kind after kind. */
  function Draw(family: seq<Name>, amount: nat, stock: Bag): Bag
    decreases |family|
  {
    if family == [] || amount == 0 then multiset{}
    else
      var used := Min(amount, stock[family[0]]);
      Copies(family[0], used) + Draw(family[1..], amount - used, stock - Copies(family[0], used))
  }

  /** How many items that is: the number `_consume_inventory_item` returns. */
  function Taken(family: seq<Name>, amount: nat, stock: Bag): (taken: nat)
    ensures taken <= amount
    decreases |family|
  {
    if family == [] || amount == 0 then 0
    else
      var used := Min(amount, stock[family[0]]);
      used + Taken(family[1..], amount - used, stock - Copies(family[0], used))
  }

  /** The integer ceiling of what is missing over what one craft yields. */
  function CraftsNeeded(missing: nat, output: nat): nat
    requires output > 0
  {
    if missing > 0 then (missing + output - 1) / output else 0
  }

  function Times(count: int, crafts: nat): (total: int)
    ensures count >= 0 ==> total >= 0
    ensures count <= 0 ==> total <= 0
  {
    count * crafts
  }

  /** What some crafts of a recipe call for: its materials in order, each with the amount all
      crafts together take. A material of which nothing is taken is not called for. */
  function Demands(materials: seq<(Name, int)>, crafts: nat): (demands: seq<(Name, nat)>)
    ensures forall i | 0 <= i < |demands| :: demands[i].1 > 0
  {
    if materials == [] then []
    else
      var required := Times(materials[0].1, crafts);
      (if required > 0 then [(materials[0].0, required)] else []) + Demands(materials[1..], crafts)
  }

  // ---------------------------------------------------------------- the budget

  datatype Status = Status(material: Name, required: nat, owned: nat, fulfilled: nat, missing: nat)

  /** One entry of `material_status`, together with its subgoal when it has one. */
  datatype Line = Stopped(status: Status) | Explored(status: Status, subgoal: Budget)

  datatype Budget =
    | Leaf(target: Name, desired: nat, owned: nat, fulfilled: nat, missing: nat,
           canCraftNow: bool, tool: Option<Budget>, baseMissing: Bag)
    | Craft(target: Name, desired: nat, owned: nat, fulfilled: nat, missing: nat,
            canCraftNow: bool, output: nat, crafts: nat, lines: seq<Line>, baseMissing: Bag)

  /** One batch of crafts: the concrete items put in, material by material, and what comes out. */
  datatype Step = Step(inputs: seq<Bag>, product: Bag)

  /** The budget and stock that the source computes, with the items set aside for
      the caller and the crafts to run, which it leaves implicit. */
  datatype Analysis = Analysis(budget: Budget, stock: Bag, delivered: Bag, steps: seq<Step>)
  datatype LineAnalysis =
    LineAnalysis(lines: seq<Line>, stock: Bag, delivered: seq<Bag>, steps: seq<Step>, baseMissing: Bag)

  function LeafBudget(cat: Catalog, name: Name, total: nat, stock: Bag, used: nat, tool: Option<Budget>): Budget
    requires used <= total
  {
    var base := Copies(name, total - used);
    Leaf(name, total, SumCounts(Family(cat, name), stock), used, total - used, used >= total, tool,
         if tool.Some? then base + tool.value.baseMissing else base)
  }

  predicate NothingMissing(lines: seq<Line>) {
    lines == [] || (lines[0].status.missing == 0 && NothingMissing(lines[1..]))
  }

  function CraftBudget(cat: Catalog, recipe: Recipe, total: nat, stock: Bag, used: nat, lines: seq<Line>,
                       baseMissing: Bag): Budget
    requires used <= total
  {
    var output := Max(recipe.outputCount, 1);
    Craft(recipe.item, total, SumCounts(Family(cat, recipe.item), stock), used, total - used,
          NothingMissing(lines),
          output, CraftsNeeded(total - used, output), lines, baseMissing)
  }

  function StoppedLine(cat: Catalog, material: Name, required: nat, stock: Bag, used: nat): Line
    requires used <= required
  {
    Stopped(Status(material, required, SumCounts(Family(cat, material), stock), used, required - used))
  }

  function ExploredLine(cat: Catalog, material: Name, required: nat, stock: Bag, subgoal: Budget): Line {
    Explored(Status(material, required, SumCounts(Family(cat, material), stock),
                    subgoal.fulfilled, subgoal.missing), subgoal)
  }

  function Cons(line: Line, delivered: Bag, steps: seq<Step>, missing: Bag, rest: LineAnalysis): LineAnalysis {
    LineAnalysis([line] + rest.lines, rest.stock, [delivered] + rest.delivered, steps + rest.steps,
                 missing + rest.baseMissing)
  }

  /** Zero for an item; a virtual name that takes the other one ranks above it. */
  ghost function Rank(cat: Catalog, n: Name): nat {
    if n.Item? then 0 else if TakesMaterial(cat, n, Planks) || TakesMaterial(cat, n, AnyLog) then 2 else 1
  }

  /** What is left to explore at one level: the recipes not seen, whether this one has been, and
      the rank of the name. */
  ghost function Unseen(cat: Catalog, name: Name, seen: set<Name>): nat {
    6 * |cat.recipes.Keys - seen| + (if name in seen && name in cat.recipes then 3 else 0) + Rank(cat, name)
  }

  /** Going down to a material that is not stopped lowers the measure of the recursion. */
  lemma Descent(cat: Catalog, name: Name, seen: set<Name>, k: nat)
    requires Sound(cat) && name in cat.recipes && k < |cat.recipes[name].materials|
    requires cat.recipes[name].materials[k].0 !in seen && cat.recipes[name].materials[k].1 > 0
    ensures var m := cat.recipes[name].materials[k].0;
      || LevelOf(cat, m) < LevelOf(cat, name)
      || (LevelOf(cat, m) == LevelOf(cat, name)
          && Unseen(cat, m, seen + {cat.recipes[name].item}) < Unseen(cat, name, seen))
  {
    hide Rank, At, TakesMaterial, AliasesApart, Family;
    var m := cat.recipes[name].materials[k].0;
    TakesItsMaterial(cat, name, k);
    RankFalls(cat, name, m);
    LevelStays(cat, name, k);
    ItsOwnItem(cat, name);
    hide Canonical, Descends, Sound, LevelOf;
    UnseenFalls(cat, name, seen, cat.recipes[name].item, m);
  }

  lemma TakesItsMaterial(cat: Catalog, name: Name, k: nat)
    requires name in cat.recipes && k < |cat.recipes[name].materials| && cat.recipes[name].materials[k].1 > 0
    ensures TakesMaterial(cat, name, cat.recipes[name].materials[k].0)
  {}

  lemma LevelStays(cat: Catalog, name: Name, k: nat)
    requires Sound(cat) && name in cat.recipes && k < |cat.recipes[name].materials|
    requires cat.recipes[name].materials[k].1 > 0
    ensures LevelOf(cat, cat.recipes[name].materials[k].0) <= LevelOf(cat, name)
  {
    hide Canonical, AliasesApart, At;
  }

  lemma ItsOwnItem(cat: Catalog, name: Name)
    requires Canonical(cat) && name in cat.recipes
    ensures name.Item? ==> cat.recipes[name].item == name
  {}

  lemma UnseenFalls(cat: Catalog, name: Name, seen: set<Name>, item: Name, m: Name)
    requires name in cat.recipes && m !in seen && (name.Item? ==> item == name)
    requires Rank(cat, m) <= 2 && (!name.Item? ==> Rank(cat, m) < Rank(cat, name))
    ensures Unseen(cat, m, seen + {item}) < Unseen(cat, name, seen)
  {
    hide Rank;
    if item in seen || item !in cat.recipes {
      assert cat.recipes.Keys - (seen + {item}) == cat.recipes.Keys - seen;
    } else {
      assert cat.recipes.Keys - (seen + {item}) == (cat.recipes.Keys - seen) - {item};
    }
  }

  lemma RankFalls(cat: Catalog, n: Name, m: Name)
    requires AliasesApart(cat) && TakesMaterial(cat, n, m)
    ensures Rank(cat, m) <= 2 && (!n.Item? ==> Rank(cat, m) < Rank(cat, n))
  {
    hide TakesMaterial;
    match n {
      case AnyLog =>
      case Planks =>
      case Item(_) =>
    }
  }

  lemma ToolDescent(cat: Catalog, name: Name)
    requires Sound(cat) && name in cat.tools && name !in cat.recipes
    ensures LevelOf(cat, cat.tools[name]) < LevelOf(cat, name)
  {}

  function Analyze(cat: Catalog, name: Name, desired: int, seen: set<Name>, stock: Bag): Analysis
    requires Sound(cat)
    decreases LevelOf(cat, name), Unseen(cat, name, seen), 1, 0
  {
    var total := Max(desired, 1);
    if name !in cat.recipes then
      var drawn, used := Draw(Family(cat, name), total, stock), Taken(Family(cat, name), total, stock);
      var tool := if name in cat.tools
                  then Some(Analyze(cat, cat.tools[name], 1, {}, stock - drawn).budget) else None;
      Analysis(LeafBudget(cat, name, total, stock, used, tool), stock - drawn,
               drawn + Copies(name, total - used), [])
    else
      var recipe := cat.recipes[name];
      var drawn := Draw(Family(cat, recipe.item), total, stock);
      var used := Taken(Family(cat, recipe.item), total, stock);
      var missing := total - used;
      var output := Max(recipe.outputCount, 1);
      var crafts := CraftsNeeded(missing, output);
      var below := AnalyzeLines(cat, name, crafts, seen, stock - drawn, 0);
      Analysis(CraftBudget(cat, recipe, total, stock, used, below.lines, below.baseMissing),
               below.stock + Copies(recipe.item, Max(Times(output, crafts) - missing, 0)),
               Copies(recipe.item, total),
               if crafts == 0 then below.steps
               else below.steps + [Step(below.delivered, Copies(recipe.item, Times(output, crafts)))])
  }

  function AnalyzeLines(cat: Catalog, name: Name, crafts: nat, seen: set<Name>, stock: Bag, k: nat): LineAnalysis
    requires Sound(cat) && name in cat.recipes && k <= |cat.recipes[name].materials|
    decreases LevelOf(cat, name), Unseen(cat, name, seen), 0, |cat.recipes[name].materials| - k
  {
    var recipe := cat.recipes[name];
    if k == |recipe.materials| then LineAnalysis([], stock, [], [], multiset{})
    else
      var (material, perCraft) := recipe.materials[k];
      var required := Times(perCraft, crafts);
      if required <= 0 then AnalyzeLines(cat, name, crafts, seen, stock, k + 1)
      else if material in seen then
        var drawn, used := Draw(Family(cat, material), required, stock), Taken(Family(cat, material), required, stock);
        var missing := Copies(material, required - used);
        Cons(StoppedLine(cat, material, required, stock, used), drawn + missing, [], missing,
             AnalyzeLines(cat, name, crafts, seen, stock - drawn, k + 1))
      else
        Descent(cat, name, seen, k);
        var sub := Analyze(cat, material, required, seen + {recipe.item}, stock);
        Cons(ExploredLine(cat, material, required, stock, sub.budget), sub.delivered, sub.steps,
             sub.budget.baseMissing,
             AnalyzeLines(cat, name, crafts, seen, sub.stock, k + 1))
  }
}
