/**
 What the crafting budget promises: its subgoal tree is a plan that can be carried
 out on the stock plus the missing materials, and every item is accounted for.
 */
module BudgetPlan {
  import opened Integers
  import opened Options
  import opened Budget

  // ---------------------------------------------------------------- reading the tree

  /** The materials missing for the crafts themselves, read off the tree. */
  function Direct(b: Budget): Bag
    decreases b, 0
  {
    match b
    case Leaf(target, _, _, _, missing, _, _, _) => Copies(target, missing)
    case Craft(_, _, _, _, _, _, _, _, lines, _) => DirectLines(lines)
  }

  function DirectLine(line: Line): Bag
    decreases line, 0
  {
    match line
    case Stopped(status) => Copies(status.material, status.missing)
    case Explored(_, subgoal) => Direct(subgoal)
  }

  function DirectLines(lines: seq<Line>): Bag
    decreases lines, 1
  {
    if lines == [] then multiset{} else DirectLine(lines[0]) + DirectLines(lines[1..])
  }

  /** The materials missing for the tools that the leaves are mined with. */
  function ForTools(b: Budget): Bag
    decreases b, 0
  {
    match b
    case Leaf(_, _, _, _, _, _, tool, _) => if tool.Some? then tool.value.baseMissing else multiset{}
    case Craft(_, _, _, _, _, _, _, _, lines, _) => ForToolsLines(lines)
  }

  function ForToolsLine(line: Line): Bag
    decreases line, 0
  {
    if line.Explored? then ForTools(line.subgoal) else multiset{}
  }

  function ForToolsLines(lines: seq<Line>): Bag
    decreases lines, 1
  {
    if lines == [] then multiset{} else ForToolsLine(lines[0]) + ForToolsLines(lines[1..])
  }

  /** So many crafts of the recipe picked for a name. */
  datatype Job = Job(name: Name, crafts: nat)

  /** The crafts a budget for `name` calls for, subgoals before the node that uses them. */
  function PostOrder(name: Name, b: Budget): seq<Job>
    decreases b, 0
  {
    match b
    case Leaf(_, _, _, _, _, _, _, _) => []
    case Craft(_, _, _, _, _, _, _, crafts, lines, _) =>
      PostOrderLines(lines) + if crafts > 0 then [Job(name, crafts)] else []
  }

  function PostOrderLine(line: Line): seq<Job>
    decreases line, 0
  {
    if line.Explored? then PostOrder(line.status.material, line.subgoal) else []
  }

  function PostOrderLines(lines: seq<Line>): seq<Job>
    decreases lines, 1
  {
    if lines == [] then [] else PostOrderLine(lines[0]) + PostOrderLines(lines[1..])
  }

  // ---------------------------------------------------------------- running a plan

  function Sum(bags: seq<Bag>): Bag {
    if bags == [] then multiset{} else bags[0] + Sum(bags[1..])
  }

  /** Carries out steps in order; None if a step asks for items that are not there. */
  function Run(state: Bag, steps: seq<Step>): Option<Bag>
    decreases |steps|
  {
    if steps == [] then Some(state)
    else if Sum(steps[0].inputs) <= state then
      Run(state - Sum(steps[0].inputs) + steps[0].product, steps[1..])
    else None
  }

  /** The same for the count of one item. */
  function RunAt(x: Name, count: nat, steps: seq<Step>): Option<nat>
    decreases |steps|
  {
    if steps == [] then Some(count)
    else if Sum(steps[0].inputs)[x] <= count then
      RunAt(x, count - Sum(steps[0].inputs)[x] + steps[0].product[x], steps[1..])
    else None
  }

  lemma {:induction false} RunItemByItem(state: Bag, steps: seq<Step>, end: Bag)
    requires forall x :: RunAt(x, state[x], steps) == Some(end[x])
    ensures Run(state, steps) == Some(end)
    decreases |steps|
  {
    if steps == [] {
      assert forall x :: RunAt(x, state[x], steps) == Some(state[x]);
      assert state == end;
    } else {
      var used, made := Sum(steps[0].inputs), steps[0].product;
      assert forall x :: RunAt(x, state[x], steps) == Some(end[x]) ==> used[x] <= state[x];
      assert used <= state;
      var next := state - used + made;
      forall x ensures RunAt(x, next[x], steps[1..]) == Some(end[x]) {
        assert RunAt(x, state[x], steps) == Some(end[x]);
        assert next[x] == state[x] - used[x] + made[x];
      }
      RunItemByItem(next, steps[1..], end);
    }
  }

  /** `bag` is exactly `n` items, each of which may stand for `name`. */
  ghost predicate Supplies(cat: Catalog, bag: Bag, name: Name, n: nat) {
    |bag| == n && forall x | x in bag :: Satisfies(cat, x, name)
  }

  ghost predicate Supplied(cat: Catalog, bags: seq<Bag>, demands: seq<(Name, nat)>) {
    && |bags| == |demands|
    && forall i | 0 <= i < |demands| :: Supplies(cat, bags[i], demands[i].0, demands[i].1)
  }

  /** A step is that many crafts of the recipe in the catalog: fitting items for each of its
      materials go in, and what its output count promises comes out. */
  ghost predicate Performs(cat: Catalog, step: Step, job: Job) {
    && job.name in cat.recipes
    && var recipe := cat.recipes[job.name];
    && Supplied(cat, step.inputs, Demands(recipe.materials, job.crafts))
    && step.product == Copies(recipe.item, Times(Max(recipe.outputCount, 1), job.crafts))
  }

  ghost predicate PerformsAll(cat: Catalog, steps: seq<Step>, jobs: seq<Job>) {
    |steps| == |jobs| && forall i | 0 <= i < |jobs| :: Performs(cat, steps[i], jobs[i])
  }

  lemma {:induction false} RunAtAppend(x: Name, count: nat, first: seq<Step>, second: seq<Step>)
    requires RunAt(x, count, first).Some?
    ensures RunAt(x, count, first + second) == RunAt(x, RunAt(x, count, first).value, second)
    decreases |first|
  {
    if first == [] {
      assert first + second == second;
    } else {
      assert (first + second)[1..] == first[1..] + second;
      RunAtAppend(x, count - Sum(first[0].inputs)[x] + first[0].product[x], first[1..], second);
    }
  }

  // ---------------------------------------------------------------- drawing from stock

  lemma {:induction false} DrawStaysInFamily(family: seq<Name>, amount: nat, stock: Bag)
    ensures forall x | x in Draw(family, amount, stock) :: x in family
    decreases |family|
  {
    if family != [] && amount > 0 {
      var used := Min(amount, stock[family[0]]);
      DrawStaysInFamily(family[1..], amount - used, stock - Copies(family[0], used));
    }
  }

  lemma {:induction false} DrawSize(family: seq<Name>, amount: nat, stock: Bag)
    ensures |Draw(family, amount, stock)| == Taken(family, amount, stock)
    decreases |family|
  {
    if family != [] && amount > 0 {
      var used := Min(amount, stock[family[0]]);
      DrawSize(family[1..], amount - used, stock - Copies(family[0], used));
    }
  }

  /** A draw gets all it asks for or all there is. */
  lemma {:induction false} TakenIsMin(family: seq<Name>, amount: nat, stock: Bag)
    ensures Taken(family, amount, stock) == Min(amount, Available(family, stock))
    decreases |family|
  {
    if family != [] && amount > 0 {
      var used := Min(amount, stock[family[0]]);
      TakenIsMin(family[1..], amount - used, stock - Copies(family[0], used));
      if used == stock[family[0]] {
        assert stock - Copies(family[0], used) == stock[family[0] := 0];
      }
    }
  }

  lemma {:induction false} SumCountsWithout(names: seq<Name>, x: Name, stock: Bag)
    requires x !in names
    ensures SumCounts(names, stock[x := 0]) == SumCounts(names, stock)
    decreases |names|
  {
    if names != [] { SumCountsWithout(names[1..], x, stock); }
  }

  /** For a family of distinct items that is the number `_inventory_count_for_target` answers. */
  lemma {:induction false} AvailableIsOwned(family: seq<Name>, stock: Bag)
    requires AllDifferent(family)
    ensures Available(family, stock) == SumCounts(family, stock)
    decreases |family|
  {
    if family != [] {
      AvailableIsOwned(family[1..], stock[family[0] := 0]);
      SumCountsWithout(family[1..], family[0], stock);
    }
  }

  /** A draw stops short only when the whole family is used up. */
  lemma {:induction false} DrawExhausts(family: seq<Name>, amount: nat, stock: Bag, x: Name)
    requires Taken(family, amount, stock) < amount && x in family
    ensures Draw(family, amount, stock)[x] == stock[x]
    decreases |family|
  {
    var used := Min(amount, stock[family[0]]);
    var left := stock - Copies(family[0], used);
    if x in family[1..] {
      DrawExhausts(family[1..], amount - used, left, x);
    } else {
      DrawStaysInFamily(family[1..], amount - used, left);
    }
  }

  /** A draw serves the first kinds in full before it turns to the others: only what
      they could not supply is drawn from the rest. */
  lemma {:induction false} DrawInOrder(x: Name, first: seq<Name>, rest: seq<Name>, amount: nat, stock: Bag)
    ensures var drawn, taken := Draw(first, amount, stock), Taken(first, amount, stock);
      && Draw(first + rest, amount, stock)[x] == drawn[x] + Draw(rest, amount - taken, stock - drawn)[x]
      && Taken(first + rest, amount, stock) == taken + Taken(rest, amount - taken, stock - drawn)
    decreases |first|
  {
    DrawNone(amount, stock);
    hide Draw, Taken, Copies;
    if first == [] {
      assert first + rest == rest;
    } else {
      var used := Min(amount, stock[first[0]]);
      var kept := Copies(first[0], used);
      DrawStep(first, amount, stock);
      DrawStep(first + rest, amount, stock);
      assert (first + rest)[1..] == first[1..] + rest;
      DrawInOrder(x, first[1..], rest, amount - used, stock - kept);
      SubtractTwice(stock, kept, Draw(first[1..], amount - used, stock - kept));
    }
  }

  lemma DrawNone(amount: nat, stock: Bag)
    ensures Draw([], amount, stock) == multiset{} && Taken([], amount, stock) == 0 && stock - multiset{} == stock
  {}

  lemma SubtractTwice(a: Bag, b: Bag, c: Bag)
    ensures a - b - c == a - (b + c)
  {}

  lemma DrawStep(family: seq<Name>, amount: nat, stock: Bag)
    requires family != []
    ensures var used := Min(amount, stock[family[0]]);
      var kept := Copies(family[0], used);
      && Draw(family, amount, stock) == kept + Draw(family[1..], amount - used, stock - kept)
      && Taken(family, amount, stock) == used + Taken(family[1..], amount - used, stock - kept)
  {}

  lemma {:induction false} DrawFits(family: seq<Name>, amount: nat, stock: Bag)
    ensures Draw(family, amount, stock) <= stock
    decreases |family|
  {
    if family != [] && amount > 0 {
      var used := Min(amount, stock[family[0]]);
      DrawFits(family[1..], amount - used, stock - Copies(family[0], used));
    }
  }

  lemma DrawOne(x: Name, amount: nat, stock: Bag)
    ensures Taken([x], amount, stock) == Min(amount, stock[x])
    ensures Draw([x], amount, stock) == Copies(x, Min(amount, stock[x]))
  {
    assert [x][1..] == [];
  }

  /** The crafts make at least what is missing, and one craft fewer would not do. */
  lemma CraftsAreEnough(missing: nat, output: nat)
    requires output > 0
    ensures missing <= Times(output, CraftsNeeded(missing, output)) < missing + output
    ensures CraftsNeeded(missing, output) == 0 <==> missing == 0
    ensures Times(output, 0) == 0
  {
    if missing > 0 {
      var n := missing + output - 1;
      assert n == output * (n / output) + n % output;
      assert n / output > 0;
    }
  }

  lemma {:induction false} NoCraftsNoLines(cat: Catalog, name: Name, seen: set<Name>, stock: Bag, k: nat)
    requires Sound(cat) && name in cat.recipes && k <= |cat.recipes[name].materials|
    ensures AnalyzeLines(cat, name, 0, seen, stock, k) == LineAnalysis([], stock, [], [], multiset{})
    decreases |cat.recipes[name].materials| - k
  {
    if k < |cat.recipes[name].materials| {
      NoCraftsNoLines(cat, name, seen, stock, k + 1);
    }
  }

  /** What one node with a recipe does: it takes what is in stock, analyses its materials
      for the crafts that the rest needs, and puts the surplus of those crafts back. */
  lemma CraftNode(cat: Catalog, name: Name, desired: int, seen: set<Name>, stock: Bag)
    returns (total: nat, used: nat, crafts: nat, produced: nat, below: LineAnalysis)
    requires Sound(cat) && name in cat.recipes
    ensures total == Max(desired, 1) && used == Min(total, stock[cat.recipes[name].item])
    ensures produced == Times(Max(cat.recipes[name].outputCount, 1), crafts)
    ensures used <= total <= used + produced < total + Max(cat.recipes[name].outputCount, 1)
    ensures crafts == 0 <==> used == total
    ensures crafts == 0 ==> produced == 0
    ensures below == AnalyzeLines(cat, name, crafts, seen, stock - Copies(cat.recipes[name].item, used), 0)
    ensures var a, item := Analyze(cat, name, desired, seen, stock), cat.recipes[name].item;
      && a.budget == CraftBudget(cat, cat.recipes[name], total, stock, used, below.lines, below.baseMissing)
      && a.budget.crafts == crafts
      && a.stock == below.stock + Copies(item, used + produced - total)
      && a.delivered == Copies(item, total)
      && a.steps == if crafts == 0 then below.steps else below.steps + [Step(below.delivered, Copies(item, produced))]
  {
    hide Draw, Taken, SumCounts, AnalyzeLines, NothingMissing, Times, CraftsNeeded;
    var recipe := cat.recipes[name];
    var item, output := recipe.item, Max(recipe.outputCount, 1);
    total := Max(desired, 1);
    DrawOne(item, total, stock);
    used := Min(total, stock[item]);
    crafts := CraftsNeeded(total - used, output);
    produced := Times(output, crafts);
    CraftsAreEnough(total - used, output);
    below := AnalyzeLines(cat, name, crafts, seen, stock - Copies(item, used), 0);
  }

  lemma LeafNode(cat: Catalog, name: Name, desired: int, seen: set<Name>, stock: Bag) returns (drawn: Bag, used: nat)
    requires Sound(cat) && name !in cat.recipes
    ensures drawn == Draw(Family(cat, name), Max(desired, 1), stock)
    ensures used == Taken(Family(cat, name), Max(desired, 1), stock)
    ensures drawn <= stock
    ensures var a := Analyze(cat, name, desired, seen, stock);
      && a.budget.Leaf? && a.budget.target == name
      && a.budget.desired == Max(desired, 1) && a.budget.missing == Max(desired, 1) - used
      && a.stock == stock - drawn && a.delivered == drawn + Direct(a.budget) && a.steps == []
      && a.budget.baseMissing == Direct(a.budget) + ForTools(a.budget)
      && a.budget == LeafBudget(cat, name, Max(desired, 1), stock, used,
           if name in cat.tools then Some(Analyze(cat, cat.tools[name], 1, {}, stock - drawn).budget) else None)
  {
    hide Draw, Taken, SumCounts;
    DrawFits(Family(cat, name), Max(desired, 1), stock);
    drawn, used := Draw(Family(cat, name), Max(desired, 1), stock), Taken(Family(cat, name), Max(desired, 1), stock);
  }

  ghost predicate AtMaterial(cat: Catalog, name: Name, k: nat) {
    Sound(cat) && name in cat.recipes && k < |cat.recipes[name].materials|
  }

  ghost function MaterialAt(cat: Catalog, name: Name, k: nat): Name
    requires AtMaterial(cat, name, k)
  {
    cat.recipes[name].materials[k].0
  }

  ghost function RequiredAt(cat: Catalog, name: Name, crafts: nat, k: nat): int
    requires AtMaterial(cat, name, k)
  {
    Times(cat.recipes[name].materials[k].1, crafts)
  }

  function Done(stock: Bag): LineAnalysis { LineAnalysis([], stock, [], [], multiset{}) }

  lemma UnfoldEnd(cat: Catalog, name: Name, crafts: nat, seen: set<Name>, stock: Bag)
    requires Sound(cat) && name in cat.recipes
    ensures AnalyzeLines(cat, name, crafts, seen, stock, |cat.recipes[name].materials|) == Done(stock)
  {}

  /** A material that the crafts do not need is passed over. */
  lemma UnfoldSkipped(cat: Catalog, name: Name, crafts: nat, seen: set<Name>, stock: Bag, k: nat)
    requires AtMaterial(cat, name, k) && RequiredAt(cat, name, crafts, k) <= 0
    ensures AnalyzeLines(cat, name, crafts, seen, stock, k) == AnalyzeLines(cat, name, crafts, seen, stock, k + 1)
  {
    hide Times;
  }

  /** A material whose crafting is under way is drawn from stock, and the rest of it is missing. */
  lemma UnfoldStopped(cat: Catalog, name: Name, crafts: nat, seen: set<Name>, stock: Bag, k: nat)
    returns (line: Line, drawn: Bag, missing: Bag, rest: LineAnalysis)
    requires AtMaterial(cat, name, k) && RequiredAt(cat, name, crafts, k) > 0 && MaterialAt(cat, name, k) in seen
    ensures var m, required := MaterialAt(cat, name, k), RequiredAt(cat, name, crafts, k);
      && line == StoppedLine(cat, m, required, stock, Taken(Family(cat, m), required, stock)) && line.Stopped?
      && line.status.material == m && line.status.required == required
      && line.status.required == line.status.fulfilled + line.status.missing
      && drawn == Draw(Family(cat, m), required, stock)
    ensures missing == Copies(line.status.material, line.status.missing)
    ensures rest == AnalyzeLines(cat, name, crafts, seen, stock - drawn, k + 1)
    ensures AnalyzeLines(cat, name, crafts, seen, stock, k) == Cons(line, drawn + missing, [], missing, rest)
  {
    hide Draw, Taken, SumCounts, Analyze, Cons, Copies, Times;
    var m, required := MaterialAt(cat, name, k), RequiredAt(cat, name, crafts, k);
    var used := Taken(Family(cat, m), required, stock);
    line, drawn, missing := StoppedLine(cat, m, required, stock, used), Draw(Family(cat, m), required, stock),
        Copies(m, required - used);
    rest := AnalyzeLines(cat, name, crafts, seen, stock - drawn, k + 1);
  }

  /** Any other material gets a budget of its own, with the item being crafted marked as seen. */
  lemma UnfoldExplored(cat: Catalog, name: Name, crafts: nat, seen: set<Name>, stock: Bag, k: nat)
    returns (line: Line, sub: Analysis, rest: LineAnalysis)
    requires AtMaterial(cat, name, k) && RequiredAt(cat, name, crafts, k) > 0 && MaterialAt(cat, name, k) !in seen
    ensures var m, required := MaterialAt(cat, name, k), RequiredAt(cat, name, crafts, k);
      && sub == Analyze(cat, m, required, seen + {cat.recipes[name].item}, stock)
      && line == ExploredLine(cat, m, required, stock, sub.budget)
      && line.status.material == m && line.status.required == required
      && (LevelOf(cat, m) < LevelOf(cat, name)
          || (LevelOf(cat, m) == LevelOf(cat, name)
              && Unseen(cat, m, seen + {cat.recipes[name].item}) < Unseen(cat, name, seen)))
    ensures line.Explored? && line.subgoal == sub.budget
    ensures line.status.missing == sub.budget.missing && line.status.fulfilled == sub.budget.fulfilled
    ensures line.status.owned == SumCounts(Family(cat, MaterialAt(cat, name, k)), stock)
    ensures rest == AnalyzeLines(cat, name, crafts, seen, sub.stock, k + 1)
    ensures AnalyzeLines(cat, name, crafts, seen, stock, k)
            == Cons(line, sub.delivered, sub.steps, sub.budget.baseMissing, rest)
  {
    hide Draw, Taken, SumCounts, Analyze, Cons, Copies, Times;
    Descent(cat, name, seen, k);
    var m, required := MaterialAt(cat, name, k), RequiredAt(cat, name, crafts, k);
    sub := Analyze(cat, m, required, seen + {cat.recipes[name].item}, stock);
    line := ExploredLine(cat, m, required, stock, sub.budget);
    rest := AnalyzeLines(cat, name, crafts, seen, sub.stock, k + 1);
  }

  // ---------------------------------------------------------------- the plan can be carried out

  lemma {:induction false} PlanRunsAt(x: Name, cat: Catalog, name: Name, desired: int, seen: set<Name>, stock: Bag,
                                      frame: nat)
    requires Sound(cat)
    ensures var a := Analyze(cat, name, desired, seen, stock);
      RunAt(x, stock[x] + Direct(a.budget)[x] + frame, a.steps) == Some(a.stock[x] + a.delivered[x] + frame)
    decreases LevelOf(cat, name), Unseen(cat, name, seen), 1, 0
  {
    hide Analyze, AnalyzeLines, Draw, Taken, SumCounts, Copies, CraftBudget, RunAt, Direct, DirectLines, Sum, Family;
    hide Times;
    hide Sound, LevelOf, Unseen, Descends;
    if name !in cat.recipes {
      var drawn, used := LeafNode(cat, name, desired, seen, stock);
      NothingRun(x, stock[x] + Direct(Analyze(cat, name, desired, seen, stock).budget)[x] + frame);
    } else {
      var item := cat.recipes[name].item;
      var total, used, crafts, produced, below := CraftNode(cat, name, desired, seen, stock);
      var kept := Copies(item, used);
      LinesRunAt(x, cat, name, crafts, seen, stock - kept, 0, frame + kept[x]);
      CopiesSplit(x, item, stock, used, total, produced);
      DirectOfCraft(cat, name, total, stock, used, below);
      if crafts == 0 {
        NoCraftsNoLines(cat, name, seen, stock - kept, 0);
        NothingRun(x, 0);
      } else {
        FinishCraftAt(x, stock[x] + DirectLines(below.lines)[x] + frame, below, kept[x] + frame, item, produced);
      }
    }
  }

  lemma NothingRun(x: Name, count: nat)
    ensures RunAt(x, count, []) == Some(count) && Sum([]) == multiset{}
  {}

  lemma CopiesSplit(x: Name, item: Name, stock: Bag, used: nat, total: nat, produced: nat)
    requires used <= stock[item] && used <= total <= used + produced
    ensures (stock - Copies(item, used))[x] + Copies(item, used)[x] == stock[x]
    ensures Copies(item, used + produced - total)[x] + Copies(item, total)[x]
            == Copies(item, used)[x] + Copies(item, produced)[x]
    ensures used == total ==> Copies(item, used + 0 - total)[x] == 0
  {}

  lemma DirectOfCraft(cat: Catalog, name: Name, total: nat, stock: Bag, used: nat, below: LineAnalysis)
    requires name in cat.recipes && used <= total
    ensures Direct(CraftBudget(cat, cat.recipes[name], total, stock, used, below.lines, below.baseMissing))
            == DirectLines(below.lines)
  {
    hide SumCounts, NothingMissing, CraftsNeeded;
  }

  lemma FinishCraftAt(x: Name, start: nat, below: LineAnalysis, aside: nat, item: Name, produced: nat)
    requires RunAt(x, start, below.steps) == Some(below.stock[x] + Sum(below.delivered)[x] + aside)
    ensures RunAt(x, start, below.steps + [Step(below.delivered, Copies(item, produced))])
         == Some(below.stock[x] + aside + Copies(item, produced)[x])
  {
    var step := Step(below.delivered, Copies(item, produced));
    RunAtAppend(x, start, below.steps, [step]);
    assert [step][1..] == [];
  }

  lemma {:induction false} LinesRunAt(x: Name, cat: Catalog, name: Name, crafts: nat, seen: set<Name>, stock: Bag,
                                      k: nat, frame: nat)
    requires Sound(cat) && name in cat.recipes && k <= |cat.recipes[name].materials|
    ensures LineRunsAt(x, stock, AnalyzeLines(cat, name, crafts, seen, stock, k), frame)
    decreases LevelOf(cat, name), Unseen(cat, name, seen), 0, |cat.recipes[name].materials| - k
  {
    hide Analyze, AnalyzeLines, Draw, Taken, SumCounts, Cons, LineRunsAt, RunAt, Copies, Direct, DirectLine;
    hide DirectLines, Sum;
    hide Sound, LevelOf, Unseen, Descends, StoppedLine, ExploredLine, RequiredAt, MaterialAt;
    if k == |cat.recipes[name].materials| {
      UnfoldEnd(cat, name, crafts, seen, stock);
      DoneRunsAt(x, stock, frame);
      return;
    }
    var m, required := MaterialAt(cat, name, k), RequiredAt(cat, name, crafts, k);
    if required <= 0 {
      UnfoldSkipped(cat, name, crafts, seen, stock, k);
      LinesRunAt(x, cat, name, crafts, seen, stock, k + 1, frame);
    } else if m in seen {
      var line, drawn, missing, rest := UnfoldStopped(cat, name, crafts, seen, stock, k);
      DrawFits(Family(cat, m), required, stock);
      LinesRunAt(x, cat, name, crafts, seen, stock - drawn, k + 1, frame + drawn[x] + missing[x]);
      StoppedRunsAt(x, stock, drawn, missing, line, rest, frame);
    } else {
      var line, sub, rest := UnfoldExplored(cat, name, crafts, seen, stock, k);
      PlanRunsAt(x, cat, m, required, seen + {cat.recipes[name].item}, stock, DirectLines(rest.lines)[x] + frame);
      LinesRunAt(x, cat, name, crafts, seen, sub.stock, k + 1, frame + sub.delivered[x]);
      ExploredRunsAt(x, stock, sub, line, rest, frame);
    }
  }

  lemma DoneRunsAt(x: Name, stock: Bag, frame: nat)
    ensures LineRunsAt(x, stock, Done(stock), frame)
  {}

  predicate LineRunsAt(x: Name, stock: Bag, below: LineAnalysis, frame: nat) {
    RunAt(x, stock[x] + DirectLines(below.lines)[x] + frame, below.steps)
    == Some(below.stock[x] + Sum(below.delivered)[x] + frame)
  }

  lemma StoppedRunsAt(x: Name, stock: Bag, drawn: Bag, missing: Bag, line: Line, rest: LineAnalysis, frame: nat)
    requires drawn <= stock && line.Stopped? && Copies(line.status.material, line.status.missing) == missing
    requires LineRunsAt(x, stock - drawn, rest, frame + drawn[x] + missing[x])
    ensures LineRunsAt(x, stock, Cons(line, drawn + missing, [], missing, rest), frame)
  {
    var below := Cons(line, drawn + missing, [], missing, rest);
    assert below.lines[1..] == rest.lines && below.delivered[1..] == rest.delivered && below.steps == rest.steps;
  }

  lemma ExploredRunsAt(x: Name, stock: Bag, sub: Analysis, line: Line, rest: LineAnalysis, frame: nat)
    requires line.Explored? && line.subgoal == sub.budget
    requires RunAt(x, stock[x] + Direct(sub.budget)[x] + (DirectLines(rest.lines)[x] + frame), sub.steps)
          == Some(sub.stock[x] + sub.delivered[x] + (DirectLines(rest.lines)[x] + frame))
    requires LineRunsAt(x, sub.stock, rest, frame + sub.delivered[x])
    ensures LineRunsAt(x, stock, Cons(line, sub.delivered, sub.steps, sub.budget.baseMissing, rest), frame)
  {
    hide Direct, DirectLines, Sum, RunAt, Cons;
    var below := Cons(line, sub.delivered, sub.steps, sub.budget.baseMissing, rest);
    ConsSums(x, line, sub, rest);
    RunAtAppend(x, stock[x] + DirectLines(below.lines)[x] + frame, sub.steps, rest.steps);
  }

  lemma ConsSums(x: Name, line: Line, sub: Analysis, rest: LineAnalysis)
    requires line.Explored? && line.subgoal == sub.budget
    ensures var below := Cons(line, sub.delivered, sub.steps, sub.budget.baseMissing, rest);
      && DirectLines(below.lines)[x] == Direct(sub.budget)[x] + DirectLines(rest.lines)[x]
      && Sum(below.delivered)[x] == sub.delivered[x] + Sum(rest.delivered)[x]
      && below.steps == sub.steps + rest.steps && below.stock == rest.stock
  {
    hide Direct;
    var below := Cons(line, sub.delivered, sub.steps, sub.budget.baseMissing, rest);
    assert DirectLine(line) == Direct(sub.budget);
    assert below.lines[1..] == rest.lines && below.delivered[1..] == rest.delivered;
  }

  /** On the stock, the direct missing materials and anything else besides, the steps run to the
      end and leave the returned stock, what the caller asked for, and the rest untouched. */
  lemma PlanRuns(cat: Catalog, name: Name, desired: int, seen: set<Name>, stock: Bag, frame: Bag)
    requires Sound(cat)
    ensures var a := Analyze(cat, name, desired, seen, stock);
      Run(stock + Direct(a.budget) + frame, a.steps) == Some(a.stock + a.delivered + frame)
  {
    hide *;
    var a := Analyze(cat, name, desired, seen, stock);
    forall x
      ensures RunAt(x, (stock + Direct(a.budget) + frame)[x], a.steps) == Some((a.stock + a.delivered + frame)[x])
    {
      PlanRunsAt(x, cat, name, desired, seen, stock, frame[x]);
    }
    RunItemByItem(stock + Direct(a.budget) + frame, a.steps, a.stock + a.delivered + frame);
  }

  // ---------------------------------------------------------------- the steps are the tree's crafts

  lemma SuppliesDrawn(cat: Catalog, name: Name, amount: nat, stock: Bag)
    ensures var used := Taken(Family(cat, name), amount, stock);
      Supplies(cat, Draw(Family(cat, name), amount, stock) + Copies(name, amount - used), name, amount)
  {
    DrawSize(Family(cat, name), amount, stock);
    DrawStaysInFamily(Family(cat, name), amount, stock);
    hide Draw, Taken;
  }

  lemma SuppliesCopies(cat: Catalog, item: Name, name: Name, n: nat)
    requires item in Family(cat, name)
    ensures Supplies(cat, Copies(item, n), name, n)
  {}

  lemma PerformsAppend(cat: Catalog, s1: seq<Step>, n1: seq<Job>, s2: seq<Step>, n2: seq<Job>)
    requires PerformsAll(cat, s1, n1) && PerformsAll(cat, s2, n2)
    ensures PerformsAll(cat, s1 + s2, n1 + n2)
  {
    hide Performs;
  }

  /** The steps are, one by one, the crafts that the tree calls for in post-order, each carried
      out as its recipe in the catalog says; and what the caller gets fits what it asked for. */
  lemma {:induction false} PlanPerforms(cat: Catalog, name: Name, desired: int, seen: set<Name>, stock: Bag)
    requires Sound(cat)
    ensures var a := Analyze(cat, name, desired, seen, stock);
      && PerformsAll(cat, a.steps, PostOrder(name, a.budget))
      && Supplies(cat, a.delivered, name, Max(desired, 1))
    decreases LevelOf(cat, name), Unseen(cat, name, seen), 1, 0
  {
    hide Analyze, AnalyzeLines, Draw, Taken, SumCounts, Copies, CraftBudget, Supplies, Supplied, Demands, PostOrder;
    hide Performs;
    hide Sound, LevelOf, Unseen, Descends;
    if name !in cat.recipes {
      var drawn, used := LeafNode(cat, name, desired, seen, stock);
      SuppliesDrawn(cat, name, Max(desired, 1), stock);
      LeafPerforms(cat, name, Analyze(cat, name, desired, seen, stock).budget);
    } else {
      var item := cat.recipes[name].item;
      var total, used, crafts, produced, below := CraftNode(cat, name, desired, seen, stock);
      LinesPerform(cat, name, crafts, seen, stock - Copies(item, used), 0);
      assert cat.recipes[name].materials[0..] == cat.recipes[name].materials;
      ItemInFamily(cat, name);
      SuppliesCopies(cat, item, name, total);
      CraftPerforms(cat, name, total, stock, used, below);
    }
  }

  lemma LeafPerforms(cat: Catalog, name: Name, b: Budget)
    requires b.Leaf?
    ensures PerformsAll(cat, [], PostOrder(name, b))
  {}

  lemma ItemInFamily(cat: Catalog, name: Name)
    requires Sound(cat) && name in cat.recipes
    ensures cat.recipes[name].item in Family(cat, name)
  {}

  lemma CraftPerforms(cat: Catalog, name: Name, total: nat, stock: Bag, used: nat, below: LineAnalysis)
    requires name in cat.recipes && used <= total
    requires PerformsAll(cat, below.steps, PostOrderLines(below.lines))
    requires var b := CraftBudget(cat, cat.recipes[name], total, stock, used, below.lines, below.baseMissing);
      Supplied(cat, below.delivered, Demands(cat.recipes[name].materials, b.crafts))
    ensures var recipe := cat.recipes[name];
      var b := CraftBudget(cat, recipe, total, stock, used, below.lines, below.baseMissing);
      var produced := Times(Max(recipe.outputCount, 1), b.crafts);
      PerformsAll(cat, if b.crafts == 0 then below.steps
          else below.steps + [Step(below.delivered, Copies(recipe.item, produced))],
                  PostOrder(name, b))
  {
    hide SumCounts, NothingMissing, CraftsNeeded, Supplied, Copies, Times, Demands;
    var recipe := cat.recipes[name];
    var b := CraftBudget(cat, recipe, total, stock, used, below.lines, below.baseMissing);
    if b.crafts > 0 {
      var step := Step(below.delivered, Copies(recipe.item, Times(Max(recipe.outputCount, 1), b.crafts)));
      assert Performs(cat, step, Job(name, b.crafts));
      PerformsAppend(cat, below.steps, PostOrderLines(below.lines), [step], [Job(name, b.crafts)]);
    } else {
      assert PostOrder(name, b) == PostOrderLines(below.lines);
    }
  }

  lemma {:induction false} LinesPerform(cat: Catalog, name: Name, crafts: nat, seen: set<Name>, stock: Bag, k: nat)
    requires Sound(cat) && name in cat.recipes && k <= |cat.recipes[name].materials|
    ensures var below := AnalyzeLines(cat, name, crafts, seen, stock, k);
      && PerformsAll(cat, below.steps, PostOrderLines(below.lines))
      && Supplied(cat, below.delivered, Demands(cat.recipes[name].materials[k..], crafts))
    decreases LevelOf(cat, name), Unseen(cat, name, seen), 0, |cat.recipes[name].materials| - k
  {
    hide Analyze, AnalyzeLines, Draw, Taken, SumCounts, Copies, Cons, Supplied, Supplies, PerformsAll, PostOrderLines;
    hide PostOrder;
    hide Sound, LevelOf, Unseen, Descends, StoppedLine, ExploredLine, RequiredAt, MaterialAt, Demands;
    var materials := cat.recipes[name].materials;
    if k == |materials| {
      UnfoldEnd(cat, name, crafts, seen, stock);
      DonePerforms(cat, stock, crafts);
      assert materials[k..] == [];
      return;
    }
    var m, required := MaterialAt(cat, name, k), RequiredAt(cat, name, crafts, k);
    DemandAt(cat, name, crafts, k);
    if required <= 0 {
      UnfoldSkipped(cat, name, crafts, seen, stock, k);
      LinesPerform(cat, name, crafts, seen, stock, k + 1);
    } else if m in seen {
      var line, drawn, missing, rest := UnfoldStopped(cat, name, crafts, seen, stock, k);
      StoppedSupplies(cat, m, required, stock);
      LinesPerform(cat, name, crafts, seen, stock - drawn, k + 1);
      ConsPerforms(cat, line, drawn + missing, [], missing, rest, Demands(materials[k + 1..], crafts));
    } else {
      var line, sub, rest := UnfoldExplored(cat, name, crafts, seen, stock, k);
      PlanPerforms(cat, m, required, seen + {cat.recipes[name].item}, stock);
      LinesPerform(cat, name, crafts, seen, sub.stock, k + 1);
      ConsPerforms(cat, line, sub.delivered, sub.steps, sub.budget.baseMissing, rest,
          Demands(materials[k + 1..], crafts));
    }
  }

  lemma DemandAt(cat: Catalog, name: Name, crafts: nat, k: nat)
    requires AtMaterial(cat, name, k)
    ensures var materials, required := cat.recipes[name].materials, RequiredAt(cat, name, crafts, k);
      Demands(materials[k..], crafts)
      == if required > 0 then [(MaterialAt(cat, name, k), required)] + Demands(materials[k + 1..], crafts)
         else Demands(materials[k + 1..], crafts)
  {
    hide Times, Sound;
    var materials := cat.recipes[name].materials;
    assert materials[k..][1..] == materials[k + 1..];
  }

  lemma DonePerforms(cat: Catalog, stock: Bag, crafts: nat)
    ensures var below := Done(stock);
      PerformsAll(cat, below.steps, PostOrderLines(below.lines)) && Supplied(cat, below.delivered, Demands([], crafts))
  {}

  lemma StoppedSupplies(cat: Catalog, m: Name, required: nat, stock: Bag)
    ensures var line := StoppedLine(cat, m, required, stock, Taken(Family(cat, m), required, stock));
      Supplies(cat, Draw(Family(cat, m), required, stock)
          + Copies(line.status.material, line.status.missing), m, required)
  {
    SuppliesDrawn(cat, m, required, stock);
  }

  lemma ConsPerforms(cat: Catalog, line: Line, delivered: Bag, steps: seq<Step>, missing: Bag, rest: LineAnalysis,
                     demands: seq<(Name, nat)>)
    requires Supplies(cat, delivered, line.status.material, line.status.required)
    requires match line { case Stopped(_) => steps
             == [] case Explored(status, sub) => PerformsAll(cat, steps, PostOrder(status.material, sub)) }
    requires PerformsAll(cat, rest.steps, PostOrderLines(rest.lines)) && Supplied(cat, rest.delivered, demands)
    ensures var below := Cons(line, delivered, steps, missing, rest);
      && PerformsAll(cat, below.steps, PostOrderLines(below.lines))
      && Supplied(cat, below.delivered, [(line.status.material, line.status.required)] + demands)
  {
    hide Supplies, PostOrder, Performs;
    var below := Cons(line, delivered, steps, missing, rest);
    assert below.lines[1..] == rest.lines;
    assert PerformsAll(cat, steps, PostOrderLine(line));
    PerformsAppend(cat, steps, PostOrderLine(line), rest.steps, PostOrderLines(rest.lines));
  }
}
