/**
 What the numbers in a crafting budget mean: every node balances, every missing
 material has a reason, and the whole tree balances item class by item class.
 */
module BudgetAccount {
  import opened Integers
  import opened Budget
  import opened BudgetPlan

  // ---------------------------------------------------------------- node by node

  /** The materials and amounts that the lines are about. */
  function Asks(lines: seq<Line>): seq<(Name, nat)> {
    if lines == [] then [] else [(lines[0].status.material, lines[0].status.required)] + Asks(lines[1..])
  }

  lemma DemandsUnfold(m: (Name, int), rest: seq<(Name, int)>, crafts: nat)
    ensures Demands([m] + rest, crafts)
         == (if Times(m.1, crafts) > 0 then [(m.0, Times(m.1, crafts) as nat)] else []) + Demands(rest, crafts)
  {
    hide Times;
    assert ([m] + rest)[1..] == rest;
  }

  lemma {:induction false} DemandsJoin(front: seq<(Name, int)>, back: seq<(Name, int)>, crafts: nat)
    ensures Demands(front + back, crafts) == Demands(front, crafts) + Demands(back, crafts)
    decreases |front|
  {
    hide Demands, Times;
    if front == [] {
      assert front + back == back;
      NoMaterials(crafts);
    } else {
      var m, rest := front[0], front[1..];
      DemandsJoin(rest, back, crafts);
      assert front == [m] + rest && front + back == [m] + (rest + back);
      DemandsUnfold(m, rest, crafts);
      DemandsUnfold(m, rest + back, crafts);
    }
  }

  lemma NoMaterials(crafts: nat)
    ensures Demands([], crafts) == []
  {}

  lemma Amount(perCraft: int, crafts: nat)
    ensures Times(perCraft, crafts) == perCraft * crafts
    ensures perCraft * crafts > 0 <==> perCraft > 0 && crafts > 0
  {}

  /** Each material calls for its amount times the crafts if that is anything, and a list for what
      its pieces call for, in their order. */
  lemma DemandsAreExact(front: seq<(Name, int)>, m: Name, perCraft: int, back: seq<(Name, int)>, crafts: nat)
    ensures Demands([], crafts) == []
    ensures perCraft > 0 && crafts > 0 ==> Demands([(m, perCraft)], crafts) == [(m, perCraft * crafts)]
    ensures perCraft <= 0 || crafts == 0 ==> Demands([(m, perCraft)], crafts) == []
    ensures Demands(front + back, crafts) == Demands(front, crafts) + Demands(back, crafts)
  {
    hide Demands, Times;
    NoMaterials(crafts);
    DemandsJoin(front, back, crafts);
    DemandsUnfold((m, perCraft), [], crafts);
    assert [(m, perCraft)] + [] == [(m, perCraft)];
    Amount(perCraft, crafts);
  }

  /** What the stock holds of a target is counted, and as much of it used as is asked for. */
  ghost predicate UsesStock(cat: Catalog, target: Name, stock: Bag, asked: nat, owned: nat, fulfilled: nat) {
    && owned == SumCounts(Family(cat, target), stock)
    && fulfilled == Min(asked, Available(Family(cat, target), stock))
    && (AllDifferent(Family(cat, target)) ==> fulfilled == Min(asked, owned))
  }

  /** The stock that a budget drawn up on `stock` leaves: without what its target takes, then as its
      lines leave it one after the other, and with what the crafts yield beyond what is missing. */
  function StockAfter(cat: Catalog, b: Budget, stock: Bag): Bag
    decreases b, 0
  {
    var rest := stock - Draw(Family(cat, b.target), b.desired, stock);
    match b
    case Leaf(_, _, _, _, _, _, _, _) => rest
    case Craft(target, _, _, _, missing, _, output, crafts, lines, _) =>
      StockAfterLines(cat, lines, rest) + Copies(target, Max(Times(output, crafts) - missing, 0))
  }

  function StockAfterLine(cat: Catalog, line: Line, stock: Bag): Bag
    decreases line, 0
  {
    match line
    case Stopped(status) => stock - Draw(Family(cat, status.material), status.required, stock)
    case Explored(_, sub) => StockAfter(cat, sub, stock)
  }

  function StockAfterLines(cat: Catalog, lines: seq<Line>, stock: Bag): Bag
    decreases lines, 1
  {
    if lines == [] then stock else StockAfterLines(cat, lines[1..], StockAfterLine(cat, lines[0], stock))
  }

  /** A budget drawn up for `name` on `stock`; `above` are the items whose crafting is under way
      then. It follows the catalog: the recipe picked for a name gives the item, the output and,
      line by line, the materials with their amounts; a name without a recipe has the tool of its
      rule. Each line finds the stock as the lines before it leave it, and the tool finds what the
      target leaves. */
  ghost predicate Accounted(cat: Catalog, name: Name, b: Budget, above: set<Name>, stock: Bag)
    decreases b, 0
  {
    && b.desired == b.fulfilled + b.missing
    && UsesStock(cat, b.target, stock, b.desired, b.owned, b.fulfilled)
    && b.baseMissing == Direct(b) + ForTools(b)
    && var rest := stock - Draw(Family(cat, b.target), b.desired, stock);
      match b {
      case Leaf(target, _, _, _, missing, canCraftNow, tool, _) =>
        && target == name && name !in cat.recipes
        && (canCraftNow <==> missing == 0)
        && (tool.Some? <==> name in cat.tools)
        && (tool.Some? ==> tool.value.desired == 1 && Accounted(cat, cat.tools[name], tool.value, {}, rest))
      case Craft(target, _, _, _, missing, canCraftNow, output, crafts, lines, _) =>
        && name in cat.recipes
        && target == cat.recipes[name].item && output == Max(cat.recipes[name].outputCount, 1)
        && missing <= Times(output, crafts) < missing + output
        && Asks(lines) == Demands(cat.recipes[name].materials, crafts)
        && (canCraftNow <==> NothingMissing(lines))
        && AccountedLines(cat, lines, above, target, rest)
    }
  }

  /** What stock holds of the line's material is counted. A material that the cycle guard stopped
      is being crafted further up; any other has a budget on the same stock. */
  ghost predicate AccountedLine(cat: Catalog, line: Line, above: set<Name>, target: Name, stock: Bag)
    decreases line, 0
  {
    && line.status.required == line.status.fulfilled + line.status.missing
    && line.status.owned == SumCounts(Family(cat, line.status.material), stock)
    && match line {
      case Stopped(status) =>
        && status.material in above
        && UsesStock(cat, status.material, stock, status.required, status.owned, status.fulfilled)
      case Explored(status, sub) =>
        && sub.desired == status.required && sub.missing == status.missing && sub.fulfilled == status.fulfilled
        && status.material !in above
        && Accounted(cat, status.material, sub, above + {target}, stock)
    }
  }

  ghost predicate AccountedLines(cat: Catalog, lines: seq<Line>, above: set<Name>, target: Name, stock: Bag)
    decreases lines, 1
  {
    || lines == []
    || (AccountedLine(cat, lines[0], above, target, stock)
        && AccountedLines(cat, lines[1..], above, target, StockAfterLine(cat, lines[0], stock)))
  }

  /** Stock comes first: what is there is counted and used before anything is crafted or missing. */
  lemma StockComesFirst(cat: Catalog, name: Name, desired: int, seen: set<Name>, stock: Bag)
    requires Sound(cat)
    ensures var b, total := Analyze(cat, name, desired, seen, stock).budget, Max(desired, 1);
      && b.target == (if name in cat.recipes then cat.recipes[name].item else name)
      && b.desired == total && b.owned == SumCounts(Family(cat, b.target), stock)
      && b.fulfilled == Min(total, Available(Family(cat, b.target), stock)) && b.missing == total - b.fulfilled
      && UsesStock(cat, b.target, stock, total, b.owned, b.fulfilled)
  {
    hide Analyze, AnalyzeLines, Draw, Taken, SumCounts, Available, AllDifferent, CraftsNeeded, NothingMissing, Sound;
    hide Family;
    var total := Max(desired, 1);
    if name in cat.recipes {
      var item := cat.recipes[name].item;
      var _, used, crafts, produced, below := CraftNode(cat, name, desired, seen, stock);
      ItsOwnDraw(cat, name, total, stock);
      UsedIsMin(cat, item, total, stock);
    } else {
      var drawn, used := LeafNode(cat, name, desired, seen, stock);
      UsedIsMin(cat, name, total, stock);
    }
  }

  lemma ItsOwnDraw(cat: Catalog, name: Name, total: nat, stock: Bag)
    requires Sound(cat) && name in cat.recipes
    ensures var item := cat.recipes[name].item;
      && Family(cat, item) == [item]
      && Taken(Family(cat, item), total, stock) == Min(total, stock[item])
      && Draw(Family(cat, item), total, stock) == Copies(item, Min(total, stock[item]))
  {
    DrawOne(cat.recipes[name].item, total, stock);
  }

  lemma UsedIsMin(cat: Catalog, name: Name, amount: nat, stock: Bag)
    ensures Taken(Family(cat, name), amount, stock) == Min(amount, Available(Family(cat, name), stock))
    ensures UsesStock(cat, name, stock, amount, SumCounts(Family(cat, name), stock),
                Taken(Family(cat, name), amount, stock))
  {
    TakenIsMin(Family(cat, name), amount, stock);
    if AllDifferent(Family(cat, name)) {
      AvailableIsOwned(Family(cat, name), stock);
    }
  }

  /** Every budget follows the catalog and is accounted for: the crafts are the fewest that cover
      what stock does not, and the missing materials are those of the crafts plus those of the tools. */
  lemma {:induction false} AnalyzeIsAccounted(cat: Catalog, name: Name, desired: int, seen: set<Name>, stock: Bag)
    requires Sound(cat)
    ensures var a := Analyze(cat, name, desired, seen, stock);
      && Accounted(cat, name, a.budget, seen, stock)
      && a.stock == StockAfter(cat, a.budget, stock)
    decreases LevelOf(cat, name), Unseen(cat, name, seen), 1, 0
  {
    hide Analyze, AnalyzeLines, Draw, Taken, SumCounts, Sound, LevelOf, Unseen, Descends, Copies, UsesStock, Demands;
    hide Asks, Available, StockAfterLines, AccountedLines, Family;
    StockComesFirst(cat, name, desired, seen, stock);
    if name !in cat.recipes {
      LeafIsAccounted(cat, name, desired, seen, stock);
    } else {
      var item := cat.recipes[name].item;
      var total, used, crafts, produced, below := CraftNode(cat, name, desired, seen, stock);
      LinesAreAccounted(cat, name, crafts, seen, stock - Copies(item, used), 0);
      ItsOwnDraw(cat, name, total, stock);
      assert cat.recipes[name].materials[0..] == cat.recipes[name].materials;
    }
  }

  lemma {:induction false} LeafIsAccounted(cat: Catalog, name: Name, desired: int, seen: set<Name>, stock: Bag)
    requires Sound(cat) && name !in cat.recipes
    ensures var a := Analyze(cat, name, desired, seen, stock);
      && Accounted(cat, name, a.budget, seen, stock)
      && a.stock == StockAfter(cat, a.budget, stock)
    decreases LevelOf(cat, name), Unseen(cat, name, seen), 0, 0
  {
    hide Draw, Taken, SumCounts, Copies, AnalyzeLines, Analyze, Sound, LevelOf, Unseen, Descends, UsesStock;
    hide Available, Family;
    StockComesFirst(cat, name, desired, seen, stock);
    var drawn, used := LeafNode(cat, name, desired, seen, stock);
    if name in cat.tools {
      ToolDescent(cat, name);
      AnalyzeIsAccounted(cat, cat.tools[name], 1, {}, stock - drawn);
      StockComesFirst(cat, cat.tools[name], 1, {}, stock - drawn);
    }
  }

  lemma {:induction false} LinesAreAccounted(cat: Catalog, name: Name, crafts: nat, seen: set<Name>, stock: Bag, k: nat)
    requires Sound(cat) && name in cat.recipes && k <= |cat.recipes[name].materials|
    ensures var below := AnalyzeLines(cat, name, crafts, seen, stock, k);
      && AccountedLines(cat, below.lines, seen, cat.recipes[name].item, stock)
      && below.stock == StockAfterLines(cat, below.lines, stock)
      && Asks(below.lines) == Demands(cat.recipes[name].materials[k..], crafts)
      && below.baseMissing == DirectLines(below.lines) + ForToolsLines(below.lines)
    decreases LevelOf(cat, name), Unseen(cat, name, seen), 0, |cat.recipes[name].materials| - k
  {
    hide Analyze, AnalyzeLines, Draw, Taken, SumCounts, Copies, Cons, Direct, DirectLines, ForTools, ForToolsLines;
    hide Asks, Demands;
    hide Sound, LevelOf, Unseen, Descends, StoppedLine, ExploredLine, RequiredAt, MaterialAt, Accounted;
    hide AccountedLines, UsesStock, StockAfter, StockAfterLines, Available, Family;
    var materials := cat.recipes[name].materials;
    if k == |materials| {
      UnfoldEnd(cat, name, crafts, seen, stock);
      DoneIsAccounted(cat, stock, seen, cat.recipes[name].item, crafts);
      assert materials[k..] == [];
      return;
    }
    var m, required, item := MaterialAt(cat, name, k), RequiredAt(cat, name, crafts, k), cat.recipes[name].item;
    DemandAt(cat, name, crafts, k);
    if required <= 0 {
      UnfoldSkipped(cat, name, crafts, seen, stock, k);
      LinesAreAccounted(cat, name, crafts, seen, stock, k + 1);
    } else if m in seen {
      var line, drawn, missing, rest := UnfoldStopped(cat, name, crafts, seen, stock, k);
      LinesAreAccounted(cat, name, crafts, seen, stock - drawn, k + 1);
      UsedIsMin(cat, m, required, stock);
      StoppedFields(cat, m, required, stock);
      ConsStopped(cat, line, drawn, rest, seen, item, stock);
    } else {
      var line, sub, rest := UnfoldExplored(cat, name, crafts, seen, stock, k);
      AnalyzeIsAccounted(cat, m, required, seen + {item}, stock);
      LinesAreAccounted(cat, name, crafts, seen, sub.stock, k + 1);
      StockComesFirst(cat, m, required, seen + {item}, stock);
      ConsExplored(cat, line, sub, rest, seen, item, stock);
    }
  }

  lemma StoppedFields(cat: Catalog, m: Name, required: nat, stock: Bag)
    ensures var used := Taken(Family(cat, m), required, stock);
      StoppedLine(cat, m, required, stock, used).status
          == Status(m, required, SumCounts(Family(cat, m), stock), used, required - used)
  {
    hide Taken, SumCounts;
  }

  lemma DoneIsAccounted(cat: Catalog, stock: Bag, seen: set<Name>, item: Name, crafts: nat)
    ensures var below := Done(stock);
      && AccountedLines(cat, below.lines, seen, item, stock) && Asks(below.lines) == Demands([], crafts)
      && below.stock == StockAfterLines(cat, below.lines, stock)
      && below.baseMissing == DirectLines(below.lines) + ForToolsLines(below.lines)
  {}

  lemma ConsStopped(cat: Catalog, line: Line, drawn: Bag, rest: LineAnalysis, seen: set<Name>, item: Name,
                    stock: Bag)
    requires line.Stopped? && AccountedLine(cat, line, seen, item, stock)
    requires AccountedLines(cat, rest.lines, seen, item, stock - drawn)
    requires drawn == Draw(Family(cat, line.status.material), line.status.required, stock)
    requires rest.stock == StockAfterLines(cat, rest.lines, stock - drawn)
    requires rest.baseMissing == DirectLines(rest.lines) + ForToolsLines(rest.lines)
    ensures var missing := Copies(line.status.material, line.status.missing);
      var below := Cons(line, drawn + missing, [], missing, rest);
      && AccountedLines(cat, below.lines, seen, item, stock)
      && below.stock == StockAfterLines(cat, below.lines, stock)
      && Asks(below.lines) == [(line.status.material, line.status.required)] + Asks(rest.lines)
      && below.baseMissing == DirectLines(below.lines) + ForToolsLines(below.lines)
  {
    hide UsesStock, Draw, Family, SumCounts;
    assert ([line] + rest.lines)[1..] == rest.lines;
  }

  lemma ConsExplored(cat: Catalog, line: Line, sub: Analysis, rest: LineAnalysis, seen: set<Name>, item: Name,
                     stock: Bag)
    requires line.Explored? && line.subgoal == sub.budget && line.status.material !in seen
    requires line.status.owned == SumCounts(Family(cat, line.status.material), stock)
    requires Accounted(cat, line.status.material, sub.budget, seen + {item}, stock)
             && sub.budget.desired == line.status.required
    requires line.status.missing == sub.budget.missing && line.status.fulfilled == sub.budget.fulfilled
    requires AccountedLines(cat, rest.lines, seen, item, sub.stock)
    requires sub.stock == StockAfter(cat, sub.budget, stock)
    requires rest.stock == StockAfterLines(cat, rest.lines, sub.stock)
    requires rest.baseMissing == DirectLines(rest.lines) + ForToolsLines(rest.lines)
    ensures var below := Cons(line, sub.delivered, sub.steps, sub.budget.baseMissing, rest);
      && AccountedLines(cat, below.lines, seen, item, stock)
      && below.stock == StockAfterLines(cat, below.lines, stock)
      && Asks(below.lines) == [(line.status.material, line.status.required)] + Asks(rest.lines)
      && below.baseMissing == DirectLines(below.lines) + ForToolsLines(below.lines)
  {
    hide Direct, ForTools, UsesStock, StockAfter, Family, SumCounts;
    assert ([line] + rest.lines)[1..] == rest.lines;
    assert sub.budget.baseMissing == Direct(sub.budget) + ForTools(sub.budget);
  }

  // ---------------------------------------------------------------- why something is missing

  /** The cycle guard stopped at `x` somewhere below, while `x` itself was being crafted. */
  predicate CutShort(b: Budget, above: set<Name>, x: Name)
    decreases b, 0
  {
    match b
    case Leaf(_, _, _, _, _, _, tool, _) => tool.Some? && CutShort(tool.value, {}, x)
    case Craft(target, _, _, _, _, _, _, _, lines, _) => CutShortLines(lines, above, target, x)
  }

  predicate CutShortLine(line: Line, above: set<Name>, target: Name, x: Name)
    decreases line, 0
  {
    match line
    case Stopped(status) => status.material == x && x in above
    case Explored(_, sub) => CutShort(sub, above + {target}, x)
  }

  predicate CutShortLines(lines: seq<Line>, above: set<Name>, target: Name, x: Name)
    decreases lines, 1
  {
    lines != [] && (CutShortLine(lines[0], above, target, x) || CutShortLines(lines[1..], above, target, x))
  }

  /** Whatever is listed as missing has no recipe, or is an item whose own crafting needs it. */
  lemma {:induction false} MissingHasReason(cat: Catalog, name: Name, b: Budget, above: set<Name>, stock: Bag, x: Name)
    requires Accounted(cat, name, b, above, stock) && x in b.baseMissing
    ensures x !in cat.recipes || CutShort(b, above, x)
    decreases b, 0
  {
    match b
    case Leaf(_, _, _, _, _, _, tool, _) =>
      if tool.Some? && x in tool.value.baseMissing {
        var rest := stock - Draw(Family(cat, b.target), b.desired, stock);
        MissingHasReason(cat, cat.tools[name], tool.value, {}, rest, x);
      }
    case Craft(target, _, _, _, _, _, _, _, lines, _) =>
      MissingLinesHaveReason(cat, lines, above, target, stock - Draw(Family(cat, target), b.desired, stock), x);
  }

  lemma {:induction false} MissingLinesHaveReason(cat: Catalog, lines: seq<Line>, above: set<Name>, target: Name,
                                                  stock: Bag, x: Name)
    requires AccountedLines(cat, lines, above, target, stock)
    requires x in DirectLines(lines) || x in ForToolsLines(lines)
    ensures x !in cat.recipes || CutShortLines(lines, above, target, x)
    decreases lines, 1
  {
    if x in DirectLines(lines[1..]) || x in ForToolsLines(lines[1..]) {
      MissingLinesHaveReason(cat, lines[1..], above, target, StockAfterLine(cat, lines[0], stock), x);
    } else {
      MissingLineHasReason(cat, lines[0], above, target, stock, x);
    }
  }

  lemma {:induction false} MissingLineHasReason(cat: Catalog, line: Line, above: set<Name>, target: Name, stock: Bag,
                                                x: Name)
    requires AccountedLine(cat, line, above, target, stock)
    requires x in DirectLine(line) || x in ForToolsLine(line)
    ensures x !in cat.recipes || CutShortLine(line, above, target, x)
    decreases line, 0
  {
    match line
    case Stopped(_) =>
    case Explored(status, sub) => MissingHasReason(cat, status.material, sub, above + {target}, stock, x);
  }

  // ---------------------------------------------------------------- can_craft_now

  lemma {:induction false} NoDemands(materials: seq<(Name, int)>)
    ensures Demands(materials, 0) == []
    decreases |materials|
  {
    if materials != [] { NoDemands(materials[1..]); }
  }

  lemma NothingToDo(cat: Catalog, name: Name, b: Budget, above: set<Name>, stock: Bag)
    requires Accounted(cat, name, b, above, stock)
    ensures b.missing == 0 <==> Direct(b) == multiset{} && PostOrder(name, b) == []
  {
    hide Demands, UsesStock;
    match b
    case Leaf(target, _, _, _, missing, _, _, _) =>
      assert Copies(target, missing)[target] == missing;
    case Craft(_, _, _, _, _, _, output, crafts, lines, _) =>
      NoDemands(cat.recipes[name].materials);
      assert crafts == 0 ==> lines == [];
  }

  lemma {:induction false} NothingMissingMeans(cat: Catalog, lines: seq<Line>, above: set<Name>, target: Name,
                                               stock: Bag)
    requires AccountedLines(cat, lines, above, target, stock)
    ensures NothingMissing(lines) <==> DirectLines(lines) == multiset{} && PostOrderLines(lines) == []
    decreases |lines|
  {
    if lines != [] {
      NothingMissingMeans(cat, lines[1..], above, target, StockAfterLine(cat, lines[0], stock));
      var line := lines[0];
      match line
      case Stopped(status) =>
        assert Copies(status.material, status.missing)[status.material] == status.missing;
        assert DirectLine(line) == Copies(status.material, status.missing);
      case Explored(status, sub) =>
        NothingToDo(cat, status.material, sub, above + {target}, stock);
      EmptySum(DirectLine(line), DirectLines(lines[1..]));
    }
  }

  lemma EmptySum(a: Bag, b: Bag)
    ensures a + b == multiset{} <==> a == multiset{} && b == multiset{}
  {
    forall x ensures a[x] <= (a + b)[x] && b[x] <= (a + b)[x] {}
    if a + b == multiset{} {
      assert forall x :: (a + b)[x] == 0;
      assert forall x :: a[x] == 0 && b[x] == 0;
    }
  }

  /** The root can be crafted now exactly when nothing has to be gathered or crafted for it. */
  lemma CanCraftNowMeans(cat: Catalog, name: Name, b: Budget, above: set<Name>, stock: Bag)
    requires Accounted(cat, name, b, above, stock) && b.Craft?
    ensures b.canCraftNow <==> Direct(b) == multiset{} && PostOrderLines(b.lines) == []
  {
    NothingMissingMeans(cat, b.lines, above, b.target, stock - Draw(Family(cat, b.target), b.desired, stock));
  }

  // ---------------------------------------------------------------- balance by item class

  /** A class of items, each named once, that every request is either for or not for. */
  ghost predicate Class(cat: Catalog, class_: seq<Name>) {
    && AllDifferent(class_)
    && (forall x, m | Satisfies(cat, x, m) :: x in class_ <==> m in class_)
  }

  /** What the crafts make of a class of items. */
  function Produced(cat: Catalog, class_: seq<Name>, jobs: seq<Job>): int {
    if jobs == [] then 0
    else
      var recipes, job := cat.recipes, jobs[0];
      (if job.name in recipes && recipes[job.name].item in class_ then
         Times(Max(recipes[job.name].outputCount, 1), job.crafts)
       else 0)
      + Produced(cat, class_, jobs[1..])
  }

  function Required(class_: seq<Name>, demands: seq<(Name, nat)>): nat {
    if demands == [] then 0 else (if demands[0].0 in class_ then demands[0].1 else 0) + Required(class_, demands[1..])
  }

  /** What the recipes of the crafts take of a class of items. */
  function Consumed(cat: Catalog, class_: seq<Name>, jobs: seq<Job>): nat {
    if jobs == [] then 0
    else
      (if jobs[0].name in cat.recipes then
         Required(class_, Demands(cat.recipes[jobs[0].name].materials, jobs[0].crafts))
       else 0)
      + Consumed(cat, class_, jobs[1..])
  }

  lemma {:induction false} SumCountsAdds(names: seq<Name>, a: Bag, b: Bag)
    ensures SumCounts(names, a + b) == SumCounts(names, a) + SumCounts(names, b)
  {
    if names != [] { SumCountsAdds(names[1..], a, b); }
  }

  lemma {:induction false} SumCountsNone(names: seq<Name>, bag: Bag)
    requires forall x | x in names :: x !in bag
    ensures SumCounts(names, bag) == 0
  {
    if names != [] { SumCountsNone(names[1..], bag); }
  }

  lemma {:induction false} SumCountsAll(names: seq<Name>, bag: Bag)
    requires AllDifferent(names)
    requires forall x | x in bag :: x in names
    ensures SumCounts(names, bag) == |bag|
  {
    if names != [] {
      var x, others := names[0], bag[names[0] := 0];
      assert bag == others + Copies(x, bag[x]);
      SumCountsAdds(names, others, Copies(x, bag[x]));
      SumCountsAll(names[1..], others);
      SumCountsNone(names[1..], Copies(x, bag[x]));
    }
  }

  /** What is handed over for a request counts towards the class of the request, in full. */
  lemma SuppliesCount(cat: Catalog, class_: seq<Name>, bag: Bag, name: Name, n: nat)
    requires Class(cat, class_) && Supplies(cat, bag, name, n)
    ensures SumCounts(class_, bag) == if name in class_ then n else 0
  {
    if name in class_ {
      SumCountsAll(class_, bag);
    } else {
      SumCountsNone(class_, bag);
    }
  }

  lemma {:induction false} InputsCount(cat: Catalog, class_: seq<Name>, bags: seq<Bag>, demands: seq<(Name, nat)>)
    requires Class(cat, class_) && Supplied(cat, bags, demands)
    ensures SumCounts(class_, Sum(bags)) == Required(class_, demands)
    decreases |demands|
  {
    hide Class, Supplies;
    if demands == [] {
      SumCountsNone(class_, multiset{});
    } else {
      SuppliesCount(cat, class_, bags[0], demands[0].0, demands[0].1);
      InputsCount(cat, class_, bags[1..], demands[1..]);
      SumCountsAdds(class_, bags[0], Sum(bags[1..]));
    }
  }

  /** One batch of crafts takes what its recipe demands and adds what its recipe yields. */
  lemma StepBalances(cat: Catalog, class_: seq<Name>, state: Bag, step: Step, job: Job)
    requires Class(cat, class_) && Performs(cat, step, job) && Sum(step.inputs) <= state
    ensures SumCounts(class_, state) + Produced(cat, class_, [job])
         == SumCounts(class_, state - Sum(step.inputs) + step.product) + Consumed(cat, class_, [job])
  {
    hide Class, Supplied, SumCounts, Demands, Required, Sum, Times, Copies;
    var recipe, inputs := cat.recipes[job.name], Sum(step.inputs);
    var made := Times(Max(recipe.outputCount, 1), job.crafts);
    InputsCount(cat, class_, step.inputs, Demands(recipe.materials, job.crafts));
    SumCountsAdds(class_, state - inputs, inputs);
    assert (state - inputs) + inputs == state;
    SumCountsAdds(class_, state - inputs, step.product);
    SupplyOfOne(cat, recipe.item, made);
    SuppliesCount(cat, class_, step.product, recipe.item, made);
  }

  lemma JobsApart(cat: Catalog, class_: seq<Name>, jobs: seq<Job>)
    requires jobs != []
    ensures Produced(cat, class_, jobs) == Produced(cat, class_, [jobs[0]]) + Produced(cat, class_, jobs[1..])
    ensures Consumed(cat, class_, jobs) == Consumed(cat, class_, [jobs[0]]) + Consumed(cat, class_, jobs[1..])
  {
    hide Times, Demands, Required;
    assert [jobs[0]][1..] == [];
  }

  lemma {:induction false} RunBalances(cat: Catalog, class_: seq<Name>, state: Bag, steps: seq<Step>, jobs: seq<Job>)
    requires Class(cat, class_) && PerformsAll(cat, steps, jobs) && Run(state, steps).Some?
    ensures SumCounts(class_, state) + Produced(cat, class_, jobs)
         == SumCounts(class_, Run(state, steps).value) + Consumed(cat, class_, jobs)
    decreases |jobs|
  {
    hide Class, Performs, SumCounts, Sum;
    if jobs != [] {
      StepBalances(cat, class_, state, steps[0], jobs[0]);
      JobsApart(cat, class_, jobs);
      RunBalances(cat, class_, state - Sum(steps[0].inputs) + steps[0].product, steps[1..], jobs[1..]);
    }
  }

  lemma SupplyOfOne(cat: Catalog, item: Name, n: nat)
    ensures Supplies(cat, Copies(item, n), item, n)
  {}

  /** Nothing appears or vanishes: for every class of items, the stock before, the direct missing
      materials and what the recipes yield over all crafts of the tree equal the stock after, what
      the caller gets, and what those recipes take. */
  lemma Balance(cat: Catalog, class_: seq<Name>, name: Name, desired: int, seen: set<Name>, stock: Bag)
    requires Sound(cat) && Class(cat, class_)
    ensures var a := Analyze(cat, name, desired, seen, stock);
      var jobs := PostOrder(name, a.budget);
      SumCounts(class_, stock) + SumCounts(class_, Direct(a.budget)) + Produced(cat, class_, jobs)
      == SumCounts(class_, a.stock) + (if name in class_ then Max(desired, 1) else 0) + Consumed(cat, class_, jobs)
  {
    hide Analyze, Direct, PostOrder, Run, PerformsAll, Supplies, SumCounts, Class, Produced, Consumed;
    var a := Analyze(cat, name, desired, seen, stock);
    var jobs := PostOrder(name, a.budget);
    PlanRuns(cat, name, desired, seen, stock, multiset{});
    PlanPerforms(cat, name, desired, seen, stock);
    RunBalances(cat, class_, stock + Direct(a.budget) + multiset{}, a.steps, jobs);
    SuppliesCount(cat, class_, a.delivered, name, Max(desired, 1));
    SumCountsAdds(class_, stock, Direct(a.budget));
    SumCountsAdds(class_, a.stock, a.delivered);
    assert stock + Direct(a.budget) + multiset{} == stock + Direct(a.budget);
    assert a.stock + a.delivered + multiset{} == a.stock + a.delivered;
  }
}
