/**
 Which catalogs the crafting recursion is sound on, read off the recipes themselves: no way
 leads from a mined item through its tool back to the item, and no virtual name is made from
 virtual names in a circle. Any other cycle is allowed.
 */
module BudgetCycles {
  import opened Budget

  /** A budget for `n` may need one for `m`. */
  ghost predicate Edge(cat: Catalog, n: Name, m: Name) { TakesMaterial(cat, n, m) || TakesTool(cat, n, m) }

  ghost predicate Walk(cat: Catalog, walk: seq<Name>) {
    walk != [] && forall i, j | 0 <= i < j < |walk| && j == i + 1 :: Edge(cat, walk[i], walk[j])
  }

  /** No walk that starts with a step to a tool comes back to its start. */
  ghost predicate NoToolCycle(cat: Catalog) {
    forall walk | |walk| > 1 && Walk(cat, walk) && TakesTool(cat, walk[0], walk[1]) :: walk[|walk| - 1] != walk[0]
  }

  // ---------------------------------------------------------------- levels rule such cycles out

  lemma EdgeDescends(cat: Catalog, levels: Levels, n: Name, m: Name)
    requires Descends(cat, levels) && Edge(cat, n, m)
    ensures At(levels, m) <= At(levels, n) && (TakesTool(cat, n, m) ==> At(levels, m) < At(levels, n))
  {
    hide At;
    if TakesMaterial(cat, n, m) {
      var k :| 0 <= k < |cat.recipes[n].materials| && cat.recipes[n].materials[k].1 > 0
          && cat.recipes[n].materials[k].0 == m;
    }
  }

  lemma {:induction false} WalkDescends(cat: Catalog, levels: Levels, walk: seq<Name>)
    requires Descends(cat, levels) && Walk(cat, walk)
    ensures At(levels, walk[|walk| - 1]) <= At(levels, walk[0])
    decreases |walk|
  {
    hide At, Descends, Edge;
    if |walk| > 1 {
      assert Edge(cat, walk[0], walk[1]);
      EdgeDescends(cat, levels, walk[0], walk[1]);
      TailIsWalk(cat, walk);
      WalkDescends(cat, levels, walk[1..]);
    }
  }

  lemma TailIsWalk(cat: Catalog, walk: seq<Name>)
    requires Walk(cat, walk) && |walk| > 1
    ensures Walk(cat, walk[1..])
  {
    hide Edge;
    var tail := walk[1..];
    forall i, j | 0 <= i < j < |tail| && j == i + 1 ensures Edge(cat, tail[i], tail[j]) {
      assert Edge(cat, walk[i + 1], walk[j + 1]);
    }
  }

  lemma LevelsLeaveNoCycle(cat: Catalog, levels: Levels)
    requires Descends(cat, levels)
    ensures NoToolCycle(cat)
  {
    hide At, Descends, Edge, TakesTool;
    forall walk | |walk| > 1 && Walk(cat, walk) && TakesTool(cat, walk[0], walk[1])
      ensures walk[|walk| - 1] != walk[0]
    {
      assert Edge(cat, walk[0], walk[1]);
      EdgeDescends(cat, levels, walk[0], walk[1]);
      TailIsWalk(cat, walk);
      WalkDescends(cat, levels, walk[1..]);
    }
  }

  // ---------------------------------------------------------------- without such cycles there are levels

  ghost function Score(cat: Catalog, walk: seq<Name>): nat {
    if |walk| <= 1 then 0 else (if TakesTool(cat, walk[0], walk[1]) then 1 else 0) + Score(cat, walk[1..])
  }

  ghost predicate Scores(cat: Catalog, n: Name, score: nat) {
    exists walk :: walk != [] && Walk(cat, walk) && walk[0] == n && Score(cat, walk) == score
  }

  ghost predicate LeavesByTool(cat: Catalog, walk: seq<Name>, x: Name) {
    exists i, j :: 0 <= i < j < |walk| && j == i + 1 && walk[i] == x && TakesTool(cat, walk[i], walk[j])
  }

  function Sources(cat: Catalog): set<Name> { cat.recipes.Keys + cat.tools.Keys }

  /** The names that a walk leaves by a tool step are all different. */
  lemma {:induction false} Leaves(cat: Catalog, walk: seq<Name>) returns (left: set<Name>)
    requires NoToolCycle(cat) && Walk(cat, walk)
    ensures |left| == Score(cat, walk) && left <= Sources(cat)
    ensures forall x | x in left :: LeavesByTool(cat, walk, x)
    decreases |walk|
  {
    hide Edge, TakesTool, NoToolCycle, Walk;
    left := {};
    if |walk| > 1 {
      TailIsWalk(cat, walk);
      left := Leaves(cat, walk[1..]);
      forall x | x in left ensures LeavesByTool(cat, walk, x) { LeavesLater(cat, walk, x); }
      if TakesTool(cat, walk[0], walk[1]) {
        FirstIsNew(cat, walk);
        IsSource(cat, walk[0], walk[1]);
        assert LeavesByTool(cat, walk, walk[0]);
        left := left + {walk[0]};
      }
    }
  }

  lemma IsSource(cat: Catalog, n: Name, m: Name)
    requires TakesTool(cat, n, m)
    ensures n in Sources(cat) && Edge(cat, n, m)
  {}

  lemma LeavesLater(cat: Catalog, walk: seq<Name>, x: Name)
    requires |walk| > 1 && LeavesByTool(cat, walk[1..], x)
    ensures LeavesByTool(cat, walk, x)
  {
    hide TakesTool;
    var tail := walk[1..];
    var i, j :| 0 <= i < j < |tail| && j == i + 1 && tail[i] == x && TakesTool(cat, tail[i], tail[j]);
    assert walk[i + 1] == tail[i] && walk[j + 1] == tail[j];
  }

  lemma PrefixIsWalk(cat: Catalog, walk: seq<Name>, last: nat)
    requires Walk(cat, walk) && last < |walk|
    ensures Walk(cat, walk[..last + 1])
    ensures last > 0 ==> walk[..last + 1][0] == walk[0] && walk[..last + 1][1] == walk[1]
    ensures last > 0 ==> walk[..last + 1][last] == walk[last]
  {
    hide Edge;
    var front := walk[..last + 1];
    forall i, j | 0 <= i < j < |front| && j == i + 1 ensures Edge(cat, front[i], front[j]) {
      assert Edge(cat, walk[i], walk[j]);
    }
  }

  lemma FirstIsNew(cat: Catalog, walk: seq<Name>)
    requires NoToolCycle(cat) && |walk| > 1 && Walk(cat, walk) && TakesTool(cat, walk[0], walk[1])
    ensures !LeavesByTool(cat, walk[1..], walk[0])
  {
    hide TakesTool, Edge;
    var tail := walk[1..];
    if LeavesByTool(cat, tail, walk[0]) {
      var i, j :| 0 <= i < j < |tail| && j == i + 1 && tail[i] == walk[0] && TakesTool(cat, tail[i], tail[j]);
      PrefixIsWalk(cat, walk, i + 1);
    }
  }

  lemma {:induction false} SizeOfPart(a: set<Name>, b: set<Name>)
    requires a <= b
    ensures |a| <= |b|
  {
    if x :| x in a {
      SizeOfPart(a - {x}, b - {x});
    }
  }

  lemma ScoresAreBounded(cat: Catalog, n: Name, score: nat)
    requires NoToolCycle(cat) && Scores(cat, n, score)
    ensures score <= |Sources(cat)|
  {
    hide NoToolCycle, Walk, Score;
    var walk :| walk != [] && Walk(cat, walk) && walk[0] == n && Score(cat, walk) == score;
    var left := Leaves(cat, walk);
    SizeOfPart(left, Sources(cat));
  }

  /** The highest score up to `top` of a walk from `n`. */
  ghost function Best(cat: Catalog, n: Name, top: nat): (best: nat)
    ensures best <= top && (best > 0 ==> Scores(cat, n, best))
    ensures forall score | best < score <= top :: !Scores(cat, n, score)
  {
    if top == 0 || Scores(cat, n, top) then top else Best(cat, n, top - 1)
  }

  ghost function BestLevels(cat: Catalog): Levels {
    map n | n in Sources(cat) :: Best(cat, n, |Sources(cat)|)
  }

  lemma StepScores(cat: Catalog, n: Name, m: Name, score: nat)
    requires Edge(cat, n, m) && Scores(cat, m, score)
    ensures Scores(cat, n, score + if TakesTool(cat, n, m) then 1 else 0)
  {
    hide Edge, TakesTool;
    var walk :| walk != [] && Walk(cat, walk) && walk[0] == m && Score(cat, walk) == score;
    var longer := [n] + walk;
    assert longer[1..] == walk;
    forall i, j | 0 <= i < j < |longer| && j == i + 1 ensures Edge(cat, longer[i], longer[j]) {
      if i > 0 {
        assert longer[i] == walk[i - 1] && longer[j] == walk[j - 1];
      }
    }
    assert Walk(cat, longer);
    assert longer[1] == m && Score(cat, longer) == score + if TakesTool(cat, n, m) then 1 else 0;
  }

  lemma StandingScores(cat: Catalog, n: Name)
    ensures Scores(cat, n, 0)
  {
    assert Walk(cat, [n]) && Score(cat, [n]) == 0;
  }

  lemma BestIsScored(cat: Catalog, n: Name)
    ensures Scores(cat, n, At(BestLevels(cat), n))
  {
    hide Scores, Best;
    StandingScores(cat, n);
  }

  lemma BestIsHighest(cat: Catalog, n: Name, score: nat)
    requires NoToolCycle(cat) && n in Sources(cat) && Scores(cat, n, score)
    ensures score <= At(BestLevels(cat), n)
  {
    hide Scores, Best, NoToolCycle;
    ScoresAreBounded(cat, n, score);
  }

  lemma BestDescends(cat: Catalog, n: Name, m: Name)
    requires NoToolCycle(cat) && Edge(cat, n, m) && n in Sources(cat)
    ensures At(BestLevels(cat), m) + (if TakesTool(cat, n, m) then 1 else 0) <= At(BestLevels(cat), n)
  {
    hide *;
    BestIsScored(cat, m);
    StepScores(cat, n, m, At(BestLevels(cat), m));
    BestIsHighest(cat, n, At(BestLevels(cat), m) + if TakesTool(cat, n, m) then 1 else 0);
  }

  lemma NoCycleGivesLevels(cat: Catalog)
    requires NoToolCycle(cat)
    ensures Descends(cat, BestLevels(cat))
  {
    hide NoToolCycle, At, BestLevels;
    forall n, k | n in cat.recipes && 0 <= k < |cat.recipes[n].materials| && cat.recipes[n].materials[k].1 > 0
      ensures At(BestLevels(cat), cat.recipes[n].materials[k].0) <= At(BestLevels(cat), n)
    {
      var m := cat.recipes[n].materials[k].0;
      assert TakesMaterial(cat, n, m);
      BestDescends(cat, n, m);
    }
    forall n | n in cat.tools && n !in cat.recipes ensures At(BestLevels(cat), cat.tools[n]) < At(BestLevels(cat), n) {
      assert TakesTool(cat, n, cat.tools[n]);
      BestDescends(cat, n, cat.tools[n]);
    }
  }

  /** The recursion's hypothesis in terms of the recipes and tools alone. */
  lemma SoundIff(cat: Catalog)
    ensures Sound(cat) <==> Canonical(cat) && AliasesApart(cat) && NoToolCycle(cat)
  {
    hide NoToolCycle, Descends, Canonical, BestLevels, AliasesApart;
    if Sound(cat) {
      var levels :| Descends(cat, levels);
      LevelsLeaveNoCycle(cat, levels);
    }
    if Canonical(cat) && AliasesApart(cat) && NoToolCycle(cat) {
      NoCycleGivesLevels(cat);
    }
  }

  ghost predicate Reaches(cat: Catalog, n: Name, m: Name) {
    exists walk :: Walk(cat, walk) && walk[0] == n && walk[|walk| - 1] == m
  }

  lemma WalkReaches(cat: Catalog, walk: seq<Name>)
    requires |walk| > 1 && Walk(cat, walk)
    ensures Reaches(cat, walk[1], walk[|walk| - 1])
  {
    hide Edge;
    TailIsWalk(cat, walk);
    assert walk[1..][0] == walk[1];
  }

  /** Planks from slabs and slabs from planks, a metal and its block, or a tool made from what other
      tools are made from, are no obstacle: only what a tool is made from must not be mined with it. */
  lemma GuardedCyclesAreSound(cat: Catalog)
    requires Canonical(cat) && AliasesApart(cat)
    requires forall n | n in cat.tools && n !in cat.recipes :: !Reaches(cat, cat.tools[n], n)
    ensures Sound(cat)
  {
    SoundIff(cat);
    hide Canonical, AliasesApart, Edge;
    forall walk | |walk| > 1 && Walk(cat, walk) && TakesTool(cat, walk[0], walk[1])
      ensures walk[|walk| - 1] != walk[0]
    {
      WalkReaches(cat, walk);
    }
  }
}
