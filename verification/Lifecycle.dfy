/**
 The validator of startup and shutdown plans.
 */
module Lifecycle {
  import opened Options

  datatype Phase = Startup | ShutdownPhase
  datatype Step = Step(name: string, phase: Phase, dependsOn: seq<string>)

  datatype Problem =
    | WrongPhase(step: string)
    | MissingDependency(step: string, dependency: string)
    | OrderedTooEarly(step: string, dependency: string)

  /** Where a name stands in the plan; of several steps with one name, the last counts. */
  function IndexOf(steps: seq<Step>, name: string): Option<nat> {
    if steps == [] then None
    else if steps[|steps| - 1].name == name then Some(|steps| - 1)
    else IndexOf(steps[..|steps| - 1], name)
  }

  ghost predicate InPhase(steps: seq<Step>, phase: Phase) {
    forall i | 0 <= i < |steps| :: steps[i].phase == phase
  }

  ghost predicate Before(steps: seq<Step>, dependency: string, name: string) {
    && IndexOf(steps, dependency).Some? && IndexOf(steps, name).Some?
    && IndexOf(steps, dependency).value < IndexOf(steps, name).value
  }

  ghost predicate Ordered(steps: seq<Step>) {
    forall i, d | 0 <= i < |steps| && d in steps[i].dependsOn :: Before(steps, d, steps[i].name)
  }

  ghost predicate UniqueNames(steps: seq<Step>) {
    forall i, j | 0 <= i < j < |steps| :: steps[i].name != steps[j].name
  }

  /** The textbook notion: every dependency is the name of a step further up. */
  ghost predicate Topological(steps: seq<Step>) {
    forall i, d | 0 <= i < |steps| && d in steps[i].dependsOn :: exists j :: 0 <= j < i && steps[j].name == d
  }

  lemma {:induction false} IndexIsLast(steps: seq<Step>, name: string)
    ensures match IndexOf(steps, name)
      case None => forall i | 0 <= i < |steps| :: steps[i].name != name
      case Some(k) => k < |steps| && steps[k].name == name && forall i | k < i < |steps| :: steps[i].name != name
    decreases |steps|
  {
    if steps != [] && steps[|steps| - 1].name != name {
      IndexIsLast(steps[..|steps| - 1], name);
    }
  }

  /** With distinct names, the order that is checked is the topological order. */
  lemma OrderedIsTopological(steps: seq<Step>)
    requires UniqueNames(steps)
    ensures Ordered(steps) <==> Topological(steps)
  {
    hide IndexOf;
    forall i, d | 0 <= i < |steps| && d in steps[i].dependsOn
      ensures Before(steps, d, steps[i].name) <==> exists j :: 0 <= j < i && steps[j].name == d
    {
      IndexIsLast(steps, d);
      IndexIsLast(steps, steps[i].name);
      assert IndexOf(steps, steps[i].name) == Some(i);
      if j :| 0 <= j < i && steps[j].name == d {
        assert IndexOf(steps, d) == Some(j);
      }
    }
  }

  ghost predicate DependsOn(steps: seq<Step>, name: string, dependency: string) {
    exists i :: 0 <= i < |steps| && steps[i].name == name && dependency in steps[i].dependsOn
  }

  ghost predicate DependencyChain(steps: seq<Step>, chain: seq<string>) {
    |chain| >= 2 && forall i | 0 < i < |chain| :: DependsOn(steps, chain[i - 1], chain[i])
  }

  lemma {:induction false} ChainDescends(steps: seq<Step>, chain: seq<string>)
    requires Ordered(steps) && DependencyChain(steps, chain)
    ensures Before(steps, chain[|chain| - 1], chain[0])
    decreases |chain|
  {
    hide IndexOf;
    assert DependsOn(steps, chain[0], chain[1]);
    if |chain| > 2 {
      assert forall i | 0 < i < |chain[1..]| :: DependsOn(steps, chain[i], chain[i + 1]);
      ChainDescends(steps, chain[1..]);
    }
  }

  /** An accepted plan has no cycle of dependencies, however long, even if names repeat. */
  lemma AcceptedPlansAreAcyclic(steps: seq<Step>, chain: seq<string>)
    requires Ordered(steps) && DependencyChain(steps, chain)
    ensures chain[0] != chain[|chain| - 1]
  {
    ChainDescends(steps, chain);
  }

  /** Every prefix of an accepted plan has all it depends on, directly or through other steps. */
  lemma {:induction false} PrefixesAreClosed(steps: seq<Step>, k: nat, chain: seq<string>)
    requires UniqueNames(steps) && Ordered(steps) && k <= |steps| && DependencyChain(steps, chain)
    requires exists i :: 0 <= i < k && steps[i].name == chain[0]
    ensures exists j :: 0 <= j < k && steps[j].name == chain[|chain| - 1]
  {
    ChainDescends(steps, chain);
    IndexIsLast(steps, chain[0]);
    IndexIsLast(steps, chain[|chain| - 1]);
  }

  /** Everything that is checked before dependency `k` of step `i` is in order. */
  ghost predicate OrderedUpTo(steps: seq<Step>, i: nat, k: nat)
    requires i < |steps| && k <= |steps[i].dependsOn|
  {
    && (forall j, d | 0 <= j < i && d in steps[j].dependsOn :: Before(steps, d, steps[j].name))
    && (forall d | d in steps[i].dependsOn[..k] :: Before(steps, d, steps[i].name))
  }

  /** The first dependency that is not in order is `d` of a step of this name. */
  ghost predicate FirstMisplaced(steps: seq<Step>, name: string, d: string) {
    exists i: nat, k: nat :: i < |steps| && k < |steps[i].dependsOn| && OrderedUpTo(steps, i, k)
        && steps[i].name == name && steps[i].dependsOn[k] == d
  }

  /** What a reported problem says about the plan is the case, and it is the first one in the order of the checks. */
  ghost predicate Genuine(steps: seq<Step>, phase: Phase, problem: Problem) {
    match problem
    case WrongPhase(name) =>
      exists i :: 0 <= i < |steps| && steps[i].name == name && steps[i].phase != phase && InPhase(steps[..i], phase)
    case MissingDependency(name, d) =>
      && InPhase(steps, phase) && FirstMisplaced(steps, name, d)
      && forall i | 0 <= i < |steps| :: steps[i].name != d
    case OrderedTooEarly(name, d) =>
      && InPhase(steps, phase) && FirstMisplaced(steps, name, d)
      && IndexOf(steps, d).Some? && !Before(steps, d, name)
  }

  /** Accepts exactly the plans whose steps are all in the phase and ordered after what they depend
      on; otherwise it names a step that is wrong, checking all phases before any order. */
  method AssertPhaseOrder(steps: seq<Step>, phase: Phase) returns (problem: Option<Problem>)
    ensures problem.None? <==> InPhase(steps, phase) && Ordered(steps)
    ensures problem.Some? ==> Genuine(steps, phase, problem.value)
  {
    var stepIndex: map<string, nat> := map[];
    for i := 0 to |steps|
      invariant forall j | 0 <= j < i :: steps[j].phase == phase
      invariant forall name :: IndexOf(steps[..i], name) == if name in stepIndex then Some(stepIndex[name]) else None
    {
      if steps[i].phase != phase {
        assert InPhase(steps[..i], phase);
        return Some(WrongPhase(steps[i].name));
      }
      assert steps[..i + 1][..i] == steps[..i];
      stepIndex := stepIndex[steps[i].name := i];
    }
    assert steps[..|steps|] == steps;
    hide IndexOf;
    for i := 0 to |steps|
      invariant forall j, d | 0 <= j < i && d in steps[j].dependsOn :: Before(steps, d, steps[j].name)
    {
      var step := steps[i];
      IndexIsLast(steps, step.name);
      for j := 0 to |step.dependsOn|
        invariant forall d | d in step.dependsOn[..j] :: Before(steps, d, step.name)
      {
        var dependency := step.dependsOn[j];
        assert steps[i].dependsOn[j] == dependency && dependency in steps[i].dependsOn;
        assert OrderedUpTo(steps, i, j) ==> FirstMisplaced(steps, step.name, dependency);
        IndexIsLast(steps, dependency);
        assert step.dependsOn[..j + 1] == step.dependsOn[..j] + [dependency];
        if dependency !in stepIndex {
          return Some(MissingDependency(step.name, dependency));
        }
        if stepIndex[dependency] >= stepIndex[step.name] {
          return Some(OrderedTooEarly(step.name, dependency));
        }
      }
      assert step.dependsOn[..|step.dependsOn|] == step.dependsOn;
    }
    problem := None;
  }

  method AssertPlan(startup: seq<Step>, shutdown: seq<Step>) returns (problem: Option<Problem>)
    ensures problem.None? <==>
            && InPhase(startup, Startup) && Ordered(startup)
            && InPhase(shutdown, ShutdownPhase) && Ordered(shutdown)
    ensures problem.Some? ==>
              || Genuine(startup, Startup, problem.value)
              || (InPhase(startup, Startup) && Ordered(startup) && Genuine(shutdown, ShutdownPhase, problem.value))
  {
    problem := AssertPhaseOrder(startup, Startup);
    if problem.None? {
      problem := AssertPhaseOrder(shutdown, ShutdownPhase);
    }
  }
}
