/**
 The inventory-diff cache: a baseline per bot, advanced after a prompt has been rendered.
 */
module InventoryDiff {
  import opened Options
  import opened Sorting

  /** A stack of items; a snapshot holds one entry per item, in first-seen order. */
  datatype Stack = Stack(name: string, count: int)

  type Snapshot = seq<Stack>

  function Amount(stacks: seq<Stack>, name: string): int {
    if stacks == [] then 0 else if stacks[0].name == name then stacks[0].count else Amount(stacks[1..], name)
  }

  function Sum(stacks: seq<Stack>, name: string): int {
    if stacks == [] then 0
    else Sum(stacks[..|stacks| - 1], name) + if stacks[|stacks| - 1].name == name then stacks[|stacks| - 1].count else 0
  }

  /** Adds a stack to the entry of its item, which is created at the end when it is new. */
  function Add(counts: Snapshot, stack: Stack): Snapshot {
    if counts == [] then [stack]
    else if counts[0].name == stack.name then [Stack(stack.name, counts[0].count + stack.count)] + counts[1..]
    else [counts[0]] + Add(counts[1..], stack)
  }

  function Counts(stacks: seq<Stack>): Snapshot {
    if stacks == [] then [] else Add(Counts(stacks[..|stacks| - 1]), stacks[|stacks| - 1])
  }

  method CreateInventoryCountMap(stacks: seq<Stack>) returns (counts: Snapshot)
    ensures counts == Counts(stacks)
  {
    hide Add;
    counts := [];
    for i := 0 to |stacks|
      invariant counts == Counts(stacks[..i])
    {
      assert stacks[..i + 1][..i] == stacks[..i];
      counts := Add(counts, stacks[i]);
    }
    assert stacks[..|stacks|] == stacks;
  }

  lemma {:induction false} AmountAfterAdd(counts: Snapshot, stack: Stack, name: string)
    ensures Amount(Add(counts, stack), name) == Amount(counts, name) + if stack.name == name then stack.count else 0
    decreases |counts|
  {
    if counts != [] { AmountAfterAdd(counts[1..], stack, name); }
  }

  /** A snapshot holds, for every item, the sum over its stacks. */
  lemma {:induction false} CountsAreSums(stacks: seq<Stack>, name: string)
    ensures Amount(Counts(stacks), name) == Sum(stacks, name)
    decreases |stacks|
  {
    if stacks != [] {
      hide Amount, Add;
      CountsAreSums(stacks[..|stacks| - 1], name);
      AmountAfterAdd(Counts(stacks[..|stacks| - 1]), stacks[|stacks| - 1], name);
    }
  }

  // ---------------------------------------------------------------- one diff

  function Names(stacks: seq<Stack>): seq<string> {
    if stacks == [] then [] else [stacks[0].name] + Names(stacks[1..])
  }

  function Changes(baseline: Snapshot, current: Snapshot, names: seq<string>): seq<Stack> {
    if names == [] then []
    else
      var delta := Amount(current, names[0]) - Amount(baseline, names[0]);
      (if delta != 0 then [Stack(names[0], delta)] else []) + Changes(baseline, current, names[1..])
  }

  /** The entries of a diff: no entry for an item that did not change. */
  function Diff(baseline: Snapshot, current: Snapshot): seq<Stack> {
    Changes(baseline, current, Deduped(Names(baseline) + Names(current)))
  }

  lemma {:induction false} AbsentAmount(stacks: seq<Stack>, name: string)
    ensures name !in Names(stacks) ==> Amount(stacks, name) == 0
    decreases |stacks|
  {
    if stacks != [] {
      AbsentAmount(stacks[1..], name);
      assert Names(stacks) == [stacks[0].name] + Names(stacks[1..]);
    }
  }

  lemma {:induction false} ChangesHold(baseline: Snapshot, current: Snapshot, names: seq<string>, entry: Stack)
    ensures entry in Changes(baseline, current, names)
       <==> && entry.name in names && entry.count != 0
            && entry.count == Amount(current, entry.name) - Amount(baseline, entry.name)
    decreases |names|
  {
    hide Amount;
    if names != [] {
      ChangesHold(baseline, current, names[1..], entry);
      var rest := Changes(baseline, current, names[1..]);
      var delta := Amount(current, names[0]) - Amount(baseline, names[0]);
      assert Changes(baseline, current, names) == (if delta != 0 then [Stack(names[0], delta)] else []) + rest;
      assert names == [names[0]] + names[1..];
    }
  }

  lemma {:induction false} ChangesAmount(baseline: Snapshot, current: Snapshot, names: seq<string>, name: string)
    ensures Amount(Changes(baseline, current, names), name)
         == if name in names then Amount(current, name) - Amount(baseline, name) else 0
    decreases |names|
  {
    if names != [] {
      ChangesAmount(baseline, current, names[1..], name);
      var rest := Changes(baseline, current, names[1..]);
      var delta := Amount(current, names[0]) - Amount(baseline, names[0]);
      assert ([Stack(names[0], delta)] + rest)[1..] == rest;
      assert [] + rest == rest;
    }
  }

  lemma ListedOrZero(baseline: Snapshot, current: Snapshot, name: string)
    ensures name in Deduped(Names(baseline) + Names(current))
            || (Amount(baseline, name) == 0 && Amount(current, name) == 0)
  {
    DedupedKeeps(Names(baseline) + Names(current), name);
    AbsentAmount(baseline, name);
    AbsentAmount(current, name);
  }

  /** The diff lists exactly the items whose amount changed, with the change. */
  lemma DiffIsExact(baseline: Snapshot, current: Snapshot, entry: Stack)
    ensures entry in Diff(baseline, current)
       <==> entry.count != 0 && entry.count == Amount(current, entry.name) - Amount(baseline, entry.name)
  {
    hide Changes, Deduped, Amount, Names;
    ChangesHold(baseline, current, Deduped(Names(baseline) + Names(current)), entry);
    ListedOrZero(baseline, current, entry.name);
  }

  lemma {:induction false} NamesAt(stacks: seq<Stack>)
    ensures |Names(stacks)| == |stacks| && forall i | 0 <= i < |stacks| :: Names(stacks)[i] == stacks[i].name
    decreases |stacks|
  {
    if stacks != [] { NamesAt(stacks[1..]); }
  }

  lemma {:induction false} NamesAfterAdd(counts: Snapshot, stack: Stack)
    ensures Names(Add(counts, stack))
         == if stack.name in Names(counts) then Names(counts) else Names(counts) + [stack.name]
    decreases |counts|
  {
    if counts != [] {
      NamesAfterAdd(counts[1..], stack);
      assert Names(counts) == [counts[0].name] + Names(counts[1..]);
      assert Add(counts, stack)[1..] == if counts[0].name == stack.name then counts[1..] else Add(counts[1..], stack);
    }
  }

  /** A snapshot has one entry for each item, in the order in which the items are first seen. */
  lemma {:induction false} CountsInOrder(stacks: seq<Stack>)
    ensures Names(Counts(stacks)) == Deduped(Names(stacks))
    decreases |stacks|
  {
    hide Names, Add;
    NamesAt(stacks);
    NoNames();
    if stacks != [] {
      var front, last := stacks[..|stacks| - 1], stacks[|stacks| - 1];
      NamesAt(front);
      CountsInOrder(front);
      NamesAfterAdd(Counts(front), last);
      assert Names(stacks)[..|stacks| - 1] == Names(front);
    }
  }

  lemma NoNames()
    ensures Names([]) == []
  {}

  lemma {:induction false} ChangeAt(baseline: Snapshot, current: Snapshot, names: seq<string>, i: nat)
    returns (place: nat)
    requires i < |Changes(baseline, current, names)|
    ensures place < |names| && names[place] == Changes(baseline, current, names)[i].name
    decreases |names|
  {
    hide Amount;
    var first := Amount(current, names[0]) != Amount(baseline, names[0]);
    if first && i == 0 {
      return 0;
    }
    var below := ChangeAt(baseline, current, names[1..], if first then i - 1 else i);
    place := below + 1;
  }

  lemma {:induction false} ChangesInOrder(baseline: Snapshot, current: Snapshot, names: seq<string>, i: nat, j: nat)
    returns (k: nat, l: nat)
    requires i < j < |Changes(baseline, current, names)|
    ensures k < l < |names| && names[k] == Changes(baseline, current, names)[i].name
    ensures names[l] == Changes(baseline, current, names)[j].name
    decreases |names|
  {
    hide Amount;
    var first := Amount(current, names[0]) != Amount(baseline, names[0]);
    if first && i == 0 {
      var below := ChangeAt(baseline, current, names[1..], j - 1);
      k, l := 0, below + 1;
    } else {
      k, l := ChangesInOrder(baseline, current, names[1..], if first then i - 1 else i, if first then j - 1 else j);
      k, l := k + 1, l + 1;
    }
  }

  /** An item is listed once, and the items come in the order of the baseline, then of what is new. */
  lemma DiffInOrder(baseline: Snapshot, current: Snapshot, i: nat, j: nat)
    requires i < j < |Diff(baseline, current)|
    ensures var names, diff := Names(baseline) + Names(current), Diff(baseline, current);
      && diff[i].name in names && diff[j].name in names && diff[i].name != diff[j].name
      && FirstPlace(names, diff[i].name) < FirstPlace(names, diff[j].name)
  {
    hide Changes, Deduped, Amount, Names, FirstPlace;
    var names := Names(baseline) + Names(current);
    var k, l := ChangesInOrder(baseline, current, Deduped(names), i, j);
    DedupedInOrder(names, k, l);
  }

  /** A baseline and the diff against it add up to the current amounts. */
  lemma DiffCompletes(baseline: Snapshot, current: Snapshot, name: string)
    ensures Amount(baseline, name) + Amount(Diff(baseline, current), name) == Amount(current, name)
  {
    hide Changes, Deduped, Amount, Names;
    ChangesAmount(baseline, current, Deduped(Names(baseline) + Names(current)), name);
    ListedOrZero(baseline, current, name);
  }

  /** The line is left out exactly when nothing changed. */
  lemma NoLineIff(baseline: Snapshot, current: Snapshot)
    ensures Diff(baseline, current) == [] <==> forall name :: Amount(baseline, name) == Amount(current, name)
  {
    hide Diff, Amount;
    if Diff(baseline, current) == [] {
      forall name ensures Amount(baseline, name) == Amount(current, name) {
        DiffIsExact(baseline, current, Stack(name, Amount(current, name) - Amount(baseline, name)));
      }
    } else {
      DiffIsExact(baseline, current, Diff(baseline, current)[0]);
    }
  }

  // ---------------------------------------------------------------- runs

  datatype Context = Context(botId: string, snapshot: Snapshot, change: Option<seq<Stack>>)

  /** The contexts handed out so far, and which of them have been advanced. */
  datatype State = State(baselines: map<string, Snapshot>, contexts: seq<Context>, advanced: set<nat>)

  datatype Action = Prepare(botId: string, inventory: seq<Stack>) | Advance(context: nat)

  function Apply(state: State, action: Action): State {
    match action
    case Prepare(botId, inventory) =>
      var current := Counts(inventory);
      var change := if botId in state.baselines then Some(Diff(state.baselines[botId], current)) else None;
      state.(contexts := state.contexts + [Context(botId, current, change)])
    case Advance(k) =>
      if k in state.advanced || k >= |state.contexts| then state
      else
        var context := state.contexts[k];
        state.(advanced := state.advanced + {k}, baselines := state.baselines[context.botId := context.snapshot])
  }

  function After(actions: seq<Action>): State {
    if actions == [] then State(map[], [], {}) else Apply(After(actions[..|actions| - 1]), actions[|actions| - 1])
  }

  /** All contexts of the bot have been advanced. */
  ghost predicate Settled(state: State, botId: string) {
    forall k: nat | k < |state.contexts| && state.contexts[k].botId == botId :: k in state.advanced
  }

  /** A context is prepared for this bot only when the one before it has been advanced. The other
      bots may do as they like. */
  ghost predicate InTurn(actions: seq<Action>, botId: string) {
    actions == [] ||
    (var front, last := actions[..|actions| - 1], actions[|actions| - 1];
     InTurn(front, botId) && (last.Prepare? && last.botId == botId ==> Settled(After(front), botId)))
  }

  /** The contexts of one bot, in order. */
  function Of(contexts: seq<Context>, botId: string): seq<Context> {
    if contexts == [] then []
    else Of(contexts[..|contexts| - 1], botId)
         + if contexts[|contexts| - 1].botId == botId then [contexts[|contexts| - 1]] else []
  }

  function Reported(contexts: seq<Context>, name: string): int {
    if contexts == [] then 0
    else
      var last := contexts[|contexts| - 1];
      Reported(contexts[..|contexts| - 1], name) + if last.change.Some? then Amount(last.change.value, name) else 0
  }

  /** Only the newest context of the bot can be open; once it is not, it is the baseline. */
  ghost predicate InStep(state: State, botId: string) {
    var own := Of(state.contexts, botId);
    && (forall k | k in state.advanced :: k < |state.contexts|)
    && (own == [] ==> botId !in state.baselines)
    && (forall k: nat | k < |state.contexts| && state.contexts[k].botId == botId && k !in state.advanced ::
          Of(state.contexts[k + 1..], botId) == [])
    && (Settled(state, botId) && own != [] ==>
          botId in state.baselines && state.baselines[botId] == own[|own| - 1].snapshot)
  }

  /** How far the amounts moved from the first context to the last. */
  function Moved(contexts: seq<Context>, name: string): int {
    if contexts == [] then 0
    else Amount(contexts[|contexts| - 1].snapshot, name) - Amount(contexts[0].snapshot, name)
  }

  ghost predicate Telescoped(contexts: seq<Context>, name: string) {
    Reported(contexts, name) == Moved(contexts, name)
  }

  lemma {:induction false} OfConcat(a: seq<Context>, b: seq<Context>, botId: string)
    ensures Of(a + b, botId) == Of(a, botId) + Of(b, botId)
    decreases |b|
  {
    if b == [] {
      assert a + b == a;
    } else {
      OfConcat(a, b[..|b| - 1], botId);
      assert (a + b)[..|a + b| - 1] == a + b[..|b| - 1];
    }
  }

  lemma OfOne(context: Context, botId: string)
    ensures Of([context], botId) == if context.botId == botId then [context] else []
  {
    assert [context][..0] == [];
    assert Of([], botId) == [];
  }

  lemma OpenStaysNewest(state: State, botId: string, context: Context, k: nat)
    requires InStep(state, botId)
    requires context.botId == botId ==> Settled(state, botId)
    requires k <= |state.contexts| && k !in state.advanced
    requires (state.contexts + [context])[k].botId == botId
    ensures Of((state.contexts + [context])[k + 1..], botId) == []
  {
    hide Of;
    var n := |state.contexts|;
    if k < n {
      assert Of(state.contexts[k + 1..], botId) == [];
      assert (state.contexts + [context])[k + 1..] == state.contexts[k + 1..] + [context];
      OfConcat(state.contexts[k + 1..], [context], botId);
      OfOne(context, botId);
    } else {
      OfNothing((state.contexts + [context])[n + 1..], botId);
    }
  }

  lemma SettledAgain(state: State, after: State, botId: string)
    requires InStep(state, botId) && after.advanced == state.advanced && Settled(after, botId)
    requires |after.contexts| == |state.contexts| + 1 && after.contexts[..|state.contexts|] == state.contexts
    ensures Settled(state, botId) && after.contexts[|state.contexts|].botId != botId
  {
    hide Of;
    forall k: nat | k < |state.contexts| && state.contexts[k].botId == botId ensures k in state.advanced {
      assert after.contexts[k] == after.contexts[..|state.contexts|][k];
    }
  }

  lemma PrepareStaysInStep(state: State, botId: string, prepare: Action)
    requires prepare.Prepare? && InStep(state, botId)
    requires prepare.botId == botId ==> Settled(state, botId)
    ensures InStep(Apply(state, prepare), botId)
  {
    hide Of, Diff, Counts, Settled;
    var after := Apply(state, prepare);
    var context := after.contexts[|state.contexts|];
    assert after.contexts == state.contexts + [context];
    OfConcat(state.contexts, [context], botId);
    OfOne(context, botId);
    forall k: nat | k < |after.contexts| && after.contexts[k].botId == botId && k !in after.advanced
      ensures Of(after.contexts[k + 1..], botId) == []
    {
      OpenStaysNewest(state, botId, context, k);
    }
    if Settled(after, botId) {
      SettledAgain(state, after, botId);
    }
  }

  lemma OfNothing(contexts: seq<Context>, botId: string)
    requires contexts == []
    ensures Of(contexts, botId) == []
  {
  }

  lemma OfAt(contexts: seq<Context>, k: nat, botId: string)
    requires k < |contexts|
    ensures Of(contexts, botId)
         == Of(contexts[..k], botId) + (if contexts[k].botId == botId then [contexts[k]] else [])
             + Of(contexts[k + 1..], botId)
  {
    hide Of;
    assert contexts == (contexts[..k] + [contexts[k]]) + contexts[k + 1..];
    OfConcat(contexts[..k] + [contexts[k]], contexts[k + 1..], botId);
    OfConcat(contexts[..k], [contexts[k]], botId);
    OfOne(contexts[k], botId);
  }

  lemma AdvanceStaysInStep(state: State, botId: string, k: nat)
    requires InStep(state, botId)
    ensures InStep(Apply(state, Advance(k)), botId)
  {
    hide Of;
    if k < |state.contexts| && k !in state.advanced {
      var after := Apply(state, Advance(k));
      OfAt(state.contexts, k, botId);
      if state.contexts[k].botId == botId {
        assert Of(state.contexts[k + 1..], botId) == [];
      } else if Settled(after, botId) {
        assert Settled(state, botId);
      }
    }
  }

  lemma PrepareTelescopes(state: State, prepare: Action, name: string)
    requires prepare.Prepare? && InStep(state, prepare.botId) && Settled(state, prepare.botId)
    requires Telescoped(Of(state.contexts, prepare.botId), name)
    ensures Telescoped(Of(Apply(state, prepare).contexts, prepare.botId), name)
  {
    hide Of, Diff, Counts, Amount, Reported;
    var context := Apply(state, prepare).contexts[|state.contexts|];
    var own := Of(state.contexts, prepare.botId);
    OfConcat(state.contexts, [context], prepare.botId);
    OfOne(context, prepare.botId);
    ReportedAppend(own, context, name);
    if own != [] {
      DiffCompletes(own[|own| - 1].snapshot, context.snapshot, name);
    }
  }

  lemma ReportedAppend(contexts: seq<Context>, context: Context, name: string)
    ensures Reported(contexts + [context], name)
         == Reported(contexts, name) + if context.change.Some? then Amount(context.change.value, name) else 0
    ensures contexts == [] ==> Reported(contexts, name) == 0
  {
    assert (contexts + [context])[..|contexts|] == contexts;
  }

  /** In any run in which this bot's contexts are advanced in turn, whatever the other bots do, the
      deltas reported for an item add up to the difference between its last and first amounts. */
  lemma {:induction false} ReportsTelescope(actions: seq<Action>, botId: string, name: string)
    requires InTurn(actions, botId)
    ensures InStep(After(actions), botId) && Telescoped(Of(After(actions).contexts, botId), name)
    decreases |actions|
  {
    if actions != [] {
      var front, last := actions[..|actions| - 1], actions[|actions| - 1];
      var before := After(front);
      ReportsTelescope(front, botId, name);
      match last {
        case Advance(k) =>
          AdvanceStaysInStep(before, botId, k);
        case Prepare(other, inventory) =>
          PrepareStaysInStep(before, botId, last);
          if other == botId {
            PrepareTelescopes(before, last, name);
          } else {
            OtherPrepares(before, botId, last);
          }
      }
    }
  }

  lemma OtherPrepares(state: State, botId: string, prepare: Action)
    requires prepare.Prepare? && prepare.botId != botId
    ensures Of(Apply(state, prepare).contexts, botId) == Of(state.contexts, botId)
  {
    hide Of, Diff, Counts;
    var context := Apply(state, prepare).contexts[|state.contexts|];
    OfConcat(state.contexts, [context], botId);
    OfOne(context, botId);
  }

  // ---------------------------------------------------------------- runs in any order

  /** What a report about an item misses, or counts again, when a context is prepared: the way from the
      context before it to the baseline it is compared with. Without a baseline nothing is reported. */
  function Missed(state: State, botId: string, current: Snapshot, name: string): int {
    var own := Of(state.contexts, botId);
    if own == [] then 0
    else (if botId in state.baselines then Amount(state.baselines[botId], name) else Amount(current, name))
         - Amount(own[|own| - 1].snapshot, name)
  }

  function MissedInAll(actions: seq<Action>, botId: string, name: string): int {
    if actions == [] then 0
    else
      var front, last := actions[..|actions| - 1], actions[|actions| - 1];
      MissedInAll(front, botId, name)
      + if last.Prepare? && last.botId == botId then Missed(After(front), botId, Counts(last.inventory), name) else 0
  }

  /** Nobody has a baseline before a context. */
  ghost predicate Grounded(state: State, botId: string) {
    Of(state.contexts, botId) == [] ==> botId !in state.baselines
  }

  lemma {:induction false} StaysGrounded(actions: seq<Action>, botId: string)
    ensures Grounded(After(actions), botId)
    decreases |actions|
  {
    hide Of;
    NoContexts(botId);
    if actions != [] {
      var front, last := actions[..|actions| - 1], actions[|actions| - 1];
      StaysGrounded(front, botId);
      var before := After(front);
      match last {
        case Prepare(other, inventory) =>
          var context := Apply(before, last).contexts[|before.contexts|];
          OfConcat(before.contexts, [context], botId);
        case Advance(k) =>
          if k < |before.contexts| {
            OfAt(before.contexts, k, botId);
          }
      }
    }
  }

  lemma NoContexts(botId: string)
    ensures Of([], botId) == [] && After([]) == State(map[], [], {})
  {}

  lemma PrepareFallsShort(state: State, prepare: Action, name: string)
    requires prepare.Prepare? && Grounded(state, prepare.botId)
    ensures var own, more := Of(state.contexts, prepare.botId), Of(Apply(state, prepare).contexts, prepare.botId);
      Reported(more, name) - Reported(own, name)
      == Moved(more, name) - Moved(own, name) - Missed(state, prepare.botId, Counts(prepare.inventory), name)
  {
    hide Of, Diff, Counts, Amount, Reported;
    var context := Apply(state, prepare).contexts[|state.contexts|];
    var own := Of(state.contexts, prepare.botId);
    OfConcat(state.contexts, [context], prepare.botId);
    OfOne(context, prepare.botId);
    ReportedAppend(own, context, name);
    if prepare.botId in state.baselines {
      DiffCompletes(state.baselines[prepare.botId], context.snapshot, name);
    }
  }

  /** In every run, in whatever order contexts are prepared and advanced: the reported deltas fall short
      of the whole movement by exactly what was missed. */
  lemma {:induction false} ReportsFallShortBy(actions: seq<Action>, botId: string, name: string)
    ensures var own := Of(After(actions).contexts, botId);
      Reported(own, name) == Moved(own, name) - MissedInAll(actions, botId, name)
    decreases |actions|
  {
    hide Of, Amount, Counts, Missed, Apply, Moved, Reported;
    if actions == [] {
      NoContexts(botId);
      NothingMoved(name);
    } else {
      var front, last := actions[..|actions| - 1], actions[|actions| - 1];
      ReportsFallShortBy(front, botId, name);
      StaysGrounded(front, botId);
      match last {
        case Advance(k) => AdvanceKeepsContexts(After(front), k);
        case Prepare(other, inventory) =>
          if other == botId {
            PrepareFallsShort(After(front), last, name);
          } else {
            OtherPrepares(After(front), botId, last);
          }
      }
    }
  }

  lemma NothingMoved(name: string)
    ensures Moved([], name) == 0 && Reported([], name) == 0
  {}

  lemma AdvanceKeepsContexts(state: State, k: nat)
    ensures Apply(state, Advance(k)).contexts == state.contexts
  {}

  /** So the deltas add up exactly when nothing was missed on balance. */
  lemma TelescopedIff(actions: seq<Action>, botId: string, name: string)
    ensures Telescoped(Of(After(actions).contexts, botId), name) <==> MissedInAll(actions, botId, name) == 0
  {
    ReportsFallShortBy(actions, botId, name);
    hide Of, After, Amount, MissedInAll;
  }

  lemma AfterOneMore(actions: seq<Action>, action: Action)
    ensures After(actions + [action]) == Apply(After(actions), action)
  {
    assert (actions + [action])[..|actions|] == actions;
  }

  lemma MissedOneMore(actions: seq<Action>, prepare: Action, name: string)
    requires prepare.Prepare?
    ensures MissedInAll(actions + [prepare], prepare.botId, name)
         == MissedInAll(actions, prepare.botId, name)
             + Missed(After(actions), prepare.botId, Counts(prepare.inventory), name)
  {
    hide Missed, After, Counts;
    assert (actions + [prepare])[..|actions|] == actions;
  }

  lemma MissedAtFirst(state: State, botId: string, current: Snapshot, name: string)
    requires botId !in state.baselines
    ensures state.contexts == [] ==> Missed(state, botId, current, name) == 0
    ensures forall context: Context | context.botId == botId && state.contexts == [context] ::
              Missed(state, botId, current, name) == Amount(current, name) - Amount(context.snapshot, name)
  {
    if |state.contexts| == 1 {
      OfOne(state.contexts[0], botId);
      assert state.contexts == [state.contexts[0]];
    }
  }

  lemma MissedNothingYet(botId: string, name: string)
    ensures MissedInAll([], botId, name) == 0
  {}

  /** Two contexts prepared at once, before there is a baseline: what arrived between them is never reported. */
  lemma OverlappingContextsMiss(botId: string, first: seq<Stack>, second: seq<Stack>, name: string)
    ensures MissedInAll([Prepare(botId, first), Prepare(botId, second)], botId, name)
         == Amount(Counts(second), name) - Amount(Counts(first), name)
  {
    hide Counts, Amount, Of, MissedInAll, Missed, After;
    var one, two := Prepare(botId, first), Prepare(botId, second);
    NoContexts(botId);
    AfterOneMore([], one);
    MissedOneMore([], one, name);
    MissedOneMore([one], two, name);
    MissedNothingYet(botId, name);
    MissedAtFirst(After([]), botId, Counts(first), name);
    assert [] + [one] == [one] && [one] + [two] == [one, two];
    assert After([one]).contexts == [Context(botId, Counts(first), None)];
    MissedAtFirst(After([one]), botId, Counts(second), name);
  }

  // ---------------------------------------------------------------- the cache

  class Cache {
    var baselines: map<string, Snapshot>
    ghost var actions: seq<Action>

    ghost predicate Valid() reads this { baselines == After(actions).baselines }

    constructor ()
      ensures Valid() && baselines == map[] && actions == []
    {
      baselines, actions := map[], [];
    }

    /** Compares with the baseline, which stays where it is until the context advances it. */
    method PreparePromptContext(botId: string, inventory: seq<Stack>) returns (context: PromptContext)
      requires Valid()
      modifies this`actions
      ensures Valid() && actions == old(actions) + [Prepare(botId, inventory)]
      ensures fresh(context) && context.cache == this && context.Valid()
      ensures context.index == |After(old(actions)).contexts| && !context.advanced
      ensures context.botId == botId && context.snapshot == Counts(inventory)
      ensures context.change == if botId in baselines then Some(Diff(baselines[botId], Counts(inventory))) else None
    {
      hide Diff, Counts, After;
      AfterOneMore(actions, Prepare(botId, inventory));
      ghost var index := |After(actions).contexts|;
      NotAdvancedYet(actions);
      var current := CreateInventoryCountMap(inventory);
      var change := None;
      if botId in baselines {
        change := Some(Diff(baselines[botId], current));
      }
      actions := actions + [Prepare(botId, inventory)];
      context := new PromptContext(this, botId, current, change, index);
    }
  }

  /** Only contexts that were handed out have been advanced. */
  lemma {:induction false} NotAdvancedYet(actions: seq<Action>)
    ensures forall k | k in After(actions).advanced :: k < |After(actions).contexts|
    decreases |actions|
  {
    if actions != [] {
      NotAdvancedYet(actions[..|actions| - 1]);
      hide Diff, Counts;
    }
  }

  class PromptContext {
    const cache: Cache
    const botId: string
    const snapshot: Snapshot
    /** The reported entries; no line is shown for None and for no entries. */
    const change: Option<seq<Stack>>
    var advanced: bool
    /** Which context of the cache's run this is. */
    ghost const index: nat

    ghost predicate Valid()
      reads this, cache
    {
      var state := After(cache.actions);
      && cache.Valid() && index < |state.contexts|
      && state.contexts[index] == Context(botId, snapshot, change) && (advanced <==> index in state.advanced)
    }

    constructor (cache: Cache, botId: string, snapshot: Snapshot, change: Option<seq<Stack>>, ghost index: nat)
      ensures this.cache == cache && this.botId == botId && this.snapshot == snapshot && this.change == change
      ensures this.index == index && !advanced
    {
      this.cache, this.botId, this.snapshot, this.change, advanced := cache, botId, snapshot, change, false;
      this.index := index;
    }

    /** The first call moves the baseline of its bot; any further call does nothing. Either way it is
        a step of the cache's run. */
    method AdvanceBaseline()
      requires Valid()
      modifies this`advanced, cache
      ensures Valid() && advanced && cache.actions == old(cache.actions) + [Advance(index)]
      ensures cache.baselines == if old(advanced) then old(cache.baselines) else old(cache.baselines)[botId := snapshot]
    {
      hide After;
      AfterOneMore(cache.actions, Advance(index));
      cache.actions := cache.actions + [Advance(index)];
      if advanced {
        return;
      }
      advanced := true;
      cache.baselines := cache.baselines[botId := snapshot];
    }
  }
}
