/**
 The append-only event log of one bot and a consumer that pages through it by cursor.
 */
module Replay {
  import opened Sorting

  datatype Event<Payload> = Event(number: nat, botId: string, payload: Payload)

  predicate ByNumber<Payload>(a: Event<Payload>, b: Event<Payload>) { a.number <= b.number }

  function Newer<Payload>(events: seq<Event<Payload>>, botId: string, afterSeq: int): seq<Event<Payload>> {
    if events == [] then []
    else (if events[0].botId == botId && events[0].number > afterSeq then [events[0]] else [])
         + Newer(events[1..], botId, afterSeq)
  }

  /** `slice(0, limit)`: a negative limit counts from the end. */
  function FirstOf<T>(xs: seq<T>, limit: int): seq<T> {
    if limit >= |xs| then xs else if limit >= 0 then xs[..limit]
    else if -limit >= |xs| then [] else xs[..|xs| + limit]
  }

  function Read<Payload(!new)>(events: seq<Event<Payload>>, botId: string, afterSeq: int,
                        limit: int): seq<Event<Payload>> {
    FirstOf(Sort((a, b) => ByNumber(a, b), Newer(events, botId, afterSeq)), limit)
  }

  /** The log of one bot: numbered from one without gaps. */
  ghost predicate Numbered<Payload>(events: seq<Event<Payload>>, botId: string) {
    forall i | 0 <= i < |events| :: events[i].number == i + 1 && events[i].botId == botId
  }

  ghost predicate NumberedFrom<Payload>(events: seq<Event<Payload>>, botId: string, start: nat) {
    forall i | 0 <= i < |events| :: events[i].number == start + i + 1 && events[i].botId == botId
  }

  lemma NewerUnfold<Payload>(events: seq<Event<Payload>>, botId: string, afterSeq: int)
    ensures Newer(events, botId, afterSeq)
         == if events == [] then []
            else if events[0].botId == botId && events[0].number > afterSeq
            then [events[0]] + Newer(events[1..], botId, afterSeq)
            else Newer(events[1..], botId, afterSeq)
  {
    if events != [] {
      assert [] + Newer(events[1..], botId, afterSeq) == Newer(events[1..], botId, afterSeq);
    }
  }

  lemma {:induction false} NewerIsSuffix<Payload>(events: seq<Event<Payload>>, botId: string, start: nat, afterSeq: nat)
    requires NumberedFrom(events, botId, start)
    ensures Newer(events, botId, afterSeq)
         == if afterSeq <= start then events else if afterSeq - start >= |events| then []
             else events[afterSeq - start..]
    decreases |events|
  {
    hide Newer;
    NewerUnfold(events, botId, afterSeq);
    if events != [] {
      NewerIsSuffix(events[1..], botId, start + 1, afterSeq);
      assert events == [events[0]] + events[1..];
      if afterSeq > start && afterSeq - start < |events| {
        assert events[1..][afterSeq - start - 1..] == events[afterSeq - start..];
      }
    }
  }

  lemma {:induction false} SortOfSorted<Payload(!new)>(events: seq<Event<Payload>>, botId: string, start: nat)
    requires NumberedFrom(events, botId, start)
    ensures Sort((a, b) => ByNumber(a, b), events) == events
    decreases |events|
  {
    if events != [] {
      SortOfSorted(events[1..], botId, start + 1);
    }
  }

  /** A page is the next stretch of the log after the cursor. */
  lemma ReadIsNextPage<Payload(!new)>(events: seq<Event<Payload>>, botId: string, cursor: nat, limit: nat)
    requires Numbered(events, botId) && cursor <= |events|
    ensures Read(events, botId, cursor, limit)
            == events[cursor..if cursor + limit < |events| then cursor + limit else |events|]
  {
    hide Sort, Newer;
    NewerIsSuffix(events, botId, 0, cursor);
    SortOfSorted(events[cursor..], botId, cursor);
    assert Newer(events, botId, cursor) == events[cursor..];
  }

  lemma {:induction false} NothingOfOthers<Payload>(events: seq<Event<Payload>>, botId: string, bot: string,
                                                    start: nat, afterSeq: int)
    requires NumberedFrom(events, botId, start) && bot != botId
    ensures Newer(events, bot, afterSeq) == []
    decreases |events|
  {
    if events != [] {
      NothingOfOthers(events[1..], botId, bot, start + 1, afterSeq);
    }
  }

  lemma {:induction false} NewerIsAll<Payload>(events: seq<Event<Payload>>, botId: string, start: nat, afterSeq: int)
    requires NumberedFrom(events, botId, start) && afterSeq < 0
    ensures Newer(events, botId, afterSeq) == events
    decreases |events|
  {
    if events != [] {
      NewerIsAll(events[1..], botId, start + 1, afterSeq);
    }
  }

  /** Whatever is asked for: a cursor before the log reads from its start and one behind it reads nothing, a
      negative limit leaves out as many at the end, and another bot reads nothing. */
  lemma ReadIsStretch<Payload(!new)>(events: seq<Event<Payload>>, botId: string, bot: string, afterSeq: int, limit: int)
    requires Numbered(events, botId)
    ensures var from := if afterSeq < 0 then 0 else if afterSeq < |events| then afterSeq else |events|;
      var to := if limit < 0 then |events| + limit else if from + limit < |events| then from + limit else |events|;
      Read(events, bot, afterSeq, limit) == if bot != botId || to <= from then [] else events[from..to]
  {
    hide Sort, Newer;
    var from := if afterSeq < 0 then 0 else if afterSeq < |events| then afterSeq else |events|;
    if bot != botId {
      NothingOfOthers(events, botId, bot, 0, afterSeq);
      SortOfSorted<Payload>([], botId, 0);
    } else {
      if afterSeq < 0 {
        NewerIsAll(events, botId, 0, afterSeq);
      } else {
        NewerIsSuffix(events, botId, 0, afterSeq);
      }
      assert Newer(events, bot, afterSeq) == events[from..];
      SortOfSorted(events[from..], botId, from);
    }
  }

  // ---------------------------------------------------------------- a consumer

  datatype Action<Payload> = Append(payload: Payload) | ReadPage(limit: nat)

  /** The log, and what a consumer that starts at the beginning has received. */
  datatype State<Payload> = State(log: seq<Event<Payload>>, cursor: nat, received: seq<Event<Payload>>)

  function Apply<Payload(!new)>(state: State<Payload>, botId: string, action: Action<Payload>): State<Payload> {
    match action
    case Append(payload) => state.(log := state.log + [Event(|state.log| + 1, botId, payload)])
    case ReadPage(limit) =>
      var page := Read(state.log, botId, state.cursor, limit);
      State(state.log, if page == [] then state.cursor else page[|page| - 1].number, state.received + page)
  }

  function After<Payload(!new)>(botId: string, actions: seq<Action<Payload>>): State<Payload> {
    if actions == [] then State([], 0, [])
    else Apply(After(botId, actions[..|actions| - 1]), botId, actions[|actions| - 1])
  }

  ghost predicate GapFree<Payload>(state: State<Payload>, botId: string) {
    Numbered(state.log, botId) && state.cursor <= |state.log| && state.received == state.log[..state.cursor]
  }

  function PageEnd<Payload>(state: State<Payload>, limit: nat): nat {
    if state.cursor + limit < |state.log| then state.cursor + limit else |state.log|
  }

  lemma StepIsGapFree<Payload(!new)>(state: State<Payload>, botId: string, action: Action<Payload>)
    requires GapFree(state, botId)
    ensures GapFree(Apply(state, botId, action), botId)
    ensures action.ReadPage? ==> Apply(state, botId, action).log == state.log
    ensures action.ReadPage? ==> Apply(state, botId, action).cursor == PageEnd(state, action.limit)
  {
    hide Read;
    match action
    case Append(payload) =>
      assert (state.log + [Event(|state.log| + 1, botId, payload)])[..state.cursor] == state.log[..state.cursor];
    case ReadPage(limit) =>
      ReadIsNextPage(state.log, botId, state.cursor, limit);
      PageGoesOn(state, botId, Read(state.log, botId, state.cursor, limit), PageEnd(state, limit));
  }

  lemma PageGoesOn<Payload>(state: State<Payload>, botId: string, page: seq<Event<Payload>>, end: nat)
    requires GapFree(state, botId) && state.cursor <= end <= |state.log| && page == state.log[state.cursor..end]
    ensures state.received + page == state.log[..end]
    ensures (if page == [] then state.cursor else page[|page| - 1].number) == end
  {
    if page != [] {
      assert page[|page| - 1] == state.log[end - 1];
    }
  }

  /** Whatever the interleaving of appends and pages, the consumer has received exactly the log up
      to its cursor: nothing is lost, repeated or reordered. */
  lemma {:induction false} ReplayIsGapFree<Payload(!new)>(botId: string, actions: seq<Action<Payload>>)
    ensures GapFree(After(botId, actions), botId)
    decreases |actions|
  {
    if actions != [] {
      ReplayIsGapFree(botId, actions[..|actions| - 1]);
      StepIsGapFree(After(botId, actions[..|actions| - 1]), botId, actions[|actions| - 1]);
    }
  }

  function Pages<Payload>(limits: seq<nat>): seq<Action<Payload>> {
    seq(|limits|, i requires 0 <= i < |limits| => ReadPage(limits[i]))
  }

  function Total(limits: seq<nat>): nat {
    if limits == [] then 0 else Total(limits[..|limits| - 1]) + limits[|limits| - 1]
  }

  /** Once appends stop, pages that add up to what is left complete the log, and need no more. */
  lemma {:induction false} CatchesUp<Payload(!new)>(botId: string, actions: seq<Action<Payload>>, limits: seq<nat>)
    ensures var before, end := After(botId, actions), After(botId, actions + Pages(limits));
      && end.log == before.log
      && end.cursor == (if before.cursor + Total(limits) < |before.log| then before.cursor + Total(limits)
         else |before.log|)
      && (before.cursor + Total(limits) >= |before.log| ==> end.received == before.log)
    decreases |limits|
  {
    hide Read, Apply, Numbered;
    ReplayIsGapFree(botId, actions);
    var all := actions + Pages<Payload>(limits);
    if limits == [] {
      assert all == actions;
    } else {
      var fewer := limits[..|limits| - 1];
      CatchesUp(botId, actions, fewer);
      assert all[..|all| - 1] == actions + Pages<Payload>(fewer);
      ReplayIsGapFree(botId, all[..|all| - 1]);
      StepIsGapFree(After(botId, all[..|all| - 1]), botId, all[|all| - 1]);
    }
    ReplayIsGapFree(botId, all);
  }

  class ReplayStore<Payload(!new)> {
    const botId: string
    var lastSeq: nat
    var events: seq<Event<Payload>>

    ghost predicate Valid() reads this { Numbered(events, botId) && lastSeq == |events| }

    constructor (botId: string)
      ensures Valid() && events == [] && this.botId == botId
    {
      this.botId := botId;
      lastSeq, events := 0, [];
    }

    /** An event of another bot is refused and changes nothing. */
    method AppendEvent(bot: string, payload: Payload) returns (accepted: bool)
      requires Valid()
      modifies this
      ensures Valid() && accepted == (bot == botId)
      ensures events == if accepted then old(events) + [Event(|old(events)| + 1, botId, payload)] else old(events)
    {
      if bot != botId {
        return false;
      }
      lastSeq := lastSeq + 1;
      events := events + [Event(lastSeq, bot, payload)];
      accepted := true;
    }

    method ReadEvents(bot: string, afterSeq: int, limit: int) returns (page: seq<Event<Payload>>)
      requires Valid()
      ensures page == Read(events, bot, afterSeq, limit)
      ensures bot != botId ==> page == []
      ensures bot == botId && 0 <= afterSeq <= lastSeq && limit >= 0 ==>
        page == events[afterSeq..if afterSeq + limit < lastSeq then afterSeq + limit else lastSeq]
    {
      page := Read(events, bot, afterSeq, limit);
      ReadIsStretch(events, botId, bot, afterSeq, limit);
      if bot == botId && 0 <= afterSeq <= lastSeq && limit >= 0 {
        ReadIsNextPage(events, bot, afterSeq, limit);
      }
    }
  }
}
