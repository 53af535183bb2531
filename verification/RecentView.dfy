/**
 The view of the recent context that goes into a prompt: the store's rounds merged with
 what the bot has been doing, ordered, cut to a limit and printed.
 */
module RecentView {
  import opened Integers
  import opened Options
  import opened Sorting
  import opened RecentContext
  import opened RecentStore

  /** An event of the bot; `stamp` is its timestamp as it prints. */
  datatype ActorEvent = ActorEvent(messageId: Option<string>, line: string, lines: seq<string>, timestamp: int,
                                   stamp: string)

  /** One printed round with the merged round it comes from. */
  datatype Printed = Printed(round: Round, events: seq<Event>, lines: seq<string>)

  const MAX_SAFE_INTEGER: nat := 9007199254740991

  function KeyOf(event: ActorEvent): string {
    match event.messageId
    case None => "system:" + event.stamp + ":" + event.line
    case Some(id) => MessageKey(id)
  }

  /** An event of a message that has no round is dropped; any other joins its round or opens one. */
  function Merge(rounds: seq<Round>, event: ActorEvent): seq<Round> {
    var base := Find(rounds, KeyOf(event));
    if event.messageId.Some? && base.None? then rounds
    else
      var printed := Event(event.lines, event.timestamp, MAX_SAFE_INTEGER);
      var events := if base.None? then [] else base.value.events;
      var used := if base.None? then 0 else base.value.lastUsedAt;
      Put(rounds, Round(KeyOf(event), event.messageId, events + [printed], Max(used, event.timestamp)))
  }

  function MergeAll(rounds: seq<Round>, events: seq<ActorEvent>): seq<Round>
    decreases |events|
  {
    if events == [] then rounds else MergeAll(Merge(rounds, events[0]), events[1..])
  }

  function Others(rounds: seq<Round>, current: Option<string>): seq<Round> {
    if current.None? then rounds else Without(rounds, MessageKey(current.value))
  }

  /** `slice(-limit)`: note that `slice(-0)` is `slice(0)`. */
  function SliceFromEnd<T>(xs: seq<T>, limit: int): seq<T> {
    if limit > 0 then (if |xs| > limit then xs[|xs| - limit..] else xs)
    else if -limit >= |xs| then [] else xs[-limit..]
  }

  function Lines(events: seq<Event>): seq<string> {
    if events == [] then [] else events[0].lines + Lines(events[1..])
  }

  /** Prints the rounds that have something to print. */
  function Print(rounds: seq<Round>): seq<Printed> {
    if rounds == [] then []
    else
      var events := Sort(Earlier, rounds[0].events);
      (if Lines(events) == [] then [] else [Printed(rounds[0], events, Lines(events))]) + Print(rounds[1..])
  }

  function Merged(rounds: seq<Round>, current: Option<string>, events: seq<ActorEvent>): seq<Round> {
    MergeAll(Others(rounds, current), events)
  }

  function Limited(rounds: seq<Round>, current: Option<string>, events: seq<ActorEvent>, limit: int): seq<Round> {
    SliceFromEnd(Sort(Older, Merged(rounds, current, events)), limit)
  }

  // ---------------------------------------------------------------- the merge

  lemma {:induction false} FindAfterPut(rounds: seq<Round>, round: Round, key: string)
    ensures Find(Put(rounds, round), key) == if key == round.key then Some(round) else Find(rounds, key)
    decreases |rounds|
  {
    if rounds != [] { FindAfterPut(rounds[1..], round, key); }
  }

  lemma SystemKeysAreNoMessageKeys(event: ActorEvent, id: string)
    requires event.messageId.None?
    ensures KeyOf(event) != MessageKey(id)
  {
    assert KeyOf(event)[0] == 's' && MessageKey(id)[0] == 'm';
  }

  /** The event is one of the round of this key: by its message, or for an event without a message by
      its time and line. */
  predicate Belongs(event: ActorEvent, key: string) {
    match event.messageId
    case Some(id) => key == "message:" + id
    case None => key == "system:" + event.stamp + ":" + event.line
  }

  /** The key of an event is the one it belongs to, and events of one key are of one message or of none. */
  lemma KeyIs(event: ActorEvent, other: ActorEvent, key: string)
    ensures KeyOf(event) == key <==> Belongs(event, key)
    ensures Belongs(event, key) && Belongs(other, key) ==> event.messageId == other.messageId
  {
    if Belongs(event, key) && Belongs(other, key) {
      assert key[0] == if event.messageId.Some? then 'm' else 's';
      assert key[0] == if other.messageId.Some? then 'm' else 's';
      if event.messageId.Some? {
        assert key[8..] == event.messageId.value == other.messageId.value;
      }
    }
  }

  function EventsFor(events: seq<ActorEvent>, key: string): seq<Event> {
    if events == [] then []
    else (if KeyOf(events[0]) == key then [Event(events[0].lines, events[0].timestamp, MAX_SAFE_INTEGER)] else [])
         + EventsFor(events[1..], key)
  }

  /** The gathered events are those of the key, at these places among all of the bot's events. */
  ghost predicate GatheredAt(events: seq<ActorEvent>, key: string, gathered: seq<Event>, places: seq<nat>) {
    && |places| == |gathered|
    && (forall i | 0 <= i < |places| :: places[i] < |events| && Belongs(events[places[i]], key))
    && (forall i | 0 <= i < |places| ::
          gathered[i] == Event(events[places[i]].lines, events[places[i]].timestamp, 9007199254740991))
    && (forall i, j | 0 <= i < j < |places| :: places[i] < places[j])
    && (forall k: nat {:trigger k in places} | k < |events| && Belongs(events[k], key) :: k in places)
  }

  lemma {:induction false} EventsForInOrder(events: seq<ActorEvent>, key: string) returns (places: seq<nat>)
    ensures GatheredAt(events, key, EventsFor(events, key), places)
    decreases |events|
  {
    hide KeyOf, Belongs, EventsFor, GatheredAt;
    if events == [] {
      places := [];
      NoEvents(key);
    } else {
      var front, last := events[..|events| - 1], events[|events| - 1];
      places := EventsForInOrder(front, key);
      assert events == front + [last];
      EventsForSnoc(front, last, key);
      KeyIs(last, last, key);
      GatheredOneMore(front, last, key, EventsFor(front, key), places);
      if Belongs(last, key) {
        places := places + [|front|];
      } else {
        assert EventsFor(front, key) + [] == EventsFor(front, key);
      }
    }
  }

  lemma GatheredOneMore(events: seq<ActorEvent>, last: ActorEvent, key: string, gathered: seq<Event>, places: seq<nat>)
    requires GatheredAt(events, key, gathered, places)
    ensures Belongs(last, key) ==>
              GatheredAt(events + [last], key, gathered + [Event(last.lines, last.timestamp, MAX_SAFE_INTEGER)],
                         places + [|events|])
    ensures !Belongs(last, key) ==> GatheredAt(events + [last], key, gathered, places)
  {
    hide Belongs;
    var more := events + [last];
    forall k: nat | k < |more| && Belongs(more[k], key) ensures k in places + [|events|] {
      if k < |events| {
        assert k in places by { assert more[k] == events[k]; }
      } else {
        assert (places + [|events|])[|places|] == k;
      }
    }
    forall k: nat | k < |events| && Belongs(more[k], key) ensures k in places {
      assert k in places by { assert more[k] == events[k]; }
    }
  }

  lemma NoEvents(key: string)
    ensures GatheredAt([], key, EventsFor([], key), [])
  {}

  function OneEvent(event: ActorEvent, key: string): seq<Event> {
    if KeyOf(event) == key then [Event(event.lines, event.timestamp, MAX_SAFE_INTEGER)] else []
  }

  lemma EventsForUnfold(events: seq<ActorEvent>, key: string)
    requires events != []
    ensures EventsFor(events, key) == OneEvent(events[0], key) + EventsFor(events[1..], key)
  {
    hide KeyOf;
  }

  lemma {:induction false} EventsForSnoc(events: seq<ActorEvent>, last: ActorEvent, key: string)
    ensures EventsFor(events + [last], key) == EventsFor(events, key) + OneEvent(last, key)
    decreases |events|
  {
    hide EventsFor, OneEvent;
    EventsForUnfold(events + [last], key);
    if events == [] {
      NoEventsFor(key);
      assert (events + [last])[1..] == [];
      assert OneEvent(last, key) + [] == [] + OneEvent(last, key);
    } else {
      EventsForUnfold(events, key);
      assert (events + [last])[1..] == events[1..] + [last];
      EventsForSnoc(events[1..], last, key);
      var first, rest := OneEvent(events[0], key), EventsFor(events[1..], key);
      assert first + (rest + OneEvent(last, key)) == (first + rest) + OneEvent(last, key);
    }
  }

  lemma NoEventsFor(key: string)
    ensures EventsFor([], key) == []
  {}

  /** The latest of `used` and the times of the bot's events for `key`. */
  function LastUsed(used: int, events: seq<ActorEvent>, key: string): int
    decreases |events|
  {
    if events == [] then used
    else LastUsed(if KeyOf(events[0]) == key then Max(used, events[0].timestamp) else used, events[1..], key)
  }

  lemma {:induction false} LastUsedIsLatest(used: int, events: seq<ActorEvent>, key: string)
    ensures var latest := LastUsed(used, events, key);
      && used <= latest && (forall i | 0 <= i < |events| && KeyOf(events[i]) == key :: events[i].timestamp <= latest)
      && (latest == used || exists i :: 0 <= i < |events| && KeyOf(events[i]) == key && events[i].timestamp == latest)
    decreases |events|
  {
    hide KeyOf;
    if events != [] {
      var now := if KeyOf(events[0]) == key then Max(used, events[0].timestamp) else used;
      LastUsedIsLatest(now, events[1..], key);
      var latest := LastUsed(now, events[1..], key);
      if i :| 0 <= i < |events[1..]| && KeyOf(events[1..][i]) == key && events[1..][i].timestamp == latest {
        assert events[i + 1] == events[1..][i];
      }
      forall i | 0 <= i < |events| && KeyOf(events[i]) == key ensures events[i].timestamp <= latest {
        if i > 0 {
          assert events[1..][i - 1] == events[i];
        }
      }
    }
  }

  ghost predicate OpensRound(events: seq<ActorEvent>, key: string) {
    exists i :: 0 <= i < |events| && events[i].messageId.None? && KeyOf(events[i]) == key
  }

  function Own(round: Option<Round>): seq<Event> { if round.None? then [] else round.value.events }
  function OwnUse(round: Option<Round>): int { if round.None? then 0 else round.value.lastUsedAt }

  /** A round is in the merge iff it was there or a system event opens it; it holds its own events
      followed by the bot's events for it, and was last used at the latest time of any of these. */
  lemma {:induction false} MergeAllRounds(rounds: seq<Round>, events: seq<ActorEvent>, key: string)
    ensures var base, merged := Find(rounds, key), Find(MergeAll(rounds, events), key);
      && (merged.Some? <==> base.Some? || OpensRound(events, key))
      && (merged.Some? ==> merged.value.events == Own(base) + EventsFor(events, key))
      && (merged.Some? ==> merged.value.lastUsedAt == LastUsed(OwnUse(base), events, key))
    decreases |events|
  {
    hide Merge, MergeAll, Find, KeyOf, OpensRound, EventsFor, Own, OwnUse, LastUsed;
    if events == [] {
      NothingOpens(key);
      NothingMerged(rounds, key);
    } else {
      var event, rest := events[0], events[1..];
      MergeAllRounds(Merge(rounds, event), rest, key);
      OpensLater(events, key);
      MergeOne(rounds, event, key);
      NoSystemEventOpens(rest, event);
      FirstMerged(rounds, events, key, Own(Find(rounds, key)), OwnUse(Find(rounds, key)));
    }
  }

  lemma NothingMerged(rounds: seq<Round>, key: string)
    ensures MergeAll(rounds, []) == rounds && EventsFor([], key) == []
    ensures Find(rounds, key).Some? ==> Find(rounds, key).value.events == Own(Find(rounds, key)) + []
    ensures Find(rounds, key).Some?
            ==> Find(rounds, key).value.lastUsedAt == LastUsed(OwnUse(Find(rounds, key)), [], key)
  {}

  lemma FirstMerged(rounds: seq<Round>, events: seq<ActorEvent>, key: string, own: seq<Event>, used: int)
    requires events != []
    ensures MergeAll(rounds, events) == MergeAll(Merge(rounds, events[0]), events[1..])
    ensures var first, rest := Event(events[0].lines, events[0].timestamp, MAX_SAFE_INTEGER),
            EventsFor(events[1..], key);
      if KeyOf(events[0]) == key then own + EventsFor(events, key) == own + [first] + rest
      else EventsFor(events, key) == rest
    ensures LastUsed(used, events, key)
         == LastUsed(if KeyOf(events[0]) == key then Max(used, events[0].timestamp) else used, events[1..], key)
  {
    hide Merge, KeyOf, Find;
    var first, rest := Event(events[0].lines, events[0].timestamp, MAX_SAFE_INTEGER), EventsFor(events[1..], key);
    assert own + ([first] + rest) == own + [first] + rest;
    assert [] + rest == rest;
  }

  lemma NothingOpens(key: string)
    ensures !OpensRound([], key)
  {}

  lemma NoSystemEventOpens(events: seq<ActorEvent>, event: ActorEvent)
    ensures event.messageId.Some? ==> !OpensRound(events, KeyOf(event))
  {
    hide MessageKey;
    if event.messageId.Some? && OpensRound(events, KeyOf(event)) {
      var i :| 0 <= i < |events| && events[i].messageId.None? && KeyOf(events[i]) == KeyOf(event);
      SystemKeysAreNoMessageKeys(events[i], event.messageId.value);
    }
  }

  lemma MergeOne(rounds: seq<Round>, event: ActorEvent, key: string)
    ensures var base, next := Find(rounds, key), Find(Merge(rounds, event), key);
      if KeyOf(event) != key || (event.messageId.Some? && base.None?) then next == base
      else
        && next.Some? && next.value.events == Own(next)
           == Own(base) + [Event(event.lines, event.timestamp, MAX_SAFE_INTEGER)]
        && next.value.lastUsedAt == OwnUse(next) == Max(OwnUse(base), event.timestamp)
  {
    hide KeyOf;
    var base := Find(rounds, KeyOf(event));
    if !(event.messageId.Some? && base.None?) {
      var used := if base.None? then 0 else base.value.lastUsedAt;
      FindAfterPut(rounds, Round(KeyOf(event), event.messageId,
        Own(base) + [Event(event.lines, event.timestamp, MAX_SAFE_INTEGER)], Max(used, event.timestamp)), key);
    }
  }

  lemma OpensLater(events: seq<ActorEvent>, key: string)
    requires events != []
    ensures OpensRound(events, key) <==>
            (events[0].messageId.None? && KeyOf(events[0]) == key) || OpensRound(events[1..], key)
  {
    hide KeyOf;
    if i :| 0 <= i < |events| && events[i].messageId.None? && KeyOf(events[i]) == key && i > 0 {
      assert events[1..][i - 1] == events[i];
    }
    if i :| 0 <= i < |events[1..]| && events[1..][i].messageId.None? && KeyOf(events[1..][i]) == key {
      assert events[i + 1] == events[1..][i];
    }
  }

  /** A merged round has the message id of the events that belong to it, and without any it is as it was. */
  lemma {:induction false} MergedIds(rounds: seq<Round>, events: seq<ActorEvent>, key: string)
    requires Find(MergeAll(rounds, events), key).Some?
    ensures forall i | 0 <= i < |events| && Belongs(events[i], key) ::
              Find(MergeAll(rounds, events), key).value.messageId == events[i].messageId
    ensures (forall i | 0 <= i < |events| :: !Belongs(events[i], key)) ==>
              Find(MergeAll(rounds, events), key) == Find(rounds, key)
    decreases |events|
  {
    hide Merge, Find, KeyOf, Belongs;
    if events != [] {
      var event, rest := events[0], events[1..];
      MergedIds(Merge(rounds, event), rest, key);
      assert events == [event] + rest;
      KeyIs(event, event, key);
      if Belongs(event, key) {
        MergeAllRounds(Merge(rounds, event), rest, key);
        forall i | 0 <= i < |rest| && Belongs(rest[i], key) ensures rest[i].messageId == event.messageId {
          KeyIs(event, rest[i], key);
        }
        if forall i | 0 <= i < |rest| :: !Belongs(rest[i], key) {
          MergeSetsId(rounds, event);
        }
      } else {
        MergeElsewhere(rounds, event, key);
        forall i | 0 <= i < |events| && Belongs(events[i], key) ensures i > 0 && Belongs(rest[i - 1], key) {
          assert i > 0;
        }
      }
      forall i | 0 <= i < |rest| && Belongs(rest[i], key) ensures Belongs(events[i + 1], key) {}
    }
  }

  lemma MergeSetsId(rounds: seq<Round>, event: ActorEvent)
    requires Find(Merge(rounds, event), KeyOf(event)).Some?
    ensures Find(Merge(rounds, event), KeyOf(event)).value.messageId == event.messageId
  {
    hide KeyOf;
    var base := Find(rounds, KeyOf(event));
    if !(event.messageId.Some? && base.None?) {
      FindAfterPut(rounds, Round(KeyOf(event), event.messageId,
        Own(base) + [Event(event.lines, event.timestamp, MAX_SAFE_INTEGER)], Max(OwnUse(base), event.timestamp)),
        KeyOf(event));
    }
  }

  lemma MergeElsewhere(rounds: seq<Round>, event: ActorEvent, key: string)
    requires KeyOf(event) != key
    ensures Find(Merge(rounds, event), key) == Find(rounds, key)
  {
    hide KeyOf;
    MergeOne(rounds, event, key);
  }

  lemma {:induction false} MergeAllIsUnique(rounds: seq<Round>, events: seq<ActorEvent>)
    requires UniqueKeys(rounds)
    ensures UniqueKeys(MergeAll(rounds, events))
    decreases |events|
  {
    if events != [] {
      var base := Find(rounds, KeyOf(events[0]));
      if !(events[0].messageId.Some? && base.None?) {
        var used := if base.None? then 0 else base.value.lastUsedAt;
        PutIsUnique(rounds, Round(KeyOf(events[0]), events[0].messageId,
          Own(base) + [Event(events[0].lines, events[0].timestamp, MAX_SAFE_INTEGER)], Max(used, events[0].timestamp)));
      }
      hide KeyOf, Put, UniqueKeys;
      MergeAllIsUnique(Merge(rounds, events[0]), events[1..]);
    }
  }

  /** The merge shows no round of the current message, no message unknown to the store, and in
      each round the store's events followed by the bot's. */
  lemma MergeIsFaithful(rounds: seq<Round>, current: Option<string>, events: seq<ActorEvent>, r: Round)
    requires UniqueKeys(rounds) && r in Merged(rounds, current, events)
    ensures r.events == Own(Find(Others(rounds, current), r.key)) + EventsFor(events, r.key)
    ensures r.lastUsedAt == LastUsed(OwnUse(Find(Others(rounds, current), r.key)), events, r.key)
    ensures current.Some? ==> r.key != MessageKey(current.value)
    ensures forall id | r.key == MessageKey(id) :: Find(rounds, r.key).Some?
  {
    var base := Others(rounds, current);
    if current.Some? {
      WithoutDrops(rounds, MessageKey(current.value));
    }
    MergeAllIsUnique(base, events);
    FindFinds(Merged(rounds, current, events), r.key);
    MergeAllRounds(base, events, r.key);
    FindFinds(base, r.key);
    FindFinds(rounds, r.key);
    hide MessageKey, Without, Find, KeyOf, UniqueKeys;
    forall id | r.key == MessageKey(id) ensures Find(base, r.key).Some? {
      if OpensRound(events, r.key) {
        var i :| 0 <= i < |events| && events[i].messageId.None? && KeyOf(events[i]) == r.key;
        SystemKeysAreNoMessageKeys(events[i], id);
      }
    }
  }

  /** The store's round of a key, unless the current message is its. */
  ghost predicate Base(rounds: seq<Round>, current: Option<string>, key: string, base: Option<Round>) {
    if current.Some? && key == "message:" + current.value then base.None?
    else
      match base
      case None => forall r | r in rounds :: r.key != key
      case Some(round) => round in rounds && round.key == key
  }

  /** The round has its own events followed by the bot's, its last use is the latest of its own and
      theirs, and its message is theirs. */
  ghost predicate MergedFrom(base: Option<Round>, events: seq<ActorEvent>, r: Round) {
    && r.events == (if base.Some? then base.value.events else []) + EventsFor(events, r.key)
    && (forall i | 0 <= i < |events| && Belongs(events[i], r.key) ::
          events[i].timestamp <= r.lastUsedAt && events[i].messageId == r.messageId)
    && (if base.Some? then base.value.lastUsedAt else 0) <= r.lastUsedAt
    && (r.lastUsedAt == (if base.Some? then base.value.lastUsedAt else 0)
        || exists i :: 0 <= i < |events| && Belongs(events[i], r.key) && events[i].timestamp == r.lastUsedAt)
    && (base.None? || base == Some(r) || exists i :: 0 <= i < |events| && Belongs(events[i], r.key))
  }

  /** Every key has one round in the merge if the store has one that is not of the current message, or
      an event without a message opens one, and none otherwise; and it is made of those. */
  lemma MergedIff(rounds: seq<Round>, current: Option<string>, events: seq<ActorEvent>, key: string,
                  base: Option<Round>)
    requires UniqueKeys(rounds) && Base(rounds, current, key, base)
    ensures UniqueKeys(Merged(rounds, current, events))
    ensures (exists r :: r in Merged(rounds, current, events) && r.key == key)
            <==> base.Some? || exists i :: 0 <= i < |events| && events[i].messageId.None? && Belongs(events[i], key)
    ensures forall r | r in Merged(rounds, current, events) && r.key == key :: MergedFrom(base, events, r)
  {
    var others, merged := Others(rounds, current), Merged(rounds, current, events);
    OthersFind(rounds, current, key, base);
    MergeAllIsUnique(others, events);
    FindFinds(merged, key);
    MergeAllRounds(others, events, key);
    OpensIff(events, key);
    hide Find, UniqueKeys, Merged, EventsFor, OpensRound, Belongs, KeyOf, MergedFrom;
    forall r | r in merged && r.key == key ensures MergedFrom(base, events, r) {
      assert Find(merged, key) == Some(r);
      MergedIds(others, events, key);
      LastUsedBelongs(OwnUse(base), events, key);
      MergedFromParts(base, events, r);
    }
  }

  lemma OthersFind(rounds: seq<Round>, current: Option<string>, key: string, base: Option<Round>)
    requires UniqueKeys(rounds) && Base(rounds, current, key, base)
    ensures UniqueKeys(Others(rounds, current)) && Find(Others(rounds, current), key) == base
  {
    if current.Some? {
      WithoutDrops(rounds, MessageKey(current.value));
    }
    FindFinds(rounds, key);
    FindFinds(Others(rounds, current), key);
  }

  lemma OpensIff(events: seq<ActorEvent>, key: string)
    ensures OpensRound(events, key)
            <==> exists i :: 0 <= i < |events| && events[i].messageId.None? && Belongs(events[i], key)
  {
    hide KeyOf, Belongs;
    forall i | 0 <= i < |events| ensures KeyOf(events[i]) == key <==> Belongs(events[i], key) {
      KeyIs(events[i], events[i], key);
    }
  }

  lemma LastUsedBelongs(used: int, events: seq<ActorEvent>, key: string)
    ensures var latest := LastUsed(used, events, key);
      && used <= latest && (forall i | 0 <= i < |events| && Belongs(events[i], key) :: events[i].timestamp <= latest)
      && (latest == used || exists i :: 0 <= i < |events| && Belongs(events[i], key) && events[i].timestamp == latest)
  {
    hide KeyOf, Belongs, LastUsed;
    LastUsedIsLatest(used, events, key);
    forall i | 0 <= i < |events| ensures KeyOf(events[i]) == key <==> Belongs(events[i], key) {
      KeyIs(events[i], events[i], key);
    }
  }

  lemma MergedFromParts(base: Option<Round>, events: seq<ActorEvent>, r: Round)
    requires r.events == Own(base) + EventsFor(events, r.key)
    requires r.lastUsedAt == LastUsed(OwnUse(base), events, r.key)
    requires var latest := r.lastUsedAt;
      && OwnUse(base) <= latest
      && (forall i | 0 <= i < |events| && Belongs(events[i], r.key) :: events[i].timestamp <= latest)
      && (latest == OwnUse(base)
          || exists i :: 0 <= i < |events| && Belongs(events[i], r.key) && events[i].timestamp == latest)
    requires forall i | 0 <= i < |events| && Belongs(events[i], r.key) :: r.messageId == events[i].messageId
    requires (forall i | 0 <= i < |events| :: !Belongs(events[i], r.key)) ==> Some(r) == base
    ensures MergedFrom(base, events, r)
  {
    hide Belongs, EventsFor, LastUsed;
  }

  // ---------------------------------------------------------------- the view

  /** The cut keeps to the limit exactly when the limit is positive, or there is nothing to cut:
      a limit of zero keeps everything. */
  lemma LimitHoldsIff(rounds: seq<Round>, limit: int)
    ensures |SliceFromEnd(rounds, limit)| <= limit <==> limit > 0 || (limit == 0 && rounds == [])
  {}

  lemma {:induction false} PrintIsOrdered(rounds: seq<Round>)
    requires SortedBy(Older, rounds)
    ensures |Print(rounds)| <= |rounds|
    ensures forall i | 0 <= i < |Print(rounds)| :: Print(rounds)[i].round in rounds
    ensures forall i, j | 0 <= i < j < |Print(rounds)| :: Older(Print(rounds)[i].round, Print(rounds)[j].round)
    decreases |rounds|
  {
    hide Older, Sort, Lines, Earlier;
    if rounds != [] {
      PrintIsOrdered(rounds[1..]);
    }
  }

  /** The number of lines that the first `i` events print. */
  function LinesBefore(events: seq<Event>, i: nat): nat
    requires i <= |events|
  {
    if i == 0 then 0 else LinesBefore(events, i - 1) + |events[i - 1].lines|
  }

  lemma {:induction false} LinesBeforeRest(events: seq<Event>, i: nat)
    requires 0 < i <= |events|
    ensures LinesBefore(events, i) == |events[0].lines| + LinesBefore(events[1..], i - 1)
    decreases i
  {
    if i > 1 {
      LinesBeforeRest(events, i - 1);
    }
  }

  /** The lines of the events stand one after the other: those of each event behind all of the events before it. */
  lemma {:induction false} LinesInOrder(events: seq<Event>, i: nat)
    requires i < |events|
    ensures |Lines(events)| == LinesBefore(events, |events|)
    ensures LinesBefore(events, i) + |events[i].lines| <= |Lines(events)|
    ensures Lines(events)[LinesBefore(events, i)..][..|events[i].lines|] == events[i].lines
    decreases |events|
  {
    var first, rest := events[0].lines, Lines(events[1..]);
    LinesBeforeRest(events, |events|);
    if |events| > 1 {
      LinesInOrder(events[1..], if i > 0 then i - 1 else 0);
    } else {
      assert LinesBefore(events[1..], 0) == |rest| == 0;
    }
    if i > 0 {
      LinesBeforeRest(events, i);
      assert Lines(events)[LinesBefore(events, i)..] == rest[LinesBefore(events[1..], i - 1)..];
    }
  }

  /** The lines of a printed round are those of its events, from early to late: by timestamp, at one time by
      sequence number, and at one sequence number as the round has them. */
  ghost predicate PrintsInOrder(p: Printed, places: seq<nat>) {
    && |places| == |p.events| == |p.round.events|
    && (forall i | 0 <= i < |places| :: places[i] < |places| && p.events[i] == p.round.events[places[i]])
    && (forall i, j | 0 <= i < j < |places| :: places[i] != places[j])
    && (forall i, j | 0 <= i < j < |places| ::
          || p.events[i].timestamp < p.events[j].timestamp
          || (p.events[i].timestamp == p.events[j].timestamp
              && (p.events[i].sequence < p.events[j].sequence
                  || (p.events[i].sequence == p.events[j].sequence && places[i] < places[j]))))
    && |p.lines| == LinesBefore(p.events, |p.events|)
    && (forall i | 0 <= i < |p.events| ::
          && LinesBefore(p.events, i) + |p.events[i].lines| <= |p.lines|
          && p.lines[LinesBefore(p.events, i)..][..|p.events[i].lines|] == p.events[i].lines)
  }

  lemma {:induction false} PrintedRound(rounds: seq<Round>, p: Printed) returns (places: seq<nat>)
    requires p in Print(rounds)
    ensures p.round in rounds && p.lines == Lines(p.events) && p.lines != []
    ensures multiset(p.events) == multiset(p.round.events) && SortedBy(Earlier, p.events)
    ensures PrintsInOrder(p, places)
    decreases |rounds|
  {
    hide Sort, PrintsInOrder, SortedBy, TotalOrder, Lines, Earlier;
    if p in Print(rounds[1..]) {
      places := PrintedRound(rounds[1..], p);
    } else {
      EarlierIsTotalOrder();
      SortSorts(Earlier, p.round.events);
      places := SortIsStable(Earlier, p.round.events);
      SortedPrintsInOrder(p, places);
    }
  }

  lemma SortedPrintsInOrder(p: Printed, places: seq<nat>)
    requires p.lines == Lines(p.events) && Arranges(Earlier, p.round.events, p.events, places)
    ensures PrintsInOrder(p, places)
  {
    hide Lines, LinesBefore;
    forall i, j | 0 <= i < j < |places|
      ensures places[i] != places[j]
      ensures || p.events[i].timestamp < p.events[j].timestamp
              || (p.events[i].timestamp == p.events[j].timestamp
                  && (p.events[i].sequence < p.events[j].sequence
                      || (p.events[i].sequence == p.events[j].sequence && places[i] < places[j])))
    {
      assert Earlier(p.events[i], p.events[j]);
      assert Earlier(p.events[j], p.events[i]) ==> places[i] < places[j];
    }
    if p.events == [] {
      NoLines();
    }
    forall i | 0 <= i < |p.events|
      ensures LinesBefore(p.events, i) + |p.events[i].lines| <= |p.lines|
      ensures p.lines[LinesBefore(p.events, i)..][..|p.events[i].lines|] == p.events[i].lines
    {
      LinesInOrder(p.events, i);
    }
    assert p.events != [] ==> |p.lines| == LinesBefore(p.events, |p.events|) by {
      if p.events != [] { LinesInOrder(p.events, 0); }
    }
  }

  lemma NoLines()
    ensures Lines([]) == [] && LinesBefore([], 0) == 0
  {}

  /** Rounds that have lines to print are all printed. */
  lemma {:induction false} NothingUnprinted(rounds: seq<Round>, r: Round)
    requires r in rounds && Lines(Sort(Earlier, r.events)) != []
    ensures Printed(r, Sort(Earlier, r.events), Lines(Sort(Earlier, r.events))) in Print(rounds)
    decreases |rounds|
  {
    if r != rounds[0] {
      NothingUnprinted(rounds[1..], r);
    }
  }

  /** The view: ascending by last use and key, never more rounds than a positive limit, and a
      merged round that is cut is no newer than one that is shown. */
  lemma ViewIsOrdered(rounds: seq<Round>, current: Option<string>, events: seq<ActorEvent>, limit: int)
    ensures var view, limited := Print(Limited(rounds, current, events, limit)),
            Limited(rounds, current, events, limit);
      && (limit > 0 ==> |view| <= limit)
      && (forall i, j | 0 <= i < j < |view| :: Older(view[i].round, view[j].round))
      && (forall i | 0 <= i < |view| :: view[i].round in Merged(rounds, current, events))
      && (forall r, kept | r in Merged(rounds, current, events) && r !in limited && kept in limited :: Older(r, kept))
  {
    var merged := Merged(rounds, current, events);
    OlderIsTotalOrder();
    SortSorts(Older, merged);
    hide Older, Merged, Print;
    var sorted := Sort(Older, merged);
    var limited := SliceFromEnd(sorted, limit);
    var cut := |sorted| - |limited|;
    SliceIsSuffix(sorted, limit);
    LimitHoldsIff(sorted, limit);
    hide SliceFromEnd, SortedBy, Sort;
    SuffixIsSorted(sorted, cut);
    PrintIsOrdered(limited);
    forall r ensures r in merged <==> r in sorted {
      assert r in multiset(merged) <==> r in multiset(sorted);
    }
    CutIsOlder(sorted, cut);
  }

  lemma SliceIsSuffix(sorted: seq<Round>, limit: int)
    ensures |SliceFromEnd(sorted, limit)| <= |sorted|
    ensures SliceFromEnd(sorted, limit) == sorted[|sorted| - |SliceFromEnd(sorted, limit)|..]
  {}

  lemma SuffixIsSorted(sorted: seq<Round>, cut: nat)
    requires SortedBy(Older, sorted) && cut <= |sorted|
    ensures SortedBy(Older, sorted[cut..])
  {
    hide Older;
  }

  lemma InSuffix(sorted: seq<Round>, cut: nat, i: nat)
    requires cut <= |sorted| && i < |sorted|
    ensures i >= cut ==> sorted[i] in sorted[cut..]
  {
    if i >= cut {
      assert sorted[cut..][i - cut] == sorted[i];
    }
  }

  lemma CutIsOlder(sorted: seq<Round>, cut: nat)
    requires SortedBy(Older, sorted) && cut <= |sorted|
    ensures forall r, kept | r in sorted && r !in sorted[cut..] && kept in sorted[cut..] :: Older(r, kept)
  {
    hide Older;
    forall r, kept | r in sorted && r !in sorted[cut..] && kept in sorted[cut..] ensures Older(r, kept) {
      var i :| 0 <= i < |sorted| && sorted[i] == r;
      var j :| 0 <= j < |sorted[cut..]| && sorted[cut..][j] == kept;
      InSuffix(sorted, cut, i);
      assert sorted[cut + j] == kept;
    }
  }

  /** Last used earlier, or at the same time with a smaller key. */
  predicate Precedes(a: Round, b: Round) {
    || a.lastUsedAt < b.lastUsedAt
    || (a.lastUsedAt == b.lastUsedAt && a.key != b.key && KeyLeq(a.key, b.key))
  }

  lemma OlderAndApart(a: Round, b: Round)
    requires Older(a, b) && a.key != b.key
    ensures Precedes(a, b)
  {}

  /** The cut keeps this many rounds: a positive limit at most, a negative one drops as many, and zero drops none. */
  lemma CutSize(rounds: seq<Round>, limit: int)
    ensures |SliceFromEnd(rounds, limit)|
         == if limit > 0 then (if |rounds| < limit then |rounds| else limit)
            else if |rounds| + limit > 0 then |rounds| + limit else 0
  {}

  /** The rounds within the cut are the last ones of the merge, each once, in strict order of last use and key. */
  lemma LimitedIsExact(rounds: seq<Round>, current: Option<string>, events: seq<ActorEvent>, limit: int)
    requires UniqueKeys(rounds)
    ensures var merged, limited := Merged(rounds, current, events), Limited(rounds, current, events, limit);
      && |limited| == (if limit > 0 then (if |merged| < limit then |merged| else limit)
                       else if |merged| + limit > 0 then |merged| + limit else 0)
      && (forall r | r in limited :: r in merged)
      && (forall i, j | 0 <= i < j < |limited| :: Precedes(limited[i], limited[j]))
      && (forall r, kept | r in merged && r !in limited && kept in limited :: Precedes(r, kept))
  {
    var merged := Merged(rounds, current, events);
    MergedIsUnique(rounds, current, events);
    OlderIsTotalOrder();
    SortSorts(Older, merged);
    SortIsUnique(merged);
    hide Older, Merged, Sort, TotalOrder, SortedBy, UniqueKeys, Precedes;
    var sorted := Sort(Older, merged);
    SliceIsSuffix(sorted, limit);
    CutSize(sorted, limit);
    hide SliceFromEnd;
    var limited := SliceFromEnd(sorted, limit);
    var cut := |sorted| - |limited|;
    SameMembers(sorted, merged);
    SuffixPrecedes(sorted, cut);
    forall r | r in limited ensures r in sorted {
      var i :| 0 <= i < |limited| && limited[i] == r;
      assert sorted[cut + i] == r;
    }
  }

  lemma MergedIsUnique(rounds: seq<Round>, current: Option<string>, events: seq<ActorEvent>)
    requires UniqueKeys(rounds)
    ensures UniqueKeys(Merged(rounds, current, events))
  {
    if current.Some? {
      WithoutDrops(rounds, MessageKey(current.value));
    }
    MergeAllIsUnique(Others(rounds, current), events);
  }

  lemma SortIsUnique(rounds: seq<Round>)
    requires UniqueKeys(rounds)
    ensures UniqueKeys(Sort(Older, rounds))
  {
    hide Older, Sort;
    OlderIsTotalOrder();
    var places := SortIsStable(Older, rounds);
    var sorted := Sort(Older, rounds);
    forall i, j | 0 <= i < j < |sorted| ensures sorted[i].key != sorted[j].key {
      assert places[i] != places[j];
    }
  }

  lemma SuffixPrecedes(sorted: seq<Round>, cut: nat)
    requires SortedBy(Older, sorted) && UniqueKeys(sorted) && cut <= |sorted|
    ensures forall i, j | 0 <= i < j < |sorted[cut..]| :: Precedes(sorted[cut..][i], sorted[cut..][j])
    ensures forall r, kept | r in sorted && r !in sorted[cut..] && kept in sorted[cut..] :: Precedes(r, kept)
  {
    hide Older, Precedes;
    forall i, j | 0 <= i < j < |sorted| ensures Precedes(sorted[i], sorted[j]) {
      OlderAndApart(sorted[i], sorted[j]);
    }
    forall r, kept | r in sorted && r !in sorted[cut..] && kept in sorted[cut..] ensures Precedes(r, kept) {
      var i :| 0 <= i < |sorted| && sorted[i] == r;
      var j :| 0 <= j < |sorted[cut..]| && sorted[cut..][j] == kept;
      InSuffix(sorted, cut, i);
      assert sorted[cut + j] == kept;
    }
  }

  lemma {:induction false} LinesBlankIff(events: seq<Event>)
    ensures Lines(events) == [] <==> forall e | e in events :: e.lines == []
    decreases |events|
  {
    if events != [] {
      LinesBlankIff(events[1..]);
      assert events == [events[0]] + events[1..];
      assert |Lines(events)| == |events[0].lines| + |Lines(events[1..])|;
    }
  }

  lemma PrintsNothingIff(events: seq<Event>)
    ensures Lines(Sort(Earlier, events)) == [] <==> forall e | e in events :: e.lines == []
  {
    hide Sort, Earlier, Lines;
    SortKeeps(Earlier, events);
    var sorted := Sort(Earlier, events);
    LinesBlankIff(sorted);
    forall e ensures e in sorted <==> e in events {
      assert e in multiset(sorted) <==> e in multiset(events);
    }
  }

  ghost predicate HasLines(round: Round) { exists e :: e in round.events && e.lines != [] }

  /** The printed rounds are these: the ones at `places` have an event that prints something. */
  ghost predicate PrintsAt(rounds: seq<Round>, view: seq<Printed>, places: seq<nat>) {
    && |places| == |view|
    && (forall i | 0 <= i < |places| :: places[i] < |rounds| && view[i].round == rounds[places[i]])
    && (forall i, j | 0 <= i < j < |places| :: places[i] < places[j])
    && (forall i | 0 <= i < |places| :: HasLines(rounds[places[i]]))
    && (forall k: nat {:trigger k in places} | k < |rounds| && HasLines(rounds[k]) :: k in places)
  }

  /** All rounds within the cut that have something to print are printed, in their order, and no others. */
  lemma {:induction false} PrintedInOrder(rounds: seq<Round>) returns (places: seq<nat>)
    ensures PrintsAt(rounds, Print(rounds), places)
    decreases |rounds|
  {
    hide Print, PrintsAt, Lines, Sort, Earlier;
    if rounds == [] {
      places := [];
      NothingPrinted();
    } else {
      var front, last := rounds[..|rounds| - 1], rounds[|rounds| - 1];
      places := PrintedInOrder(front);
      assert rounds == front + [last];
      PrintSnoc(front, last);
      PrintsNothingIff(last.events);
      PrintsOneMore(front, last, Print(front), places);
      if PrintOne(last) != [] {
        places := places + [|front|];
      } else {
        assert Print(front) + [] == Print(front);
      }
    }
  }

  function PrintOne(round: Round): seq<Printed> {
    var events := Sort(Earlier, round.events);
    if Lines(events) == [] then [] else [Printed(round, events, Lines(events))]
  }

  lemma NothingPrinted()
    ensures Print([]) == [] && PrintsAt([], [], [])
  {}

  lemma PrintUnfold(rounds: seq<Round>)
    requires rounds != []
    ensures Print(rounds) == PrintOne(rounds[0]) + Print(rounds[1..])
  {
    hide Sort, Lines, Earlier;
  }

  lemma {:induction false} PrintSnoc(rounds: seq<Round>, last: Round)
    ensures Print(rounds + [last]) == Print(rounds) + PrintOne(last)
    decreases |rounds|
  {
    hide Print, PrintOne;
    NothingPrinted();
    PrintUnfold(rounds + [last]);
    if rounds == [] {
      assert (rounds + [last])[1..] == [];
      assert PrintOne(last) + [] == [] + PrintOne(last);
    } else {
      PrintUnfold(rounds);
      assert (rounds + [last])[1..] == rounds[1..] + [last];
      PrintSnoc(rounds[1..], last);
      var first, rest := PrintOne(rounds[0]), Print(rounds[1..]);
      assert first + (rest + PrintOne(last)) == (first + rest) + PrintOne(last);
    }
  }

  lemma PrintsOneMore(rounds: seq<Round>, last: Round, view: seq<Printed>, places: seq<nat>)
    requires PrintsAt(rounds, view, places)
    ensures HasLines(last) ==> forall p: Printed | p.round == last ::
              PrintsAt(rounds + [last], view + [p], places + [|rounds|])
    ensures !HasLines(last) ==> PrintsAt(rounds + [last], view, places)
  {
    hide HasLines;
    var more := rounds + [last];
    forall k: nat | k < |rounds| && HasLines(more[k]) ensures k in places {
      assert k in places by { assert more[k] == rounds[k]; }
    }
    forall k: nat | k < |more| && HasLines(more[k]) ensures k in places + [|rounds|] {
      if k < |rounds| {
        assert k in places;
      } else {
        assert (places + [|rounds|])[|places|] == k;
      }
    }
  }

  // ---------------------------------------------------------------- rendering

  /** Builds the merge in a map of its own and leaves the rounds it was given alone. */
  method RenderRounds(rounds: seq<Round>, events: seq<ActorEvent>, current: Option<string>, limit: int)
    returns (view: seq<Printed>)
    requires UniqueKeys(rounds)
    ensures view == Print(Limited(rounds, current, events, limit))
  {
    hide Put, Without, UniqueKeys, Older, Sort, Print, Merge;
    var merged: seq<Round> := [];
    OthersStart(rounds, current);
    for i := 0 to |rounds|
      invariant merged == Others(rounds[..i], current)
    {
      OthersNext(rounds, i, current);
      if current.None? || rounds[i].key != MessageKey(current.value) {
        merged := Put(merged, rounds[i]);
      }
    }
    assert rounds[..|rounds|] == rounds;
    ghost var base := merged;
    assert events[0..] == events;
    for i := 0 to |events|
      invariant MergeAll(base, events) == MergeAll(merged, events[i..])
    {
      assert events[i..][0] == events[i] && events[i..][1..] == events[i + 1..];
      merged := Merge(merged, events[i]);
    }
    view := Print(SliceFromEnd(Sort(Older, merged), limit));
  }

  /** Rendering reads the store and changes nothing in it. */
  method Render(store: RecentContextStore, events: seq<ActorEvent>, current: Option<string>, limit: Option<int>)
    returns (view: seq<Printed>)
    requires store.Valid()
    ensures view == Print(Limited(store.rounds, current, events, if limit.None? then store.roundLimit else limit.value))
  {
    StoreIsUnique(store.roundLimit, store.log);
    view := RenderRounds(store.rounds, events, current, if limit.None? then store.roundLimit else limit.value);
  }

  lemma OthersStart(rounds: seq<Round>, current: Option<string>)
    ensures Others(rounds[..0], current) == []
  {}

  lemma OthersNext(rounds: seq<Round>, i: nat, current: Option<string>)
    requires UniqueKeys(rounds) && i < |rounds|
    ensures Others(rounds[..i + 1], current)
         == if current.None? || rounds[i].key != MessageKey(current.value)
            then Put(Others(rounds[..i], current), rounds[i]) else Others(rounds[..i], current)
  {
    hide MessageKey;
    assert rounds[..i + 1] == rounds[..i] + [rounds[i]];
    var key := if current.None? then "" else MessageKey(current.value);
    WithoutSplits(rounds[..i], [rounds[i]], key);
    WithoutIsPart(rounds[..i], key);
    PutNew(Others(rounds[..i], current), rounds[i]);
  }

  lemma {:induction false} WithoutSplits(a: seq<Round>, b: seq<Round>, key: string)
    ensures Without(a + b, key) == Without(a, key) + Without(b, key)
    decreases |a|
  {
    if a == [] {
      assert a + b == b;
    } else {
      assert (a + b)[1..] == a[1..] + b;
      WithoutSplits(a[1..], b, key);
    }
  }

  lemma {:induction false} PutNew(rounds: seq<Round>, round: Round)
    requires forall r | r in rounds :: r.key != round.key
    ensures Put(rounds, round) == rounds + [round]
    decreases |rounds|
  {
    if rounds != [] { PutNew(rounds[1..], round); }
  }
}
