/**
 The recent-context store as an object, and what its rounds contain.
 */
module RecentStore {
  import opened Integers
  import opened Options
  import opened Sorting
  import opened RecentContext

  // ---------------------------------------------------------------- events of a round

  /** The events written for `key` since it last entered the store. */
  function Kept(limit: nat, log: seq<Write>, key: string): seq<Event> {
    if log == [] then []
    else
      var before, write := log[..|log| - 1], log[|log| - 1];
      if MessageKey(write.messageId) != key then Kept(limit, before, key)
      else (if key in Live(limit, before) then Kept(limit, before, key) else [])
           + [Event(write.lines, write.timestamp, |before|)]
  }

  lemma {:induction false} FindAny(list: seq<Round>, key: string)
    ensures match Find(list, key)
      case None => forall r | r in list :: r.key != key
      case Some(round) => round in list && round.key == key
    decreases |list|
  {
    if list != [] { FindAny(list[1..], key); }
  }

  lemma {:induction false} WithoutIsPart(list: seq<Round>, key: string)
    ensures forall r | r in Without(list, key) :: r in list && r.key != key
    decreases |list|
  {
    if list != [] { WithoutIsPart(list[1..], key); }
  }

  lemma KeyIsThere(list: seq<Round>, key: string)
    ensures key in Keys(list) <==> exists r :: r in list && r.key == key
  {
    KeysAt(list);
    if key in Keys(list) {
      var i :| 0 <= i < |list| && Keys(list)[i] == key;
      assert list[i] in list;
    }
    if r :| r in list && r.key == key {
      var i :| 0 <= i < |list| && list[i] == r;
      assert Keys(list)[i] == key;
    }
  }

  /** Each round holds precisely the events of its message since the message last entered. */
  lemma {:induction false} RoundsHoldKeptEvents(limit: nat, log: seq<Write>)
    ensures forall r | r in LruAfter(limit, log) :: r.events == Kept(limit, log, r.key)
    decreases |log|
  {
    if log != [] {
      var before, write := log[..|log| - 1], log[|log| - 1];
      var list, key := LruAfter(limit, before), MessageKey(write.messageId);
      RoundsHoldKeptEvents(limit, before);
      LruHoldsLiveKeys(limit, before);
      FindAny(list, key);
      WithoutIsPart(list, key);
      KeyIsThere(list, key);
      hide Find, Without, MessageKey, Live, Keys, LruAfter, LruStep, Kept, Touched;
      KeptStep(limit, log);
      TouchedEvents(Find(list, key), write, |before|);
      forall r | r in LruAfter(limit, log) ensures r.events == Kept(limit, log, r.key) {
        LruMembers(limit, log, r);
      }
    }
  }

  lemma KeptStep(limit: nat, log: seq<Write>)
    requires log != []
    ensures var before, write := log[..|log| - 1], log[|log| - 1];
      forall key :: Kept(limit, log, key) ==
        if MessageKey(write.messageId) != key then Kept(limit, before, key)
        else (if key in Live(limit, before) then Kept(limit, before, key) else [])
             + [Event(write.lines, write.timestamp, |before|)]
  {
    hide Live, MessageKey;
  }

  lemma TouchedEvents(current: Option<Round>, write: Write, sequence: nat)
    ensures var touched := Touched(current, write, sequence);
      && touched.key == MessageKey(write.messageId)
      && touched.events == (if current.None? then [] else current.value.events)
         + [Event(write.lines, write.timestamp, sequence)]
  {}

  lemma LruMembers(limit: nat, log: seq<Write>, r: Round)
    requires log != [] && r in LruAfter(limit, log)
    ensures var before, write := log[..|log| - 1], log[|log| - 1];
      var list, key := LruAfter(limit, before), MessageKey(write.messageId);
      r in Without(list, key) || r == Touched(Find(list, key), write, |before|)
  {
    hide Find, Without, MessageKey, Touched;
  }

  /** Where the current stay of a message begins. */
  function Entry(limit: nat, log: seq<Write>, key: string): nat {
    if log == [] then 0
    else
      var before := log[..|log| - 1];
      if MessageKey(log[|log| - 1].messageId) == key && key !in Live(limit, before) then |before|
      else Entry(limit, before, key)
  }

  lemma LiveGrowsByOne(limit: nat, log: seq<Write>)
    requires log != []
    ensures forall k | k in Live(limit, log) ::
            k == MessageKey(log[|log| - 1].messageId) || k in Live(limit, log[..|log| - 1])
  {
    var before := log[..|log| - 1];
    LruHoldsLiveKeys(limit, before);
    LruHoldsLiveKeys(limit, log);
    var list, key := LruAfter(limit, before), MessageKey(log[|log| - 1].messageId);
    WithoutIsPart(list, key);
    hide Without, Find, MessageKey, Live;
    forall k | k in Live(limit, log) ensures k == key || k in Live(limit, before) {
      KeyIsThere(LruAfter(limit, log), k);
      KeyIsThere(list, k);
      var r :| r in LruAfter(limit, log) && r.key == k;
      if r !in Without(list, key) {
        TouchedKey(list, log[|log| - 1], |before|);
      }
    }
  }

  /** A message that is in the store has been there, without a break, since its entry; its kept
      events are exactly its writes from the entry on, numbered by their place in the log. */
  lemma {:induction false} KeptIsUnbrokenStay(limit: nat, log: seq<Write>, key: string)
    requires key in Live(limit, log)
    ensures var e := Entry(limit, log, key);
      && e < |log| && MessageKey(log[e].messageId) == key && key !in Live(limit, log[..e])
      && (forall j | e < j <= |log| :: key in Live(limit, log[..j]))
      && (forall i | 0 <= i < |Kept(limit, log, key)| ::
            var event := Kept(limit, log, key)[i];
            && e <= event.sequence < |log| && MessageKey(log[event.sequence].messageId) == key
            && event == Event(log[event.sequence].lines, log[event.sequence].timestamp, event.sequence))
      && (forall i, j | 0 <= i < j < |Kept(limit, log, key)| ::
            Kept(limit, log, key)[i].sequence < Kept(limit, log, key)[j].sequence)
    decreases |log|
  {
    hide Live, MessageKey;
    if log != [] {
      var before, last := log[..|log| - 1], |log| - 1;
      LiveGrowsByOne(limit, log);
      assert log[..|log|] == log;
      if key in Live(limit, before) {
        KeptIsUnbrokenStay(limit, before, key);
        assert forall j | 0 <= j <= last :: log[..j] == before[..j];
      } else {
        assert log[..last] == before;
      }
    } else {
      NothingLive(limit, key);
    }
  }

  lemma NothingLive(limit: nat, key: string)
    ensures key !in Live(limit, [])
  {}

  lemma NewcomerEnters(limit: nat, log: seq<Write>, key: string)
    requires log != [] && key in Live(limit, log)
    ensures key !in Live(limit, log[..|log| - 1]) ==> Entry(limit, log, key) == |log| - 1
  {
    LiveGrowsByOne(limit, log);
    hide Live;
  }

  /** No write of the stay is missing from the kept events. */
  lemma {:induction false} KeptIsComplete(limit: nat, log: seq<Write>, key: string, j: nat)
    requires key in Live(limit, log) && Entry(limit, log, key) <= j < |log| && MessageKey(log[j].messageId) == key
    ensures Event(log[j].lines, log[j].timestamp, j) in Kept(limit, log, key)
    decreases |log|
  {
    hide Live, MessageKey;
    var before := log[..|log| - 1];
    if j < |before| {
      LiveGrowsByOne(limit, log);
      NewcomerEnters(limit, log, key);
      assert before[j] == log[j];
      KeptIsComplete(limit, before, key, j);
    }
  }

  // ---------------------------------------------------------------- the store object

  lemma {:induction false} SortedTheSame(a: seq<Round>, b: seq<Round>)
    requires multiset(a) == multiset(b) && SortedBy(Older, a) && Ascending(b)
    ensures a == b
    decreases |b|
  {
    assert |multiset(a)| == |a| && |multiset(b)| == |b|;
    if b != [] {
      FirstsAgree(a, b);
      TailsAgree(a, b);
      SortedTheSame(a[1..], b[1..]);
      assert a == [a[0]] + a[1..] && b == [b[0]] + b[1..];
    }
  }

  lemma FirstsAgree(a: seq<Round>, b: seq<Round>)
    requires multiset(a) == multiset(b) && SortedBy(Older, a) && Ascending(b) && a != [] && b != []
    ensures a[0] == b[0]
  {
    hide KeyLeq;
    assert a[0] in multiset(b) && b[0] in multiset(a);
    var i :| 0 <= i < |b| && b[i] == a[0];
    var j :| 0 <= j < |a| && a[j] == b[0];
  }

  lemma TailsAgree(a: seq<Round>, b: seq<Round>)
    requires multiset(a) == multiset(b) && a != [] && b != [] && a[0] == b[0]
    ensures multiset(a[1..]) == multiset(b[1..])
  {
    assert a == [a[0]] + a[1..] && b == [b[0]] + b[1..];
    assert multiset(a[1..]) == multiset(a) - multiset{a[0]} == multiset(b[1..]);
  }

  lemma {:induction false} NothingKept(limit: int, log: seq<Write>)
    requires limit <= 0
    ensures StoreAfter(limit, log) == []
    decreases |log|
  {
    if log != [] {
      var before, write := log[..|log| - 1], log[|log| - 1];
      NothingKept(limit, before);
      EvictsAll(Put([], Touched(Find([], MessageKey(write.messageId)), write, |before|)), limit);
    }
  }

  lemma {:induction false} EvictsAll(rounds: seq<Round>, limit: int)
    requires limit <= 0
    ensures Evict(rounds, limit) == []
    decreases |rounds|
  {
    if rounds != [] {
      WithoutShrinks(rounds, Oldest(rounds));
      EvictsAll(Without(rounds, Oldest(rounds).key), limit);
    }
  }

  predicate White(c: char) {
    c in {' ', '\t', '\n', '\r', '\U{0B}', '\U{0C}', '\U{A0}', '\U{1680}', '\U{2028}', '\U{2029}', '\U{202F}',
          '\U{205F}', '\U{3000}', '\U{FEFF}'} || '\U{2000}' <= c <= '\U{200A}'
  }

  predicate Blank(text: string) { forall i | 0 <= i < |text| :: White(text[i]) }

  /** White space is what `trim` removes: tab to carriage return, space, and the Unicode spaces. */
  lemma BlankIsWhite(text: string, c: char)
    ensures Blank(text + [c]) <==> Blank(text) && var code := c as int;
      || 9 <= code <= 13 || code == 32 || code == 160 || code == 5760 || 8192 <= code <= 8202
      || code in {8232, 8233, 8239, 8287, 12288, 65279}
    ensures Blank("")
  {
    var longer := text + [c];
    assert longer[|text|] == c;
    assert forall i | 0 <= i < |text| :: longer[i] == text[i];
  }

  lemma StoreStep(limit: int, log: seq<Write>, write: Write)
    ensures StoreAfter(limit, log + [write]) == Append(StoreAfter(limit, log), limit, write, |log|)
  {
    assert (log + [write])[..|log|] == log;
  }

  /** Whatever the timestamps, an append to a store within its limit evicts one round at most. */
  lemma AppendEvictsAtMostOne(rounds: seq<Round>, limit: nat, write: Write, sequence: nat)
    requires UniqueKeys(rounds) && |rounds| <= limit
    ensures var put := Put(rounds, Touched(Find(rounds, MessageKey(write.messageId)), write, sequence));
      && put != [] && (if |put| <= limit then Append(rounds, limit, write, sequence) == put
                       else Append(rounds, limit, write, sequence) == Without(put, Oldest(put).key))
  {
    var touched := Touched(Find(rounds, MessageKey(write.messageId)), write, sequence);
    PutGrows(rounds, touched);
    hide Put, Touched, Find, Without, Evict, MessageKey;
    var put := Put(rounds, touched);
    if |put| > limit {
      EvictStep(put, limit);
      EvictDone(Without(put, Oldest(put).key), limit);
    } else {
      EvictDone(put, limit);
    }
  }

  /** And that one was used before all others, or at the same time under a smaller key. */
  lemma EvictedIsOldest(put: seq<Round>, r: Round)
    requires UniqueKeys(put) && r in put && r.key != Oldest(put).key
    ensures var victim := Oldest(put);
      victim.lastUsedAt < r.lastUsedAt || (victim.lastUsedAt == r.lastUsedAt && KeyLeq(victim.key, r.key))
    ensures r in Without(put, Oldest(put).key)
  {
    WithoutDrops(put, Oldest(put).key);
    hide Sort, KeyLeq;
  }

  // ---------------------------------------------------------------- what a stored round is

  /** A round of one message: all of its writes from some write on, numbered by their places in the
      log, last used at the latest of their times, or at zero when that is later. */
  ghost predicate Recounts(log: seq<Write>, r: Round) {
    && r.messageId.Some? && r.key == "message:" + r.messageId.value && r.events != []
    && (forall i | 0 <= i < |r.events| :: IsWrite(log, r.messageId.value, r.events[i]))
    && (forall i, j | 0 <= i < j < |r.events| :: r.events[i].sequence < r.events[j].sequence)
    && (forall n: nat | r.events[0].sequence <= n < |log| && log[n].messageId == r.messageId.value ::
          exists i :: 0 <= i < |r.events| && r.events[i].sequence == n)
    && 0 <= r.lastUsedAt && (forall i | 0 <= i < |r.events| :: r.events[i].timestamp <= r.lastUsedAt)
    && (r.lastUsedAt == 0 || exists i :: 0 <= i < |r.events| && r.events[i].timestamp == r.lastUsedAt)
  }

  predicate IsWrite(log: seq<Write>, id: string, e: Event) {
    e.sequence < |log| && log[e.sequence].messageId == id && e.lines == log[e.sequence].lines
        && e.timestamp == log[e.sequence].timestamp
  }

  /** A write of another message leaves a round as it was. */
  lemma RecountsStill(log: seq<Write>, write: Write, r: Round)
    requires Recounts(log, r) && r.key != "message:" + write.messageId
    ensures Recounts(log + [write], r)
  {
    var more := log + [write];
    forall i | 0 <= i < |r.events| ensures IsWrite(more, r.messageId.value, r.events[i]) {
      assert IsWrite(log, r.messageId.value, r.events[i]);
      assert more[r.events[i].sequence] == log[r.events[i].sequence];
    }
    forall n: nat | r.events[0].sequence <= n < |more| && more[n].messageId == r.messageId.value
      ensures exists i :: 0 <= i < |r.events| && r.events[i].sequence == n
    {
      assert n < |log| && log[n] == more[n];
    }
  }

  lemma RecountsFirst(log: seq<Write>, write: Write)
    ensures Recounts(log + [write], Touched(None, write, |log|))
  {}

  lemma RecountsNext(log: seq<Write>, write: Write, r: Round)
    requires Recounts(log, r) && r.key == "message:" + write.messageId
    ensures Recounts(log + [write], Touched(Some(r), write, |log|))
  {
    var more, id, t := log + [write], write.messageId, Touched(Some(r), write, |log|);
    assert r.messageId.value == r.key[8..] == id;
    hide IsWrite;
    NextWrites(log, write, r.events);
    forall n: nat | t.events[0].sequence <= n < |more| && more[n].messageId == id
      ensures exists i :: 0 <= i < |t.events| && t.events[i].sequence == n
    {
      NextIsThere(log, write, r, n);
    }
    LatestOfNext(r.events, Event(write.lines, write.timestamp, |log|), r.lastUsedAt);
  }

  lemma NextWrites(log: seq<Write>, write: Write, events: seq<Event>)
    requires forall i | 0 <= i < |events| :: IsWrite(log, write.messageId, events[i])
    requires forall i, j | 0 <= i < j < |events| :: events[i].sequence < events[j].sequence
    ensures var all := events + [Event(write.lines, write.timestamp, |log|)];
      && (forall i | 0 <= i < |all| :: IsWrite(log + [write], write.messageId, all[i]))
      && (forall i, j | 0 <= i < j < |all| :: all[i].sequence < all[j].sequence)
  {
    forall i | 0 <= i < |events| ensures IsWrite(log + [write], write.messageId, events[i]) {
      assert (log + [write])[events[i].sequence] == log[events[i].sequence];
    }
  }

  lemma NextIsThere(log: seq<Write>, write: Write, r: Round, n: nat)
    requires Recounts(log, r) && r.messageId == Some(write.messageId)
    requires r.events[0].sequence <= n <= |log| && (log + [write])[n].messageId == write.messageId
    ensures var all := r.events + [Event(write.lines, write.timestamp, |log|)];
      exists i :: 0 <= i < |all| && all[i].sequence == n
  {
    var all := r.events + [Event(write.lines, write.timestamp, |log|)];
    if n < |log| {
      assert log[n].messageId == write.messageId;
      var i :| 0 <= i < |r.events| && r.events[i].sequence == n;
      assert all[i].sequence == n;
    } else {
      assert all[|r.events|].sequence == n;
    }
  }

  lemma LatestOfNext(events: seq<Event>, e: Event, used: int)
    requires 0 <= used && forall i | 0 <= i < |events| :: events[i].timestamp <= used
    requires used == 0 || exists i :: 0 <= i < |events| && events[i].timestamp == used
    ensures var all, latest := events + [e], Max(used, e.timestamp);
      && 0 <= latest && (forall i | 0 <= i < |all| :: all[i].timestamp <= latest)
      && (latest == 0 || exists i :: 0 <= i < |all| && all[i].timestamp == latest)
  {
    var all := events + [e];
    assert all[|events|] == e;
    if i :| 0 <= i < |events| && events[i].timestamp == used {
      assert all[i].timestamp == used;
    }
  }

  /** Whatever the limit and the timestamps: every round in the store is such a round. */
  lemma {:induction false} StoreRecounts(limit: int, log: seq<Write>, r: Round)
    requires r in StoreAfter(limit, log)
    ensures Recounts(log, r)
    decreases |log|
  {
    hide Recounts, Touched, Put, Evict, Find, MessageKey;
    if log != [] {
      var before, write := log[..|log| - 1], log[|log| - 1];
      assert log == before + [write];
      var rounds, key := StoreAfter(limit, before), MessageKey(write.messageId);
      var touched := Touched(Find(rounds, key), write, |before|);
      StoreIsUnique(limit, before);
      EvictIsPart(Put(rounds, touched), limit);
      PutReplaces(rounds, touched);
      PutMembers(rounds, touched, r);
      TouchedEvents(Find(rounds, key), write, |before|);
      IsMessageKey(write.messageId);
      if r == touched {
        FindFinds(rounds, key);
        if Find(rounds, key).Some? {
          StoreRecounts(limit, before, Find(rounds, key).value);
          RecountsNext(before, write, Find(rounds, key).value);
        } else {
          RecountsFirst(before, write);
        }
      } else {
        StoreRecounts(limit, before, r);
        RecountsStill(before, write, r);
      }
    }
  }

  lemma IsMessageKey(id: string)
    ensures MessageKey(id) == "message:" + id
  {}

  lemma PutMembers(rounds: seq<Round>, round: Round, r: Round)
    requires UniqueKeys(rounds) && r in Put(rounds, round)
    ensures r == round || (r in rounds && r.key != round.key)
  {
    PutReplaces(rounds, round);
    WithoutDrops(rounds, round.key);
    hide Put, Without, UniqueKeys;
    assert r in multiset(Put(rounds, round));
    assert r in multiset(Without(rounds, round.key)) || r == round;
  }

  lemma {:induction false} EvictIsPart(rounds: seq<Round>, limit: int)
    ensures forall r | r in Evict(rounds, limit) :: r in rounds
    decreases |rounds|
  {
    if |rounds| > limit && rounds != [] {
      WithoutShrinks(rounds, Oldest(rounds));
      WithoutIsPart(rounds, Oldest(rounds).key);
      EvictIsPart(Without(rounds, Oldest(rounds).key), limit);
    }
  }

  lemma MovedIsPut(rounds: seq<Round>, list: seq<Round>, round: Round)
    requires multiset(rounds) == multiset(list) && UniqueKeys(rounds) && UniqueKeys(list)
    ensures var put, moved := Put(rounds, round), Without(list, round.key) + [round];
      multiset(put) == multiset(moved) && UniqueKeys(put) && UniqueKeys(moved)
  {
    hide Put, Without, Find, UniqueKeys;
    SameFind(rounds, list, round.key);
    PutReplaces(rounds, round);
    WithoutDrops(list, round.key);
    UniqueMoved(Without(list, round.key), round);
  }

  lemma SameMembers(a: seq<Round>, b: seq<Round>)
    requires multiset(a) == multiset(b)
    ensures |a| == |b| && forall r :: r in a <==> r in b
  {
    assert |multiset(a)| == |a| && |multiset(b)| == |b|;
    forall r ensures r in a <==> r in b {
      assert r in multiset(a) <==> r in multiset(b);
    }
  }

  /** Dropping a member by its key, or the front, drops one occurrence. */
  lemma DropOne(put: seq<Round>, o: Round)
    requires UniqueKeys(put) && o in put
    ensures multiset(Without(put, o.key)) == multiset(put) - multiset{o}
  {
    FindFinds(put, o.key);
    UniqueOnce(put, o);
    hide UniqueKeys, Find, Without;
    forall r ensures multiset(Without(put, o.key))[r] == (multiset(put) - multiset{o})[r] {
      WithoutCounts(put, o.key, r);
      if r.key == o.key && r != o {
        assert r !in put && r !in multiset(put);
      }
    }
  }

  lemma {:induction false} UniqueOnce(rounds: seq<Round>, r: Round)
    requires UniqueKeys(rounds) && r in rounds
    ensures multiset(rounds)[r] == 1
    decreases |rounds|
  {
    assert rounds == [rounds[0]] + rounds[1..];
    if r == rounds[0] {
      assert r !in rounds[1..] && r !in multiset(rounds[1..]);
    } else {
      UniqueOnce(rounds[1..], r);
    }
  }

  lemma OlderBothWays(a: Round, b: Round)
    requires Older(a, b) && Older(b, a)
    ensures a.key == b.key
  {
    KeyLeqIsTotal(a.key, b.key);
    hide KeyLeq;
  }

  /** The evicted round is the front of the moved list exactly when that one is the oldest. */
  lemma EvictsFrontIff(put: seq<Round>, moved: seq<Round>)
    requires multiset(put) == multiset(moved) && UniqueKeys(put) && UniqueKeys(moved) && put != []
    ensures multiset(Without(put, Oldest(put).key)) == multiset(moved[1..])
            <==> forall r | r in moved :: Older(moved[0], r)
  {
    SameMembers(put, moved);
    var o, front := Oldest(put), moved[0];
    DropOne(put, o);
    assert moved == [front] + moved[1..];
    assert multiset(moved[1..]) == multiset(moved) - multiset{front};
    hide Older, Without, Sort;
    assert front in put && o in moved;
    if forall r | r in moved :: Older(front, r) {
      OlderBothWays(front, o);
      FindFinds(moved, o.key);
    }
    if multiset(put) - multiset{o} == multiset(moved) - multiset{front} {
      SameDropped(multiset(put), o, front);
    }
  }

  lemma SameDropped(all: multiset<Round>, a: Round, b: Round)
    requires a in all && b in all && all - multiset{a} == all - multiset{b}
    ensures a == b
  {
    assert (all - multiset{a})[a] == all[a] - 1;
  }

  /** Nothing has to go, or the front of the moved list is its oldest round by timestamp and key. */
  ghost predicate FrontMayGo(list: seq<Round>, limit: nat, write: Write, sequence: nat) {
    var key := MessageKey(write.messageId);
    var moved := Without(list, key) + [Touched(Find(list, key), write, sequence)];
    |moved| <= limit || forall r | r in moved :: Older(moved[0], r)
  }

  /** Whatever the timestamps: an append is one step of the least-recently-used list exactly when nothing has
      to go, or the front of the list is the oldest round by timestamp and key. */
  lemma StepIsLruIff(rounds: seq<Round>, list: seq<Round>, limit: nat, write: Write, sequence: nat)
    requires multiset(rounds) == multiset(list) && UniqueKeys(rounds) && UniqueKeys(list) && |list| <= limit
    ensures multiset(Append(rounds, limit, write, sequence)) == multiset(LruStep(list, limit, write, sequence))
       <==> FrontMayGo(list, limit, write, sequence)
  {
    var key := MessageKey(write.messageId);
    var touched := Touched(Find(list, key), write, sequence);
    TouchedEvents(Find(list, key), write, sequence);
    SameFind(rounds, list, key);
    MovedIsPut(rounds, list, touched);
    AppendEvictsAtMostOne(rounds, limit, write, sequence);
    hide Put, Touched, Find, Without, Append, MessageKey, Older, UniqueKeys;
    var put, moved := Put(rounds, touched), Without(list, key) + [touched];
    SameMembers(put, moved);
    if |put| > limit {
      EvictsFrontIff(put, moved);
    }
  }

  lemma {:induction false} LruIsUnique(limit: nat, log: seq<Write>)
    ensures UniqueKeys(LruAfter(limit, log)) && |LruAfter(limit, log)| <= limit
    decreases |log|
  {
    hide UniqueKeys, LruAfter, Without, MessageKey, Find, Touched;
    NothingInLru(limit);
    if log != [] {
      var before, write := log[..|log| - 1], log[|log| - 1];
      var list, key := LruAfter(limit, before), MessageKey(write.messageId);
      LruIsUnique(limit, before);
      TouchedEvents(Find(list, key), write, |before|);
      WithoutDrops(list, key);
      LruUnfolds(limit, log);
      UniqueMoved(Without(list, key), Touched(Find(list, key), write, |before|));
    }
  }

  lemma NothingInLru(limit: nat)
    ensures LruAfter(limit, []) == [] && UniqueKeys([])
  {}

  lemma UniqueMoved(rest: seq<Round>, last: Round)
    requires UniqueKeys(rest) && forall r | r in rest :: r.key != last.key
    ensures UniqueKeys(rest + [last]) && UniqueKeys((rest + [last])[1..])
  {
    assert forall i | 0 <= i < |rest| :: rest[i] in rest;
  }

  /** The store has held the rounds of the list after every write so far. */
  ghost predicate LruSoFar(limit: nat, log: seq<Write>) {
    multiset(StoreAfter(limit, log)) == multiset(LruAfter(limit, log))
        && (log == [] || LruSoFar(limit, log[..|log| - 1]))
  }

  ghost predicate FrontsMayGo(limit: nat, log: seq<Write>) {
    log == [] ||
    (var before := log[..|log| - 1];
     FrontsMayGo(limit, before) && FrontMayGo(LruAfter(limit, before), limit, log[|log| - 1], |before|))
  }

  /** For any timestamps: the store is the least-recently-used list over a whole run exactly when, at each write
      that something has to go for, the front of the list is the oldest round by timestamp and key. */
  lemma {:induction false} StoreIsLruIff(limit: nat, log: seq<Write>)
    ensures LruSoFar(limit, log) <==> FrontsMayGo(limit, log)
    decreases |log|
  {
    hide StoreAfter, LruAfter, Append, LruStep, FrontMayGo;
    if log == [] {
      NothingInLru(limit);
      NothingStored(limit);
    } else {
      var before, write := log[..|log| - 1], log[|log| - 1];
      StoreIsLruIff(limit, before);
      if LruSoFar(limit, before) {
        StoreIsUnique(limit, before);
        LruIsUnique(limit, before);
        StepIsLruIff(StoreAfter(limit, before), LruAfter(limit, before), limit, write, |before|);
        BothUnfold(limit, log);
      }
    }
  }

  lemma NothingStored(limit: nat)
    ensures StoreAfter(limit, []) == []
  {}

  lemma BothUnfold(limit: nat, log: seq<Write>)
    requires log != []
    ensures var before, write := log[..|log| - 1], log[|log| - 1];
      && StoreAfter(limit, log) == Append(StoreAfter(limit, before), limit, write, |before|)
      && LruAfter(limit, log) == LruStep(LruAfter(limit, before), limit, write, |before|)
  {
    hide Append, LruStep;
  }

  /** Two messages written at the same time to a store of one: the one with the greater key stays, so the
      round just written is the one to go when its key is the smaller. */
  lemma TieKeepsGreaterKey(first: Write, second: Write)
    requires first.timestamp == second.timestamp && first.messageId != second.messageId
    ensures var one, two := Touched(None, first, 0), Touched(None, second, 1);
      StoreAfter(1, [first, second]) == if KeyLeq(one.key, two.key) then [two] else [one]
  {
    hide KeyLeq, MessageKey, StoreAfter, Append, Put, Find, Without, Evict;
    var one, two := Touched(None, first, 0), Touched(None, second, 1);
    KeysDiffer(first.messageId, second.messageId);
    StoreStep(1, [], first);
    StoreStep(1, [first], second);
    assert [] + [first] == [first] && [first] + [second] == [first, second];
    PutOne(one);
    AppendEvictsAtMostOne([], 1, first, 0);
    PutTwo(one, two);
    AppendEvictsAtMostOne([one], 1, second, 1);
    OldestOfTwo(one, two);
  }

  lemma PutOne(one: Round)
    ensures Put([], one) == [one] && Find([], one.key) == None && StoreAfter(1, []) == []
  {}

  lemma OldestOfTwo(one: Round, two: Round)
    requires one.lastUsedAt == two.lastUsedAt && one.key != two.key
    ensures Oldest([one, two]) == if KeyLeq(one.key, two.key) then one else two
  {
    KeyLeqIsTotal(one.key, two.key);
    hide KeyLeq, Sort;
    assert one in [one, two] && two in [one, two];
  }

  lemma KeysDiffer(a: string, b: string)
    requires a != b
    ensures MessageKey(a) != MessageKey(b)
  {
    assert MessageKey(a)[8..] == a && MessageKey(b)[8..] == b;
  }

  lemma PutTwo(one: Round, two: Round)
    requires one.key != two.key
    ensures Put([one], two) == [one, two] && Without([one, two], one.key) == [two]
            && Without([one, two], two.key) == [one]
    ensures Find([one], two.key) == None
  {
    assert [one][1..] == [] && [one, two][1..] == [two] && [two][1..] == [];
    assert Without([two], one.key) == [two] + Without([], one.key)
           && Without([two], two.key) == [] + Without([], two.key);
    assert Without([one, two], one.key) == [] + Without([two], one.key);
    assert Without([one, two], two.key) == [one] + Without([two], two.key);
  }

  lemma {:induction false} PutGrows(rounds: seq<Round>, round: Round)
    ensures 0 < |Put(rounds, round)| <= |rounds| + 1
    decreases |rounds|
  {
    if rounds != [] { PutGrows(rounds[1..], round); }
  }

  lemma {:induction false} EvictIsUnique(rounds: seq<Round>, limit: int)
    requires UniqueKeys(rounds)
    ensures UniqueKeys(Evict(rounds, limit))
    decreases |rounds|
  {
    if |rounds| > limit && rounds != [] {
      WithoutShrinks(rounds, Oldest(rounds));
      WithoutDrops(rounds, Oldest(rounds).key);
      EvictIsUnique(Without(rounds, Oldest(rounds).key), limit);
    }
  }

  lemma {:induction false} StoreIsUnique(limit: int, log: seq<Write>)
    ensures UniqueKeys(StoreAfter(limit, log))
    decreases |log|
  {
    if log != [] {
      var before, write := log[..|log| - 1], log[|log| - 1];
      StoreIsUnique(limit, before);
      var rounds := StoreAfter(limit, before);
      var touched := Touched(Find(rounds, MessageKey(write.messageId)), write, |before|);
      PutIsUnique(rounds, touched);
      EvictIsUnique(Put(rounds, touched), limit);
    }
  }

  class RecentContextStore {
    const roundLimit: int
    var rounds: seq<Round>
    var sequence: nat
    ghost var log: seq<Write>

    ghost predicate Valid() reads this {
      rounds == StoreAfter(roundLimit, log) && sequence == |log|
    }

    constructor (roundLimit: int)
      ensures Valid() && log == [] && this.roundLimit == roundLimit
    {
      this.roundLimit := roundLimit;
      rounds, sequence, log := [], 0, [];
    }

    /** Records an event under its message. A blank message id, or blank content where the event
        has any, is refused and changes nothing. */
    method AppendEvent(write: Write, content: Option<string>) returns (accepted: bool)
      requires Valid()
      modifies this
      ensures Valid() && accepted == !(Blank(write.messageId) || (content.Some? && Blank(content.value)))
      ensures log == if accepted then old(log) + [write] else old(log)
    {
      hide Evict, Put, Find, Touched, MessageKey, StoreAfter, Without, Blank, Older, Sort;
      if Blank(write.messageId) || (content.Some? && Blank(content.value)) {
        return false;
      }
      StoreStep(roundLimit, log, write);
      var current := Find(rounds, MessageKey(write.messageId));
      rounds := Put(rounds, Touched(current, write, sequence));
      ghost var grown := rounds;
      while |rounds| > roundLimit && rounds != []
        invariant sequence == old(sequence) && log == old(log)
        invariant Evict(rounds, roundLimit) == Evict(grown, roundLimit)
        decreases |rounds|
      {
        EvictStep(rounds, roundLimit);
        rounds := Without(rounds, Oldest(rounds).key);
      }
      EvictDone(rounds, roundLimit);
      sequence := sequence + 1;
      log := log + [write];
      accepted := true;
    }

    /** The rounds from old to new: with rising positive timestamps, the least-recently-used list. */
    method GetRounds() returns (view: seq<Round>)
      requires Valid()
      ensures SortedBy(Older, view) && multiset(view) == multiset(rounds)
      ensures Increasing(log) ==> view == if roundLimit <= 0 then [] else LruAfter(roundLimit, log)
    {
      OlderIsTotalOrder();
      SortSorts(Older, rounds);
      view := Sort(Older, rounds);
      if Increasing(log) {
        if roundLimit <= 0 {
          NothingKept(roundLimit, log);
        } else {
          StoreIsLru(roundLimit, log);
          SortedTheSame(view, LruAfter(roundLimit, log));
        }
      }
    }
  }

  lemma EvictStep(rounds: seq<Round>, limit: int)
    requires |rounds| > limit && rounds != []
    ensures Evict(rounds, limit) == Evict(Without(rounds, Oldest(rounds).key), limit)
    ensures |Without(rounds, Oldest(rounds).key)| < |rounds|
  {
    WithoutShrinks(rounds, Oldest(rounds));
  }

  lemma EvictDone(rounds: seq<Round>, limit: int)
    requires |rounds| <= limit || rounds == []
    ensures Evict(rounds, limit) == rounds
  {}
}
