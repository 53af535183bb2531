/**
 The recent-context store of one conversation: rounds keyed by message, the least
 recently used round evicted first, and the bounded view that goes into a prompt.
 */
module RecentContext {
  import opened Integers
  import opened Options
  import opened Sorting

  /** An event with the lines it prints; rounds group the events of one message. */
  datatype Event = Event(lines: seq<string>, timestamp: int, sequence: nat)
  datatype Round = Round(key: string, messageId: Option<string>, events: seq<Event>, lastUsedAt: int)

  /** One call of an append method of the store. */
  datatype Write = Write(messageId: string, lines: seq<string>, timestamp: int)

  function MessageKey(id: string): string { "message:" + id }

  // ---------------------------------------------------------------- orders

  predicate KeyLeq(a: string, b: string) {
    a == "" || (b != "" && (a[0] < b[0] || (a[0] == b[0] && KeyLeq(a[1..], b[1..]))))
  }

  lemma {:induction false} KeyLeqIsTotal(a: string, b: string)
    ensures KeyLeq(a, b) || KeyLeq(b, a)
    ensures KeyLeq(a, b) && KeyLeq(b, a) ==> a == b
    decreases |a|
  {
    if a != "" && b != "" {
      KeyLeqIsTotal(a[1..], b[1..]);
      assert a == [a[0]] + a[1..] && b == [b[0]] + b[1..];
    }
  }

  /** The first difference of the two is at `i`, and there the first one is smaller. */
  ghost predicate SmallerAt(a: string, b: string, i: nat) {
    i < |a| && i < |b| && a[..i] == b[..i] && a[i] < b[i]
  }

  lemma SmallerFurtherOn(a: string, b: string, i: nat)
    requires a != "" && b != ""
    ensures SmallerAt(a, b, i + 1) <==> a[0] == b[0] && SmallerAt(a[1..], b[1..], i)
  {
    if i + 1 < |a| && i + 1 < |b| {
      assert a[..i + 1] == [a[0]] + a[1..][..i] && b[..i + 1] == [b[0]] + b[1..][..i];
      assert a[..i + 1] == b[..i + 1] ==> a[..i + 1][0] == b[..i + 1][0] && a[..i + 1][1..] == b[..i + 1][1..];
    }
  }

  lemma PrefixFurtherOn(a: string, b: string)
    requires a != "" && b != ""
    ensures a <= b <==> a[0] == b[0] && a[1..] <= b[1..]
  {
    if a[0] == b[0] && a[1..] <= b[1..] {
      assert a == [a[0]] + a[1..] && b == [b[0]] + b[1..];
    }
  }

  /** The order of keys: one is a prefix of the other, or smaller where they first differ. */
  lemma {:induction false} KeyLeqIsLexicographic(a: string, b: string)
    ensures KeyLeq(a, b) <==> a <= b || exists i: nat :: SmallerAt(a, b, i)
    decreases |a|
  {
    hide SmallerAt;
    SmallerAtFirst(a, b);
    if a != "" && b != "" {
      KeyLeqIsLexicographic(a[1..], b[1..]);
      PrefixFurtherOn(a, b);
      if i: nat :| SmallerAt(a[1..], b[1..], i) {
        SmallerFurtherOn(a, b, i);
      }
      if i: nat :| SmallerAt(a, b, i) && i > 0 {
        SmallerFurtherOn(a, b, i - 1);
      }
    }
  }

  lemma SmallerAtFirst(a: string, b: string)
    ensures SmallerAt(a, b, 0) <==> a != "" && b != "" && a[0] < b[0]
    ensures a == "" || b == "" ==> forall i: nat :: !SmallerAt(a, b, i)
  {}

  lemma {:induction false} KeyLeqIsTransitive(a: string, b: string, c: string)
    requires KeyLeq(a, b) && KeyLeq(b, c)
    ensures KeyLeq(a, c)
    decreases |a|
  {
    if a != "" {
      if a[0] == b[0] == c[0] {
        KeyLeqIsTransitive(a[1..], b[1..], c[1..]);
      }
    }
  }

  predicate Older(a: Round, b: Round) {
    a.lastUsedAt < b.lastUsedAt || (a.lastUsedAt == b.lastUsedAt && KeyLeq(a.key, b.key))
  }

  predicate Earlier(a: Event, b: Event) {
    a.timestamp < b.timestamp || (a.timestamp == b.timestamp && a.sequence <= b.sequence)
  }

  lemma OlderIsTotalOrder()
    ensures TotalOrder(Older)
  {
    hide KeyLeq;
    forall a, b ensures Older(a, b) || Older(b, a) { KeyLeqIsTotal(a.key, b.key); }
    forall a, b, c | Older(a, b) && Older(b, c) ensures Older(a, c) {
      if a.lastUsedAt == b.lastUsedAt == c.lastUsedAt {
        KeyLeqIsTransitive(a.key, b.key, c.key);
      }
    }
  }

  lemma EarlierIsTotalOrder()
    ensures TotalOrder(Earlier)
  {}

  // ---------------------------------------------------------------- rounds by key, in insertion order

  function Find(rounds: seq<Round>, key: string): Option<Round> {
    if rounds == [] then None
    else if rounds[0].key == key then Some(rounds[0]) else Find(rounds[1..], key)
  }

  /** Setting a key that is there keeps its place; a new key goes to the end. */
  function Put(rounds: seq<Round>, round: Round): seq<Round> {
    if rounds == [] then [round]
    else if rounds[0].key == round.key then [round] + rounds[1..]
    else [rounds[0]] + Put(rounds[1..], round)
  }

  function Without(rounds: seq<Round>, key: string): seq<Round> {
    if rounds == [] then []
    else (if rounds[0].key == key then [] else [rounds[0]]) + Without(rounds[1..], key)
  }

  ghost predicate UniqueKeys(rounds: seq<Round>) {
    forall i, j | 0 <= i < j < |rounds| :: rounds[i].key != rounds[j].key
  }

  // ---------------------------------------------------------------- the store

  function Touched(current: Option<Round>, write: Write, sequence: nat): Round {
    var event := Event(write.lines, write.timestamp, sequence);
    match current
    case None => Round(MessageKey(write.messageId), Some(write.messageId), [event], Max(0, write.timestamp))
    case Some(round) => Round(MessageKey(write.messageId), Some(write.messageId), round.events + [event],
                              Max(round.lastUsedAt, write.timestamp))
  }

  function Oldest(rounds: seq<Round>): (oldest: Round)
    requires rounds != []
    ensures oldest in rounds && forall r | r in rounds :: Older(oldest, r)
  {
    SortFirst(rounds);
    Sort(Older, rounds)[0]
  }

  lemma SortFirst(rounds: seq<Round>)
    requires rounds != []
    ensures |Sort(Older, rounds)| == |rounds| && Sort(Older, rounds)[0] in rounds
    ensures forall r | r in rounds :: Older(Sort(Older, rounds)[0], r)
  {
    OlderIsTotalOrder();
    SortSorts(Older, rounds);
    hide Older;
    var sorted := Sort(Older, rounds);
    assert sorted[0] in multiset(sorted);
    forall r | r in rounds ensures Older(sorted[0], r) {
      assert r in multiset(sorted);
      var i :| 0 <= i < |sorted| && sorted[i] == r;
      assert Older(sorted[0], sorted[0]);
    }
  }

  function Evict(rounds: seq<Round>, limit: int): seq<Round>
    decreases |rounds|
  {
    if |rounds| <= limit || rounds == [] then rounds
    else
      WithoutShrinks(rounds, Oldest(rounds));
      Evict(Without(rounds, Oldest(rounds).key), limit)
  }

  lemma {:induction false} WithoutShrinks(rounds: seq<Round>, round: Round)
    ensures |Without(rounds, round.key)| <= |rounds| && (round in rounds ==> |Without(rounds, round.key)| < |rounds|)
    decreases |rounds|
  {
    if rounds != [] {
      WithoutShrinks(rounds[1..], round);
    }
  }

  function Append(rounds: seq<Round>, limit: int, write: Write, sequence: nat): seq<Round> {
    Evict(Put(rounds, Touched(Find(rounds, MessageKey(write.messageId)), write, sequence)), limit)
  }

  function StoreAfter(limit: int, log: seq<Write>): seq<Round> {
    if log == [] then []
    else Append(StoreAfter(limit, log[..|log| - 1]), limit, log[|log| - 1], |log| - 1)
  }

  // ---------------------------------------------------------------- least recently used

  /** The textbook list: the round that is written goes to the back, and the front is
      dropped when the list is too long. */
  function LruStep(list: seq<Round>, limit: nat, write: Write, sequence: nat): seq<Round> {
    var key := MessageKey(write.messageId);
    var moved := Without(list, key) + [Touched(Find(list, key), write, sequence)];
    if |moved| > limit then moved[1..] else moved
  }

  function LruAfter(limit: nat, log: seq<Write>): seq<Round> {
    if log == [] then []
    else LruStep(LruAfter(limit, log[..|log| - 1]), limit, log[|log| - 1], |log| - 1)
  }

  ghost predicate Ascending(list: seq<Round>) {
    forall i, j | 0 <= i < j < |list| :: list[i].lastUsedAt < list[j].lastUsedAt
  }

  ghost predicate Increasing(log: seq<Write>) {
    && (forall i | 0 <= i < |log| :: log[i].timestamp > 0)
    && (forall i, j | 0 <= i < j < |log| :: log[i].timestamp < log[j].timestamp)
  }

  /** The store holds the rounds of the list, in its own order. */
  ghost predicate Holds(rounds: seq<Round>, list: seq<Round>) {
    multiset(rounds) == multiset(list) && UniqueKeys(rounds) && UniqueKeys(list) && Ascending(list)
  }

  lemma {:induction false} FindFinds(rounds: seq<Round>, key: string)
    requires UniqueKeys(rounds)
    ensures match Find(rounds, key)
      case None => forall r | r in rounds :: r.key != key
      case Some(round) => round in rounds && round.key == key && forall r | r in rounds && r.key == key :: r == round
    decreases |rounds|
  {
    if rounds != [] && rounds[0].key != key {
      FindFinds(rounds[1..], key);
    }
  }

  lemma {:induction false} WithoutDrops(rounds: seq<Round>, key: string)
    requires UniqueKeys(rounds)
    ensures forall r :: r in Without(rounds, key) <==> r in rounds && r.key != key
    ensures UniqueKeys(Without(rounds, key))
    ensures |Without(rounds, key)| == |rounds| - if Find(rounds, key).Some? then 1 else 0
    decreases |rounds|
  {
    if rounds != [] {
      WithoutDrops(rounds[1..], key);
      FindFinds(rounds[1..], key);
    }
  }

  lemma {:induction false} WithoutCounts(rounds: seq<Round>, key: string, r: Round)
    ensures multiset(Without(rounds, key))[r] == if r.key == key then 0 else multiset(rounds)[r]
    decreases |rounds|
  {
    if rounds != [] {
      WithoutCounts(rounds[1..], key, r);
      assert rounds == [rounds[0]] + rounds[1..];
    }
  }

  /** As in a map: a key that is there keeps its place, and a new one goes to the end. */
  lemma {:induction false} PutInPlace(rounds: seq<Round>, round: Round, i: nat)
    requires i <= |rounds| && forall j | 0 <= j < i :: rounds[j].key != round.key
    requires i < |rounds| ==> rounds[i].key == round.key
    ensures Put(rounds, round) == if i < |rounds| then rounds[i := round] else rounds + [round]
    decreases |rounds|
  {
    if i > 0 {
      PutInPlace(rounds[1..], round, i - 1);
    }
  }

  lemma {:induction false} PutCounts(rounds: seq<Round>, round: Round, r: Round)
    requires UniqueKeys(rounds)
    ensures multiset(Put(rounds, round))[r] == multiset(Without(rounds, round.key))[r] + if r == round then 1 else 0
    decreases |rounds|
  {
    if rounds != [] {
      var rest := rounds[1..];
      if rounds[0].key == round.key {
        WithoutNothing(rest, round.key);
      } else {
        PutCounts(rest, round, r);
      }
    }
  }

  lemma {:induction false} PutIsUnique(rounds: seq<Round>, round: Round)
    requires UniqueKeys(rounds)
    ensures UniqueKeys(Put(rounds, round))
    ensures forall r | r in Put(rounds, round) :: r == round || r in rounds
    decreases |rounds|
  {
    if rounds != [] {
      PutIsUnique(rounds[1..], round);
      forall r | r in Put(rounds[1..], round) && round.key != rounds[0].key ensures r.key != rounds[0].key {
        assert r == round || r in rounds[1..];
      }
    }
  }

  lemma PutReplaces(rounds: seq<Round>, round: Round)
    requires UniqueKeys(rounds)
    ensures multiset(Put(rounds, round)) == multiset(Without(rounds, round.key)) + multiset{round}
    ensures UniqueKeys(Put(rounds, round))
  {
    PutIsUnique(rounds, round);
    hide Put, Without, UniqueKeys;
    var put, others := multiset(Put(rounds, round)), multiset(Without(rounds, round.key));
    forall r ensures put[r] == (others + multiset{round})[r] {
      PutCounts(rounds, round, r);
    }
  }

  lemma {:induction false} WithoutNothing(rounds: seq<Round>, key: string)
    requires forall r | r in rounds :: r.key != key
    ensures Without(rounds, key) == rounds
    decreases |rounds|
  {
    if rounds != [] {
      WithoutNothing(rounds[1..], key);
    }
  }

  lemma {:induction false} WithoutAscends(list: seq<Round>, key: string)
    requires Ascending(list) && UniqueKeys(list)
    ensures Ascending(Without(list, key))
    decreases |list|
  {
    if list != [] {
      WithoutAscends(list[1..], key);
      WithoutDrops(list[1..], key);
      forall r | r in Without(list[1..], key) ensures list[0].lastUsedAt < r.lastUsedAt {
        assert r in list[1..];
      }
    }
  }

  lemma SameFind(rounds: seq<Round>, list: seq<Round>, key: string)
    requires multiset(rounds) == multiset(list) && UniqueKeys(rounds) && UniqueKeys(list)
    ensures Find(rounds, key) == Find(list, key) && |rounds| == |list|
    ensures multiset(Without(rounds, key)) == multiset(Without(list, key))
  {
    FindFinds(rounds, key);
    FindFinds(list, key);
    hide Find, Without, UniqueKeys;
    assert |multiset(rounds)| == |rounds| && |multiset(list)| == |list|;
    forall r ensures r in rounds <==> r in list {
      assert r in multiset(rounds) <==> r in multiset(list);
    }
    forall r ensures multiset(Without(rounds, key))[r] == multiset(Without(list, key))[r] {
      WithoutCounts(rounds, key, r);
      WithoutCounts(list, key, r);
    }
  }

  lemma MovedToBack(list: seq<Round>, write: Write, sequence: nat)
    requires UniqueKeys(list) && Ascending(list) && write.timestamp > 0
    requires forall r | r in list :: r.lastUsedAt < write.timestamp
    ensures var key := MessageKey(write.messageId);
      var touched := Touched(Find(list, key), write, sequence);
      var moved := Without(list, key) + [touched];
      && touched.lastUsedAt == write.timestamp && touched.key == key
      && UniqueKeys(moved) && Ascending(moved) && |moved| <= |list| + 1
      && forall r | r in moved :: r.lastUsedAt <= write.timestamp
  {
    var key := MessageKey(write.messageId);
    FindFinds(list, key);
    WithoutDrops(list, key);
    WithoutAscends(list, key);
    hide Find, Without, MessageKey;
    var rest := Without(list, key);
    assert forall i | 0 <= i < |rest| :: rest[i] in list && rest[i].key != key;
  }

  /** Dropping the oldest round of the store is dropping the front of the list. */
  lemma EvictDropsFront(rounds: seq<Round>, list: seq<Round>, limit: nat)
    requires Holds(rounds, list) && |list| <= limit + 1
    ensures Holds(Evict(rounds, limit), if |list| > limit then list[1..] else list)
  {
    assert |multiset(rounds)| == |rounds| && |multiset(list)| == |list|;
    if |list| > limit {
      var oldest := Oldest(rounds);
      assert list[0] in multiset(list) && list[0] in rounds;
      assert oldest in multiset(list) && oldest in list;
      assert oldest == list[0];
      WithoutDrops(rounds, oldest.key);
      WithoutDrops(list, oldest.key);
      FindFinds(list, oldest.key);
      WithoutNothing(list[1..], oldest.key);
      SameFind(rounds, list, oldest.key);
      assert Without(list, oldest.key) == list[1..];
    }
  }

  lemma StepRefines(rounds: seq<Round>, list: seq<Round>, limit: nat, write: Write, sequence: nat)
    requires Holds(rounds, list) && |list| <= limit && write.timestamp > 0
    requires forall r | r in list :: r.lastUsedAt < write.timestamp
    ensures Holds(Append(rounds, limit, write, sequence), LruStep(list, limit, write, sequence))
    ensures |LruStep(list, limit, write, sequence)| <= limit
    ensures forall r | r in LruStep(list, limit, write, sequence) :: r.lastUsedAt <= write.timestamp
  {
    var key := MessageKey(write.messageId);
    SameFind(rounds, list, key);
    var touched := Touched(Find(list, key), write, sequence);
    MovedToBack(list, write, sequence);
    PutReplaces(rounds, touched);
    EvictDropsFront(Put(rounds, touched), Without(list, key) + [touched], limit);
  }

  /** Over any run with rising positive timestamps, the store holds exactly the rounds of the
      least-recently-used list, whatever it evicts by comparing timestamps and keys. */
  lemma {:induction false} StoreIsLru(limit: nat, log: seq<Write>)
    requires Increasing(log)
    ensures Holds(StoreAfter(limit, log), LruAfter(limit, log)) && |LruAfter(limit, log)| <= limit
    ensures forall r | r in LruAfter(limit, log) :: log != [] && r.lastUsedAt <= log[|log| - 1].timestamp
    decreases |log|
  {
    if log != [] {
      var before, write := log[..|log| - 1], log[|log| - 1];
      StoreIsLru(limit, before);
      StepRefines(StoreAfter(limit, before), LruAfter(limit, before), limit, write, |before|);
    }
  }

  // ---------------------------------------------------------------- what the list holds

  function WithoutKey(keys: seq<string>, key: string): seq<string> {
    if keys == [] then []
    else (if keys[0] == key then [] else [keys[0]]) + WithoutKey(keys[1..], key)
  }

  /** The distinct keys written, in the order of their last write. */
  function Recency(log: seq<Write>): seq<string> {
    if log == [] then []
    else
      var key := MessageKey(log[|log| - 1].messageId);
      WithoutKey(Recency(log[..|log| - 1]), key) + [key]
  }

  function LastOf(keys: seq<string>, n: nat): seq<string> {
    if |keys| > n then keys[|keys| - n..] else keys
  }

  /** The `limit` most recently written distinct keys. */
  function Live(limit: nat, log: seq<Write>): seq<string> { LastOf(Recency(log), limit) }

  function Keys(rounds: seq<Round>): seq<string> {
    if rounds == [] then [] else [rounds[0].key] + Keys(rounds[1..])
  }

  ghost predicate DistinctKeys(keys: seq<string>) {
    forall i, j | 0 <= i < j < |keys| :: keys[i] != keys[j]
  }

  lemma {:induction false} WithoutKeyDrops(keys: seq<string>, key: string)
    ensures forall k :: k in WithoutKey(keys, key) <==> k in keys && k != key
    decreases |keys|
  {
    if keys != [] {
      WithoutKeyDrops(keys[1..], key);
    }
  }

  lemma {:induction false} WithoutKeyIsDistinct(keys: seq<string>, key: string)
    requires DistinctKeys(keys)
    ensures DistinctKeys(WithoutKey(keys, key))
    ensures |WithoutKey(keys, key)| == |keys| - if key in keys then 1 else 0
    decreases |keys|
  {
    if keys != [] {
      WithoutKeyIsDistinct(keys[1..], key);
      WithoutKeyDrops(keys[1..], key);
      assert keys[0] !in keys[1..];
      assert key in keys <==> key == keys[0] || key in keys[1..];
    }
  }

  lemma {:induction false} WithoutKeySplits(a: seq<string>, b: seq<string>, key: string)
    ensures WithoutKey(a + b, key) == WithoutKey(a, key) + WithoutKey(b, key)
    decreases |a|
  {
    if a == [] {
      assert a + b == b;
    } else {
      assert (a + b)[1..] == a[1..] + b;
      WithoutKeySplits(a[1..], b, key);
    }
  }

  lemma {:induction false} RecencyIsDistinct(log: seq<Write>)
    ensures DistinctKeys(Recency(log))
    ensures forall k :: k in Recency(log) <==> Written(log, k)
    decreases |log|
  {
    hide MessageKey, Written, Recency, WithoutKey, DistinctKeys;
    if log == [] {
      NothingWritten();
    } else {
      var before, key := log[..|log| - 1], MessageKey(log[|log| - 1].messageId);
      RecencyIsDistinct(before);
      WithoutKeyDrops(Recency(before), key);
      WithoutKeyIsDistinct(Recency(before), key);
      AddedLast(WithoutKey(Recency(before), key), key);
      RecencyStep(log);
      forall k ensures k in Recency(log) <==> Written(log, k) {
        WrittenLast(log, k);
      }
    }
  }

  ghost predicate Written(log: seq<Write>, key: string) {
    exists i :: 0 <= i < |log| && MessageKey(log[i].messageId) == key
  }

  lemma NothingWritten()
    ensures Recency([]) == [] && DistinctKeys([]) && forall k :: !Written([], k)
  {}

  lemma RecencyStep(log: seq<Write>)
    requires log != []
    ensures var key := MessageKey(log[|log| - 1].messageId);
      Recency(log) == WithoutKey(Recency(log[..|log| - 1]), key) + [key]
  {
    hide MessageKey, WithoutKey;
  }

  lemma AddedLast(keys: seq<string>, key: string)
    requires DistinctKeys(keys) && key !in keys
    ensures DistinctKeys(keys + [key]) && forall k :: k in keys + [key] <==> k == key || k in keys
  {}

  lemma WrittenLast(log: seq<Write>, key: string)
    requires log != []
    ensures Written(log, key) <==> key == MessageKey(log[|log| - 1].messageId) || Written(log[..|log| - 1], key)
  {
    hide MessageKey;
    var before := log[..|log| - 1];
    if i :| 0 <= i < |log| && MessageKey(log[i].messageId) == key && i < |before| {
      assert before[i] == log[i];
    }
    if i :| 0 <= i < |before| && MessageKey(before[i].messageId) == key {
      assert log[i] == before[i];
    }
  }

  /** Keeping the last `n` keys up to date needs only the last `n` keys. */
  lemma LastOfStep(keys: seq<string>, key: string, n: nat)
    requires DistinctKeys(keys)
    ensures var moved := WithoutKey(LastOf(keys, n), key) + [key];
      LastOf(WithoutKey(keys, key) + [key], n) == if |moved| > n then moved[1..] else moved
  {
    hide WithoutKey, DistinctKeys;
    if |keys| <= n {
      WithoutKeyIsDistinct(keys, key);
      var moved := WithoutKey(keys, key) + [key];
      assert [] + moved == moved;
      LastOfAppend([], moved, n);
    } else {
      assert keys == keys[..|keys| - n] + keys[|keys| - n..];
      LastOfLongStep(keys[..|keys| - n], keys[|keys| - n..], key, n);
    }
  }

  lemma LastOfLongStep(front: seq<string>, last: seq<string>, key: string, n: nat)
    requires DistinctKeys(front + last) && |last| == n
    ensures var moved := WithoutKey(last, key) + [key];
      LastOf(WithoutKey(front + last, key) + [key], n) == if |moved| > n then moved[1..] else moved
  {
    DistinctHalves(front, last);
    WithoutKeySplits(front, last, key);
    WithoutKeyIsDistinct(last, key);
    hide WithoutKey, DistinctKeys, LastOf;
    var moved := WithoutKey(last, key) + [key];
    LastOfAppend(WithoutKey(front, key), moved, n);
    assert WithoutKey(front + last, key) + [key] == WithoutKey(front, key) + moved;
  }

  lemma DistinctHalves(front: seq<string>, last: seq<string>)
    requires DistinctKeys(front + last)
    ensures DistinctKeys(last) && forall k | k in last :: k !in front
  {
    forall i, j | 0 <= i < |front| && 0 <= j < |last| ensures front[i] != last[j] {
      assert (front + last)[i] != (front + last)[|front| + j];
    }
    forall i, j | 0 <= i < j < |last| ensures last[i] != last[j] {
      assert (front + last)[|front| + i] != (front + last)[|front| + j];
    }
  }

  /** A prefix does not matter to the last `n` when the rest has `n`, or `n + 1`, or there is no prefix. */
  lemma LastOfAppend(front: seq<string>, moved: seq<string>, n: nat)
    requires n <= |moved| <= n + 1 || (front == [] && |moved| <= n + 1)
    ensures LastOf(front + moved, n) == if |moved| > n then moved[1..] else moved
  {
    if front == [] {
      assert front + moved == moved;
    }
  }

  lemma {:induction false} KeysOfWithout(rounds: seq<Round>, key: string)
    ensures Keys(Without(rounds, key)) == WithoutKey(Keys(rounds), key)
    decreases |rounds|
  {
    if rounds != [] {
      KeysOfWithout(rounds[1..], key);
      KeysAppend(if rounds[0].key == key then [] else [rounds[0]], Without(rounds[1..], key));
    }
  }

  lemma {:induction false} KeysAppend(a: seq<Round>, b: seq<Round>)
    ensures Keys(a + b) == Keys(a) + Keys(b)
    decreases |a|
  {
    if a == [] {
      assert a + b == b;
    } else {
      assert (a + b)[1..] == a[1..] + b;
      KeysAppend(a[1..], b);
    }
  }

  lemma {:induction false} KeysAt(rounds: seq<Round>)
    ensures |Keys(rounds)| == |rounds| && forall i | 0 <= i < |rounds| :: Keys(rounds)[i] == rounds[i].key
    decreases |rounds|
  {
    if rounds != [] { KeysAt(rounds[1..]); }
  }

  /** The list holds exactly the most recently written distinct messages, oldest first. */
  lemma {:induction false} LruHoldsLiveKeys(limit: nat, log: seq<Write>)
    ensures Keys(LruAfter(limit, log)) == Live(limit, log)
    decreases |log|
  {
    hide MessageKey, Recency, LastOf, Without, Keys, Touched, Find, LruAfter, LruStep, WithoutKey;
    if log == [] {
      NothingLru(limit);
    } else {
      var before, write := log[..|log| - 1], log[|log| - 1];
      var list, key := LruAfter(limit, before), MessageKey(write.messageId);
      LruHoldsLiveKeys(limit, before);
      RecencyIsDistinct(before);
      LastOfStep(Recency(before), key, limit);
      LruUnfolds(limit, log);
      KeysOfWithout(list, key);
      var touched := Touched(Find(list, key), write, |before|);
      TouchedKey(list, write, |before|);
      KeysAppend(Without(list, key), [touched]);
      KeysOfTail(Without(list, key) + [touched]);
      UnfoldLive(limit, log);
    }
  }

  lemma NothingLru(limit: nat)
    ensures Keys(LruAfter(limit, [])) == Live(limit, [])
  {}

  lemma LruUnfolds(limit: nat, log: seq<Write>)
    requires log != []
    ensures var before, write := log[..|log| - 1], log[|log| - 1];
      var list, key := LruAfter(limit, before), MessageKey(write.messageId);
      var moved := Without(list, key) + [Touched(Find(list, key), write, |before|)];
      LruAfter(limit, log) == if |moved| > limit then moved[1..] else moved
  {
    hide MessageKey, Without, Touched, Find;
  }

  lemma KeysOfTail(rounds: seq<Round>)
    requires rounds != []
    ensures Keys(rounds[1..]) == Keys(rounds)[1..] && |Keys(rounds)| == |rounds|
  {
    KeysAt(rounds);
    KeysAt(rounds[1..]);
  }

  lemma TouchedKey(list: seq<Round>, write: Write, sequence: nat)
    ensures Touched(Find(list, MessageKey(write.messageId)), write, sequence).key == MessageKey(write.messageId)
    ensures Keys([Touched(Find(list, MessageKey(write.messageId)), write, sequence)]) == [MessageKey(write.messageId)]
  {}

  lemma UnfoldLive(limit: nat, log: seq<Write>)
    requires log != []
    ensures var before, key := log[..|log| - 1], MessageKey(log[|log| - 1].messageId);
      Live(limit, log) == LastOf(WithoutKey(Recency(before), key) + [key], limit)
  {}
}
