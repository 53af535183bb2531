/**
 Packing memory search hits into a tool result under a character budget.
 */
module SearchHits {
  import opened Options

  const MAX_HITS_CHARS: nat := 2000
  const MAX_SNIPPET_CHARS: nat := 300

  datatype Hit = Hit(taskId: string, createdAt: string, score: real, snippet: string)

  /** The omitted count is present only when hits were left out. */
  datatype ToolResult = ToolResult(query: string, hits: seq<Hit>, omitted: Option<nat>)

  /** A text over the limit is cut one character short of it and marked with an ellipsis. */
  function TruncateByCodePoint(value: string, maxChars: nat): (r: string)
    requires maxChars > 0
    ensures |r| <= maxChars
    ensures r == value <==> |value| <= maxChars
    ensures |value| > maxChars ==> |r| == maxChars && r[..maxChars - 1] <= value && r[maxChars - 1] == '\U{2026}'
  {
    if |value| <= maxChars then value else value[..maxChars - 1] + "\U{2026}"
  }

  function Limited(hit: Hit): Hit {
    hit.(snippet := TruncateByCodePoint(hit.snippet, MAX_SNIPPET_CHARS))
  }

  function Cost(hit: Hit): (cost: nat)
    ensures cost <= MAX_SNIPPET_CHARS
  {
    |Limited(hit).snippet|
  }

  /** The packer's decision on each hit, with `used` characters already spent. */
  function Greedy(hits: seq<Hit>, used: nat): (choices: seq<bool>)
    ensures |choices| == |hits|
  {
    if hits == [] then []
    else if used + Cost(hits[0]) > MAX_HITS_CHARS then [false] + Greedy(hits[1..], used)
    else [true] + Greedy(hits[1..], used + Cost(hits[0]))
  }

  /** The shortened hits that a decision keeps, in their order. */
  function Pick(hits: seq<Hit>, choices: seq<bool>): seq<Hit>
    requires |hits| == |choices|
  {
    if hits == [] then []
    else (if choices[0] then [Limited(hits[0])] else []) + Pick(hits[1..], choices[1..])
  }

  function Spent(hits: seq<Hit>, choices: seq<bool>): nat
    requires |hits| == |choices|
  {
    if hits == [] then 0 else (if choices[0] then Cost(hits[0]) else 0) + Spent(hits[1..], choices[1..])
  }

  function Count(choices: seq<bool>): nat {
    if choices == [] then 0 else (if choices[0] then 1 else 0) + Count(choices[1..])
  }

  method CreateBrainSearchToolResult(query: string, hits: seq<Hit>) returns (result: ToolResult)
    ensures result.query == query && result.hits == Pick(hits, Greedy(hits, 0))
    ensures result.omitted == if |result.hits| == |hits| then None else Some(|hits| - |result.hits|)
  {
    hide Pick, Greedy, Limited;
    var totalChars: nat, omitted, kept: seq<Hit> := 0, 0, [];
    assert hits[0..] == hits;
    for i := 0 to |hits|
      invariant kept + Pick(hits[i..], Greedy(hits[i..], totalChars)) == Pick(hits, Greedy(hits, 0))
      invariant omitted + |kept| == i
    {
      assert hits[i..][1..] == hits[i + 1..];
      PickStep(hits[i..], totalChars, kept);
      var limited := Limited(hits[i]);
      var nextTotal := totalChars + |limited.snippet|;
      if nextTotal > MAX_HITS_CHARS {
        omitted := omitted + 1;
        continue;
      }
      totalChars := nextTotal;
      kept := kept + [limited];
    }
    assert Pick(hits[|hits|..], Greedy(hits[|hits|..], totalChars)) == [] by { PickNothing(totalChars); }
    result := ToolResult(query, kept, if omitted == 0 then None else Some(omitted));
  }

  lemma PickNothing(used: nat)
    ensures Pick([], Greedy([], used)) == []
  {
  }

  lemma PickStep(hits: seq<Hit>, used: nat, kept: seq<Hit>)
    requires hits != []
    ensures kept + Pick(hits, Greedy(hits, used))
         == if used + |Limited(hits[0]).snippet| > MAX_HITS_CHARS then kept + Pick(hits[1..], Greedy(hits[1..], used))
            else (kept + [Limited(hits[0])]) + Pick(hits[1..], Greedy(hits[1..], used + |Limited(hits[0]).snippet|))
  {
    var choices := Greedy(hits, used);
    if used + Cost(hits[0]) > MAX_HITS_CHARS {
      assert choices[1..] == Greedy(hits[1..], used);
    } else {
      assert choices[1..] == Greedy(hits[1..], used + Cost(hits[0]));
    }
  }

  /** A hit is shown as it is, but for a snippet of more than 300 characters: the first 299 and an ellipsis. */
  ghost predicate ShownAs(hit: Hit, shown: Hit) {
    && shown.taskId == hit.taskId && shown.createdAt == hit.createdAt && shown.score == hit.score
    && (|hit.snippet| <= 300 ==> shown.snippet == hit.snippet)
    && (|hit.snippet| > 300 ==> shown.snippet == hit.snippet[..299] + ['\U{2026}'])
  }

  lemma LimitedIsShown(hit: Hit)
    ensures ShownAs(hit, Limited(hit)) && Cost(hit) == if |hit.snippet| <= 300 then |hit.snippet| else 300
  {}

  /** A kept hit stands at the place given by the number of kept hits before it, and nothing else is shown. */
  lemma {:induction false} PickKeepsOrder(hits: seq<Hit>, choices: seq<bool>, k: nat)
    requires |hits| == |choices| && k < |hits| && choices[k]
    ensures Count(choices[..k]) < |Pick(hits, choices)|
    ensures Pick(hits, choices)[Count(choices[..k])] == Limited(hits[k])
    ensures ShownAs(hits[k], Pick(hits, choices)[Count(choices[..k])])
    ensures |Pick(hits, choices)| == Count(choices)
    decreases |hits|
  {
    hide Limited, ShownAs;
    LimitedIsShown(hits[k]);
    PickCounts(hits, choices);
    if k > 0 {
      assert choices[1..][..k - 1] == choices[..k][1..];
      PickKeepsOrder(hits[1..], choices[1..], k - 1);
    }
  }

  lemma {:induction false} PickCounts(hits: seq<Hit>, choices: seq<bool>)
    requires |hits| == |choices|
    ensures |Pick(hits, choices)| == Count(choices)
    decreases |hits|
  {
    if hits != [] { PickCounts(hits[1..], choices[1..]); }
  }

  /** A hit is kept exactly when it fits behind those that are kept before it. */
  lemma {:induction false} GreedyDecides(hits: seq<Hit>, used: nat, k: nat)
    requires k < |hits|
    ensures Greedy(hits, used)[k]
            <==> used + Spent(hits[..k], Greedy(hits, used)[..k])
                 + (if |hits[k].snippet| <= 300 then |hits[k].snippet| else 300) <= 2000
    decreases |hits|
  {
    hide Cost;
    LimitedIsShown(hits[0]);
    if k > 0 {
      var now := if used + Cost(hits[0]) > MAX_HITS_CHARS then used else used + Cost(hits[0]);
      var choices := Greedy(hits, used);
      assert choices[1..] == Greedy(hits[1..], now);
      GreedyDecides(hits[1..], now, k - 1);
      assert hits[..k][1..] == hits[1..][..k - 1] && choices[..k][1..] == choices[1..][..k - 1];
    }
  }

  function Chars(hits: seq<Hit>): nat {
    if hits == [] then 0 else |hits[0].snippet| + Chars(hits[1..])
  }

  lemma {:induction false} SpentIsShown(hits: seq<Hit>, choices: seq<bool>)
    requires |hits| == |choices|
    ensures Chars(Pick(hits, choices)) == Spent(hits, choices)
    decreases |hits|
  {
    hide Limited;
    if hits != [] {
      SpentIsShown(hits[1..], choices[1..]);
      var rest := Pick(hits[1..], choices[1..]);
      assert ([Limited(hits[0])] + rest)[1..] == rest;
      assert [] + rest == rest;
    }
  }

  /** The result stays within the budget, hit by hit and in total. */
  lemma ResultIsBounded(hits: seq<Hit>)
    ensures Chars(Pick(hits, Greedy(hits, 0))) <= 2000
    ensures forall i | 0 <= i < |Pick(hits, Greedy(hits, 0))| :: |Pick(hits, Greedy(hits, 0))[i].snippet| <= 300
  {
    var choices := Greedy(hits, 0);
    GreedyFits(hits, 0);
    SpentIsShown(hits, choices);
    PickIsShort(hits, choices);
  }

  lemma {:induction false} PickIsShort(hits: seq<Hit>, choices: seq<bool>)
    requires |hits| == |choices|
    ensures forall i | 0 <= i < |Pick(hits, choices)| :: |Pick(hits, choices)[i].snippet| <= MAX_SNIPPET_CHARS
    decreases |hits|
  {
    if hits != [] { PickIsShort(hits[1..], choices[1..]); }
  }

  lemma {:induction false} GreedyFits(hits: seq<Hit>, used: nat)
    requires used <= MAX_HITS_CHARS
    ensures used + Spent(hits, Greedy(hits, used)) <= MAX_HITS_CHARS
    decreases |hits|
  {
    hide Cost;
    if hits != [] {
      var now := if used + Cost(hits[0]) > MAX_HITS_CHARS then used else used + Cost(hits[0]);
      assert Greedy(hits, used)[1..] == Greedy(hits[1..], now);
      GreedyFits(hits[1..], now);
    }
  }

  /** A hit that was left out would not fit into the finished result either. */
  lemma {:induction false} NothingCouldBeAdded(hits: seq<Hit>, used: nat, k: nat)
    requires k < |hits| && !Greedy(hits, used)[k]
    ensures used + Spent(hits, Greedy(hits, used)) + Cost(hits[k]) > 2000
    decreases |hits|
  {
    hide Cost;
    var now := if used + Cost(hits[0]) > MAX_HITS_CHARS then used else used + Cost(hits[0]);
    assert Greedy(hits, used)[1..] == Greedy(hits[1..], now);
    if k > 0 {
      NothingCouldBeAdded(hits[1..], now, k - 1);
    }
  }

  /** Wherever another choice within the budget first differs, the packer keeps a better ranked
      hit that the other choice drops. */
  lemma {:induction false} GreedyPrefersEarlierHits(hits: seq<Hit>, used: nat, other: seq<bool>, k: nat)
    requires |other| == |hits| && k < |hits| && used + Spent(hits, other) <= 2000
    requires other[..k] == Greedy(hits, used)[..k] && other[k] != Greedy(hits, used)[k]
    ensures Greedy(hits, used)[k] && !other[k]
    decreases |hits|
  {
    hide Cost;
    var choices := Greedy(hits, used);
    var now := if used + Cost(hits[0]) > MAX_HITS_CHARS then used else used + Cost(hits[0]);
    assert choices[1..] == Greedy(hits[1..], now);
    if k > 0 {
      assert other[0] == other[..k][0] == choices[..k][0] == choices[0];
      assert other[1..][..k - 1] == other[..k][1..] == choices[..k][1..] == choices[1..][..k - 1];
      GreedyPrefersEarlierHits(hits[1..], now, other[1..], k - 1);
    }
  }

  function Everything(n: nat): (choices: seq<bool>)
    ensures |choices| == n && forall i | 0 <= i < n :: choices[i]
  {
    seq(n, _ => true)
  }

  /** Every hit is kept exactly when all of them together fit the budget. */
  lemma {:induction false} NothingOmittedIff(hits: seq<Hit>, used: nat)
    requires used <= 2000
    ensures Greedy(hits, used) == Everything(|hits|) <==> used + Spent(hits, Everything(|hits|)) <= 2000
    decreases |hits|
  {
    hide Cost;
    if hits != [] {
      var all := Everything(|hits|);
      assert all[1..] == Everything(|hits[1..]|);
      var choices := Greedy(hits, used);
      if used + Cost(hits[0]) <= MAX_HITS_CHARS {
        NothingOmittedIff(hits[1..], used + Cost(hits[0]));
        assert choices == [true] + choices[1..] && all == [true] + all[1..];
      } else {
        assert !choices[0] && all[0];
      }
    }
  }

  lemma {:induction false} EarlyHitsAreKept(hits: seq<Hit>, used: nat, k: nat)
    requires k < |hits| && used + MAX_SNIPPET_CHARS * (k + 1) <= MAX_HITS_CHARS
    ensures Greedy(hits, used)[k]
    decreases |hits|
  {
    if k > 0 {
      EarlyHitsAreKept(hits[1..], used + Cost(hits[0]), k - 1);
    }
  }

  /** The first six hits always make it. */
  lemma FirstSixAreKept(hits: seq<Hit>, k: nat)
    requires k < |hits| && k < 6
    ensures Greedy(hits, 0)[k]
  {
    EarlyHitsAreKept(hits, 0, k);
  }
}
