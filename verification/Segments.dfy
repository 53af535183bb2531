/**
 Splitting a long text into display segments at sentence ends.
 */
module Segments {

  const DELIMITERS := {'。', '！', '？', '；', '.', '!', '?', '\n'}
  const ELLIPSIS := "..."

  function Concat(parts: seq<string>): string {
    if parts == [] then "" else parts[0] + Concat(parts[1..])
  }

  /** `re.split` with a captured delimiter: texts and single delimiters in turn, texts may be empty. */
  function Parts(text: string): seq<string> {
    PartsAfter("", text)
  }

  function PartsAfter(read: string, text: string): seq<string>
    decreases |text|
  {
    if text == "" then [read]
    else if text[0] in DELIMITERS then [read, [text[0]]] + PartsAfter("", text[1..])
    else PartsAfter(read + [text[0]], text[1..])
  }

  function Chunks(part: string, max: nat): seq<string>
    requires max >= 1
    decreases |part|
  {
    if |part| <= max then [part] else [part[..max]] + Chunks(part[max..], max)
  }

  function Flush(current: string): seq<string> { if current == "" then [] else [current] }

  /** The segments for `current` followed by `parts`: a part that fits is appended, any other
      starts a new segment and is cut only when it is longer than a segment can be. */
  function Greedy(current: string, parts: seq<string>, max: nat): seq<string>
    requires max >= 1
    decreases |parts|
  {
    if parts == [] then Flush(current)
    else if |current| + |parts[0]| <= max then Greedy(current + parts[0], parts[1..], max)
    else
      var chunks := Chunks(parts[0], max);
      Flush(current) + chunks[..|chunks| - 1] + Greedy(chunks[|chunks| - 1], parts[1..], max)
  }

  function Before(i: nat): string { if i > 0 then ELLIPSIS else "" }
  function After(i: nat, n: nat): string { if i + 1 < n then ELLIPSIS else "" }

  function Decorated(segments: seq<string>): seq<string> {
    seq(|segments|, i requires 0 <= i < |segments| => Before(i) + segments[i] + After(i, |segments|))
  }

  /** Cuts the ellipses off again by position. */
  function Bare(pieces: seq<string>): seq<string>
    requires forall i | 0 <= i < |pieces| :: |pieces[i]| >= |Before(i)| + |After(i, |pieces|)|
  {
    seq(|pieces|, i requires 0 <= i < |pieces| => pieces[i][|Before(i)|..|pieces[i]| - |After(i, |pieces|)|])
  }

  function Split(text: string, max: nat): seq<string>
    requires max >= 1
  {
    if text == "" then [] else if |text| <= max then [text] else Greedy("", Parts(text), max)
  }

  // ---------------------------------------------------------------- nothing is lost

  lemma {:induction false} ConcatAppend(a: seq<string>, b: seq<string>)
    ensures Concat(a + b) == Concat(a) + Concat(b)
    decreases |a|
  {
    if a == [] {
      assert a + b == b;
    } else {
      assert (a + b)[1..] == a[1..] + b;
      ConcatAppend(a[1..], b);
    }
  }

  lemma {:induction false} PartsKeepText(read: string, text: string)
    ensures Concat(PartsAfter(read, text)) == read + text
    decreases |text|
  {
    if text != "" {
      assert text == [text[0]] + text[1..];
      if text[0] in DELIMITERS {
        PartsKeepText("", text[1..]);
        var rest := PartsAfter("", text[1..]);
        assert ([read, [text[0]]] + rest)[1..] == [[text[0]]] + rest;
        assert ([[text[0]]] + rest)[1..] == rest;
      } else {
        PartsKeepText(read + [text[0]], text[1..]);
      }
    }
  }

  /** A sentence ends at these marks, or at the end of its line. */
  predicate EndsSentence(c: char) {
    c == '。' || c == '！' || c == '？' || c == '；' || c == '.' || c == '!' || c == '?' || c == '\n'
  }

  ghost predicate WithoutEnd(part: string) { forall i | 0 <= i < |part| :: !EndsSentence(part[i]) }

  /** Texts without a sentence end and single sentence ends take turns; a text comes first and last. */
  lemma {:induction false} PartsAlternate(read: string, text: string)
    requires WithoutEnd(read)
    ensures var parts := PartsAfter(read, text);
      && |parts| % 2 == 1
      && (forall i | 0 <= i < |parts| && i % 2 == 0 :: WithoutEnd(parts[i]))
      && (forall i | 0 <= i < |parts| && i % 2 == 1 :: |parts[i]| == 1 && EndsSentence(parts[i][0]))
    decreases |text|
  {
    if text != "" {
      DelimitersEnd(text[0]);
      if text[0] in DELIMITERS {
        PartsAlternate("", text[1..]);
        var rest := PartsAfter("", text[1..]);
        assert forall i | 2 <= i < |rest| + 2 :: ([read, [text[0]]] + rest)[i] == rest[i - 2];
      } else {
        PartsAlternate(read + [text[0]], text[1..]);
      }
    }
  }

  lemma DelimitersEnd(c: char)
    ensures c in DELIMITERS <==> EndsSentence(c)
  {}

  lemma {:induction false} ChunksFit(part: string, max: nat)
    requires max >= 1
    ensures var chunks := Chunks(part, max);
      && chunks != [] && Concat(chunks) == part
      && (forall i | 0 <= i < |chunks| - 1 :: |chunks[i]| == max)
      && |chunks[|chunks| - 1]| <= max && (part != "" ==> chunks[|chunks| - 1] != "")
    decreases |part|
  {
    if |part| > max {
      ChunksFit(part[max..], max);
      var rest := Chunks(part[max..], max);
      assert Chunks(part, max)[1..] == rest;
      assert part == part[..max] + part[max..];
    }
  }

  lemma LastApart(chunks: seq<string>)
    requires chunks != []
    ensures Concat(chunks) == Concat(chunks[..|chunks| - 1]) + chunks[|chunks| - 1]
  {
    var last := chunks[|chunks| - 1];
    assert chunks == chunks[..|chunks| - 1] + [last];
    ConcatAppend(chunks[..|chunks| - 1], [last]);
    assert Concat([last]) == last + Concat([last][1..]);
  }

  lemma {:induction false} GreedyKeepsText(current: string, parts: seq<string>, max: nat)
    requires max >= 1
    ensures Concat(Greedy(current, parts, max)) == current + Concat(parts)
    decreases |parts|
  {
    FlushConcat(current);
    if parts != [] {
      if |current| + |parts[0]| <= max {
        GreedyKeepsText(current + parts[0], parts[1..], max);
      } else {
        var chunks := Chunks(parts[0], max);
        ChunksFit(parts[0], max);
        LastApart(chunks);
        var front, rest := chunks[..|chunks| - 1], Greedy(chunks[|chunks| - 1], parts[1..], max);
        GreedyKeepsText(chunks[|chunks| - 1], parts[1..], max);
        hide Greedy, Chunks, Concat, Flush;
        ConcatAppend(Flush(current) + front, rest);
        ConcatAppend(Flush(current), front);
        GreedyStep(current, parts, max);
        ConcatFirst(parts);
      }
    }
  }

  lemma FlushConcat(current: string)
    ensures Concat(Flush(current)) == current && Concat([]) == ""
  {}

  lemma ConcatFirst(parts: seq<string>)
    requires parts != []
    ensures Concat(parts) == parts[0] + Concat(parts[1..])
  {}

  lemma GreedyStep(current: string, parts: seq<string>, max: nat)
    requires max >= 1 && parts != [] && |current| + |parts[0]| > max
    ensures var chunks := Chunks(parts[0], max);
      && chunks != []
      && Greedy(current, parts, max)
         == Flush(current) + chunks[..|chunks| - 1] + Greedy(chunks[|chunks| - 1], parts[1..], max)
  {}

  // ---------------------------------------------------------------- segments fit and are full

  /** Segments are never empty nor too long, and two neighbours would not fit into one. */
  ghost predicate Full(segments: seq<string>, max: nat) {
    && (forall i | 0 <= i < |segments| :: 1 <= |segments[i]| <= max)
    && (forall i, j | 0 <= i < j < |segments| && j == i + 1 :: |segments[i]| + |segments[j]| > max)
  }

  lemma FullAppend(a: seq<string>, b: seq<string>, max: nat)
    requires Full(a, max) && Full(b, max)
    requires a != [] && b != [] ==> |a[|a| - 1]| + |b[0]| > max
    ensures Full(a + b, max)
  {
    var c := a + b;
    forall i, j | 0 <= i < j < |c| && j == i + 1 ensures |c[i]| + |c[j]| > max {
      if j < |a| {
        assert c[i] == a[i] && c[j] == a[j];
      } else if i >= |a| {
        assert c[i] == b[i - |a|] && c[j] == b[j - |a|];
      }
    }
  }

  lemma {:induction false} GreedyIsFull(current: string, parts: seq<string>, max: nat)
    requires max >= 1 && |current| <= max
    ensures var segments := Greedy(current, parts, max);
      && Full(segments, max)
      && (current != "" ==> segments != [] && |segments[0]| >= |current|)
    decreases |parts|
  {
    hide Greedy, Chunks, Full, Concat, Flush;
    if parts == [] {
      FlushIsFull(current, max);
    } else if |current| + |parts[0]| <= max {
      GreedyFits(current, parts, max);
      GreedyIsFull(current + parts[0], parts[1..], max);
    } else {
      var chunks := Chunks(parts[0], max);
      ChunksFit(parts[0], max);
      FirstChunk(parts[0], max);
      GreedyStep(current, parts, max);
      GreedyIsFull(chunks[|chunks| - 1], parts[1..], max);
      CutIsFull(current, chunks, Greedy(chunks[|chunks| - 1], parts[1..], max), max);
    }
  }

  lemma FlushIsFull(current: string, max: nat)
    requires max >= 1 && |current| <= max
    ensures Greedy(current, [], max) == Flush(current) && Full(Flush(current), max)
    ensures current != "" ==> Flush(current) == [current]
  {}

  lemma CutIsFull(current: string, chunks: seq<string>, rest: seq<string>, max: nat)
    requires max >= 1 && |current| <= max && Full(rest, max)
    requires chunks != [] && (current != "" ==> |current| + |chunks[0]| > max)
    requires forall i | 0 <= i < |chunks| - 1 :: |chunks[i]| == max
    requires chunks[|chunks| - 1] != "" ==> rest != [] && |rest[0]| >= |chunks[|chunks| - 1]|
    ensures var segments := Flush(current) + chunks[..|chunks| - 1] + rest;
      Full(segments, max) && (current != "" ==> segments != [] && |segments[0]| >= |current|)
  {
    var front := chunks[..|chunks| - 1];
    FullAppend(front, rest, max);
    FullAppend(Flush(current), front + rest, max);
    assert Flush(current) + front + rest == Flush(current) + (front + rest);
  }

  lemma FirstChunk(part: string, max: nat)
    requires max >= 1
    ensures var chunks := Chunks(part, max);
      chunks != [] && |chunks[0]| == (if |part| > max then max else |part|) && (|chunks| == 1 <==> |part| <= max)
  {}

  /** Short parts are never cut: every segment is a run of whole pieces, and a piece is a part or,
      for a part longer than a segment can be, a chunk of it. */
  ghost predicate Grouped(segments: seq<string>, pieces: seq<string>)
    decreases |segments|
  {
    if segments == [] then Concat(pieces) == ""
    else exists n :: 0 <= n <= |pieces| && Concat(pieces[..n]) == segments[0] && Grouped(segments[1..], pieces[n..])
  }

  function Pieces(parts: seq<string>, max: nat): seq<string>
    requires max >= 1
  {
    if parts == [] then [] else Chunks(parts[0], max) + Pieces(parts[1..], max)
  }

  lemma GroupFirst(segments: seq<string>, pieces: seq<string>, n: nat)
    requires segments != [] && n <= |pieces| && Concat(pieces[..n]) == segments[0]
             && Grouped(segments[1..], pieces[n..])
    ensures Grouped(segments, pieces)
  {}

  ghost predicate NonEmpty(segments: seq<string>) {
    forall i | 0 <= i < |segments| :: segments[i] != ""
  }

  /** A group may as well be made of two pieces instead of their concatenation. */
  lemma GroupSplitsFirst(segments: seq<string>, a: string, b: string, pieces: seq<string>)
    requires NonEmpty(segments)
    requires Grouped(segments, [a + b] + pieces)
    ensures Grouped(segments, [a, b] + pieces)
  {
    hide Grouped, Concat;
    if segments == [] {
      ConcatTwo(a, b, pieces);
      GroupsNothing([a + b] + pieces);
      GroupsNothing([a, b] + pieces);
    } else {
      var n := FirstGroup(segments, [a + b] + pieces);
      NoPieces();
      var rest := pieces[..n - 1];
      assert ([a + b] + pieces)[..n] == [a + b] + rest && ([a, b] + pieces)[..n + 1] == [a, b] + rest;
      ConcatTwo(a, b, rest);
      assert ([a, b] + pieces)[n + 1..] == ([a + b] + pieces)[n..];
      GroupFirst(segments, [a, b] + pieces, n + 1);
    }
  }

  lemma FirstGroup(segments: seq<string>, pieces: seq<string>) returns (n: nat)
    requires segments != [] && Grouped(segments, pieces)
    ensures n <= |pieces| && Concat(pieces[..n]) == segments[0] && Grouped(segments[1..], pieces[n..])
    ensures segments[0] != "" ==> n > 0
  {
    n :| 0 <= n <= |pieces| && Concat(pieces[..n]) == segments[0] && Grouped(segments[1..], pieces[n..]);
  }

  lemma NoPieces()
    ensures Concat([]) == ""
  {}

  lemma GroupsNothing(pieces: seq<string>)
    ensures Grouped([], pieces) <==> Concat(pieces) == ""
  {}

  lemma ConcatTwo(a: string, b: string, pieces: seq<string>)
    ensures Concat([a + b] + pieces) == Concat([a, b] + pieces) == a + b + Concat(pieces)
  {
    assert ([a + b] + pieces)[1..] == pieces;
    assert ([a, b] + pieces)[1..] == [b] + pieces && ([b] + pieces)[1..] == pieces;
    assert a + (b + Concat(pieces)) == a + b + Concat(pieces);
  }

  lemma GroupAlone(first: string, segments: seq<string>, pieces: seq<string>)
    requires Grouped(segments, pieces)
    ensures Grouped([first] + segments, [first] + pieces)
  {
    assert ([first] + segments)[1..] == segments && ([first] + pieces)[1..] == pieces
           && ([first] + pieces)[..1] == [first];
    assert Concat([first]) == first + Concat([first][1..]);
    GroupFirst([first] + segments, [first] + pieces, 1);
  }

  lemma {:induction false} GroupAllAlone(front: seq<string>, segments: seq<string>, pieces: seq<string>)
    requires Grouped(segments, pieces)
    ensures Grouped(front + segments, front + pieces)
    decreases |front|
  {
    hide Grouped;
    if front == [] {
      assert front + segments == segments && front + pieces == pieces;
    } else {
      GroupAllAlone(front[1..], segments, pieces);
      GroupAlone(front[0], front[1..] + segments, front[1..] + pieces);
      assert front + segments == [front[0]] + (front[1..] + segments);
      assert front + pieces == [front[0]] + (front[1..] + pieces);
    }
  }

  lemma GroupDropsEmpty(segments: seq<string>, pieces: seq<string>)
    requires NonEmpty(segments)
    requires Grouped(segments, pieces)
    ensures Grouped(segments, [""] + pieces)
  {
    assert ([""] + pieces)[1..] == pieces;
    if segments != [] {
      var n :| 0 <= n <= |pieces| && Concat(pieces[..n]) == segments[0] && Grouped(segments[1..], pieces[n..]);
      assert ([""] + pieces)[..n + 1][1..] == pieces[..n] && ([""] + pieces)[n + 1..] == pieces[n..];
      GroupFirst(segments, [""] + pieces, n + 1);
    }
  }

  lemma {:induction false} GreedyGroups(current: string, parts: seq<string>, max: nat)
    requires max >= 1 && |current| <= max
    ensures Grouped(Greedy(current, parts, max), [current] + Pieces(parts, max))
    decreases |parts|
  {
    GreedyIsFull(current, parts, max);
    hide Greedy, Chunks, Grouped, Pieces, Full, Concat, Flush;
    GreedyEnds(current, max);
    if parts != [] {
      var chunks, rest := Chunks(parts[0], max), Pieces(parts[1..], max);
      ChunksFit(parts[0], max);
      PiecesFirst(parts, max);
      if |current| + |parts[0]| <= max {
        GreedyGroups(current + parts[0], parts[1..], max);
        GreedyFits(current, parts, max);
        FullMeansNonEmpty(Greedy(current, parts, max), max);
        GroupSplitsFirst(Greedy(current, parts, max), current, parts[0], rest);
        TwoFirst(current, parts[0], rest);
      } else {
        var last := chunks[|chunks| - 1];
        GreedyGroups(last, parts[1..], max);
        GreedyStep(current, parts, max);
        FullMeansNonEmpty(Greedy(current, parts, max), max);
        GroupCut(current, chunks, Greedy(last, parts[1..], max), rest);
      }
    }
  }

  lemma TwoFirst(a: string, b: string, rest: seq<string>)
    ensures [a] + ([b] + rest) == [a, b] + rest
  {}

  lemma GroupCut(current: string, chunks: seq<string>, tail: seq<string>, rest: seq<string>)
    requires chunks != [] && Grouped(tail, [chunks[|chunks| - 1]] + rest)
    requires NonEmpty(Flush(current) + chunks[..|chunks| - 1] + tail)
    ensures Grouped(Flush(current) + chunks[..|chunks| - 1] + tail, [current] + (chunks + rest))
  {
    hide Grouped;
    var front, last := chunks[..|chunks| - 1], chunks[|chunks| - 1];
    GroupAllAlone(front, tail, [last] + rest);
    var segments, pieces := front + tail, front + ([last] + rest);
    assert Flush(current) + front + tail == Flush(current) + segments && chunks + rest == pieces;
    if current == "" {
      assert Flush(current) + segments == segments;
      GroupDropsEmpty(segments, pieces);
    } else {
      GroupAlone(current, segments, pieces);
    }
  }

  lemma FullMeansNonEmpty(segments: seq<string>, max: nat)
    requires Full(segments, max)
    ensures NonEmpty(segments)
  {}

  lemma PiecesFirst(parts: seq<string>, max: nat)
    requires max >= 1 && parts != []
    ensures Pieces(parts, max) == Chunks(parts[0], max) + Pieces(parts[1..], max)
    ensures |parts[0]| <= max ==> Chunks(parts[0], max) == [parts[0]]
  {}

  lemma GreedyFits(current: string, parts: seq<string>, max: nat)
    requires max >= 1 && parts != [] && |current| + |parts[0]| <= max
    ensures Greedy(current, parts, max) == Greedy(current + parts[0], parts[1..], max)
  {}

  lemma GreedyEnds(current: string, max: nat)
    requires max >= 1
    ensures Grouped(Greedy(current, [], max), [current] + Pieces([], max))
  {
    assert [current] + [] == [current] && [current][1..] == [] && [current][..1] == [current];
    assert Concat([current]) == current;
    if current != "" {
      GroupFirst([current], [current], 1);
    }
  }

  // ---------------------------------------------------------------- the splitter

  lemma {:induction false} FullPairs(segments: seq<string>, max: nat)
    requires Full(segments, max)
    ensures |segments| / 2 * (max + 1) <= |Concat(segments)|
    decreases |segments|
  {
    if |segments| >= 2 {
      FullPairs(segments[2..], max);
      assert segments[1..][1..] == segments[2..];
      assert |Concat(segments)| == |segments[0]| + (|segments[1]| + |Concat(segments[2..])|);
      assert |segments| / 2 == 1 + |segments[2..]| / 2;
      assert (1 + |segments[2..]| / 2) * (max + 1) == (max + 1) + |segments[2..]| / 2 * (max + 1);
    }
  }

  /** For every text: no character is lost or added but the ellipses, every piece fits, the
      segments are as few as half the optimum at worst, and no short sentence part is cut. */
  lemma SplitIsSound(text: string, max: nat)
    requires max >= 1
    ensures var segments := Split(text, max);
      && Concat(segments) == text
      && Full(segments, max)
      && |segments| / 2 * (max + 1) <= |text|
      && Grouped(segments, [""] + Pieces(Parts(text), max))
  {
    var segments := Split(text, max);
    PartsKeepText("", text);
    GreedyKeepsText("", Parts(text), max);
    GreedyIsFull("", Parts(text), max);
    GreedyGroups("", Parts(text), max);
    if |text| <= max && text != "" {
      assert Concat([text]) == text + Concat([text][1..]);
      ShortTextGroups(text, max);
    } else if text == "" {
      assert Parts(text) == [""] && Pieces([""], max) == [""] + Pieces([""][1..], max);
      assert Concat(["", ""]) == "" + Concat(["", ""][1..]);
    }
    FullPairs(segments, max);
  }

  lemma ShortTextGroups(text: string, max: nat)
    requires max >= 1 && 1 <= |text| <= max
    ensures Grouped([text], [""] + Pieces(Parts(text), max))
  {
    var pieces := [""] + Pieces(Parts(text), max);
    PartsKeepText("", text);
    PiecesKeepText(Parts(text), max);
    assert pieces[1..] == Pieces(Parts(text), max);
    assert pieces[..|pieces|] == pieces && pieces[|pieces|..] == [];
    assert [text][1..] == [];
    GroupFirst([text], pieces, |pieces|);
  }

  lemma {:induction false} PiecesKeepText(parts: seq<string>, max: nat)
    requires max >= 1
    ensures Concat(Pieces(parts, max)) == Concat(parts)
    decreases |parts|
  {
    if parts != [] {
      ChunksFit(parts[0], max);
      PiecesKeepText(parts[1..], max);
      ConcatAppend(Chunks(parts[0], max), Pieces(parts[1..], max));
    }
  }

  /** The ellipses can be taken off again, and add six characters to a piece at most. */
  lemma DecorationIsReversible(segments: seq<string>)
    ensures var pieces := Decorated(segments);
      && (forall i | 0 <= i < |pieces| :: |Before(i)| + |After(i, |pieces|)| <= |pieces[i]| <= |segments[i]| + 6)
      && Bare(pieces) == segments
    ensures |Decorated(segments)| == |segments|
    ensures forall i | 0 <= i < |segments| :: Decorated(segments)[i]
              == (if i > 0 then "..." else "") + segments[i] + (if i < |segments| - 1 then "..." else "")
  {
    var pieces := Decorated(segments);
    forall i | 0 <= i < |pieces|
      ensures pieces[i][|Before(i)|..|pieces[i]| - |After(i, |pieces|)|] == segments[i] {}
  }

  method SplitToSegments(text: string, maxChars: nat) returns (result: seq<string>)
    requires maxChars >= 1
    ensures result == Decorated(Split(text, maxChars))
  {
    if text == "" {
      return [];
    }
    if |text| <= maxChars {
      DecoratedAlone(text);
      return [text];
    }
    var segments := Gather(Parts(text), maxChars);
    result := Decorate(segments);
  }

  /** The outer loop over the parts. */
  method Gather(rawParts: seq<string>, maxChars: nat) returns (segments: seq<string>)
    requires maxChars >= 1
    ensures segments == Greedy("", rawParts, maxChars)
  {
    hide Chunks, Flush;
    var current := "";
    segments := [];
    assert rawParts[0..] == rawParts;
    for i := 0 to |rawParts|
      invariant |current| <= maxChars
      invariant segments + Greedy(current, rawParts[i..], maxChars) == Greedy("", rawParts, maxChars)
    {
      hide Greedy;
      var part := rawParts[i];
      assert rawParts[i..][0] == part && rawParts[i..][1..] == rawParts[i + 1..];
      if |current| + |part| > maxChars {
        GreedyStep(current, rawParts[i..], maxChars);
        FlushMeans(current);
        ghost var before, chunks := segments, Chunks(part, maxChars);
        if current != "" {
          segments := segments + [current];
        }
        assert segments == before + Flush(current);
        AppendThree(before, Flush(current), chunks[..|chunks| - 1],
            Greedy(chunks[|chunks| - 1], rawParts[i + 1..], maxChars));
        segments, current := CutLongPart(segments, part, maxChars);
      } else {
        GreedyFits(current, rawParts[i..], maxChars);
        current := current + part;
      }
    }
    FlushMeans(current);
    if current != "" {
      segments := segments + [current];
    }
  }

  lemma FlushMeans(current: string)
    ensures Flush(current) == if current == "" then [] else [current]
  {}

  lemma AppendThree(a: seq<string>, b: seq<string>, c: seq<string>, d: seq<string>)
    ensures a + (b + c + d) == a + b + c + d
  {}

  lemma DecoratedAlone(text: string)
    ensures Decorated([text]) == [text]
  {
    assert Before(0) + text + After(0, 1) == text;
  }

  method Decorate(segments: seq<string>) returns (result: seq<string>)
    ensures result == Decorated(segments)
  {
    result := [];
    for i := 0 to |segments|
      invariant result == Decorated(segments)[..i]
    {
      var seg := segments[i];
      if i > 0 {
        seg := ELLIPSIS + seg;
      }
      if i < |segments| - 1 {
        seg := seg + ELLIPSIS;
      } else {
        assert seg + "" == seg;
      }
      DecoratedAt(segments, i, seg);
      result := result + [seg];
    }
  }

  lemma DecoratedAt(segments: seq<string>, i: nat, seg: string)
    requires i < |segments|
    requires seg == (if i > 0 then ELLIPSIS + segments[i] else segments[i])
             + (if i < |segments| - 1 then ELLIPSIS else "")
    ensures Decorated(segments)[i] == seg
  {}

  /** The inner loop: full-length chunks go out, the remainder is the new current segment. */
  method CutLongPart(segments: seq<string>, part: string, maxChars: nat) returns (longer: seq<string>, rest: string)
    requires maxChars >= 1
    ensures var chunks := Chunks(part, maxChars);
      chunks != [] && longer == segments + chunks[..|chunks| - 1] && rest == chunks[|chunks| - 1] && |rest| <= maxChars
  {
    ghost var chunks := Chunks(part, maxChars);
    longer, rest := segments, part;
    ghost var done := 0;
    ChunksStart(part, maxChars);
    while |rest| > maxChars
      invariant done < |chunks| && longer == segments + chunks[..done] && Chunks(rest, maxChars) == chunks[done..]
      decreases |rest|
    {
      hide Chunks;
      ChunksStep(rest, maxChars);
      longer := longer + [rest[..maxChars]];
      rest := rest[maxChars..];
      done := done + 1;
    }
    ChunksEnd(rest, maxChars);
  }

  lemma ChunksStart(part: string, max: nat)
    requires max >= 1
    ensures Chunks(part, max) != [] && Chunks(part, max)[0..] == Chunks(part, max)
  {}

  lemma ChunksStep(part: string, max: nat)
    requires max >= 1 && |part| > max
    ensures Chunks(part, max)[0] == part[..max] && Chunks(part, max)[1..] == Chunks(part[max..], max) != []
  {}

  lemma ChunksEnd(part: string, max: nat)
    requires max >= 1 && |part| <= max
    ensures Chunks(part, max) == [part]
  {}
}
