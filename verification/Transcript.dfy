/** Reading a transcript in parts: `_segment_chunk` and the two formats of `get_call_transcript` in
    server/okk_mcp/backend_client.py. */
module Transcript {
  import opened Common

  datatype Segment = Segment(speaker: string, text: string)

  function Size(segments: seq<Segment>): nat {
    if segments == [] then 0 else |segments[0].text| + Size(segments[1..])
  }

  lemma SizeOne(segment: Segment)
    ensures Size([]) == 0 && Size([segment]) == |segment.text|
  {
  }

  lemma {:induction false} SizeAppend(a: seq<Segment>, b: seq<Segment>)
    ensures Size(a + b) == Size(a) + Size(b)
  {
    if a == [] {
      assert a + b == b;
    } else {
      assert (a + b)[1..] == a[1..] + b;
      SizeAppend(a[1..], b);
    }
  }

  /** A part a caller may get: not empty, within both budgets or one single segment. */
  predicate Fits(chunk: seq<Segment>, maxSegments: nat, maxChars: nat) {
    0 < |chunk| <= maxSegments && (|chunk| == 1 || Size(chunk) <= maxChars)
  }

  /** The number of segments of the part that begins at `start`, `taken` of them already. */
  function Taken(source: seq<Segment>, start: nat, maxSegments: nat, maxChars: nat, taken: nat): (n: nat)
    requires start + taken <= |source| && taken <= maxSegments
    ensures taken <= n <= maxSegments && start + n <= |source|
    decreases |source| - start - taken
  {
    if taken == maxSegments || start + taken == |source| then taken
    else if taken > 0 && Size(source[start..start + taken]) + |source[start + taken].text| > maxChars then taken
    else Taken(source, start, maxSegments, maxChars, taken + 1)
  }

  /** `_segment_chunk`. */
  method SegmentChunk(source: seq<Segment>, start: nat, maxSegments: nat, maxChars: nat) returns (chunk: seq<Segment>)
    ensures start >= |source| ==> chunk == []
    ensures start < |source| ==> chunk == source[start..start + Taken(source, start, maxSegments, maxChars, 0)]
  {
    hide Size;
    chunk := [];
    if start >= |source| {
      return;
    }
    SizeOne(source[start]);
    var used := 0;
    var end := if start + maxSegments <= |source| then start + maxSegments else |source|;
    var i := start;
    while i < end
      invariant start <= i <= end
      invariant chunk == source[start..i] && used == Size(chunk)
      invariant Taken(source, start, maxSegments, maxChars, i - start) == Taken(source, start, maxSegments, maxChars, 0)
    {
      var size := |source[i].text|;
      if chunk != [] && used + size > maxChars {
        break;
      }
      SizeAppend(chunk, [source[i]]);
      SizeOne(source[i]);
      chunk := chunk + [source[i]];
      used := used + size;
      i := i + 1;
    }
  }

  lemma {:induction false} SizeSlice(source: seq<Segment>, lo: nat, mid: nat, hi: nat)
    requires lo <= mid <= hi <= |source|
    ensures Size(source[lo..hi]) == Size(source[lo..mid]) + Size(source[mid..hi])
  {
    assert source[lo..hi] == source[lo..mid] + source[mid..hi];
    SizeAppend(source[lo..mid], source[mid..hi]);
  }

  /** The part is one a caller may get, and no longer part from the same place is. */
  lemma {:induction false} TakenIsMaximal(source: seq<Segment>, start: nat, maxSegments: nat, maxChars: nat, taken: nat)
    requires start < |source| && start + taken <= |source| && 1 <= maxSegments && taken <= maxSegments
    requires taken > 0 ==> Fits(source[start..start + taken], maxSegments, maxChars)
    ensures var n := Taken(source, start, maxSegments, maxChars, taken);
      && Fits(source[start..start + n], maxSegments, maxChars)
      && (forall end :: start + n < end <= |source| ==> !Fits(source[start..end], maxSegments, maxChars))
    decreases |source| - start - taken
  {
    hide Size;
    var n := Taken(source, start, maxSegments, maxChars, taken);
    if taken < maxSegments && start + taken < |source| {
      SizeOne(source[start + taken]);
      SizeSlice(source, start, start + taken, start + taken + 1);
      assert source[start + taken..start + taken + 1] == [source[start + taken]];
      if taken > 0 && Size(source[start..start + taken]) + |source[start + taken].text| > maxChars {
        forall end | start + n < end <= |source| ensures !Fits(source[start..end], maxSegments, maxChars) {
          SizeSlice(source, start, start + taken + 1, end);
        }
      } else {
        TakenIsMaximal(source, start, maxSegments, maxChars, taken + 1);
      }
    }
  }

  // ---------------------------------------------------------------- following next_start_segment

  /** The parts a caller gets who follows `next_start_segment` from `start` until it is null. */
  function Follow(source: seq<Segment>, start: nat, maxSegments: nat, maxChars: nat): (parts: seq<seq<Segment>>)
    requires 1 <= maxSegments && start <= |source|
    decreases |source| - start
  {
    if start == |source| then []
    else
      var n := Taken(source, start, maxSegments, maxChars, 0);
      TakenIsMaximal(source, start, maxSegments, maxChars, 0);
      [source[start..start + n]] + Follow(source, start + n, maxSegments, maxChars)
  }

  function Concat<T>(parts: seq<seq<T>>): seq<T> {
    if parts == [] then [] else parts[0] + Concat(parts[1..])
  }

  ghost predicate AllFit(parts: seq<seq<Segment>>, maxSegments: nat, maxChars: nat) {
    forall i :: 0 <= i < |parts| ==> Fits(parts[i], maxSegments, maxChars)
  }

  /** Nothing is lost, repeated or reordered, and every part is within both budgets unless it is one
      oversized segment. */
  lemma {:induction false} FollowGivesTheSource(source: seq<Segment>, start: nat, maxSegments: nat, maxChars: nat)
    requires 1 <= maxSegments && start <= |source|
    ensures Concat(Follow(source, start, maxSegments, maxChars)) == source[start..]
    ensures AllFit(Follow(source, start, maxSegments, maxChars), maxSegments, maxChars)
    decreases |source| - start
  {
    hide Size, Taken, Concat;
    ConcatNone<Segment>();
    if start < |source| {
      var n := Taken(source, start, maxSegments, maxChars, 0);
      TakenIsMaximal(source, start, maxSegments, maxChars, 0);
      FollowGivesTheSource(source, start + n, maxSegments, maxChars);
      var first, rest := source[start..start + n], Follow(source, start + n, maxSegments, maxChars);
      ConcatCons(first, rest);
      assert source[start..] == first + source[start + n..];
    }
  }

  lemma ConcatNone<T>()
    ensures Concat<T>([]) == []
  {
  }

  lemma ConcatCons<T>(first: seq<T>, rest: seq<seq<T>>)
    ensures Concat([first] + rest) == first + Concat(rest)
  {
    assert ([first] + rest)[1..] == rest;
  }

  /** Starting later never needs more parts. */
  lemma {:induction false} LaterNeedsNoMore(source: seq<Segment>, a: nat, b: nat, maxSegments: nat, maxChars: nat)
    requires 1 <= maxSegments && a <= b <= |source|
    ensures |Follow(source, b, maxSegments, maxChars)| <= |Follow(source, a, maxSegments, maxChars)|
    decreases |source| - a
  {
    hide Size, Taken;
    if b < |source| {
      var n := Taken(source, a, maxSegments, maxChars, 0);
      var m := Taken(source, b, maxSegments, maxChars, 0);
      GreedyStaysAhead(source, a, b, maxSegments, maxChars);
      LaterNeedsNoMore(source, a + n, b + m, maxSegments, maxChars);
    }
  }

  /** A part that starts later ends no earlier. */
  lemma GreedyStaysAhead(source: seq<Segment>, a: nat, b: nat, maxSegments: nat, maxChars: nat)
    requires 1 <= maxSegments && a <= b < |source|
    ensures 0 < Taken(source, a, maxSegments, maxChars, 0) && 0 < Taken(source, b, maxSegments, maxChars, 0)
    ensures a + Taken(source, a, maxSegments, maxChars, 0) <= b + Taken(source, b, maxSegments, maxChars, 0)
  {
    var end := a + Taken(source, a, maxSegments, maxChars, 0);
    TakenIsMaximal(source, a, maxSegments, maxChars, 0);
    TakenIsMaximal(source, b, maxSegments, maxChars, 0);
    if b < end { PartOfFits(source, a, b, end, maxSegments, maxChars); }
  }

  /** The end of an admissible part is admissible. */
  lemma PartOfFits(source: seq<Segment>, a: nat, b: nat, end: nat, maxSegments: nat, maxChars: nat)
    requires a <= b < end <= |source| && Fits(source[a..end], maxSegments, maxChars)
    ensures Fits(source[b..end], maxSegments, maxChars)
  {
    SizeSlice(source, a, b, end);
  }

  /** The greedy parts are the fewest: any other way to cut the source into admissible consecutive parts
      has at least as many. */
  lemma {:induction false} GreedyIsFewest(source: seq<Segment>, start: nat, parts: seq<seq<Segment>>, maxSegments: nat,
                                          maxChars: nat)
    requires 1 <= maxSegments && start <= |source|
    requires Concat(parts) == source[start..] && AllFit(parts, maxSegments, maxChars)
    ensures |Follow(source, start, maxSegments, maxChars)| <= |parts|
    decreases |parts|
  {
    hide Size, Taken;
    if start < |source| {
      assert parts != [];
      var k := |parts[0]|;
      var n := Taken(source, start, maxSegments, maxChars, 0);
      TakenIsMaximal(source, start, maxSegments, maxChars, 0);
      assert source[start..] == parts[0] + Concat(parts[1..]);
      assert source[start..][..k] == parts[0] && source[start..][k..] == Concat(parts[1..]);
      assert source[start..start + k] == source[start..][..k];
      assert source[start + k..] == source[start..][k..];
      assert Fits(source[start..start + k], maxSegments, maxChars);
      assert k <= n;
      GreedyIsFewest(source, start + k, parts[1..], maxSegments, maxChars);
      LaterNeedsNoMore(source, start + k, start + n, maxSegments, maxChars);
    }
  }

  // ---------------------------------------------------------------- following next_start_char

  /** One answer in the text format: at most `maxChars` characters that stand in the text at `start`, as many
      as there are; `next` is where the text goes on, null exactly when nothing is left. */
  method TextChunk(text: string, start: nat, maxChars: nat) returns (chunk: string, next: Option<nat>)
    ensures |chunk| <= maxChars && (start > |text| ==> chunk == "" && next == None)
    ensures start <= |text| ==> start + |chunk| <= |text| && text[start..start + |chunk|] == chunk
    ensures |chunk| == maxChars || start + |chunk| >= |text|
    ensures next.None? <==> start + |chunk| >= |text|
    ensures next.Some? ==> next.value < |text| && text[start..] == chunk + text[next.value..]
    ensures chunk == TextPart(text, start, maxChars)
  {
    chunk := if start >= |text| then []
             else if start + maxChars <= |text| then text[start..start + maxChars] else text[start..];
    var end := start + |chunk|;
    next := if end < |text| then Some(end) else None;
  }

  function TextPart(text: string, start: nat, maxChars: nat): string {
    if start >= |text| then [] else if start + maxChars <= |text| then text[start..start + maxChars] else text[start..]
  }

  function FollowText(text: string, start: nat, maxChars: nat): seq<string>
    requires 1 <= maxChars && start <= |text|
    decreases |text| - start
  {
    var part := TextPart(text, start, maxChars);
    [part] + (if start + |part| < |text| then FollowText(text, start + |part|, maxChars) else [])
  }

  lemma TextPartIs(text: string, start: nat, maxChars: nat)
    requires 1 <= maxChars && start <= |text|
    ensures var part := TextPart(text, start, maxChars);
      start + |part| <= |text| && part == text[start..start + |part|] && (start < |text| ==> part != [])
  {
  }

  lemma {:induction false} FollowTextGivesTheText(text: string, start: nat, maxChars: nat)
    requires 1 <= maxChars && start <= |text|
    ensures Concat(FollowText(text, start, maxChars)) == text[start..]
    decreases |text| - start
  {
    hide TextPart;
    TextPartIs(text, start, maxChars);
    var part := TextPart(text, start, maxChars);
    var parts := FollowText(text, start, maxChars);
    if start + |part| < |text| {
      FollowTextGivesTheText(text, start + |part|, maxChars);
      assert parts[1..] == FollowText(text, start + |part|, maxChars);
      assert text[start..] == part + text[start + |part|..];
    } else {
      assert parts == [part];
      assert Concat(parts) == part + Concat(parts[1..]) == part;
    }
  }
}
