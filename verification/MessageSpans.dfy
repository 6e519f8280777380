/** Splitting tokens into message spans at delimiters
    (common/chat.cpp, lines 152-184; common/chat.h, lines 157-217). */
module MessageSpans {
  import opened Sequences

  datatype Role = Unknown | System | Assistant | User | Tool

  datatype Delimiter = Delimiter(role: Role, tokens: seq<int>)

  datatype Span = Span(role: Role, pos: nat, len: nat)

  /** A delimiter found at a position. */
  datatype Match = Match(role: Role, pos: nat)

  /** A region to jump over; the regions are kept in order of their starts. */
  datatype Skip = Skip(start: nat, len: nat)

  predicate MatchesAt(d: Delimiter, tokens: seq<int>, i: nat)
  {
    i + |d.tokens| <= |tokens| && tokens[i..i + |d.tokens|] == d.tokens
  }

  lemma MatchesIff(d: Delimiter, tokens: seq<int>, i: nat)
    requires i <= |tokens|
    ensures MatchesAt(d, tokens, i) <==> d.tokens <= tokens[i..]
  {
    if i + |d.tokens| <= |tokens| {
      assert tokens[i..][..|d.tokens|] == tokens[i..i + |d.tokens|];
    }
  }

  /** The first delimiter that matches at `i`, if any. */
  function FoundAt(delims: seq<Delimiter>, tokens: seq<int>, i: nat): (ms: seq<Match>)
    ensures |ms| <= 1
  {
    if delims == [] then []
    else if MatchesAt(delims[0], tokens, i) then [Match(delims[0].role, i)]
    else FoundAt(delims[1..], tokens, i)
  }

  /** It is the delimiter that matches while none before it does. */
  lemma {:induction false} FoundIsFirst(delims: seq<Delimiter>, tokens: seq<int>, i: nat, k: nat)
    requires k < |delims| && MatchesAt(delims[k], tokens, i)
    requires forall j :: 0 <= j < k ==> !MatchesAt(delims[j], tokens, i)
    ensures FoundAt(delims, tokens, i) == [Match(delims[k].role, i)]
  {
    if k > 0 {
      FoundIsFirst(delims[1..], tokens, i, k - 1);
    }
  }

  lemma {:induction false} NoneFoundIff(delims: seq<Delimiter>, tokens: seq<int>, i: nat)
    ensures FoundAt(delims, tokens, i) == [] <==> forall k :: 0 <= k < |delims| ==> !MatchesAt(delims[k], tokens, i)
  {
    if delims != [] {
      NoneFoundIff(delims[1..], tokens, i);
      assert forall k :: 0 <= k < |delims| - 1 ==> delims[1..][k] == delims[k + 1];
    }
  }

  /** The matching loop from position `i` on; `skips` are those not yet reached. */
  function ScanFrom(delims: seq<Delimiter>, tokens: seq<int>, skips: seq<Skip>, i: nat): seq<Match>
    decreases |skips|, |tokens| - i
  {
    if i >= |tokens| then []
    else if skips != [] && i == skips[0].start then ScanFrom(delims, tokens, skips[1..], i + skips[0].len)
    else FoundAt(delims, tokens, i) + ScanFrom(delims, tokens, skips, i + 1)
  }

  /** Matches in increasing order, from `lo` on and before `hi`. */
  predicate Ordered(ms: seq<Match>, lo: nat, hi: nat)
  {
    && (forall k :: 0 <= k < |ms| ==> lo <= ms[k].pos < hi)
    && forall k, l :: 0 <= k < l < |ms| ==> ms[k].pos < ms[l].pos
  }

  /** Each match reaches to the next one, the last to the end. */
  function SpansOf(ms: seq<Match>, end: nat): (spans: seq<Span>)
    requires Ordered(ms, 0, end)
    ensures |spans| == |ms|
  {
    seq(|ms|, i requires 0 <= i < |ms| =>
      Span(ms[i].role, ms[i].pos, (if i + 1 < |ms| then ms[i + 1].pos else end) - ms[i].pos))
  }

  lemma {:induction false} ScanIncreases(delims: seq<Delimiter>, tokens: seq<int>, skips: seq<Skip>, i: nat)
    ensures Ordered(ScanFrom(delims, tokens, skips, i), i, |tokens|)
    decreases |skips|, |tokens| - i
  {
    hide FoundAt;
    if i < |tokens| {
      if skips != [] && i == skips[0].start {
        ScanIncreases(delims, tokens, skips[1..], i + skips[0].len);
      } else {
        FoundHere(delims, tokens, i);
        ScanIncreases(delims, tokens, skips, i + 1);
        OrderedCons(FoundAt(delims, tokens, i), ScanFrom(delims, tokens, skips, i + 1), i, |tokens|);
      }
    }
  }

  lemma OrderedCons(here: seq<Match>, rest: seq<Match>, i: nat, hi: nat)
    requires |here| <= 1 && i < hi && (forall k :: 0 <= k < |here| ==> here[k].pos == i) && Ordered(rest, i + 1, hi)
    ensures Ordered(here + rest, i, hi)
  {
  }

  lemma {:induction false} FoundHere(delims: seq<Delimiter>, tokens: seq<int>, i: nat)
    ensures forall k :: 0 <= k < |FoundAt(delims, tokens, i)| ==> FoundAt(delims, tokens, i)[k].pos == i
  {
    if delims != [] {
      FoundHere(delims[1..], tokens, i);
    }
  }

  function Split(delims: seq<Delimiter>, tokens: seq<int>, skips: seq<Skip>): seq<Span>
  {
    ScanIncreases(delims, tokens, skips, 0);
    SpansOf(ScanFrom(delims, tokens, skips, 0), |tokens|)
  }

  // ----- the loops -----

  method FindAt(delims: seq<Delimiter>, tokens: seq<int>, i: nat) returns (ms: seq<Match>)
    ensures ms == FoundAt(delims, tokens, i)
  {
    ms := [];
    var k := 0;
    assert delims[0..] == delims;
    while k < |delims|
      invariant 0 <= k <= |delims|
      invariant FoundAt(delims[k..], tokens, i) == FoundAt(delims, tokens, i)
    {
      assert delims[k..][1..] == delims[k + 1..];
      var d := delims[k];
      k := k + 1;
      if i + |d.tokens| > |tokens| {
        continue;
      }
      if tokens[i..i + |d.tokens|] == d.tokens {
        ms := [Match(d.role, i)];
        return;
      }
    }
  }

  method SplitTokens(delims: seq<Delimiter>, tokens: seq<int>, skips: seq<Skip>) returns (spans: seq<Span>)
    ensures spans == Split(delims, tokens, skips)
  {
    var matches := FindMatches(delims, tokens, skips);
    ScanIncreases(delims, tokens, skips, 0);
    spans := [];
    for k := 0 to |matches|
      invariant |spans| == k && spans == SpansOf(matches, |tokens|)[..k]
    {
      var next := if k + 1 < |matches| then matches[k + 1].pos else |tokens|;
      spans := spans + [Span(matches[k].role, matches[k].pos, next - matches[k].pos)];
    }
  }

  method FindMatches(delims: seq<Delimiter>, tokens: seq<int>, skips: seq<Skip>) returns (matches: seq<Match>)
    ensures matches == ScanFrom(delims, tokens, skips, 0)
  {
    hide FoundAt;
    matches := [];
    var skip, i: nat := 0, 0;
    assert skips[0..] == skips;
    while i < |tokens|
      invariant 0 <= skip <= |skips|
      invariant matches + ScanFrom(delims, tokens, skips[skip..], i) == ScanFrom(delims, tokens, skips, 0)
      decreases |skips| - skip, |tokens| - i
    {
      if skip < |skips| && i == skips[skip].start {
        assert skips[skip..][1..] == skips[skip + 1..];
        i := i + skips[skip].len;
        skip := skip + 1;
        continue;
      }
      var found := FindAt(delims, tokens, i);
      ConcatAssociates(matches, found, ScanFrom(delims, tokens, skips[skip..], i + 1));
      matches := matches + found;
      i := i + 1;
    }
    assert matches + [] == matches;
  }

  // ----- skipped regions -----

  predicate InSkip(s: Skip, i: nat)
  {
    s.start <= i < s.start + s.len
  }

  predicate Skipped(skips: seq<Skip>, i: nat)
  {
    exists k :: 0 <= k < |skips| && InSkip(skips[k], i)
  }

  /** The keys of a map, in order. */
  predicate Increasing(skips: seq<Skip>)
  {
    forall k, l :: 0 <= k < l < |skips| ==> skips[k].start < skips[l].start
  }

  /** Between `i` and `n` the region holds no position. */
  predicate Harmless(s: Skip, i: nat, n: nat)
  {
    s.len == 0 || s.start >= n || s.start + s.len <= i
  }

  /** The regions can be jumped over one after the other, starting at `i`: each starts at or
      after the end of the one before; from the first that does not, no region holds a
      position that is still ahead. */
  predicate Tracks(skips: seq<Skip>, i: nat, n: nat)
    decreases |skips|
  {
    || i >= n || skips == []
    || (if i <= skips[0].start then Tracks(skips[1..], skips[0].start + skips[0].len, n)
        else forall k :: 0 <= k < |skips| ==> Harmless(skips[k], i, n))
  }

  /** The loop that is at `i`, with these regions ahead, gets to try the delimiters at `p`. */
  predicate Tries(skips: seq<Skip>, n: nat, i: nat, p: nat)
    decreases |skips|, n - i
  {
    i < n &&
    if skips != [] && i == skips[0].start then Tries(skips[1..], n, i + skips[0].len, p)
    else p == i || Tries(skips, n, i + 1, p)
  }

  /** The matches at all positions that are not skipped. */
  function Reference(delims: seq<Delimiter>, tokens: seq<int>, skips: seq<Skip>, i: nat): seq<Match>
    decreases |tokens| - i
  {
    if i >= |tokens| then []
    else (if Skipped(skips, i) then [] else FoundAt(delims, tokens, i)) + Reference(delims, tokens, skips, i + 1)
  }

  lemma {:induction false} ReferenceJumps(delims: seq<Delimiter>, tokens: seq<int>, skips: seq<Skip>, i: nat, j: nat)
    requires i <= j && forall x :: i <= x < j ==> Skipped(skips, x)
    ensures Reference(delims, tokens, skips, i) == Reference(delims, tokens, skips, j)
    decreases j - i
  {
    hide Skipped, FoundAt;
    if i < j && i < |tokens| {
      ReferenceJumps(delims, tokens, skips, i + 1, j);
    }
  }

  lemma {:induction false} ReferenceForgets(delims: seq<Delimiter>, tokens: seq<int>, skips: seq<Skip>, i: nat)
    requires skips != [] && skips[0].start + skips[0].len <= i
    ensures Reference(delims, tokens, skips, i) == Reference(delims, tokens, skips[1..], i)
    decreases |tokens| - i
  {
    hide FoundAt;
    if i < |tokens| {
      ReferenceForgets(delims, tokens, skips, i + 1);
      SkippedTail(skips, i);
    }
  }

  lemma SkippedTail(skips: seq<Skip>, i: nat)
    requires skips != [] && !InSkip(skips[0], i)
    ensures Skipped(skips, i) <==> Skipped(skips[1..], i)
  {
    if Skipped(skips, i) {
      var k :| 0 <= k < |skips| && InSkip(skips[k], i);
      assert InSkip(skips[1..][k - 1], i);
    }
    if Skipped(skips[1..], i) {
      var k :| 0 <= k < |skips[1..]| && InSkip(skips[1..][k], i);
      assert InSkip(skips[k + 1], i);
    }
  }

  /** Moving one skip iterator along finds exactly the unskipped matches, if it can track
      the regions. */
  lemma {:induction false} ScanIsReference(delims: seq<Delimiter>, tokens: seq<int>, skips: seq<Skip>, i: nat)
    requires Increasing(skips) && Tracks(skips, i, |tokens|)
    ensures ScanFrom(delims, tokens, skips, i) == Reference(delims, tokens, skips, i)
    decreases |skips|, |tokens| - i
  {
    hide FoundAt, Skipped, Tracks;
    if i < |tokens| {
      if skips != [] && i == skips[0].start {
        var j := i + skips[0].len;
        JumpLooksRight(skips, |tokens|, i);
        ScanIsReference(delims, tokens, skips[1..], j);
        forall x | i <= x < j
          ensures Skipped(skips, x)
        {
          SkippedByFirst(skips, x);
        }
        ReferenceJumps(delims, tokens, skips, i, j);
        ReferenceForgets(delims, tokens, skips, j);
      } else {
        TracksNext(skips, i, |tokens|);
        ScanIsReference(delims, tokens, skips, i + 1);
      }
    }
  }

  lemma TracksNext(skips: seq<Skip>, i: nat, n: nat)
    requires Increasing(skips) && Tracks(skips, i, n) && i < n && (skips == [] || i != skips[0].start)
    ensures Tracks(skips, i + 1, n) && !Skipped(skips, i)
  {
    if skips != [] && i < skips[0].start {
      NotYetSkipped(skips, i);
    }
  }

  lemma SkippedByFirst(skips: seq<Skip>, i: nat)
    requires skips != [] && InSkip(skips[0], i)
    ensures Skipped(skips, i)
  {
  }

  lemma NotYetSkipped(skips: seq<Skip>, i: nat)
    requires Increasing(skips) && (skips == [] || i < skips[0].start)
    ensures !Skipped(skips, i)
  {
  }

  // ----- where the loop looks -----

  lemma {:induction false} TriesAhead(skips: seq<Skip>, n: nat, i: nat, p: nat)
    requires Tries(skips, n, i, p)
    ensures i <= p < n
    decreases |skips|, n - i
  {
    if skips != [] && i == skips[0].start {
      TriesAhead(skips[1..], n, i + skips[0].len, p);
    } else if p != i {
      TriesAhead(skips, n, i + 1, p);
    }
  }

  /** Once the loop is past the start of the next region, it looks everywhere. */
  lemma {:induction false} StuckTriesAll(skips: seq<Skip>, n: nat, i: nat, p: nat)
    requires skips == [] || skips[0].start < i
    requires i <= p < n
    ensures Tries(skips, n, i, p)
    decreases p - i
  {
    if p > i {
      StuckTriesAll(skips, n, i + 1, p);
    }
  }

  /** The loop looks exactly at the positions that are not skipped. */
  ghost predicate LooksRight(skips: seq<Skip>, n: nat, i: nat)
  {
    forall p: nat :: i <= p < n ==> (Tries(skips, n, i, p) <==> !Skipped(skips, p))
  }

  /** It does so if and only if it can track the regions. */
  lemma {:induction false} LooksRightIff(skips: seq<Skip>, n: nat, i: nat)
    requires Increasing(skips)
    ensures LooksRight(skips, n, i) <==> Tracks(skips, i, n)
    decreases |skips|, n - i
  {
    hide Tries, Skipped, Tracks;
    if i >= n {
      NothingAhead(skips, n, i);
    } else if skips == [] || skips[0].start < i {
      StuckLooksRightIff(skips, n, i);
    } else if i == skips[0].start {
      LooksRightIff(skips[1..], n, i + skips[0].len);
      JumpLooksRight(skips, n, i);
    } else {
      LooksRightIff(skips, n, i + 1);
      StepLooksRight(skips, n, i);
    }
  }

  lemma NothingAhead(skips: seq<Skip>, n: nat, i: nat)
    requires i >= n
    ensures LooksRight(skips, n, i) && Tracks(skips, i, n)
  {
  }

  lemma StuckLooksRightIff(skips: seq<Skip>, n: nat, i: nat)
    requires i < n && (skips == [] || skips[0].start < i)
    ensures LooksRight(skips, n, i) <==> Tracks(skips, i, n)
  {
    hide Tries;
    forall p: nat | i <= p < n ensures Tries(skips, n, i, p) {
      StuckTriesAll(skips, n, i, p);
    }
    if LooksRight(skips, n, i) {
      forall k | 0 <= k < |skips| ensures Harmless(skips[k], i, n) {
        var p := if skips[k].start < i then i else skips[k].start;
        assert p < n ==> !Skipped(skips, p);
        assert !InSkip(skips[k], p) || p >= n;
      }
    }
  }

  lemma JumpLooksRight(skips: seq<Skip>, n: nat, i: nat)
    requires skips != [] && i == skips[0].start && i < n
    ensures var j := i + skips[0].len;
            && (Tracks(skips, i, n) <==> Tracks(skips[1..], j, n))
            && (LooksRight(skips, n, i) <==> LooksRight(skips[1..], n, j))
  {
    hide Skipped;
    var j := i + skips[0].len;
    forall p: nat | i <= p < n
      ensures Tries(skips, n, i, p) == Tries(skips[1..], n, j, p)
      ensures p < j ==> Skipped(skips, p) && !Tries(skips, n, i, p)
      ensures p >= j ==> (Skipped(skips, p) <==> Skipped(skips[1..], p))
    {
      if p < j {
        SkippedByFirst(skips, p);
        if Tries(skips[1..], n, j, p) {
          TriesAhead(skips[1..], n, j, p);
        }
      } else {
        SkippedTail(skips, p);
      }
    }
  }

  lemma StepLooksRight(skips: seq<Skip>, n: nat, i: nat)
    requires Increasing(skips) && skips != [] && i < skips[0].start && i < n
    ensures Tracks(skips, i, n) <==> Tracks(skips, i + 1, n)
    ensures LooksRight(skips, n, i) <==> LooksRight(skips, n, i + 1)
  {
    hide Skipped;
    NotYetSkipped(skips, i);
    assert forall p: nat :: i < p < n ==> Tries(skips, n, i, p) == Tries(skips, n, i + 1, p);
    assert Tries(skips, n, i, i);
  }

  // ----- what the spans are -----

  lemma {:induction false} ScanMembers(delims: seq<Delimiter>, tokens: seq<int>, skips: seq<Skip>, i: nat, m: Match)
    ensures m in ScanFrom(delims, tokens, skips, i)
            <==> Tries(skips, |tokens|, i, m.pos) && FoundAt(delims, tokens, m.pos) == [m]
    decreases |skips|, |tokens| - i
  {
    hide FoundAt;
    if i < |tokens| {
      if skips != [] && i == skips[0].start {
        ScanMembers(delims, tokens, skips[1..], i + skips[0].len, m);
      } else {
        ScanMembers(delims, tokens, skips, i + 1, m);
        FoundHere(delims, tokens, i);
        var here := FoundAt(delims, tokens, i);
        assert m in here <==> m.pos == i && here == [m];
      }
    }
  }

  ghost predicate StartsSpan(spans: seq<Span>, m: Match)
  {
    exists k :: 0 <= k < |spans| && spans[k].role == m.role && spans[k].pos == m.pos
  }

  /** For any regions, the spans are not empty, follow each other without gap, and the last
      one ends with the tokens; and a span with a role starts at a position exactly when the
      loop looks there and the first delimiter that matches there has this role. */
  lemma SplitShape(delims: seq<Delimiter>, tokens: seq<int>, skips: seq<Skip>, m: Match)
    ensures var spans := Split(delims, tokens, skips);
            && (forall k :: 0 <= k < |spans| ==> spans[k].len > 0)
            && (forall k :: 0 <= k < |spans| - 1 ==> spans[k].pos + spans[k].len == spans[k + 1].pos)
            && (spans != [] ==> spans[|spans| - 1].pos + spans[|spans| - 1].len == |tokens|)
            && (StartsSpan(spans, m) <==> Tries(skips, |tokens|, 0, m.pos) && FoundAt(delims, tokens, m.pos) == [m])
  {
    hide FoundAt, Tries, ScanFrom;
    ScanIncreases(delims, tokens, skips, 0);
    ScanMembers(delims, tokens, skips, 0, m);
    SpansFollow(ScanFrom(delims, tokens, skips, 0), |tokens|);
    SpanStarts(ScanFrom(delims, tokens, skips, 0), |tokens|, m);
  }

  /** Spans start exactly where a delimiter matches outside the skipped regions. */
  ghost predicate RespectsSkips(delims: seq<Delimiter>, tokens: seq<int>, skips: seq<Skip>)
  {
    forall m :: StartsSpan(Split(delims, tokens, skips), m)
      <==> m.pos < |tokens| && !Skipped(skips, m.pos) && FoundAt(delims, tokens, m.pos) == [m]
  }

  /** Regions that can be tracked are respected. */
  lemma SplitCorrect(delims: seq<Delimiter>, tokens: seq<int>, skips: seq<Skip>)
    requires Increasing(skips) && Tracks(skips, 0, |tokens|)
    ensures RespectsSkips(delims, tokens, skips)
  {
    hide FoundAt, Tries, Skipped, Tracks, Split, StartsSpan;
    LooksRightIff(skips, |tokens|, 0);
    forall m
      ensures StartsSpan(Split(delims, tokens, skips), m)
        <==> m.pos < |tokens| && !Skipped(skips, m.pos) && FoundAt(delims, tokens, m.pos) == [m]
    {
      SplitShape(delims, tokens, skips, m);
      if Tries(skips, |tokens|, 0, m.pos) {
        TriesAhead(skips, |tokens|, 0, m.pos);
      }
    }
  }

  /** And no others: regions are respected whatever the delimiters and the tokens are if and
      only if they can be tracked. */
  lemma SkipsRespectedIff(skips: seq<Skip>, n: nat)
    requires Increasing(skips)
    ensures (forall delims, tokens :: |tokens| == n ==> RespectsSkips(delims, tokens, skips)) <==> Tracks(skips, 0, n)
  {
    hide RespectsSkips, Tracks;
    if Tracks(skips, 0, n) {
      forall delims, tokens | |tokens| == n ensures RespectsSkips(delims, tokens, skips) {
        SplitCorrect(delims, tokens, skips);
      }
    } else {
      RespectedIsTracked(skips, seq(n, k => 0));
    }
  }

  /** The empty delimiter matches everywhere and shows where the loop looks. */
  lemma RespectedIsTracked(skips: seq<Skip>, tokens: seq<int>)
    requires Increasing(skips) && !Tracks(skips, 0, |tokens|)
    ensures !RespectsSkips([Delimiter(User, [])], tokens, skips)
  {
    hide Tries, Skipped, Tracks, Split, StartsSpan;
    var delims := [Delimiter(User, [])];
    LooksRightIff(skips, |tokens|, 0);
    var p: nat :| p < |tokens| && Tries(skips, |tokens|, 0, p) != !Skipped(skips, p);
    var m := Match(User, p);
    assert MatchesAt(delims[0], tokens, p) && FoundAt(delims, tokens, p) == [m];
    SplitShape(delims, tokens, skips, m);
  }

  lemma SpansFollow(ms: seq<Match>, end: nat)
    requires Ordered(ms, 0, end)
    ensures var spans := SpansOf(ms, end);
            && (forall k :: 0 <= k < |spans| ==> spans[k].len > 0)
            && (forall k :: 0 <= k < |spans| - 1 ==> spans[k].pos + spans[k].len == spans[k + 1].pos)
            && (spans != [] ==> spans[|spans| - 1].pos + spans[|spans| - 1].len == end)
  {
  }

  lemma SpanStarts(ms: seq<Match>, end: nat, m: Match)
    requires Ordered(ms, 0, end)
    ensures var spans := SpansOf(ms, end);
            (exists k :: 0 <= k < |spans| && spans[k].role == m.role && spans[k].pos == m.pos) <==> m in ms
  {
    var spans := SpansOf(ms, end);
    forall k | 0 <= k < |ms|
      ensures spans[k].role == ms[k].role && spans[k].pos == ms[k].pos
    {
    }
    if m in ms {
      var k :| 0 <= k < |ms| && ms[k] == m;
      assert spans[k].role == m.role && spans[k].pos == m.pos;
    }
  }

  /** With overlapping regions the skip iterator stays behind: a position inside the second
      region starts a span. */
  lemma OverlapIsNotSkipped()
    ensures var delims, tokens, skips := [Delimiter(User, [7])], [0, 0, 7], [Skip(0, 2), Skip(1, 2)];
            && Increasing(skips) && !Tracks(skips, 0, |tokens|)
            && Skipped(skips, 2) && Split(delims, tokens, skips) == [Span(User, 2, 1)]
  {
    var delims, tokens, skips := [Delimiter(User, [7])], [0, 0, 7], [Skip(0, 2), Skip(1, 2)];
    assert InSkip(skips[1], 2) && tokens[2..3] == [7];
    var rest := skips[1..];
    assert rest == [Skip(1, 2)] && !Harmless(rest[0], 2, 3);
    assert FoundAt(delims, tokens, 2) == [Match(User, 2)];
    assert ScanFrom(delims, tokens, rest, 3) == [];
    assert ScanFrom(delims, tokens, rest, 2) == [Match(User, 2)];
    assert ScanFrom(delims, tokens, skips, 0) == ScanFrom(delims, tokens, rest, 2);
  }

  /** Overlap by itself does no harm: here the second region is inside the first. */
  lemma InnerRegionIsHarmless(n: nat)
    ensures Tracks([Skip(0, 5), Skip(2, 1)], 0, n)
  {
    assert [Skip(0, 5), Skip(2, 1)][1..] == [Skip(2, 1)];
  }
}
