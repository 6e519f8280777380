/** Cutting text into markers and the text between them
    (segmentize_markers, common/chat-auto-parser-helpers.cpp, lines 269-299).
    A marker is <...> or [...]; one that is never closed is text. */
module MarkerSegments {

  datatype Segment = Text(value: string) | Marker(value: string)

  predicate IsOpener(c: char)
  {
    c == '<' || c == '['
  }

  function Closer(opener: char): char
    requires IsOpener(opener)
  {
    if opener == '<' then '>' else ']'
  }

  /** Position of the first opener, or the length of `s`. */
  function FindOpener(s: string): (k: nat)
    ensures k <= |s| && (k < |s| ==> IsOpener(s[k])) && forall i :: 0 <= i < k ==> !IsOpener(s[i])
  {
    if s == "" || IsOpener(s[0]) then 0 else 1 + FindOpener(s[1..])
  }

  function FindChar(c: char, s: string): (k: nat)
    ensures k <= |s| && (k < |s| ==> s[k] == c) && forall i :: 0 <= i < k ==> s[i] != c
  {
    if s == "" || s[0] == c then 0 else 1 + FindChar(c, s[1..])
  }

  /** The first segment of a non-empty text. */
  function FirstSegment(s: string): (seg: Segment)
    requires s != ""
    ensures seg.value != "" && seg.value <= s
  {
    if IsOpener(s[0]) then
      var k := FindChar(Closer(s[0]), s);
      if k < |s| then Marker(s[..k + 1]) else Text(s)
    else Text(s[..FindOpener(s)])
  }

  function Segments(s: string): seq<Segment>
    decreases |s|
  {
    if s == "" then []
    else
      var seg := FirstSegment(s);
      [seg] + Segments(s[|seg.value|..])
  }

  function Concat(segs: seq<Segment>): string
  {
    if segs == [] then "" else segs[0].value + Concat(segs[1..])
  }

  // ----- the loop -----

  /** What is known about the text since the last border. */
  predicate Scanned(s: string, n: nat, inMarker: bool)
    requires n <= |s|
  {
    if inMarker then n > 0 && IsOpener(s[0]) && Closer(s[0]) !in s[..n]
    else forall i :: 0 <= i < n ==> !IsOpener(s[i])
  }

  method SegmentizeMarkers(text: string) returns (segs: seq<Segment>)
    ensures segs == Segments(text)
  {
    hide Segments;
    segs := [];
    var inMarker, lastBorder, cur := false, 0, 0;
    assert text[0..] == text;
    while cur < |text|
      invariant 0 <= lastBorder <= cur <= |text|
      invariant Scanned(text[lastBorder..], cur - lastBorder, inMarker)
      invariant segs + Segments(text[lastBorder..]) == Segments(text)
    {
      ghost var rest, n := text[lastBorder..], cur - lastBorder;
      var c := text[cur];
      assert rest[n] == c;
      if !inMarker && IsOpener(c) {
        if lastBorder < cur {
          PlainThenOpener(rest, n);
          assert rest[..n] == text[lastBorder..cur] && rest[n..] == text[cur..];
          segs := segs + [Text(text[lastBorder..cur])];
        }
        lastBorder, inMarker := cur, true;
        assert text[cur..][..1] == [c];
      } else if inMarker && c == Closer(text[lastBorder]) {
        MarkerCloses(rest, n);
        assert rest[..n + 1] == text[lastBorder..cur + 1] && rest[n + 1..] == text[cur + 1..];
        segs := segs + [Marker(text[lastBorder..cur + 1])];
        lastBorder, inMarker := cur + 1, false;
      } else {
        assert rest[..n + 1] == rest[..n] + [c];
      }
      cur := cur + 1;
    }
    if lastBorder < |text| {
      LastSegment(text[lastBorder..], inMarker);
      segs := segs + [Text(text[lastBorder..])];
    } else {
      assert text[lastBorder..] == "";
      NoSegments();
    }
  }

  lemma NoSegments()
    ensures Segments("") == []
  {
  }

  lemma PlainThenOpener(s: string, n: nat)
    requires 0 < n < |s| && Scanned(s, n, false) && IsOpener(s[n])
    ensures Segments(s) == [Text(s[..n])] + Segments(s[n..])
  {
    assert FindOpener(s) == n;
  }

  lemma FindCharIs(c: char, s: string, n: nat)
    requires n < |s| && s[n] == c && c !in s[..n]
    ensures FindChar(c, s) == n
  {
    hide FindChar;
    assert forall i :: 0 <= i < n ==> s[i] == s[..n][i];
  }

  lemma MarkerCloses(s: string, n: nat)
    requires 0 < n < |s| && Scanned(s, n, true) && s[n] == Closer(s[0])
    ensures Segments(s) == [Marker(s[..n + 1])] + Segments(s[n + 1..])
  {
    hide FindChar, FindOpener;
    FindCharIs(Closer(s[0]), s, n);
    assert FirstSegment(s) == Marker(s[..n + 1]);
    hide FirstSegment;
  }

  lemma LastSegment(s: string, inMarker: bool)
    requires s != "" && Scanned(s, |s|, inMarker)
    ensures Segments(s) == [Text(s)]
  {
    assert s[..|s|] == s && s[|s|..] == "";
    if inMarker {
      assert FindChar(Closer(s[0]), s) == |s|;
    } else {
      assert FindOpener(s) == |s|;
    }
  }

  // ----- the segmentation is lossless and canonical -----

  /** Opens with an opener and has its closer as last character only. */
  predicate IsMarkerText(v: string)
  {
    |v| >= 2 && IsOpener(v[0]) && v[|v| - 1] == Closer(v[0]) && Closer(v[0]) !in v[..|v| - 1]
  }

  predicate IsPlainText(v: string)
  {
    v != "" && forall i :: 0 <= i < |v| ==> !IsOpener(v[i])
  }

  /** A marker that is never closed. */
  predicate IsOpenText(v: string)
  {
    v != "" && IsOpener(v[0]) && Closer(v[0]) !in v
  }

  predicate Canonical(segs: seq<Segment>)
  {
    segs == [] ||
    (var seg, rest := segs[0], segs[1..];
     && Canonical(rest)
     && match seg
        case Marker(v) => IsMarkerText(v)
        case Text(v) =>
          || (IsOpenText(v) && rest == [])
          || (IsPlainText(v) && (rest != [] ==> rest[0].value != "" && IsOpener(rest[0].value[0]))))
  }

  lemma FirstSegmentIsCanonical(s: string)
    requires s != ""
    ensures var seg := FirstSegment(s);
            var rest := s[|seg.value|..];
            match seg
            case Marker(v) => IsMarkerText(v)
            case Text(v) => (IsOpenText(v) && rest == "") || (IsPlainText(v) && (rest != "" ==> IsOpener(rest[0])))
  {
    if IsOpener(s[0]) {
      var k := FindChar(Closer(s[0]), s);
      assert k > 0;
      if k < |s| {
        assert s[..k + 1][..k] == s[..k];
      }
    }
  }

  /** Every text is the concatenation of its segments, which are canonical. */
  lemma {:induction false} SegmentsAreLossless(s: string)
    ensures Concat(Segments(s)) == s && Canonical(Segments(s))
    decreases |s|
  {
    if s != "" {
      var seg := FirstSegment(s);
      var rest := s[|seg.value|..];
      var segs := Segments(s);
      assert segs == [seg] + Segments(rest) && segs[1..] == Segments(rest);
      SegmentsAreLossless(rest);
      FirstSegmentIsCanonical(s);
      assert rest != "" ==> Segments(rest)[0].value != "" && Segments(rest)[0].value[0] == rest[0];
      assert rest == "" ==> Segments(rest) == [];
      hide FirstSegment, IsMarkerText, IsOpenText, IsPlainText, IsOpener, Segments;
      assert s == seg.value + rest;
    }
  }

  /** And it is the only canonical list of segments with that concatenation. */
  lemma {:induction false} CanonicalIsUnique(segs: seq<Segment>)
    requires Canonical(segs)
    ensures Segments(Concat(segs)) == segs
  {
    if segs != [] {
      var seg, rest := segs[0], segs[1..];
      CanonicalIsUnique(rest);
      var s := Concat(segs);
      FirstOfConcat(seg, rest);
      assert s[|seg.value|..] == Concat(rest);
    }
  }

  lemma FirstOfConcat(seg: Segment, rest: seq<Segment>)
    requires Canonical([seg] + rest)
    ensures seg.value != "" && FirstSegment(seg.value + Concat(rest)) == seg
  {
    assert ([seg] + rest)[1..] == rest;
    var v, tail := seg.value, Concat(rest);
    assert rest == [] ==> tail == "" && v + tail == v;
    assert rest != [] && rest[0].value != "" ==> tail != "" && tail[0] == rest[0].value[0];
    hide Concat;
    if seg.Marker? {
      MarkerIsFirst(v, tail);
    } else if IsOpenText(v) {
      OpenIsFirst(v);
    } else {
      PlainIsFirst(v, tail);
    }
  }

  lemma MarkerIsFirst(v: string, tail: string)
    requires IsMarkerText(v)
    ensures FirstSegment(v + tail) == Marker(v)
  {
    var s, n := v + tail, |v| - 1;
    assert s[0] == v[0] && s[n] == v[n] && s[..n] == v[..n] && s[..n + 1] == v;
    FindCharIs(Closer(v[0]), s, n);
    hide FindChar;
  }

  lemma OpenIsFirst(v: string)
    requires IsOpenText(v)
    ensures FirstSegment(v) == Text(v)
  {
    hide FindChar;
  }

  lemma PlainIsFirst(v: string, tail: string)
    requires IsPlainText(v) && (tail != "" ==> IsOpener(tail[0]))
    ensures FirstSegment(v + tail) == Text(v)
  {
    hide FindOpener, IsOpener;
    var s := v + tail;
    assert forall i :: 0 <= i < |v| ==> s[i] == v[i];
    assert tail != "" ==> s[|v|] == tail[0];
    assert FindOpener(s) == |v| && s[..|v|] == v;
  }
}
