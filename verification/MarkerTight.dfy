/** How tight differences are (common/chat-auto-parser-helpers.cpp, lines 68-299). */
module MarkerTight {
  import opened Sequences
  import opened MarkerSegments
  import opened MarkerDiff

  // ----- which characters make markers -----

  predicate IsBare(s: string)
  {
    forall i :: 0 <= i < |s| ==> s[i] != '<' && s[i] != '['
  }

  function Leading(a: string): seq<Segment>
  {
    if a == "" then [] else [Text(a)]
  }

  lemma BareThenOpener(a: string, t: string)
    requires IsBare(a) && t != "" && (t[0] == '<' || t[0] == '[')
    ensures Segments(a + t) == Leading(a) + Segments(t)
  {
    hide Segments;
    if a == "" {
      assert a + t == t && [] + Segments(t) == Segments(t);
    } else {
      var s := a + t;
      assert s[..|a|] == a && s[|a|..] == t && s[|a|] == t[0];
      assert forall i :: 0 <= i < |a| ==> s[i] == a[i];
      PlainThenOpener(s, |a|);
    }
  }

  /** From an opening character to the first closing one of its kind is a marker. */
  lemma MarkerIs(a: string, b: string, t: string)
    requires IsBare(a)
    ensures '>' !in b ==> Segments(a + ("<" + b + ">" + t)) == Leading(a) + [Marker("<" + b + ">")] + Segments(t)
    ensures ']' !in b ==> Segments(a + ("[" + b + "]" + t)) == Leading(a) + [Marker("[" + b + "]")] + Segments(t)
  {
    hide Segments;
    if '>' !in b {
      ClosedMarker(a, '<', b, '>', t);
    }
    if ']' !in b {
      ClosedMarker(a, '[', b, ']', t);
    }
  }

  lemma ClosedMarker(a: string, open: char, b: string, close: char, t: string)
    requires IsBare(a) && ((open == '<' && close == '>') || (open == '[' && close == ']')) && close !in b
    ensures Segments(a + ([open] + b + [close] + t)) == Leading(a) + [Marker([open] + b + [close])] + Segments(t)
  {
    hide Segments;
    var m := [open] + b + [close];
    var s, n := m + t, |b| + 1;
    BareThenOpener(a, s);
    assert s[0] == open && s[n] == close && s[..n] == [open] + b && s[..n + 1] == m && s[n + 1..] == t;
    MarkerCloses(s, n);
    ConcatAssociates(Leading(a), [Marker(m)], Segments(t));
  }

  /** An opening character without its closing one makes the rest text. */
  lemma UnclosedIs(a: string, b: string)
    requires IsBare(a)
    ensures '>' !in b ==> Segments(a + ("<" + b)) == Leading(a) + [Text("<" + b)]
    ensures ']' !in b ==> Segments(a + ("[" + b)) == Leading(a) + [Text("[" + b)]
  {
    hide Segments;
    if '>' !in b {
      BareThenOpener(a, "<" + b);
      assert ("<" + b)[..|"<" + b|] == "<" + b;
      LastSegment("<" + b, true);
    }
    if ']' !in b {
      BareThenOpener(a, "[" + b);
      assert ("[" + b)[..|"[" + b|] == "[" + b;
      LastSegment("[" + b, true);
    }
  }

  lemma BareIs(s: string)
    requires IsBare(s)
    ensures Segments(s) == Leading(s)
  {
    if s != "" {
      LastSegment(s, false);
    }
  }

  // ----- texts without markers -----

  predicate EndsWith(s: string, u: string)
  {
    |u| <= |s| && s[|s| - |u|..] == u
  }

  ghost predicate LongestSuffix(a: string, b: string, u: string)
  {
    EndsWith(a, u) && EndsWith(b, u) && forall v :: EndsWith(a, v) && EndsWith(b, v) ==> |v| <= |u|
  }

  ghost predicate LongestPrefix(a: string, b: string, u: string)
  {
    u <= a && u <= b && forall v :: v <= a && v <= b ==> |v| <= |u|
  }

  lemma PrefixIsLongest(a: string, b: string)
    ensures LongestPrefix(a, b, a[..PrefixFrom(a, b, 0)])
  {
    hide PrefixFrom;
    var k := PrefixFrom(a, b, 0);
    SameFront(a, b, k);
    forall v | v <= a && v <= b
      ensures |v| <= k
    {
      assert forall i :: 0 <= i < |v| ==> v[i] == a[i] && v[i] == b[i];
    }
  }

  lemma SuffixIsLongest(a: string, b: string)
    ensures LongestSuffix(a, b, a[|a| - SuffixFrom(a, b, 0)..])
  {
    hide SuffixFrom;
    var k := SuffixFrom(a, b, 0);
    SameBack(a, b, k);
    forall v | EndsWith(a, v) && EndsWith(b, v)
      ensures |v| <= k
    {
      BackOf(a, v);
      BackOf(b, v);
    }
  }

  lemma BackOf(s: string, v: string)
    requires EndsWith(s, v)
    ensures forall i :: 0 <= i < |v| ==> Back(v, i) == Back(s, i)
  {
    assert forall i :: 0 <= i < |v| ==> v[i] == s[|s| - |v| + i];
  }

  lemma BareMatched(left: string, right: string)
    ensures var l, r := [Text(left)], [Text(right)];
            Finish(l, r, Matched(l, r)) == Cursor(0, 0, 0, 0, false, false, "", "")
  {
  }

  lemma BareRemainder(s: string)
    ensures Remainder([Text(s)], 0, 0, false) == s
  {
    assert [Text(s)][0..1] == [Text(s)] && [Text(s)][1..] == [];
    assert Concat([Text(s)]) == s + "" == s;
  }

  lemma BareSplit(left: string, right: string)
    requires IsBare(left) && IsBare(right) && left != "" && right != ""
    ensures DiffSplit(left, right) == Settle(Refine("", left, right, "", true, true), left, right)
  {
    hide Refine, Settle, Segments, Matched, Finish, Remainder;
    BareIs(left);
    BareIs(right);
    BareMatched(left, right);
    BareRemainder(left);
    BareRemainder(right);
  }

  /** Without markers: a left text that starts the right one is all prefix. Otherwise the
      suffix is the longest common one, and the prefix the longest common one of what the
      suffix leaves. */
  lemma BareDiff(left: string, right: string)
    requires IsBare(left) && IsBare(right)
    ensures left <= right ==> DiffSplit(left, right) == Split(left, "", right[|left|..], "")
    ensures !(left <= right) ==>
              var d := DiffSplit(left, right);
              && left == d.prefix + d.left + d.suffix && right == d.prefix + d.right + d.suffix
              && LongestSuffix(left, right, d.suffix)
              && LongestPrefix(d.prefix + d.left, d.prefix + d.right, d.prefix)
  {
    hide LongestPrefix, LongestSuffix, Settle, Refine;
    if left == "" || right == "" {
      BareIs(left);
      BareIs(right);
      hide Segments;
      if right == "" {
        OneEmpty(left);
      }
    } else {
      BareSplit(left, right);
      hide DiffSplit;
      BareRefine(left, right);
      SettleIs(Refine("", left, right, "", true, true), left, right);
    }
  }

  lemma OneEmpty(left: string)
    ensures LongestSuffix(left, "", "") && LongestPrefix("" + left, "" + "", "") && left == "" + left + ""
  {
  }

  lemma SettleIs(d: Split, left: string, right: string)
    requires left == d.prefix + d.left + d.suffix && right == d.prefix + d.right + d.suffix
    requires left <= right ==> d.left == ""
    ensures Settle(d, left, right) == if left <= right then Split(left, "", right[|left|..], "") else d
  {
  }

  lemma BareRefine(left: string, right: string)
    ensures var d := Refine("", left, right, "", true, true);
            && left == d.prefix + d.left + d.suffix && right == d.prefix + d.right + d.suffix
            && LongestSuffix(left, right, d.suffix)
            && LongestPrefix(d.prefix + d.left, d.prefix + d.right, d.prefix)
            && (left <= right ==> d.left == "")
  {
    hide *;
    var d := Refine("", left, right, "", true, true);
    var s := SuffixFrom(left, right, 0);
    var l, r := left[..|left| - s], right[..|right| - s];
    var p := PrefixFrom(l, r, 0);
    BareParts(left, right, s, p);
    RefineKeepsText("", left, right, "", true, true);
    Nothing(left);
    Nothing(right);
    SuffixIsLongest(left, right);
    PrefixIsLongest(l, r);
    if left <= right {
      StartIsPrefix(left, right, s);
    }
  }

  lemma Nothing(s: string)
    ensures "" + s + "" == s
  {
  }

  lemma StartIsPrefix(left: string, right: string, s: nat)
    requires left <= right && s <= |left|
    ensures var l, r := left[..|left| - s], right[..|right| - s]; PrefixFrom(l, r, 0) == |l| && l[|l|..] == ""
  {
    hide PrefixFrom;
    var l, r := left[..|left| - s], right[..|right| - s];
    assert forall i :: 0 <= i < |l| ==> l[i] == r[i];
  }

  lemma BareParts(left: string, right: string, s: nat, p: nat)
    requires s == SuffixFrom(left, right, 0) && p == PrefixFrom(left[..|left| - s], right[..|right| - s], 0)
    ensures var d := Refine("", left, right, "", true, true);
            var l, r := left[..|left| - s], right[..|right| - s];
            && d.prefix == l[..p] && d.suffix == left[|left| - s..] && d.left == l[p..]
            && d.prefix + d.left == l && d.prefix + d.right == r
  {
    hide PrefixFrom, SuffixFrom;
    var l, r := left[..|left| - s], right[..|right| - s];
    SameFront(l, r, p);
    assert l == l[..p] + l[p..] && r == r[..p] + r[p..];
    assert "" + l[..p] == l[..p] && left[|left| - s..] + "" == left[|left| - s..];
  }

  // ----- all texts -----

  /** The segments matched at the front are the same on both sides, and so are those matched
      at the back. */
  predicate SameEnds(l: seq<Segment>, r: seq<Segment>, c: Cursor)
    requires InBounds(l, r, c)
  {
    c.ls == c.rs && l[..c.ls] == r[..c.rs] && l[LeftEnd(c)..] == r[RightEnd(c)..]
  }

  lemma FrontSame(l: seq<Segment>, r: seq<Segment>, c: Cursor)
    requires InBounds(l, r, c) && SameEnds(l, r, c) && c.ls != c.le && c.rs != c.re
    ensures SameEnds(l, r, MatchFront(l, r, c))
  {
    var i := c.ls;
    assert l[..i + 1] == l[..i] + [l[i]] && r[..i + 1] == r[..i] + [r[i]];
  }

  lemma BackSame(l: seq<Segment>, r: seq<Segment>, c: Cursor)
    requires InBounds(l, r, c) && SameEnds(l, r, c) && !c.leftDone && !c.rightDone
    ensures SameEnds(l, r, MatchBack(l, r, c))
  {
    assert l[c.le..] == [l[c.le]] + l[c.le + 1..] && r[c.re..] == [r[c.re]] + r[c.re + 1..];
  }

  lemma {:induction false} PeelSame(l: seq<Segment>, r: seq<Segment>, c: Cursor)
    requires InBounds(l, r, c) && SameEnds(l, r, c) && ((c.leftDone || c.rightDone) ==> Stuck(l, r, c))
    ensures SameEnds(l, r, Peel(l, r, c)) && Stuck(l, r, Peel(l, r, c))
    decreases c.le - c.ls
  {
    hide SameEnds;
    if !Stuck(l, r, c) {
      FrontSame(l, r, c);
      BackSame(l, r, MatchFront(l, r, c));
      PeelSame(l, r, MatchBack(l, r, MatchFront(l, r, c)));
    }
  }

  lemma MatchedSame(l: seq<Segment>, r: seq<Segment>)
    requires l != [] && r != []
    ensures SameEnds(l, r, Matched(l, r)) && Stuck(l, r, Matched(l, r))
  {
    hide Peel;
    PeelSame(l, r, Cursor(0, |l| - 1, 0, |r| - 1, false, false, "", ""));
  }

  /** A side that is used up has nothing left for itself. */
  lemma DoneIsEmpty(l: seq<Segment>, r: seq<Segment>, c: Cursor)
    requires InBounds(l, r, c) && (c.leftDone ==> c.ls == c.le) && (c.rightDone ==> c.rs == c.re)
    ensures var c' := Finish(l, r, c);
            && (c'.leftDone ==> Remainder(l, c'.ls, c'.le, c'.leftDone) == "")
            && (c'.rightDone ==> Remainder(r, c'.rs, c'.re, c'.rightDone) == "")
            && (!c'.leftDone && !c'.rightDone ==> c' == c)
  {
    var c' := Finish(l, r, c);
    assert l[c'.ls..c'.ls] == [] && r[c'.rs..c'.rs] == [];
  }

  lemma OwnPartsAreRefined(prefix: string, left: string, right: string, suffix: string, atStart: bool, atEnd: bool)
    ensures var d := Refine(prefix, left, right, suffix, atStart, atEnd);
            && (left == "" ==> d.left == "") && (right == "" ==> d.right == "")
            && (left == right && atEnd ==> d.left == "")
            && prefix <= d.prefix && (!atStart ==> d.prefix == prefix)
            && EndsWith(d.suffix, suffix) && (!atEnd ==> d.suffix == suffix)
  {
    hide PrefixFrom, SuffixFrom;
    assert prefix + "" == prefix && "" + suffix == suffix;
    assert left == right && atEnd ==> SuffixFrom(left, right, 0) == |left|;
  }

  /** The cursor when both sides have something of their own. */
  lemma OwnCursor(left: string, right: string)
    requires DiffSplit(left, right).left != "" && DiffSplit(left, right).right != ""
    ensures var l, r := Segments(left), Segments(right);
            && l != [] && r != []
            && var c := Matched(l, r);
            && Finish(l, r, c) == c && !c.leftDone && !c.rightDone && Kept(l, r, c) && SameEnds(l, r, c)
            && DiffSplit(left, right) == RefineSegments(l, r, c)
            && l[c.ls] != r[c.rs] && l[c.le] != r[c.re]
  {
    hide Segments, Matched, Refine, Kept, SameEnds, Remainder;
    var l, r := Segments(left), Segments(right);
    SegmentsNonEmpty(left);
    SegmentsNonEmpty(right);
    var c := Matched(l, r);
    MatchedKeeps(l, r);
    KeptDone(l, r, c);
    MatchedSame(l, r);
    DoneIsEmpty(l, r, c);
    var c' := Finish(l, r, c);
    OwnPartsAreRefined(c'.prefix, Remainder(l, c'.ls, c'.le, c'.leftDone), Remainder(r, c'.rs, c'.re, c'.rightDone),
                       c'.suffix, l[c'.ls].Text? && r[c'.rs].Text?, l[c'.le].Text? && r[c'.re].Text?);
    SingleRemainders(l, r, c);
  }

  lemma KeptDone(l: seq<Segment>, r: seq<Segment>, c: Cursor)
    requires Kept(l, r, c)
    ensures (c.leftDone ==> c.ls == c.le) && (c.rightDone ==> c.rs == c.re)
  {
  }

  lemma SingleRemainders(l: seq<Segment>, r: seq<Segment>, c: Cursor)
    requires InBounds(l, r, c) && !c.leftDone && !c.rightDone
    ensures c.ls == c.le && c.rs == c.re && l[c.ls] == r[c.rs] ==>
              Remainder(l, c.ls, c.le, c.leftDone) == Remainder(r, c.rs, c.re, c.rightDone)
  {
    assert c.ls == c.le ==> l[c.ls..c.le + 1] == [l[c.ls]];
    assert c.rs == c.re ==> r[c.rs..c.re + 1] == [r[c.rs]];
  }

  /** The segments 0, ..., i - 1 of both texts are the same, those from m and n on as well,
      and the next ones differ. The prefix is what the former make up, together with text
      that two next segments share when both are text; the suffix likewise. */
  predicate OwnFrom(left: string, right: string, i: nat, m: nat, n: nat)
  {
    var l, r, d := Segments(left), Segments(right), DiffSplit(left, right);
    && i < m <= |l| && i < n <= |r|
    && l[..i] == r[..i] && l[i] != r[i] && l[m..] == r[n..] && l[m - 1] != r[n - 1]
    && Concat(l[..i]) <= d.prefix && EndsWith(d.suffix, Concat(l[m..]))
    && (if l[i].Text? && r[i].Text? then d.left != "" && d.right != "" && d.left[0] != d.right[0]
        else d.prefix == Concat(l[..i]))
    && (if l[m - 1].Text? && r[n - 1].Text? then d.left != "" && d.right != "" && Back(d.left, 0) != Back(d.right, 0)
        else d.suffix == Concat(l[m..]))
  }

  /** Whenever both texts keep something of their own, these parts are as short as whole
      segments allow, and share no text at an end where both are text; and prefix, own part
      and suffix make up each text. */
  lemma OwnPartsAreTight(left: string, right: string)
    requires DiffSplit(left, right).left != "" && DiffSplit(left, right).right != ""
    ensures Rebuilds(DiffSplit(left, right), left, right)
    ensures exists i, m, n :: OwnFrom(left, right, i, m, n)
  {
    hide *;
    OwnCursor(left, right);
    var l, r := Segments(left), Segments(right);
    var c := Matched(l, r);
    OwnPartsAreWhole(left, right, l, r, c);
    OwnFromCursor(left, right, l, r, c);
  }

  lemma OwnFromCursor(left: string, right: string, l: seq<Segment>, r: seq<Segment>, c: Cursor)
    requires DiffSplit(left, right).left != "" && DiffSplit(left, right).right != ""
    requires l == Segments(left) && r == Segments(right) && InBounds(l, r, c) && Kept(l, r, c) && SameEnds(l, r, c)
    requires !c.leftDone && !c.rightDone && l[c.ls] != r[c.rs] && l[c.le] != r[c.re]
    requires DiffSplit(left, right) == RefineSegments(l, r, c)
    ensures OwnFrom(left, right, c.ls, c.le + 1, c.re + 1)
  {
    hide Segments, Refine, DiffSplit, Concat, Remainder, EndsWith;
    var atStart, atEnd := l[c.ls].Text? && r[c.rs].Text?, l[c.le].Text? && r[c.re].Text?;
    var a, b := Remainder(l, c.ls, c.le, c.leftDone), Remainder(r, c.rs, c.re, c.rightDone);
    assert c.prefix == Concat(l[..c.ls]) && c.suffix == Concat(l[c.le + 1..]);
    assert c.ls == c.rs && l[..c.ls] == r[..c.ls] && l[c.le + 1..] == r[c.re + 1..];
    hide Kept, SameEnds, Accounts;
    OwnPartsAreRefined(c.prefix, a, b, c.suffix, atStart, atEnd);
    RefineIsTight(c.prefix, a, b, c.suffix, atStart, atEnd);
  }

  lemma OwnPartsAreWhole(left: string, right: string, l: seq<Segment>, r: seq<Segment>, c: Cursor)
    requires l == Segments(left) && r == Segments(right) && InBounds(l, r, c) && Kept(l, r, c)
    requires DiffSplit(left, right) == RefineSegments(l, r, c)
    ensures Rebuilds(DiffSplit(left, right), left, right)
  {
    hide Refine, DiffSplit, Segments, Kept, Remainder, Concat;
    KeptIsWhole(l, r, c);
    SegmentsAreLossless(left);
    SegmentsAreLossless(right);
    RefineKeepsText(c.prefix, Remainder(l, c.ls, c.le, c.leftDone), Remainder(r, c.rs, c.re, c.rightDone), c.suffix,
                    l[c.ls].Text? && r[c.rs].Text?, l[c.le].Text? && r[c.re].Text?);
  }

  // ----- one segment against several -----

  /** A right text that is a single segment of the left one is matched at its end, and at
      its start only when it does not end it. */
  lemma LoneRight(left: string, right: string)
    requires |Segments(right)| == 1 && |Segments(left)| >= 2
    ensures var l, x, n := Segments(left), Segments(right)[0], |Segments(left)|;
            && (l[n - 1] == x ==> DiffSplit(left, right) == Split("", Concat(l[..n - 1]), "", right))
            && (l[n - 1] != x && l[0] == x ==> DiffSplit(left, right) == Split(right, Concat(l[1..]), "", ""))
  {
    hide Segments, Refine, Concat;
    var l, r := Segments(left), Segments(right);
    var n := |l|;
    LoneText(right);
    SegmentsNonEmpty(left);
    assert Matched(l, r) == Cursor(0, n - 1, 0, 0, false, false, "", "");
    assert r[0..0] == [] && l[0..n - 1] == l[..n - 1] && l[1..n] == l[1..];
    EmptyConcat();
    PartNonEmpty(l, 0, n - 1);
    PartNonEmpty(l, 1, n);
    RefineKeepsText("", Concat(l[..n - 1]), "", right, l[0].Text? && r[0].Text?, l[n - 2].Text? && r[0].Text?);
    RefineKeepsText(right, Concat(l[1..]), "", "", l[1].Text? && r[0].Text?, l[n - 1].Text? && r[0].Text?);
    assert "" + right == right && right + "" == right;
  }

  /** Likewise for the left text, unless it starts the right one. */
  lemma LoneLeft(left: string, right: string)
    requires |Segments(left)| == 1 && |Segments(right)| >= 2 && !(left <= right)
    ensures var r, x, n := Segments(right), Segments(left)[0], |Segments(right)|;
            r[n - 1] == x ==> DiffSplit(left, right) == Split("", "", Concat(r[..n - 1]), left)
  {
    hide Segments, Refine, Concat;
    var l, r := Segments(left), Segments(right);
    var n := |r|;
    LoneText(left);
    SegmentsNonEmpty(right);
    assert Matched(l, r) == Cursor(0, 0, 0, n - 1, false, false, "", "");
    assert l[0..0] == [] && r[0..n - 1] == r[..n - 1];
    EmptyConcat();
    PartNonEmpty(r, 0, n - 1);
    RefineKeepsText("", "", Concat(r[..n - 1]), left, l[0].Text? && r[0].Text?, l[0].Text? && r[n - 2].Text?);
    assert left + "" == left;
  }

  lemma LoneText(s: string)
    requires |Segments(s)| == 1
    ensures Segments(s)[0].value == s
  {
    SegmentsAreLossless(s);
    var segs := Segments(s);
    assert segs == [segs[0]] && segs[1..] == [];
    assert Concat(segs) == segs[0].value + "";
  }

  lemma EmptyConcat()
    ensures Concat([]) == ""
  {
  }

  lemma PartNonEmpty(segs: seq<Segment>, i: nat, j: nat)
    requires NonEmpty(segs) && i < j <= |segs|
    ensures Concat(segs[i..j]) != ""
  {
    assert segs[i..j][0] == segs[i];
  }
}
