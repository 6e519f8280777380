/** The marker-aware difference of two texts
    (calculate_diff_split, common/chat-auto-parser-helpers.cpp, lines 68-207). */
module MarkerDiff {
  import opened MarkerSegments

  // ----- common prefixes and suffixes of strings -----

  /** Counting on from `n` characters that agree at the front. */
  function PrefixFrom(a: string, b: string, n: nat): (k: nat)
    requires n <= |a| && n <= |b| && forall i :: 0 <= i < n ==> a[i] == b[i]
    ensures k <= |a| && k <= |b| && forall i :: 0 <= i < k ==> a[i] == b[i]
    ensures k < |a| && k < |b| ==> a[k] != b[k]
    decreases |a| - n
  {
    if n < |a| && n < |b| && a[n] == b[n] then PrefixFrom(a, b, n + 1) else n
  }

  function Back(s: string, i: nat): char
    requires i < |s|
  {
    s[|s| - 1 - i]
  }

  /** Counting on from `n` characters that agree at the back. */
  function SuffixFrom(a: string, b: string, n: nat): (k: nat)
    requires n <= |a| && n <= |b| && forall i :: 0 <= i < n ==> Back(a, i) == Back(b, i)
    ensures k <= |a| && k <= |b| && forall i :: 0 <= i < k ==> Back(a, i) == Back(b, i)
    ensures k < |a| && k < |b| ==> Back(a, k) != Back(b, k)
    decreases |a| - n
  {
    if n < |a| && n < |b| && Back(a, n) == Back(b, n) then SuffixFrom(a, b, n + 1) else n
  }

  method CommonPrefixLen(a: string, b: string) returns (n: nat)
    ensures n == PrefixFrom(a, b, 0)
  {
    n := 0;
    var m := if |a| <= |b| then |a| else |b|;
    while n < m && a[n] == b[n]
      invariant n <= m && forall i :: 0 <= i < n ==> a[i] == b[i]
      invariant PrefixFrom(a, b, n) == PrefixFrom(a, b, 0)
    {
      n := n + 1;
    }
  }

  method CommonSuffixLen(a: string, b: string) returns (n: nat)
    ensures n == SuffixFrom(a, b, 0)
  {
    n := 0;
    var m := if |a| <= |b| then |a| else |b|;
    while n < m && Back(a, n) == Back(b, n)
      invariant n <= m && forall i :: 0 <= i < n ==> Back(a, i) == Back(b, i)
      invariant SuffixFrom(a, b, n) == SuffixFrom(a, b, 0)
    {
      n := n + 1;
    }
  }

  // ----- matching segments from both ends -----

  datatype Split = Split(prefix: string, left: string, right: string, suffix: string)

  /** First and last unmatched segment of both sides, whether a side has been used up, and
      the text matched at both ends so far. */
  datatype Cursor = Cursor(
    ls: nat, le: nat, rs: nat, re: nat, leftDone: bool, rightDone: bool, prefix: string, suffix: string)

  predicate InBounds(l: seq<Segment>, r: seq<Segment>, c: Cursor)
  {
    c.ls <= c.le < |l| && c.rs <= c.re < |r|
  }

  function MatchFront(l: seq<Segment>, r: seq<Segment>, c: Cursor): Cursor
    requires InBounds(l, r, c)
  {
    if l[c.ls] == r[c.rs] then c.(ls := c.ls + 1, rs := c.rs + 1, prefix := c.prefix + l[c.ls].value) else c
  }

  function MatchBack(l: seq<Segment>, r: seq<Segment>, c: Cursor): (c': Cursor)
    requires InBounds(l, r, c)
    ensures InBounds(l, r, c')
  {
    if l[c.le] == r[c.re] then
      c.(le := if c.ls != c.le then c.le - 1 else c.le, leftDone := c.leftDone || c.ls == c.le,
         re := if c.rs != c.re then c.re - 1 else c.re, rightDone := c.rightDone || c.rs == c.re,
         suffix := l[c.le].value + c.suffix)
    else c
  }

  predicate Stuck(l: seq<Segment>, r: seq<Segment>, c: Cursor)
    requires InBounds(l, r, c)
  {
    c.ls == c.le || c.rs == c.re || (l[c.ls] != r[c.rs] && l[c.le] != r[c.re])
  }

  /** The loop that moves both ends inward. */
  function Peel(l: seq<Segment>, r: seq<Segment>, c: Cursor): (c': Cursor)
    requires InBounds(l, r, c)
    ensures InBounds(l, r, c')
    decreases c.le - c.ls
  {
    if Stuck(l, r, c) then c else Peel(l, r, MatchBack(l, r, MatchFront(l, r, c)))
  }

  /** The one more segment that is matched when one side is down to a single segment. */
  function Finish(l: seq<Segment>, r: seq<Segment>, c: Cursor): (c': Cursor)
    requires InBounds(l, r, c)
    ensures InBounds(l, r, c')
  {
    if c.ls == c.le && c.rs != c.re then
      if l[c.ls] == r[c.re] then c.(suffix := r[c.re].value + c.suffix, re := c.re - 1, leftDone := true)
      else if l[c.ls] == r[c.rs] then c.(prefix := c.prefix + r[c.rs].value, rs := c.rs + 1, leftDone := true)
      else c
    else if c.rs == c.re && c.ls != c.le then
      if l[c.le] == r[c.rs] then c.(suffix := l[c.le].value + c.suffix, le := c.le - 1, rightDone := true)
      else if l[c.ls] == r[c.rs] then c.(prefix := c.prefix + l[c.ls].value, ls := c.ls + 1, rightDone := true)
      else c
    else if c.ls == c.le && c.rs == c.re && l[c.ls] == r[c.rs] && l[c.ls].Marker? then
      c.(prefix := c.prefix + r[c.rs].value, leftDone := true, rightDone := true)
    else c
  }

  /** The text of the unmatched segments of one side. */
  function Remainder(segs: seq<Segment>, start: nat, end: nat, done: bool): string
    requires start <= end < |segs|
  {
    Concat(segs[start..if done then end else end + 1])
  }

  /** Common text at the ends of the two remainders goes to the prefix and the suffix. */
  function Refine(prefix: string, left: string, right: string, suffix: string, atStart: bool, atEnd: bool): Split
  {
    var s := if atEnd then SuffixFrom(left, right, 0) else 0;
    var l, r := left[..|left| - s], right[..|right| - s];
    var p := if atStart then PrefixFrom(l, r, 0) else 0;
    Split(prefix + l[..p], l[p..], r[p..], left[|left| - s..] + suffix)
  }

  function Settle(d: Split, left: string, right: string): Split
  {
    var d1 := if d.left == "" && d.right == "" then d.(prefix := left, suffix := "") else d;
    if d1.left == "" && d1.right != "" && left <= right then Split(left, "", right[|left|..], "") else d1
  }

  function Matched(l: seq<Segment>, r: seq<Segment>): (c: Cursor)
    requires l != [] && r != []
    ensures InBounds(l, r, c)
  {
    Peel(l, r, Cursor(0, |l| - 1, 0, |r| - 1, false, false, "", ""))
  }

  function RefineSegments(l: seq<Segment>, r: seq<Segment>, c: Cursor): Split
    requires InBounds(l, r, c)
  {
    Refine(c.prefix, Remainder(l, c.ls, c.le, c.leftDone), Remainder(r, c.rs, c.re, c.rightDone), c.suffix,
           l[c.ls].Text? && r[c.rs].Text?, l[c.le].Text? && r[c.re].Text?)
  }

  function DiffSplit(left: string, right: string): Split
  {
    var l, r := Segments(left), Segments(right);
    if l == [] then Split("", "", right, "")
    else if r == [] then Split("", left, "", "")
    else Settle(RefineSegments(l, r, Finish(l, r, Matched(l, r))), left, right)
  }

  // ----- the loops -----

  method PeelSegments(l: seq<Segment>, r: seq<Segment>) returns (c: Cursor)
    requires l != [] && r != []
    ensures c == Matched(l, r)
  {
    hide Peel;
    var ls, le, rs, re := 0, |l| - 1, 0, |r| - 1;
    var leftDone, rightDone, prefix, suffix := false, false, "", "";
    var advanced := true;
    while ls != le && rs != re && advanced
      invariant ls <= le < |l| && rs <= re < |r|
      invariant Peel(l, r, Cursor(ls, le, rs, re, leftDone, rightDone, prefix, suffix)) == Matched(l, r)
      invariant !advanced ==> Stuck(l, r, Cursor(ls, le, rs, re, leftDone, rightDone, prefix, suffix))
      decreases advanced, le - ls
    {
      ghost var c0 := Cursor(ls, le, rs, re, leftDone, rightDone, prefix, suffix);
      advanced := false;
      if l[ls] == r[rs] {
        prefix := prefix + l[ls].value;
        ls, rs, advanced := ls + 1, rs + 1, true;
      }
      if l[le] == r[re] {
        suffix := l[le].value + suffix;
        if ls != le {
          le := le - 1;
        } else {
          leftDone := true;
        }
        if rs != re {
          re := re - 1;
        } else {
          rightDone := true;
        }
        advanced := true;
      }
      assert Cursor(ls, le, rs, re, leftDone, rightDone, prefix, suffix) == MatchBack(l, r, MatchFront(l, r, c0));
      PeelOnce(l, r, c0);
    }
    c := Cursor(ls, le, rs, re, leftDone, rightDone, prefix, suffix);
    PeelOnce(l, r, c);
  }

  lemma PeelOnce(l: seq<Segment>, r: seq<Segment>, c: Cursor)
    requires InBounds(l, r, c)
    ensures Stuck(l, r, c) ==> Peel(l, r, c) == c
    ensures c.ls != c.le && c.rs != c.re ==> Peel(l, r, c) == Peel(l, r, MatchBack(l, r, MatchFront(l, r, c)))
  {
  }

  method RefineTexts(prefix: string, left: string, right: string, suffix: string, atStart: bool, atEnd: bool)
    returns (d: Split)
    ensures d == Refine(prefix, left, right, suffix, atStart, atEnd)
  {
    hide PrefixFrom, SuffixFrom;
    var s, p := 0, 0;
    if atEnd {
      s := CommonSuffixLen(left, right);
    }
    var l, r := left[..|left| - s], right[..|right| - s];
    if atStart {
      p := CommonPrefixLen(l, r);
    }
    d := Split(prefix + l[..p], l[p..], r[p..], left[|left| - s..] + suffix);
  }

  method CalculateDiffSplit(left: string, right: string) returns (d: Split)
    ensures d == DiffSplit(left, right)
  {
    hide Matched, Finish, Refine, Segments, Concat;
    var l := SegmentizeMarkers(left);
    var r := SegmentizeMarkers(right);
    if l == [] {
      return Split("", "", right, "");
    }
    if r == [] {
      return Split("", left, "", "");
    }
    var c := PeelSegments(l, r);
    c := Finish(l, r, c);
    d := RefineTexts(c.prefix, Remainder(l, c.ls, c.le, c.leftDone), Remainder(r, c.rs, c.re, c.rightDone), c.suffix,
                     l[c.ls].Text? && r[c.rs].Text?, l[c.le].Text? && r[c.re].Text?);
    if d.left == "" && d.right == "" {
      d := d.(prefix := left, suffix := "");
    }
    if d.left == "" && d.right != "" && |left| <= |right| && right[..|left|] == left {
      d := Split(left, "", right[|left|..], "");
    }
  }

  // ----- where the matched text comes from -----

  lemma {:induction false} ConcatAppend(a: seq<Segment>, b: seq<Segment>)
    ensures Concat(a + b) == Concat(a) + Concat(b)
  {
    if a == [] {
      assert a + b == b;
    } else {
      assert (a + b)[1..] == a[1..] + b;
      ConcatAppend(a[1..], b);
    }
  }

  lemma ConcatSnoc(a: seq<Segment>, n: nat)
    requires n < |a|
    ensures Concat(a[..n + 1]) == Concat(a[..n]) + a[n].value
  {
    assert a[..n + 1] == a[..n] + [a[n]] && [a[n]][1..] == [];
    ConcatAppend(a[..n], [a[n]]);
    assert Concat([a[n]]) == a[n].value + Concat([a[n]][1..]);
  }

  lemma ConcatCons(a: seq<Segment>, n: nat)
    requires n < |a|
    ensures Concat(a[n..]) == a[n].value + Concat(a[n + 1..])
  {
    assert a[n..][1..] == a[n + 1..];
  }

  lemma ConcatThree(a: seq<Segment>, i: nat, j: nat)
    requires i <= j <= |a|
    ensures Concat(a) == Concat(a[..i]) + Concat(a[i..j]) + Concat(a[j..])
  {
    hide Concat;
    Parts(a, i, j);
    ConcatAppend(a[..j], a[j..]);
    ConcatAppend(a[..i], a[i..j]);
  }

  lemma Parts<T>(a: seq<T>, i: nat, j: nat)
    requires i <= j <= |a|
    ensures a == a[..j] + a[j..] && a[..j] == a[..i] + a[i..j]
  {
  }

  /** `segs` is matched before `s` and from `e` on, by the prefix and suffix of the cursor. */
  predicate Accounts(segs: seq<Segment>, s: nat, e: nat, c: Cursor)
  {
    s <= e <= |segs| && c.prefix == Concat(segs[..s]) && c.suffix == Concat(segs[e..])
  }

  /** One past the last unmatched segment of each side. */
  function LeftEnd(c: Cursor): nat
  {
    if c.leftDone then c.le else c.le + 1
  }

  function RightEnd(c: Cursor): nat
  {
    if c.rightDone then c.re else c.re + 1
  }

  /** What the loop keeps: both sides are accounted for, a side that is used up has its
      last segment among those matched at the back, and so has the other side. */
  predicate Kept(l: seq<Segment>, r: seq<Segment>, c: Cursor)
  {
    && InBounds(l, r, c)
    && Accounts(l, c.ls, LeftEnd(c), c) && Accounts(r, c.rs, RightEnd(c), c)
    && (c.leftDone ==> c.ls == c.le) && (c.rightDone ==> c.rs == c.re)
    && (c.leftDone && !c.rightDone ==> c.re + 1 < |r| && r[c.re + 1] == l[c.ls])
    && (c.rightDone && !c.leftDone ==> c.le + 1 < |l| && l[c.le + 1] == r[c.rs])
  }

  lemma FrontKeeps(l: seq<Segment>, r: seq<Segment>, c: Cursor)
    requires Kept(l, r, c) && !c.leftDone && !c.rightDone && c.ls != c.le && c.rs != c.re
    ensures var c' := MatchFront(l, r, c); Kept(l, r, c') && !c'.leftDone && !c'.rightDone
  {
    if l[c.ls] == r[c.rs] {
      ConcatSnoc(l, c.ls);
      ConcatSnoc(r, c.rs);
    }
  }

  lemma BackKeeps(l: seq<Segment>, r: seq<Segment>, c: Cursor)
    requires Kept(l, r, c) && !c.leftDone && !c.rightDone
    ensures Kept(l, r, MatchBack(l, r, c))
  {
    hide Concat;
    if l[c.le] == r[c.re] {
      ConcatCons(l, c.le);
      ConcatCons(r, c.re);
    }
  }

  lemma {:induction false} PeelKeeps(l: seq<Segment>, r: seq<Segment>, c: Cursor)
    requires Kept(l, r, c) && ((c.leftDone || c.rightDone) ==> Stuck(l, r, c))
    ensures Kept(l, r, Peel(l, r, c))
    decreases c.le - c.ls
  {
    hide Concat, Accounts;
    if !Stuck(l, r, c) {
      FrontKeeps(l, r, c);
      BackKeeps(l, r, MatchFront(l, r, c));
      PeelKeeps(l, r, MatchBack(l, r, MatchFront(l, r, c)));
    }
  }

  lemma MatchedKeeps(l: seq<Segment>, r: seq<Segment>)
    requires l != [] && r != []
    ensures Kept(l, r, Matched(l, r))
  {
    var c := Cursor(0, |l| - 1, 0, |r| - 1, false, false, "", "");
    assert l[..0] == [] && r[..0] == [] && l[|l|..] == [] && r[|r|..] == [];
    PeelKeeps(l, r, c);
  }

  /** A side that the loop has used up is matched once more. */
  predicate LeftTwice(l: seq<Segment>, r: seq<Segment>, c: Cursor)
    requires InBounds(l, r, c)
  {
    && c.leftDone && !c.rightDone
    && (if c.rs != c.re then l[c.ls] == r[c.re] || l[c.ls] == r[c.rs] else l[c.ls] == r[c.rs] && l[c.ls].Marker?)
  }

  predicate RightTwice(l: seq<Segment>, r: seq<Segment>, c: Cursor)
    requires InBounds(l, r, c)
  {
    && c.rightDone && !c.leftDone
    && (if c.ls != c.le then l[c.le] == r[c.rs] || l[c.ls] == r[c.rs] else l[c.ls] == r[c.rs] && l[c.ls].Marker?)
  }

  /** Both sides are the prefix, what is left of them, and the suffix. */
  predicate LeftWhole(l: seq<Segment>, c: Cursor)
    requires c.ls <= c.le < |l|
  {
    Concat(l) == c.prefix + Remainder(l, c.ls, c.le, c.leftDone) + c.suffix
  }

  predicate RightWhole(r: seq<Segment>, c: Cursor)
    requires c.rs <= c.re < |r|
  {
    Concat(r) == c.prefix + Remainder(r, c.rs, c.re, c.rightDone) + c.suffix
  }

  lemma KeptIsWhole(l: seq<Segment>, r: seq<Segment>, c: Cursor)
    requires Kept(l, r, c)
    ensures LeftWhole(l, c) && RightWhole(r, c)
  {
    ConcatThree(l, c.ls, LeftEnd(c));
    ConcatThree(r, c.rs, RightEnd(c));
  }

  lemma AccountsIsWhole(segs: seq<Segment>, s: nat, e: nat, c: Cursor)
    requires Accounts(segs, s, e, c)
    ensures Concat(segs) == c.prefix + Concat(segs[s..e]) + c.suffix
  {
    ConcatThree(segs, s, e);
  }

  /** The final match keeps a side whole unless it matches a used-up side again. */
  lemma FinishKeepsRight(l: seq<Segment>, r: seq<Segment>, c: Cursor)
    requires Kept(l, r, c) && !RightTwice(l, r, c) && !(c.leftDone && c.rightDone)
    ensures RightWhole(r, Finish(l, r, c))
  {
    hide Concat;
    var c' := Finish(l, r, c);
    if c' == c {
      KeptIsWhole(l, r, c);
    } else {
      ConcatCons(r, c.re);
      ConcatSnoc(r, c.rs);
      assert c.rs == c.re ==> r[c.rs..c.re] == r[c.rs + 1..c.re + 1];
      if (c.rs != c.re && l[c.ls] == r[c.re]) || (c.rs == c.re && c.ls != c.le && l[c.le] == r[c.rs]) {
        AccountsIsWhole(r, c.rs, c.re, c');
      } else {
        AccountsIsWhole(r, c.rs + 1, c.re + 1, c');
      }
    }
  }

  lemma FinishKeepsLeft(l: seq<Segment>, r: seq<Segment>, c: Cursor)
    requires Kept(l, r, c) && !LeftTwice(l, r, c) && !(c.leftDone && c.rightDone)
    ensures LeftWhole(l, Finish(l, r, c))
  {
    hide Concat;
    var c' := Finish(l, r, c);
    if c' == c {
      KeptIsWhole(l, r, c);
    } else {
      ConcatCons(l, c.le);
      ConcatSnoc(l, c.ls);
      assert c.ls == c.le ==> l[c.ls..c.le] == l[c.ls + 1..c.le + 1];
      if (c.ls != c.le && l[c.le] == r[c.rs]) || (c.ls == c.le && c.rs != c.re && l[c.ls] == r[c.re]) {
        AccountsIsWhole(l, c.ls, c.le, c');
      } else {
        AccountsIsWhole(l, c.ls + 1, c.le + 1, c');
      }
    }
  }

  predicate NonEmpty(segs: seq<Segment>)
  {
    forall i :: 0 <= i < |segs| ==> segs[i].value != ""
  }

  /** Matching a used-up side again makes the matched text longer than that side. */
  lemma TwiceIsTooLong(l: seq<Segment>, r: seq<Segment>, c: Cursor)
    requires Kept(l, r, c) && NonEmpty(l) && NonEmpty(r)
    ensures var c' := Finish(l, r, c);
            && (LeftTwice(l, r, c) ==>
                  && Remainder(l, c'.ls, c'.le, c'.leftDone) == "" && |c'.prefix| + |c'.suffix| > |Concat(l)|
                  && (Remainder(r, c'.rs, c'.re, c'.rightDone) == "" <==> c.rs == c.re))
            && (RightTwice(l, r, c) ==>
                  Remainder(r, c'.rs, c'.re, c'.rightDone) == "" && |c'.prefix| + |c'.suffix| > |Concat(r)|)
  {
    KeptIsWhole(l, r, c);
    var c' := Finish(l, r, c);
    assert l[c.ls..c.ls] == [] && r[c.rs..c.rs] == [];
    if LeftTwice(l, r, c) && c.rs != c.re {
      NonEmptyRemainder(r, c'.rs, c'.re);
    }
  }

  lemma NonEmptyRemainder(segs: seq<Segment>, s: nat, e: nat)
    requires NonEmpty(segs) && s <= e < |segs|
    ensures Remainder(segs, s, e, false) != ""
  {
    assert segs[s..e + 1][0] == segs[s];
  }

  lemma {:induction false} SegmentsNonEmpty(s: string)
    ensures NonEmpty(Segments(s)) && (Segments(s) == [] <==> s == "")
    decreases |s|
  {
    if s != "" {
      var seg := FirstSegment(s);
      SegmentsNonEmpty(s[|seg.value|..]);
    }
  }

  // ----- the difference rebuilds its inputs, and exactly when -----

  predicate Rebuilds(d: Split, left: string, right: string)
  {
    d.prefix + d.left + d.suffix == left && d.prefix + d.right + d.suffix == right
  }

  lemma SameFront(l: string, r: string, p: nat)
    requires p <= |l| && p <= |r| && forall i :: 0 <= i < p ==> l[i] == r[i]
    ensures l[..p] == r[..p]
  {
  }

  lemma CutInThree(t: string, p: nat, s: nat)
    requires p + s <= |t|
    ensures var l := t[..|t| - s]; t == l[..p] + l[p..] + t[|t| - s..]
  {
  }

  lemma RefineKeepsText(prefix: string, left: string, right: string, suffix: string, atStart: bool, atEnd: bool)
    ensures var d := Refine(prefix, left, right, suffix, atStart, atEnd);
            && d.prefix + d.left + d.suffix == prefix + left + suffix
            && d.prefix + d.right + d.suffix == prefix + right + suffix
            && (left == "" || right == "" ==> d == Split(prefix, left, right, suffix))
  {
    hide PrefixFrom, SuffixFrom;
    var s := if atEnd then SuffixFrom(left, right, 0) else 0;
    var l, r := left[..|left| - s], right[..|right| - s];
    var p := if atStart then PrefixFrom(l, r, 0) else 0;
    var common := left[|left| - s..];
    assert Refine(prefix, left, right, suffix, atStart, atEnd)
        == Split(prefix + l[..p], l[p..], r[p..], common + suffix);
    assert l[..p] == r[..p] by { SameFront(l, r, p); }
    assert common == right[|right| - s..] by { SameBack(left, right, s); }
    hide *;
    CutInThree(left, p, s);
    CutInThree(right, p, s);
    if left == "" || right == "" {
      assert s == 0 && p == 0;
      assert l == left && r == right;
      assert prefix + "" == prefix && "" + suffix == suffix;
    }
    Regroup(prefix, l[..p], l[p..], common, suffix);
    Regroup(prefix, l[..p], r[p..], common, suffix);
  }

  lemma Regroup(a: string, b: string, c: string, d: string, e: string)
    ensures (a + b) + c + (d + e) == a + (b + c + d) + e
  {
  }

  lemma SameBack(a: string, b: string, s: nat)
    requires s <= |a| && s <= |b| && forall i :: 0 <= i < s ==> Back(a, i) == Back(b, i)
    ensures a[|a| - s..] == b[|b| - s..]
  {
    forall j | |a| - s <= j < |a|
      ensures a[j] == b[j - |a| + |b|]
    {
      assert Back(a, |a| - 1 - j) == Back(b, |a| - 1 - j);
    }
  }

  lemma SettleWhole(d: Split, left: string, right: string)
    requires Rebuilds(d, left, right)
    ensures Rebuilds(Settle(d, left, right), left, right)
  {
    assert left + "" + "" == left && d.prefix + "" + d.suffix == d.prefix + d.suffix;
    assert left <= right ==> left + right[|left|..] + "" == right;
  }

  /** When the two ends of the matching collide: a side that the loop has used up is matched
      once more, and the correction for a left side that starts the right one does not apply. */
  predicate Collides(left: string, right: string)
  {
    var l, r := Segments(left), Segments(right);
    l != [] && r != [] &&
    (var c := Matched(l, r);
     RightTwice(l, r, c) || (LeftTwice(l, r, c) && (c.rs == c.re || !(left <= right))))
  }

  /** Prefix, own part and suffix rebuild each input exactly when the ends do not collide;
      in particular prefix and suffix then never overlap. */
  lemma DiffRebuildsIff(left: string, right: string)
    ensures Rebuilds(DiffSplit(left, right), left, right) <==> !Collides(left, right)
  {
    hide Segments, Matched, Finish, Refine, Settle, Concat;
    SegmentsNonEmpty(left);
    SegmentsNonEmpty(right);
    var l, r := Segments(left), Segments(right);
    if l == [] {
      assert "" + right + "" == right;
    } else if r == [] {
      assert "" + left + "" == left;
    } else {
      SegmentsAreLossless(left);
      SegmentsAreLossless(right);
      MatchedKeeps(l, r);
      MatchedRebuildsIff(l, r, Matched(l, r), left, right);
    }
  }

  lemma MatchedRebuildsIff(l: seq<Segment>, r: seq<Segment>, c: Cursor, left: string, right: string)
    requires Kept(l, r, c) && NonEmpty(l) && NonEmpty(r) && Concat(l) == left && Concat(r) == right
    ensures Rebuilds(Settle(RefineSegments(l, r, Finish(l, r, c)), left, right), left, right)
            <==> !(RightTwice(l, r, c) || (LeftTwice(l, r, c) && (c.rs == c.re || !(left <= right))))
  {
    assert InBounds(l, r, c);
    hide Kept, Concat, Refine, Settle, Finish;
    var c' := Finish(l, r, c);
    var d := RefineSegments(l, r, c');
    var rl, rr := Remainder(l, c'.ls, c'.le, c'.leftDone), Remainder(r, c'.rs, c'.re, c'.rightDone);
    RefineKeepsText(c'.prefix, rl, rr, c'.suffix, l[c'.ls].Text? && r[c'.rs].Text?, l[c'.le].Text? && r[c'.re].Text?);
    TwiceIsTooLong(l, r, c);
    if c.leftDone && c.rightDone {
      BothDone(l, r, c);
      SettleEqual(d, left);
    } else if LeftTwice(l, r, c) {
      FinishKeepsRight(l, r, c);
      hide Remainder;
      SettleLeftTwice(d, left, right);
    } else if RightTwice(l, r, c) {
      FinishKeepsLeft(l, r, c);
      hide Remainder;
      SettleRightTwice(d, left, right);
    } else {
      FinishKeepsLeft(l, r, c);
      FinishKeepsRight(l, r, c);
      SettleWhole(d, left, right);
    }
  }

  lemma BothDone(l: seq<Segment>, r: seq<Segment>, c: Cursor)
    requires Kept(l, r, c) && c.leftDone && c.rightDone
    ensures Concat(l) == Concat(r)
    ensures var c' := Finish(l, r, c);
            Remainder(l, c'.ls, c'.le, c'.leftDone) == "" && Remainder(r, c'.rs, c'.re, c'.rightDone) == ""
  {
    KeptIsWhole(l, r, c);
    assert l[c.ls..c.ls] == [] && r[c.rs..c.rs] == [];
  }

  lemma SettleEqual(d: Split, text: string)
    requires d.left == "" && d.right == ""
    ensures Rebuilds(Settle(d, text, text), text, text)
  {
    assert text + "" + "" == text;
  }

  lemma SettleLeftTwice(d: Split, left: string, right: string)
    requires d.left == "" && |d.prefix| + |d.suffix| > |left| && d.prefix + d.right + d.suffix == right
    ensures Rebuilds(Settle(d, left, right), left, right) <==> d.right != "" && left <= right
  {
    assert |d.prefix + d.left + d.suffix| == |d.prefix| + |d.suffix|;
    assert left + "" + "" == left;
    assert d.right == "" ==> |right| == |d.prefix| + |d.suffix|;
    assert left <= right ==> left + right[|left|..] + "" == right;
  }

  lemma SettleRightTwice(d: Split, left: string, right: string)
    requires d.right == "" && |d.prefix| + |d.suffix| > |right| && d.prefix + d.left + d.suffix == left
    ensures !Rebuilds(Settle(d, left, right), left, right)
  {
    assert |d.prefix + d.right + d.suffix| == |d.prefix| + |d.suffix|;
    assert left + "" + "" == left;
    assert d.left == "" ==> |left| == |d.prefix| + |d.suffix|;
  }

  // ----- a simple sufficient condition, and a collision -----

  predicate NoRepeat(segs: seq<Segment>)
  {
    forall i, j :: 0 <= i < j < |segs| ==> segs[i] != segs[j]
  }

  /** Inputs in which no segment occurs twice are always rebuilt. */
  lemma NoRepeatRebuilds(left: string, right: string)
    requires NoRepeat(Segments(left)) && NoRepeat(Segments(right))
    ensures Rebuilds(DiffSplit(left, right), left, right)
  {
    hide Segments, Matched, DiffSplit;
    DiffRebuildsIff(left, right);
    var l, r := Segments(left), Segments(right);
    if l != [] && r != [] {
      MatchedKeeps(l, r);
    }
  }

  /** The two texts differ, and yet no difference is reported. */
  lemma CollisionExists()
    ensures var left, right := "<a><b>", "<a><b><b>";
            Collides(left, right) && !Rebuilds(DiffSplit(left, right), left, right)
  {
    var a, b := Marker("<a>"), Marker("<b>");
    TwoSegments(a, b);
    ThreeSegments(a, b, b);
    var l, r := [a, b], [a, b, b];
    hide Segments, Concat;
    var c := Cursor(0, 1, 0, 2, false, false, "", "");
    var c' := MatchBack(l, r, MatchFront(l, r, c));
    assert c'.leftDone && !c'.rightDone && c'.rs == c'.re == 1;
    assert Stuck(l, r, c') && Peel(l, r, c') == c';
    assert Peel(l, r, c) == c';
    assert Matched(l, r) == c';
    DiffRebuildsIff("<a><b>", "<a><b><b>");
  }

  lemma AngleMarkers()
    ensures IsMarkerText("<a>") && IsMarkerText("<b>")
  {
    var a, b := "<a>", "<b>";
    assert a[..2] == "<a" && b[..2] == "<b";
  }

  lemma TwoSegments(a: Segment, b: Segment)
    requires a == Marker("<a>") && b == Marker("<b>")
    ensures Segments("<a><b>") == [a, b]
  {
    var segs := [a, b];
    assert segs[1..] == [b] && [b][1..] == [];
    AngleMarkers();
    assert Canonical([b]) && Canonical(segs);
    assert Concat([b]) == "<b>" + "";
    assert Concat(segs) == "<a>" + ("<b>" + "");
    assert "<a>" + ("<b>" + "") == "<a><b>";
    CanonicalIsUnique(segs);
  }

  lemma ThreeSegments(a: Segment, b: Segment, c: Segment)
    requires a == Marker("<a>") && b == c == Marker("<b>")
    ensures Segments("<a><b><b>") == [a, b, c]
  {
    var segs := [a, b, c];
    assert segs[1..] == [b, c] && [b, c][1..] == [c] && [c][1..] == [];
    AngleMarkers();
    assert Canonical([c]) && Canonical([b, c]) && Canonical(segs);
    assert Concat([c]) == "<b>" + "" && Concat([b, c]) == "<b>" + ("<b>" + "");
    assert Concat(segs) == "<a>" + ("<b>" + ("<b>" + ""));
    assert "<a>" + ("<b>" + ("<b>" + "")) == "<a><b><b>";
    CanonicalIsUnique(segs);
  }

  // ----- the difference is tight -----

  /** After refinement the two parts share no text at an end where both were text. */
  lemma RefineIsTight(prefix: string, left: string, right: string, suffix: string, atStart: bool, atEnd: bool)
    ensures var d := Refine(prefix, left, right, suffix, atStart, atEnd);
            d.left != "" && d.right != "" ==>
              && (atStart ==> d.left[0] != d.right[0])
              && (atEnd ==> Back(d.left, 0) != Back(d.right, 0))
  {
    hide PrefixFrom, SuffixFrom;
    var s := if atEnd then SuffixFrom(left, right, 0) else 0;
    var l, r := left[..|left| - s], right[..|right| - s];
    var p := if atStart then PrefixFrom(l, r, 0) else 0;
    if p < |l| && p < |r| {
      assert Back(l[p..], 0) == Back(left, s) && Back(r[p..], 0) == Back(right, s);
    }
  }
}
