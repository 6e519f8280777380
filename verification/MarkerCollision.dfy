/** When a marker difference goes wrong, said of the segment lists alone. */
module MarkerCollision {
  import opened MarkerSegments
  import opened MarkerDiff

  /** The segments `i` from the front are the same, and so are those `i` from the back. */
  predicate SameAt(l: seq<Segment>, r: seq<Segment>, i: nat)
  {
    i < |l| && i < |r| && l[i] == r[i] && l[|l| - 1 - i] == r[|r| - 1 - i]
  }

  /** The first half of `l` starts `r` and the second half ends it: `l` is `r` with a middle
      part taken out. */
  predicate Surrounds(l: seq<Segment>, r: seq<Segment>)
  {
    && 0 < |l| < |r| && |l| % 2 == 0
    && forall i :: 0 <= i < |l| / 2 ==> SameAt(l, r, i)
  }

  /** The segment after the middle of `l` occurs once more, at an end of that middle part. */
  predicate OccursAgain(l: seq<Segment>, r: seq<Segment>)
    requires Surrounds(l, r)
  {
    var h := |l| / 2;
    if |r| == |l| + 1 then l[h] == r[h] && l[h].Marker? else l[h] == r[|r| - 1 - h] || l[h] == r[h]
  }

  // ----- where the loop ends -----

  /** Every turn so far has matched at both ends. */
  predicate Balanced(l: seq<Segment>, r: seq<Segment>, c: Cursor, t: nat)
  {
    && c.ls == c.rs == t && c.le + t + 1 == |l| && c.re + t + 1 == |r| && !c.leftDone && !c.rightDone
    && forall i :: 0 <= i < t ==> SameAt(l, r, i)
  }

  /** Once an end does not match, no side is ever used up. */
  lemma {:induction false} MismatchUsesNothingUp(l: seq<Segment>, r: seq<Segment>, c: Cursor)
    requires InBounds(l, r, c) && !c.leftDone && !c.rightDone
    requires l[c.ls] != r[c.rs] || l[c.le] != r[c.re]
    ensures !Peel(l, r, c).leftDone && !Peel(l, r, c).rightDone
    decreases c.le - c.ls
  {
    if !Stuck(l, r, c) {
      MismatchUsesNothingUp(l, r, MatchBack(l, r, MatchFront(l, r, c)));
    }
  }

  /** The loop uses up one side alone exactly when that side surrounds a part of the other. */
  ghost predicate EndsAt(l: seq<Segment>, r: seq<Segment>, e: Cursor)
  {
    && (e.leftDone && !e.rightDone <==> Surrounds(l, r))
    && (e.rightDone && !e.leftDone <==> Surrounds(r, l))
    && (Surrounds(l, r) ==> e.ls == e.le == e.rs == |l| / 2 && e.re == |r| - 1 - |l| / 2)
    && (Surrounds(r, l) ==> e.rs == e.re == e.ls == |r| / 2 && e.le == |l| - 1 - |r| / 2)
  }

  lemma {:induction false} PeelEndsAt(l: seq<Segment>, r: seq<Segment>, c: Cursor, t: nat)
    requires InBounds(l, r, c) && Balanced(l, r, c, t)
    ensures EndsAt(l, r, Peel(l, r, c))
    decreases c.le - c.ls
  {
    hide Peel;
    PeelOnce(l, r, c);
    if c.ls == c.le || c.rs == c.re {
      hide SameAt;
    } else if !SameAt(l, r, t) {
      MismatchUsesNothingUp(l, r, c);
      MismatchSurroundsNothing(l, r, t);
    } else if |l| == 2 * t + 2 || |r| == 2 * t + 2 {
      LastTurn(l, r, c, t);
    } else {
      BalancedTurn(l, r, c, t);
      hide EndsAt;
      PeelEndsAt(l, r, MatchBack(l, r, MatchFront(l, r, c)), t + 1);
    }
  }

  lemma BalancedTurn(l: seq<Segment>, r: seq<Segment>, c: Cursor, t: nat)
    requires InBounds(l, r, c) && Balanced(l, r, c, t) && c.ls != c.le && c.rs != c.re && SameAt(l, r, t)
    requires |l| != 2 * t + 2 && |r| != 2 * t + 2
    ensures var c' := MatchBack(l, r, MatchFront(l, r, c)); Balanced(l, r, c', t + 1) && c'.le - c'.ls < c.le - c.ls
  {
    var c' := MatchBack(l, r, MatchFront(l, r, c));
    assert c'.ls == c'.rs == t + 1 && c'.le == c.le - 1 && c'.re == c.re - 1 && !c'.leftDone && !c'.rightDone;
    hide MatchFront, MatchBack, SameAt;
  }

  lemma MismatchSurroundsNothing(l: seq<Segment>, r: seq<Segment>, t: nat)
    requires !SameAt(l, r, t) && 2 * t + 2 <= |l| && 2 * t + 2 <= |r|
    ensures !Surrounds(l, r) && !Surrounds(r, l)
  {
    hide SameAt;
    assert t < |l| / 2 && t < |r| / 2;
    SameBothWays(l, r, t);
  }

  lemma SameBothWays(l: seq<Segment>, r: seq<Segment>, i: nat)
    ensures SameAt(l, r, i) <==> SameAt(r, l, i)
  {
  }

  /** The turn that uses a side up. */
  lemma LastTurn(l: seq<Segment>, r: seq<Segment>, c: Cursor, t: nat)
    requires InBounds(l, r, c) && Balanced(l, r, c, t) && c.ls != c.le && c.rs != c.re && SameAt(l, r, t)
    requires |l| == 2 * t + 2 || |r| == 2 * t + 2
    ensures var c' := MatchBack(l, r, MatchFront(l, r, c)); Peel(l, r, c') == c' && EndsAt(l, r, c')
  {
    var c' := MatchBack(l, r, MatchFront(l, r, c));
    assert c'.ls == c'.rs == t + 1;
    assert if |l| == 2 * t + 2 then c'.leftDone && c'.le == t + 1 else !c'.leftDone && c'.le == |l| - 2 - t;
    assert if |r| == 2 * t + 2 then c'.rightDone && c'.re == t + 1 else !c'.rightDone && c'.re == |r| - 2 - t;
    PeelOnce(l, r, c');
    hide Peel, MatchFront, MatchBack, SameAt;
    forall i | 0 <= i < t + 1 ensures SameAt(l, r, i) && SameAt(r, l, i) {
      SameBothWays(l, r, i);
    }
  }

  /** The right text surrounds a part of the left one and its middle segment occurs again;
      or the other way round, and the correction for a left text that starts the right one
      does not help. */
  predicate EndsCollide(left: string, right: string)
  {
    var l, r := Segments(left), Segments(right);
    || (Surrounds(r, l) && OccursAgain(r, l))
    || (Surrounds(l, r) && OccursAgain(l, r) && (|r| == |l| + 1 || !(left <= right)))
  }

  lemma CollidesIff(left: string, right: string)
    ensures Collides(left, right) <==> EndsCollide(left, right)
  {
    var l, r := Segments(left), Segments(right);
    hide Segments;
    if l != [] && r != [] {
      var c := Cursor(0, |l| - 1, 0, |r| - 1, false, false, "", "");
      PeelEndsAt(l, r, c, 0);
      assert Matched(l, r) == Peel(l, r, c);
      hide Peel;
    }
  }

  /** For all texts: prefix, own part and suffix rebuild both if and only if the ends do not
      collide. */
  lemma RebuildsIff(left: string, right: string)
    ensures Rebuilds(DiffSplit(left, right), left, right) <==> !EndsCollide(left, right)
  {
    hide *;
    DiffRebuildsIff(left, right);
    CollidesIff(left, right);
  }
}
