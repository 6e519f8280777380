/** Tuples of subscripts with an ellipsis or with subscripts missing at the end
    (convert_lora_to_gguf.py, lines 77-96). */
module LoraEllipsis {
  import opened Wrappers
  import opened Sequences
  import opened Tensors

  datatype Item = One(sub: Sub) | Dots

  function Spelled(items: seq<Item>, dots: nat): seq<Sub>
  {
    if items == [] then []
    else (if items[0].Dots? then Fulls(dots) else [items[0].sub]) + Spelled(items[1..], dots)
  }

  function Padded(subs: seq<Sub>, d: nat): seq<Sub>
  {
    if |subs| < d then subs + Fulls(d - |subs|) else subs
  }

  /** What the code spells out for a tensor with `d` axes: a final ellipsis is dropped, any
      other one becomes as many slices as there are other items. */
  function CodeSubs(items: seq<Item>, d: nat): Option<seq<Sub>>
    decreases |items|
  {
    if items == [] then None
    else
      var n := |items| - 1;
      if items[n].Dots? then CodeSubs(items[..n], d) else Some(Padded(Spelled(items, n), d))
  }

  function CountDots(items: seq<Item>): nat
  {
    if items == [] then 0 else (if items[0].Dots? then 1 else 0) + CountDots(items[1..])
  }

  /** What the tuple means: one ellipsis at most, for the axes that the others leave. */
  function MeantSubs(items: seq<Item>, d: nat): Option<seq<Sub>>
  {
    var ones := |items| - CountDots(items);
    if CountDots(items) > 1 || ones > d then None
    else
      DotsAreItems(items);
      Some(Padded(Spelled(items, d - ones), d))
  }

  lemma {:induction false} DotsAreItems(items: seq<Item>)
    ensures CountDots(items) <= |items|
  {
    if items != [] {
      DotsAreItems(items[1..]);
    }
  }

  // ----- tuples without an ellipsis -----

  predicate NoDots(items: seq<Item>)
  {
    forall i :: 0 <= i < |items| ==> items[i].One?
  }

  function Subs(items: seq<Item>): (r: seq<Sub>)
    requires NoDots(items)
    ensures |r| == |items| && forall i :: 0 <= i < |r| ==> r[i] == items[i].sub
  {
    seq(|items|, i requires 0 <= i < |items| => items[i].sub)
  }

  lemma {:induction false} SpelledPlain(items: seq<Item>, dots: nat)
    requires NoDots(items)
    ensures Spelled(items, dots) == Subs(items) && CountDots(items) == 0
  {
    if items != [] {
      SpelledPlain(items[1..], dots);
      assert Subs(items) == [items[0].sub] + Subs(items[1..]);
    }
  }

  /** Without an ellipsis the code takes the tuple for what it means, unless it is empty or
      has more items than there are axes. */
  lemma PlainIsRightIff(items: seq<Item>, d: nat)
    requires NoDots(items)
    ensures CodeSubs(items, d) == MeantSubs(items, d) <==> 0 < |items| <= d
  {
    SpelledPlain(items, 0);
    if items != [] {
      SpelledPlain(items, |items| - 1);
    }
    if |items| <= d {
      SpelledPlain(items, d - |items|);
    }
  }

  // ----- tuples with one ellipsis -----

  lemma {:induction false} SpelledConcat(a: seq<Item>, b: seq<Item>, dots: nat)
    ensures Spelled(a + b, dots) == Spelled(a, dots) + Spelled(b, dots)
    ensures CountDots(a + b) == CountDots(a) + CountDots(b)
  {
    if a == [] {
      assert a + b == b;
    } else {
      assert (a + b)[1..] == a[1..] + b;
      SpelledConcat(a[1..], b, dots);
      ConcatAssociates(if a[0].Dots? then Fulls(dots) else [a[0].sub], Spelled(a[1..], dots), Spelled(b, dots));
    }
  }

  function WithDots(pre: seq<Item>, post: seq<Item>): seq<Item>
  {
    pre + [Dots] + post
  }

  lemma SpelledWithDots(pre: seq<Item>, post: seq<Item>, dots: nat)
    requires NoDots(pre) && NoDots(post)
    ensures Spelled(WithDots(pre, post), dots) == Subs(pre) + Fulls(dots) + Subs(post)
    ensures CountDots(WithDots(pre, post)) == 1
  {
    SpelledConcat(pre + [Dots], post, dots);
    SpelledConcat(pre, [Dots], dots);
    SpelledPlain(pre, dots);
    SpelledPlain(post, dots);
    assert [Dots][1..] == [] && Spelled([Dots], dots) == Fulls(dots) + [] == Fulls(dots);
    assert CountDots([Dots]) == 1;
  }

  predicate AllFull(subs: seq<Sub>)
  {
    forall i :: 0 <= i < |subs| ==> subs[i] == Full
  }

  /** Only slices of whole axes can change places with slices of whole axes. */
  lemma {:induction false} ShiftedIsFull(q: seq<Sub>, e: nat, t: nat)
    requires q + Fulls(e) == Fulls(e) + q && e > 0 && t < |q|
    ensures q[t] == Full
    decreases t
  {
    assert (q + Fulls(e))[t] == q[t];
    if t < e {
      assert (Fulls(e) + q)[t] == Fulls(e)[t];
    } else {
      assert (Fulls(e) + q)[t] == q[t - e];
      ShiftedIsFull(q, e, t - e);
    }
  }

  /** An ellipsis followed by other items, with `n` others in all, is taken for what it means
      if and only if it stands for exactly `n` axes, or for more and everything after it is
      whole axes. */
  lemma DotsAreRightIff(pre: seq<Item>, post: seq<Item>, d: nat)
    requires NoDots(pre) && NoDots(post) && post != []
    ensures var n := |pre| + |post|;
            CodeSubs(WithDots(pre, post), d) == MeantSubs(WithDots(pre, post), d)
            <==> d == 2 * n || (d > 2 * n && AllFull(Subs(post)))
  {
    hide Spelled, CountDots, Subs, Fulls, AllFull;
    var n, items := |pre| + |post|, WithDots(pre, post);
    var p, q := Subs(pre), Subs(post);
    assert items[n] == post[|post| - 1];
    SpelledWithDots(pre, post, n);
    var code := p + Fulls(n) + q;
    assert CodeSubs(items, d) == Some(Padded(code, d)) && |code| == 2 * n;
    if n <= d {
      SpelledWithDots(pre, post, d - n);
      var meant := p + Fulls(d - n) + q;
      assert MeantSubs(items, d) == Some(meant);
      if d > 2 * n {
        LongDots(p, q, n, d - 2 * n);
      }
    }
  }

  lemma LongDots(p: seq<Sub>, q: seq<Sub>, n: nat, e: nat)
    requires e > 0
    ensures p + Fulls(n) + q + Fulls(e) == p + Fulls(n + e) + q <==> AllFull(q)
  {
    var head := p + Fulls(n);
    assert Fulls(n + e) == Fulls(n) + Fulls(e);
    assert p + Fulls(n + e) + q == head + (Fulls(e) + q) && head + q + Fulls(e) == head + (q + Fulls(e));
    if head + (q + Fulls(e)) == head + (Fulls(e) + q) {
      assert q + Fulls(e) == (head + (q + Fulls(e)))[|head|..] == (head + (Fulls(e) + q))[|head|..] == Fulls(e) + q;
      forall t | 0 <= t < |q| ensures q[t] == Full {
        ShiftedIsFull(q, e, t);
      }
    }
    if AllFull(q) {
      assert q + Fulls(e) == Fulls(e) + q;
    }
  }

  // ----- subscripts that select the same -----

  /** On an axis of length `n` the two subscripts select the same positions. */
  predicate SamePick(n: nat, u: Sub, v: Sub)
  {
    && SubOk(u, n) && SubOk(v, n) && u.At? == v.At?
    && (if u.At? then Wrap(u.i, n) == Wrap(v.i, n)
        else Count(u, n) == Count(v, n) && forall x :: 0 <= x < Count(u, n) ==> Pos(u, n, x) == Pos(v, n, x))
  }

  predicate SamePicks(shape: Shape, us: seq<Sub>, vs: seq<Sub>)
  {
    |us| == |vs| == |shape| && forall t :: 0 <= t < |shape| ==> SamePick(shape[t], us[t], vs[t])
  }

  lemma {:induction false} SamePicksEmbed(shape: Shape, us: seq<Sub>, vs: seq<Sub>, ix: Index)
    requires SamePicks(shape, us, vs) && SubsOk(shape, us) && SubsOk(shape, vs)
    ensures SubShape(shape, us) == SubShape(shape, vs)
    ensures InShape(SubShape(shape, us), ix) ==> Embed(shape, us, ix) == Embed(shape, vs, ix)
    decreases |us|
  {
    hide Count, SubShape, Embed, InShape;
    if us == [] {
      NothingPicked(shape, us, vs, ix);
    } else {
      assert SamePick(shape[0], us[0], vs[0]);
      SubShapeHead(shape, us);
      SubShapeHead(shape, vs);
      SamePicksEmbed(shape[1..], us[1..], vs[1..], ix);
      if InShape(SubShape(shape, us), ix) {
        InShapeLength(SubShape(shape, us), ix);
        EmbedHead(shape, us, ix);
        EmbedHead(shape, vs, ix);
        if us[0].Slice? {
          InShapeHead(SubShape(shape, us), ix);
          SamePicksEmbed(shape[1..], us[1..], vs[1..], ix[1..]);
        }
      }
    }
  }

  lemma NothingPicked(shape: Shape, us: seq<Sub>, vs: seq<Sub>, ix: Index)
    requires SubsOk(shape, us) && SubsOk(shape, vs) && us == vs == []
    ensures SubShape(shape, us) == SubShape(shape, vs)
    ensures InShape(SubShape(shape, us), ix) ==> Embed(shape, us, ix) == Embed(shape, vs, ix)
  {
  }

  /** Tensors subscripted by subscripts that select the same are the same. */
  lemma SamePicksSame(t: Tensor, us: seq<Sub>, vs: seq<Sub>)
    requires SamePicks(t.shape, us, vs)
    ensures SubsOk(t.shape, us) && SubsOk(t.shape, vs) && Same(Subscript(t, us), Subscript(t, vs))
  {
    hide Count, Pos;
    assert forall k :: 0 <= k < |t.shape| ==> SamePick(t.shape[k], us[k], vs[k]);
    hide SubShape, Embed;
    forall ix ensures Subscript(t, us).at(ix) == Subscript(t, vs).at(ix) {
      SamePicksEmbed(t.shape, us, vs, ix);
    }
    SamePicksEmbed(t.shape, us, vs, []);
  }

  lemma SamePicksConcat(s: Shape, u: seq<Sub>, v: seq<Sub>, s': Shape, u': seq<Sub>, v': seq<Sub>)
    requires |u| == |v| == |s|
    ensures SamePicks(s + s', u + u', v + v') <==> SamePicks(s, u, v) && SamePicks(s', u', v')
  {
    hide SamePick;
    if SamePicks(s + s', u + u', v + v') {
      forall t | 0 <= t < |s| ensures SamePick(s[t], u[t], v[t]) {
        assert SamePick((s + s')[t], (u + u')[t], (v + v')[t]);
      }
      assert |u'| == |v'| == |s'|;
      forall t | 0 <= t < |s'| ensures SamePick(s'[t], u'[t], v'[t]) {
        assert SamePick((s + s')[|s| + t], (u + u')[|s| + t], (v + v')[|s| + t]);
      }
    }
  }

  lemma SamePicksItself(shape: Shape, us: seq<Sub>)
    ensures SamePicks(shape, us, us) <==> SubsOk(shape, us)
  {
    hide Count, Pos;
    if SamePicks(shape, us, us) {
      forall t | 0 <= t < |us| ensures SubOk(us[t], shape[t]) {
        assert SamePick(shape[t], us[t], us[t]);
      }
    }
  }

  /** In what they select: an inner ellipsis among `n` other items is right if and only if it
      stands for exactly `n` axes, or for `e` more and the items after it select the same
      before `e` whole axes as after them. */
  lemma DotsPickRightIff(shape: Shape, pre: seq<Item>, post: seq<Item>)
    requires NoDots(pre) && NoDots(post) && post != []
    requires var meant := MeantSubs(WithDots(pre, post), |shape|); meant.Some? && SubsOk(shape, meant.value)
    ensures var d, n, q := |shape|, |pre| + |post|, Subs(post);
            var code, meant := CodeSubs(WithDots(pre, post), d), MeantSubs(WithDots(pre, post), d);
            (code.Some? && SamePicks(shape, code.value, meant.value))
            <==> d == 2 * n
                 || (d > 2 * n
                     && SamePicks(shape[|pre| + n..], q + Fulls(d - 2 * n), Fulls(d - 2 * n) + q))
  {
    hide Spelled, CountDots, Subs, Fulls, SamePicks, SubsOk;
    var d, n, items := |shape|, |pre| + |post|, WithDots(pre, post);
    var p, q := Subs(pre), Subs(post);
    assert items[n] == post[|post| - 1];
    SpelledWithDots(pre, post, n);
    SpelledWithDots(pre, post, 0);
    var code := p + Fulls(n) + q;
    assert CodeSubs(items, d) == Some(Padded(code, d)) && |code| == 2 * n;
    SpelledWithDots(pre, post, d - n);
    var meant := p + Fulls(d - n) + q;
    assert MeantSubs(items, d) == Some(meant);
    if d == 2 * n {
      SamePicksItself(shape, meant);
    } else if d > 2 * n {
      TailsDecide(shape, p, n, q, d - 2 * n);
    } else {
      TooLong(shape, code, meant);
    }
  }

  lemma TooLong(shape: Shape, us: seq<Sub>, vs: seq<Sub>)
    requires |us| > |shape|
    ensures !SamePicks(shape, us, vs)
  {
  }

  lemma TailsDecide(shape: Shape, p: seq<Sub>, n: nat, q: seq<Sub>, e: nat)
    requires |shape| == |p| + n + e + |q| && SubsOk(shape, p + Fulls(n + e) + q)
    ensures SamePicks(shape, p + Fulls(n) + q + Fulls(e), p + Fulls(n + e) + q)
            <==> SamePicks(shape[|p| + n..], q + Fulls(e), Fulls(e) + q)
  {
    var k, head := |p| + n, p + Fulls(n);
    assert Fulls(n + e) == Fulls(n) + Fulls(e);
    assert p + Fulls(n + e) + q == head + (Fulls(e) + q) && head + q + Fulls(e) == head + (q + Fulls(e));
    assert shape == shape[..k] + shape[k..];
    forall t | 0 <= t < k ensures SubOk(head[t], shape[..k][t]) {
      assert SubOk((head + (Fulls(e) + q))[t], shape[t]);
    }
    SamePicksItself(shape[..k], head);
    SamePicksConcat(shape[..k], head, head, shape[k..], q + Fulls(e), Fulls(e) + q);
  }

  // ----- several ellipses -----

  /** More than one ellipsis means nothing; the code refuses only tuples that consist of
      ellipses alone. */
  lemma {:induction false} SeveralDots(items: seq<Item>, d: nat)
    ensures CountDots(items) > 1 ==> MeantSubs(items, d).None?
    ensures CodeSubs(items, d).None? <==> forall i :: 0 <= i < |items| ==> items[i].Dots?
    decreases |items|
  {
    hide Spelled, CountDots;
    if items != [] && items[|items| - 1].Dots? {
      SeveralDots(items[..|items| - 1], d);
    }
  }

  /** A final ellipsis is right when something precedes it and fits. */
  lemma FinalDotsAreRightIff(pre: seq<Item>, d: nat)
    requires NoDots(pre)
    ensures CodeSubs(WithDots(pre, []), d) == MeantSubs(WithDots(pre, []), d) <==> 0 < |pre| <= d
  {
    var n, items := |pre|, WithDots(pre, []);
    assert items == pre + [Dots] && items[..n] == pre;
    SpelledWithDots(pre, [], 0);
    if n > 0 {
      SpelledPlain(pre, n - 1);
    }
    if n <= d {
      SpelledWithDots(pre, [], d - n);
      var meant := Subs(pre) + Fulls(d - n);
      assert Subs(pre) + Fulls(d - n) + Subs([]) == meant;
      assert MeantSubs(items, d) == Some(meant);
      assert Padded(Subs(pre), d) == meant;
    }
    assert CodeSubs(items, d) == CodeSubs(pre, d);
    assert n > 0 ==> CodeSubs(pre, d) == Some(Padded(Subs(pre), d));
  }

  /** l[0, ..., 1] on five axes subscripts the fourth instead of the last. */
  lemma DotsTooShort()
    ensures var items := [One(At(0)), Dots, One(At(1))];
            && CodeSubs(items, 5) == Some([At(0), Full, Full, At(1), Full])
            && MeantSubs(items, 5) == Some([At(0), Full, Full, Full, At(1)])
  {
    var pre, post := [One(At(0))], [One(At(1))];
    var items := [One(At(0)), Dots, One(At(1))];
    assert items == WithDots(pre, post) && Subs(pre) == [At(0)] && Subs(post) == [At(1)];
    SpelledWithDots(pre, post, 2);
    SpelledWithDots(pre, post, 3);
    hide Spelled, CountDots;
    assert Fulls(2) == [Full, Full] && Fulls(3) == [Full, Full, Full] && Fulls(1) == [Full];
    assert [At(0)] + Fulls(2) + [At(1)] + Fulls(1) == [At(0), Full, Full, At(1), Full];
    assert [At(0)] + Fulls(3) + [At(1)] == [At(0), Full, Full, Full, At(1)];
    assert |items| == 3 && items[2].One?;
  }
}
