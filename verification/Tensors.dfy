/** Dense tensors and the tensor operations that the adapter conversion relies on: basic
    indexing, reshaping, permuting axes, concatenating, stacking and scaling.

    A tensor is a shape and a value for every index; only indices inside the shape matter,
    so two tensors are the same when they agree there. */
module Tensors {
  import opened Wrappers
  import opened Sequences

  type Shape = seq<nat>
  type Index = seq<nat>

  datatype Tensor = Tensor(shape: Shape, at: Index -> real)

  predicate InShape(shape: Shape, ix: Index)
  {
    |ix| == |shape| && forall i :: 0 <= i < |ix| ==> ix[i] < shape[i]
  }

  ghost predicate Same(a: Tensor, b: Tensor)
  {
    a.shape == b.shape && forall ix :: InShape(a.shape, ix) ==> a.at(ix) == b.at(ix)
  }

  lemma InShapeLength(shape: Shape, ix: Index)
    requires InShape(shape, ix)
    ensures |ix| == |shape|
  {
  }

  lemma PairInShape(m: nat, n: nat, i: nat, j: nat)
    ensures InShape([m, n], [i, j]) <==> i < m && j < n
  {
    if InShape([m, n], [i, j]) {
      assert [i, j][0] < [m, n][0] && [i, j][1] < [m, n][1];
    }
  }

  lemma InShapeAppend(s: Shape, t: Shape, ix: Index, jx: Index)
    requires |ix| == |s| && |jx| == |t|
    ensures InShape(s + t, ix + jx) <==> InShape(s, ix) && InShape(t, jx)
  {
    if InShape(s + t, ix + jx) {
      forall i | 0 <= i < |ix|
        ensures ix[i] < s[i]
      {
        assert (ix + jx)[i] < (s + t)[i];
      }
      forall i | 0 <= i < |jx|
        ensures jx[i] < t[i]
      {
        assert (ix + jx)[|ix| + i] < (s + t)[|s| + i];
      }
    }
  }

  // ----- basic indexing -----

  /** One subscript: an integer, or a slice as in Python. */
  datatype Sub = At(i: int) | Slice(start: Option<int>, stop: Option<int>, step: int)

  const Full := Slice(None, None, 1)

  predicate SubOk(s: Sub, n: nat)
  {
    if s.At? then 0 <= s.i + n && s.i < n else s.step > 0
  }

  function Clamp(x: int, n: nat): (r: nat)
    ensures r <= n
  {
    if x < 0 then (if x + n < 0 then 0 else x + n) else if x > n then n else x
  }

  function First(s: Sub, n: nat): (r: nat)
    requires s.Slice?
    ensures r <= n
  {
    if s.start.None? then 0 else Clamp(s.start.value, n)
  }

  function Stop(s: Sub, n: nat): (r: nat)
    requires s.Slice?
    ensures r <= n
  {
    if s.stop.None? then n else Clamp(s.stop.value, n)
  }

  /** How many positions a slice selects on an axis of length `n`. */
  function Count(s: Sub, n: nat): nat
    requires s.Slice? && SubOk(s, n)
  {
    if Stop(s, n) <= First(s, n) then 0 else Steps(Stop(s, n) - First(s, n), s.step)
  }

  /** How many of 0, step, 2 * step, ... are below `len`. */
  function Steps(len: nat, step: nat): nat
    requires step > 0
  {
    if len == 0 then 0 else if len <= step then 1 else 1 + Steps(len - step, step)
  }

  function Wrap(i: int, n: nat): nat
    requires 0 <= i + n && i < n
  {
    if i < 0 then i + n else i
  }

  /** The position on the axis that the `x`-th selected element comes from. */
  function Pos(s: Sub, n: nat, x: nat): nat
    requires SubOk(s, n)
  {
    if s.At? then Wrap(s.i, n) else Advance(s.step, x) + First(s, n)
  }

  /** `x` steps. */
  function Advance(step: nat, x: nat): nat
  {
    if x == 0 then 0 else Advance(step, x - 1) + step
  }

  lemma {:induction false} AdvanceIs(step: nat, x: nat)
    ensures Advance(step, x) == step * x
  {
    if x > 0 {
      AdvanceIs(step, x - 1);
    }
  }

  lemma PosInRange(s: Sub, n: nat, x: nat)
    requires SubOk(s, n) && (s.Slice? ==> x < Count(s, n))
    ensures Pos(s, n, x) < n
  {
    if s.Slice? {
      StepsFit(s.step, Stop(s, n) - First(s, n), x);
    }
  }

  lemma {:induction false} StepsFit(step: nat, len: nat, x: nat)
    requires step > 0 && x < Steps(len, step)
    ensures Advance(step, x) < len
    decreases x
  {
    if x > 0 {
      StepsFit(step, len - step, x - 1);
    }
  }

  lemma {:induction false} StepsOfOne(n: nat)
    ensures Steps(n, 1) == n && Advance(1, n) == n
  {
    if n > 0 {
      StepsOfOne(n - 1);
    }
  }

  lemma FullSelectsAll(n: nat, x: nat)
    ensures Count(Full, n) == n && Pos(Full, n, x) == x
  {
    StepsOfOne(n);
    StepsOfOne(x);
  }

  function Fulls(n: nat): (r: seq<Sub>)
    ensures |r| == n && forall i :: 0 <= i < n ==> r[i] == Full
  {
    seq(n, i => Full)
  }

  predicate SubsOk(shape: Shape, subs: seq<Sub>)
  {
    |subs| == |shape| && forall i :: 0 <= i < |subs| ==> SubOk(subs[i], shape[i])
  }

  /** Integers drop their axis, slices keep it. */
  function SubShape(shape: Shape, subs: seq<Sub>): (r: Shape)
    requires SubsOk(shape, subs)
  {
    if subs == [] then []
    else (if subs[0].At? then [] else [Count(subs[0], shape[0])]) + SubShape(shape[1..], subs[1..])
  }

  /** The index that a subscripted tensor takes its element `ix` from. */
  function Embed(shape: Shape, subs: seq<Sub>, ix: Index): (r: Index)
    requires SubsOk(shape, subs) && |ix| == |SubShape(shape, subs)|
    ensures |r| == |shape|
    decreases |subs|
  {
    if subs == [] then []
    else if subs[0].At? then [Pos(subs[0], shape[0], 0)] + Embed(shape[1..], subs[1..], ix)
    else [Pos(subs[0], shape[0], ix[0])] + Embed(shape[1..], subs[1..], ix[1..])
  }

  function Subscript(t: Tensor, subs: seq<Sub>): Tensor
    requires SubsOk(t.shape, subs)
  {
    Tensor(SubShape(t.shape, subs),
           ix => if InShape(SubShape(t.shape, subs), ix) then t.at(Embed(t.shape, subs, ix)) else 0.0)
  }

  lemma {:induction false} EmbedInShape(shape: Shape, subs: seq<Sub>, ix: Index)
    requires SubsOk(shape, subs) && InShape(SubShape(shape, subs), ix)
    ensures InShape(shape, Embed(shape, subs, ix))
    decreases |subs|
  {
    hide Count, Pos, SubShape, Embed, InShape;
    InShapeLength(SubShape(shape, subs), ix);
    if subs == [] {
      NothingSelected(shape, subs, ix);
    } else {
      SubShapeHead(shape, subs);
      EmbedHead(shape, subs, ix);
      if subs[0].At? {
        PosInRange(subs[0], shape[0], 0);
        EmbedInShape(shape[1..], subs[1..], ix);
      } else {
        InShapeHead(SubShape(shape, subs), ix);
        PosInRange(subs[0], shape[0], ix[0]);
        EmbedInShape(shape[1..], subs[1..], ix[1..]);
      }
      InShapeCons(shape, Embed(shape, subs, ix));
    }
  }

  lemma NothingSelected(shape: Shape, subs: seq<Sub>, ix: Index)
    requires SubsOk(shape, subs) && subs == [] && |ix| == |SubShape(shape, subs)|
    ensures InShape(shape, Embed(shape, subs, ix))
  {
  }

  lemma InShapeCons(s: Shape, x: Index)
    requires |s| == |x| > 0 && x[0] < s[0] && InShape(s[1..], x[1..])
    ensures InShape(s, x)
  {
    forall i | 0 <= i < |x|
      ensures x[i] < s[i]
    {
      if i > 0 {
        assert x[1..][i - 1] < s[1..][i - 1];
      }
    }
  }

  lemma {:induction false} SubShapeAppend(s: Shape, u: seq<Sub>, s': Shape, u': seq<Sub>)
    requires SubsOk(s, u) && SubsOk(s', u')
    ensures SubsOk(s + s', u + u') && SubShape(s + s', u + u') == SubShape(s, u) + SubShape(s', u')
    decreases |u|
  {
    hide Count, SubShape;
    assert SubsOk(s + s', u + u');
    if u == [] {
      SubShapeEmpty(s, u);
      assert s + s' == s' && u + u' == u' && [] + SubShape(s', u') == SubShape(s', u');
    } else {
      TailOfConcat(s, s');
      TailOfConcat(u, u');
      SubShapeHead(s, u);
      SubShapeHead(s + s', u + u');
      SubShapeAppend(s[1..], u[1..], s', u');
      if u[0].Slice? {
        ConcatAssociates([Count(u[0], s[0])], SubShape(s[1..], u[1..]), SubShape(s', u'));
      }
    }
  }

  lemma {:induction false} EmbedAppend(s: Shape, u: seq<Sub>, ix: Index, s': Shape, u': seq<Sub>, jx: Index)
    requires SubsOk(s, u) && SubsOk(s', u') && |ix| == |SubShape(s, u)| && |jx| == |SubShape(s', u')|
    ensures SubsOk(s + s', u + u') && |ix + jx| == |SubShape(s + s', u + u')|
    ensures Embed(s + s', u + u', ix + jx) == Embed(s, u, ix) + Embed(s', u', jx)
    decreases |u|
  {
    hide Count, Pos, SubShape;
    SubShapeAppend(s, u, s', u');
    if u == [] {
      assert s + s' == s' && u + u' == u' && ix + jx == jx by { SubShapeEmpty(s, u); }
    } else {
      EmbedHead(s, u, ix);
      EmbedHead(s + s', u + u', ix + jx);
      TailOfConcat(s, s');
      TailOfConcat(u, u');
      assert SubsOk(s[1..], u[1..]);
      hide Embed, SubsOk, SubOk;
      var e := Embed(s', u', jx);
      if u[0].At? {
        EmbedAppend(s[1..], u[1..], ix, s', u', jx);
        ConcatAssociates([Pos(u[0], s[0], 0)], Embed(s[1..], u[1..], ix), e);
      } else {
        TailOfConcat(ix, jx);
        EmbedAppend(s[1..], u[1..], ix[1..], s', u', jx);
        ConcatAssociates([Pos(u[0], s[0], ix[0])], Embed(s[1..], u[1..], ix[1..]), e);
      }
    }
  }

  lemma SubShapeHead(s: Shape, u: seq<Sub>)
    requires SubsOk(s, u) && u != []
    ensures SubShape(s, u)
         == if u[0].At? then SubShape(s[1..], u[1..]) else [Count(u[0], s[0])] + SubShape(s[1..], u[1..])
  {
    hide Count;
    assert u[0].At? ==> [] + SubShape(s[1..], u[1..]) == SubShape(s[1..], u[1..]);
  }

  lemma InShapeHead(s: Shape, x: Index)
    requires InShape(s, x) && s != []
    ensures x[0] < s[0] && InShape(s[1..], x[1..])
  {
  }

  /** An element of a subscripted tensor whose axes fall into two groups. */
  lemma SubscriptAt(t: Tensor, s: Shape, u: seq<Sub>, ix: Index, s': Shape, u': seq<Sub>, jx: Index)
    requires t.shape == s + s' && SubsOk(s, u) && SubsOk(s', u')
    requires InShape(SubShape(s, u), ix) && InShape(SubShape(s', u'), jx)
    ensures SubsOk(t.shape, u + u')
    ensures Subscript(t, u + u').at(ix + jx) == t.at(Embed(s, u, ix) + Embed(s', u', jx))
  {
    hide Embed, SubShape;
    EmbedAppend(s, u, ix, s', u', jx);
    SubShapeAppend(s, u, s', u');
    InShapeAppend(SubShape(s, u), SubShape(s', u'), ix, jx);
  }

  lemma EmbedHead(s: Shape, u: seq<Sub>, ix: Index)
    requires SubsOk(s, u) && u != [] && |ix| == |SubShape(s, u)|
    ensures |ix| == |SubShape(s[1..], u[1..])| + if u[0].At? then 0 else 1
    ensures Embed(s, u, ix) == if u[0].At? then [Pos(u[0], s[0], 0)] + Embed(s[1..], u[1..], ix)
                               else [Pos(u[0], s[0], ix[0])] + Embed(s[1..], u[1..], ix[1..])
  {
  }

  lemma SubShapeEmpty(s: Shape, u: seq<Sub>)
    requires SubsOk(s, u) && u == []
    ensures SubShape(s, u) == []
  {
  }

  lemma EmbedPair(m: nat, n: nat, row: Sub, col: Sub, i: nat, j: nat)
    requires row.Slice? && col.Slice? && SubOk(row, m) && SubOk(col, n)
    ensures SubsOk([m, n], [row, col]) && SubShape([m, n], [row, col]) == [Count(row, m), Count(col, n)]
    ensures Embed([m, n], [row, col], [i, j]) == [Pos(row, m, i), Pos(col, n, j)]
  {
    hide Count, Pos;
    assert [m, n][1..] == [n] && [row, col][1..] == [col] && [i, j][1..] == [j];
    assert [n][1..] == [] && [col][1..] == [];
    assert SubShape([n], [col]) == [Count(col, n)];
    assert Embed([n], [col], [j]) == [Pos(col, n, j)];
  }

  // ----- row-major order -----

  function Prod(shape: Shape): nat
  {
    if shape == [] then 1 else Prod(shape[..|shape| - 1]) * shape[|shape| - 1]
  }

  /** Row-major position of an index. */
  function Flat(shape: Shape, ix: Index): nat
    requires |ix| == |shape|
  {
    if shape == [] then 0
    else
      var n := |shape| - 1;
      Flat(shape[..n], ix[..n]) * shape[n] + ix[n]
  }

  /** The index at a row-major position. */
  function Unflat(shape: Shape, f: nat): (ix: Index)
    ensures |ix| == |shape|
  {
    if shape == [] then []
    else
      var n := |shape| - 1;
      var d := shape[n];
      if d == 0 then Unflat(shape[..n], 0) + [0] else Unflat(shape[..n], f / d) + [f % d]
  }

  function Reshaped(t: Tensor, shape: Shape): Tensor
  {
    Tensor(shape, ix => if InShape(shape, ix) then t.at(Unflat(t.shape, Flat(shape, ix))) else 0.0)
  }

  lemma SmallMultiple(a: int, d: int, b: int)
    requires a * d == b && -d < b < d
    ensures a == 0 && b == 0
  {
    assert a >= 1 ==> a * d >= d;
    assert a <= -1 ==> a * d <= -d;
  }

  lemma DivModOf(q: nat, d: nat, r: nat)
    requires r < d
    ensures (q * d + r) / d == q && (q * d + r) % d == r
  {
    var x := q * d + r;
    var k, m := x / d, x % d;
    assert x == k * d + m;
    assert (k - q) * d == k * d - q * d;
    SmallMultiple(k - q, d, r - m);
  }

  lemma MulMonotone(a: nat, b: nat, c: nat)
    requires a <= b
    ensures a * c <= b * c
  {
  }

  lemma DivBound(f: nat, p: nat, d: nat)
    requires f < p * d
    ensures d > 0 && f / d < p
  {
    assert d > 0;
    var k := f / d;
    assert f == k * d + f % d;
    assert p <= k ==> p * d <= k * d;
  }

  lemma {:induction false} FlatInRange(shape: Shape, ix: Index)
    requires InShape(shape, ix)
    ensures Flat(shape, ix) < Prod(shape)
  {
    if shape != [] {
      var n := |shape| - 1;
      var f, p, d := Flat(shape[..n], ix[..n]), Prod(shape[..n]), shape[n];
      FlatInRange(shape[..n], ix[..n]);
      MulMonotone(f + 1, p, d);
      assert (f + 1) * d == f * d + d;
    }
  }

  lemma {:induction false} UnflatInShape(shape: Shape, f: nat)
    requires f < Prod(shape)
    ensures InShape(shape, Unflat(shape, f))
  {
    if shape != [] {
      var n := |shape| - 1;
      var p, d := Prod(shape[..n]), shape[n];
      DivBound(f, p, d);
      UnflatInShape(shape[..n], f / d);
      assert shape == shape[..n] + [d];
    }
  }

  /** Row-major positions split over a last axis of the same length. */
  lemma UnflatLast(lead: Shape, d: nat, f: nat, j: nat)
    requires j < d
    ensures Unflat(lead + [d], f * d + j) == Unflat(lead, f) + [j]
  {
    assert (lead + [d])[..|lead|] == lead;
    DivModOf(f, d, j);
  }

  lemma FlatLast(lead: Shape, d: nat, ix: Index, j: nat)
    requires |ix| == |lead|
    ensures Flat(lead + [d], ix + [j]) == Flat(lead, ix) * d + j
  {
    assert (lead + [d])[..|lead|] == lead && (ix + [j])[..|ix|] == ix;
  }

  lemma ProdLast(lead: Shape, d: nat)
    ensures Prod(lead + [d]) == Prod(lead) * d
  {
    assert (lead + [d])[..|lead|] == lead;
  }

  // ----- permuting axes -----

  predicate IsPerm(p: seq<nat>)
  {
    && (forall k :: 0 <= k < |p| ==> p[k] < |p|)
    && (forall j :: 0 <= j < |p| ==> j in p)
    && (forall k, l :: 0 <= k < l < |p| ==> p[k] != p[l])
  }

  function Where(p: seq<nat>, j: nat): (k: nat)
    requires j in p
    ensures k < |p| && p[k] == j
  {
    if p[0] == j then 0 else 1 + Where(p[1..], j)
  }

  function PermShape(shape: Shape, p: seq<nat>): (r: Shape)
    requires IsPerm(p) && |p| == |shape|
    ensures |r| == |p| && forall k :: 0 <= k < |p| ==> r[k] == shape[p[k]]
  {
    seq(|p|, k requires 0 <= k < |p| => shape[p[k]])
  }

  function Unpermute(p: seq<nat>, ix: Index): (r: Index)
    requires IsPerm(p) && |ix| == |p|
    ensures |r| == |p| && forall j :: 0 <= j < |p| ==> r[j] == ix[Where(p, j)]
  {
    seq(|p|, j requires 0 <= j < |p| => ix[Where(p, j)])
  }

  function Permuted(t: Tensor, p: seq<nat>): Tensor
    requires IsPerm(p) && |p| == |t.shape|
  {
    Tensor(PermShape(t.shape, p), ix => if InShape(PermShape(t.shape, p), ix) then t.at(Unpermute(p, ix)) else 0.0)
  }

  lemma PermutedAt(t: Tensor, p: seq<nat>, ix: Index)
    requires IsPerm(p) && |p| == |t.shape| && InShape(PermShape(t.shape, p), ix)
    ensures Permuted(t, p).at(ix) == t.at(Unpermute(p, ix))
  {
  }

  lemma UnpermuteInShape(shape: Shape, p: seq<nat>, ix: Index)
    requires IsPerm(p) && |p| == |shape| && InShape(PermShape(shape, p), ix)
    ensures InShape(shape, Unpermute(p, ix))
  {
    forall j | 0 <= j < |p|
      ensures Unpermute(p, ix)[j] < shape[j]
    {
      assert ix[Where(p, j)] < PermShape(shape, p)[Where(p, j)];
    }
  }

  // ----- scaling with broadcasting, aligned at the last axis -----

  /** Each axis of `m` has length one, or meets an axis of length one or of its own length. */
  predicate CanScale(shape: Shape, m: Shape)
  {
    && |m| <= |shape|
    && forall t :: |shape| - |m| <= t < |shape| ==>
         m[t - (|shape| - |m|)] == 1 || shape[t] == 1 || m[t - (|shape| - |m|)] == shape[t]
  }

  function ScaledShape(shape: Shape, m: Shape): (r: Shape)
    requires |m| <= |shape|
    ensures |r| == |shape|
  {
    seq(|shape|, t requires 0 <= t < |shape| =>
      if t >= |shape| - |m| && shape[t] == 1 then m[t - (|shape| - |m|)] else shape[t])
  }

  function BroadcastIndex(m: Shape, ix: Index): (r: Index)
    requires |m| <= |ix|
    ensures |r| == |m|
  {
    seq(|m|, k requires 0 <= k < |m| => if m[k] == 1 then 0 else ix[|ix| - |m| + k])
  }

  function Scaled(t: Tensor, m: Tensor): Tensor
    requires CanScale(t.shape, m.shape)
  {
    Tensor(ScaledShape(t.shape, m.shape),
           ix => if InShape(ScaledShape(t.shape, m.shape), ix)
                 then t.at(BroadcastIndex(t.shape, ix)) * m.at(BroadcastIndex(m.shape, ix)) else 0.0)
  }

  lemma ScaledAt(t: Tensor, m: Tensor, ix: Index)
    requires CanScale(t.shape, m.shape) && InShape(ScaledShape(t.shape, m.shape), ix)
    ensures Scaled(t, m).at(ix) == t.at(BroadcastIndex(t.shape, ix)) * m.at(BroadcastIndex(m.shape, ix))
    ensures InShape(t.shape, BroadcastIndex(t.shape, ix))
  {
    forall k | 0 <= k < |ix|
      ensures BroadcastIndex(t.shape, ix)[k] < t.shape[k]
    {
      assert ix[k] < ScaledShape(t.shape, m.shape)[k];
    }
  }

  // ----- concatenating and stacking on the first axis -----

  predicate CanCat(ts: seq<Tensor>)
  {
    && ts != []
    && (forall i :: 0 <= i < |ts| ==> ts[i].shape != [])
    && forall i :: 0 <= i < |ts| ==> ts[i].shape[1..] == ts[0].shape[1..]
  }

  function CatLen(ts: seq<Tensor>): nat
    requires forall i :: 0 <= i < |ts| ==> ts[i].shape != []
  {
    if ts == [] then 0 else ts[0].shape[0] + CatLen(ts[1..])
  }

  function CatAt(ts: seq<Tensor>, ix: Index): real
    requires ix != [] && forall i :: 0 <= i < |ts| ==> ts[i].shape != []
    decreases |ts|
  {
    if ts == [] then 0.0
    else if ix[0] < ts[0].shape[0] then ts[0].at(ix)
    else CatAt(ts[1..], [ix[0] - ts[0].shape[0]] + ix[1..])
  }

  function CatShape(ts: seq<Tensor>): Shape
    requires CanCat(ts)
  {
    [CatLen(ts)] + ts[0].shape[1..]
  }

  function Cat(ts: seq<Tensor>): Tensor
    requires CanCat(ts)
  {
    Tensor(CatShape(ts), ix => if InShape(CatShape(ts), ix) then CatAt(ts, ix) else 0.0)
  }

  predicate CanStack(ts: seq<Tensor>)
  {
    ts != [] && forall i :: 0 <= i < |ts| ==> ts[i].shape == ts[0].shape
  }

  function StackShape(ts: seq<Tensor>): Shape
    requires CanStack(ts)
  {
    [|ts|] + ts[0].shape
  }

  function Stack(ts: seq<Tensor>): Tensor
    requires CanStack(ts)
  {
    Tensor(StackShape(ts), ix => if InShape(StackShape(ts), ix) then ts[ix[0]].at(ix[1..]) else 0.0)
  }

  // ----- every operation only looks inside the shape -----

  lemma SubscriptSame(t: Tensor, u: Tensor, subs: seq<Sub>)
    requires Same(t, u) && SubsOk(t.shape, subs)
    ensures Same(Subscript(t, subs), Subscript(u, subs))
  {
    forall ix | InShape(SubShape(t.shape, subs), ix)
      ensures Subscript(t, subs).at(ix) == Subscript(u, subs).at(ix)
    {
      EmbedInShape(t.shape, subs, ix);
    }
  }

  lemma ReshapedSame(t: Tensor, u: Tensor, shape: Shape)
    requires Same(t, u) && Prod(shape) == Prod(t.shape)
    ensures Same(Reshaped(t, shape), Reshaped(u, shape))
  {
    forall ix | InShape(shape, ix)
      ensures Reshaped(t, shape).at(ix) == Reshaped(u, shape).at(ix)
    {
      FlatInRange(shape, ix);
      UnflatInShape(t.shape, Flat(shape, ix));
    }
  }

  lemma PermutedSame(t: Tensor, u: Tensor, p: seq<nat>)
    requires Same(t, u) && IsPerm(p) && |p| == |t.shape|
    ensures Same(Permuted(t, p), Permuted(u, p))
  {
    forall ix | InShape(PermShape(t.shape, p), ix)
      ensures Permuted(t, p).at(ix) == Permuted(u, p).at(ix)
    {
      UnpermuteInShape(t.shape, p, ix);
    }
  }

  lemma ScaledSame(t: Tensor, u: Tensor, m: Tensor)
    requires Same(t, u) && CanScale(t.shape, m.shape)
    ensures CanScale(u.shape, m.shape) && Same(Scaled(t, m), Scaled(u, m))
  {
    forall ix | InShape(ScaledShape(t.shape, m.shape), ix)
      ensures Scaled(t, m).at(ix) == Scaled(u, m).at(ix)
    {
      ScaledAt(t, m, ix);
      ScaledAt(u, m, ix);
    }
  }
}
