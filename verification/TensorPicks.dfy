/** Where selected elements come from (convert_lora_to_gguf.py, lines 58-266). */
module TensorPicks {
  import opened Sequences
  import opened Wrappers
  import opened Tensors
  import opened LoraTensor
  import opened LoraEllipsis
  import opened LoraOps
  import opened LoraAxes
  import opened LoraJoin
  import opened LoraPipeline
  import opened TensorElements

  // ----- one axis -----

  /** A bound of a Python slice on an axis of length n. */
  function Bound(b: Option<int>, n: nat, default: int): int
  {
    if b.None? then default
    else if b.value < -(n as int) then 0
    else if b.value < 0 then b.value + n
    else if b.value <= n then b.value
    else n
  }

  /** A slice picks start, start + step, and so on, up to but not including stop. */
  lemma SlicePicks(start: Option<int>, stop: Option<int>, step: int, n: nat, x: nat)
    requires step > 0
    ensures var s := Slice(start, stop, step);
            && (x < Count(s, n) <==> Bound(start, n, 0) + step * x < Bound(stop, n, n))
            && Pos(s, n, x) == Bound(start, n, 0) + step * x
  {
    hide Steps, Advance;
    var s := Slice(start, stop, step);
    AdvanceIs(step, x);
    assert First(s, n) == Bound(start, n, 0) && Stop(s, n) == Bound(stop, n, n);
    if First(s, n) < Stop(s, n) {
      StepsIff(step, Stop(s, n) - First(s, n), x);
    } else {
      assert step * x >= 0;
    }
  }

  lemma {:induction false} StepsIff(step: nat, len: nat, x: nat)
    requires step > 0
    ensures x < Steps(len, step) <==> Advance(step, x) < len
    decreases x
  {
    if x > 0 && len > step {
      StepsIff(step, len - step, x - 1);
    } else if x > 0 {
      AdvanceIs(step, x);
      assert step * x >= step;
    }
  }

  // ----- several axes -----

  /** How many of the subscripts keep their axis. */
  function Kept(subs: seq<Sub>): nat
  {
    if subs == [] then 0 else (if subs[0].Slice? then 1 else 0) + Kept(subs[1..])
  }

  lemma KeptHead(subs: seq<Sub>, a: nat)
    requires 0 < a <= |subs|
    ensures Kept(subs[..a]) == (if subs[0].Slice? then 1 else 0) + Kept(subs[1..][..a - 1])
  {
    assert subs[..a][1..] == subs[1..][..a - 1];
  }

  /** The kept axes come in the order of their subscripts. */
  lemma {:induction false} SubShapeAt(shape: Shape, subs: seq<Sub>, a: nat)
    requires SubsOk(shape, subs) && a < |subs|
    ensures var k := Kept(subs[..a]);
            && |SubShape(shape, subs)| == Kept(subs)
            && (subs[a].Slice? ==> k < Kept(subs) && SubShape(shape, subs)[k] == Count(subs[a], shape[a]))
    decreases |subs|
  {
    hide Count;
    SubShapeHead(shape, subs);
    if a > 0 {
      KeptHead(subs, a);
      SubShapeAt(shape[1..], subs[1..], a - 1);
    } else {
      assert subs[..0] == [];
      SubShapeLen(shape, subs);
    }
  }

  lemma {:induction false} SubShapeLen(shape: Shape, subs: seq<Sub>)
    requires SubsOk(shape, subs)
    ensures |SubShape(shape, subs)| == Kept(subs)
    decreases |subs|
  {
    hide Count;
    if subs != [] {
      SubShapeHead(shape, subs);
      SubShapeLen(shape[1..], subs[1..]);
    }
  }

  lemma {:induction false} EmbedAt(shape: Shape, subs: seq<Sub>, ix: Index, a: nat)
    requires SubsOk(shape, subs) && |ix| == |SubShape(shape, subs)| && a < |subs|
    ensures subs[a].Slice? ==> Kept(subs[..a]) < |ix|
    ensures Embed(shape, subs, ix)[a] == Pos(subs[a], shape[a], if subs[a].At? then 0 else ix[Kept(subs[..a])])
    decreases |subs|
  {
    hide Pos, SubShape;
    EmbedHead(shape, subs, ix);
    SubShapeAt(shape, subs, a);
    if a > 0 {
      KeptHead(subs, a);
      EmbedAt(shape[1..], subs[1..], if subs[0].At? then ix else ix[1..], a - 1);
    } else {
      assert subs[..0] == [];
    }
  }

  /** The position on one axis of the element at `ix` of the result. */
  predicate ComesFrom(subs: seq<Sub>, shape: Shape, ix: Index, a: nat, pos: int)
    requires |subs| == |shape| && a < |subs|
  {
    match subs[a]
    case At(i) => pos == FromEnd(i, shape[a])
    case Slice(start, _, step) =>
      Kept(subs[..a]) < |ix| && pos == Bound(start, shape[a], 0) + step * ix[Kept(subs[..a])]
  }

  /** Every element of a subscripted tensor, by Python's rules for integers and slices. */
  lemma SubscriptElements(t: Tensor, subs: seq<Sub>, ix: Index, jx: Index)
    requires SubsOk(t.shape, subs) && InShape(SubShape(t.shape, subs), ix) && |jx| == |t.shape|
    requires forall a :: 0 <= a < |jx| ==> ComesFrom(subs, t.shape, ix, a, jx[a])
    ensures Subscript(t, subs).at(ix) == t.at(jx)
  {
    var e := Embed(t.shape, subs, ix);
    forall a | 0 <= a < |jx|
      ensures e[a] == jx[a]
    {
      assert ComesFrom(subs, t.shape, ix, a, jx[a]);
      AxisElement(t.shape, subs, ix, a);
    }
    assert e == jx;
  }

  lemma AxisElement(shape: Shape, subs: seq<Sub>, ix: Index, a: nat)
    requires SubsOk(shape, subs) && |ix| == |SubShape(shape, subs)| && a < |subs|
    ensures ComesFrom(subs, shape, ix, a, Embed(shape, subs, ix)[a])
  {
    hide Embed, SubShape, Pos, Kept;
    EmbedAt(shape, subs, ix, a);
    var s := subs[a];
    if s.At? {
      AtIs(s.i, shape[a]);
    } else {
      SlicePicks(s.start, s.stop, s.step, shape[a], ix[Kept(subs[..a])]);
    }
  }

  lemma AtIs(i: int, n: nat)
    requires SubOk(At(i), n)
    ensures Pos(At(i), n, 0) == FromEnd(i, n)
  {
  }

  // ----- one axis of several -----

  lemma {:induction false} KeptSlices(subs: seq<Sub>)
    requires forall a :: 0 <= a < |subs| ==> subs[a].Slice?
    ensures Kept(subs) == |subs|
  {
    if subs != [] {
      KeptSlices(subs[1..]);
    }
  }

  lemma {:induction false} SliceShape(shape: Shape, subs: seq<Sub>)
    requires SubsOk(shape, subs) && forall a :: 0 <= a < |subs| ==> subs[a].Slice?
    ensures |SubShape(shape, subs)| == |shape|
    ensures forall a :: 0 <= a < |shape| ==> SubShape(shape, subs)[a] == Count(subs[a], shape[a])
  {
    hide Count, SubShape;
    SubShapeLen(shape, subs);
    KeptSlices(subs);
    forall a | 0 <= a < |shape|
      ensures SubShape(shape, subs)[a] == Count(subs[a], shape[a])
    {
      SubShapeAt(shape, subs, a);
      KeptSlices(subs[..a]);
    }
  }

  /** A slice of one axis leaves the other axes as they are. */
  lemma SliceElements(t: Tensor, k: nat, s: Sub, ix: Index)
    requires k < |t.shape| && s.Slice? && s.step > 0 && SubsOk(t.shape, OneSub(|t.shape|, k, s))
    requires InShape(SubShape(t.shape, OneSub(|t.shape|, k, s)), ix)
    ensures var r := Subscript(t, OneSub(|t.shape|, k, s));
            && r.shape == t.shape[k := Count(s, t.shape[k])] && |ix| == |t.shape|
            && r.at(ix) == t.at(ix[k := Pos(s, t.shape[k], ix[k])])
  {
    hide Count, Pos, SubShape, Embed, Kept;
    var subs := OneSub(|t.shape|, k, s);
    SliceShape(t.shape, subs);
    forall a | 0 <= a < |t.shape|
      ensures SubShape(t.shape, subs)[a] == t.shape[k := Count(s, t.shape[k])][a]
      ensures Embed(t.shape, subs, ix)[a] == ix[k := Pos(s, t.shape[k], ix[k])][a]
    {
      FullSelectsAll(t.shape[a], ix[a]);
      EmbedAt(t.shape, subs, ix, a);
      KeptSlices(subs[..a]);
    }
    assert Embed(t.shape, subs, ix) == ix[k := Pos(s, t.shape[k], ix[k])];
    assert SubShape(t.shape, subs) == t.shape[k := Count(s, t.shape[k])];
  }

  /** t[start:stop:step] on the first axis. */
  lemma FirstSliceElements(t: Tensor, start: Option<int>, stop: Option<int>, step: int, x: nat, w: Index)
    requires ApplyDense(t, FirstSlice(start, stop, step)).Some?
    requires InShape(ApplyDense(t, FirstSlice(start, stop, step)).value.shape, [x] + w)
    ensures var r := ApplyDense(t, FirstSlice(start, stop, step)).value;
            && t.shape != [] && step > 0 && r.shape != [] && r.shape[1..] == t.shape[1..]
            && var n := t.shape[0];
            var pos := Bound(start, n, 0) + step * x;
            && 0 <= pos < Bound(stop, n, n) && r.at([x] + w) == t.at([pos as nat] + w)
  {
    hide SubShape, Embed, Kept, Count, Pos;
    var s := Slice(start, stop, step);
    var d := |t.shape|;
    assert OneSub(d, 0, s)[0] == s;
    var ix := [x] + w;
    SliceElements(t, 0, s, ix);
    assert ix[0] < SubShape(t.shape, OneSub(d, 0, s))[0];
    SlicePicks(start, stop, step, t.shape[0], x);
    assert step * x >= 0;
    assert ix[0 := Pos(s, t.shape[0], x)] == [Pos(s, t.shape[0], x)] + w;
  }

  /** t[i] takes one position of the first axis, from either end. */
  lemma ItemElements(t: Tensor, i: int, w: Index)
    requires ApplyDense(t, LoraPipeline.Item(i)).Some?
    requires InShape(ApplyDense(t, LoraPipeline.Item(i)).value.shape, w)
    ensures var r := ApplyDense(t, LoraPipeline.Item(i)).value;
            && t.shape != [] && 0 <= FromEnd(i, t.shape[0]) < t.shape[0] && r.shape == t.shape[1..]
            && r.at(w) == t.at([FromEnd(i, t.shape[0])] + w)
  {
    hide Count, Pos, SubShape, Embed;
    var d := |t.shape|;
    var subs := OneSub(d, 0, At(i));
    assert subs[0] == At(i) && subs[1..] == Fulls(d - 1);
    SubShapeHead(t.shape, subs);
    EmbedHead(t.shape, subs, w);
    AtIs(i, t.shape[0]);
    SliceShape(t.shape[1..], Fulls(d - 1));
    FullsKeepAll(t.shape[1..], w);
  }

  lemma FullsKeepAll(shape: Shape, ix: Index)
    requires |ix| == |shape|
    ensures SubsOk(shape, Fulls(|shape|)) && SubShape(shape, Fulls(|shape|)) == shape
    ensures Embed(shape, Fulls(|shape|), ix) == ix
  {
    hide Count, Pos, SubShape, Embed, Kept;
    var subs := Fulls(|shape|);
    SliceShape(shape, subs);
    forall a | 0 <= a < |shape|
      ensures SubShape(shape, subs)[a] == shape[a] && Embed(shape, subs, ix)[a] == ix[a]
    {
      FullSelectsAll(shape[a], ix[a]);
      EmbedAt(shape, subs, ix, a);
      KeptSlices(subs[..a]);
    }
  }

  lemma ChunkIsSlice(t: Tensor, sizes: seq<nat>, axis: int, c: nat)
    requires ApplyDense(t, TakeChunk(sizes, axis, c)).Some?
    ensures var k := FromEnd(axis, |t.shape|);
            && 0 <= k < |t.shape| && c < |sizes| && Total(sizes) == t.shape[k]
            && var s := ChunkSub(Total(sizes[..c]), sizes[c]);
            && s.Slice? && s.step > 0 && SubsOk(t.shape, OneSub(|t.shape|, k, s))
            && ApplyDense(t, TakeChunk(sizes, axis, c)).value == Subscript(t, OneSub(|t.shape|, k, s))
  {
    hide Total, OneSub, Subscript, SubsOk;
  }

  lemma SubscriptShape(t: Tensor, subs: seq<Sub>)
    requires SubsOk(t.shape, subs)
    ensures Subscript(t, subs).shape == SubShape(t.shape, subs)
  {
    hide SubShape, SubsOk;
  }

  /** A chunk of a split starts where the chunks before it end. */
  lemma ChunkElements(t: Tensor, sizes: seq<nat>, axis: int, c: nat, ix: Index)
    requires ApplyDense(t, TakeChunk(sizes, axis, c)).Some?
    requires InShape(ApplyDense(t, TakeChunk(sizes, axis, c)).value.shape, ix)
    ensures var r, k := ApplyDense(t, TakeChunk(sizes, axis, c)).value, FromEnd(axis, |t.shape|);
            && c < |sizes| && 0 <= k < |t.shape| == |ix| && Total(sizes) == t.shape[k]
            && r.shape == t.shape[k := sizes[c]]
            && r.at(ix) == t.at(ix[k := Total(sizes[..c]) + ix[k]])
  {
    hide *;
    ChunkIsSlice(t, sizes, axis, c);
    SubscriptShape(t, OneSub(|t.shape|, FromEnd(axis, |t.shape|), ChunkSub(Total(sizes[..c]), sizes[c])));
    var k := FromEnd(axis, |t.shape|);
    var off := Total(sizes[..c]);
    var s := ChunkSub(off, sizes[c]);
    SliceElements(t, k, s, ix);
    ChunkFits(sizes, c);
    ChunkSelects(off, sizes[c], t.shape[k], ix[k]);
  }

  lemma {:induction false} EvenOffsets(sizes: seq<nat>, size: nat, c: nat)
    requires c <= |sizes| && forall i :: 0 <= i < c ==> sizes[i] == size
    ensures Total(sizes[..c]) == c * size
    decreases c
  {
    if c > 0 {
      EvenOffsets(sizes, size, c - 1);
      assert sizes[..c] == sizes[..c - 1] + [size];
      TotalAppend(sizes[..c - 1], [size]);
      TotalOfOne(size);
    } else {
      assert sizes[..0] == [];
    }
  }

  /** Chunks of one size follow each other at that distance. */
  lemma EvenChunkElements(t: Tensor, size: nat, axis: int, c: nat, off: nat, ix: Index)
    requires off == c * size
    requires ApplyDense(t, TakeEvenChunk(size, axis, c)).Some?
    requires InShape(ApplyDense(t, TakeEvenChunk(size, axis, c)).value.shape, ix)
    ensures var r, k := ApplyDense(t, TakeEvenChunk(size, axis, c)).value, FromEnd(axis, |t.shape|);
            && 0 <= k < |t.shape| == |ix| == |r.shape|
            && r.shape == t.shape[k := r.shape[k]] && r.shape[k] <= size && off + r.shape[k] <= t.shape[k]
            && (r.shape[k] == size || off + r.shape[k] == t.shape[k])
            && r.at(ix) == t.at(ix[k := off + ix[k]])
  {
    hide Total, SubscriptDense, OneSub, ChunkSub;
    var k := FromEnd(axis, |t.shape|);
    var sizes := EvenSizes(t.shape[k], size);
    assert ApplyDense(t, TakeEvenChunk(size, axis, c)) == ApplyDense(t, TakeChunk(sizes, axis, c));
    ChunkElements(t, sizes, axis, c, ix);
    EvenOffsets(sizes, size, c);
    EvenOffsets(sizes, size, |sizes| - 1);
    ChunkFits(sizes, c);
    LastChunk(sizes);
  }

  lemma LastChunk(sizes: seq<nat>)
    requires sizes != []
    ensures Total(sizes) == Total(sizes[..|sizes| - 1]) + sizes[|sizes| - 1]
  {
    var n := |sizes| - 1;
    assert sizes == sizes[..n] + [sizes[n]];
    TotalAppend(sizes[..n], [sizes[n]]);
    TotalOfOne(sizes[n]);
  }

  // ----- row-major order -----

  /** The row-major position, counted from the first axis. */
  function RowMajor(shape: Shape, ix: Index): nat
    requires |ix| == |shape|
  {
    if shape == [] then 0 else ix[0] * Prod(shape[1..]) + RowMajor(shape[1..], ix[1..])
  }

  lemma {:induction false} RowMajorLast(lead: Shape, n: nat, ix: Index, i: nat)
    requires |ix| == |lead|
    ensures RowMajor(lead + [n], ix + [i]) == RowMajor(lead, ix) * n + i
    decreases |lead|
  {
    hide Prod;
    var s, x := lead + [n], ix + [i];
    if lead == [] {
      ProdOfNothing();
      assert s[1..] == [] && x[1..] == [];
    } else {
      TailOfConcat(lead, [n]);
      TailOfConcat(ix, [i]);
      RowMajorLast(lead[1..], n, ix[1..], i);
      ProdLast(lead[1..], n);
      Regrouped(ix[0], Prod(lead[1..]), RowMajor(lead[1..], ix[1..]), n);
    }
  }

  lemma Regrouped(a: nat, p: nat, b: nat, n: nat)
    ensures a * (p * n) + b * n == (a * p + b) * n
  {
  }

  lemma {:induction false} RowMajorIsFlat(shape: Shape, ix: Index)
    requires |ix| == |shape|
    ensures RowMajor(shape, ix) == Flat(shape, ix)
  {
    if shape != [] {
      var n := |shape| - 1;
      RowMajorIsFlat(shape[..n], ix[..n]);
      assert shape == shape[..n] + [shape[n]] && ix == ix[..n] + [ix[n]];
      RowMajorLast(shape[..n], shape[n], ix[..n], ix[n]);
    }
  }

  lemma {:induction false} UnflatFlat(shape: Shape, ix: Index)
    requires InShape(shape, ix)
    ensures Unflat(shape, Flat(shape, ix)) == ix
  {
    if shape != [] {
      var n := |shape| - 1;
      UnflatFlat(shape[..n], ix[..n]);
      assert shape == shape[..n] + [shape[n]] && ix == ix[..n] + [ix[n]];
      UnflatLast(shape[..n], shape[n], Flat(shape[..n], ix[..n]), ix[n]);
    }
  }

  /** Reshaping keeps every element at its row-major position and takes the dimensions that
      are given. */
  lemma ReshapeElements(t: Tensor, dims: seq<int>, ix: Index, jx: Index)
    requires ApplyDense(t, Reshaping(dims)).Some? && InShape(t.shape, jx)
    requires InShape(ApplyDense(t, Reshaping(dims)).value.shape, ix)
    requires RowMajor(ApplyDense(t, Reshaping(dims)).value.shape, ix) == RowMajor(t.shape, jx)
    ensures var r := ApplyDense(t, Reshaping(dims)).value;
            && |r.shape| == |dims| && Prod(r.shape) == Prod(t.shape)
            && (forall k :: 0 <= k < |dims| && dims[k] != -1 ==> r.shape[k] == dims[k])
            && r.at(ix) == t.at(jx)
  {
    hide Flat, Unflat, RowMajor, Prod;
    var r := ApplyDense(t, Reshaping(dims)).value;
    ExpandLength(Prod(t.shape), dims);
    RowMajorIsFlat(r.shape, ix);
    RowMajorIsFlat(t.shape, jx);
    UnflatFlat(t.shape, jx);
  }

  // ----- joining and scaling -----

  /** Parts joined on the first axis follow each other. */
  lemma {:induction false} CatElements(ts: seq<Tensor>, c: nat, o: nat, w: Index)
    requires c < |ts| && (forall i :: 0 <= i < |ts| ==> ts[i].shape != []) && o < ts[c].shape[0]
    ensures CatAt(ts, [CatLen(ts[..c]) + o] + w) == ts[c].at([o] + w)
    decreases c
  {
    if c == 0 {
      assert ts[..0] == [];
    } else {
      assert ts[..c][1..] == ts[1..][..c - 1];
      CatElements(ts[1..], c - 1, o, w);
      var ix := [CatLen(ts[..c]) + o] + w;
      assert ix[1..] == w && ix[0] - ts[0].shape[0] == CatLen(ts[1..][..c - 1]) + o;
    }
  }

  /** So do they in the whole, which is as long as they are together. */
  lemma JoinedElements(ts: seq<Tensor>, c: nat, o: nat, w: Index)
    requires CanCat(ts) && c < |ts| && o < ts[c].shape[0] && InShape(ts[0].shape[1..], w)
    ensures var before := Total(Lens(ts)[..c]);
            && Cat(ts).shape == [Total(Lens(ts))] + ts[0].shape[1..]
            && before + o < Total(Lens(ts))
            && Cat(ts).at([before + o] + w) == ts[c].at([o] + w)
  {
    hide CatLen, CatAt, Total;
    var lens := Lens(ts);
    CatLenIsTotal(ts, lens);
    assert HasLens(ts[..c], lens[..c]);
    CatLenIsTotal(ts[..c], lens[..c]);
    ChunkFits(lens, c);
    CatElements(ts, c, o, w);
    var q := Total(lens[..c]) + o;
    ConsInShape(Total(lens), ts[0].shape[1..], q, w);
  }

  /** A stacked tensor holds its parts one after the other on a new first axis. */
  lemma StackedElements(ts: seq<Tensor>, c: nat, w: Index)
    requires CanStack(ts) && c < |ts| && InShape(ts[0].shape, w)
    ensures Stack(ts).shape == [|ts|] + ts[0].shape && Stack(ts).at([c] + w) == ts[c].at(w)
  {
    ConsInShape(|ts|, ts[0].shape, c, w);
    assert ([c] + w)[1..] == w;
  }

  /** Scaling multiplies each element by the one of `m` in the same place, counted from the
      last axis, or in the only place along an axis of length one. */
  lemma ScaledElements(t: Tensor, m: Tensor, ix: Index, jx: Index, mx: Index)
    requires CanScale(t.shape, m.shape) && InShape(Scaled(t, m).shape, ix)
    requires |jx| == |t.shape| && |mx| == |m.shape| && |ix| == |t.shape|
    requires forall k :: 0 <= k < |jx| ==> jx[k] == if t.shape[k] == 1 then 0 else ix[k]
    requires forall k :: 0 <= k < |mx| ==> mx[k] == if m.shape[k] == 1 then 0 else ix[|ix| - |mx| + k]
    ensures Scaled(t, m).at(ix) == t.at(jx) * m.at(mx)
  {
    ScaledAt(t, m, ix);
    assert BroadcastIndex(t.shape, ix) == jx && BroadcastIndex(m.shape, ix) == mx;
  }

  lemma ScaledByNumber(t: Tensor, m: Tensor, ix: Index)
    requires m.shape == [] && InShape(t.shape, ix)
    ensures CanScale(t.shape, m.shape) && Scaled(t, m).shape == t.shape
    ensures Scaled(t, m).at(ix) == t.at(ix) * m.at([])
  {
    assert ScaledShape(t.shape, m.shape) == t.shape;
    assert BroadcastIndex(t.shape, ix) == ix && BroadcastIndex(m.shape, ix) == [];
  }

  // ----- the ellipsis -----

  /** One ellipsis stands for all the axes that the other items leave. */
  lemma EllipsisMeans(pre: seq<LoraEllipsis.Item>, post: seq<LoraEllipsis.Item>, d: nat)
    requires NoDots(pre) && NoDots(post)
    ensures var n := |pre| + |post|;
            MeantSubs(pre + [Dots] + post, d)
            == if n <= d then Some(Subs(pre) + Fulls(d - n) + Subs(post)) else None
  {
    hide Spelled, CountDots;
    var n := |pre| + |post|;
    SpelledWithDots(pre, post, if n <= d then d - n else 0);
  }
}
