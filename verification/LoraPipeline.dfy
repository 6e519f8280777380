/** Pipelines on factored tensors (convert_lora_to_gguf.py, lines 58-266). */
module LoraPipeline {
  import opened Sequences
  import opened Wrappers
  import opened Tensors
  import opened LoraTensor
  import opened LoraEllipsis
  import opened LoraOps
  import opened LoraAxes
  import opened LoraJoin

  datatype Op =
    | Subscripts(items: seq<Item>)                       // l[i, a:b, ...]
    | Item(i: int)                                       // l[i]
    | FirstSlice(start: Option<int>, stop: Option<int>, step: int)  // l[a:b]
    | TakeChunk(sizes: seq<nat>, axis: int, c: nat)      // l.split(sizes, axis)[c]
    | TakeEvenChunk(size: nat, axis: int, c: nat)        // l.split(size, axis)[c]
    | Reshaping(dims: seq<int>)
    | Permuting(dims: seq<int>)
    | Transposing(dim0: int, dim1: int)
    | Scaling(m: Tensor)

  datatype Expr =
    | Pair(l: Lora)
    | Apply(op: Op, arg: Expr)
    | CatOf(args: seq<Expr>)
    | StackOf(args: seq<Expr>)

  /** The axes 0, 1, ..., d - 1 with two of them exchanged. */
  function SwappedDims(d: nat, dim0: int, dim1: int): Option<seq<int>>
  {
    if !SubOk(At(dim0), d) || !SubOk(At(dim1), d) then None
    else
      var id: seq<int> := seq(d, i => i);
      var i, j := Wrap(dim0, d), Wrap(dim1, d);
      Some(id[i := id[j]][j := id[i]])
  }

  // ----- on pairs -----

  function ApplyPair(l: Lora, op: Op): Option<Lora>
    requires Valid(l)
  {
    match op
    case Subscripts(items) =>
      var subs := CodeSubs(items, |l.B.shape|);
      if subs.None? then None else GetTuple(l, subs.value)
    case Item(i) => GetItem(l, i)
    case FirstSlice(start, stop, step) => GetSlice(l, Slice(start, stop, step))
    case TakeChunk(sizes, axis, c) =>
      var chunks := SplitPair(l, sizes, axis);
      if chunks.None? || c >= |sizes| then None else Some(chunks.value[c])
    case TakeEvenChunk(size, axis, c) =>
      var chunks := SplitEvenly(l, size, axis);
      if chunks.None? || c >= |chunks.value| then None else Some(chunks.value[c])
    case Reshaping(dims) => Reshape(l, dims)
    case Permuting(dims) => PermutePair(l, dims)
    case Transposing(dim0, dim1) =>
      var dims := SwappedDims(|l.B.shape|, dim0, dim1);
      if dims.None? then None else PermutePair(l, dims.value)
    case Scaling(m) => MulPair(l, m)
  }

  /** What the operations do not check themselves: what an ellipsis stands for, integers on
      the last two axes, slices of batch axes that A is not broadcast over, and, with rank
      zero, the number of elements of a reshape. */
  predicate Supported(l: Lora, op: Op)
    requires Valid(l) && ApplyPair(l, op).Some?
  {
    match op
    case Subscripts(items) =>
      var d := |l.B.shape|;
      && MeantSubs(items, d).Some?
      && SamePicks(DenseShape(l), CodeSubs(items, d).value, MeantSubs(items, d).value)
      && KeepsLeads(l, CodeSubs(items, d).value)
    case FirstSlice(start, stop, step) => KeepsFirst(l, Slice(start, stop, step))
    case Reshaping(dims) => Prod(ExpandShape(Prod(DenseShape(l)), dims).value) == Prod(DenseShape(l))
    case _ => true
  }

  ghost function EvalPair(e: Expr): (r: Option<Lora>)
    ensures r.Some? ==> Valid(r.value)
    decreases e, 1
  {
    match e
    case Pair(l) => if Valid(l) then Some(l) else None
    case Apply(op, arg) =>
      var l := EvalPair(arg);
      if l.None? || ApplyPair(l.value, op).None? || !Supported(l.value, op) then None
      else
        OpCommutes(l.value, op);
        ApplyPair(l.value, op)
    case CatOf(args) =>
      var ls := EvalPairs(args);
      if ls.None? || !Joinable(ls.value) || CatPair(ls.value).None? || !CatSafe(ls.value) then None
      else
        CatCommutes(ls.value);
        CatPair(ls.value)
    case StackOf(args) =>
      var ls := EvalPairs(args);
      if ls.None? || !Joinable(ls.value) || StackPair(ls.value).None? then None
      else
        StackCommutes(ls.value);
        StackPair(ls.value)
  }

  ghost function EvalPairs(es: seq<Expr>): (r: Option<seq<Lora>>)
    ensures r.Some? ==> |r.value| == |es| && forall i :: 0 <= i < |es| ==> Valid(r.value[i])
    decreases es, 0
  {
    if es == [] then Some([])
    else
      var first, rest := EvalPair(es[0]), EvalPairs(es[1..]);
      if first.None? || rest.None? then None else Some([first.value] + rest.value)
  }

  // ----- on dense tensors -----

  function SubscriptDense(t: Tensor, subs: seq<Sub>): Option<Tensor>
  {
    if SubsOk(t.shape, subs) then Some(Subscript(t, subs)) else None
  }

  function PermuteDense(t: Tensor, dims: seq<int>): Option<Tensor>
  {
    var p := NormDims(|t.shape|, dims);
    if p.None? || !IsPerm(p.value) then None else Some(Permuted(t, p.value))
  }

  function ChunkDense(t: Tensor, sizes: seq<nat>, axis: int, c: nat): Option<Tensor>
  {
    var d := |t.shape|;
    var k := if axis < 0 then axis + d else axis;
    if !(0 <= k < d) || Total(sizes) != t.shape[k] || c >= |sizes| then None
    else SubscriptDense(t, OneSub(d, k, ChunkSub(Total(sizes[..c]), sizes[c])))
  }

  function ApplyDense(t: Tensor, op: Op): Option<Tensor>
  {
    var d := |t.shape|;
    match op
    case Subscripts(items) =>
      var subs := MeantSubs(items, d);
      if subs.None? then None else SubscriptDense(t, subs.value)
    case Item(i) => if d == 0 then None else SubscriptDense(t, OneSub(d, 0, At(i)))
    case FirstSlice(start, stop, step) =>
      if d == 0 then None else SubscriptDense(t, OneSub(d, 0, Slice(start, stop, step)))
    case TakeChunk(sizes, axis, c) => ChunkDense(t, sizes, axis, c)
    case TakeEvenChunk(size, axis, c) =>
      var k := if axis < 0 then axis + d else axis;
      if !(0 <= k < d) || (size == 0 && t.shape[k] > 0) then None
      else ChunkDense(t, EvenSizes(t.shape[k], size), axis, c)
    case Reshaping(dims) =>
      var shape := ExpandShape(Prod(t.shape), dims);
      if shape.None? || Prod(shape.value) != Prod(t.shape) then None else Some(Reshaped(t, shape.value))
    case Permuting(dims) => PermuteDense(t, dims)
    case Transposing(dim0, dim1) =>
      var dims := SwappedDims(d, dim0, dim1);
      if dims.None? then None else PermuteDense(t, dims.value)
    case Scaling(m) => if CanScale(t.shape, m.shape) then Some(Scaled(t, m)) else None
  }

  ghost function EvalDense(e: Expr): Option<Tensor>
    decreases e, 1
  {
    match e
    case Pair(l) => if Constructible(l.A, l.B) then Some(Dense(l)) else None
    case Apply(op, arg) =>
      var t := EvalDense(arg);
      if t.None? then None else ApplyDense(t.value, op)
    case CatOf(args) =>
      var ts := EvalDenses(args);
      if ts.None? || !CanCat(ts.value) then None else Some(Cat(ts.value))
    case StackOf(args) =>
      var ts := EvalDenses(args);
      if ts.None? || !CanStack(ts.value) then None else Some(Stack(ts.value))
  }

  ghost function EvalDenses(es: seq<Expr>): (r: Option<seq<Tensor>>)
    ensures r.Some? ==> |r.value| == |es|
    decreases es, 0
  {
    if es == [] then Some([])
    else
      var first, rest := EvalDense(es[0]), EvalDenses(es[1..]);
      if first.None? || rest.None? then None else Some([first.value] + rest.value)
  }

  // ----- one operation -----

  lemma EvenChunkCommutes(l: Lora, size: nat, axis: int, c: nat)
    requires Valid(l) && ApplyPair(l, TakeEvenChunk(size, axis, c)).Some?
    ensures var op := TakeEvenChunk(size, axis, c);
            var t := ApplyDense(Dense(l), op);
            t.Some? && StandsFor(ApplyPair(l, op).value, t.value)
  {
    hide Dense, Same, Subscript, OneSub, Total, ChunkSub, SplitPair;
    DenseHasShape(l);
    var t := if axis < 0 then axis + |l.B.shape| else axis;
    var sizes := EvenSizes(DenseShape(l)[t], size);
    SplitLength(l, sizes, axis);
    SplitCommutes(l, sizes, axis, c);
  }

  lemma SplitLength(l: Lora, sizes: seq<nat>, axis: int)
    requires Valid(l) && SplitPair(l, sizes, axis).Some?
    ensures |SplitPair(l, sizes, axis).value| == |sizes|
  {
    hide Chunk, Total;
  }

  lemma ItemsCommute(l: Lora, items: seq<Item>)
    requires Valid(l) && ApplyPair(l, Subscripts(items)).Some? && Supported(l, Subscripts(items))
    ensures var op := Subscripts(items);
            var t := ApplyDense(Dense(l), op);
            t.Some? && StandsFor(ApplyPair(l, op).value, t.value)
  {
    hide Dense, Same, Subscript, SamePicks, GetTuple, KeepsLeads, SubsOk;
    DenseHasShape(l);
    var d := |l.B.shape|;
    var code, meant := CodeSubs(items, d).value, MeantSubs(items, d).value;
    TupleCommutes(l, code);
    SamePicksSame(Dense(l), code, meant);
    SameTransitive(Dense(GetTuple(l, code).value), Subscript(Dense(l), code), Subscript(Dense(l), meant));
  }

  lemma OpCommutes(l: Lora, op: Op)
    requires Valid(l) && ApplyPair(l, op).Some? && Supported(l, op)
    ensures var l' := ApplyPair(l, op).value;
            var t := ApplyDense(Dense(l), op);
            t.Some? && StandsFor(l', t.value)
  {
    hide Dense, Same, Subscript, Scaled, Permuted, Reshaped, ExpandShape, NormDims, OneSub, Total, ChunkSub;
    DenseHasShape(l);
    match op
    case Subscripts(items) => ItemsCommute(l, items);
    case Item(i) => ItemCommutes(l, i);
    case FirstSlice(start, stop, step) => SliceCommutes(l, Slice(start, stop, step));
    case TakeChunk(sizes, axis, c) => SplitCommutes(l, sizes, axis, c);
    case TakeEvenChunk(size, axis, c) => EvenChunkCommutes(l, size, axis, c);
    case Reshaping(dims) => ReshapeCommutes(l, dims);
    case Permuting(dims) => PermuteCommutes(l, dims);
    case Transposing(dim0, dim1) => PermuteCommutes(l, SwappedDims(|l.B.shape|, dim0, dim1).value);
    case Scaling(m) => MulCommutes(l, m);
  }

  lemma ChunkSame(t: Tensor, u: Tensor, sizes: seq<nat>, axis: int, c: nat)
    requires Same(t, u) && ChunkDense(t, sizes, axis, c).Some?
    ensures ChunkDense(u, sizes, axis, c).Some?
    ensures Same(ChunkDense(t, sizes, axis, c).value, ChunkDense(u, sizes, axis, c).value)
  {
    hide Subscript, OneSub, Total, ChunkSub;
    assert t.shape == u.shape;
    hide Same;
    var d := |t.shape|;
    SubscriptSame(t, u, OneSub(d, if axis < 0 then axis + d else axis, ChunkSub(Total(sizes[..c]), sizes[c])));
  }

  lemma ApplyDenseSame(t: Tensor, u: Tensor, op: Op)
    requires Same(t, u) && ApplyDense(t, op).Some?
    ensures ApplyDense(u, op).Some? && Same(ApplyDense(t, op).value, ApplyDense(u, op).value)
  {
    hide Subscript, Scaled, Permuted, Reshaped, ExpandShape, NormDims, OneSub, Total, ChunkSub, IsPerm;
    assert t.shape == u.shape;
    var d := |t.shape|;
    hide Same;
    match op
    case Subscripts(items) => SubscriptSame(t, u, MeantSubs(items, d).value);
    case Item(i) => SubscriptSame(t, u, OneSub(d, 0, At(i)));
    case FirstSlice(start, stop, step) => SubscriptSame(t, u, OneSub(d, 0, Slice(start, stop, step)));
    case TakeChunk(sizes, axis, c) => ChunkSame(t, u, sizes, axis, c);
    case TakeEvenChunk(size, axis, c) =>
      ChunkSame(t, u, EvenSizes(t.shape[if axis < 0 then axis + d else axis], size), axis, c);
    case Reshaping(dims) => ReshapedSame(t, u, ExpandShape(Prod(t.shape), dims).value);
    case Permuting(dims) =>
      NormLength(d, dims);
      PermutedSame(t, u, NormDims(d, dims).value);
    case Transposing(dim0, dim1) =>
      var dims := SwappedDims(d, dim0, dim1).value;
      NormLength(d, dims);
      PermutedSame(t, u, NormDims(d, dims).value);
    case Scaling(m) => ScaledSame(t, u, m);
  }

  // ----- joins of equal tensors -----

  ghost predicate AllSame(ts: seq<Tensor>, us: seq<Tensor>)
  {
    |ts| == |us| && forall i :: 0 <= i < |ts| ==> Same(ts[i], us[i])
  }

  lemma CatSame(ts: seq<Tensor>, us: seq<Tensor>)
    requires AllSame(ts, us) && CanCat(ts)
    ensures CanCat(us) && Same(Cat(ts), Cat(us))
  {
    assert forall i :: 0 <= i < |ts| ==> Same(ts[i], us[i]);
    var lens := Lens(ts);
    assert HasLens(us, lens);
    CatLenIsTotal(ts, lens);
    CatLenIsTotal(us, lens);
    assert CatShape(ts) == CatShape(us);
    hide CatLen, Part, Offset, Total;
    forall ix | InShape(CatShape(ts), ix)
      ensures Cat(ts).at(ix) == Cat(us).at(ix)
    {
      CatSameAt(ts, us, lens, ix);
    }
  }

  lemma CatSameAt(ts: seq<Tensor>, us: seq<Tensor>, lens: seq<nat>, ix: Index)
    requires AllSame(ts, us) && CanCat(ts) && CanCat(us) && HasLens(ts, lens) && HasLens(us, lens)
    requires CatShape(ts) == CatShape(us) && InShape(CatShape(ts), ix)
    ensures Cat(ts).at(ix) == Cat(us).at(ix)
  {
    hide Cat, CatLen, Part, Offset, Total, InShape;
    InShapeLength(CatShape(ts), ix);
    var q, w := ix[0], ix[1..];
    assert ix == [q] + w;
    CatElement(ts, lens, q, w);
    CatElement(us, lens, q, w);
    var c, o := Part(lens, q), Offset(lens, q);
    assert Same(ts[c], us[c]) && ts[c].shape == [ts[c].shape[0]] + ts[0].shape[1..];
    ConsInShape(CatLen(ts), ts[0].shape[1..], q, w);
    ConsInShape(ts[c].shape[0], ts[0].shape[1..], o, w);
  }

  lemma StackSame(ts: seq<Tensor>, us: seq<Tensor>)
    requires AllSame(ts, us) && CanStack(ts)
    ensures CanStack(us) && Same(Stack(ts), Stack(us))
  {
    assert forall i :: 0 <= i < |ts| ==> Same(ts[i], us[i]);
    forall ix | InShape(StackShape(ts), ix)
      ensures Stack(ts).at(ix) == Stack(us).at(ix)
    {
      var q, w := ix[0], ix[1..];
      assert ix == [q] + w;
      ConsInShape(|ts|, ts[0].shape, q, w);
      assert Same(ts[q], us[q]);
    }
  }

  lemma SameTransitive(a: Tensor, b: Tensor, c: Tensor)
    requires Same(a, b) && Same(b, c)
    ensures Same(a, c)
  {
  }

  lemma SameReflexive(a: Tensor)
    ensures Same(a, a)
  {
  }

  // ----- whole pipelines -----

  /** Whatever a pipeline of supported operations computes on pairs, its dense tensor is
      what the same pipeline computes on the dense tensors. */
  lemma {:induction false} PipelineCommutes(e: Expr)
    requires EvalPair(e).Some?
    ensures EvalDense(e).Some? && StandsFor(EvalPair(e).value, EvalDense(e).value)
    decreases e, 1
  {
    hide Dense, Same, ApplyPair, ApplyDense, Supported, Cat, Stack, CatPair, StackPair, CatSafe, Joinable;
    match e
    case Pair(l) => SameReflexive(Dense(l));
    case Apply(op, arg) =>
      PipelineCommutes(arg);
      var l, t := EvalPair(arg).value, EvalDense(arg).value;
      OpCommutes(l, op);
      ApplyDenseSame(Dense(l), t, op);
      SameTransitive(Dense(ApplyPair(l, op).value), ApplyDense(Dense(l), op).value, ApplyDense(t, op).value);
    case CatOf(args) =>
      PipelinesCommute(args);
      var ls, ts := EvalPairs(args).value, EvalDenses(args).value;
      CatCommutes(ls);
      CatSame(Denses(ls), ts);
      SameTransitive(Dense(CatPair(ls).value), Cat(Denses(ls)), Cat(ts));
    case StackOf(args) =>
      PipelinesCommute(args);
      var ls, ts := EvalPairs(args).value, EvalDenses(args).value;
      StackCommutes(ls);
      StackSame(Denses(ls), ts);
      SameTransitive(Dense(StackPair(ls).value), Stack(Denses(ls)), Stack(ts));
  }

  lemma {:induction false} PipelinesCommute(es: seq<Expr>)
    requires EvalPairs(es).Some?
    ensures EvalDenses(es).Some? && AllSame(Denses(EvalPairs(es).value), EvalDenses(es).value)
    decreases es, 0
  {
    hide Dense, Same, EvalPair, EvalDense;
    if es != [] {
      PipelineCommutes(es[0]);
      PipelinesCommute(es[1..]);
      var ls, ts := EvalPairs(es).value, EvalDenses(es).value;
      var ls', ts' := EvalPairs(es[1..]).value, EvalDenses(es[1..]).value;
      forall i | 0 <= i < |es|
        ensures Same(Denses(ls)[i], ts[i])
      {
        if i > 0 {
          assert ls[i] == ls'[i - 1] && ts[i] == ts'[i - 1] && Same(Denses(ls')[i - 1], ts'[i - 1]);
        }
      }
    }
  }
}
