/** Indexing, slicing, splitting and reshaping factored tensors
    (convert_lora_to_gguf.py, lines 67-76, 136-160 and 190-206). */
module LoraOps {
  import opened Sequences
  import opened Wrappers
  import opened Tensors
  import opened LoraTensor

  // ----- l[i] and l[a:b] on the first axis -----

  lemma FullLeadsAgree(l: Lora)
    requires Valid(l)
    ensures LeadsAgree(l.LeadA(), l.LeadB(), Fulls(|l.B.shape| - 2), Fulls(|l.B.shape| - 2))
  {
    forall t | 0 <= t < |l.B.shape| - 2
      ensures AxisAgrees(l.LeadA()[t], l.LeadB()[t], Full, Full)
    {
      FullAgrees(l.A.shape[t], l.B.shape[t]);
    }
  }

  /** Replacing the subscripts of one leading axis keeps the others in agreement. */
  lemma OneLeadAgrees(l: Lora, t: nat, sa: Sub, sb: Sub)
    requires Valid(l) && t < |l.B.shape| - 2 && AxisAgrees(l.A.shape[t], l.B.shape[t], sa, sb)
    ensures var f := Fulls(|l.B.shape| - 2); LeadsAgree(l.LeadA(), l.LeadB(), f[t := sa], f[t := sb])
  {
    hide AxisAgrees;
    FullLeadsAgree(l);
    var f := Fulls(|l.B.shape| - 2);
    forall u | 0 <= u < |f|
      ensures AxisAgrees(l.LeadA()[u], l.LeadB()[u], f[t := sa][u], f[t := sb][u])
    {
      assert AxisAgrees(l.LeadA()[u], l.LeadB()[u], f[u], f[u]);
    }
  }

  /** The dense subscripts that touch one axis only. */
  function OneSub(d: nat, t: nat, s: Sub): seq<Sub>
    requires t < d
  {
    Fulls(d)[t := s]
  }

  lemma OneSubLead(d: nat, t: nat, s: Sub)
    requires t + 2 < d
    ensures Fulls(d - 2)[t := s] + [Full, Full] == OneSub(d, t, s)
  {
  }

  /** l[i]: both factors are indexed, so A must have that position too. */
  function GetItem(l: Lora, i: int): Option<Lora>
    requires Valid(l)
  {
    var d := |l.B.shape|;
    if d <= 2 || !SubOk(At(i), l.A.shape[0]) || !SubOk(At(i), l.B.shape[0]) then None
    else
      var subs := Fulls(d - 2)[0 := At(i)];
      Some(Subscripted(l, subs, subs, Full, Full))
  }

  lemma ItemCommutes(l: Lora, i: int)
    requires Valid(l) && GetItem(l, i).Some?
    ensures var l' := GetItem(l, i).value;
            var subs := OneSub(|l.B.shape|, 0, At(i));
            SubsOk(DenseShape(l), subs) && StandsFor(l', Subscript(Dense(l), subs))
  {
    hide Same, Dense, Subscript;
    OneLeadAgrees(l, 0, At(i), At(i));
    var subs := Fulls(|l.B.shape| - 2)[0 := At(i)];
    SubscriptedCommutes(l, subs, subs, Full, Full);
    OneSubLead(|l.B.shape|, 0, At(i));
  }

  /** l[a:b]: with batch axes both factors are sliced, otherwise only the rows of B. */
  function GetSlice(l: Lora, s: Sub): Option<Lora>
    requires Valid(l) && s.Slice?
  {
    var d := |l.B.shape|;
    if s.step <= 0 then None
    else if d > 2 then
      var subs := Fulls(d - 2)[0 := s];
      Some(Subscripted(l, subs, subs, Full, Full))
    else Some(Subscripted(l, [], [], s, Full))
  }

  /** On a batch axis that A is broadcast over, the slice must keep A's single position,
      or select nothing at all. */
  predicate KeepsFirst(l: Lora, s: Sub)
    requires Valid(l) && s.Slice? && s.step > 0
  {
    |l.B.shape| == 2 || l.A.shape[0] == l.B.shape[0] || Count(s, 1) == 1 || Count(s, l.B.shape[0]) == 0
  }

  lemma CountOfOne(s: Sub)
    requires s.Slice? && s.step > 0
    ensures Count(s, 1) <= 1 && (Count(s, 1) == 1 ==> Pos(s, 1, 0) == 0)
  {
    if Count(s, 1) >= 1 {
      PosInRange(s, 1, 0);
    }
  }

  lemma SliceAxisAgrees(a: nat, b: nat, s: Sub)
    requires (a == 1 || a == b) && s.Slice? && s.step > 0
    requires a == b || Count(s, 1) == 1 || Count(s, b) == 0
    ensures (a == b || Count(s, 1) == 1 || Count(s, 1) == 0) && AxisAgrees(a, b, s, s)
  {
    CountOfOne(s);
    hide Count, Pos;
  }

  lemma SliceCommutes(l: Lora, s: Sub)
    requires Valid(l) && s.Slice? && s.step > 0 && KeepsFirst(l, s)
    ensures var l' := GetSlice(l, s).value;
            var subs := OneSub(|l.B.shape|, 0, s);
            SubsOk(DenseShape(l), subs) && StandsFor(l', Subscript(Dense(l), subs))
  {
    hide Same, Dense, Subscript, Count, Pos;
    var d := |l.B.shape|;
    if d > 2 {
      SliceAxisAgrees(l.A.shape[0], l.B.shape[0], s);
      OneLeadAgrees(l, 0, s, s);
      var subs := Fulls(d - 2)[0 := s];
      SubscriptedCommutes(l, subs, subs, Full, Full);
      OneSubLead(d, 0, s);
    } else {
      SubscriptedCommutes(l, [], [], s, Full);
      assert [] + [s, Full] == OneSub(d, 0, s);
    }
  }

  /** That is exactly what the slice has to do: otherwise A loses the position that it is
      broadcast from while B keeps some. */
  lemma SliceIsValidIff(l: Lora, s: Sub)
    requires Valid(l) && s.Slice? && s.step > 0
    ensures Valid(GetSlice(l, s).value) <==> KeepsFirst(l, s)
    ensures var subs := OneSub(|l.B.shape|, 0, s);
            SubsOk(DenseShape(l), subs) && StandsFor(GetSlice(l, s).value, Subscript(Dense(l), subs))
            <==> KeepsFirst(l, s)
  {
    hide Count, Pos, Dense, Same, Subscript;
    if KeepsFirst(l, s) {
      SliceCommutes(l, s);
    } else {
      CountOfOne(s);
      var l', subs := GetSlice(l, s).value, Fulls(|l.B.shape| - 2)[0 := s];
      FirstLength(l.A, subs + [Full, Full]);
      FirstLength(l.B, subs + [Full, Full]);
    }
  }

  /** A slice that does not: A is broadcast from a position that is not selected. */
  lemma SliceLosesBatch()
    ensures var l := Lora(Filled([1, 1, 1]), Filled([2, 1, 1]));
            var s := Slice(Some(1), Some(2), 1);
            Valid(l) && GetSlice(l, s).Some? && !Valid(GetSlice(l, s).value)
  {
    var l := Lora(Filled([1, 1, 1]), Filled([2, 1, 1]));
    var s := Slice(Some(1), Some(2), 1);
    assert Steps(1, 1) == 1 && Count(s, 1) == 0 && Count(s, 2) == 1;
    hide GetSlice, Count;
    assert GetSlice(l, s).Some? && !KeepsFirst(l, s) by { SliceIsTaken(l, s); }
    SliceIsValidIff(l, s);
  }

  lemma SliceIsTaken(l: Lora, s: Sub)
    requires Valid(l) && s.Slice? && s.step > 0
    ensures GetSlice(l, s).Some?
  {
  }

  lemma FirstLength(t: Tensor, subs: seq<Sub>)
    requires SubsOk(t.shape, subs) && subs != [] && forall i :: 0 <= i < |subs| ==> subs[i].Slice?
    ensures |Subscript(t, subs).shape| == |t.shape| && Subscript(t, subs).shape[0] == Count(subs[0], t.shape[0])
  {
    hide Count;
    SubShapeHead(t.shape, subs);
    SlicesKeepAxes(t.shape, subs);
  }

  lemma {:induction false} SlicesKeepAxes(shape: Shape, subs: seq<Sub>)
    requires SubsOk(shape, subs) && forall i :: 0 <= i < |subs| ==> subs[i].Slice?
    ensures |SubShape(shape, subs)| == |shape|
    decreases |subs|
  {
    hide Count;
    if subs != [] {
      SubShapeHead(shape, subs);
      SlicesKeepAxes(shape[1..], subs[1..]);
    }
  }

  // ----- split -----

  /** The slice of one chunk. */
  function ChunkSub(off: nat, len: nat): Sub
  {
    Slice(Some(off), Some(off + len), 1)
  }

  lemma ChunkSelects(off: nat, len: nat, n: nat, x: nat)
    requires off + len <= n
    ensures Count(ChunkSub(off, len), n) == len && Pos(ChunkSub(off, len), n, x) == off + x
  {
    StepsOfOne(len);
    StepsOfOne(x);
  }

  lemma ChunkAgrees(a: nat, b: nat, off: nat, len: nat)
    requires (a == 1 || a == b) && off + len <= b
    ensures AxisAgrees(a, b, if a == 1 then Full else ChunkSub(off, len), ChunkSub(off, len))
  {
    if a == 1 {
      FullSelectsAll(1, 0);
    } else {
      ChunkSelects(off, len, b, 0);
    }
  }

  /** A chunk starts where the chunks before it end, and lies within the axis. */
  lemma ChunkFits(sizes: seq<nat>, c: nat)
    requires c < |sizes|
    ensures Total(sizes[..c]) + sizes[c] <= Total(sizes)
  {
    hide Total;
    var head, rest := sizes[..c + 1], sizes[c + 1..];
    assert sizes == head + rest && head == sizes[..c] + [sizes[c]];
    TotalAppend(head, rest);
    TotalAppend(sizes[..c], [sizes[c]]);
    TotalOfOne(sizes[c]);
  }

  /** Chunk sizes for a single split size: all equal, the last one what is left; an empty
      axis gives one empty chunk. */
  function EvenSizes(n: nat, size: nat): (r: seq<nat>)
    requires size > 0 || n == 0
    ensures r != [] && Total(r) == n
    ensures (forall c :: 0 <= c < |r| - 1 ==> r[c] == size) && r[|r| - 1] <= size && (r[|r| - 1] == 0 ==> n == 0)
  {
    if n <= size then
      TotalOfOne(n);
      [n]
    else
      var rest := EvenSizes(n - size, size);
      assert ([size] + rest)[1..] == rest;
      [size] + rest
  }

  /** One chunk of a split on the axis `t`. */
  function Chunk(l: Lora, t: nat, off: nat, len: nat): Lora
    requires Valid(l) && t < |l.B.shape|
    requires off + len <= DenseShape(l)[t]
  {
    var d, s := |l.B.shape|, ChunkSub(off, len);
    var f := Fulls(d - 2);
    if t == d - 1 then Subscripted(l, f, f, Full, s)
    else if t == d - 2 then Subscripted(l, f, f, s, Full)
    else Subscripted(l, f[t := if l.A.shape[t] == 1 then Full else s], f[t := s], Full, Full)
  }

  lemma ChunkCommutes(l: Lora, t: nat, off: nat, len: nat)
    requires Valid(l) && t < |l.B.shape| && off + len <= DenseShape(l)[t]
    ensures var l' := Chunk(l, t, off, len);
            var subs := OneSub(|l.B.shape|, t, ChunkSub(off, len));
            SubsOk(DenseShape(l), subs) && StandsFor(l', Subscript(Dense(l), subs))
  {
    hide Same, Dense, Subscript, Count, Pos;
    var d, s := |l.B.shape|, ChunkSub(off, len);
    var f := Fulls(d - 2);
    if t >= d - 2 {
      FullLeadsAgree(l);
      if t == d - 1 {
        SubscriptedCommutes(l, f, f, Full, s);
        assert f + [Full, s] == OneSub(d, t, s);
      } else {
        SubscriptedCommutes(l, f, f, s, Full);
        assert f + [s, Full] == OneSub(d, t, s);
      }
    } else {
      var sa := if l.A.shape[t] == 1 then Full else s;
      ChunkAgrees(l.A.shape[t], l.B.shape[t], off, len);
      OneLeadAgrees(l, t, sa, s);
      SubscriptedCommutes(l, f[t := sa], f[t := s], Full, Full);
      OneSubLead(d, t, s);
    }
  }

  /** l.split(sizes, axis); a negative axis counts from the end. */
  function SplitPair(l: Lora, sizes: seq<nat>, axis: int): Option<seq<Lora>>
    requires Valid(l)
  {
    var d := |l.B.shape|;
    var t := if axis < 0 then axis + d else axis;
    if !(0 <= t < d) || Total(sizes) != DenseShape(l)[t] then None
    else
      Some(seq(|sizes|, c requires 0 <= c < |sizes| =>
        ChunkFits(sizes, c); Chunk(l, t, Total(sizes[..c]), sizes[c])))
  }

  /** l.split(size, axis). */
  function SplitEvenly(l: Lora, size: nat, axis: int): Option<seq<Lora>>
    requires Valid(l)
  {
    var d := |l.B.shape|;
    var t := if axis < 0 then axis + d else axis;
    if !(0 <= t < d) || (size == 0 && DenseShape(l)[t] > 0) then None
    else SplitPair(l, EvenSizes(DenseShape(l)[t], size), axis)
  }

  /** The chunks are the consecutive chunks of the dense tensor. */
  lemma SplitCommutes(l: Lora, sizes: seq<nat>, axis: int, c: nat)
    requires Valid(l) && SplitPair(l, sizes, axis).Some? && c < |sizes|
    ensures var d := |l.B.shape|;
            var t := if axis < 0 then axis + d else axis;
            var subs := OneSub(d, t, ChunkSub(Total(sizes[..c]), sizes[c]));
            var chunk := SplitPair(l, sizes, axis).value[c];
            && SubsOk(DenseShape(l), subs) && StandsFor(chunk, Subscript(Dense(l), subs))
  {
    hide Same, Dense, Subscript, Chunk, Total, ChunkSub, OneSub;
    var d := |l.B.shape|;
    var t := if axis < 0 then axis + d else axis;
    ChunkFits(sizes, c);
    ChunkCommutes(l, t, Total(sizes[..c]), sizes[c]);
  }

  // ----- reshape -----

  function Ones(n: nat): (r: Shape)
    ensures |r| == n && forall i :: 0 <= i < n ==> r[i] == 1
  {
    seq(n, i => 1)
  }

  function Zeros(n: nat): (r: Index)
    ensures |r| == n && forall i :: 0 <= i < n ==> r[i] == 0
  {
    seq(n, i => 0)
  }

  /** The product of the given dimensions, those to be inferred aside. */
  function KnownProd(dims: seq<int>): int
  {
    if dims == [] then 1
    else KnownProd(dims[..|dims| - 1]) * (if dims[|dims| - 1] == -1 then 1 else dims[|dims| - 1])
  }

  /** The requested shape with -1 replaced by what is left. */
  function ExpandShape(elems: nat, dims: seq<int>): Option<Shape>
  {
    if exists i :: 0 <= i < |dims| && dims[i] < -1 then None
    else if -1 in dims then
      var known := KnownProd(dims);
      if known <= 0 || elems % known != 0 then None
      else Some(seq(|dims|, i requires 0 <= i < |dims| => if dims[i] == -1 then elems / known else dims[i]))
    else Some(seq(|dims|, i requires 0 <= i < |dims| => dims[i]))
  }

  /** l.reshape(dims). The tensor library refuses a shape with another number of elements. */
  function Reshape(l: Lora, dims: seq<int>): Option<Lora>
    requires Constructible(l.A, l.B)
  {
    var e := ExpandShape(Prod(DenseShape(l)), dims);
    if |dims| < 2 || e.None? then None
    else
      var shape := e.value;
      var d := |shape|;
      if shape[d - 1] != l.Cols() then None
      else
        var shapeA := Ones(d - 2) + [l.Rank(), l.Cols()];
        var shapeB := shape[..d - 1] + [l.Rank()];
        if Prod(l.A.shape) != Prod(shapeA) || Prod(l.B.shape) != Prod(shapeB) then None
        else Some(Lora(Reshaped(l.A, shapeA), Reshaped(l.B, shapeB)))
  }

  lemma {:induction false} FlatOfZeros(n: nat)
    ensures Flat(Ones(n), Zeros(n)) == 0
  {
    if n > 0 {
      FlatOfZeros(n - 1);
      assert Ones(n)[..n - 1] == Ones(n - 1) && Zeros(n)[..n - 1] == Zeros(n - 1);
    }
  }

  lemma {:induction false} UnflatZero(shape: Shape)
    ensures Unflat(shape, 0) == Zeros(|shape|)
  {
    if shape != [] {
      var n := |shape| - 1;
      UnflatZero(shape[..n]);
      assert shape[n] > 0 ==> 0 / shape[n] == 0 && 0 % shape[n] == 0;
      assert Zeros(n) + [0] == Zeros(n + 1);
    }
  }

  lemma {:induction false} ProdOfOnes(n: nat)
    ensures Prod(Ones(n)) == 1
  {
    if n > 0 {
      ProdOfOnes(n - 1);
      assert Ones(n)[..n - 1] == Ones(n - 1);
    }
  }

  lemma {:induction false} ProdOneMeansOnes(shape: Shape)
    requires Prod(shape) == 1
    ensures forall i :: 0 <= i < |shape| ==> shape[i] == 1
  {
    if shape != [] {
      var n := |shape| - 1;
      var p, d := Prod(shape[..n]), shape[n];
      FactorOfOne(p, d);
      ProdOneMeansOnes(shape[..n]);
      assert forall i :: 0 <= i < n ==> shape[i] == shape[..n][i];
    }
  }

  lemma FactorOfOne(p: nat, d: nat)
    requires p * d == 1
    ensures p == 1 && d == 1
  {
    assert p >= 1 && d >= 1;
    MulMonotone(1, p, d);
    assert d * p == p * d;
    MulMonotone(1, d, p);
  }

  lemma CancelFactor(a: nat, b: nat, c: nat)
    requires a * c == b * c && c > 0
    ensures a == b
  {
    assert (a - b) * c == a * c - b * c;
    SmallMultiple(a - b, c, 0);
  }

  lemma ProdPair(lead: Shape, m: nat, n: nat)
    ensures Prod(lead + [m, n]) == Prod(lead) * (m * n)
  {
    assert lead + [m, n] == (lead + [m]) + [n];
    ProdLast(lead + [m], n);
    ProdLast(lead, m);
    assert Prod(lead) * m * n == Prod(lead) * (m * n);
  }

  /** When a reshape is possible and there is an element at all, A is a single matrix. */
  lemma ReshapeNeedsSingleA(l: Lora, d: nat)
    requires Constructible(l.A, l.B) && l.Rank() > 0 && l.Cols() > 0
    requires Prod(l.A.shape) == Prod(Ones(d) + [l.Rank(), l.Cols()])
    ensures forall t :: 0 <= t < |l.LeadA()| ==> l.LeadA()[t] == 1
  {
    Split(l);
    var r, n, p := l.Rank(), l.Cols(), Prod(l.LeadA());
    ProdPair(l.LeadA(), r, n);
    ProdPair(Ones(d), r, n);
    ProdOfOnes(d);
    MulMonotone(1, r, n);
    CancelFactor(p, 1, r * n);
    ProdOneMeansOnes(l.LeadA());
  }

  /** Elements of the reshaped factors. */
  lemma ReshapedA(l: Lora, d: nat, k: nat, j: nat)
    requires Constructible(l.A, l.B) && k < l.Rank() && j < l.Cols()
    ensures Reshaped(l.A, Ones(d) + [l.Rank(), l.Cols()]).at(Zeros(d) + [k, j])
            == l.A.at(Zeros(|l.LeadA()|) + [k, j])
  {
    hide Flat, Unflat;
    Split(l);
    var r, n, la := l.Rank(), l.Cols(), l.LeadA();
    FlatOfZeros(d);
    UnflatZero(la);
    FlatUnflatPair(Ones(d), la, r, n, Zeros(d), k, j);
    InShapeAppend(Ones(d), [r, n], Zeros(d), [k, j]);
  }

  lemma FlatUnflatPair(s: Shape, t: Shape, r: nat, n: nat, x: Index, k: nat, j: nat)
    requires |x| == |s| && k < r && j < n
    ensures Unflat(t + [r, n], Flat(s + [r, n], x + [k, j])) == Unflat(t, Flat(s, x)) + [k, j]
  {
    hide Flat, Unflat;
    assert s + [r, n] == (s + [r]) + [n] && t + [r, n] == (t + [r]) + [n] && x + [k, j] == (x + [k]) + [j];
    var f, g := Flat(s, x), Flat(s + [r], x + [k]);
    FlatLast(s + [r], n, x + [k], j);
    FlatLast(s, r, x, k);
    UnflatLast(t + [r], n, g, j);
    UnflatLast(t, r, f, k);
    hide *;
    assert Unflat(t, f) + [k] + [j] == Unflat(t, f) + [k, j];
  }

  lemma ReshapedB(l: Lora, lead: Shape, y: Index, k: nat)
    requires Constructible(l.A, l.B) && InShape(lead, y) && k < l.Rank()
    ensures var bl := l.B.shape[..|l.B.shape| - 1];
            Reshaped(l.B, lead + [l.Rank()]).at(y + [k]) == l.B.at(Unflat(bl, Flat(lead, y)) + [k])
  {
    hide Flat, Unflat;
    var r, bl := l.Rank(), l.B.shape[..|l.B.shape| - 1];
    assert l.B.shape == bl + [r];
    FlatLast(lead, r, y, k);
    UnflatLast(bl, r, Flat(lead, y), k);
    InShapeAppend(lead, [r], y, [k]);
  }

  lemma SpreadOverOnes(lead: Shape, x: Index)
    requires |x| == |lead| && forall t :: 0 <= t < |lead| ==> lead[t] == 1
    ensures Spread(lead, x) == Zeros(|x|)
  {
  }

  /** Each term of the reshaped product is a term of the original one. */
  lemma ReshapeTerm(l: Lora, l': Lora, lead: Shape, x: Index, i: nat, j: nat, k: nat, x': Index, i': nat)
    requires Constructible(l.A, l.B) && Constructible(l'.A, l'.B) && k < l.Rank() && j < l.Cols()
    requires |x| == |l'.B.shape| - 2 && |x'| == |l.B.shape| - 2
    requires l'.A == Reshaped(l.A, Ones(|x|) + [l.Rank(), l.Cols()]) && l'.B == Reshaped(l.B, lead + [l.Rank()])
    requires InShape(lead, x + [i]) && x' + [i'] == Unflat(l.B.shape[..|l.B.shape| - 1], Flat(lead, x + [i]))
    requires forall t :: 0 <= t < |l.LeadA()| ==> l.LeadA()[t] == 1
    ensures Term(l', x, i, j, k) == Term(l, x', i', j, k)
  {
    hide Flat, Unflat, Reshaped;
    ReshapedA(l, |x|, k, j);
    ReshapedB(l, lead, x + [i], k);
    ReshapedShape(l.A, Ones(|x|) + [l.Rank(), l.Cols()]);
    assert l'.LeadA() == Ones(|x|);
    SpreadOverOnes(l.LeadA(), x');
    SpreadOverOnes(l'.LeadA(), x);
    assert x + [i, k] == x + [i] + [k] && x' + [i', k] == x' + [i'] + [k];
  }

  lemma ReshapedShape(t: Tensor, shape: Shape)
    ensures Reshaped(t, shape).shape == shape
  {
  }

  lemma ReshapePoint(l: Lora, dims: seq<int>, ix: Index)
    requires Constructible(l.A, l.B) && l.Rank() > 0 && Reshape(l, dims).Some?
    requires var l' := Reshape(l, dims).value;
             Constructible(l'.A, l'.B) && InShape(DenseShape(l'), ix)
    ensures Dense(Reshape(l, dims).value).at(ix)
            == Reshaped(Dense(l), ExpandShape(Prod(DenseShape(l)), dims).value).at(ix)
  {
    hide Flat, Unflat, Prod, Dot, Term, ExpandShape, Dense;
    var shape, l' := ExpandShape(Prod(DenseShape(l)), dims).value, Reshape(l, dims).value;
    ReshapeShapes(l, dims);
    var d, r, n := |shape|, l.Rank(), l.Cols();
    var lead, bl := shape[..d - 1], l.B.shape[..|l.B.shape| - 1];
    assert l'.A == Reshaped(l.A, Ones(d - 2) + [r, n]) && l'.B == Reshaped(l.B, lead + [r]);
    hide Reshaped, Reshape;
    var x, i, j := ix[..d - 2], ix[d - 2], ix[d - 1];
    assert shape == lead + [n] && ix == (x + [i]) + [j] && ix == x + [i, j];
    InShapeAppend(lead, [n], x + [i], [j]);
    assert j < [n][0];
    ReshapeNeedsSingleA(l, d - 2);
    var f := Flat(lead, x + [i]);
    LeadProds(l, lead);
    FlatInRange(lead, x + [i]);
    var u := Unflat(bl, f);
    UnflatInShape(bl, f);
    var e := |bl| - 1;
    var x', i' := u[..e], u[e];
    assert u == x' + [i'];
    forall k: nat | k < r
      ensures Term(l', x, i, j, k) == Term(l, x', i', j, k)
    {
      ReshapeTerm(l, l', lead, x, i, j, k, x', i');
    }
    DotSame(l', x, i, j, l, x', i', j, r);
    DenseAtPoint(l', x, i, j);
    DenseReshapedPoint(l, lead, x + [i], j, x', i');
  }

  lemma LeadProds(l: Lora, lead: Shape)
    requires Constructible(l.A, l.B) && l.Rank() > 0 && Prod(l.B.shape) == Prod(lead + [l.Rank()])
    ensures Prod(lead) == Prod(l.B.shape[..|l.B.shape| - 1])
  {
    var bl, r := l.B.shape[..|l.B.shape| - 1], l.Rank();
    assert l.B.shape == bl + [r];
    ProdLast(bl, r);
    ProdLast(lead, r);
    CancelFactor(Prod(lead), Prod(bl), r);
  }

  lemma DenseReshapedPoint(l: Lora, lead: Shape, y: Index, j: nat, x': Index, i': nat)
    requires Constructible(l.A, l.B) && InShape(lead, y) && j < l.Cols()
    requires var bl := l.B.shape[..|l.B.shape| - 1];
             x' + [i'] == Unflat(bl, Flat(lead, y)) && InShape(bl, x' + [i'])
    ensures Reshaped(Dense(l), lead + [l.Cols()]).at(y + [j]) == Dot(l, x', i', j, l.Rank())
  {
    hide Flat, Unflat, Dot;
    var bl, n := l.B.shape[..|l.B.shape| - 1], l.Cols();
    FlatLast(lead, n, y, j);
    UnflatLast(bl, n, Flat(lead, y), j);
    InShapeAppend(lead, [n], y, [j]);
    InShapeAppend(bl, [n], x' + [i'], [j]);
    assert x' + [i'] + [j] == x' + [i', j];
    DenseAtPoint(l, x', i', j);
  }

  /** Reshaping the factors is reshaping the dense tensor. The shape has as many elements as
      the dense tensor, as a reshape must, unless the rank is zero and there are columns. */
  lemma ReshapeCommutes(l: Lora, dims: seq<int>)
    requires Constructible(l.A, l.B) && Reshape(l, dims).Some?
    ensures var l' := Reshape(l, dims).value;
            var shape := ExpandShape(Prod(DenseShape(l)), dims).value;
            && StandsFor(l', Reshaped(Dense(l), shape))
            && (l.Rank() > 0 || l.Cols() == 0 ==> Prod(shape) == Prod(DenseShape(l)))
  {
    hide Flat, Unflat, Prod, Dot, ExpandShape, Reshaped, Dense;
    if l.Rank() > 0 {
      PositiveRankReshapes(l, dims);
    } else {
      var shape, l' := ExpandShape(Prod(DenseShape(l)), dims).value, Reshape(l, dims).value;
      ReshapeShapes(l, dims);
      forall ix
        ensures Dense(l').at(ix) == Reshaped(Dense(l), shape).at(ix)
      {
        RankZeroIsZero(l', ix);
        ReshapedZero(l, shape, ix);
      }
      DenseShapes(l, l', shape);
      if l.Cols() == 0 {
        NoColumnsNoElements(l, dims);
      }
    }
  }

  lemma RankZeroIsZero(l: Lora, ix: Index)
    requires Constructible(l.A, l.B) && l.Rank() == 0
    ensures Dense(l).at(ix) == 0.0
  {
  }

  lemma ReshapedZero(l: Lora, shape: Shape, ix: Index)
    requires Constructible(l.A, l.B) && l.Rank() == 0
    ensures Reshaped(Dense(l), shape).at(ix) == 0.0
  {
    hide Dense, Flat, Unflat;
    if InShape(shape, ix) {
      RankZeroIsZero(l, Unflat(Dense(l).shape, Flat(shape, ix)));
    }
  }

  /** With rank zero nothing is counted: any number of rows is accepted. */
  lemma RankZeroTakesAny(l: Lora, m: nat)
    requires Constructible(l.A, l.B) && l.Rank() == 0
    ensures ExpandShape(Prod(DenseShape(l)), [m, l.Cols()]) == Some([m, l.Cols()])
    ensures Reshape(l, [m, l.Cols()]).Some?
  {
    hide Prod, Reshaped, ExpandShape;
    var n := l.Cols();
    TwoAxes(Prod(DenseShape(l)), m, n);
    Split(l);
    assert Ones(0) == [] && [m, n][..1] + [0] == [m] + [0];
    EmptyProd([m], 0);
    assert l.B.shape == (l.LeadB() + [l.Rows()]) + [0];
    EmptyProd(l.LeadB() + [l.Rows()], 0);
    EmptyPair(l.LeadA(), n);
    EmptyPair(Ones(0), n);
  }

  /** Four rows of one column reshape to two. */
  lemma RankZeroLosesRows()
    ensures var l := Lora(Filled([0, 1]), Filled([4, 0]));
            && Valid(l) && DenseShape(l) == [4, 1]
            && Reshape(l, [2, 1]).Some? && DenseShape(Reshape(l, [2, 1]).value) == [2, 1]
  {
    hide Prod, ExpandShape, Reshape;
    var l := Lora(Filled([0, 1]), Filled([4, 0]));
    assert DenseShape(l) == [4, 1];
    RankZeroTakesAny(l, 2);
    ReshapeShapes(l, [2, 1]);
  }

  lemma EmptyProd(lead: Shape, n: nat)
    requires n == 0
    ensures Prod(lead + [n]) == 0
  {
    ProdLast(lead, n);
  }

  /** A reshape keeps the number of elements. */
  ghost predicate KeepsCount(l: Lora, dims: seq<int>)
    requires Constructible(l.A, l.B)
  {
    Reshape(l, dims).Some? ==> Prod(ExpandShape(Prod(DenseShape(l)), dims).value) == Prod(DenseShape(l))
  }

  /** Every reshape that is accepted keeps the number of elements if and only if the pair has
      a positive rank, or no columns and so no elements. */
  lemma ReshapeCountsIff(l: Lora)
    requires Constructible(l.A, l.B)
    ensures (forall dims :: KeepsCount(l, dims)) <==> l.Rank() > 0 || l.Cols() == 0
  {
    hide Reshape, ExpandShape, Prod;
    if l.Rank() > 0 {
      forall dims ensures KeepsCount(l, dims) {
        if Reshape(l, dims).Some? {
          PositiveRankReshapes(l, dims);
        }
      }
    } else if l.Cols() == 0 {
      forall dims ensures KeepsCount(l, dims) {
        if Reshape(l, dims).Some? {
          NoColumnsNoElements(l, dims);
        }
      }
    } else {
      OneRowTooMany(l);
    }
  }

  lemma NoColumnsNoElements(l: Lora, dims: seq<int>)
    requires Constructible(l.A, l.B) && l.Cols() == 0 && Reshape(l, dims).Some?
    ensures Prod(ExpandShape(Prod(DenseShape(l)), dims).value) == Prod(DenseShape(l)) == 0
  {
    hide ExpandShape, Prod, Reshaped;
    ReshapeShapes(l, dims);
    var shape := ExpandShape(Prod(DenseShape(l)), dims).value;
    var d := |shape| - 1;
    assert shape == shape[..d] + [0];
    EmptyProd(shape[..d], 0);
    Split(l);
    assert DenseShape(l) == (l.LeadB() + [l.Rows()]) + [0];
    EmptyProd(l.LeadB() + [l.Rows()], 0);
  }

  /** With rank zero, any number of rows is accepted: here one more than there are elements. */
  lemma OneRowTooMany(l: Lora)
    requires Constructible(l.A, l.B) && l.Rank() == 0 && l.Cols() > 0
    ensures !KeepsCount(l, [Prod(DenseShape(l)) + 1, l.Cols()])
  {
    hide Prod, Reshape, ExpandShape;
    var p, n := Prod(DenseShape(l)), l.Cols();
    RankZeroTakesAny(l, p + 1);
    ProdPair([], p + 1, n);
    assert [] + [p + 1, n] == [p + 1, n];
    ProdOfNothing();
    MulMonotone(1, n, p + 1);
  }

  lemma EmptyPair(lead: Shape, n: nat)
    ensures Prod(lead + [0, n]) == 0
  {
    ProdPair(lead, 0, n);
  }

  lemma ProdOfNothing()
    ensures Prod([]) == 1
  {
  }

  lemma TwoAxes(elems: nat, m: nat, n: nat)
    ensures ExpandShape(elems, [m, n]) == Some([m, n])
  {
    var dims: seq<int> := [m, n];
    var e := ExpandShape(elems, dims);
    assert -1 !in dims && forall i :: 0 <= i < 2 ==> dims[i] >= -1;
    assert e.Some? && e.value == [m, n];
  }

  lemma PositiveRankReshapes(l: Lora, dims: seq<int>)
    requires Constructible(l.A, l.B) && l.Rank() > 0 && Reshape(l, dims).Some?
    ensures var l' := Reshape(l, dims).value;
            var shape := ExpandShape(Prod(DenseShape(l)), dims).value;
            Prod(shape) == Prod(DenseShape(l)) && StandsFor(l', Reshaped(Dense(l), shape))
  {
    hide Flat, Unflat, Prod, Dot, ExpandShape, Reshaped, Dense;
    var shape, l' := ExpandShape(Prod(DenseShape(l)), dims).value, Reshape(l, dims).value;
    var d, n, bl := |shape|, l.Cols(), l.B.shape[..|l.B.shape| - 1];
    ReshapeShapes(l, dims);
    LeadProds(l, shape[..d - 1]);
    ProdLast(bl, n);
    ProdLast(shape[..d - 1], n);
    assert shape == shape[..d - 1] + [n];
    forall ix | InShape(DenseShape(l'), ix)
      ensures Dense(l').at(ix) == Reshaped(Dense(l), shape).at(ix)
    {
      ReshapePoint(l, dims, ix);
    }
    DenseShapes(l, l', shape);
  }

  lemma DenseShapes(l: Lora, l': Lora, shape: Shape)
    requires Constructible(l.A, l.B) && Constructible(l'.A, l'.B)
    ensures Dense(l').shape == DenseShape(l') && Reshaped(Dense(l), shape).shape == shape
  {
  }

  lemma ReshapeShapes(l: Lora, dims: seq<int>)
    requires Constructible(l.A, l.B) && Reshape(l, dims).Some?
    ensures var l' := Reshape(l, dims).value;
            var shape := ExpandShape(Prod(DenseShape(l)), dims).value;
            Valid(l') && l'.Rank() == l.Rank() && DenseShape(l') == shape && |shape| >= 2
            && Prod(l.B.shape) == Prod(shape[..|shape| - 1] + [l.Rank()])
            && Prod(l.A.shape) == Prod(Ones(|shape| - 2) + [l.Rank(), l.Cols()])
            && shape[|shape| - 1] == l.Cols()
  {
    hide Flat, Unflat, Prod, ExpandShape;
    var shape := ExpandShape(Prod(DenseShape(l)), dims).value;
    assert |shape| == |dims| by { ExpandLength(Prod(DenseShape(l)), dims); }
  }

  lemma ExpandLength(elems: nat, dims: seq<int>)
    requires ExpandShape(elems, dims).Some?
    ensures |ExpandShape(elems, dims).value| == |dims|
  {
  }
}
