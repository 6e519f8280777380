/** Exactly which operations a pair allows, and on which it raises
    (convert_lora_to_gguf.py, lines 58-266). */
module LoraAccepts {
  import opened Sequences
  import opened Wrappers
  import opened Tensors
  import opened LoraTensor
  import opened LoraOps
  import opened LoraAxes
  import opened LoraJoin
  import opened LoraPipeline
  import opened TensorElements

  /** l[i]: there is a batch axis, and both factors have the position. */
  lemma ItemIsTakenIff(l: Lora, i: int)
    requires Valid(l)
    ensures ApplyPair(l, LoraPipeline.Item(i)).Some?
            <==> && |l.B.shape| > 2 && 0 <= FromEnd(i, l.B.shape[0]) < l.B.shape[0]
                 && 0 <= FromEnd(i, l.A.shape[0]) < l.A.shape[0]
  {
    hide Subscripted;
  }

  /** l[a:b:c]: any bounds, but no step back. */
  lemma FirstSliceIsTakenIff(l: Lora, start: Option<int>, stop: Option<int>, step: int)
    requires Valid(l)
    ensures ApplyPair(l, FirstSlice(start, stop, step)).Some? <==> step > 0
  {
    hide Subscripted;
  }

  /** l.split(sizes, axis)[c]: the sizes make up the axis. */
  lemma ChunkIsTakenIff(l: Lora, sizes: seq<nat>, axis: int, c: nat)
    requires Valid(l)
    ensures var k := FromEnd(axis, |l.B.shape|);
            ApplyPair(l, TakeChunk(sizes, axis, c)).Some?
            <==> 0 <= k < |l.B.shape| && Total(sizes) == DenseShape(l)[k] && c < |sizes|
  {
    hide Chunk, Total;
  }

  lemma {:induction false} EvenCount(n: nat, size: nat, c: nat)
    requires size > 0 || n == 0
    ensures c < |EvenSizes(n, size)| <==> c == 0 || c * size < n
    decreases c
  {
    if c > 0 && n > size {
      EvenCount(n - size, size, c - 1);
      assert c * size == (c - 1) * size + size;
      assert c == 1 ==> c * size == size;
    } else if c > 0 {
      assert c * size >= size;
    }
  }

  /** l.split(size, axis)[c]: as many chunks as are needed, one at least. */
  lemma EvenChunkIsTakenIff(l: Lora, size: nat, axis: int, c: nat)
    requires Valid(l)
    ensures var k := FromEnd(axis, |l.B.shape|);
            ApplyPair(l, TakeEvenChunk(size, axis, c)).Some?
            <==> 0 <= k < |l.B.shape| && (size > 0 || DenseShape(l)[k] == 0) && (c == 0 || c * size < DenseShape(l)[k])
  {
    hide Chunk, Total, EvenSizes;
    var k := FromEnd(axis, |l.B.shape|);
    if 0 <= k < |l.B.shape| && (size > 0 || DenseShape(l)[k] == 0) {
      EvenCount(DenseShape(l)[k], size, c);
      var sizes := EvenSizes(DenseShape(l)[k], size);
      SplitLength(l, sizes, axis);
    }
  }

  /** l.reshape(dims), for pairs with elements: two axes at least, the columns stay, the
      number of elements stays, and A is a single matrix. */
  lemma ReshapeIsTakenIff(l: Lora, dims: seq<int>)
    requires Valid(l) && l.Rank() > 0 && l.Cols() > 0
    ensures var shape := ExpandShape(Prod(DenseShape(l)), dims);
            ApplyPair(l, Reshaping(dims)).Some?
            <==> && |dims| >= 2 && shape.Some? && shape.value[|dims| - 1] == l.Cols()
                 && Prod(shape.value) == Prod(DenseShape(l))
                 && forall t :: 0 <= t < |l.B.shape| - 2 ==> l.A.shape[t] == 1
  {
    hide Reshaped, ExpandShape, KnownProd, Prod;
    var shape := ExpandShape(Prod(DenseShape(l)), dims);
    if shape.Some? {
      ExpandLength(Prod(DenseShape(l)), dims);
      if |dims| >= 2 && shape.value[|dims| - 1] == l.Cols() {
        ReshapeCounts(l, shape.value);
      }
    }
  }

  lemma ReshapeCounts(l: Lora, shape: Shape)
    requires Valid(l) && l.Rank() > 0 && l.Cols() > 0 && |shape| >= 2 && shape[|shape| - 1] == l.Cols()
    ensures var d := |shape|;
            (Prod(l.A.shape) == Prod(Ones(d - 2) + [l.Rank(), l.Cols()])
             && Prod(l.B.shape) == Prod(shape[..d - 1] + [l.Rank()]))
            <==> Prod(shape) == Prod(DenseShape(l)) && forall t :: 0 <= t < |l.B.shape| - 2 ==> l.A.shape[t] == 1
  {
    hide Prod;
    var d, r, n := |shape|, l.Rank(), l.Cols();
    var lead, bl := shape[..d - 1], l.B.shape[..|l.B.shape| - 1];
    assert shape == lead + [n] && l.B.shape == bl + [r] && DenseShape(l) == bl + [n];
    ProdLast(lead, n);
    ProdLast(lead, r);
    ProdLast(bl, r);
    ProdLast(bl, n);
    SameFactor(Prod(lead), Prod(bl), r);
    SameFactor(Prod(lead), Prod(bl), n);
    if Prod(l.A.shape) == Prod(Ones(d - 2) + [r, n]) {
      ReshapeNeedsSingleA(l, d - 2);
      assert forall t :: 0 <= t < |l.LeadA()| ==> l.LeadA()[t] == l.A.shape[t];
    } else if forall t :: 0 <= t < |l.B.shape| - 2 ==> l.A.shape[t] == 1 {
      SingleACounts(l, d - 2);
    }
  }

  lemma SameFactor(a: nat, b: nat, c: nat)
    requires c > 0
    ensures a * c == b * c <==> a == b
  {
    if a * c == b * c {
      CancelFactor(a, b, c);
    }
  }

  lemma SingleACounts(l: Lora, d: nat)
    requires Valid(l) && forall t :: 0 <= t < |l.B.shape| - 2 ==> l.A.shape[t] == 1
    ensures Prod(l.A.shape) == Prod(Ones(d) + [l.Rank(), l.Cols()])
  {
    hide Prod;
    Split(l);
    var la := l.LeadA();
    assert la == Ones(|la|);
    ProdOfOnes(|la|);
    ProdOfOnes(d);
    ProdPair(la, l.Rank(), l.Cols());
    ProdPair(Ones(d), l.Rank(), l.Cols());
  }

  /** l * m: `m` has no more axes, does not vary along the columns, and meets each of the
      other axes with its length or with one. */
  lemma ScaleIsTakenIff(l: Lora, m: Tensor)
    requires Valid(l)
    ensures var d, e := |l.B.shape|, |m.shape|;
            ApplyPair(l, Scaling(m)).Some?
            <==> && e <= d && (e > 0 ==> m.shape[e - 1] == 1)
                 && forall k :: 0 <= k < e - 1 ==>
                      m.shape[k] == 1 || l.B.shape[d - e + k] == 1 || m.shape[k] == l.B.shape[d - e + k]
  {
    hide Scaled;
    var d, e := |l.B.shape|, |m.shape|;
    if e <= d && (e > 0 ==> m.shape[e - 1] == 1) {
      assert forall t :: d - e <= t < d ==> l.B.shape[t] == l.B.shape[d - e + (t - (d - e))];
      assert CanScale(l.B.shape, m.shape) ==> forall k :: 0 <= k < e - 1 ==>
        m.shape[k] == m.shape[(d - e + k) - (d - e)];
    }
  }

  /** torch.cat: batched pairs agree on all but the first axis of both factors; matrices
      have one A between them and so agree on their rank. */
  lemma CatIsTakenIff(ls: seq<Lora>)
    requires Joinable(ls)
    ensures CatPair(ls).Some?
            <==> && (forall i :: 0 <= i < |ls| ==> ls[i].B.shape[1..] == ls[0].B.shape[1..])
                 && if |ls[0].B.shape| > 2 then forall i :: 0 <= i < |ls| ==> ls[i].A.shape[1..] == ls[0].A.shape[1..]
                    else forall i :: 0 <= i < |ls| ==> Same(ls[0].A, ls[i].A)
  {
    hide Cat, Same;
    assert forall i :: 0 <= i < |ls| ==> Valid(ls[i]);
    assert forall i :: 0 <= i < |ls| ==> As(ls)[i] == ls[i].A && Bs(ls)[i] == ls[i].B;
  }

  /** torch.stack: the factors have the same shapes. */
  lemma StackIsTakenIff(ls: seq<Lora>)
    requires ls != []
    ensures StackPair(ls).Some?
            <==> forall i :: 0 <= i < |ls| ==> ls[i].A.shape == ls[0].A.shape && ls[i].B.shape == ls[0].B.shape
  {
    hide Stack;
    assert forall i :: 0 <= i < |ls| ==> As(ls)[i] == ls[i].A && Bs(ls)[i] == ls[i].B;
  }

  lemma {:induction false} KnownIsProd(dims: seq<int>, known: Shape)
    requires |known| == |dims| && forall k :: 0 <= k < |dims| ==> known[k] == if dims[k] == -1 then 1 else dims[k]
    ensures KnownProd(dims) == Prod(known)
  {
    if dims != [] {
      KnownIsProd(dims[..|dims| - 1], known[..|dims| - 1]);
    }
  }

  /** The dimensions of a reshape: those given, and for -1 what the others leave of the
      elements, which they must divide. */
  lemma ShapeIsTakenIff(elems: nat, dims: seq<int>, known: Shape)
    requires |known| == |dims| && forall k :: 0 <= k < |dims| ==> known[k] == if dims[k] == -1 then 1 else dims[k]
    ensures var shape := ExpandShape(elems, dims);
            && (shape.Some? <==> -1 in dims ==> Prod(known) > 0 && elems % Prod(known) == 0)
            && (shape.Some? ==>
                  && |shape.value| == |dims|
                  && forall k :: 0 <= k < |dims| ==>
                       shape.value[k] == if dims[k] == -1 then elems / Prod(known) else known[k])
  {
    hide KnownProd, Prod;
    KnownIsProd(dims, known);
  }

  /** A negative dimension other than -1 is refused. */
  lemma NegativeIsRefused(elems: nat, dims: seq<int>, k: nat)
    requires k < |dims| && dims[k] < -1
    ensures ExpandShape(elems, dims) == None
  {
    hide KnownProd;
  }
}
