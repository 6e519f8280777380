/** Products and axes by element (convert_lora_to_gguf.py, lines 39-188). */
module TensorElements {
  import opened Sequences
  import opened Wrappers
  import opened Tensors
  import opened LoraTensor
  import opened LoraEllipsis
  import opened LoraOps
  import opened LoraAxes
  import opened LoraJoin
  import opened LoraPipeline

  /** Axes and positions count from the end when negative. */
  function FromEnd(i: int, n: nat): int
  {
    if i < 0 then i + n else i
  }

  // ----- the product -----

  function Sum(xs: seq<real>): real
  {
    if xs == [] then 0.0 else Sum(xs[..|xs| - 1]) + xs[|xs| - 1]
  }

  lemma {:induction false} DotIsSum(l: Lora, x: Index, i: nat, j: nat, xs: seq<real>)
    requires Constructible(l.A, l.B) && |x| == |l.B.shape| - 2
    requires forall k :: 0 <= k < |xs| ==> xs[k] == l.B.at(x + [i, k]) * l.A.at(Spread(l.LeadA(), x) + [k, j])
    ensures Dot(l, x, i, j, |xs|) == Sum(xs)
  {
    if xs != [] {
      DotIsSum(l, x, i, j, xs[..|xs| - 1]);
    }
  }

  /** Materialising a pair is a matrix product for each batch position, with A taken from
      position zero on the axes where it has only one. */
  lemma DenseIsProduct(l: Lora, x: Index, y: Index, i: nat, j: nat, xs: seq<real>)
    requires Valid(l) && InShape(DenseShape(l), x + [i, j]) && |xs| == l.Rank() && |y| == |x| == |l.B.shape| - 2
    requires forall t :: 0 <= t < |x| ==> y[t] == if l.A.shape[t] == 1 then 0 else x[t]
    requires forall k :: 0 <= k < |xs| ==> xs[k] == l.B.at(x + [i, k]) * l.A.at(y + [k, j])
    ensures Dense(l).at(x + [i, j]) == Sum(xs)
  {
    hide Dense, DenseShape, Dot, Sum;
    assert Spread(l.LeadA(), x) == y;
    DotIsSum(l, x, i, j, xs);
    DenseAtPoint(l, x, i, j);
  }

  // ----- axes -----

  function Exchanged<T>(s: seq<T>, a: nat, b: nat): (r: seq<T>)
    requires a < |s| && b < |s|
    ensures |r| == |s| && r[a] == s[b] && r[b] == s[a]
    ensures forall k :: 0 <= k < |s| && k != a && k != b ==> r[k] == s[k]
  {
    seq(|s|, k requires 0 <= k < |s| => if k == a then s[b] else if k == b then s[a] else s[k])
  }

  /** Permuting: axis k of the result is the axis named k-th. */
  lemma PermuteElements(t: Tensor, dims: seq<int>, ix: Index, jx: Index)
    requires ApplyDense(t, Permuting(dims)).Some? && InShape(ApplyDense(t, Permuting(dims)).value.shape, ix)
    requires |jx| == |t.shape| && |dims| == |t.shape|
    requires forall k :: 0 <= k < |dims| ==> 0 <= FromEnd(dims[k], |t.shape|) < |t.shape|
    requires forall k :: 0 <= k < |dims| && k < |ix| ==> ix[k] == jx[FromEnd(dims[k], |t.shape|)]
    ensures var r := ApplyDense(t, Permuting(dims)).value;
            && |r.shape| == |dims| && r.at(ix) == t.at(jx)
            && forall k :: 0 <= k < |dims| ==> r.shape[k] == t.shape[FromEnd(dims[k], |t.shape|)]
  {
    hide IsPerm;
    var d := |t.shape|;
    var p := NormDims(d, dims).value;
    PermutedAt(t, p, ix);
    assert Unpermute(p, ix) == jx;
  }

  /** Each axis is named once, from either end. */
  lemma PermuteIsTakenIff(t: Tensor, dims: seq<int>)
    ensures var d := |t.shape|;
            ApplyDense(t, Permuting(dims)).Some?
            <==> && |dims| == d && (forall k :: 0 <= k < d ==> -d <= dims[k] < d)
                 && (forall k, m :: 0 <= k < m < d ==> FromEnd(dims[k], d) != FromEnd(dims[m], d))
  {
    hide IsPerm;
    var d := |t.shape|;
    if NormDims(d, dims).Some? {
      var p := NormDims(d, dims).value;
      PermIff(p);
      assert forall k :: 0 <= k < d ==> p[k] == FromEnd(dims[k], d);
    }
  }

  lemma PermIff(p: seq<nat>)
    requires forall k :: 0 <= k < |p| ==> p[k] < |p|
    ensures IsPerm(p) <==> forall k, m :: 0 <= k < m < |p| ==> p[k] != p[m]
  {
    if forall k, m :: 0 <= k < m < |p| ==> p[k] != p[m] {
      forall j | 0 <= j < |p|
        ensures j in p
      {
        NoneMissing(p, j);
      }
    }
  }

  function Below(d: nat): (r: set<nat>)
    ensures |r| == d && forall x: nat :: x in r <==> x < d
  {
    if d == 0 then {}
    else
      var r := Below(d - 1);
      assert d - 1 !in r;
      r + {d - 1}
  }

  function Used(p: seq<nat>): (r: set<nat>)
    requires forall k, m :: 0 <= k < m < |p| ==> p[k] != p[m]
    ensures |r| == |p| && forall x :: x in r <==> x in p
  {
    if p == [] then {}
    else
      assert p == [p[0]] + p[1..] && p[0] !in p[1..];
      {p[0]} + Used(p[1..])
  }

  lemma NoneMissing(p: seq<nat>, j: nat)
    requires j < |p| && (forall k :: 0 <= k < |p| ==> p[k] < |p|)
    requires forall k, m :: 0 <= k < m < |p| ==> p[k] != p[m]
    ensures j in p
  {
    if j !in p {
      Smaller(Used(p), Below(|p|) - {j});
    }
  }

  lemma Smaller<T>(a: set<T>, b: set<T>)
    requires a <= b
    ensures |a| <= |b|
  {
    assert b == a + (b - a);
  }

  // ----- exchanging two axes -----

  /** Python's exchange in a list of axes, and the permutation it spells. */
  lemma SwapIs(d: nat, i: int, j: int)
    ensures SwappedDims(d, i, j).Some? <==> 0 <= FromEnd(i, d) < d && 0 <= FromEnd(j, d) < d
    ensures SwappedDims(d, i, j).Some? ==>
              var a, b, dims := FromEnd(i, d), FromEnd(j, d), SwappedDims(d, i, j).value;
              && 0 <= a < d && 0 <= b < d && NormDims(d, dims).Some?
              && |NormDims(d, dims).value| == d && IsPerm(NormDims(d, dims).value)
              && forall k :: 0 <= k < d ==>
                   NormDims(d, dims).value[k] == if k == a then b else if k == b then a else k
  {
    hide IsPerm;
    if SwappedDims(d, i, j).Some? {
      PermIff(NormDims(d, SwappedDims(d, i, j).value).value);
    }
  }

  /** The dense tensor with two axes exchanged. */
  lemma SwapElements(t: Tensor, p: seq<nat>, a: nat, b: nat, ix: Index)
    requires a < |t.shape| && b < |t.shape| && |p| == |t.shape| && IsPerm(p)
    requires forall k :: 0 <= k < |p| ==> p[k] == if k == a then b else if k == b then a else k
    requires InShape(Exchanged(t.shape, a, b), ix)
    ensures Permuted(t, p).shape == Exchanged(t.shape, a, b)
    ensures Permuted(t, p).at(ix) == t.at(Exchanged(ix, a, b))
  {
    assert PermShape(t.shape, p) == Exchanged(t.shape, a, b);
    PermutedAt(t, p, ix);
    var u := Unpermute(p, ix);
    forall j | 0 <= j < |p|
      ensures u[j] == Exchanged(ix, a, b)[j]
    {
      assert p[Where(p, j)] == j;
    }
    assert u == Exchanged(ix, a, b);
  }

  lemma SwapHasShape(t: Tensor, p: seq<nat>, a: nat, b: nat)
    requires a < |t.shape| && b < |t.shape| && |p| == |t.shape| && IsPerm(p)
    requires forall k :: 0 <= k < |p| ==> p[k] == if k == a then b else if k == b then a else k
    ensures Permuted(t, p).shape == Exchanged(t.shape, a, b)
  {
    hide IsPerm;
    assert PermShape(t.shape, p) == Exchanged(t.shape, a, b);
  }

  /** Transposing a pair exchanges two axes of the tensor it stands for, and their
      coordinates; axes below zero count from the end. */
  lemma TransposedPair(l: Lora, i: int, j: int)
    requires Valid(l) && ApplyPair(l, Transposing(i, j)).Some?
    ensures var l' := ApplyPair(l, Transposing(i, j)).value;
            var d, a, b := |l.B.shape|, FromEnd(i, |l.B.shape|), FromEnd(j, |l.B.shape|);
            && 0 <= a < d && 0 <= b < d && Valid(l')
            && DenseShape(l') == Exchanged(DenseShape(l), a, b)
            && forall ix :: InShape(DenseShape(l'), ix) ==> Dense(l').at(ix) == Dense(l).at(Exchanged(ix, a, b))
  {
    hide Dense, IsPerm, Permuted, SwappedDims, NormDims, Same, InShape;
    var d := |l.B.shape|;
    var dims := SwappedDims(d, i, j).value;
    SwapIs(d, i, j);
    var a, b, p := FromEnd(i, d), FromEnd(j, d), NormDims(d, dims).value;
    PermuteCommutes(l, dims);
    DenseHasShape(l);
    var l' := PermutePair(l, dims).value;
    DenseHasShape(l');
    SwapHasShape(Dense(l), p, a, b);
    SameMeans(Dense(l'), Permuted(Dense(l), p));
    forall ix | InShape(DenseShape(l'), ix)
      ensures |ix| == d && Dense(l').at(ix) == Dense(l).at(Exchanged(ix, a, b))
    {
      InShapeLength(DenseShape(l'), ix);
      SwapElements(Dense(l), p, a, b, ix);
    }
  }

  lemma SameMeans(t: Tensor, u: Tensor)
    requires Same(t, u)
    ensures t.shape == u.shape && forall ix :: InShape(t.shape, ix) ==> t.at(ix) == u.at(ix)
  {
  }

  /** Which exchanges a pair allows: both axes exist, and the columns stay in place unless
      there are just rows and columns. */
  lemma TransposeIsTakenIff(l: Lora, i: int, j: int)
    requires Valid(l)
    ensures var d := |l.B.shape|;
            var a, b := FromEnd(i, d), FromEnd(j, d);
            ApplyPair(l, Transposing(i, j)).Some?
            <==> && 0 <= a < d && 0 <= b < d
                 && (d == 2 || (&& (a == b || (a != d - 1 && b != d - 1))
                                && forall t :: 0 <= t < d - 2 ==> l.A.shape[t] == 1))
  {
    hide IsPerm, SwappedDims, NormDims, Permuted;
    var d := |l.B.shape|;
    SwapIs(d, i, j);
  }
}
