/** Permuting, transposing and scaling factored tensors
    (convert_lora_to_gguf.py, lines 168-188 and 211-219). */
module LoraAxes {
  import opened Wrappers
  import opened Tensors
  import opened LoraTensor
  import opened LoraOps

  // ----- permute and transpose -----

  /** Axes given as Python integers, counted from the end when negative. */
  function NormDims(d: nat, dims: seq<int>): Option<seq<nat>>
  {
    if |dims| != d || exists k :: 0 <= k < d && !(0 <= dims[k] + d && dims[k] < d) then None
    else Some(seq(d, k requires 0 <= k < d => if dims[k] < 0 then dims[k] + d else dims[k]))
  }

  /** l.permute(dims): the rows' axis may move, the columns' axis may not, except that a
      matrix can be transposed. */
  function PermutePair(l: Lora, dims: seq<int>): Option<Lora>
    requires Constructible(l.A, l.B)
  {
    var d := |l.B.shape|;
    var p := NormDims(d, dims);
    if p.None? || !IsPerm(p.value) then None
    else if p.value[d - 1] == d - 1 then
      if exists t :: 0 <= t < d - 2 && l.A.shape[t] != 1 then None
      else Some(Lora(l.A, Permuted(l.B, p.value)))
    else if d == 2 then Some(Lora(Permuted(l.B, p.value), Permuted(l.A, p.value)))
    else None
  }

  lemma FixedLast(p: seq<nat>)
    requires IsPerm(p) && p != [] && p[|p| - 1] == |p| - 1
    ensures forall j :: 0 <= j < |p| ==> j in p
    ensures Where(p, |p| - 1) == |p| - 1
    ensures forall j :: 0 <= j < |p| - 1 ==> Where(p, j) < |p| - 1 && p[j] < |p| - 1
  {
    hide Where;
    var n := |p| - 1;
    assert p[Where(p, n)] == n;
    forall j | 0 <= j < n
      ensures Where(p, j) < n && p[j] < n
    {
      assert p[Where(p, j)] == j && p[j] != p[n];
    }
  }

  /** With the last axis fixed, the last coordinate stays and the others permute. */
  lemma UnpermuteLast(p: seq<nat>, y: Index, k: nat, k': nat)
    requires IsPerm(p) && p != [] && p[|p| - 1] == |p| - 1 && |y| == |p| - 1
    ensures var n := |p| - 1;
            && Unpermute(p, y + [k])[..n] == Unpermute(p, y + [k'])[..n]
            && Unpermute(p, y + [k]) == Unpermute(p, y + [k'])[..n] + [k]
  {
    hide IsPerm, Where;
    FixedLast(p);
    var n := |p| - 1;
    var u, u' := Unpermute(p, y + [k]), Unpermute(p, y + [k']);
    forall j | 0 <= j < n
      ensures u[j] == u'[j]
    {
      assert (y + [k])[Where(p, j)] == y[Where(p, j)] == (y + [k'])[Where(p, j)];
    }
  }

  lemma PermShapeLast(lead: Shape, m: nat, p: seq<nat>, n: nat)
    requires IsPerm(p) && p != [] && p[|p| - 1] == |p| - 1 && |lead| == |p| - 1
    ensures PermShape(lead + [m], p)[..|p| - 1] == PermShape(lead + [n], p)[..|p| - 1]
    ensures PermShape(lead + [m], p)[|p| - 1] == m
  {
    hide IsPerm, Where;
    FixedLast(p);
    var s, s' := PermShape(lead + [m], p), PermShape(lead + [n], p);
    forall k | 0 <= k < |p| - 1
      ensures s[k] == s'[k]
    {
      assert p[k] < |p| - 1 && s[k] == lead[p[k]] == s'[k];
    }
  }

  lemma PermuteRowsPoint(l: Lora, p: seq<nat>, x: Index, i: nat, j: nat)
    requires Constructible(l.A, l.B) && IsPerm(p) && |p| == |l.B.shape| && p[|p| - 1] == |p| - 1
    requires forall t :: 0 <= t < |p| - 2 ==> l.A.shape[t] == 1
    requires InShape(PermShape(DenseShape(l), p), x + [i, j])
    requires Constructible(l.A, Permuted(l.B, p))
    ensures Dot(Lora(l.A, Permuted(l.B, p)), x, i, j, l.Rank()) == Permuted(Dense(l), p).at(x + [i, j])
  {
    var x', i' := UnpermutedRow(l, p, x, i, j);
    hide IsPerm, PermShape, Dot, Term, Permuted, Unpermute, InShape, DenseShape, Dense;
    DenseHasShape(l);
    PermutedAt(Dense(l), p, x + [i, j]);
    forall k: nat | k < l.Rank()
      ensures Term(Lora(l.A, Permuted(l.B, p)), x, i, j, k) == Term(l, x', i', j, k)
    {
      PermuteRowsTerm(l, p, x, i, j, k, x', i');
    }
    DotSame(Lora(l.A, Permuted(l.B, p)), x, i, j, l, x', i', j, l.Rank());
    DenseAtPoint(l, x', i', j);
  }

  lemma DenseHasShape(l: Lora)
    requires Constructible(l.A, l.B)
    ensures Dense(l).shape == DenseShape(l) && |DenseShape(l)| == |l.B.shape|
  {
  }

  /** Where the permuted element comes from: its column is unchanged. */
  lemma UnpermutedRow(l: Lora, p: seq<nat>, x: Index, i: nat, j: nat) returns (x': Index, i': nat)
    requires Constructible(l.A, l.B) && IsPerm(p) && |p| == |l.B.shape| && p[|p| - 1] == |p| - 1
    requires InShape(PermShape(DenseShape(l), p), x + [i, j])
    ensures |x| == |x'| == |p| - 2
    ensures x + [i] + [j] == x + [i, j] && Unpermute(p, x + [i, j]) == x' + [i', j]
    ensures InShape(DenseShape(l), x' + [i', j])
  {
    hide IsPerm, PermShape, Unpermute, InShape;
    InShapeLength(PermShape(DenseShape(l), p), x + [i, j]);
    var y := x + [i];
    assert x + [i, j] == y + [j];
    UnpermuteInShape(DenseShape(l), p, y + [j]);
    UnpermuteLast(p, y, j, j);
    var u := Unpermute(p, y + [j]);
    InShapeLength(DenseShape(l), u);
    x', i' := u[..|p| - 2], u[|p| - 2];
    assert u == x' + [i', j];
  }

  lemma PermuteRowsTerm(l: Lora, p: seq<nat>, x: Index, i: nat, j: nat, k: nat, x': Index, i': nat)
    requires Constructible(l.A, l.B) && IsPerm(p) && |p| == |l.B.shape| && p[|p| - 1] == |p| - 1
    requires forall t :: 0 <= t < |p| - 2 ==> l.A.shape[t] == 1
    requires InShape(PermShape(DenseShape(l), p), x + [i, j]) && k < l.Rank() && |x| == |p| - 2 == |x'|
    requires Constructible(l.A, Permuted(l.B, p))
    requires Unpermute(p, x + [i] + [j]) == x' + [i', j]
    ensures Term(Lora(l.A, Permuted(l.B, p)), x, i, j, k) == Term(l, x', i', j, k)
  {
    hide IsPerm, PermShape, Permuted, Unpermute, InShape, DenseShape, Spread;
    var y := x + [i];
    UnpermuteLast(p, y, k, j);
    UnpermutedEnd(p, y, x', i', j, k);
    SpreadOverOnes(l.LeadA(), x);
    SpreadOverOnes(l.LeadA(), x');
    assert x + [i, k] == y + [k] && x + [i, j] == y + [j];
    PermutedRowInShape(l, p, y, j, k);
    PermutedAt(l.B, p, y + [k]);
  }

  lemma UnpermutedEnd(p: seq<nat>, y: Index, x': Index, i': nat, j: nat, k: nat)
    requires IsPerm(p) && p != [] && |y| == |p| - 1 && |x'| == |p| - 2
    requires Unpermute(p, y + [j]) == x' + [i', j]
    requires Unpermute(p, y + [k]) == Unpermute(p, y + [j])[..|p| - 1] + [k]
    ensures Unpermute(p, y + [k]) == x' + [i', k]
  {
    hide IsPerm, Unpermute;
    assert (x' + [i', j])[..|p| - 1] == x' + [i'];
  }

  /** Within the permuted rows any rank position may stand for the column. */
  lemma PermutedRowInShape(l: Lora, p: seq<nat>, y: Index, j: nat, k: nat)
    requires Constructible(l.A, l.B) && IsPerm(p) && |p| == |l.B.shape| && p[|p| - 1] == |p| - 1 && |y| == |p| - 1
    requires InShape(PermShape(DenseShape(l), p), y + [j]) && k < l.Rank()
    ensures InShape(PermShape(l.B.shape, p), y + [k])
  {
    hide IsPerm, PermShape;
    var d, r := |p|, l.Rank();
    var bl := l.B.shape[..d - 1];
    assert l.B.shape == bl + [r] && DenseShape(l) == bl + [l.Cols()];
    PermShapeLast(bl, r, p, l.Cols());
    PermShapeLast(bl, l.Cols(), p, r);
    var s, s' := PermShape(bl + [r], p), PermShape(bl + [l.Cols()], p);
    forall t | 0 <= t < d
      ensures (y + [k])[t] < s[t]
    {
      if t < d - 1 {
        assert s[t] == s[..d - 1][t] && s'[t] == s'[..d - 1][t];
        assert (y + [j])[t] < s'[t];
      }
    }
  }

  lemma SwapIsTranspose(p: seq<nat>, i: nat, j: nat)
    requires IsPerm(p) && |p| == 2 && p[1] != 1
    ensures p == [1, 0] && Unpermute(p, [i, j]) == [j, i]
  {
    assert p[0] == 1 && p[1] == 0;
    assert Where(p, 0) == 1 && Where(p, 1) == 0;
  }

  lemma TransposePoint(l: Lora, p: seq<nat>, i: nat, j: nat)
    requires Constructible(l.A, l.B) && IsPerm(p) && |p| == |l.B.shape| == 2 && p[1] != 1
    requires i < l.Cols() && j < l.Rows()
    requires Constructible(Permuted(l.B, p), Permuted(l.A, p))
    ensures Dot(Lora(Permuted(l.B, p), Permuted(l.A, p)), [], i, j, l.Rank()) == Dot(l, [], j, i, l.Rank())
  {
    hide IsPerm;
    var l' := Lora(Permuted(l.B, p), Permuted(l.A, p));
    SwapIsTranspose(p, i, j);
    forall k: nat | k < l.Rank()
      ensures Term(l', [], i, j, k) == Term(l, [], j, i, k)
    {
      SwapIsTranspose(p, i, k);
      SwapIsTranspose(p, k, j);
      assert [] + [i, k] == [i, k] && [] + [k, j] == [k, j] && [] + [j, k] == [j, k] && [] + [k, i] == [k, i];
      assert Spread([], []) == [];
      assert l'.B.at([i, k]) == l.A.at([k, i]) && l'.A.at([k, j]) == l.B.at([j, k]);
    }
    DotSame(l', [], i, j, l, [], j, i, l.Rank());
  }

  /** Permuting the factors is permuting the axes of the dense tensor. */
  lemma PermuteCommutes(l: Lora, dims: seq<int>)
    requires Valid(l) && PermutePair(l, dims).Some?
    ensures var l' := PermutePair(l, dims).value;
            var p := NormDims(|l.B.shape|, dims).value;
            IsPerm(p) && |p| == |l.B.shape| && StandsFor(l', Permuted(Dense(l), p))
  {
    hide IsPerm, Dot, NormDims;
    var d := |l.B.shape|;
    var p, l' := NormDims(d, dims).value, PermutePair(l, dims).value;
    assert |p| == d by { NormLength(d, dims); }
    if p[d - 1] == d - 1 {
      PermuteRows(l, p);
    } else {
      Transpose(l, p);
    }
  }

  lemma NormLength(d: nat, dims: seq<int>)
    requires NormDims(d, dims).Some?
    ensures |NormDims(d, dims).value| == d
  {
  }

  lemma PermuteRows(l: Lora, p: seq<nat>)
    requires Constructible(l.A, l.B) && IsPerm(p) && |p| == |l.B.shape| && p[|p| - 1] == |p| - 1
    requires forall t :: 0 <= t < |p| - 2 ==> l.A.shape[t] == 1
    ensures var l' := Lora(l.A, Permuted(l.B, p)); StandsFor(l', Permuted(Dense(l), p))
  {
    hide IsPerm, Dot;
    var l', d, r, n := Lora(l.A, Permuted(l.B, p)), |p|, l.Rank(), l.Cols();
    var bl := l.B.shape[..d - 1];
    assert l.B.shape == bl + [r] && DenseShape(l) == bl + [n];
    PermShapeLast(bl, r, p, n);
    PermShapeLast(bl, n, p, r);
    assert DenseShape(l') == PermShape(DenseShape(l), p);
    forall ix | InShape(DenseShape(l'), ix)
      ensures Dense(l').at(ix) == Permuted(Dense(l), p).at(ix)
    {
      var x, i, j := ix[..d - 2], ix[d - 2], ix[d - 1];
      assert ix == x + [i, j];
      DenseAtPoint(l', x, i, j);
      PermuteRowsPoint(l, p, x, i, j);
    }
  }

  lemma Transpose(l: Lora, p: seq<nat>)
    requires Constructible(l.A, l.B) && IsPerm(p) && |p| == |l.B.shape| == 2 && p[1] != 1
    ensures var l' := Lora(Permuted(l.B, p), Permuted(l.A, p)); StandsFor(l', Permuted(Dense(l), p))
  {
    hide Dot;
    var l' := Lora(Permuted(l.B, p), Permuted(l.A, p));
    SwapIsTranspose(p, 0, 0);
    hide IsPerm;
    assert DenseShape(l) == [l.Rows(), l.Cols()] && DenseShape(l') == [l.Cols(), l.Rows()];
    assert PermShape(DenseShape(l), p) == [l.Cols(), l.Rows()];
    forall ix | InShape(DenseShape(l'), ix)
      ensures Dense(l').at(ix) == Permuted(Dense(l), p).at(ix)
    {
      var i, j := ix[0], ix[1];
      assert ix == [i, j] && [] + [i, j] == [i, j] && [] + [j, i] == [j, i];
      SwapIsTranspose(p, i, j);
      TransposePoint(l, p, i, j);
      DenseAtPoint(l', [], i, j);
      DenseAtPoint(l, [], j, i);
    }
  }

  // ----- scaling the output side -----

  /** l * m: scalars are tensors without axes; a tensor must not vary along the columns, and
      must not have more axes than the pair. */
  function MulPair(l: Lora, m: Tensor): Option<Lora>
    requires Constructible(l.A, l.B)
  {
    if m.shape != [] && m.shape[|m.shape| - 1] != 1 then None
    else if !CanScale(l.B.shape, m.shape) then None
    else Some(Lora(l.A, Scaled(l.B, m)))
  }

  /** Scaling may lengthen axes of length one, but neither the rank axis nor the columns. */
  lemma MulShapes(l: Lora, m: Tensor)
    requires Valid(l) && MulPair(l, m).Some?
    ensures var l' := MulPair(l, m).value;
            && Valid(l') && l'.Rank() == l.Rank() && CanScale(DenseShape(l), m.shape)
            && DenseShape(l') == ScaledShape(DenseShape(l), m.shape)
  {
    var l', d := MulPair(l, m).value, |l.B.shape|;
    assert l'.B.shape == ScaledShape(l.B.shape, m.shape);
    assert forall t :: 0 <= t < d - 1 ==> DenseShape(l)[t] == l.B.shape[t];
    assert DenseShape(l') == ScaledShape(DenseShape(l), m.shape);
  }

  lemma BroadcastIgnoresLast(m: Shape, y: Index, k: nat, j: nat)
    requires |m| <= |y| + 1 && (m != [] ==> m[|m| - 1] == 1)
    ensures BroadcastIndex(m, y + [k]) == BroadcastIndex(m, y + [j])
  {
  }

  /** The last coordinate is kept when it is in range. */
  lemma BroadcastKeepsLast(lead: Shape, n: nat, y: Index, k: nat)
    requires |lead| == |y| && k < n
    ensures BroadcastIndex(lead + [n], y + [k]) == BroadcastIndex(lead, y) + [k]
  {
  }

  /** Batch positions that scaling adds are those that A is broadcast over. */
  lemma SpreadNarrowed(l: Lora, x: Index, x': Index)
    requires Valid(l) && |x| == |x'| == |l.B.shape| - 2
    requires forall t :: 0 <= t < |x| ==> x'[t] == if l.B.shape[t] == 1 then 0 else x[t]
    ensures Spread(l.LeadA(), x) == Spread(l.LeadA(), x')
  {
  }

  /** Where a scaled element comes from. */
  ghost predicate Narrows(l: Lora, x: Index, i: nat, x': Index, i': nat)
    requires Constructible(l.A, l.B)
  {
    |x| == |x'| == |l.B.shape| - 2 && x' + [i'] == BroadcastIndex(l.B.shape[..|l.B.shape| - 1], x + [i])
  }

  lemma {:induction false} ScaledDot(l: Lora, m: Tensor, x: Index, i: nat, j: nat, n: nat, x': Index, i': nat)
    requires Valid(l) && MulPair(l, m).Some? && n <= l.Rank() && Narrows(l, x, i, x', i')
    requires InShape(ScaledShape(DenseShape(l), m.shape), x + [i, j]) && |MulPair(l, m).value.B.shape| == |l.B.shape|
    requires Constructible(l.A, MulPair(l, m).value.B) && MulPair(l, m).value.A == l.A
    ensures Dot(MulPair(l, m).value, x, i, j, n) == Dot(l, x', i', j, n) * m.at(BroadcastIndex(m.shape, x + [i, j]))
    decreases n
  {
    assert |x| == |x'| == |l.B.shape| - 2 && |m.shape| <= |l.B.shape|;
    hide *;
    MulFacts(l, m);
    DotStep(l, x', i', j, n);
    DotStep(MulPair(l, m).value, x, i, j, n);
    if n > 0 {
      ScaledDot(l, m, x, i, j, n - 1, x', i');
      var k, s := n - 1, m.at(BroadcastIndex(m.shape, x + [i, j]));
      ScaledTerm(l, m, x, i, j, k, x', i');
      Distribute(Dot(l, x', i', j, k), Term(l, x', i', j, k), s);
    }
  }

  lemma DotStep(l: Lora, x: Index, i: nat, j: nat, n: nat)
    requires Constructible(l.A, l.B) && |x| == |l.B.shape| - 2
    ensures Dot(l, x, i, j, n) == if n == 0 then 0.0 else Dot(l, x, i, j, n - 1) + Term(l, x, i, j, n - 1)
  {
    hide Term;
  }

  lemma Distribute(a: real, b: real, s: real)
    ensures a * s + b * s == (a + b) * s
  {
  }

  lemma ScaledTerm(l: Lora, m: Tensor, x: Index, i: nat, j: nat, k: nat, x': Index, i': nat)
    requires Valid(l) && MulPair(l, m).Some? && k < l.Rank() && Narrows(l, x, i, x', i')
    requires InShape(ScaledShape(DenseShape(l), m.shape), x + [i, j]) && |MulPair(l, m).value.B.shape| == |l.B.shape|
    requires Constructible(l.A, MulPair(l, m).value.B) && MulPair(l, m).value.A == l.A
    ensures Term(MulPair(l, m).value, x, i, j, k) == Term(l, x', i', j, k) * m.at(BroadcastIndex(m.shape, x + [i, j]))
  {
    var s := m.at(BroadcastIndex(m.shape, x + [i, j]));
    ScaledRow(l, m, x, i, j, k, x', i');
    NarrowedBatch(l, x, i, x', i');
    SpreadNarrowed(l, x, x');
    hide BroadcastIndex, InShape, ScaledShape, MulPair, DenseShape, Narrows, Spread;
    ScaleTerm(l.B.at(x' + [i', k]), l.A.at(Spread(l.LeadA(), x') + [k, j]), s);
  }

  lemma NarrowedBatch(l: Lora, x: Index, i: nat, x': Index, i': nat)
    requires Constructible(l.A, l.B) && Narrows(l, x, i, x', i')
    ensures forall t :: 0 <= t < |x| ==> x'[t] == if l.B.shape[t] == 1 then 0 else x[t]
  {
    var bl := l.B.shape[..|l.B.shape| - 1];
    forall t | 0 <= t < |x| ensures x'[t] == if l.B.shape[t] == 1 then 0 else x[t] {
      assert (x' + [i'])[t] == BroadcastIndex(bl, x + [i])[t];
    }
  }

  /** The scaled factor, at any rank position. */
  lemma ScaledRow(l: Lora, m: Tensor, x: Index, i: nat, j: nat, k: nat, x': Index, i': nat)
    requires Valid(l) && MulPair(l, m).Some? && k < l.Rank() && Narrows(l, x, i, x', i')
    requires InShape(ScaledShape(DenseShape(l), m.shape), x + [i, j])
    ensures MulPair(l, m).value.B.at(x + [i, k])
         == l.B.at(x' + [i', k]) * m.at(BroadcastIndex(m.shape, x + [i, j]))
  {
    hide BroadcastIndex, Scaled, InShape;
    var d := |l.B.shape|;
    var bl, y := l.B.shape[..d - 1], x + [i];
    assert x + [i, k] == y + [k] && x + [i, j] == y + [j] && x' + [i', k] == x' + [i'] + [k];
    assert l.B.shape == bl + [l.Rank()];
    BroadcastKeepsLast(bl, l.Rank(), y, k);
    BroadcastIgnoresLast(m.shape, y, k, j);
    ScaledRowInShape(l, m, y, j, k);
    ScaledAt(l.B, m, y + [k]);
  }

  lemma ScaledRowInShape(l: Lora, m: Tensor, y: Index, j: nat, k: nat)
    requires Valid(l) && MulPair(l, m).Some? && k < l.Rank() && |y| == |l.B.shape| - 1
    requires InShape(ScaledShape(DenseShape(l), m.shape), y + [j])
    ensures InShape(ScaledShape(l.B.shape, m.shape), y + [k])
  {
    var d := |l.B.shape|;
    var s, s' := ScaledShape(l.B.shape, m.shape), ScaledShape(DenseShape(l), m.shape);
    assert forall t :: 0 <= t < d - 1 ==> DenseShape(l)[t] == l.B.shape[t] && s[t] == s'[t];
    forall t | 0 <= t < d
      ensures (y + [k])[t] < s[t]
    {
      assert (y + [j])[t] < s'[t];
    }
  }

  lemma ScaleTerm(b: real, a: real, s: real)
    ensures (b * s) * a == (b * a) * s
  {
  }

  /** Scaling the factor B is scaling the dense tensor, also where it lengthens axes. */
  lemma MulCommutes(l: Lora, m: Tensor)
    requires Valid(l) && MulPair(l, m).Some?
    ensures var l' := MulPair(l, m).value;
            CanScale(DenseShape(l), m.shape) && StandsFor(l', Scaled(Dense(l), m))
  {
    var l' := MulPair(l, m).value;
    MulShapes(l, m);
    ScaledHasShape(l, m);
    hide MulPair, Scaled, Dense, ScaledShape, InShape;
    DenseHasShape(l');
    forall ix | InShape(DenseShape(l'), ix)
      ensures Dense(l').at(ix) == Scaled(Dense(l), m).at(ix)
    {
      MulPoint(l, m, ix);
    }
  }

  lemma ScaledHasShape(l: Lora, m: Tensor)
    requires Valid(l) && CanScale(DenseShape(l), m.shape)
    ensures Scaled(Dense(l), m).shape == ScaledShape(DenseShape(l), m.shape)
  {
  }

  lemma MulPoint(l: Lora, m: Tensor, ix: Index)
    requires Valid(l) && MulPair(l, m).Some? && Valid(MulPair(l, m).value) && CanScale(DenseShape(l), m.shape)
    requires DenseShape(MulPair(l, m).value) == ScaledShape(DenseShape(l), m.shape)
    requires InShape(ScaledShape(DenseShape(l), m.shape), ix)
    ensures Dense(MulPair(l, m).value).at(ix) == Scaled(Dense(l), m).at(ix)
  {
    hide *;
    MulShapes(l, m);
    MulFacts(l, m);
    var x, i, j, x', i' := MulCoordinates(l, m, ix);
    DenseHasShape(l);
    ScaledAt(Dense(l), m, ix);
    ScaledDot(l, m, x, i, j, l.Rank(), x', i');
    DenseAtPoint(MulPair(l, m).value, x, i, j);
    DenseAtPoint(l, x', i', j);
  }

  lemma MulFacts(l: Lora, m: Tensor)
    requires Valid(l) && MulPair(l, m).Some?
    ensures var l' := MulPair(l, m).value;
            && Constructible(l.A, l.B) && |l.A.shape| == |l.B.shape| >= 2 && Constructible(l'.A, l'.B)
            && l'.A == l.A && |m.shape| <= |l.B.shape| && |l'.B.shape| == |l.B.shape|
  {
    MulShapes(l, m);
  }

  lemma MulCoordinates(l: Lora, m: Tensor, ix: Index) returns (x: Index, i: nat, j: nat, x': Index, i': nat)
    requires Valid(l) && MulPair(l, m).Some? && InShape(ScaledShape(DenseShape(l), m.shape), ix)
    ensures |x| == |x'| == |l.B.shape| - 2 && ix == x + [i, j] && Narrows(l, x, i, x', i')
    ensures BroadcastIndex(DenseShape(l), ix) == x' + [i', j]
  {
    hide BroadcastIndex;
    var d := |l.B.shape|;
    assert |ix| == d;
    x, i, j := ix[..d - 2], ix[d - 2], ix[d - 1];
    assert ix == x + [i, j] && ix == (x + [i]) + [j];
    var u := BroadcastIndex(l.B.shape[..d - 1], x + [i]);
    x', i' := u[..d - 2], u[d - 2];
    assert u == x' + [i'] && x' + [i', j] == u + [j];
    MulColumn(l, m, x + [i], j);
  }

  lemma MulColumn(l: Lora, m: Tensor, y: Index, j: nat)
    requires Valid(l) && MulPair(l, m).Some? && |y| == |l.B.shape| - 1
    requires InShape(ScaledShape(DenseShape(l), m.shape), y + [j])
    ensures BroadcastIndex(DenseShape(l), y + [j]) == BroadcastIndex(l.B.shape[..|l.B.shape| - 1], y) + [j]
  {
    var d := |l.B.shape|;
    assert DenseShape(l) == l.B.shape[..d - 1] + [l.Cols()];
    assert j < l.Cols() by {
      assert (y + [j])[d - 1] < ScaledShape(DenseShape(l), m.shape)[d - 1];
    }
    BroadcastKeepsLast(l.B.shape[..d - 1], l.Cols(), y, j);
  }
}
