/** Concatenating and stacking factored tensors on the first axis
    (convert_lora_to_gguf.py, lines 234-259). */
module LoraJoin {
  import opened Sequences
  import opened Wrappers
  import opened Tensors
  import opened LoraTensor

  function As(ls: seq<Lora>): (r: seq<Tensor>)
    ensures |r| == |ls| && forall i :: 0 <= i < |ls| ==> r[i] == ls[i].A
  {
    seq(|ls|, i requires 0 <= i < |ls| => ls[i].A)
  }

  function Bs(ls: seq<Lora>): (r: seq<Tensor>)
    ensures |r| == |ls| && forall i :: 0 <= i < |ls| ==> r[i] == ls[i].B
  {
    seq(|ls|, i requires 0 <= i < |ls| => ls[i].B)
  }

  function Denses(ls: seq<Lora>): (r: seq<Tensor>)
    requires forall i :: 0 <= i < |ls| ==> Constructible(ls[i].A, ls[i].B)
    ensures |r| == |ls| && forall i :: 0 <= i < |ls| ==> r[i] == Dense(ls[i])
  {
    seq(|ls|, i requires 0 <= i < |ls| => Dense(ls[i]))
  }

  // ----- which part a position falls in -----

  function Part(lens: seq<nat>, q: nat): (c: nat)
    requires q < Total(lens)
    ensures c < |lens|
  {
    if q < lens[0] then 0 else 1 + Part(lens[1..], q - lens[0])
  }

  function Offset(lens: seq<nat>, q: nat): (o: nat)
    requires q < Total(lens)
    ensures o < lens[Part(lens, q)]
  {
    if q < lens[0] then q else Offset(lens[1..], q - lens[0])
  }

  ghost predicate HasLens(ts: seq<Tensor>, lens: seq<nat>)
  {
    |ts| == |lens| && forall i :: 0 <= i < |ts| ==> ts[i].shape != [] && ts[i].shape[0] == lens[i]
  }

  lemma {:induction false} CatLocates(ts: seq<Tensor>, lens: seq<nat>, q: nat, w: Index)
    requires HasLens(ts, lens) && q < Total(lens)
    ensures CatAt(ts, [q] + w) == ts[Part(lens, q)].at([Offset(lens, q)] + w)
    decreases |ts|
  {
    assert ([q] + w)[1..] == w;
    if q >= lens[0] {
      assert HasLens(ts[1..], lens[1..]);
      CatLocates(ts[1..], lens[1..], q - lens[0], w);
    }
  }

  lemma {:induction false} CatLenIsTotal(ts: seq<Tensor>, lens: seq<nat>)
    requires HasLens(ts, lens)
    ensures CatLen(ts) == Total(lens)
    decreases |ts|
  {
    if ts != [] {
      assert HasLens(ts[1..], lens[1..]);
      CatLenIsTotal(ts[1..], lens[1..]);
    }
  }

  lemma CatElement(ts: seq<Tensor>, lens: seq<nat>, q: nat, w: Index)
    requires CanCat(ts) && HasLens(ts, lens) && InShape(CatShape(ts), [q] + w)
    ensures q < Total(lens) && Cat(ts).at([q] + w) == ts[Part(lens, q)].at([Offset(lens, q)] + w)
  {
    CatLenIsTotal(ts, lens);
    assert ([q] + w)[0] < CatShape(ts)[0];
    CatLocates(ts, lens, q, w);
  }

  // ----- concatenation -----

  ghost predicate Joinable(ls: seq<Lora>)
  {
    ls != [] && forall i :: 0 <= i < |ls| ==> Valid(ls[i]) && |ls[i].B.shape| == |ls[0].B.shape|
  }

  /** torch.cat on the first axis: batched pairs join both factors, matrices join only B and
      need one A. */
  ghost function CatPair(ls: seq<Lora>): Option<Lora>
    requires Joinable(ls)
  {
    if !CanCat(Bs(ls)) then None
    else if |ls[0].B.shape| > 2 then
      if CanCat(As(ls)) then Some(Lora(Cat(As(ls)), Cat(Bs(ls)))) else None
    else if forall i :: 0 <= i < |ls| ==> Same(ls[0].A, ls[i].A) then Some(Lora(ls[0].A, Cat(Bs(ls))))
    else None
  }

  /** Batched pairs must have as many A's as B's; a pair on its own may broadcast its A. */
  ghost predicate CatSafe(ls: seq<Lora>)
    requires Joinable(ls)
  {
    |ls[0].B.shape| == 2 || |ls| == 1 || forall i :: 0 <= i < |ls| ==> ls[i].A.shape[0] == ls[i].B.shape[0]
  }

  function Lens(ts: seq<Tensor>): (r: seq<nat>)
    requires forall i :: 0 <= i < |ts| ==> ts[i].shape != []
    ensures HasLens(ts, r)
  {
    seq(|ts|, i requires 0 <= i < |ts| => ts[i].shape[0])
  }

  lemma DensesCanCat(ls: seq<Lora>)
    requires Joinable(ls) && CatPair(ls).Some?
    ensures CanCat(Denses(ls)) && HasLens(Denses(ls), Lens(Bs(ls)))
    ensures forall i :: 0 <= i < |ls| ==> ls[i].Rank() == ls[0].Rank() && ls[i].Cols() == ls[0].Cols()
    ensures CatShape(Denses(ls)) == [CatLen(Bs(ls))] + DenseShape(ls[0])[1..]
  {
    hide Dot;
    var ts, ds := Bs(ls), Denses(ls);
    forall i | 0 <= i < |ls|
      ensures ls[i].Rank() == ls[0].Rank() && ls[i].Cols() == ls[0].Cols()
      ensures ds[i].shape != [] && ds[i].shape[1..] == ds[0].shape[1..] && ds[i].shape[0] == ts[i].shape[0]
    {
      CatSameTail(ls, i);
    }
    CatLenIsTotal(ts, Lens(ts));
    CatLenIsTotal(ds, Lens(ts));
  }

  lemma CatSameTail(ls: seq<Lora>, i: nat)
    requires Joinable(ls) && CatPair(ls).Some? && i < |ls|
    ensures ls[i].Rank() == ls[0].Rank() && ls[i].Cols() == ls[0].Cols()
    ensures DenseShape(ls[i])[1..] == DenseShape(ls[0])[1..]
    ensures DenseShape(ls[i])[0] == ls[i].B.shape[0]
  {
    var d := |ls[0].B.shape|;
    var t, t0 := ls[i].B.shape, ls[0].B.shape;
    assert Bs(ls)[i].shape[1..] == Bs(ls)[0].shape[1..];
    assert t[1..][d - 2] == t0[1..][d - 2];
    if d > 2 {
      assert As(ls)[i].shape[1..] == As(ls)[0].shape[1..];
      assert ls[i].A.shape[1..][d - 2] == ls[0].A.shape[1..][d - 2];
    } else {
      assert Same(ls[0].A, ls[i].A);
    }
    assert DenseShape(ls[i])[1..] == t[1..][..d - 2] + [ls[i].Cols()];
    assert DenseShape(ls[0])[1..] == t0[1..][..d - 2] + [ls[0].Cols()];
  }

  lemma CatLengthsFit(ls: seq<Lora>)
    requires Joinable(ls) && CatPair(ls).Some? && CatSafe(ls) && |ls[0].B.shape| > 2
    ensures Fits(CatLen(As(ls)), CatLen(Bs(ls)))
  {
    hide Cat, CatShape, Same;
    var a, b := Lens(As(ls)), Lens(Bs(ls));
    CatLenIsTotal(As(ls), a);
    CatLenIsTotal(Bs(ls), b);
    if |ls| == 1 {
      assert a[1..] == [] && b[1..] == [] && Valid(ls[0]);
      assert Total(a) == a[0] && Total(b) == b[0];
    } else {
      assert a == b;
    }
  }

  lemma CatFactorShapes(ls: seq<Lora>)
    requires Joinable(ls) && CatPair(ls).Some?
    ensures CatPair(ls).value.B.shape == [CatLen(Bs(ls))] + ls[0].B.shape[1..]
    ensures CatPair(ls).value.A.shape
         == if |ls[0].B.shape| > 2 then [CatLen(As(ls))] + ls[0].A.shape[1..] else ls[0].A.shape
  {
    hide CatLen, Same;
  }

  lemma CatFactors(ls: seq<Lora>)
    requires Joinable(ls) && CatPair(ls).Some?
    ensures CanCat(Bs(ls)) && CatPair(ls).value.B == Cat(Bs(ls)) && Cat(Bs(ls)).shape == CatShape(Bs(ls))
    ensures |ls[0].B.shape| > 2 ==>
      CanCat(As(ls)) && CatPair(ls).value.A == Cat(As(ls)) && Cat(As(ls)).shape == CatShape(As(ls))
    ensures |ls[0].B.shape| == 2 ==>
      CatPair(ls).value.A == ls[0].A && forall i :: 0 <= i < |ls| ==> Same(ls[0].A, ls[i].A)
  {
    hide CatLen, Same;
  }

  lemma CatShapes(ls: seq<Lora>)
    requires Joinable(ls) && CatPair(ls).Some? && CatSafe(ls)
    ensures var l' := CatPair(ls).value;
            && Valid(l') && l'.Rank() == ls[0].Rank()
            && DenseShape(l') == [CatLen(Bs(ls))] + DenseShape(ls[0])[1..]
  {
    var l, l', d := ls[0], CatPair(ls).value, |ls[0].B.shape|;
    assert Valid(l);
    CatFactorShapes(ls);
    if d > 2 {
      CatLengthsFit(ls);
    }
    hide CatPair, CatLen, Same, Joinable, CatSafe;
    JoinedShape(l, l', CatLen(As(ls)), CatLen(Bs(ls)));
  }

  lemma JoinedShape(l: Lora, l': Lora, m: nat, n: nat)
    requires Valid(l) && l'.B.shape == [n] + l.B.shape[1..]
    requires l'.A.shape == if |l.B.shape| > 2 then [m] + l.A.shape[1..] else l.A.shape
    requires |l.B.shape| > 2 ==> Fits(m, n)
    ensures Valid(l') && l'.Rank() == l.Rank() && DenseShape(l') == [n] + DenseShape(l)[1..]
  {
    var d := |l.B.shape|;
    assert forall t :: 1 <= t < d ==> l'.B.shape[t] == l.B.shape[t] && l'.A.shape[t] == l.A.shape[t];
  }

  /** A term of a batched concatenation is a term of the pair that the position falls in. */
  lemma CatTerm(ls: seq<Lora>, q: nat, x: Index, i: nat, j: nat, k: nat)
    requires Joinable(ls) && CatPair(ls).Some? && CatSafe(ls) && |ls[0].B.shape| == |x| + 3
    requires Valid(CatPair(ls).value) && DenseShape(CatPair(ls).value) == [CatLen(Bs(ls))] + DenseShape(ls[0])[1..]
    requires InShape(DenseShape(CatPair(ls).value), [q] + x + [i, j]) && k < ls[0].Rank()
    ensures var lens := Lens(Bs(ls));
            && q < Total(lens)
            && Term(CatPair(ls).value, [q] + x, i, j, k) == Term(ls[Part(lens, q)], [Offset(lens, q)] + x, i, j, k)
  {
    hide InShape, Total, Part, Offset, CatPair, Cat, CatShape, CatLen, Spread, CatSafe;
    var l', lens := CatPair(ls).value, Lens(Bs(ls));
    CatFactors(ls);
    Split(l');
    var lead := l'.LeadB();
    InShapeAppend(lead, [l'.Rows(), l'.Cols()], [q] + x, [i, j]);
    PairInShape(l'.Rows(), l'.Cols(), i, j);
    CatSameTail(ls, 0);
    assert l'.Rank() == ls[0].Rank() by { CatShapes(ls); }
    PairInShape(l'.Rows(), l'.Rank(), i, k);
    InShapeAppend(lead, [l'.Rows(), l'.Rank()], [q] + x, [i, k]);
    assert [q] + x + [i, k] == [q] + (x + [i, k]);
    CatElement(Bs(ls), lens, q, x + [i, k]);
    var c, o := Part(lens, q), Offset(lens, q);
    assert [o] + x + [i, k] == [o] + (x + [i, k]);
    CatSpread(ls, q, x, c, o);
    CatElementA(ls, q, x, k, j, c, o);
  }

  lemma CatSpread(ls: seq<Lora>, q: nat, x: Index, c: nat, o: nat)
    requires Joinable(ls) && CatPair(ls).Some? && CatSafe(ls) && |ls[0].B.shape| == |x| + 3
    requires q < Total(Lens(Bs(ls))) && c == Part(Lens(Bs(ls)), q) && o == Offset(Lens(Bs(ls)), q)
    requires Valid(CatPair(ls).value)
    ensures var la, lens := CatPair(ls).value.LeadA(), Lens(As(ls));
            var s := Spread(la, [q] + x);
            && s[0] < Total(lens) && Part(lens, s[0]) == c
            && Spread(ls[c].LeadA(), [o] + x) == [Offset(lens, s[0])] + s[1..]
  {
    hide Total, Part, Offset, CatLen, CatSafe, Same, Cat;
    CatFactorShapes(ls);
    var l' := CatPair(ls).value;
    var la, lens := l'.LeadA(), Lens(As(ls));
    var s := Spread(la, [q] + x);
    CatSpreadTail(ls, q, x, c, o);
    CatLenIsTotal(As(ls), lens);
    assert Valid(ls[c]);
    hide CatPair;
    CatSpreadHead(ls, q, c, o);
    var s' := Spread(ls[c].LeadA(), [o] + x);
    assert s' == [s'[0]] + s'[1..];
  }

  lemma CatSpreadHead(ls: seq<Lora>, q: nat, c: nat, o: nat)
    requires Joinable(ls) && CatSafe(ls) && |ls[0].B.shape| > 2
    requires q < Total(Lens(Bs(ls))) && c == Part(Lens(Bs(ls)), q) && o == Offset(Lens(Bs(ls)), q)
    ensures var lens := Lens(As(ls));
            var q' := if Total(lens) == 1 then 0 else q;
            && q' < Total(lens) && Part(lens, q') == c
            && Offset(lens, q') == if ls[c].A.shape[0] == 1 then 0 else o
  {
    var lens, lensB := Lens(As(ls)), Lens(Bs(ls));
    assert Valid(ls[c]);
    if |ls| == 1 {
      assert lens[1..] == [] && lensB[1..] == [];
      assert Total(lens) == lens[0] && Total(lensB) == lensB[0];
    } else {
      assert lens == lensB;
      assert o < lensB[c] == ls[c].A.shape[0];
    }
  }

  lemma CatSpreadTail(ls: seq<Lora>, q: nat, x: Index, c: nat, o: nat)
    requires Joinable(ls) && CatPair(ls).Some? && |ls[0].B.shape| == |x| + 3 && c < |ls|
    requires Constructible(CatPair(ls).value.A, CatPair(ls).value.B) && |CatPair(ls).value.B.shape| == |x| + 3
    ensures Spread(ls[c].LeadA(), [o] + x)[1..] == Spread(CatPair(ls).value.LeadA(), [q] + x)[1..]
  {
    var l' := CatPair(ls).value;
    CatFactorShapes(ls);
    assert As(ls)[c].shape[1..] == As(ls)[0].shape[1..];
    hide CatPair, Same, Cat;
    forall t | 1 <= t < |x| + 1
      ensures ls[c].LeadA()[t] == l'.LeadA()[t]
    {
      assert ls[c].A.shape[t] == ls[c].A.shape[1..][t - 1] && l'.A.shape[t] == ls[0].A.shape[1..][t - 1];
    }
  }

  lemma CatElementA(ls: seq<Lora>, q: nat, x: Index, k: nat, j: nat, c: nat, o: nat)
    requires Joinable(ls) && CatPair(ls).Some? && CatSafe(ls) && |ls[0].B.shape| == |x| + 3
    requires q < Total(Lens(Bs(ls))) && c == Part(Lens(Bs(ls)), q) && o == Offset(Lens(Bs(ls)), q)
    requires Valid(CatPair(ls).value) && InShape(CatPair(ls).value.LeadB(), [q] + x)
    requires k < CatPair(ls).value.Rank() && j < CatPair(ls).value.Cols()
    ensures var l' := CatPair(ls).value;
            l'.A.at(Spread(l'.LeadA(), [q] + x) + [k, j]) == ls[c].A.at(Spread(ls[c].LeadA(), [o] + x) + [k, j])
  {
    hide InShape, Total, Part, Offset, CatLen, CatPair, Cat, CatShape, Spread, CatSafe;
    var l', lens := CatPair(ls).value, Lens(As(ls));
    Split(l');
    CatFactorShapes(ls);
    CatFactors(ls);
    CatSpread(ls, q, x, c, o);
    var s := Spread(l'.LeadA(), [q] + x);
    SpreadFits(l', [q] + x);
    PairInShape(l'.Rank(), l'.Cols(), k, j);
    InShapeAppend(l'.LeadA(), [l'.Rank(), l'.Cols()], s, [k, j]);
    Regroup(s, [k, j], Offset(lens, s[0]));
    CatElement(As(ls), lens, s[0], s[1..] + [k, j]);
  }

  lemma Regroup(s: Index, w: Index, o: nat)
    requires s != []
    ensures s + w == [s[0]] + (s[1..] + w) && [o] + s[1..] + w == [o] + (s[1..] + w)
  {
  }

  lemma SpreadFits(l: Lora, x: Index)
    requires Valid(l) && InShape(l.LeadB(), x)
    ensures InShape(l.LeadA(), Spread(l.LeadA(), x))
  {
  }

  lemma CatBatchPoint(ls: seq<Lora>, ix: Index)
    requires Joinable(ls) && CatPair(ls).Some? && CatSafe(ls) && |ls[0].B.shape| > 2
    requires Valid(CatPair(ls).value) && DenseShape(CatPair(ls).value) == [CatLen(Bs(ls))] + DenseShape(ls[0])[1..]
    requires InShape(DenseShape(CatPair(ls).value), ix) && CanCat(Denses(ls))
    ensures Dense(CatPair(ls).value).at(ix) == Cat(Denses(ls)).at(ix)
  {
    hide Total, Part, Offset, Dot, Term, CatLen, CatPair, Same, Dense, Cat, InShape;
    InShapeLength(DenseShape(CatPair(ls).value), ix);
    var d, lens := |ix|, Lens(Bs(ls));
    DensesCanCat(ls);
    var q, x, i, j := ix[0], ix[1..d - 2], ix[d - 2], ix[d - 1];
    assert ix == [q] + x + [i, j] && ix == [q] + (x + [i, j]) && ix[1..] == x + [i, j];
    CatElement(Denses(ls), lens, q, x + [i, j]);
    var c, o := Part(lens, q), Offset(lens, q);
    CatPartInShape(ls, ix, c, o);
    assert [o] + x + [i, j] == [o] + (x + [i, j]);
    CatDense(ls, q, x, i, j, c, o);
  }

  /** The dense elements of the joined pair and of the part it comes from. */
  lemma CatDense(ls: seq<Lora>, q: nat, x: Index, i: nat, j: nat, c: nat, o: nat)
    requires Joinable(ls) && CatPair(ls).Some? && CatSafe(ls) && |ls[0].B.shape| == |x| + 3
    requires Valid(CatPair(ls).value) && DenseShape(CatPair(ls).value) == [CatLen(Bs(ls))] + DenseShape(ls[0])[1..]
    requires InShape(DenseShape(CatPair(ls).value), [q] + x + [i, j])
    requires q < Total(Lens(Bs(ls))) && c == Part(Lens(Bs(ls)), q) && o == Offset(Lens(Bs(ls)), q)
    requires InShape(DenseShape(ls[c]), [o] + x + [i, j])
    ensures Dense(CatPair(ls).value).at([q] + x + [i, j]) == Dense(ls[c]).at([o] + x + [i, j])
  {
    hide Total, Part, Offset, Dot, Term, CatLen, CatPair, Same, Dense, InShape;
    var l', r := CatPair(ls).value, ls[0].Rank();
    CatShapes(ls);
    CatSameTail(ls, c);
    forall k: nat | k < r
      ensures Term(l', [q] + x, i, j, k) == Term(ls[c], [o] + x, i, j, k)
    {
      CatTerm(ls, q, x, i, j, k);
    }
    DotSame(l', [q] + x, i, j, ls[c], [o] + x, i, j, r);
    DenseAtPoint(l', [q] + x, i, j);
    DenseAtPoint(ls[c], [o] + x, i, j);
  }

  lemma CatPartInShape(ls: seq<Lora>, ix: Index, c: nat, o: nat)
    requires Joinable(ls) && CatPair(ls).Some? && c < |ls| && o < ls[c].B.shape[0]
    requires InShape([CatLen(Bs(ls))] + DenseShape(ls[0])[1..], ix)
    ensures InShape(DenseShape(ls[c]), [o] + ix[1..])
  {
    hide CatLen, CatPair, Same;
    CatSameTail(ls, c);
    var s, s0 := DenseShape(ls[c]), [CatLen(Bs(ls))] + DenseShape(ls[0])[1..];
    forall t | 0 <= t < |s|
      ensures ([o] + ix[1..])[t] < s[t]
    {
      if t > 0 {
        assert s[t] == s[1..][t - 1] && s0[t] == DenseShape(ls[0])[1..][t - 1];
        assert ix[t] < s0[t];
      }
    }
  }

  lemma CatMatrixPoint(ls: seq<Lora>, ix: Index)
    requires Joinable(ls) && CatPair(ls).Some? && |ls[0].B.shape| == 2
    requires Valid(CatPair(ls).value) && DenseShape(CatPair(ls).value) == [CatLen(Bs(ls))] + DenseShape(ls[0])[1..]
    requires InShape(DenseShape(CatPair(ls).value), ix) && CanCat(Denses(ls))
    ensures Dense(CatPair(ls).value).at(ix) == Cat(Denses(ls)).at(ix)
  {
    hide Total, Part, Offset, Dot, Term, CatLen, CatPair, Same, Dense;
    var lens := Lens(Bs(ls));
    DensesCanCat(ls);
    var i, j := ix[0], ix[1];
    assert ix == [i] + [j] && ix == [] + [i, j] && ix[1..] == [j];
    CatElement(Denses(ls), lens, i, [j]);
    var c, o := Part(lens, i), Offset(lens, i);
    CatPartInShape(ls, ix, c, o);
    assert [o] + [j] == [] + [o, j];
    CatMatrixDense(ls, i, j, c, o);
  }

  lemma CatMatrixDense(ls: seq<Lora>, i: nat, j: nat, c: nat, o: nat)
    requires Joinable(ls) && CatPair(ls).Some? && |ls[0].B.shape| == 2
    requires Valid(CatPair(ls).value) && DenseShape(CatPair(ls).value) == [CatLen(Bs(ls))] + DenseShape(ls[0])[1..]
    requires InShape(DenseShape(CatPair(ls).value), [] + [i, j])
    requires i < Total(Lens(Bs(ls))) && c == Part(Lens(Bs(ls)), i) && o == Offset(Lens(Bs(ls)), i)
    requires InShape(DenseShape(ls[c]), [] + [o, j])
    ensures Dense(CatPair(ls).value).at([] + [i, j]) == Dense(ls[c]).at([] + [o, j])
  {
    hide Total, Part, Offset, Dot, Term, CatLen, CatPair, Same, Dense;
    var l', r := CatPair(ls).value, ls[0].Rank();
    CatShapes(ls);
    CatSameTail(ls, c);
    assert j < ls[0].Cols() by {
      assert ([] + [o, j])[1] < DenseShape(ls[c])[1];
    }
    forall k: nat | k < r
      ensures Term(l', [], i, j, k) == Term(ls[c], [], o, j, k)
    {
      CatMatrixTerm(ls, i, j, k, c, o);
    }
    hide InShape;
    DotSame(l', [], i, j, ls[c], [], o, j, r);
    DenseAtPoint(l', [], i, j);
    DenseAtPoint(ls[c], [], o, j);
  }

  lemma CatMatrixTerm(ls: seq<Lora>, i: nat, j: nat, k: nat, c: nat, o: nat)
    requires Joinable(ls) && CatPair(ls).Some? && |ls[0].B.shape| == 2
    requires i < Total(Lens(Bs(ls))) && c == Part(Lens(Bs(ls)), i) && o == Offset(Lens(Bs(ls)), i)
    requires Constructible(CatPair(ls).value.A, CatPair(ls).value.B) && |CatPair(ls).value.B.shape| == 2
    requires k < ls[0].Rank() && j < ls[0].Cols()
    ensures Term(CatPair(ls).value, [], i, j, k) == Term(ls[c], [], o, j, k)
  {
    hide Total, Part, Offset, CatLen, CatPair, Cat, CatShape, Same;
    assert Spread([], []) == [] && [] + [i, k] == [i] + [k] && [] + [o, k] == [o] + [k] && [] + [k, j] == [k, j];
    CatFactors(ls);
    CatMatrixRow(ls, i, k, c, o);
    SharedColumns(ls, j, k, c);
    hide Spread;
  }

  lemma CatMatrixRow(ls: seq<Lora>, i: nat, k: nat, c: nat, o: nat)
    requires Joinable(ls) && CanCat(Bs(ls)) && |ls[0].B.shape| == 2 && k < ls[0].Rank()
    requires i < Total(Lens(Bs(ls))) && c == Part(Lens(Bs(ls)), i) && o == Offset(Lens(Bs(ls)), i)
    ensures Cat(Bs(ls)).at([i] + [k]) == ls[c].B.at([o] + [k])
  {
    hide Total, Part, Offset, CatLen, Cat;
    CatLenIsTotal(Bs(ls), Lens(Bs(ls)));
    assert ls[0].B.shape[1..] == [ls[0].Rank()];
    PairInShape(CatLen(Bs(ls)), ls[0].Rank(), i, k);
    assert [i] + [k] == [i, k] && CatShape(Bs(ls)) == [CatLen(Bs(ls)), ls[0].Rank()];
    CatElement(Bs(ls), Lens(Bs(ls)), i, [k]);
  }

  lemma SharedColumns(ls: seq<Lora>, j: nat, k: nat, c: nat)
    requires Joinable(ls) && |ls[0].B.shape| == 2 && c < |ls| && Same(ls[0].A, ls[c].A)
    requires k < ls[0].Rank() && j < ls[0].Cols()
    ensures ls[0].A.at([k, j]) == ls[c].A.at([k, j])
  {
    assert Valid(ls[0]) && ls[0].A.shape == [ls[0].Rank(), ls[0].Cols()];
    PairInShape(ls[0].Rank(), ls[0].Cols(), k, j);
    hide InShape;
  }

  /** Concatenating the factors is concatenating the dense tensors. */
  lemma CatCommutes(ls: seq<Lora>)
    requires Joinable(ls) && CatPair(ls).Some? && CatSafe(ls)
    ensures var l' := CatPair(ls).value;
            CanCat(Denses(ls)) && StandsFor(l', Cat(Denses(ls)))
  {
    hide Dot, CatLen, CatPair;
    var l' := CatPair(ls).value;
    CatShapes(ls);
    DensesCanCat(ls);
    forall ix | InShape(DenseShape(l'), ix)
      ensures Dense(l').at(ix) == Cat(Denses(ls)).at(ix)
    {
      if |ls[0].B.shape| > 2 {
        CatBatchPoint(ls, ix);
      } else {
        CatMatrixPoint(ls, ix);
      }
    }
  }

  /** The joined factors multiply if and only if the batch lengths of A, taken together, fit
      those of B. */
  lemma CatIsValidIff(ls: seq<Lora>)
    requires Joinable(ls) && CatPair(ls).Some?
    ensures Valid(CatPair(ls).value) <==> |ls[0].B.shape| == 2 || Fits(Total(Lens(As(ls))), Total(Lens(Bs(ls))))
  {
    hide CatPair, CatLen, Same, Total;
    CatFactorShapes(ls);
    CatLenIsTotal(As(ls), Lens(As(ls)));
    CatLenIsTotal(Bs(ls), Lens(Bs(ls)));
    assert Valid(ls[0]);
    var l', m, n := CatPair(ls).value, CatLen(As(ls)), CatLen(Bs(ls));
    if |ls[0].B.shape| == 2 || Fits(m, n) {
      JoinedShape(ls[0], l', m, n);
    } else {
      assert l'.A.shape[0] == m && l'.B.shape[0] == n;
    }
  }

  /** For parts that are not empty, the joined pair stands for the joined tensors if and only
      if, with several batched parts, none broadcasts its A over the joined axis. */
  lemma CatStandsIff(ls: seq<Lora>)
    requires Joinable(ls) && CatPair(ls).Some?
    requires forall i :: 0 <= i < |ls| ==> ls[i].B.shape[0] > 0
    ensures Valid(CatPair(ls).value) <==> CatSafe(ls)
    ensures CanCat(Denses(ls)) && (StandsFor(CatPair(ls).value, Cat(Denses(ls))) <==> CatSafe(ls))
  {
    hide CatPair, Cat, Same, Dense, Total;
    DensesCanCat(ls);
    CatIsValidIff(ls);
    if CatSafe(ls) {
      CatCommutes(ls);
    } else {
      assert forall i :: 0 <= i < |ls| ==> Valid(ls[i]);
      var t :| 0 <= t < |ls| && ls[t].A.shape[0] != ls[t].B.shape[0];
      FewerThan(Lens(As(ls)), Lens(Bs(ls)), t);
    }
  }

  /** Two parts that both broadcast: the joined A has two batch positions, the joined B four. */
  lemma CatLosesBatch()
    ensures var l := Lora(Filled([1, 1, 1]), Filled([2, 1, 1]));
            Joinable([l, l]) && CatPair([l, l]).Some? && !Valid(CatPair([l, l]).value)
  {
    var l := Lora(Filled([1, 1, 1]), Filled([2, 1, 1]));
    var ls := [l, l];
    TwoPartsJoin(l, l);
    hide CatPair, Cat, Dense, Same, Total;
    assert !CatSafe(ls) by { assert ls[0].A.shape[0] != ls[0].B.shape[0]; }
    CatStandsIff(ls);
  }

  /** Empty parts are another matter: here one of two empty parts broadcasts, and the joined
      pair stands for the joined, empty, tensor all the same. */
  lemma EmptyPartsMayBroadcast()
    ensures var ls := [Lora(Filled([1, 1, 1]), Filled([0, 1, 1])), Lora(Filled([0, 1, 1]), Filled([0, 1, 1]))];
            && Joinable(ls) && CatPair(ls).Some? && !CatSafe(ls)
            && CanCat(Denses(ls)) && StandsFor(CatPair(ls).value, Cat(Denses(ls)))
  {
    var a, b := Lora(Filled([1, 1, 1]), Filled([0, 1, 1])), Lora(Filled([0, 1, 1]), Filled([0, 1, 1]));
    TwoPartsJoin(a, b);
    hide CatPair, Cat, Dense, Same, Total;
    assert !CatSafe([a, b]) by { assert a.A.shape[0] != a.B.shape[0]; }
    EmptyJoin([a, b], 1);
  }

  lemma TwoPartsJoin(a: Lora, b: Lora)
    requires Valid(a) && Valid(b) && |a.B.shape| == |b.B.shape| > 2
    requires a.A.shape[1..] == b.A.shape[1..] && a.B.shape[1..] == b.B.shape[1..]
    ensures Joinable([a, b]) && CatPair([a, b]).Some?
    ensures Total(Lens(As([a, b]))) == a.A.shape[0] + b.A.shape[0]
    ensures Total(Lens(Bs([a, b]))) == a.B.shape[0] + b.B.shape[0]
  {
    var ls := [a, b];
    hide Same, Cat;
    TotalOfTwo(Lens(As(ls)));
    TotalOfTwo(Lens(Bs(ls)));
  }

  lemma TotalOfTwo(lens: seq<nat>)
    requires |lens| == 2
    ensures Total(lens) == lens[0] + lens[1]
  {
    var last := [lens[1]];
    assert lens[1..] == last && last[1..] == [];
    assert Total(last) == lens[1] + Total([]);
  }

  /** A join of parts without positions, whose A's have `m` in all. */
  lemma EmptyJoin(ls: seq<Lora>, m: nat)
    requires Joinable(ls) && CatPair(ls).Some? && |ls[0].B.shape| > 2
    requires Total(Lens(Bs(ls))) == 0 && Total(Lens(As(ls))) == m <= 1
    ensures CanCat(Denses(ls)) && StandsFor(CatPair(ls).value, Cat(Denses(ls)))
  {
    DensesCanCat(ls);
    CatIsValidIff(ls);
    hide CatPair, Total, Cat, Dense;
    CatFactorShapes(ls);
    CatLenIsTotal(Bs(ls), Lens(Bs(ls)));
    CatLenIsTotal(As(ls), Lens(As(ls)));
    assert Valid(ls[0]);
    JoinedShape(ls[0], CatPair(ls).value, CatLen(As(ls)), CatLen(Bs(ls)));
    NothingInShape(CatPair(ls).value, Cat(Denses(ls)));
  }

  lemma NothingInShape(l: Lora, t: Tensor)
    requires Constructible(l.A, l.B) && t.shape == DenseShape(l) && t.shape[0] == 0
    ensures Same(Dense(l), t)
  {
  }

  lemma {:induction false} FewerThan(a: seq<nat>, b: seq<nat>, t: nat)
    requires |a| == |b| && t < |a| && a[t] != b[t]
    requires forall i :: 0 <= i < |a| ==> 1 <= a[i] <= b[i]
    ensures |a| <= Total(a) < Total(b)
    decreases |a|
  {
    if t > 0 {
      FewerThan(a[1..], b[1..], t - 1);
    } else {
      AtMost(a[1..], b[1..]);
    }
  }

  lemma {:induction false} AtMost(a: seq<nat>, b: seq<nat>)
    requires |a| == |b| && forall i :: 0 <= i < |a| ==> 1 <= a[i] <= b[i]
    ensures |a| <= Total(a) <= Total(b)
    decreases |a|
  {
    if a != [] {
      AtMost(a[1..], b[1..]);
    }
  }

  // ----- stacking -----

  function StackPair(ls: seq<Lora>): Option<Lora>
  {
    if CanStack(As(ls)) && CanStack(Bs(ls)) then Some(Lora(Stack(As(ls)), Stack(Bs(ls)))) else None
  }

  lemma StackShapes(ls: seq<Lora>)
    requires Joinable(ls) && StackPair(ls).Some?
    ensures var l' := StackPair(ls).value;
            && Valid(l') && l'.Rank() == ls[0].Rank() && CanStack(Denses(ls))
            && l'.A.shape == [|ls|] + ls[0].A.shape && l'.B.shape == [|ls|] + ls[0].B.shape
            && DenseShape(l') == [|ls|] + DenseShape(ls[0])
  {
    hide Dot;
    var l := ls[0];
    assert Valid(l);
    forall i | 0 <= i < |ls|
      ensures DenseShape(ls[i]) == DenseShape(l)
    {
      assert As(ls)[i].shape == As(ls)[0].shape && Bs(ls)[i].shape == Bs(ls)[0].shape;
    }
    var l' := StackPair(ls).value;
    assert l'.A.shape == [|ls|] + l.A.shape && l'.B.shape == [|ls|] + l.B.shape;
    forall t | 1 <= t < |l'.B.shape| - 2
      ensures l'.A.shape[t] == 1 || l'.A.shape[t] == l'.B.shape[t]
    {
      assert l'.A.shape[t] == l.A.shape[t - 1] && l'.B.shape[t] == l.B.shape[t - 1];
    }
  }

  lemma StackTerm(ls: seq<Lora>, c: nat, x: Index, i: nat, j: nat, k: nat)
    requires Joinable(ls) && StackPair(ls).Some? && c < |ls| && |x| == |ls[0].B.shape| - 2
    requires InShape(DenseShape(ls[0]), x + [i, j]) && k < ls[0].Rank()
    requires Constructible(StackPair(ls).value.A, StackPair(ls).value.B)
    requires |StackPair(ls).value.B.shape| == |x| + 3
    ensures Term(StackPair(ls).value, [c] + x, i, j, k) == Term(ls[c], x, i, j, k)
  {
    hide InShape, Stack, Spread;
    var l, l' := ls[0], StackPair(ls).value;
    StackShapes(ls);
    assert Valid(l);
    Split(l);
    assert As(ls)[c].shape == As(ls)[0].shape && Bs(ls)[c].shape == Bs(ls)[0].shape;
    InShapeAppend(l.LeadB(), [l.Rows(), l.Cols()], x, [i, j]);
    PairInShape(l.Rows(), l.Cols(), i, j);
    PairInShape(l.Rows(), l.Rank(), i, k);
    InShapeAppend(l.LeadB(), [l.Rows(), l.Rank()], x, [i, k]);
    StackElement(Bs(ls), c, x, [i, k]);
    var s := Spread(l.LeadA(), x);
    SpreadFits(l, x);
    PairInShape(l.Rank(), l.Cols(), k, j);
    InShapeAppend(l.LeadA(), [l.Rank(), l.Cols()], s, [k, j]);
    StackElement(As(ls), c, s, [k, j]);
    StackSpread(ls, c, x, l.LeadA(), l'.LeadA());
  }

  lemma StackElement(ts: seq<Tensor>, c: nat, x: Index, y: Index)
    requires CanStack(ts) && c < |ts| && InShape(ts[0].shape, x + y)
    ensures Stack(ts).at([c] + x + y) == ts[c].at(x + y)
  {
    ConsInShape(|ts|, ts[0].shape, c, x + y);
    assert [c] + x + y == [c] + (x + y) && ([c] + (x + y))[1..] == x + y;
  }

  lemma StackSpread(ls: seq<Lora>, c: nat, x: Index, lead: Shape, lead': Shape)
    requires c < |ls| && |x| == |lead| && lead' == [|ls|] + lead
    ensures Spread(lead', [c] + x) == [c] + Spread(lead, x)
  {
    SpreadCons(lead', [c] + x);
    assert lead'[1..] == lead && ([c] + x)[1..] == x;
  }

  lemma ConsInShape(n: nat, shape: Shape, c: nat, w: Index)
    requires |w| == |shape|
    ensures InShape([n] + shape, [c] + w) <==> c < n && InShape(shape, w)
  {
    InShapeAppend([n], shape, [c], w);
    assert InShape([n], [c]) <==> c < n by {
      assert [c][0] == c && [n][0] == n;
    }
  }

  lemma StackPoint(ls: seq<Lora>, ix: Index)
    requires Joinable(ls) && StackPair(ls).Some? && CanStack(Denses(ls))
    requires Valid(StackPair(ls).value) && InShape(DenseShape(StackPair(ls).value), ix)
    ensures Dense(StackPair(ls).value).at(ix) == Stack(Denses(ls)).at(ix)
  {
    var l' := StackPair(ls).value;
    StackShapes(ls);
    assert |ix| == |DenseShape(l')|;
    hide Dot, Term, InShape;
    var d, r := |ls[0].B.shape|, ls[0].Rank();
    var c, w := ix[0], ix[1..];
    var x, i, j := w[..d - 2], w[d - 2], w[d - 1];
    assert ix == [c] + w && w == x + [i, j] && ix == ([c] + x) + [i, j];
    ConsInShape(|ls|, DenseShape(ls[0]), c, w);
    assert Denses(ls)[c].shape == Denses(ls)[0].shape;
    forall k: nat | k < r
      ensures Term(l', [c] + x, i, j, k) == Term(ls[c], x, i, j, k)
    {
      StackTerm(ls, c, x, i, j, k);
    }
    assert ls[c].Rank() == r by { assert Bs(ls)[c].shape == Bs(ls)[0].shape; }
    DotSame(l', [c] + x, i, j, ls[c], x, i, j, r);
    DenseAtPoint(l', [c] + x, i, j);
    DenseAtPoint(ls[c], x, i, j);
  }

  /** Stacking the factors is stacking the dense tensors. */
  lemma StackCommutes(ls: seq<Lora>)
    requires Joinable(ls) && StackPair(ls).Some?
    ensures var l' := StackPair(ls).value;
            CanStack(Denses(ls)) && StandsFor(l', Stack(Denses(ls)))
  {
    hide Dot;
    var l' := StackPair(ls).value;
    StackShapes(ls);
    forall ix | InShape(DenseShape(l'), ix)
      ensures Dense(l').at(ix) == Stack(Denses(ls)).at(ix)
    {
      StackPoint(ls, ix);
    }
  }
}
