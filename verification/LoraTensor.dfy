/** Factored low-rank tensors: every operation on the pair (A, B) commutes with
    materialising the dense product B @ A (convert_lora_to_gguf.py, lines 39-266). */
module LoraTensor {
  import opened Wrappers
  import opened Tensors

  // ----- the pair and the tensor it stands for -----

  datatype Lora = Lora(A: Tensor, B: Tensor) {
    function Rank(): nat
      requires B.shape != []
    {
      B.shape[|B.shape| - 1]
    }
    /** The leading (batch) axes of the two factors. */
    function LeadA(): Shape
      requires |A.shape| >= 2
    {
      A.shape[..|A.shape| - 2]
    }
    function LeadB(): Shape
      requires |B.shape| >= 2
    {
      B.shape[..|B.shape| - 2]
    }
    function Rows(): nat
      requires |B.shape| >= 2
    {
      B.shape[|B.shape| - 2]
    }
    function Cols(): nat
      requires A.shape != []
    {
      A.shape[|A.shape| - 1]
    }
  }

  /** What the constructor asserts. */
  predicate Constructible(A: Tensor, B: Tensor)
  {
    |A.shape| == |B.shape| >= 2 && A.shape[|A.shape| - 2] == B.shape[|B.shape| - 1]
  }

  /** The product B @ A has the shape that the pair reports: each leading axis of A has
      length one or the length of the same axis of B. */
  predicate Valid(l: Lora)
  {
    && Constructible(l.A, l.B)
    && forall t :: 0 <= t < |l.B.shape| - 2 ==> l.A.shape[t] == 1 || l.A.shape[t] == l.B.shape[t]
  }

  function DenseShape(l: Lora): Shape
    requires Constructible(l.A, l.B)
  {
    l.B.shape[..|l.B.shape| - 1] + [l.Cols()]
  }

  /** Broadcasting of a batch index over axes of length one. */
  function Spread(lead: Shape, x: Index): (r: Index)
    requires |x| == |lead|
    ensures |r| == |x| && forall t :: 0 <= t < |x| ==> r[t] == if lead[t] == 1 then 0 else x[t]
  {
    seq(|x|, t requires 0 <= t < |x| => if lead[t] == 1 then 0 else x[t])
  }

  /** One term of the product at batch index `x`, row `i` and column `j`. */
  function Term(l: Lora, x: Index, i: nat, j: nat, k: nat): real
    requires Constructible(l.A, l.B) && |x| == |l.B.shape| - 2
  {
    l.B.at(x + [i, k]) * l.A.at(Spread(l.LeadA(), x) + [k, j])
  }

  function Dot(l: Lora, x: Index, i: nat, j: nat, n: nat): real
    requires Constructible(l.A, l.B) && |x| == |l.B.shape| - 2
  {
    if n == 0 then 0.0 else Dot(l, x, i, j, n - 1) + Term(l, x, i, j, n - 1)
  }

  function DenseAt(l: Lora, ix: Index): real
    requires Constructible(l.A, l.B) && |ix| == |l.B.shape|
  {
    var d := |ix|;
    Dot(l, ix[..d - 2], ix[d - 2], ix[d - 1], l.Rank())
  }

  function Dense(l: Lora): Tensor
    requires Constructible(l.A, l.B)
  {
    Tensor(DenseShape(l), ix => if InShape(DenseShape(l), ix) then DenseAt(l, ix) else 0.0)
  }

  /** Materialising the pair gives the tensor `t`. */
  ghost predicate StandsFor(l: Lora, t: Tensor)
  {
    Valid(l) && Same(Dense(l), t)
  }

  /** Two products with equal terms are equal. */
  lemma {:induction false} DotSame(l: Lora, x: Index, i: nat, j: nat, l': Lora, x': Index, i': nat, j': nat, n: nat)
    requires Constructible(l.A, l.B) && |x| == |l.B.shape| - 2
    requires Constructible(l'.A, l'.B) && |x'| == |l'.B.shape| - 2
    requires forall k :: 0 <= k < n ==> Term(l, x, i, j, k) == Term(l', x', i', j', k)
    ensures Dot(l, x, i, j, n) == Dot(l', x', i', j', n)
    decreases n
  {
    hide Term;
    if n > 0 {
      DotSame(l, x, i, j, l', x', i', j', n - 1);
    }
  }

  // ----- subscripts -----

  /** The subscripts given to the two factors on one leading axis agree: they pick the
      same elements of A once broadcasting is taken into account. */
  ghost predicate AxisAgrees(a: nat, b: nat, sa: Sub, sb: Sub)
  {
    && SubOk(sa, a) && SubOk(sb, b) && sa.At? == sb.At?
    && (sa.At? ==> Pos(sa, a, 0) == if a == 1 then 0 else Pos(sb, b, 0))
    && (sa.Slice? ==>
          && (Count(sa, a) == 1 || Count(sa, a) == Count(sb, b))
          && forall x: nat :: x < Count(sb, b) ==>
               Pos(sa, a, if Count(sa, a) == 1 then 0 else x) == if a == 1 then 0 else Pos(sb, b, x))
  }

  ghost predicate LeadsAgree(la: Shape, lb: Shape, sa: seq<Sub>, sb: seq<Sub>)
  {
    && |la| == |lb| == |sa| == |sb|
    && forall t :: 0 <= t < |la| ==> AxisAgrees(la[t], lb[t], sa[t], sb[t])
  }

  lemma {:induction false} AgreeingLeads(la: Shape, lb: Shape, sa: seq<Sub>, sb: seq<Sub>)
    requires LeadsAgree(la, lb, sa, sb)
    ensures SubsOk(la, sa) && SubsOk(lb, sb) && |SubShape(la, sa)| == |SubShape(lb, sb)|
    ensures forall t :: 0 <= t < |SubShape(la, sa)| ==>
      SubShape(la, sa)[t] == 1 || SubShape(la, sa)[t] == SubShape(lb, sb)[t]
    decreases |la|
  {
    hide Count, Pos;
    assert forall t :: 0 <= t < |la| ==> AxisAgrees(la[t], lb[t], sa[t], sb[t]);
    if la != [] {
      AgreeingLeads(la[1..], lb[1..], sa[1..], sb[1..]);
    }
  }

  /** Spreading and subscripting a batch index commute. */
  lemma {:induction false} SpreadEmbeds(la: Shape, lb: Shape, sa: seq<Sub>, sb: seq<Sub>, x: Index)
    requires LeadsAgree(la, lb, sa, sb) && SubsOk(la, sa) && SubsOk(lb, sb)
    requires |SubShape(la, sa)| == |SubShape(lb, sb)| && InShape(SubShape(lb, sb), x)
    ensures Embed(la, sa, Spread(SubShape(la, sa), x)) == Spread(la, Embed(lb, sb, x))
    decreases |la|
  {
    hide Count, Pos, SubShape, Embed, AxisAgrees, Spread;
    if la != [] {
      assert AxisAgrees(la[0], lb[0], sa[0], sb[0]);
      AgreeingLeads(la[1..], lb[1..], sa[1..], sb[1..]);
      SubShapeHead(la, sa);
      SubShapeHead(lb, sb);
      EmbedHead(lb, sb, x);
      EmbedHead(la, sa, Spread(SubShape(la, sa), x));
      SpreadCons(la, Embed(lb, sb, x));
      if sa[0].At? {
        HeadAgrees(la[0], lb[0], sa[0], sb[0], 0);
        SpreadEmbeds(la[1..], lb[1..], sa[1..], sb[1..], x);
      } else {
        InShapeHead(SubShape(lb, sb), x);
        HeadAgrees(la[0], lb[0], sa[0], sb[0], x[0]);
        SpreadCons(SubShape(la, sa), x);
        SpreadEmbeds(la[1..], lb[1..], sa[1..], sb[1..], x[1..]);
      }
    }
  }

  lemma HeadAgrees(a: nat, b: nat, sa: Sub, sb: Sub, x: nat)
    requires AxisAgrees(a, b, sa, sb) && (sb.Slice? ==> x < Count(sb, b))
    ensures sa.At? == sb.At?
    ensures sa.At? ==> Pos(sa, a, 0) == if a == 1 then 0 else Pos(sb, b, 0)
    ensures sa.Slice? ==> Pos(sa, a, if Count(sa, a) == 1 then 0 else x) == if a == 1 then 0 else Pos(sb, b, x)
  {
    hide Count, Pos;
    if sa.Slice? {
      var y := Pos(sb, b, x);
      assert Pos(sa, a, if Count(sa, a) == 1 then 0 else x) == if a == 1 then 0 else y;
    }
  }

  lemma SpreadCons(lead: Shape, x: Index)
    requires |x| == |lead| > 0
    ensures Spread(lead, x) == [if lead[0] == 1 then 0 else x[0]] + Spread(lead[1..], x[1..])
  {
  }

  lemma Split(l: Lora)
    requires Constructible(l.A, l.B)
    ensures l.A.shape == l.LeadA() + [l.Rank(), l.Cols()]
    ensures l.B.shape == l.LeadB() + [l.Rows(), l.Rank()]
    ensures DenseShape(l) == l.LeadB() + [l.Rows(), l.Cols()]
    ensures |l.LeadA()| == |l.LeadB()| == |l.B.shape| - 2
  {
  }

  lemma DenseAtPoint(l: Lora, x: Index, i: nat, j: nat)
    requires Constructible(l.A, l.B) && |x| == |l.B.shape| - 2 && InShape(DenseShape(l), x + [i, j])
    ensures Dense(l).at(x + [i, j]) == Dot(l, x, i, j, l.Rank())
  {
    assert (x + [i, j])[..|x|] == x;
  }

  /** A has `sa` on its leading axes and `col` on its columns; B has `sb` on its leading
      axes and `row` on its rows; the rank axis is kept whole. */
  function Subscripted(l: Lora, sa: seq<Sub>, sb: seq<Sub>, row: Sub, col: Sub): Lora
    requires SubsOk(l.A.shape, sa + [Full, col]) && SubsOk(l.B.shape, sb + [row, Full])
  {
    Lora(Subscript(l.A, sa + [Full, col]), Subscript(l.B, sb + [row, Full]))
  }

  ghost predicate CanSubscript(l: Lora, sa: seq<Sub>, sb: seq<Sub>, row: Sub, col: Sub)
  {
    && Constructible(l.A, l.B)
    && LeadsAgree(l.LeadA(), l.LeadB(), sa, sb)
    && row.Slice? && col.Slice? && row.step > 0 && col.step > 0
  }

  lemma SubscriptedShapes(l: Lora, sa: seq<Sub>, sb: seq<Sub>, row: Sub, col: Sub)
    requires CanSubscript(l, sa, sb, row, col)
    ensures SubsOk(l.LeadA(), sa) && SubsOk(l.LeadB(), sb)
    ensures |SubShape(l.LeadA(), sa)| == |SubShape(l.LeadB(), sb)|
    ensures SubsOk(l.A.shape, sa + [Full, col]) && SubsOk(l.B.shape, sb + [row, Full])
    ensures SubsOk(DenseShape(l), sb + [row, col])
    ensures SubShape(l.A.shape, sa + [Full, col]) == SubShape(l.LeadA(), sa) + [l.Rank(), Count(col, l.Cols())]
    ensures SubShape(l.B.shape, sb + [row, Full]) == SubShape(l.LeadB(), sb) + [Count(row, l.Rows()), l.Rank()]
    ensures SubShape(DenseShape(l), sb + [row, col])
         == SubShape(l.LeadB(), sb) + [Count(row, l.Rows()), Count(col, l.Cols())]
  {
    hide Count, Pos, SubShape, DenseShape, AxisAgrees;
    Split(l);
    var la, lb, r := l.LeadA(), l.LeadB(), l.Rank();
    AgreeingLeads(la, lb, sa, sb);
    FullSelectsAll(r, 0);
    EmbedPair(r, l.Cols(), Full, col, 0, 0);
    EmbedPair(l.Rows(), r, row, Full, 0, 0);
    EmbedPair(l.Rows(), l.Cols(), row, col, 0, 0);
    SubShapeAppend(la, sa, [r, l.Cols()], [Full, col]);
    SubShapeAppend(lb, sb, [l.Rows(), r], [row, Full]);
    SubShapeAppend(lb, sb, [l.Rows(), l.Cols()], [row, col]);
  }

  lemma SubscriptedIsValid(l: Lora, sa: seq<Sub>, sb: seq<Sub>, row: Sub, col: Sub)
    requires CanSubscript(l, sa, sb, row, col)
    ensures SubsOk(l.A.shape, sa + [Full, col]) && SubsOk(l.B.shape, sb + [row, Full])
    ensures var l' := Subscripted(l, sa, sb, row, col);
            && Valid(l') && l'.Rank() == l.Rank()
            && l'.LeadA() == SubShape(l.LeadA(), sa) && l'.LeadB() == SubShape(l.LeadB(), sb)
  {
    hide Count, Pos, SubShape, AxisAgrees;
    SubscriptedShapes(l, sa, sb, row, col);
    AgreeingLeads(l.LeadA(), l.LeadB(), sa, sb);
    var l' := Subscripted(l, sa, sb, row, col);
    var a, b := SubShape(l.LeadA(), sa), SubShape(l.LeadB(), sb);
    assert l'.A.shape[..|a|] == a && l'.B.shape[..|b|] == b;
  }

  /** The terms of the subscripted pair are terms of the original one. */
  lemma SubscriptedTerm(l: Lora, sa: seq<Sub>, sb: seq<Sub>, row: Sub, col: Sub, x: Index, i: nat, j: nat, k: nat)
    requires CanSubscript(l, sa, sb, row, col)
    requires SubsOk(l.LeadA(), sa) && SubsOk(l.LeadB(), sb)
    requires SubsOk(l.A.shape, sa + [Full, col]) && SubsOk(l.B.shape, sb + [row, Full])
    requires InShape(SubShape(l.LeadB(), sb), x) && k < l.Rank()
    requires i < Count(row, l.Rows()) && j < Count(col, l.Cols())
    requires Constructible(Subscripted(l, sa, sb, row, col).A, Subscripted(l, sa, sb, row, col).B)
    requires |Subscripted(l, sa, sb, row, col).B.shape| == |x| + 2
    ensures Term(Subscripted(l, sa, sb, row, col), x, i, j, k)
            == Term(l, Embed(l.LeadB(), sb, x), Pos(row, l.Rows(), i), Pos(col, l.Cols(), j), k)
  {
    hide Subscripted, Embed, SubShape, Pos, Count, LeadsAgree, AxisAgrees, SubsOk, Spread, InShape, CanSubscript;
    SubscriptedElementA(l, sa, sb, row, col, x, j, k);
    SubscriptedElementB(l, sa, sb, row, col, x, i, k);
  }

  lemma SubscriptedElementA(l: Lora, sa: seq<Sub>, sb: seq<Sub>, row: Sub, col: Sub, x: Index, j: nat, k: nat)
    requires CanSubscript(l, sa, sb, row, col)
    requires SubsOk(l.LeadA(), sa) && SubsOk(l.LeadB(), sb)
    requires SubsOk(l.A.shape, sa + [Full, col]) && SubsOk(l.B.shape, sb + [row, Full])
    requires InShape(SubShape(l.LeadB(), sb), x) && k < l.Rank() && j < Count(col, l.Cols())
    ensures var l' := Subscripted(l, sa, sb, row, col);
            && |l'.A.shape| == |x| + 2
            && l'.A.at(Spread(l'.LeadA(), x) + [k, j])
               == l.A.at(Spread(l.LeadA(), Embed(l.LeadB(), sb, x)) + [k, Pos(col, l.Cols(), j)])
  {
    hide Count, Pos, SubShape, Embed, AxisAgrees, LeadsAgree, Spread, Subscript;
    var la, lb, r := l.LeadA(), l.LeadB(), l.Rank();
    Split(l);
    SubscriptedIsValid(l, sa, sb, row, col);
    AgreeingLeads(la, lb, sa, sb);
    SpreadEmbeds(la, lb, sa, sb, x);
    SpreadInShape(SubShape(la, sa), SubShape(lb, sb), x);
    FullSelectsAll(r, k);
    EmbedPair(r, l.Cols(), Full, col, k, j);
    PairInShape(r, Count(col, l.Cols()), k, j);
    SubscriptAt(l.A, la, sa, Spread(SubShape(la, sa), x), [r, l.Cols()], [Full, col], [k, j]);
  }

  lemma SubscriptedElementB(l: Lora, sa: seq<Sub>, sb: seq<Sub>, row: Sub, col: Sub, x: Index, i: nat, k: nat)
    requires CanSubscript(l, sa, sb, row, col)
    requires SubsOk(l.LeadB(), sb) && SubsOk(l.A.shape, sa + [Full, col]) && SubsOk(l.B.shape, sb + [row, Full])
    requires InShape(SubShape(l.LeadB(), sb), x) && k < l.Rank() && i < Count(row, l.Rows())
    ensures Subscripted(l, sa, sb, row, col).B.at(x + [i, k])
         == l.B.at(Embed(l.LeadB(), sb, x) + [Pos(row, l.Rows(), i), k])
  {
    hide Count, Pos, SubShape, Embed, AxisAgrees, LeadsAgree, Subscript;
    var lb, r := l.LeadB(), l.Rank();
    Split(l);
    FullSelectsAll(r, k);
    EmbedPair(l.Rows(), r, row, Full, i, k);
    PairInShape(Count(row, l.Rows()), r, i, k);
    SubscriptAt(l.B, lb, sb, x, [l.Rows(), r], [row, Full], [i, k]);
  }

  lemma SpreadInShape(la: Shape, lb: Shape, x: Index)
    requires |la| == |lb| && InShape(lb, x) && forall t :: 0 <= t < |la| ==> la[t] == 1 || la[t] == lb[t]
    ensures InShape(la, Spread(la, x))
  {
  }

  /** Subscripting the factors is subscripting the dense tensor. */
  lemma SubscriptedCommutes(l: Lora, sa: seq<Sub>, sb: seq<Sub>, row: Sub, col: Sub)
    requires CanSubscript(l, sa, sb, row, col)
    ensures SubsOk(l.A.shape, sa + [Full, col]) && SubsOk(l.B.shape, sb + [row, Full])
    ensures SubsOk(DenseShape(l), sb + [row, col])
    ensures var l' := Subscripted(l, sa, sb, row, col);
            StandsFor(l', Subscript(Dense(l), sb + [row, col]))
  {
    hide Count, Pos, SubShape, Embed, Dot, Term;
    SubscriptedShapes(l, sa, sb, row, col);
    SubscriptedIsValid(l, sa, sb, row, col);
    var l' := Subscripted(l, sa, sb, row, col);
    Split(l');
    forall ix | InShape(DenseShape(l'), ix)
      ensures Dense(l').at(ix) == Subscript(Dense(l), sb + [row, col]).at(ix)
    {
      SubscriptedPoint(l, sa, sb, row, col, ix);
    }
  }

  lemma SubscriptedPoint(l: Lora, sa: seq<Sub>, sb: seq<Sub>, row: Sub, col: Sub, ix: Index)
    requires CanSubscript(l, sa, sb, row, col)
    requires SubsOk(l.A.shape, sa + [Full, col]) && SubsOk(l.B.shape, sb + [row, Full])
    requires SubsOk(DenseShape(l), sb + [row, col])
    requires var l' := Subscripted(l, sa, sb, row, col);
             Constructible(l'.A, l'.B) && InShape(DenseShape(l'), ix)
    ensures Dense(Subscripted(l, sa, sb, row, col)).at(ix) == Subscript(Dense(l), sb + [row, col]).at(ix)
  {
    hide Count, Pos, SubShape, Embed, Dot, Term;
    var l' := Subscripted(l, sa, sb, row, col);
    var m, n, r, lb := l.Rows(), l.Cols(), l.Rank(), l.LeadB();
    Split(l);
    SubscriptedShapes(l, sa, sb, row, col);
    SubscriptedIsValid(l, sa, sb, row, col);
    var d := |ix|;
    var x, i, j := ix[..d - 2], ix[d - 2], ix[d - 1];
    assert ix == x + [i, j];
    Split(l');
    InShapeAppend(SubShape(lb, sb), [Count(row, m), Count(col, n)], x, [i, j]);
    assert i < [Count(row, m), Count(col, n)][0] && j < [Count(row, m), Count(col, n)][1];
    DenseAtPoint(l', x, i, j);
    var y, i', j' := Embed(lb, sb, x), Pos(row, m, i), Pos(col, n, j);
    forall k: nat | k < r
      ensures Term(l', x, i, j, k) == Term(l, y, i', j', k)
    {
      SubscriptedTerm(l, sa, sb, row, col, x, i, j, k);
    }
    DotSame(l', x, i, j, l, y, i', j', r);
    EmbedPair(m, n, row, col, i, j);
    EmbedAppend(lb, sb, x, [m, n], [row, col], [i, j]);
    EmbedInShape(DenseShape(l), sb + [row, col], ix);
    DenseAtPoint(l, y, i', j');
  }

  // ----- subscripting the pair -----

  lemma FullAgrees(a: nat, b: nat)
    requires a == 1 || a == b
    ensures AxisAgrees(a, b, Full, Full)
  {
    FullSelectsAll(a, 0);
    forall x: nat
      ensures Pos(Full, a, x) == x && Pos(Full, b, x) == x
    {
      FullSelectsAll(a, x);
      FullSelectsAll(b, x);
    }
    FullSelectsAll(b, 0);
  }

  /** A slice that keeps the length of an axis keeps every element in place. */
  lemma WholeSliceIsIdentity(s: Sub, n: nat, x: nat)
    requires s.Slice? && SubOk(s, n) && Count(s, n) == n && x < n
    ensures Pos(s, n, x) == x
  {
    hide Count;
    PosInRange(s, n, n - 1);
    StepIsOne(s.step, n, First(s, n));
    hide *;
    assert n == 1 ==> x == 0;
  }

  lemma StepIsOne(a: nat, n: nat, f: nat)
    requires a >= 1 && n >= 1 && Advance(a, n - 1) + f < n
    ensures f == 0 && forall x: nat :: x < n ==> Advance(a, x) == x
  {
    AdvanceIs(a, n - 1);
    MulMonotone(1, a, n - 1);
    assert a >= 2 ==> a * (n - 1) >= 2 * (n - 1);
    assert n == 1 || a == 1;
    forall x: nat | x < n
      ensures Advance(a, x) == x
    {
      assert x == 0 || a == 1;
      StepsOfOne(x);
    }
  }

  /** The subscripts that a tuple of subscripts gives to the leading axes of A: integers
      modulo the length of A's axis, and whole axes for slices. */
  function LeadSubs(la: Shape, subs: seq<Sub>): (r: seq<Sub>)
    requires |la| == |subs| && forall t :: 0 <= t < |la| && subs[t].At? ==> la[t] > 0
    ensures |r| == |subs| && forall t :: 0 <= t < |subs| ==> r[t] == LeadSub(la[t], subs[t])
  {
    seq(|subs|, t requires 0 <= t < |subs| => LeadSub(la[t], subs[t]))
  }

  function LeadSub(a: nat, s: Sub): Sub
    requires s.At? ==> a > 0
  {
    if s.At? then At(s.i % a) else Full
  }

  /** l[subs] for a tuple with one subscript for each axis. The constructor asserts that the
      subscripted factors are a pair. */
  function GetTuple(l: Lora, subs: seq<Sub>): Option<Lora>
    requires Constructible(l.A, l.B)
  {
    var d := |l.B.shape|;
    if !SubsOk(DenseShape(l), subs) then None
    else if exists t :: 0 <= t < d - 2 && subs[t].At? && l.A.shape[t] == 0 then None
    else
      var sa, sb := LeadSubs(l.LeadA(), subs[..d - 2]), subs[..d - 2];
      GetTupleOk(l, subs);
      var l' := Subscripted(l, sa, sb, subs[d - 2], subs[d - 1]);
      if Constructible(l'.A, l'.B) then Some(l') else None
  }

  lemma GetTupleOk(l: Lora, subs: seq<Sub>)
    requires Constructible(l.A, l.B) && SubsOk(DenseShape(l), subs)
    requires forall t :: 0 <= t < |l.B.shape| - 2 && subs[t].At? ==> l.A.shape[t] > 0
    ensures var d := |l.B.shape|;
            var sa, sb := LeadSubs(l.LeadA(), subs[..d - 2]), subs[..d - 2];
            && SubsOk(l.A.shape, sa + [Full, subs[d - 1]]) && SubsOk(l.B.shape, sb + [subs[d - 2], Full])
  {
    Split(l);
    var d := |l.B.shape|;
    assert SubOk(subs[d - 1], DenseShape(l)[d - 1]);
    forall t | 0 <= t < d
      ensures t < d - 1 ==> SubOk(subs[t], l.B.shape[t])
    {
      assert SubOk(subs[t], DenseShape(l)[t]);
    }
  }

  /** The last two axes are kept; a slice on a leading axis is harmless when A is broadcast
      over it or it is kept whole. */
  predicate KeepsLeads(l: Lora, subs: seq<Sub>)
    requires Constructible(l.A, l.B) && SubsOk(DenseShape(l), subs)
  {
    && KeepsMatrix(subs)
    && forall t :: 0 <= t < |l.B.shape| - 2 && subs[t].Slice? ==>
      l.A.shape[t] == 1 || Count(subs[t], DenseShape(l)[t]) == l.B.shape[t]
  }

  predicate KeepsMatrix(subs: seq<Sub>)
  {
    |subs| >= 2 && subs[|subs| - 2].Slice? && subs[|subs| - 1].Slice?
  }

  lemma TupleAxisAgrees(a: nat, b: nat, s: Sub)
    requires (s.At? ==> a > 0) && (a == 1 || a == b) && SubOk(s, b)
    requires s.Slice? ==> a == 1 || Count(s, b) == b
    ensures AxisAgrees(a, b, if s.At? then At(s.i % a) else Full, s)
  {
    if s.At? {
      if a != 1 {
        var w := Wrap(s.i, b);
        assert w == s.i || w == s.i + b;
        WrapIsMod(s.i, b);
      }
    } else {
      FullSelectsAll(a, 0);
      forall x: nat | x < Count(s, b)
        ensures Pos(Full, a, if Count(Full, a) == 1 then 0 else x) == if a == 1 then 0 else Pos(s, b, x)
      {
        FullSelectsAll(a, if Count(Full, a) == 1 then 0 else x);
        if a != 1 {
          WholeSliceIsIdentity(s, b, x);
        }
      }
    }
  }

  lemma WrapIsMod(i: int, n: nat)
    requires 0 <= i + n && i < n
    ensures i % n == Wrap(i, n)
  {
    if i < 0 {
      DivModShift(i, n);
    }
  }

  lemma DivModShift(i: int, n: nat)
    requires 0 <= i + n && i < 0
    ensures i % n == i + n
  {
    var q := i / n;
    assert i == q * n + i % n;
    assert (q + 1) * n == q * n + n;
    SmallMultiple(q + 1, n, i + n - i % n);
  }

  /** Subscripting the pair by a tuple commutes with materialising it when the tuple keeps
      the leads. */
  lemma TupleCommutes(l: Lora, subs: seq<Sub>)
    requires Valid(l) && GetTuple(l, subs).Some? && KeepsLeads(l, subs)
    ensures StandsFor(GetTuple(l, subs).value, Subscript(Dense(l), subs))
  {
    hide Count, Pos, SubShape, Same, Dense, Subscript;
    var d := |l.B.shape|;
    var sa, sb := LeadSubs(l.LeadA(), subs[..d - 2]), subs[..d - 2];
    forall t | 0 <= t < d - 2
      ensures AxisAgrees(l.LeadA()[t], l.LeadB()[t], sa[t], sb[t])
    {
      assert SubOk(subs[t], DenseShape(l)[t]);
      TupleAxisAgrees(l.A.shape[t], l.B.shape[t], subs[t]);
    }
    assert SubOk(subs[d - 2], DenseShape(l)[d - 2]) && SubOk(subs[d - 1], DenseShape(l)[d - 1]);
    SubscriptedCommutes(l, sa, sb, subs[d - 2], subs[d - 1]);
    assert sb + [subs[d - 2], subs[d - 1]] == subs;
  }

  /** A batch axis of A fits one of B. */
  predicate Fits(a: nat, b: nat)
  {
    a == 1 || a == b
  }

  predicate ShapesFit(a: Shape, b: Shape)
  {
    |a| == |b| && forall t :: 0 <= t < |a| ==> Fits(a[t], b[t])
  }

  lemma ShapesFitCons(x: nat, a: Shape, y: nat, b: Shape)
    ensures ShapesFit([x] + a, [y] + b) <==> Fits(x, y) && ShapesFit(a, b)
  {
    if ShapesFit([x] + a, [y] + b) {
      assert Fits(([x] + a)[0], ([y] + b)[0]);
      forall t | 0 <= t < |a|
        ensures Fits(a[t], b[t])
      {
        assert Fits(([x] + a)[t + 1], ([y] + b)[t + 1]);
      }
    }
  }

  predicate SliceFits(a: nat, b: nat, sa: Sub, sb: Sub)
  {
    sa.At? || (sb.Slice? && SubOk(sa, a) && SubOk(sb, b) && Fits(Count(sa, a), Count(sb, b)))
  }

  /** The subscripted leading axes fit when the slices on each axis do, and only then. */
  lemma {:induction false} SubShapesFit(la: Shape, lb: Shape, sa: seq<Sub>, sb: seq<Sub>)
    requires SubsOk(la, sa) && SubsOk(lb, sb) && |la| == |lb|
    requires forall t :: 0 <= t < |la| ==> sa[t].At? == sb[t].At?
    ensures ShapesFit(SubShape(la, sa), SubShape(lb, sb))
            <==> forall t :: 0 <= t < |la| ==> SliceFits(la[t], lb[t], sa[t], sb[t])
    decreases |la|
  {
    hide Count, Fits, ShapesFit;
    if la == [] {
      assert ShapesFit(SubShape(la, sa), SubShape(lb, sb)) by { NothingFits(); }
    } else {
      SubShapesFit(la[1..], lb[1..], sa[1..], sb[1..]);
      var a', b' := SubShape(la[1..], sa[1..]), SubShape(lb[1..], sb[1..]);
      if sa[0].Slice? {
        ShapesFitCons(Count(sa[0], la[0]), a', Count(sb[0], lb[0]), b');
      } else {
        assert SubShape(la, sa) == a' && SubShape(lb, sb) == b';
      }
      if forall t :: 0 <= t < |la| - 1 ==> SliceFits(la[1..][t], lb[1..][t], sa[1..][t], sb[1..][t]) {
        forall t | 1 <= t < |la|
          ensures SliceFits(la[t], lb[t], sa[t], sb[t])
        {
          assert SliceFits(la[1..][t - 1], lb[1..][t - 1], sa[1..][t - 1], sb[1..][t - 1]);
        }
      }
    }
  }

  lemma NothingFits()
    ensures ShapesFit([], [])
  {
  }

  /** Keeping the leads is exactly what a tuple has to do: otherwise the factors of the
      result no longer multiply to the reported shape. */
  lemma TupleIsValidIff(l: Lora, subs: seq<Sub>)
    requires Valid(l) && GetTuple(l, subs).Some?
    ensures KeepsMatrix(subs) ==> (Valid(GetTuple(l, subs).value) <==> KeepsLeads(l, subs))
    ensures StandsFor(GetTuple(l, subs).value, Subscript(Dense(l), subs)) <==> KeepsLeads(l, subs)
  {
    if KeepsMatrix(subs) {
      MatrixTupleIsValidIff(l, subs);
    } else {
      IntegersLoseAxes(l, subs);
    }
    if KeepsLeads(l, subs) {
      TupleCommutes(l, subs);
    }
    hide Dense, Subscript, GetTuple;
  }

  /** How many axes are kept. */
  function SliceCount(subs: seq<Sub>): nat
  {
    if subs == [] then 0 else (if subs[0].At? then 0 else 1) + SliceCount(subs[1..])
  }

  lemma {:induction false} SubShapeLength(shape: Shape, subs: seq<Sub>)
    requires SubsOk(shape, subs)
    ensures |SubShape(shape, subs)| == SliceCount(subs)
    decreases |subs|
  {
    hide Count;
    if subs != [] {
      SubShapeHead(shape, subs);
      SubShapeLength(shape[1..], subs[1..]);
    }
  }

  lemma {:induction false} SliceCountAppend(u: seq<Sub>, v: seq<Sub>)
    ensures SliceCount(u + v) == SliceCount(u) + SliceCount(v)
  {
    if u == [] {
      assert u + v == v;
    } else {
      assert (u + v)[1..] == u[1..] + v;
      SliceCountAppend(u[1..], v);
    }
  }

  lemma {:induction false} SameSlices(u: seq<Sub>, v: seq<Sub>)
    requires |u| == |v| && forall t :: 0 <= t < |u| ==> u[t].At? == v[t].At?
    ensures SliceCount(u) == SliceCount(v)
  {
    if u != [] {
      SameSlices(u[1..], v[1..]);
    }
  }

  lemma PairCount(a: Sub, b: Sub)
    ensures SliceCount([a, b]) == (if a.At? then 0 else 1) + if b.At? then 0 else 1
  {
    assert [a, b][1..] == [b] && [b][1..] == [];
    assert SliceCount([b]) == (if b.At? then 0 else 1) + SliceCount([]);
  }

  /** Integers on the last two axes: if the constructor accepts the factors at all, the pair
      has an axis too many. */
  lemma IntegersLoseAxes(l: Lora, subs: seq<Sub>)
    requires Valid(l) && GetTuple(l, subs).Some? && !KeepsMatrix(subs)
    ensures |Dense(GetTuple(l, subs).value).shape| == |Subscript(Dense(l), subs).shape| + 1
  {
    hide Count, Pos, SubShape;
    var d := |l.B.shape|;
    var row, col := subs[d - 2], subs[d - 1];
    var sa, sb := LeadSubs(l.LeadA(), subs[..d - 2]), subs[..d - 2];
    GetTupleOk(l, subs);
    SubShapeLength(l.A.shape, sa + [Full, col]);
    SubShapeLength(l.B.shape, sb + [row, Full]);
    SubShapeLength(DenseShape(l), subs);
    assert subs == sb + [row, col];
    SliceCountAppend(sa, [Full, col]);
    SliceCountAppend(sb, [row, Full]);
    SliceCountAppend(sb, [row, col]);
    PairCount(Full, col);
    PairCount(row, Full);
    PairCount(row, col);
    SameSlices(sa, sb);
  }

  /** Such a tuple: the element l[:, 0, 0] of a pair with one batch position and rank one is
      taken for a matrix. */
  lemma VectorIsTaken()
    ensures var l := Lora(Filled([1, 1, 1]), Filled([1, 1, 1]));
            var subs := [Full, At(0), At(0)];
            && Valid(l) && GetTuple(l, subs).Some?
            && Dense(GetTuple(l, subs).value).shape == [1, 1] && Subscript(Dense(l), subs).shape == [1]
  {
    var l := Lora(Filled([1, 1, 1]), Filled([1, 1, 1]));
    var subs := [Full, At(0), At(0)];
    assert DenseShape(l) == [1, 1, 1];
    ThreeAxes([1, 1, 1], Full, Full, At(0));
    ThreeAxes([1, 1, 1], Full, At(0), Full);
    ThreeAxes([1, 1, 1], Full, At(0), At(0));
    FullSelectsAll(1, 0);
    hide Count, SubShape;
    assert LeadSubs(l.LeadA(), subs[..1]) == [Full] && subs[..1] == [Full];
    assert [Full] + [Full, At(0)] == [Full, Full, At(0)] && [Full] + [At(0), Full] == [Full, At(0), Full];
  }

  function Kept(s: Sub, n: nat): Shape
    requires SubOk(s, n)
  {
    if s.At? then [] else [Count(s, n)]
  }

  lemma ThreeAxes(shape: Shape, s0: Sub, s1: Sub, s2: Sub)
    requires |shape| == 3 && SubOk(s0, shape[0]) && SubOk(s1, shape[1]) && SubOk(s2, shape[2])
    ensures SubShape(shape, [s0, s1, s2]) == Kept(s0, shape[0]) + Kept(s1, shape[1]) + Kept(s2, shape[2])
  {
    hide Count;
    var u := [s0, s1, s2];
    assert u[1..] == [s1, s2] && u[1..][1..] == [s2] && u[1..][1..][1..] == [];
    var t1, t2 := shape[1..], shape[2..];
    assert t1[1..] == t2 && t2[1..] == [];
    assert SubShape(t2, [s2]) == Kept(s2, shape[2]) + SubShape([], []);
    assert SubShape(t1, [s1, s2]) == Kept(s1, shape[1]) + SubShape(t2, [s2]);
  }

  lemma MatrixTupleIsValidIff(l: Lora, subs: seq<Sub>)
    requires Valid(l) && GetTuple(l, subs).Some? && KeepsMatrix(subs)
    ensures Valid(GetTuple(l, subs).value) <==> KeepsLeads(l, subs)
  {
    hide Count, Pos, SubShape, Same, Dense, Subscript;
    var d := |l.B.shape|;
    var la, lb := l.LeadA(), l.LeadB();
    var sa, sb := LeadSubs(la, subs[..d - 2]), subs[..d - 2];
    var l' := GetTuple(l, subs).value;
    if KeepsLeads(l, subs) {
      TupleCommutes(l, subs);
    }
    if Valid(l') {
      GetTupleOk(l, subs);
      Split(l);
      TupleLeads(l, subs);
      SubShapesFit(la, lb, sa, sb);
      forall t | 0 <= t < d - 2 && subs[t].Slice?
        ensures l.A.shape[t] == 1 || Count(subs[t], DenseShape(l)[t]) == l.B.shape[t]
      {
        assert SliceFits(la[t], lb[t], sa[t], sb[t]);
        FullSelectsAll(la[t], 0);
      }
    }
  }

  lemma TupleLeads(l: Lora, subs: seq<Sub>)
    requires Valid(l) && GetTuple(l, subs).Some? && Valid(GetTuple(l, subs).value) && KeepsMatrix(subs)
    ensures var d := |l.B.shape|;
            var sa, sb := LeadSubs(l.LeadA(), subs[..d - 2]), subs[..d - 2];
            && SubsOk(l.LeadA(), sa) && SubsOk(l.LeadB(), sb)
            && ShapesFit(SubShape(l.LeadA(), sa), SubShape(l.LeadB(), sb))
  {
    hide Count, Pos, SubShape, Embed;
    var d := |l.B.shape|;
    var la, lb, row, col := l.LeadA(), l.LeadB(), subs[d - 2], subs[d - 1];
    var sa, sb := LeadSubs(la, subs[..d - 2]), subs[..d - 2];
    Split(l);
    GetTupleOk(l, subs);
    assert SubOk(row, DenseShape(l)[d - 2]) && SubOk(col, DenseShape(l)[d - 1]);
    forall t | 0 <= t < d - 2
      ensures SubOk(sa[t], la[t]) && SubOk(sb[t], lb[t])
    {
      assert SubOk((sa + [Full, col])[t], l.A.shape[t]) && SubOk((sb + [row, Full])[t], l.B.shape[t]);
    }
    EmbedPair(l.Rank(), l.Cols(), Full, col, 0, 0);
    EmbedPair(l.Rows(), l.Rank(), row, Full, 0, 0);
    SubShapeAppend(la, sa, [l.Rank(), l.Cols()], [Full, col]);
    SubShapeAppend(lb, sb, [l.Rows(), l.Rank()], [row, Full]);
    var l' := GetTuple(l, subs).value;
    var a, b := SubShape(la, sa), SubShape(lb, sb);
    assert |l'.A.shape| == |a| + 2 && |l'.B.shape| == |b| + 2;
    assert forall t :: 0 <= t < |a| ==> a[t] == l'.A.shape[t] && b[t] == l'.B.shape[t];
  }

  function Filled(shape: Shape): Tensor
  {
    Tensor(shape, ix => 1.0)
  }

  /** A tuple that does not: A keeps both of its batch positions, B only the first. */
  lemma TupleLosesBatch()
    ensures var l := Lora(Filled([2, 1, 1]), Filled([2, 1, 1]));
            var subs := [Slice(Some(0), Some(1), 1), Full, Full];
            Valid(l) && GetTuple(l, subs).Some? && !Valid(GetTuple(l, subs).value)
  {
    var l := Lora(Filled([2, 1, 1]), Filled([2, 1, 1]));
    var s := Slice(Some(0), Some(1), 1);
    var subs := [s, Full, Full];
    assert DenseShape(l) == [2, 1, 1];
    assert Steps(1, 1) == 1 && Count(s, 2) == 1;
    ThreeAxes([2, 1, 1], Full, Full, Full);
    ThreeAxes([2, 1, 1], s, Full, Full);
    FullSelectsAll(1, 0);
    FullSelectsAll(2, 0);
    hide Count, SubShape;
    assert LeadSubs(l.LeadA(), subs[..1]) == [Full] && subs[..1] == [s];
    assert [Full] + [Full, Full] == [Full, Full, Full] && [s] + [Full, Full] == subs;
    assert GetTuple(l, subs).Some?;
    assert !KeepsLeads(l, subs) by {
      assert subs[0].Slice? && l.A.shape[0] == 2 && Count(subs[0], DenseShape(l)[0]) == 1;
    }
    hide GetTuple;
    TupleIsValidIff(l, subs);
  }
}
