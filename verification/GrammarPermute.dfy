/** Parsers in any order (`permute`, common/chat-peg-parser.cpp, lines 241-276). */
module GrammarPermute {
  import opened Sequences
  import opened BitMasks

  // ----- rule names -----

  function Digits(n: nat): string
  {
    if n < 10 then [('0' as int + n) as char]
    else Digits(n / 10) + [('0' as int + n % 10) as char]
  }

  /** The number that a string of digits stands for. */
  function Decimal(s: string): int
  {
    if s == "" then 0 else 10 * Decimal(s[..|s| - 1]) + (s[|s| - 1] as int - '0' as int)
  }

  lemma {:induction false} DigitsRead(n: nat)
    ensures Decimal(Digits(n)) == n
    ensures forall i :: 0 <= i < |Digits(n)| ==> '0' <= Digits(n)[i] <= '9'
    ensures Digits(n) != "" && (n > 0 ==> Digits(n)[0] != '0')
  {
    var d, s := Digits(n / 10), Digits(n);
    if n >= 10 {
      DigitsRead(n / 10);
      assert s[..|s| - 1] == d;
    } else {
      assert s[..0] == "";
    }
  }

  lemma {:induction false} DigitsInjective(a: nat, b: nat)
    requires Digits(a) == Digits(b)
    ensures a == b
    decreases a
  {
    var x, y := Digits(a), Digits(b);
    assert x[|x| - 1] as int == '0' as int + a % 10 && y[|y| - 1] as int == '0' as int + b % 10;
    if a >= 10 {
      DigitsNonEmpty(a / 10);
      assert b >= 10;
      assert x[..|x| - 1] == Digits(a / 10) && y[..|y| - 1] == Digits(b / 10);
      DigitsInjective(a / 10, b / 10);
    } else if b >= 10 {
      DigitsNonEmpty(b / 10);
    }
  }

  lemma DigitsNonEmpty(n: nat)
    ensures |Digits(n)| > 0
  {
  }

  function RuleName(prefix: string, mask: nat): string
  {
    prefix + "-" + Digits(mask)
  }

  lemma RuleNamesDistinct(prefix: string, a: nat, b: nat)
    requires RuleName(prefix, a) == RuleName(prefix, b)
    ensures a == b
  {
    var k := |prefix| + 1;
    assert RuleName(prefix, a)[k..] == Digits(a) && RuleName(prefix, b)[k..] == Digits(b);
    DigitsInjective(a, b);
  }

  // ----- grammars -----

  /** `Given(i)` is the i-th of the caller's parsers; what it matches is a parameter. */
  datatype Parser =
    | Eps
    | Given(i: nat)
    | Then(first: Parser, second: Parser)
    | Choice(alternatives: seq<Parser>)
    | RuleRef(name: string)

  function InSequence(i: nat, n: nat): Parser
    requires i <= n
    decreases n - i
  {
    if i == n then Eps else Then(Given(i), InSequence(i + 1, n))
  }

  /** The recursion of lines 255-273 without its memo: every subset is expanded again
      wherever it is met. */
  function Unmemoised(mask: nat, n: nat): Parser
    decreases mask, n + 1
  {
    if mask == 0 then Eps else Choice(Expanded(mask, 0, n))
  }

  function Expanded(mask: nat, i: nat, n: nat): seq<Parser>
    requires i <= n
    decreases mask, n - i
  {
    if i == n then []
    else if Bit(mask, i) then [Then(Given(i), Unmemoised(Clear(mask, i), n))] + Expanded(mask, i + 1, n)
    else Expanded(mask, i + 1, n)
  }

  function Permuted(n: nat): Parser
  {
    if 2 <= n <= MaxPermute then Unmemoised(Pow2(n) - 1, n) else InSequence(0, n)
  }

  /** What the memoised recursion returns for a mask, and the rule it leaves behind. */
  function Reference(prefix: string, mask: nat): Parser
  {
    if mask == 0 then Eps else RuleRef(RuleName(prefix, mask))
  }

  function Body(prefix: string, mask: nat, i: nat, n: nat): seq<Parser>
    requires i <= n
    decreases n - i
  {
    if i == n then []
    else if Bit(mask, i) then [Then(Given(i), Reference(prefix, Clear(mask, i)))] + Body(prefix, mask, i + 1, n)
    else Body(prefix, mask, i + 1, n)
  }

  type Grammar = map<string, Parser>

  /** Replaces rule references by the rules they name, `depth` references deep. */
  function Inline(g: Grammar, p: Parser, depth: nat): Parser
    decreases depth, p
  {
    match p
    case Then(a, b) => Then(Inline(g, a, depth), Inline(g, b, depth))
    case Choice(alts) => Choice(seq(|alts|, k requires 0 <= k < |alts| => Inline(g, alts[k], depth)))
    case RuleRef(name) => if depth > 0 && name in g then Inline(g, g[name], depth - 1) else p
    case Eps => p
    case Given(_) => p
  }

  // ----- building -----

  const MaxPermute: nat := 6

  ghost predicate NoDuplicates<T(!new)>(s: seq<T>)
  {
    forall i, j :: 0 <= i < j < |s| ==> s[i] != s[j]
  }

  /** The rules of `masks` are defined, and every other name is as it was `before`. */
  ghost predicate RulesFor(rules: Grammar, before: Grammar, prefix: string, n: nat, masks: set<nat>)
  {
    && (forall k :: k in masks ==>
          RuleName(prefix, k) in rules && rules[RuleName(prefix, k)] == Choice(Body(prefix, k, 0, n)))
    && (forall name :: !Names(prefix, masks, name) ==>
          (name in rules <==> name in before) && (name in rules ==> rules[name] == before[name]))
  }

  ghost predicate Names(prefix: string, masks: set<nat>, name: string)
  {
    exists k :: k in masks && RuleName(prefix, k) == name
  }

  lemma StartValid(rules: Grammar, prefix: string, n: nat)
    ensures RulesFor(rules, rules, prefix, n, {}) && MemoClosed(map[], prefix) && DefinedOnce([], {})
  {
  }

  lemma NewRule(rules: Grammar, before: Grammar, prefix: string, n: nat, masks: set<nat>, mask: nat)
    requires RulesFor(rules, before, prefix, n, masks)
    ensures var extended := rules[RuleName(prefix, mask) := Choice(Body(prefix, mask, 0, n))];
            RulesFor(extended, before, prefix, n, masks + {mask})
  {
    var extended := rules[RuleName(prefix, mask) := Choice(Body(prefix, mask, 0, n))];
    forall k | k in masks + {mask}
      ensures RuleName(prefix, k) in extended && extended[RuleName(prefix, k)] == Choice(Body(prefix, k, 0, n))
    {
      if k != mask && RuleName(prefix, k) == RuleName(prefix, mask) {
        RuleNamesDistinct(prefix, k, mask);
      }
    }
    forall name | !Names(prefix, masks + {mask}, name)
      ensures (name in extended <==> name in before) && (name in extended ==> extended[name] == before[name])
    {
      assert mask in masks + {mask};
      assert !Names(prefix, masks, name) by {
        assert forall k :: k in masks ==> k in masks + {mask};
      }
    }
  }

  /** What the loop has met by bit `i`: the sub-masks that lack an earlier bit. */
  ghost predicate Below(k: nat, mask: nat, i: nat)
  {
    k > 0 && exists j: nat :: j < i && Bit(mask, j) && SubMask(k, Clear(mask, j))
  }

  /** The non-empty subsets of `n` parsers. */
  function Masks(n: nat): set<nat>
  {
    set k: nat | 0 < k < Pow2(n) && IsMask(k, n)
  }

  predicate IsMask(k: nat, n: nat)
  {
    0 < k < Pow2(n)
  }

  lemma NoneBelow(mask: nat)
    ensures forall k: nat :: !Below(k, mask, 0)
  {
  }

  lemma BelowStep(mask: nat, i: nat)
    ensures forall k: nat :: Below(k, mask, i + 1) <==>
      Below(k, mask, i) || (Bit(mask, i) && k > 0 && SubMask(k, Clear(mask, i)))
  {
  }

  lemma AllBelow(mask: nat, n: nat)
    requires mask < Pow2(n)
    ensures forall k: nat :: Below(k, mask, n) <==> k > 0 && k != mask && SubMask(k, mask)
  {
    forall k: nat
      ensures Below(k, mask, n) <==> k > 0 && k != mask && SubMask(k, mask)
    {
      if Below(k, mask, n) {
        var j: nat :| j < n && Bit(mask, j) && SubMask(k, Clear(mask, j));
        SubMaskAtMost(k, Clear(mask, j));
        forall i: nat | Bit(k, i) ensures Bit(mask, i) {
          ClearedBits(mask, j, i);
        }
      } else if k > 0 && k != mask && SubMask(k, mask) {
        var j := ProperSubMask(k, mask);
        BelowPower(mask, n, j);
      }
    }
  }

  /** The memo answers with references and is closed under sub-masks. */
  ghost predicate MemoClosed(memo: map<nat, Parser>, prefix: string)
  {
    && (forall k :: k in memo ==> k > 0 && memo[k] == Reference(prefix, k))
    && (forall k, j: nat :: k in memo && SubMask(j, k) && j > 0 ==> j in memo)
  }

  /** A rule was defined exactly once for each mask. */
  ghost predicate DefinedOnce(defined: seq<nat>, masks: set<nat>)
  {
    NoDuplicates(defined) && forall k :: k in defined <==> k in masks
  }

  lemma NewMask(memo: map<nat, Parser>, defined: seq<nat>, prefix: string, n: nat, mask: nat)
    requires MemoClosed(memo, prefix) && DefinedOnce(defined, memo.Keys)
    requires 0 < mask < Pow2(n) && mask !in memo
    requires forall k :: Below(k, mask, n) ==> k in memo
    ensures MemoClosed(memo[mask := Reference(prefix, mask)], prefix)
    ensures DefinedOnce(defined + [mask], memo.Keys + {mask})
  {
    AllBelow(mask, n);
  }

  lemma BodyStep(prefix: string, done: seq<Parser>, mask: nat, i: nat, n: nat)
    requires i < n
    ensures Bit(mask, i) ==>
      done + Body(prefix, mask, i, n)
      == done + [Then(Given(i), Reference(prefix, Clear(mask, i)))] + Body(prefix, mask, i + 1, n)
    ensures !Bit(mask, i) ==> Body(prefix, mask, i, n) == Body(prefix, mask, i + 1, n)
  {
    if Bit(mask, i) {
      ConcatAssociates(done, [Then(Given(i), Reference(prefix, Clear(mask, i)))], Body(prefix, mask, i + 1, n));
    }
  }

  lemma BodyEnd(prefix: string, mask: nat, n: nat)
    ensures Body(prefix, mask, n, n) == []
  {
  }

  lemma NothingBelowZero()
    ensures forall k: nat :: k > 0 ==> !SubMask(k, 0)
  {
    forall k: nat | k > 0 ensures !SubMask(k, 0) {
      if SubMask(k, 0) {
        SubMaskAtMost(k, 0);
      }
    }
  }

  lemma MemoHit(memo: map<nat, Parser>, prefix: string, mask: nat)
    requires MemoClosed(memo, prefix) && mask in memo
    ensures memo[mask] == Reference(prefix, mask) && mask > 0
    ensures forall k :: k > 0 && SubMask(k, mask) ==> k in memo
  {
  }

  class GrammarBuilder {
    var rules: Grammar
    /** The local map of lines 251-252, which one call of `Permute` owns. */
    var memo: map<nat, Parser>
    /** Every mask handed to `rule`, in order. */
    ghost var defined: seq<nat>

    ghost predicate MemoValid(prefix: string, n: nat, before: Grammar)
      reads this
    {
      && MemoClosed(memo, prefix)
      && DefinedOnce(defined, memo.Keys)
      && RulesFor(rules, before, prefix, n, memo.Keys)
    }

    /** Lines 255-273. */
    method RemainingOf(prefix: string, n: nat, remaining: nat, ghost before: Grammar) returns (p: Parser)
      requires MemoValid(prefix, n, before) && remaining < Pow2(n)
      modifies this
      ensures MemoValid(prefix, n, before)
      ensures p == Reference(prefix, remaining)
      ensures forall k :: k in memo <==> k in old(memo) || (k > 0 && SubMask(k, remaining))
      decreases remaining
    {
      hide SubMask, MemoClosed, DefinedOnce, RulesFor, Bit, Body, Below;
      if remaining == 0 {
        NothingBelowZero();
        return Eps;
      }
      if remaining in memo {
        MemoHit(memo, prefix, remaining);
        return memo[remaining];
      }
      var alternatives: seq<Parser> := [];
      var i := 0;
      NoneBelow(remaining);
      while i < n
        invariant 0 <= i <= n
        invariant MemoValid(prefix, n, before)
        invariant alternatives + Body(prefix, remaining, i, n) == Body(prefix, remaining, 0, n)
        invariant forall k :: k in memo <==> k in old(memo) || Below(k, remaining, i)
      {
        BelowStep(remaining, i);
        BodyStep(prefix, alternatives, remaining, i, n);
        if Bit(remaining, i) {
          var rest := RemainingOf(prefix, n, Clear(remaining, i), before);
          alternatives := alternatives + [Then(Given(i), rest)];
        }
        i := i + 1;
      }
      AllBelow(remaining, n);
      BodyEnd(prefix, remaining, n);
      assert alternatives == alternatives + [] == Body(prefix, remaining, 0, n);
      assert forall k :: k in memo <==> k in old(memo) || (k > 0 && k != remaining && SubMask(k, remaining));
      NewRule(rules, before, prefix, n, memo.Keys, remaining);
      NewMask(memo, defined, prefix, n, remaining);
      rules := rules[RuleName(prefix, remaining) := Choice(alternatives)];
      defined := defined + [remaining];
      ghost var keys := memo.Keys;
      memo := memo[remaining := Reference(prefix, remaining)];
      assert memo.Keys == keys + {remaining};
      SubMaskItself(remaining);
      return memo[remaining];
    }

    /** `n` parsers are given; the grammar already holds `rules`. */
    method Permute(prefix: string, n: nat) returns (p: Parser)
      modifies this
      ensures n < 2 || n > 6 ==> p == InSequence(0, n) && rules == old(rules) && defined == []
      ensures 2 <= n <= 6 ==>
        && p == Reference(prefix, Pow2(n) - 1)
        && RulesFor(rules, old(rules), prefix, n, Masks(n))
        && DefinedOnce(defined, Masks(n)) && |defined| == Pow2(n) - 1
      ensures forall depth: nat :: depth >= n ==> Inline(rules, p, depth) == Permuted(n)
    {
      hide SubMask, Pow2, MemoClosed, DefinedOnce, Reference, RulesFor, Inline, Unmemoised;
      memo, defined := map[], [];
      if n == 0 {
        InlineSequence(rules, 0, n);
        return Eps;
      }
      if n == 1 || n > MaxPermute {
        InlineSequence(rules, 0, n);
        return InSequence(0, n);
      }
      StartValid(rules, prefix, n);
      assert memo.Keys == {};
      ghost var full := Pow2(n) - 1;
      p := RemainingOf(prefix, n, Pow2(n) - 1, old(rules));
      UnderFullMask(n, full);
      AllMasks(memo.Keys, defined, n, full);
      PermuteInlines(rules, old(rules), prefix, n, p);
    }
  }

  // ----- the memo agrees with the plain recursion -----

  lemma AllMasks(keys: set<nat>, defined: seq<nat>, n: nat, full: nat)
    requires full == Pow2(n) - 1 && (forall k :: k in keys <==> 0 < k <= full) && DefinedOnce(defined, keys)
    ensures keys == Masks(n) && |defined| == full
  {
    CountMasks(defined, full);
  }

  lemma PermuteInlines(g: Grammar, before: Grammar, prefix: string, n: nat, p: Parser)
    requires 2 <= n <= MaxPermute && RulesFor(g, before, prefix, n, Masks(n)) && p == Reference(prefix, Pow2(n) - 1)
    ensures forall depth: nat :: depth >= n ==> Inline(g, p, depth) == Permuted(n)
  {
    hide RulesFor, Inline, Unmemoised, Reference;
    OnesOfFull(n);
    forall depth: nat | depth >= n ensures Inline(g, p, depth) == Permuted(n) {
      InlineReference(g, before, prefix, n, Pow2(n) - 1, depth);
    }
  }

  /** A list that names each of 1, ..., last once has `last` entries. */
  lemma {:induction false} CountMasks(s: seq<nat>, last: nat)
    requires NoDuplicates(s) && forall k: nat :: k in s <==> 0 < k <= last
    ensures |s| == last
    decreases last
  {
    if last == 0 {
      assert forall i :: 0 <= i < |s| ==> s[i] in s;
    } else {
      assert last in s;
      var i :| 0 <= i < |s| && s[i] == last;
      var t := s[..i] + s[i + 1..];
      forall k: nat ensures k in t <==> 0 < k <= last - 1 {
        if k in s && k != last {
          var j :| 0 <= j < |s| && s[j] == k;
          assert if j < i then t[j] == k else t[j - 1] == k;
        }
        if k in t {
          var j :| 0 <= j < |t| && t[j] == k;
          assert k == if j < i then s[j] else s[j + 1];
        }
      }
      CountMasks(t, last - 1);
    }
  }

  lemma {:induction false} InlineSequence(g: Grammar, i: nat, n: nat)
    requires i <= n
    ensures forall depth: nat :: Inline(g, InSequence(i, n), depth) == InSequence(i, n)
    decreases n - i
  {
    if i < n {
      InlineSequence(g, i + 1, n);
    }
  }

  /** Following the references of the memoised grammar gives the unmemoised one. */
  lemma {:induction false} InlineReference(g: Grammar, before: Grammar, prefix: string, n: nat, mask: nat, depth: nat)
    requires RulesFor(g, before, prefix, n, Masks(n)) && mask < Pow2(n) && depth >= Ones(mask)
    ensures Inline(g, Reference(prefix, mask), depth) == Unmemoised(mask, n)
    decreases mask, n + 1
  {
    if mask > 0 {
      OnesPositive(mask);
      InlineBody(g, before, prefix, n, mask, 0, depth - 1);
      var body, full := Body(prefix, mask, 0, n), Expanded(mask, 0, n);
      assert mask in Masks(n);
      assert Inline(g, Choice(body), depth - 1)
          == Choice(seq(|body|, k requires 0 <= k < |body| => Inline(g, body[k], depth - 1)));
      assert seq(|body|, k requires 0 <= k < |body| => Inline(g, body[k], depth - 1)) == full;
    }
  }

  lemma {:induction false} InlineBody(
    g: Grammar, before: Grammar, prefix: string, n: nat, mask: nat, i: nat, depth: nat)
    requires RulesFor(g, before, prefix, n, Masks(n)) && 0 < mask < Pow2(n) && depth + 1 >= Ones(mask) && i <= n
    ensures |Body(prefix, mask, i, n)| == |Expanded(mask, i, n)|
    ensures forall k :: 0 <= k < |Body(prefix, mask, i, n)| ==>
      Inline(g, Body(prefix, mask, i, n)[k], depth) == Expanded(mask, i, n)[k]
    decreases mask, n - i
  {
    if i < n {
      InlineBody(g, before, prefix, n, mask, i + 1, depth);
      if Bit(mask, i) {
        OnesOfClear(mask, i);
        InlineReference(g, before, prefix, n, Clear(mask, i), depth);
      }
    }
  }

  // ----- orders -----

  /** `order` runs through the parsers of `mask`, each once. */
  ghost predicate IsOrder(order: seq<nat>, mask: nat)
  {
    NoDuplicates(order) && forall i: nat :: i in order <==> Bit(mask, i)
  }

  lemma OrderOfNone(order: seq<nat>, mask: nat)
    requires IsOrder(order, mask)
    ensures order == [] <==> mask == 0
  {
    if order != [] {
      assert order[0] in order;
      BitIsPart(mask, order[0]);
    } else if mask > 0 {
      var i := SomeBit(mask);
    }
  }

  lemma NoneIsOrder()
    ensures IsOrder([], 0)
  {
    forall i: nat ensures !Bit(0, i) {
      if Bit(0, i) {
        BitIsPart(0, i);
      }
    }
  }

  lemma OrderTail(order: seq<nat>, mask: nat)
    requires IsOrder(order, mask) && order != []
    ensures Bit(mask, order[0]) && IsOrder(order[1..], Clear(mask, order[0]))
  {
    var i := order[0];
    assert i in order;
    forall j: nat ensures j in order[1..] <==> Bit(Clear(mask, i), j) {
      ClearedBits(mask, i, j);
      assert j in order <==> j == i || j in order[1..];
    }
  }

  lemma OrderCons(i: nat, rest: seq<nat>, mask: nat)
    requires Bit(mask, i) && IsOrder(rest, Clear(mask, i))
    ensures IsOrder([i] + rest, mask)
  {
    ClearedBits(mask, i, i);
    forall j: nat ensures j in [i] + rest <==> Bit(mask, j) {
      ClearedBits(mask, i, j);
    }
  }

  // ----- the language of the grammar -----

  /** What the caller's parsers accept, as languages: parser i accepts the words w with
      accepts(i, w). */
  type Languages = (nat, string) -> bool

  ghost predicate Derives(accepts: Languages, p: Parser, w: string)
  {
    match p
    case Eps => w == ""
    case Given(i) => accepts(i, w)
    case Then(a, b) => exists k :: 0 <= k <= |w| && Derives(accepts, a, w[..k]) && Derives(accepts, b, w[k..])
    case Choice(alts) => exists k :: 0 <= k < |alts| && Derives(accepts, alts[k], w)
    case RuleRef(_) => false
  }

  /** The word splits into pieces that the parsers accept one after another. */
  ghost predicate InOrder(accepts: Languages, order: seq<nat>, w: string)
  {
    if order == [] then w == ""
    else exists k :: 0 <= k <= |w| && accepts(order[0], w[..k]) && InOrder(accepts, order[1..], w[k..])
  }

  ghost predicate SomeOrder(accepts: Languages, mask: nat, w: string)
  {
    exists order :: IsOrder(order, mask) && InOrder(accepts, order, w)
  }

  /** Sound: a derived word is a concatenation in some order. */
  lemma {:induction false} DerivedIsOrdered(accepts: Languages, mask: nat, n: nat, w: string)
    requires mask < Pow2(n) && Derives(accepts, Unmemoised(mask, n), w)
    ensures SomeOrder(accepts, mask, w)
    decreases mask
  {
    if mask == 0 {
      NoneIsOrder();
      assert InOrder(accepts, [], w);
    } else {
      var alts := Expanded(mask, 0, n);
      var a :| 0 <= a < |alts| && Derives(accepts, alts[a], w);
      var i := AlternativeIs(mask, 0, n, a);
      var rest := Unmemoised(Clear(mask, i), n);
      var k :| 0 <= k <= |w| && Derives(accepts, Given(i), w[..k]) && Derives(accepts, rest, w[k..]);
      DerivedIsOrdered(accepts, Clear(mask, i), n, w[k..]);
      var tail :| IsOrder(tail, Clear(mask, i)) && InOrder(accepts, tail, w[k..]);
      OrderCons(i, tail, mask);
      assert ([i] + tail)[1..] == tail;
      assert InOrder(accepts, [i] + tail, w);
    }
  }

  /** Complete: every concatenation in some order is derived. */
  lemma {:induction false} OrderedIsDerived(accepts: Languages, mask: nat, n: nat, order: seq<nat>, w: string)
    requires mask < Pow2(n) && IsOrder(order, mask) && InOrder(accepts, order, w)
    ensures Derives(accepts, Unmemoised(mask, n), w)
    decreases mask
  {
    OrderOfNone(order, mask);
    if mask > 0 {
      var i := order[0];
      OrderTail(order, mask);
      BelowPower(mask, n, i);
      var k :| 0 <= k <= |w| && accepts(i, w[..k]) && InOrder(accepts, order[1..], w[k..]);
      OrderedIsDerived(accepts, Clear(mask, i), n, order[1..], w[k..]);
      var a := AlternativeOf(mask, 0, n, i);
      assert Derives(accepts, Given(i), w[..k]);
      assert Derives(accepts, Expanded(mask, 0, n)[a], w);
    }
  }

  lemma {:induction false} AlternativeIs(mask: nat, from: nat, n: nat, a: nat) returns (i: nat)
    requires from <= n && a < |Expanded(mask, from, n)|
    ensures from <= i < n && Bit(mask, i)
    ensures Expanded(mask, from, n)[a] == Then(Given(i), Unmemoised(Clear(mask, i), n))
    decreases n - from
  {
    if !Bit(mask, from) {
      i := AlternativeIs(mask, from + 1, n, a);
    } else if a > 0 {
      i := AlternativeIs(mask, from + 1, n, a - 1);
    } else {
      i := from;
    }
  }

  lemma {:induction false} AlternativeOf(mask: nat, from: nat, n: nat, i: nat) returns (a: nat)
    requires from <= i < n && Bit(mask, i)
    ensures a < |Expanded(mask, from, n)|
    ensures Expanded(mask, from, n)[a] == Then(Given(i), Unmemoised(Clear(mask, i), n))
    decreases n - from
  {
    if i == from {
      a := 0;
    } else {
      a := AlternativeOf(mask, from + 1, n, i);
      if Bit(mask, from) {
        a := a + 1;
      }
    }
  }

  ghost predicate IsPermutation(order: seq<nat>, n: nat)
  {
    NoDuplicates(order) && forall i: nat :: i in order <==> i < n
  }

  lemma FullOrders(order: seq<nat>, n: nat, full: nat)
    requires full == Pow2(n) - 1
    ensures IsOrder(order, full) <==> IsPermutation(order, n)
  {
    forall i: nat ensures Bit(full, i) <==> i < n {
      FullMask(n, i);
    }
  }

  /** Over 2 to 6 parsers the grammar derives exactly the words that are a concatenation,
      in some order, of one word of each parser; otherwise only the given order. */
  lemma PermuteLanguage(accepts: Languages, n: nat, w: string)
    ensures 2 <= n <= 6 ==>
      (Derives(accepts, Permuted(n), w) <==> exists order :: IsPermutation(order, n) && InOrder(accepts, order, w))
    ensures n < 2 || n > 6 ==>
      (Derives(accepts, Permuted(n), w) <==> InOrder(accepts, Upto(0, n), w))
  {
    if 2 <= n <= MaxPermute {
      var full := Pow2(n) - 1;
      if Derives(accepts, Permuted(n), w) {
        DerivedIsOrdered(accepts, full, n, w);
        var order :| IsOrder(order, full) && InOrder(accepts, order, w);
        FullOrders(order, n, full);
      } else if order :| IsPermutation(order, n) && InOrder(accepts, order, w) {
        FullOrders(order, n, full);
        OrderedIsDerived(accepts, full, n, order, w);
      }
    } else {
      SequenceLanguage(accepts, 0, n, w);
    }
  }

  function Upto(i: nat, n: nat): seq<nat>
    requires i <= n
    decreases n - i
  {
    if i == n then [] else [i] + Upto(i + 1, n)
  }

  lemma {:induction false} SequenceLanguage(accepts: Languages, i: nat, n: nat, w: string)
    requires i <= n
    ensures Derives(accepts, InSequence(i, n), w) <==> InOrder(accepts, Upto(i, n), w)
    decreases n - i
  {
    if i < n {
      forall k | 0 <= k <= |w|
        ensures Derives(accepts, InSequence(i + 1, n), w[k..]) <==> InOrder(accepts, Upto(i + 1, n), w[k..])
      {
        SequenceLanguage(accepts, i + 1, n, w[k..]);
      }
      assert Upto(i, n)[1..] == Upto(i + 1, n);
      assert forall k | 0 <= k <= |w| :: Derives(accepts, Given(i), w[..k]) == accepts(i, w[..k]);
    }
  }

  // ----- the same grammar read as a parser -----

  /** How a parser of the engine ends: it fails, it runs out of input, or it stops with
      the rest of the input unread. */
  datatype Outcome = Fail | NeedMore | Matched(rest: string)

  type Matchers = (nat, string) -> Outcome

  /** Ordered choice commits to the first alternative that does not fail; a sequence
      stops at the first part that does not match. */
  function Parse(run: Matchers, p: Parser, s: string): Outcome
    decreases p
  {
    match p
    case Eps => Matched(s)
    case Given(i) => run(i, s)
    case Then(a, b) => (
      var first := Parse(run, a, s);
      if first.Matched? then Parse(run, b, first.rest) else first)
    case Choice(alts) => ParseFirst(run, alts, s)
    case RuleRef(_) => Fail
  }

  function ParseFirst(run: Matchers, alts: seq<Parser>, s: string): Outcome
    decreases alts
  {
    if alts == [] then Fail
    else
      var first := Parse(run, alts[0], s);
      if first.Fail? then ParseFirst(run, alts[1..], s) else first
  }

  function RunInOrder(run: Matchers, order: seq<nat>, s: string): Outcome
    decreases |order|
  {
    if order == [] then Matched(s)
    else
      var first := run(order[0], s);
      if first.Matched? then RunInOrder(run, order[1..], first.rest) else first
  }

  predicate Before(a: seq<nat>, b: seq<nat>)
    decreases |a|
  {
    a != [] && b != [] && (a[0] < b[0] || (a[0] == b[0] && Before(a[1..], b[1..])))
  }

  predicate StartsFrom(order: seq<nat>, i: nat)
  {
    order != [] ==> order[0] >= i
  }

  /** `order` does not fail, and every lexicographically earlier order does. */
  ghost predicate FirstOrder(run: Matchers, mask: nat, from: nat, s: string, order: seq<nat>)
  {
    && IsOrder(order, mask) && StartsFrom(order, from)
    && !RunInOrder(run, order, s).Fail?
    && forall o :: IsOrder(o, mask) && StartsFrom(o, from) && Before(o, order) ==> RunInOrder(run, o, s).Fail?
  }

  ghost predicate AllFail(run: Matchers, mask: nat, from: nat, s: string)
  {
    forall o :: IsOrder(o, mask) && StartsFrom(o, from) ==> RunInOrder(run, o, s).Fail?
  }

  /** The outcome is that of the first order that does not fail, if there is one. */
  ghost predicate Decided(run: Matchers, mask: nat, from: nat, s: string, out: Outcome)
  {
    if out.Fail? then AllFail(run, mask, from, s)
    else exists order :: FirstOrder(run, mask, from, s, order) && RunInOrder(run, order, s) == out
  }

  lemma {:induction false} LeastOrder(mask: nat) returns (least: seq<nat>)
    ensures IsOrder(least, mask)
    ensures forall o :: IsOrder(o, mask) ==> !Before(o, least)
  {
    if mask == 0 {
      NoneIsOrder();
      least := [];
    } else {
      var i := LowestBit(mask);
      var tail := LeastOrder(Clear(mask, i));
      OrderCons(i, tail, mask);
      least := [i] + tail;
      forall o | IsOrder(o, mask) ensures !Before(o, least) {
        OrderOfNone(o, mask);
        OrderTail(o, mask);
        assert least[1..] == tail;
      }
    }
  }

  lemma {:induction false} LowestBit(mask: nat) returns (i: nat)
    requires mask > 0
    ensures Bit(mask, i) && forall j: nat :: Bit(mask, j) ==> i <= j
  {
    if mask % 2 == 1 {
      i := 0;
    } else {
      i := LowestBit(mask / 2);
      i := i + 1;
      forall j: nat | Bit(mask, j) ensures i <= j {
        assert j > 0 && Bit(mask / 2, j - 1);
      }
    }
  }

  lemma RunCons(run: Matchers, i: nat, tail: seq<nat>, s: string)
    ensures RunInOrder(run, [i] + tail, s)
         == (if run(i, s).Matched? then RunInOrder(run, tail, run(i, s).rest) else run(i, s))
  {
    assert ([i] + tail)[1..] == tail;
  }

  /** Among the orders that start with parser i, the alternative for i behaves as the
      first that does not fail. */
  lemma HeadOrder(run: Matchers, mask: nat, i: nat, s: string, tail: seq<nat>)
    requires Bit(mask, i) && IsOrder(tail, Clear(mask, i))
    requires run(i, s).Matched? ==> FirstOrder(run, Clear(mask, i), 0, run(i, s).rest, tail)
    requires !run(i, s).Matched? ==>
      run(i, s).NeedMore? && forall o :: IsOrder(o, Clear(mask, i)) ==> !Before(o, tail)
    ensures FirstOrder(run, mask, i, s, [i] + tail)
  {
    var order := [i] + tail;
    OrderCons(i, tail, mask);
    RunCons(run, i, tail, s);
    assert order[1..] == tail;
    forall o | IsOrder(o, mask) && StartsFrom(o, i) && Before(o, order) ensures RunInOrder(run, o, s).Fail? {
      OrderTail(o, mask);
      assert o[0] == i && Before(o[1..], tail);
      assert StartsFrom(o[1..], 0);
      RunCons(run, i, o[1..], s);
      assert o == [i] + o[1..];
    }
  }

  ghost predicate HeadFails(run: Matchers, mask: nat, i: nat, s: string)
  {
    forall o :: IsOrder(o, mask) && o != [] && o[0] == i ==> RunInOrder(run, o, s).Fail?
  }

  lemma HeadDecided(run: Matchers, mask: nat, i: nat, n: nat, s: string)
    requires Bit(mask, i)
    requires run(i, s).Matched? ==>
      Decided(run, Clear(mask, i), 0, run(i, s).rest, Parse(run, Unmemoised(Clear(mask, i), n), run(i, s).rest))
    ensures var out := Parse(run, Then(Given(i), Unmemoised(Clear(mask, i), n)), s);
      if out.Fail? then HeadFails(run, mask, i, s)
      else exists order :: FirstOrder(run, mask, i, s, order) && RunInOrder(run, order, s) == out
  {
    var rest := Unmemoised(Clear(mask, i), n);
    var out := Parse(run, Then(Given(i), rest), s);
    var first := run(i, s);
    assert Parse(run, Given(i), s) == first;
    assert out == if first.Matched? then Parse(run, rest, first.rest) else first;
    if out.Fail? {
      forall o | IsOrder(o, mask) && o != [] && o[0] == i ensures RunInOrder(run, o, s).Fail? {
        OrderTail(o, mask);
        assert StartsFrom(o[1..], 0);
        RunCons(run, i, o[1..], s);
        assert o == [i] + o[1..];
      }
    } else {
      var tail: seq<nat>;
      if first.Matched? {
        tail :| FirstOrder(run, Clear(mask, i), 0, first.rest, tail) && RunInOrder(run, tail, first.rest) == out;
      } else {
        tail := LeastOrder(Clear(mask, i));
      }
      HeadOrder(run, mask, i, s, tail);
      RunCons(run, i, tail, s);
    }
  }

  /** Orders that start with parser i, or later. */
  lemma WidenDecided(run: Matchers, mask: nat, i: nat, s: string, out: Outcome)
    requires Decided(run, mask, i + 1, s, out) && HeadFails(run, mask, i, s) && mask > 0
    ensures Decided(run, mask, i, s, out)
  {
    if out.Fail? {
      forall o | IsOrder(o, mask) && StartsFrom(o, i) ensures RunInOrder(run, o, s).Fail? {
        OrderOfNone(o, mask);
        assert o[0] == i || StartsFrom(o, i + 1);
      }
    } else {
      var order :| FirstOrder(run, mask, i + 1, s, order) && RunInOrder(run, order, s) == out;
      forall o | IsOrder(o, mask) && StartsFrom(o, i) && Before(o, order) ensures RunInOrder(run, o, s).Fail? {
        OrderOfNone(o, mask);
        assert o[0] == i || StartsFrom(o, i + 1);
      }
      assert FirstOrder(run, mask, i, s, order);
    }
  }

  lemma AbsentHead(run: Matchers, mask: nat, i: nat, s: string)
    requires !Bit(mask, i)
    ensures HeadFails(run, mask, i, s)
  {
    forall o | IsOrder(o, mask) && o != [] ensures o[0] != i {
      assert o[0] in o;
    }
  }

  /** Read as a parser, the grammar does what trying the orders one by one in
      lexicographic order does: it fails only if every order fails, and otherwise ends as
      the first order that does not fail. */
  lemma {:induction false} PermuteParses(run: Matchers, mask: nat, n: nat, s: string)
    requires mask < Pow2(n)
    ensures Decided(run, mask, 0, s, Parse(run, Unmemoised(mask, n), s))
    decreases mask, n + 1
  {
    if mask == 0 {
      NoneIsOrder();
      forall o | IsOrder(o, 0) ensures o == [] {
        OrderOfNone(o, 0);
      }
      assert FirstOrder(run, 0, 0, s, []);
    } else {
      AlternativesParse(run, mask, 0, n, s);
    }
  }

  lemma {:induction false} AlternativesParse(run: Matchers, mask: nat, from: nat, n: nat, s: string)
    requires 0 < mask < Pow2(n) && from <= n
    ensures Decided(run, mask, from, s, ParseFirst(run, Expanded(mask, from, n), s))
    decreases mask, n - from
  {
    if from == n {
      forall o | IsOrder(o, mask) ensures !StartsFrom(o, n) {
        OrderOfNone(o, mask);
        OrderTail(o, mask);
        BelowPower(mask, n, o[0]);
      }
    } else {
      AlternativesParse(run, mask, from + 1, n, s);
      var later := ParseFirst(run, Expanded(mask, from + 1, n), s);
      if !Bit(mask, from) {
        AbsentHead(run, mask, from, s);
        WidenDecided(run, mask, from, s, later);
      } else {
        var p := Then(Given(from), Unmemoised(Clear(mask, from), n));
        var alts := Expanded(mask, from, n);
        assert alts[0] == p && alts[1..] == Expanded(mask, from + 1, n);
        if run(from, s).Matched? {
          PermuteParses(run, Clear(mask, from), n, run(from, s).rest);
        }
        HeadDecided(run, mask, from, n, s);
        if Parse(run, p, s).Fail? {
          WidenDecided(run, mask, from, s, later);
        }
      }
    }
  }

  /** The same, for the whole grammar: it fails exactly when every order fails. */
  lemma PermuteFailsIff(run: Matchers, n: nat, s: string)
    requires 2 <= n <= 6
    ensures Parse(run, Permuted(n), s).Fail? <==>
      forall order :: IsPermutation(order, n) ==> RunInOrder(run, order, s).Fail?
  {
    var full := Pow2(n) - 1;
    PermuteParses(run, full, n, s);
    hide IsOrder, IsPermutation, Parse, RunInOrder, Pow2, Unmemoised;
    var out := Parse(run, Permuted(n), s);
    if out.Fail? {
      forall order | IsPermutation(order, n) ensures RunInOrder(run, order, s).Fail? {
        FullOrders(order, n, full);
        assert StartsFrom(order, 0);
      }
    } else {
      var order :| FirstOrder(run, full, 0, s, order) && RunInOrder(run, order, s) == out;
      FullOrders(order, n, full);
    }
  }
}
