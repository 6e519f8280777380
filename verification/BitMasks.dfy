/** Sets of small numbers as bit masks, as the grammar builder uses them
    (common/chat-peg-parser.cpp, lines 250-275).

    Bits are read off by halving, and a set bit is cleared by subtracting its power. */
module BitMasks {

  function Pow2(i: nat): (p: nat)
    ensures p >= 1
  {
    if i == 0 then 1 else 2 * Pow2(i - 1)
  }

  /** `mask & (1u << i)`. */
  predicate Bit(mask: nat, i: nat)
  {
    if i == 0 then mask % 2 == 1 else Bit(mask / 2, i - 1)
  }

  lemma {:induction false} BitIsPart(mask: nat, i: nat)
    requires Bit(mask, i)
    ensures mask >= Pow2(i)
    decreases i
  {
    if i > 0 {
      BitIsPart(mask / 2, i - 1);
    }
  }

  /** `mask & ~(1u << i)` for a bit that is set. */
  function Clear(mask: nat, i: nat): (r: nat)
    requires Bit(mask, i)
    ensures r < mask
  {
    BitIsPart(mask, i);
    mask - Pow2(i)
  }

  lemma {:induction false} ClearedBits(mask: nat, i: nat, j: nat)
    requires Bit(mask, i)
    ensures Bit(Clear(mask, i), j) <==> Bit(mask, j) && j != i
    decreases i
  {
    if i > 0 {
      BitIsPart(mask, i);
      assert Clear(mask, i) / 2 == Clear(mask / 2, i - 1) && Clear(mask, i) % 2 == mask % 2;
      if j > 0 {
        ClearedBits(mask / 2, i - 1, j - 1);
      }
    } else {
      assert Clear(mask, i) / 2 == mask / 2;
    }
  }

  ghost predicate SubMask(a: nat, b: nat)
  {
    forall i: nat :: Bit(a, i) ==> Bit(b, i)
  }

  lemma SubMaskItself(mask: nat)
    ensures SubMask(mask, mask)
  {
  }

  lemma {:induction false} SomeBit(mask: nat) returns (i: nat)
    requires mask > 0
    ensures Bit(mask, i)
  {
    if mask % 2 == 1 {
      i := 0;
    } else {
      i := SomeBit(mask / 2);
      i := i + 1;
    }
  }

  lemma {:induction false} BelowPower(mask: nat, n: nat, i: nat)
    requires mask < Pow2(n) && Bit(mask, i)
    ensures i < n
  {
    BitIsPart(mask, i);
    if n <= i {
      PowersGrow(n, i);
    }
  }

  lemma {:induction false} PowersGrow(a: nat, b: nat)
    requires a <= b
    ensures Pow2(a) <= Pow2(b)
    decreases b
  {
    if a < b {
      PowersGrow(a, b - 1);
    }
  }

  lemma {:induction false} FullMask(n: nat, i: nat)
    ensures Bit(Pow2(n) - 1, i) <==> i < n
    decreases i
  {
    if n == 0 {
      if Bit(0, i) {
        BitIsPart(0, i);
      }
    } else if i > 0 {
      assert (Pow2(n) - 1) / 2 == Pow2(n - 1) - 1;
      FullMask(n - 1, i - 1);
    }
  }

  /** A sub-mask is the whole mask or lies below it with one bit cleared. */
  lemma ProperSubMask(a: nat, b: nat) returns (i: nat)
    requires SubMask(a, b) && a != b
    ensures Bit(b, i) && SubMask(a, Clear(b, i))
  {
    i := MissingBit(a, b);
    forall j: nat | Bit(a, j) ensures Bit(Clear(b, i), j) {
      ClearedBits(b, i, j);
    }
  }

  lemma {:induction false} MissingBit(a: nat, b: nat) returns (i: nat)
    requires SubMask(a, b) && a != b
    ensures Bit(b, i) && !Bit(a, i)
    decreases a + b
  {
    if a % 2 != b % 2 {
      assert Bit(a, 0) ==> Bit(b, 0);
      i := 0;
    } else {
      forall j: nat | Bit(a / 2, j) ensures Bit(b / 2, j) {
        assert Bit(a, j + 1) ==> Bit(b, j + 1);
      }
      i := MissingBit(a / 2, b / 2);
      i := i + 1;
    }
  }

  lemma {:induction false} SubMaskAtMost(a: nat, b: nat)
    requires SubMask(a, b)
    ensures a <= b
    decreases b
  {
    if a != b {
      var i := ProperSubMask(a, b);
      SubMaskAtMost(a, Clear(b, i));
    }
  }

  lemma UnderFullMask(n: nat, full: nat)
    requires full == Pow2(n) - 1
    ensures forall k: nat :: SubMask(k, full) <==> k <= full
  {
    forall k: nat ensures SubMask(k, full) <==> k <= full {
      if k < Pow2(n) {
        forall i: nat | Bit(k, i) ensures Bit(full, i) {
          BelowPower(k, n, i);
          FullMask(n, i);
        }
      } else if SubMask(k, full) {
        SubMaskAtMost(k, full);
      }
    }
  }

  /** The number of bits that are set. */
  function Ones(mask: nat): nat
  {
    if mask == 0 then 0 else mask % 2 + Ones(mask / 2)
  }

  lemma {:induction false} OnesOfFull(n: nat)
    ensures Ones(Pow2(n) - 1) == n
  {
    if n > 0 {
      assert (Pow2(n) - 1) / 2 == Pow2(n - 1) - 1;
      OnesOfFull(n - 1);
    }
  }

  lemma {:induction false} OnesOfClear(mask: nat, i: nat)
    requires Bit(mask, i)
    ensures Ones(mask) == Ones(Clear(mask, i)) + 1
    decreases i
  {
    BitIsPart(mask, i);
    if i > 0 {
      assert Clear(mask, i) / 2 == Clear(mask / 2, i - 1) && Clear(mask, i) % 2 == mask % 2;
      OnesOfClear(mask / 2, i - 1);
    } else {
      assert Clear(mask, i) / 2 == mask / 2;
    }
  }

  lemma {:induction false} OnesPositive(mask: nat)
    requires mask > 0
    ensures Ones(mask) > 0
  {
    if mask % 2 == 0 {
      OnesPositive(mask / 2);
    }
  }
}
