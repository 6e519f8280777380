/** Alphabets, bits, inputs (RFC 4648; common/base64.hpp, lines 79-389). */
module Base64Meaning {
  import opened Sequences
  import opened Base64

  // ----- the alphabets -----

  const Upper := "ABCDEFGHIJKLMNOPQRSTUVWXYZ"
  const Lower := "abcdefghijklmnopqrstuvwxyz"
  const Digits := "0123456789"

  function Table(a: Alphabet): (r: string)
    ensures |r| == 64
  {
    Upper + Lower + Digits + if a == UrlSafe then "-_" else "+/"
  }

  /** The 64 characters, in their order. */
  lemma SymbolIs(a: Alphabet, v: Byte)
    requires v < 64
    ensures Symbol(a, v) as char == Table(a)[v as int]
  {
  }

  /** A decoder for one alphabet gives each of its characters its own place, and no other
      character any. */
  lemma ValueIs(a: Alphabet, c: Byte, v: Byte)
    requires !a.Auto? && v < 64
    ensures ValueOf(a, c) == Value(v, a) <==> Symbol(a, v) == c
    ensures ValueOf(a, c).NoValue? <==> forall w: Byte :: w < 64 ==> Symbol(a, w) != c
  {
    var r := ValueOf(a, c);
    if r.Value? {
      assert Symbol(a, r.v) == c;
      SymbolRoundTrip(a, a, v);
    } else {
      forall w: Byte | w < 64
        ensures Symbol(a, w) != c
      {
        SymbolRoundTrip(a, a, w);
      }
    }
  }

  // ----- groups -----

  /** Three bytes, and four groups of six bits, each read as one number of 24 bits. */
  function FromBytes(i0: Byte, i1: Byte, i2: Byte): bv24
  {
    ((i0 as bv24) << 16) | ((i1 as bv24) << 8) | (i2 as bv24)
  }

  function FromSixes(v0: Byte, v1: Byte, v2: Byte, v3: Byte): bv24
  {
    ((v0 as bv24) << 18) | ((v1 as bv24) << 12) | ((v2 as bv24) << 6) | (v3 as bv24)
  }

  lemma SixBits(i0: Byte, i1: Byte, i2: Byte)
    ensures FromSixes(Six0(i0), Six1(i0, i1), Six2(i1, i2), Six3(i2)) == FromBytes(i0, i1, i2)
  {
  }

  /** Four values that make up the bits of a group, and their characters, with padding for
      those that no bit of the input reaches. */
  predicate Spells(s: seq<Byte>, a: Alphabet, v0: Byte, v1: Byte, v2: Byte, v3: Byte)
    requires s != []
  {
    && v0 < 64 && v1 < 64 && v2 < 64 && v3 < 64
    && FromSixes(v0, v1, v2, v3)
       == FromBytes(s[0], if |s| > 1 then s[1] else 0, if |s| > 2 then s[2] else 0)
    && Quad(s, a) == [Symbol(a, v0), Symbol(a, v1), if |s| > 1 then Symbol(a, v2) else '=' as Byte,
                      if |s| > 2 then Symbol(a, v3) else '=' as Byte]
  }

  /** A group is spelt by its bits in order, six for each character. */
  lemma QuadIs(s: seq<Byte>, a: Alphabet)
    requires s != []
    ensures exists v0, v1, v2, v3 :: Spells(s, a, v0, v1, v2, v3)
  {
    hide Symbol, Six0, Six1, Six2, Six3, FromSixes, FromBytes;
    PadIs(Pad);
    var i1, i2 := if |s| > 1 then s[1] else 0, if |s| > 2 then s[2] else 0;
    SixBits(s[0], i1, i2);
    assert Spells(s, a, Six0(s[0]), Six1(s[0], i1), Six2(i1, i2), Six3(i2));
  }

  /** Each group of three bytes becomes the group of four characters at its place. */
  lemma {:induction false} EncodedGroup(s: seq<Byte>, a: Alphabet, g: nat)
    requires 3 * g < |s|
    ensures 4 * g + 4 <= |Encoded(s, a)| && Encoded(s, a)[4 * g..4 * g + 4] == Quad(s[3 * g..], a)
    decreases g
  {
    hide Quad;
    if g == 0 {
      assert s[0..] == s;
    } else {
      EncodedGroup(s[3..], a, g - 1);
      assert s[3..][3 * (g - 1)..] == s[3 * g..];
      TailOf(Quad(s, a), Encoded(s[3..], a), 4 * g);
    }
  }

  lemma TailOf(q: seq<Byte>, t: seq<Byte>, k: nat)
    requires |q| == 4 <= k && k <= |t|
    ensures (q + t)[k..k + 4] == t[k - 4..k]
  {
  }

  // ----- which inputs are decoded -----

  /** The characters before the first padding are in the alphabet, and nothing but padding
      follows it, unless the decoder is loose. */
  predicate IsAccepted(a: Alphabet, s: seq<Byte>, behavior: Behavior)
  {
    var p := FirstPad(s);
    && (forall i :: 0 <= i < p ==> s[i] as char in Table(a))
    && (behavior == Loose || forall i :: p <= i < |s| ==> s[i] as char == '=')
  }

  function FirstPad(s: seq<Byte>): (p: nat)
    ensures p <= |s| && (p < |s| ==> s[p] as char == '=') && forall i :: 0 <= i < p ==> s[i] as char != '='
  {
    if s == [] || s[0] as char == '=' then 0 else 1 + FirstPad(s[1..])
  }

  lemma InTable(a: Alphabet, c: Byte)
    requires !a.Auto?
    ensures ValueOf(a, c).Value? <==> c as char in Table(a)
  {
    hide ValueOf, Symbol, Table;
    if ValueOf(a, c).Value? {
      var v := ValueOf(a, c).v;
      ValueKeepsAlphabet(a, c);
      ValueIs(a, c, v);
      SymbolIs(a, v);
    } else if c as char in Table(a) {
      var k :| 0 <= k < 64 && Table(a)[k] == c as char;
      var v := k as Byte;
      SymbolIs(a, v);
      ValueIs(a, c, v);
    }
  }

  lemma ValueKeepsAlphabet(a: Alphabet, c: Byte)
    requires !a.Auto? && ValueOf(a, c).Value?
    ensures ValueOf(a, c) == Value(ValueOf(a, c).v, a)
  {
  }

  lemma PadIs(c: Byte)
    ensures (c == Pad <==> c as char == '=') && Pad == '=' as Byte
  {
  }

  lemma {:induction false} AcceptedFrom(a: Alphabet, last: Byte, bits: nat, s: seq<Byte>, behavior: Behavior)
    requires !a.Auto?
    ensures DecodeFrom(a, last, bits, s, behavior).Ok? <==> IsAccepted(a, s, behavior)
    decreases |s|
  {
    hide ValueOf, Emitted, Table;
    if s != [] {
      PadIs(s[0]);
      if s[0] == Pad {
        PadsOnly(s);
      } else {
        InTable(a, s[0]);
        AcceptedStep(a, s, behavior);
        var r := ValueOf(a, s[0]);
        if r.Value? {
          ValueKeepsAlphabet(a, s[0]);
          AcceptedFrom(a, r.v, NextBits(bits), s[1..], behavior);
        }
      }
    }
  }

  lemma PadsOnly(s: seq<Byte>)
    requires s != [] && s[0] == Pad
    ensures AllPad(s[1..]) <==> forall i :: 0 <= i < |s| ==> s[i] as char == '='
  {
    forall i | 0 <= i < |s|
      ensures s[i] == Pad <==> s[i] as char == '='
    {
      PadIs(s[i]);
    }
    assert forall i :: 1 <= i < |s| ==> s[i] == s[1..][i - 1];
  }

  lemma AcceptedStep(a: Alphabet, s: seq<Byte>, behavior: Behavior)
    requires s != [] && s[0] as char != '='
    ensures IsAccepted(a, s, behavior) <==> s[0] as char in Table(a) && IsAccepted(a, s[1..], behavior)
  {
    hide Table;
    assert FirstPad(s) == 1 + FirstPad(s[1..]);
    hide FirstPad;
    assert forall i :: 1 <= i < |s| ==> s[i] == s[1..][i - 1];
  }

  /** Exactly the inputs that are accepted, for each alphabet and when it is detected. */
  lemma DecodesIff(s: seq<Byte>, behavior: Behavior)
    ensures Decoding(s, Standard, behavior).Ok? <==> IsAccepted(Standard, s, behavior)
    ensures Decoding(s, UrlSafe, behavior).Ok? <==> IsAccepted(UrlSafe, s, behavior)
    ensures Decoding(s, Auto, behavior).Ok? <==> IsAccepted(Standard, s, behavior) || IsAccepted(UrlSafe, s, behavior)
  {
    hide DecodeFrom, IsAccepted;
    AcceptedFrom(Standard, 0, 0, s, behavior);
    AcceptedFrom(UrlSafe, 0, 0, s, behavior);
    AutoFrom(0, 0, s, behavior);
  }
}
