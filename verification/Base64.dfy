/** Base64 encoding and decoding (common/base64.hpp, lines 79-389): sections 4 and 5 of
    RFC 4648, with alphabet detection and decoding in place. */
module Base64 {
  import opened Sequences

  /** Bytes and 8-bit characters. */
  type Byte = bv8

  const Pad: Byte := 0x3d  // '='

  datatype Alphabet = Auto | Standard | UrlSafe

  datatype Behavior = Moderate | Loose

  datatype Decoded = Ok(bytes: seq<Byte>) | InvalidCharacter

  // ----- the alphabets -----

  function Symbol(a: Alphabet, v: Byte): Byte
    requires v < 64
  {
    if v < 26 then 0x41 + v          // 'A'..'Z'
    else if v < 52 then 0x47 + v     // 'a'..'z'
    else if v < 62 then v - 4        // '0'..'9'
    else if a == UrlSafe then (if v == 62 then 0x2d else 0x5f)  // '-' '_'
    else (if v == 62 then 0x2b else 0x2f)                       // '+' '/'
  }

  datatype Valued = Value(v: Byte, alphabet: Alphabet) | NoValue

  /** The value of a character, and the alphabet that is known afterwards. */
  function ValueOf(a: Alphabet, c: Byte): (r: Valued)
    ensures r.Value? ==> r.v < 64 && (!a.Auto? ==> r.alphabet == a)
  {
    if 0x41 <= c <= 0x5a then Value(c - 0x41, a)
    else if 0x61 <= c <= 0x7a then Value(c - 0x47, a)
    else if 0x30 <= c <= 0x39 then Value(c + 4, a)
    else if !a.UrlSafe? && c == 0x2b then Value(62, Standard)
    else if !a.UrlSafe? && c == 0x2f then Value(63, Standard)
    else if !a.Standard? && c == 0x2d then Value(62, UrlSafe)
    else if !a.Standard? && c == 0x5f then Value(63, UrlSafe)
    else NoValue
  }

  /** A decoder that still accepts everything the table of `a` can produce. */
  predicate Reads(d: Alphabet, a: Alphabet)
  {
    d == Auto || (d == UrlSafe <==> a == UrlSafe)
  }

  lemma SymbolRoundTrip(d: Alphabet, a: Alphabet, v: Byte)
    requires v < 64 && Reads(d, a)
    ensures var r := ValueOf(d, Symbol(a, v));
            Symbol(a, v) != Pad && r.Value? && r.v == v && Reads(r.alphabet, a)
  {
  }

  // ----- encoding -----

  /** The four groups of six bits of three bytes. */
  function Six0(i0: Byte): (v: Byte)
    ensures v < 64
  {
    (i0 >> 2) & 0x3f
  }

  function Six1(i0: Byte, i1: Byte): (v: Byte)
    ensures v < 64
  {
    ((i0 & 0x3) << 4) | ((i1 >> 4) & 0x0f)
  }

  function Six2(i1: Byte, i2: Byte): (v: Byte)
    ensures v < 64
  {
    ((i1 & 0xf) << 2) | ((i2 >> 6) & 0x03)
  }

  function Six3(i2: Byte): (v: Byte)
    ensures v < 64
  {
    i2 & 0x3f
  }

  function Quad(s: seq<Byte>, a: Alphabet): (q: seq<Byte>)
    requires s != []
    ensures |q| == 4
  {
    [Symbol(a, Six0(s[0])), Symbol(a, Six1(s[0], if |s| > 1 then s[1] else 0)),
     if |s| > 1 then Symbol(a, Six2(s[1], if |s| > 2 then s[2] else 0)) else Pad,
     if |s| > 2 then Symbol(a, Six3(s[2])) else Pad]
  }

  function Encoded(s: seq<Byte>, a: Alphabet): seq<Byte>
  {
    if s == [] then [] else Quad(s, a) + Encoded(s[if |s| < 3 then |s| else 3..], a)
  }

  function RequiredEncodeSize(size: nat): nat
  {
    (size / 3 + if size % 3 != 0 then 1 else 0) * 4
  }

  function MaxDecodeSize(size: nat): nat
  {
    (size / 4 + if size % 4 != 0 then 1 else 0) * 3
  }

  lemma {:induction false} EncodedLength(s: seq<Byte>, a: Alphabet)
    ensures |Encoded(s, a)| == RequiredEncodeSize(|s|)
  {
    hide Quad, RequiredEncodeSize;
    SizeOfGroup(|s|);
    if s != [] {
      EncodedLength(s[if |s| < 3 then |s| else 3..], a);
    }
  }

  lemma SizeOfGroup(n: nat)
    ensures RequiredEncodeSize(n) == if n == 0 then 0 else 4 + RequiredEncodeSize(if n < 3 then 0 else n - 3)
  {
  }

  method Encode(s: seq<Byte>, a: Alphabet) returns (out: seq<Byte>)
    ensures out == Encoded(s, a)
  {
    hide Quad, Symbol;
    out := [];
    var i := 0;
    assert s[0..] == s;
    while i < |s|
      invariant 0 <= i <= |s|
      invariant out + Encoded(s[i..], a) == Encoded(s, a)
    {
      var used, q := EncodeGroup(s, i, a);
      assert s[i..][used..] == s[i + used..];
      ConcatAssociates(out, q, Encoded(s[i + used..], a));
      out, i := out + q, i + used;
    }
    assert s[i..] == [] && out + [] == out;
  }

  /** One turn of the loop: up to three bytes become four characters. */
  method EncodeGroup(s: seq<Byte>, i: nat, a: Alphabet) returns (used: nat, q: seq<Byte>)
    requires i < |s|
    ensures used == (if |s| - i < 3 then |s| - i else 3) && q == Quad(s[i..], a)
  {
    hide Symbol, Six0, Six1, Six2, Six3;
    var i0 := s[i];
    used, q := 1, [Symbol(a, Six0(i0))];
    if i + 1 == |s| {
      NoSecondByte(i0);
      q := q + [Symbol(a, (i0 & 0x3) << 4), Pad, Pad];
      return;
    }
    var i1 := s[i + 1];
    used, q := 2, q + [Symbol(a, Six1(i0, i1))];
    if i + 2 == |s| {
      NoThirdByte(i1);
      q := q + [Symbol(a, (i1 & 0xf) << 2), Pad];
      return;
    }
    var i2 := s[i + 2];
    used, q := 3, q + [Symbol(a, Six2(i1, i2)), Symbol(a, Six3(i2))];
  }

  lemma NoSecondByte(i0: Byte)
    ensures Six1(i0, 0) == (i0 & 0x3) << 4
  {
  }

  lemma NoThirdByte(i1: Byte)
    ensures Six2(i1, 0) == (i1 & 0xf) << 2
  {
  }

  // ----- decoding -----

  /** The byte completed by the next six bits, when `bits` bits are waiting in `last`. */
  function Emitted(last: Byte, bits: nat, part: Byte): seq<Byte>
  {
    if bits == 6 then [(last << 2) | (part >> 4)]
    else if bits == 4 then [(last << 4) | (part >> 2)]
    else if bits == 2 then [(last << 6) | part]
    else []
  }

  function NextBits(bits: nat): nat
  {
    if bits + 6 >= 8 then bits - 2 else bits + 6
  }

  predicate IsBits(bits: nat)
  {
    bits == 0 || bits == 2 || bits == 4 || bits == 6
  }

  function Prepend(b: seq<Byte>, d: Decoded): Decoded
  {
    if d.Ok? then Ok(b + d.bytes) else d
  }

  predicate AllPad(s: seq<Byte>)
  {
    forall i :: 0 <= i < |s| ==> s[i] == Pad
  }

  function DecodeFrom(a: Alphabet, last: Byte, bits: nat, s: seq<Byte>, behavior: Behavior): Decoded
    decreases |s|
  {
    if s == [] then Ok([])
    else if s[0] == Pad then (if behavior == Loose || AllPad(s[1..]) then Ok([]) else InvalidCharacter)
    else
      var r := ValueOf(a, s[0]);
      if r.NoValue? then InvalidCharacter
      else Prepend(Emitted(last, bits, r.v), DecodeFrom(r.alphabet, r.v, NextBits(bits), s[1..], behavior))
  }

  function Decoding(s: seq<Byte>, a: Alphabet, behavior: Behavior): Decoded
  {
    DecodeFrom(a, 0, 0, s, behavior)
  }

  /** The padding check after a padding character at `i - 1`. */
  method OnlyPadding(s: seq<Byte>, i: nat) returns (ok: bool)
    requires i <= |s|
    ensures ok == AllPad(s[i..])
  {
    var j := i;
    while j < |s|
      invariant i <= j <= |s| && AllPad(s[i..j])
    {
      if s[j] != Pad {
        assert s[i..][j - i] == s[j];
        return false;
      }
      assert s[i..j + 1] == s[i..j] + [s[j]];
      j := j + 1;
    }
    assert s[i..j] == s[i..];
    ok := true;
  }

  method Decode(s: seq<Byte>, alphabet: Alphabet, behavior: Behavior) returns (d: Decoded)
    ensures d == Decoding(s, alphabet, behavior)
  {
    hide ValueOf, Emitted, DecodeFrom;
    var out, a, last, bits, i := [], alphabet, 0 as Byte, 0, 0;
    assert s[0..] == s;
    while i < |s|
      invariant 0 <= i <= |s| && IsBits(bits)
      invariant Prepend(out, DecodeFrom(a, last, bits, s[i..], behavior)) == Decoding(s, alphabet, behavior)
    {
      var c := s[i];
      assert s[i..][1..] == s[i + 1..];
      DecodeOnce(a, last, bits, s[i..], behavior);
      i := i + 1;
      if c == Pad {
        assert out + [] == out;
        if behavior != Loose {
          var ok := OnlyPadding(s, i);
          if !ok {
            return InvalidCharacter;
          }
        }
        return Ok(out);
      }
      var r := ValueOf(a, c);
      if r.NoValue? {
        return InvalidCharacter;
      }
      PrependTwice(out, Emitted(last, bits, r.v), DecodeFrom(r.alphabet, r.v, NextBits(bits), s[i..], behavior));
      out := out + Emitted(last, bits, r.v);
      bits, last, a := NextBits(bits), r.v, r.alphabet;
    }
    assert s[i..] == [] && out + [] == out;
    DecodeNothing(a, last, bits, behavior);
    d := Ok(out);
  }

  lemma DecodeOnce(a: Alphabet, last: Byte, bits: nat, s: seq<Byte>, behavior: Behavior)
    requires s != []
    ensures DecodeFrom(a, last, bits, s, behavior) ==
            if s[0] == Pad then (if behavior == Loose || AllPad(s[1..]) then Ok([]) else InvalidCharacter)
            else
              var r := ValueOf(a, s[0]);
              if r.NoValue? then InvalidCharacter
              else Prepend(Emitted(last, bits, r.v), DecodeFrom(r.alphabet, r.v, NextBits(bits), s[1..], behavior))
  {
  }

  // ----- decoding inverts encoding -----

  lemma ThreeBytes(i0: Byte, i1: Byte, i2: Byte)
    ensures (Six0(i0) << 2) | (Six1(i0, i1) >> 4) == i0
    ensures (Six1(i0, i1) << 4) | (Six2(i1, i2) >> 2) == i1
    ensures (Six2(i1, i2) << 6) | Six3(i2) == i2
  {
  }

  /** Decoding one symbol of the encoder's table. */
  lemma DecodeSymbol(d: Alphabet, a: Alphabet, last: Byte, bits: nat, v: Byte, rest: seq<Byte>, behavior: Behavior)
    requires v < 64 && Reads(d, a)
    ensures var d' := ValueOf(d, Symbol(a, v)).alphabet;
            && ValueOf(d, Symbol(a, v)).Value? && Reads(d', a)
            && DecodeFrom(d, last, bits, [Symbol(a, v)] + rest, behavior)
               == Prepend(Emitted(last, bits, v), DecodeFrom(d', v, NextBits(bits), rest, behavior))
  {
    SymbolRoundTrip(d, a, v);
    assert ([Symbol(a, v)] + rest)[1..] == rest;
  }

  lemma PrependTwice(x: seq<Byte>, y: seq<Byte>, d: Decoded)
    ensures Prepend(x, Prepend(y, d)) == Prepend(x + y, d)
  {
    if d.Ok? {
      ConcatAssociates(x, y, d.bytes);
    }
  }

  /** Whatever bits are left over, padding ends the decoding. */
  lemma DecodePadding(d: Alphabet, last: Byte, bits: nat, n: nat, behavior: Behavior)
    requires n <= 2
    ensures DecodeFrom(d, last, bits, [Pad, Pad][..n], behavior) == Ok([])
  {
  }

  /** The first two symbols of a group give its first byte. */
  lemma DecodeTwo(d: Alphabet, a: Alphabet, last: Byte, i0: Byte, i1: Byte, rest: seq<Byte>, behavior: Behavior)
    returns (d': Alphabet)
    requires Reads(d, a)
    ensures Reads(d', a)
    ensures DecodeFrom(d, last, 0, [Symbol(a, Six0(i0)), Symbol(a, Six1(i0, i1))] + rest, behavior)
            == Prepend([i0], DecodeFrom(d', Six1(i0, i1), 4, rest, behavior))
  {
    hide Symbol, ValueOf, DecodeFrom, Six0, Six1;
    var v0, v1 := Six0(i0), Six1(i0, i1);
    ThreeBytes(i0, i1, 0);
    var t := [Symbol(a, v1)] + rest;
    DecodeSymbol(d, a, last, 0, v0, t, behavior);
    assert [Symbol(a, v0), Symbol(a, v1)] + rest == [Symbol(a, v0)] + t;
    var d1 := ValueOf(d, Symbol(a, v0)).alphabet;
    DecodeSymbol(d1, a, v0, 6, v1, rest, behavior);
    d' := ValueOf(d1, Symbol(a, v1)).alphabet;
    PrependTwice([], [i0], DecodeFrom(d', v1, 4, rest, behavior));
    assert [] + [i0] == [i0];
  }

  lemma LastByte(d: Alphabet, a: Alphabet, last: Byte, s: seq<Byte>, behavior: Behavior)
    requires Reads(d, a) && |s| == 1
    ensures DecodeFrom(d, last, 0, Encoded(s, a), behavior) == Ok(s)
  {
    hide Symbol, ValueOf, DecodeFrom, Six0, Six1, Six2, Six3, Emitted;
    var pads := [Pad, Pad][..2];
    assert s[1..] == [];
    assert Encoded(s, a) == [Symbol(a, Six0(s[0])), Symbol(a, Six1(s[0], 0))] + pads;
    var d' := DecodeTwo(d, a, last, s[0], 0, pads, behavior);
    DecodePadding(d', Six1(s[0], 0), 4, 2, behavior);
    assert s == [s[0]] + [];
  }

  lemma LastTwoBytes(d: Alphabet, a: Alphabet, last: Byte, s: seq<Byte>, behavior: Behavior)
    requires Reads(d, a) && |s| == 2
    ensures DecodeFrom(d, last, 0, Encoded(s, a), behavior) == Ok(s)
  {
    hide Symbol, ValueOf, DecodeFrom, Six0, Six1, Six2, Six3, Emitted;
    var pad := [Pad, Pad][..1];
    var tail := [Symbol(a, Six2(s[1], 0))] + pad;
    assert s[2..] == [];
    assert Encoded(s, a) == [Symbol(a, Six0(s[0])), Symbol(a, Six1(s[0], s[1]))] + tail;
    var d' := DecodeTwo(d, a, last, s[0], s[1], tail, behavior);
    DecodeThird(d', a, s[0], s[1], 0, pad, behavior);
    DecodePadding(ValueOf(d', Symbol(a, Six2(s[1], 0))).alphabet, Six2(s[1], 0), 2, 1, behavior);
    assert s == [s[0]] + ([s[1]] + []);
  }

  /** A full group gives its three bytes, and decoding goes on without waiting bits. */
  lemma FullGroup(d: Alphabet, a: Alphabet, last: Byte, s: seq<Byte>, behavior: Behavior)
    returns (d': Alphabet, v: Byte)
    requires Reads(d, a) && |s| >= 3
    ensures Reads(d', a)
    ensures DecodeFrom(d, last, 0, Encoded(s, a), behavior)
            == Prepend([s[0]], Prepend([s[1]], Prepend([s[2]], DecodeFrom(d', v, 0, Encoded(s[3..], a), behavior))))
  {
    var rest := Encoded(s[3..], a);
    assert Encoded(s, a) == Quad(s, a) + rest;
    hide Symbol, ValueOf, DecodeFrom, Six0, Six1, Six2, Six3, Emitted, Encoded, Prepend;
    var t3 := [Symbol(a, Six3(s[2]))] + rest;
    var tail := [Symbol(a, Six2(s[1], s[2]))] + t3;
    assert Quad(s, a) + rest == [Symbol(a, Six0(s[0])), Symbol(a, Six1(s[0], s[1]))] + tail;
    var d2 := DecodeTwo(d, a, last, s[0], s[1], tail, behavior);
    DecodeThird(d2, a, s[0], s[1], s[2], t3, behavior);
    var d3 := ValueOf(d2, Symbol(a, Six2(s[1], s[2]))).alphabet;
    DecodeFourth(d3, a, s[1], s[2], rest, behavior);
    d', v := ValueOf(d3, Symbol(a, Six3(s[2]))).alphabet, Six3(s[2]);
  }

  lemma {:induction false} RoundTripFrom(d: Alphabet, a: Alphabet, last: Byte, s: seq<Byte>, behavior: Behavior)
    requires Reads(d, a)
    ensures DecodeFrom(d, last, 0, Encoded(s, a), behavior) == Ok(s)
    decreases |s|
  {
    if s == [] {
      DecodeNothing(d, last, 0, behavior);
    } else if |s| == 1 {
      LastByte(d, a, last, s, behavior);
    } else if |s| == 2 {
      LastTwoBytes(d, a, last, s, behavior);
    } else {
      hide Encoded, DecodeFrom;
      var d', v := FullGroup(d, a, last, s, behavior);
      RoundTripFrom(d', a, v, s[3..], behavior);
      assert s == [s[0]] + ([s[1]] + ([s[2]] + s[3..]));
    }
  }

  lemma DecodeThird(d: Alphabet, a: Alphabet, i0: Byte, i1: Byte, i2: Byte, rest: seq<Byte>, behavior: Behavior)
    requires Reads(d, a)
    ensures var d' := ValueOf(d, Symbol(a, Six2(i1, i2))).alphabet;
            && ValueOf(d, Symbol(a, Six2(i1, i2))).Value? && Reads(d', a)
            && DecodeFrom(d, Six1(i0, i1), 4, [Symbol(a, Six2(i1, i2))] + rest, behavior)
               == Prepend([i1], DecodeFrom(d', Six2(i1, i2), 2, rest, behavior))
  {
    hide Symbol, ValueOf, DecodeFrom, Six0, Six1, Six2;
    ThreeBytes(i0, i1, i2);
    DecodeSymbol(d, a, Six1(i0, i1), 4, Six2(i1, i2), rest, behavior);
  }

  lemma DecodeFourth(d: Alphabet, a: Alphabet, i1: Byte, i2: Byte, rest: seq<Byte>, behavior: Behavior)
    requires Reads(d, a)
    ensures var d' := ValueOf(d, Symbol(a, Six3(i2))).alphabet;
            && ValueOf(d, Symbol(a, Six3(i2))).Value? && Reads(d', a)
            && DecodeFrom(d, Six2(i1, i2), 2, [Symbol(a, Six3(i2))] + rest, behavior)
               == Prepend([i2], DecodeFrom(d', Six3(i2), 0, rest, behavior))
  {
    hide Symbol, ValueOf, DecodeFrom, Six2, Six3;
    ThreeBytes(0, i1, i2);
    DecodeSymbol(d, a, Six2(i1, i2), 2, Six3(i2), rest, behavior);
  }

  lemma DecodeNothing(d: Alphabet, last: Byte, bits: nat, behavior: Behavior)
    ensures DecodeFrom(d, last, bits, [], behavior) == Ok([])
  {
  }

  /** For every byte sequence: what either alphabet encodes is decoded by the same alphabet
      and by automatic detection. */
  lemma RoundTrip(s: seq<Byte>, a: Alphabet, d: Alphabet, behavior: Behavior)
    requires Reads(d, a)
    ensures Decoding(Encoded(s, a), d, behavior) == Ok(s)
  {
    RoundTripFrom(d, a, 0, s, behavior);
  }

  // ----- automatic detection -----

  /** Detection decodes like the standard decoder where that one succeeds, and like the
      URL-safe one otherwise: it accepts exactly what one of the two accepts. */
  lemma {:induction false} AutoFrom(last: Byte, bits: nat, s: seq<Byte>, behavior: Behavior)
    ensures var std := DecodeFrom(Standard, last, bits, s, behavior);
            var url := DecodeFrom(UrlSafe, last, bits, s, behavior);
            && DecodeFrom(Auto, last, bits, s, behavior) == (if std.Ok? then std else url)
            && (std.Ok? && url.Ok? ==> std == url)
    decreases |s|
  {
    hide Emitted;
    if s != [] && s[0] != Pad {
      var r, rs, ru := ValueOf(Auto, s[0]), ValueOf(Standard, s[0]), ValueOf(UrlSafe, s[0]);
      if r.Value? {
        if r.alphabet.Auto? {
          AutoFrom(r.v, NextBits(bits), s[1..], behavior);
        } else {
          assert r.alphabet.Standard? ==> rs == r && ru.NoValue?;
          assert r.alphabet.UrlSafe? ==> ru == r && rs.NoValue?;
        }
      }
    }
  }

  lemma AutoDetection(s: seq<Byte>, behavior: Behavior, bytes: seq<Byte>)
    ensures Decoding(s, Auto, behavior) == Ok(bytes)
            <==> Decoding(s, Standard, behavior) == Ok(bytes) || Decoding(s, UrlSafe, behavior) == Ok(bytes)
  {
    AutoFrom(0, 0, s, behavior);
  }

  // ----- sizes and decoding in place -----

  lemma {:induction false} DecodedLength(a: Alphabet, last: Byte, bits: nat, s: seq<Byte>, behavior: Behavior)
    requires IsBits(bits) && DecodeFrom(a, last, bits, s, behavior).Ok?
    ensures 8 * |DecodeFrom(a, last, bits, s, behavior).bytes| <= 6 * |s| + bits
    decreases |s|
  {
    if s != [] && s[0] != Pad {
      var r := ValueOf(a, s[0]);
      DecodedLength(r.alphabet, r.v, NextBits(bits), s[1..], behavior);
    }
  }

  lemma DecodedFits(s: seq<Byte>, a: Alphabet, behavior: Behavior)
    requires Decoding(s, a, behavior).Ok?
    ensures |Decoding(s, a, behavior).bytes| <= MaxDecodeSize(|s|)
  {
    DecodedLength(a, 0, 0, s, behavior);
  }

  /** The bytes that are complete before the input ends, is padded or is found invalid. */
  function Completed(a: Alphabet, last: Byte, bits: nat, s: seq<Byte>): seq<Byte>
    decreases |s|
  {
    if s == [] || s[0] == Pad || ValueOf(a, s[0]).NoValue? then []
    else
      var r := ValueOf(a, s[0]);
      Emitted(last, bits, r.v) + Completed(r.alphabet, r.v, NextBits(bits), s[1..])
  }

  /** Of an input that is accepted these are all the bytes. */
  lemma {:induction false} AcceptedIsCompleted(a: Alphabet, last: Byte, bits: nat, s: seq<Byte>, behavior: Behavior)
    requires DecodeFrom(a, last, bits, s, behavior).Ok?
    ensures DecodeFrom(a, last, bits, s, behavior).bytes == Completed(a, last, bits, s)
    decreases |s|
  {
    hide ValueOf, Emitted, NextBits;
    if s != [] && s[0] != Pad {
      var r := ValueOf(a, s[0]);
      AcceptedIsCompleted(r.alphabet, r.v, NextBits(bits), s[1..], behavior);
    }
  }

  lemma StepOnce(a: Alphabet, last: Byte, bits: nat, s: seq<Byte>, behavior: Behavior)
    requires s != []
    ensures s[0] == Pad ==> (DecodeFrom(a, last, bits, s, behavior).Ok? <==> behavior == Loose || AllPad(s[1..]))
    ensures s[0] == Pad || ValueOf(a, s[0]).NoValue? ==> Completed(a, last, bits, s) == []
    ensures s[0] != Pad && ValueOf(a, s[0]).NoValue? ==> !DecodeFrom(a, last, bits, s, behavior).Ok?
    ensures var r := ValueOf(a, s[0]);
            s[0] != Pad && r.Value? ==>
              && Completed(a, last, bits, s)
                 == Emitted(last, bits, r.v) + Completed(r.alphabet, r.v, NextBits(bits), s[1..])
              && (DecodeFrom(a, last, bits, s, behavior).Ok?
                  <==> DecodeFrom(r.alphabet, r.v, NextBits(bits), s[1..], behavior).Ok?)
  {
    hide ValueOf, Emitted, NextBits;
  }

  /** Decoding into the buffer that is being read: the result is that of decoding elsewhere,
      because writing never catches up with reading. Accepted or not, the completed bytes are
      at the front and the rest of the buffer is untouched. */
  method DecodeInPlace(buffer: array<Byte>, alphabet: Alphabet, behavior: Behavior) returns (ok: bool, size: nat)
    modifies buffer
    ensures ok <==> Decoding(old(buffer[..]), alphabet, behavior).Ok?
    ensures size <= buffer.Length && buffer[..size] == Completed(alphabet, 0, 0, old(buffer[..]))
    ensures buffer[size..] == old(buffer[size..])
    ensures ok ==> buffer[..size] == Decoding(old(buffer[..]), alphabet, behavior).bytes
  {
    hide ValueOf, Emitted, DecodeFrom, NextBits, Completed, Decoding;
    ghost var s := buffer[..];
    Accepted(s, alphabet, behavior);
    var a, last, bits, i := alphabet, 0 as Byte, 0, 0;
    ok, size := true, 0;
    assert s[0..] == s && buffer[..0] == [];
    while i < buffer.Length
      invariant 0 <= i <= buffer.Length && IsBits(bits) && 8 * size + bits == 6 * i
      invariant buffer[size..] == s[size..]
      invariant buffer[..size] + Completed(a, last, bits, s[i..]) == Completed(alphabet, 0, 0, s)
      invariant DecodeFrom(a, last, bits, s[i..], behavior).Ok? <==> Decoding(s, alphabet, behavior).Ok?
    {
      ghost var rest := s[i..];
      var c := buffer[i];
      SameAhead(buffer[..], s, size, i);
      assert rest[0] == c && rest[1..] == s[i + 1..];
      StepOnce(a, last, bits, rest, behavior);
      i := i + 1;
      if c == Pad {
        if behavior != Loose {
          ok := OnlyPadding(buffer[..], i);
        }
        assert buffer[..size] + [] == buffer[..size];
        return;
      }
      var r := ValueOf(a, c);
      if r.NoValue? {
        ok := false;
        assert buffer[..size] + [] == buffer[..size];
        return;
      }
      var b := Emitted(last, bits, r.v);
      ConcatAssociates(buffer[..size], b, Completed(r.alphabet, r.v, NextBits(bits), s[i..]));
      BitsAfter(last, bits, r.v);
      if bits + 6 >= 8 {
        SameAhead(buffer[..], s, size, size);
        assert b == [b[0]];
        Put(buffer, size, b[0]);
        size := size + 1;
      } else {
        assert buffer[..size] + b == buffer[..size];
      }
      bits, last, a := NextBits(bits), r.v, r.alphabet;
    }
    assert s[i..] == [] && buffer[..size] + [] == buffer[..size];
    DecodeNothing(a, last, bits, behavior);
    assert Completed(a, last, bits, []) == [] by { NothingCompleted(a, last, bits); }
  }

  lemma Accepted(s: seq<Byte>, a: Alphabet, behavior: Behavior)
    ensures Decoding(s, a, behavior) == DecodeFrom(a, 0, 0, s, behavior)
    ensures Decoding(s, a, behavior).Ok? ==> Decoding(s, a, behavior).bytes == Completed(a, 0, 0, s)
  {
    if Decoding(s, a, behavior).Ok? {
      AcceptedIsCompleted(a, 0, 0, s, behavior);
    }
  }

  lemma NothingCompleted(a: Alphabet, last: Byte, bits: nat)
    ensures Completed(a, last, bits, []) == []
  {
  }

  method Put(buffer: array<Byte>, size: nat, b: Byte)
    requires size < buffer.Length
    modifies buffer
    ensures buffer[..size + 1] == old(buffer[..size]) + [b] && buffer[size + 1..] == old(buffer[size + 1..])
  {
    buffer[size] := b;
  }

  /** What is ahead of the write position is ahead of the read position. */
  lemma SameAhead(b: seq<Byte>, s: seq<Byte>, size: nat, i: nat)
    requires size <= i < |b| == |s| && b[size..] == s[size..]
    ensures b[i] == s[i] && b[i + 1..] == s[i + 1..]
  {
    assert b[size..][i - size] == s[size..][i - size];
    assert b[i + 1..] == b[size..][i + 1 - size..] && s[i + 1..] == s[size..][i + 1 - size..];
  }

  /** A byte is written when eight bits have come together; otherwise nothing is. */
  lemma BitsAfter(last: Byte, bits: nat, part: Byte)
    requires IsBits(bits)
    ensures IsBits(NextBits(bits))
    ensures if bits + 6 >= 8 then |Emitted(last, bits, part)| == 1 && NextBits(bits) == bits - 2
            else Emitted(last, bits, part) == [] && NextBits(bits) == bits + 6
  {
  }
}
