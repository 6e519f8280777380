/** JSON text as the chat pipeline builds it (common/chat-peg-parser.cpp, lines 44-79):
    string escaping, one character at a time, and the scanner that counts the braces
    outside strings. */
module JsonText {
  import opened Sequences

  // ----- string escaping -----

  function HexDigit(n: nat): char
    requires n < 16
  {
    "0123456789abcdef"[n]
  }

  /** The image of one character inside a JSON string: section 7 of RFC 8259, with the
      short forms and the lower-case \u00xx form that the JSON library emits. */
  function EscapeChar(c: char): (r: string)
    ensures r != ""
  {
    if c == '"' then "\\\""
    else if c == '\\' then "\\\\"
    else if c == 8 as char then "\\b"
    else if c == 12 as char then "\\f"
    else if c == '\n' then "\\n"
    else if c == '\r' then "\\r"
    else if c == '\t' then "\\t"
    else if c < ' ' then "\\u00" + [HexDigit(c as int / 16), HexDigit(c as int % 16)]
    else [c]
  }

  /** Escaping works character by character, so it distributes over concatenation. */
  function Escape(s: string): string
  {
    if s == "" then "" else EscapeChar(s[0]) + Escape(s[1..])
  }

  lemma {:induction false} EscapeAppend(a: string, b: string)
    ensures Escape(a + b) == Escape(a) + Escape(b)
  {
    if a == "" {
      assert a + b == b;
    } else {
      assert (a + b)[0] == a[0] && (a + b)[1..] == a[1..] + b;
      EscapeAppend(a[1..], b);
      ConcatAssociates(EscapeChar(a[0]), Escape(a[1..]), Escape(b));
    }
  }

  lemma EscapePrefix(a: string, b: string)
    requires a <= b
    ensures Escape(a) <= Escape(b)
  {
    EscapeAppend(a, b[|a|..]);
    assert b == a + b[|a|..];
  }

  function Quoted(s: string): string
  {
    "\"" + Escape(s) + "\""
  }

  // ----- the brace scanner -----

  datatype Scan = Scan(inString: bool, escaped: bool, depth: int)

  const ScanStart := Scan(false, false, 0)

  function ScanStep(st: Scan, c: char): Scan
  {
    if st.escaped then st.(escaped := false)
    else if c == '\\' && st.inString then st.(escaped := true)
    else if c == '"' then st.(inString := !st.inString)
    else if st.inString then st
    else if c == '{' then st.(depth := st.depth + 1)
    else if c == '}' then st.(depth := st.depth - 1)
    else st
  }

  function ScanFrom(st: Scan, s: string): Scan
    decreases |s|
  {
    if s == "" then st else ScanFrom(ScanStep(st, s[0]), s[1..])
  }

  function BraceDepth(s: string): int
  {
    ScanFrom(ScanStart, s).depth
  }

  lemma {:induction false} ScanAppend(st: Scan, a: string, b: string)
    ensures ScanFrom(st, a + b) == ScanFrom(ScanFrom(st, a), b)
    decreases |a|
  {
    if a == "" {
      assert a + b == b;
    } else {
      ScanAppend(ScanStep(st, a[0]), a[1..], b);
      assert (a + b)[1..] == a[1..] + b;
    }
  }

  /** The same scan, begun at another depth. */
  function Deeper(st: Scan, k: int): Scan
  {
    st.(depth := st.depth + k)
  }

  lemma {:induction false} ScanDeeper(st: Scan, k: int, s: string)
    ensures ScanFrom(Deeper(st, k), s) == Deeper(ScanFrom(st, s), k)
    decreases |s|
  {
    if s != "" {
      ScanDeeper(ScanStep(st, s[0]), k, s[1..]);
    }
  }

  method JsonBraceDepth(s: string) returns (depth: int)
    ensures depth == BraceDepth(s)
  {
    depth := 0;
    var inString, escaped := false, false;
    var i := 0;
    while i < |s|
      invariant 0 <= i <= |s|
      invariant ScanFrom(Scan(inString, escaped, depth), s[i..]) == ScanFrom(ScanStart, s)
    {
      var c := s[i];
      assert s[i..][1..] == s[i + 1..];
      if escaped {
        escaped := false;
      } else if c == '\\' && inString {
        escaped := true;
      } else if c == '"' {
        inString := !inString;
      } else if !inString {
        if c == '{' {
          depth := depth + 1;
        } else if c == '}' {
          depth := depth - 1;
        }
      }
      i := i + 1;
    }
  }

  /** A scan that starts inside a string stays there over escaped text: an escaped
      string never closes early and never leaves a dangling backslash. */
  lemma {:induction false} EscapedTextStaysInString(st: Scan, s: string)
    requires st.inString && !st.escaped
    ensures ScanFrom(st, Escape(s)) == st
    decreases |s|
  {
    if s != "" {
      var e := EscapeChar(s[0]);
      ScanAppend(st, e, Escape(s[1..]));
      EscapedTextStaysInString(st, s[1..]);
      EscapedCharStaysInString(st, s[0]);
    }
  }

  lemma EscapedCharStaysInString(st: Scan, c: char)
    requires st.inString && !st.escaped
    ensures ScanFrom(st, EscapeChar(c)) == st
  {
    var e := EscapeChar(c);
    if |e| == 1 {
      assert e[1..] == "";
    } else {
      assert e[0] == '\\' && e[1..][0] == e[1] && e[1..][1..] == e[2..];
      PlainTextStaysInString(st, e[2..]);
    }
  }

  lemma {:induction false} PlainTextStaysInString(st: Scan, s: string)
    requires st.inString && !st.escaped && '"' !in s && '\\' !in s
    ensures ScanFrom(st, s) == st
    decreases |s|
  {
    if s != "" {
      PlainTextStaysInString(st, s[1..]);
    }
  }

  lemma QuotedLeavesScanUnchanged(st: Scan, s: string)
    requires !st.inString && !st.escaped
    ensures ScanFrom(st, Quoted(s)) == st
  {
    var inside := st.(inString := true);
    assert Quoted(s)[1..] == Escape(s) + "\"";
    ScanAppend(inside, Escape(s), "\"");
    EscapedTextStaysInString(inside, s);
  }

  // ----- closing braces -----

  function Repeat(c: char, n: nat): (r: string)
    ensures |r| == n && forall i :: 0 <= i < n ==> r[i] == c
  {
    if n == 0 then "" else [c] + Repeat(c, n - 1)
  }

  lemma {:induction false} ClosingBraces(st: Scan, n: nat)
    requires !st.inString && !st.escaped
    ensures ScanFrom(st, Repeat('}', n)) == st.(depth := st.depth - n)
    decreases n
  {
    if n > 0 {
      ClosingBraces(st.(depth := st.depth - 1), n - 1);
    }
  }
}
