/** What JSON string text stands for: reading it back by section 7 of RFC 8259. */
module JsonMeaning {
  import opened Sequences
  import opened Wrappers
  import opened JsonText

  /** The characters that a backslash may precede, `u` aside. */
  function ShortEscape(c: char): Option<char>
  {
    match c
    case '"' => Some('"')
    case '\\' => Some('\\')
    case '/' => Some('/')
    case 'b' => Some(8 as char)
    case 'f' => Some(12 as char)
    case 'n' => Some('\n')
    case 'r' => Some('\r')
    case 't' => Some('\t')
    case _ => None
  }

  function HexValue(c: char): Option<nat>
  {
    if '0' <= c <= '9' then Some(c as int - '0' as int)
    else if 'a' <= c <= 'f' then Some(10 + c as int - 'a' as int)
    else if 'A' <= c <= 'F' then Some(10 + c as int - 'A' as int)
    else None
  }

  /** The character of four hexadecimal digits. Halves of a surrogate pair stand for no
      character of their own and are not read here. */
  function HexChar(a: char, b: char, c: char, d: char): Option<char>
  {
    match (HexValue(a), HexValue(b), HexValue(c), HexValue(d))
    case (Some(w), Some(x), Some(y), Some(z)) =>
      var n := 0x1000 * w + 0x100 * x + 0x10 * y + z;
      if 0 <= n < 0xD800 || 0xE000 <= n < 0x10000 then Some(n as char) else None
    case _ => None
  }

  function Cons(c: Option<char>, rest: Option<string>): Option<string>
  {
    if c.Some? && rest.Some? then Some([c.value] + rest.value) else None
  }

  /** The characters between the quotes of a JSON string, or nothing when the text is none. */
  function Unescape(s: string): Option<string>
  {
    if s == "" then Some("")
    else if s[0] == '\\' then
      if |s| >= 6 && s[1] == 'u' then Cons(HexChar(s[2], s[3], s[4], s[5]), Unescape(s[6..]))
      else if |s| >= 2 then Cons(ShortEscape(s[1]), Unescape(s[2..]))
      else None
    else if s[0] == '"' || s[0] < ' ' then None
    else Cons(Some(s[0]), Unescape(s[1..]))
  }

  lemma HexDigitReads(n: nat)
    requires n < 16
    ensures HexValue(HexDigit(n)) == Some(n)
  {
  }

  lemma ControlReads(c: char)
    requires c < ' '
    ensures HexChar('0', '0', HexDigit(c as int / 16), HexDigit(c as int % 16)) == Some(c)
  {
    hide HexDigit;
    HexDigitReads(c as int / 16);
    HexDigitReads(c as int % 16);
  }

  lemma ShortReads(c: char, t: string)
    requires c != 'u'
    ensures Unescape(['\\', c] + t) == Cons(ShortEscape(c), Unescape(t))
  {
    hide ShortEscape, HexChar;
    assert (['\\', c] + t)[2..] == t && (['\\', c] + t)[1] == c;
  }

  lemma PlainReads(c: char, t: string)
    requires c != '\\' && c != '"' && c >= ' '
    ensures Unescape([c] + t) == Cons(Some(c), Unescape(t))
  {
    hide ShortEscape, HexChar;
    assert ([c] + t)[1..] == t;
  }

  lemma HexReads(a: char, b: char, c: char, d: char, t: string)
    ensures Unescape(['\\', 'u', a, b, c, d] + t) == Cons(HexChar(a, b, c, d), Unescape(t))
  {
    hide ShortEscape, HexChar;
    var s := ['\\', 'u', a, b, c, d] + t;
    assert s[6..] == t && s[1] == 'u' && s[2] == a && s[3] == b && s[4] == c && s[5] == d;
  }

  lemma EscapedCharReads(c: char, t: string)
    ensures Unescape(EscapeChar(c) + t) == Cons(Some(c), Unescape(t))
  {
    hide Unescape, HexChar, HexDigit;
    var e := EscapeChar(c);
    if |e| == 1 {
      PlainReads(c, t);
    } else if |e| == 2 {
      assert e == ['\\', e[1]];
      ShortReads(e[1], t);
    } else {
      ControlReads(c);
      HexReads('0', '0', HexDigit(c as int / 16), HexDigit(c as int % 16), t);
      assert e == ['\\', 'u', '0', '0', HexDigit(c as int / 16), HexDigit(c as int % 16)];
    }
  }

  /** Escaped text is valid JSON string text and stands for the text that was escaped. */
  lemma {:induction false} UnescapeEscape(s: string)
    ensures Unescape(Escape(s)) == Some(s)
  {
    hide EscapeChar;
    if s != "" {
      UnescapeEscape(s[1..]);
      EscapedCharReads(s[0], Escape(s[1..]));
      HeadAndTail(s);
      hide Unescape;
    }
  }

  // ----- braces -----

  function Count(s: string, c: char): nat
  {
    multiset(s)[c]
  }

  /** Outside strings every brace counts, whatever else is there. */
  lemma {:induction false} DepthOfPlainText(st: Scan, s: string)
    requires !st.inString && !st.escaped && '"' !in s
    ensures ScanFrom(st, s) == st.(depth := st.depth + Count(s, '{') - Count(s, '}'))
    decreases |s|
  {
    if s != "" {
      HeadAndTail(s);
      assert multiset(s) == multiset([s[0]]) + multiset(s[1..]);
      DepthOfPlainText(ScanStep(st, s[0]), s[1..]);
    }
  }

  /** A piece of JSON text: a string, or text without quotes. */
  datatype Piece = InQuotes(text: string) | Bare(text: string)

  function TextOf(ps: seq<Piece>): string
  {
    if ps == [] then "" else (if ps[0].InQuotes? then Quoted(ps[0].text) else ps[0].text) + TextOf(ps[1..])
  }

  function BareBraces(ps: seq<Piece>): int
  {
    if ps == [] then 0
    else (if ps[0].InQuotes? then 0 else Count(ps[0].text, '{') - Count(ps[0].text, '}')) + BareBraces(ps[1..])
  }

  /** The scanner counts exactly the braces outside the strings of a text. */
  lemma {:induction false} DepthCountsBareBraces(d: int, ps: seq<Piece>)
    requires forall i :: 0 <= i < |ps| && ps[i].Bare? ==> '"' !in ps[i].text
    ensures ScanFrom(Scan(false, false, d), TextOf(ps)) == Scan(false, false, d + BareBraces(ps))
    decreases |ps|
  {
    hide Quoted, ScanFrom, Count;
    var st := Scan(false, false, d);
    if ps == [] {
      EmptyScan(st);
    } else {
      var first := if ps[0].InQuotes? then Quoted(ps[0].text) else ps[0].text;
      ScanAppend(st, first, TextOf(ps[1..]));
      if ps[0].InQuotes? {
        QuotedLeavesScanUnchanged(st, ps[0].text);
        DepthCountsBareBraces(d, ps[1..]);
      } else {
        DepthOfPlainText(st, first);
        DepthCountsBareBraces(d + Count(first, '{') - Count(first, '}'), ps[1..]);
      }
    }
  }

  lemma EmptyScan(st: Scan)
    ensures ScanFrom(st, "") == st
  {
  }
}
