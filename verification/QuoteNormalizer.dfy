/** Rewriting Python quoting and literals into JSON
    (normalize_quotes_to_json, common/chat-peg-parser.cpp, lines 81-188). */
module QuoteNormalizer {
  import opened Sequences
  import opened JsonText

  // ----- the normaliser -----

  /** Which string the scan position is in. */
  datatype Quote = Out | InSingle | InDouble

  predicate IsWordChar(c: char)
  {
    'a' <= c <= 'z' || 'A' <= c <= 'Z' || '0' <= c <= '9' || c == '_'
  }

  /** Length of the maximal run of word characters at the front of `s`. */
  function WordLen(s: string): (n: nat)
    ensures n <= |s|
    ensures forall i :: 0 <= i < n ==> IsWordChar(s[i])
    ensures n < |s| ==> !IsWordChar(s[n])
  {
    if s != "" && IsWordChar(s[0]) then 1 + WordLen(s[1..]) else 0
  }

  predicate IsLiteralPrefix(token: string)
  {
    token <= "True" || token <= "False" || token <= "None"
  }

  /** The JSON spelling of a prefix of a Python literal, cut at the same length. */
  function JsonLiteral(token: string): (r: string)
    requires IsLiteralPrefix(token)
    ensures |r| == |token|
  {
    if token <= "True" then "true"[..|token|]
    else if token <= "False" then "false"[..|token|]
    else "null"[..|token|]
  }

  predicate StartsLiteral(c: char)
  {
    c == 'T' || c == 'F' || c == 'N'
  }

  /** What one turn of the loop does: input characters used, text emitted, quote state
      left behind, and whether the last character used is a word character. */
  datatype Turn = Turn(used: nat, out: string, next: Quote, afterWord: bool)

  function Step(q: Quote, afterWord: bool, s: string): (t: Turn)
    requires s != ""
    ensures 1 <= t.used <= |s|
  {
    var c := s[0];
    if c == '\\' && |s| > 1 && q != Out then
      Turn(2, if q == InSingle && s[1] == '\'' then "'" else [c, s[1]], q, IsWordChar(s[1]))
    else if c == '"' then
      if q == InSingle then Turn(1, "\\\"", q, false)
      else Turn(1, "\"", if q == InDouble then Out else InDouble, false)
    else if c == '\'' then
      if q == InDouble then Turn(1, "'", q, false)
      else Turn(1, "\"", if q == InSingle then Out else InSingle, false)
    else if q == Out && StartsLiteral(c) && !afterWord then
      var n := WordLen(s);
      if IsLiteralPrefix(s[..n]) then Turn(n, JsonLiteral(s[..n]), q, true) else Turn(1, [c], q, true)
    else Turn(1, [c], q, IsWordChar(c))
  }

  /** What is emitted for the rest `s` of the input; `afterWord` says whether the
      character just before `s` is a word character. */
  function Normalize(q: Quote, afterWord: bool, s: string): string
    decreases |s|
  {
    if s == "" then ""
    else
      var t := Step(q, afterWord, s);
      t.out + Normalize(t.next, t.afterWord, s[t.used..])
  }

  function NormalizeQuotes(s: string): string
  {
    Normalize(Out, false, s)
  }

  predicate AfterWord(input: string, i: nat)
    requires i <= |input|
  {
    i > 0 && IsWordChar(input[i - 1])
  }

  function QuoteOf(inSingle: bool, inDouble: bool): Quote
  {
    if inSingle then InSingle else if inDouble then InDouble else Out
  }

  method NormalizeQuotesToJson(input: string) returns (result: string)
    ensures result == NormalizeQuotes(input)
  {
    hide Step;
    result := "";
    var inSingle, inDouble := false, false;
    var i := 0;
    assert input[0..] == input;
    while i < |input|
      invariant 0 <= i <= |input|
      invariant !(inSingle && inDouble)
      invariant NormalizeQuotes(input) ==
                result + Normalize(QuoteOf(inSingle, inDouble), AfterWord(input, i), input[i..])
    {
      ghost var q, w := QuoteOf(inSingle, inDouble), AfterWord(input, i);
      var used, out, single, double := LoopBody(input, i, inSingle, inDouble);
      ghost var t := Step(q, w, input[i..]);
      assert input[i..][used..] == input[i + used..];
      ConcatAssociates(result, out, Normalize(t.next, t.afterWord, input[i + used..]));
      i, result := i + used, result + out;
      inSingle, inDouble := single, double;
    }
  }

  /** The body of the loop at position `i`: how far it moves, what it appends and the
      two flags it leaves. */
  method LoopBody(input: string, i: nat, inSingle: bool, inDouble: bool)
    returns (used: nat, out: string, single: bool, double: bool)
    requires i < |input| && !(inSingle && inDouble)
    ensures !(single && double) && i + used <= |input|
    ensures Step(QuoteOf(inSingle, inDouble), AfterWord(input, i), input[i..]) ==
            Turn(used, out, QuoteOf(single, double), AfterWord(input, i + used))
  {
    var c := input[i];
    used, out, single, double := 1, [c], inSingle, inDouble;
    if c == '\\' && i + 1 < |input| {
      var next := input[i + 1];
      if inSingle {
        used := 2;
        if next == '\'' {
          out := "'";
        } else if next == '"' {
          out := "\\\"";
        } else {
          out := [c, next];
        }
      } else if inDouble {
        used, out := 2, [c, next];
      }
    } else if c == '"' {
      if inSingle {
        out := "\\\"";
      } else {
        double := !inDouble;
      }
    } else if c == '\'' {
      if !inDouble {
        single, out := !inSingle, "\"";
      }
    } else if !inSingle && !inDouble && StartsLiteral(c) && !AfterWord(input, i) {
      var n := ScanWord(input, i);
      var token := input[i..i + n];
      assert input[i..][..n] == token;
      if IsLiteralPrefix(token) {
        used, out := n, JsonLiteral(token);
        assert IsWordChar(input[i..][n - 1]);
      }
    }
  }

  method ScanWord(input: string, i: nat) returns (n: nat)
    requires i <= |input|
    ensures n == WordLen(input[i..])
  {
    n := 0;
    while i + n < |input| && IsWordChar(input[i + n])
      invariant i + n <= |input|
      invariant WordLen(input[i..]) == n + WordLen(input[i + n..])
    {
      assert input[i + n..][1..] == input[i + n + 1..];
      n := n + 1;
    }
  }

  // ----- Python quoting, as a character automaton without look-ahead -----

  datatype Place =
    | Outside(word: string)  // the unquoted word read so far, "" after a non-word character
    | Single(escaping: bool)
    | Double(escaping: bool)

  function PlaceStep(p: Place, c: char): Place
  {
    match p
    case Outside(word) =>
      if c == '"' then Double(false)
      else if c == '\'' then Single(false)
      else if IsWordChar(c) then Outside(word + [c])
      else Outside("")
    case Single(escaping) =>
      if escaping then Single(false)
      else if c == '\\' then Single(true)
      else if c == '\'' then Outside("")
      else p
    case Double(escaping) =>
      if escaping then Double(false)
      else if c == '\\' then Double(true)
      else if c == '"' then Outside("")
      else p
  }

  function PlaceAfter(p: Place, s: string): Place
    decreases |s|
  {
    if s == "" then p else PlaceAfter(PlaceStep(p, s[0]), s[1..])
  }

  /** Opening minus closing braces outside Python-quoted strings. */
  function OutsideDepth(p: Place, s: string): int
    decreases |s|
  {
    if s == "" then 0
    else (if p.Outside? && s[0] == '{' then 1 else if p.Outside? && s[0] == '}' then -1 else 0)
         + OutsideDepth(PlaceStep(p, s[0]), s[1..])
  }

  function PlaceOf(q: Quote): Place
  {
    match q case Out => Outside("") case InSingle => Single(false) case InDouble => Double(false)
  }

  predicate Escaping(p: Place)
  {
    !p.Outside? && p.escaping
  }

  lemma {:induction false} PlaceAppend(p: Place, a: string, b: string)
    ensures PlaceAfter(p, a + b) == PlaceAfter(PlaceAfter(p, a), b)
    ensures OutsideDepth(p, a + b) == OutsideDepth(p, a) + OutsideDepth(PlaceAfter(p, a), b)
    decreases |a|
  {
    if a == "" {
      assert a + b == b;
    } else {
      PlaceAppend(PlaceStep(p, a[0]), a[1..], b);
      assert (a + b)[1..] == a[1..] + b;
    }
  }

  lemma {:induction false} PlaceOverWord(p: Place, w: string)
    requires p.Outside? && forall c :: c in w ==> IsWordChar(c)
    ensures PlaceAfter(p, w) == Outside(p.word + w) && OutsideDepth(p, w) == 0
    decreases |w|
  {
    if w != "" {
      assert IsWordChar(w[0]);
      PlaceOverWord(PlaceStep(p, w[0]), w[1..]);
      assert p.word + [w[0]] + w[1..] == p.word + w;
    } else {
      assert p.word + w == p.word;
    }
  }

  // ----- one step of the normaliser at a time: a word, an escape or a character -----

  function ChunkLen(q: Quote, s: string): (n: nat)
    requires s != ""
    ensures 1 <= n <= |s|
  {
    if q == Out && IsWordChar(s[0]) then WordLen(s)
    else if q != Out && s[0] == '\\' && |s| > 1 then 2
    else 1
  }

  function ChunkOut(q: Quote, s: string): (r: string)
    requires s != ""
    ensures r != ""
  {
    var chunk := s[..ChunkLen(q, s)];
    if q == Out then
      if IsWordChar(s[0]) then
        if IsLiteralPrefix(chunk) then JsonLiteral(chunk) else chunk
      else if s[0] == '\'' then "\"" else chunk
    else if q == InSingle then
      if chunk == "\\'" then "'"
      else if chunk == "\"" then "\\\""
      else if chunk == "'" then "\""
      else chunk
    else chunk
  }

  function ChunkQuote(q: Quote, s: string): Quote
    requires s != ""
  {
    match q
    case Out => if s[0] == '"' then InDouble else if s[0] == '\'' then InSingle else Out
    case InSingle => if s[0] == '\'' then Out else q
    case InDouble => if s[0] == '"' then Out else q
  }

  lemma {:induction false} NormalizeInsideWord(s: string)
    ensures Normalize(Out, true, s) == s[..WordLen(s)] + Normalize(Out, false, s[WordLen(s)..])
    decreases |s|
  {
    hide *;
    var n := WordLen(s);
    if n > 0 {
      InsideWordStep(s);
      NormalizeOnce(Out, true, s);
      WordTail(s);
      NormalizeInsideWord(s[1..]);
      assert [s[0]] + s[1..n] == s[..n];
      ConcatAssociates([s[0]], s[1..n], Normalize(Out, false, s[n..]));
    } else {
      NoWordAhead(s);
      assert s[..0] == "" && s[0..] == s && "" + Normalize(Out, false, s) == Normalize(Out, false, s);
    }
  }

  lemma NoWordAhead(s: string)
    requires WordLen(s) == 0
    ensures Normalize(Out, true, s) == Normalize(Out, false, s)
  {
    if s != "" {
      assert !IsWordChar(s[0]) && Step(Out, true, s) == Step(Out, false, s);
      hide Step;
      NormalizeOnce(Out, true, s);
      NormalizeOnce(Out, false, s);
    }
  }

  lemma InsideWordStep(s: string)
    requires s != "" && IsWordChar(s[0])
    ensures Step(Out, true, s) == Turn(1, [s[0]], Out, true)
  {
  }

  lemma WordFlagOnlyMattersOutside(q: Quote, s: string)
    requires q != Out
    ensures Normalize(q, true, s) == Normalize(q, false, s)
  {
    if s != "" {
      assert Step(q, true, s) == Step(q, false, s);
    }
  }

  lemma NormalizeWordChunk(s: string)
    requires s != "" && IsWordChar(s[0])
    ensures Normalize(Out, false, s) == ChunkOut(Out, s) + Normalize(Out, false, s[ChunkLen(Out, s)..])
  {
    hide Step, Normalize, IsLiteralPrefix, JsonLiteral;
    var n := WordLen(s);
    if IsLiteralPrefix(s[..n]) {
      NormalizeLiteral(s, n);
    } else {
      NormalizePlainWord(s, n);
    }
  }

  lemma NormalizeLiteral(s: string, n: nat)
    requires s != "" && IsWordChar(s[0]) && n == WordLen(s) && IsLiteralPrefix(s[..n])
    ensures Normalize(Out, false, s) == JsonLiteral(s[..n]) + Normalize(Out, false, s[n..])
  {
    WordStep(s);
    hide Step, IsLiteralPrefix, JsonLiteral;
    NormalizeInsideWord(s[n..]);
    assert s[n..][..0] == "" && s[n..][0..] == s[n..];
    assert Normalize(Out, true, s[n..]) == Normalize(Out, false, s[n..]) by { hide *; }
  }

  lemma NormalizePlainWord(s: string, n: nat)
    requires s != "" && IsWordChar(s[0]) && n == WordLen(s) && !IsLiteralPrefix(s[..n])
    ensures Normalize(Out, false, s) == s[..n] + Normalize(Out, false, s[n..])
  {
    hide *;
    WordStep(s);
    NormalizeOnce(Out, false, s);
    NormalizeInsideWord(s[1..]);
    WordTail(s);
    assert [s[0]] + s[1..n] == s[..n];
    ConcatAssociates([s[0]], s[1..n], Normalize(Out, false, s[n..]));
  }

  lemma WordTail(s: string)
    requires s != "" && IsWordChar(s[0])
    ensures var n := WordLen(s);
            && n > 0 && WordLen(s[1..]) == n - 1
            && s[1..][..n - 1] == s[1..n] && s[1..][n - 1..] == s[n..]
  {
  }

  lemma NormalizeOnce(q: Quote, afterWord: bool, s: string)
    requires s != ""
    ensures var t := Step(q, afterWord, s);
            t.used <= |s| && Normalize(q, afterWord, s) == t.out + Normalize(t.next, t.afterWord, s[t.used..])
  {
    hide Step;
  }

  lemma WordStep(s: string)
    requires s != "" && IsWordChar(s[0])
    ensures var n := WordLen(s);
            Step(Out, false, s) ==
            if IsLiteralPrefix(s[..n]) then Turn(n, JsonLiteral(s[..n]), Out, true) else Turn(1, [s[0]], Out, true)
  {
    assert IsLiteralPrefix(s[..WordLen(s)]) ==> StartsLiteral(s[..WordLen(s)][0]);
  }

  lemma NormalizeChunk(q: Quote, s: string)
    requires s != ""
    ensures Normalize(q, false, s) ==
            ChunkOut(q, s) + Normalize(ChunkQuote(q, s), false, s[ChunkLen(q, s)..])
  {
    if q == Out && IsWordChar(s[0]) {
      NormalizeWordChunk(s);
    } else {
      var t, n := Step(q, false, s), ChunkLen(q, s);
      ChunkIsStep(q, s);
      if t.next != Out {
        WordFlagOnlyMattersOutside(t.next, s[n..]);
      }
    }
  }

  lemma ChunkIsStep(q: Quote, s: string)
    requires s != "" && !(q == Out && IsWordChar(s[0]))
    ensures var t := Step(q, false, s);
            && t.used == ChunkLen(q, s) && t.out == ChunkOut(q, s) && t.next == ChunkQuote(q, s)
            && (t.next == Out ==> !t.afterWord)
  {
    var n := ChunkLen(q, s);
    if n == 2 {
      assert s[..2] == [s[0], s[1]];
    } else {
      assert s[..1] == [s[0]];
    }
  }

  // ----- the output is JSON quoting that simulates the input's Python quoting -----

  lemma {:induction false} WordCharsLeaveScanUnchanged(st: Scan, w: string)
    requires !st.inString && !st.escaped && forall c :: c in w ==> IsWordChar(c)
    ensures ScanFrom(st, w) == st
    decreases |w|
  {
    if w != "" {
      assert IsWordChar(w[0]);
      WordCharsLeaveScanUnchanged(st, w[1..]);
    }
  }

  lemma ForgetWord(u: string, s: string)
    requires s == "" || !IsWordChar(s[0])
    ensures OutsideDepth(Outside(u), s) == OutsideDepth(Outside(""), s)
    ensures s != "" ==> PlaceAfter(Outside(u), s) == PlaceAfter(Outside(""), s)
  {
    assert s != "" ==> PlaceStep(Outside(u), s[0]) == PlaceStep(Outside(""), s[0]);
  }

  /** The scan state that a place in the input corresponds to. */
  function ScanAt(p: Place, depth: int): Scan
  {
    Scan(!p.Outside?, Escaping(p), depth)
  }

  lemma ScanOverChunk(q: Quote, s: string, depth: int)
    requires s != ""
    ensures var n := ChunkLen(q, s);
            var p := PlaceAfter(PlaceOf(q), s[..n]);
            && ScanFrom(ScanAt(PlaceOf(q), depth), ChunkOut(q, s))
               == ScanAt(p, depth + OutsideDepth(PlaceOf(q), s[..n]))
            && (if q == Out && IsWordChar(s[0]) then p == Outside(s[..n])
                else p == PlaceOf(ChunkQuote(q, s)) || n == |s|)
  {
    var n := ChunkLen(q, s);
    var chunk, out := s[..n], ChunkOut(q, s);
    if q == Out && IsWordChar(s[0]) {
      PlaceOverWord(Outside(""), chunk);
      WordOutputIsWord(s);
      WordCharsLeaveScanUnchanged(ScanAt(Outside(""), depth), out);
    } else if n == 2 {
      assert chunk == [s[0], s[1]];
      PlaceOverPair(PlaceOf(q), s[0], s[1]);
      ScanOverShort(ScanAt(PlaceOf(q), depth), out);
    } else {
      assert chunk == [s[0]] && chunk[1..] == "";
      ScanOverShort(ScanAt(PlaceOf(q), depth), out);
    }
  }

  lemma PlaceOverPair(p: Place, a: char, b: char)
    requires !p.Outside?
    ensures PlaceAfter(p, [a, b]) == PlaceStep(PlaceStep(p, a), b)
    ensures !PlaceStep(p, a).Outside? ==> OutsideDepth(p, [a, b]) == 0
  {
    assert [a, b][1..] == [b] && [b][1..] == "";
    assert PlaceAfter(p, [a, b]) == PlaceAfter(PlaceStep(p, a), [b]);
    assert OutsideDepth(p, [a, b]) == OutsideDepth(PlaceStep(p, a), [b]);
  }

  lemma ScanOverShort(st: Scan, s: string)
    requires 1 <= |s| <= 2
    ensures ScanFrom(st, s) == if |s| == 1 then ScanStep(st, s[0]) else ScanStep(ScanStep(st, s[0]), s[1])
  {
    if |s| == 1 {
      assert s[1..] == "";
    } else {
      assert s[1..] == [s[1]] && s[1..][1..] == "";
      assert ScanFrom(st, s) == ScanFrom(ScanStep(st, s[0]), s[1..]);
    }
  }

  lemma WordOutputIsWord(s: string)
    requires s != "" && IsWordChar(s[0])
    ensures forall c :: c in ChunkOut(Out, s) ==> IsWordChar(c)
  {
  }

  /** For every input, scanning the output as JSON ends inside a string exactly where the
      input ends inside a Python string (and after a backslash exactly when the input
      does), and counts exactly the braces outside the input's Python strings. */
  lemma {:induction false} NormalizeSimulatesFrom(q: Quote, s: string, depth: int)
    ensures ScanFrom(ScanAt(PlaceOf(q), depth), Normalize(q, false, s))
            == ScanAt(PlaceAfter(PlaceOf(q), s), depth + OutsideDepth(PlaceOf(q), s))
    decreases |s|
  {
    hide Normalize, ChunkOut;
    if s == "" {
      NormalizeEmpty(q);
    } else {
      var n := ChunkLen(q, s);
      var chunk, rest, q' := s[..n], s[n..], ChunkQuote(q, s);
      assert s == chunk + rest;
      NormalizeChunk(q, s);
      PlaceAppend(PlaceOf(q), chunk, rest);
      ScanAppend(ScanAt(PlaceOf(q), depth), ChunkOut(q, s), Normalize(q', false, rest));
      ScanOverChunk(q, s, depth);
      NormalizeSimulatesFrom(q', rest, depth + OutsideDepth(PlaceOf(q), chunk));
      if q == Out && IsWordChar(s[0]) {
        ForgetWord(chunk, rest);
      }
      if rest == "" {
        NormalizeEmpty(q');
      }
    }
  }

  lemma NormalizeEmpty(q: Quote)
    ensures Normalize(q, false, "") == ""
  {
  }

  lemma NormalizeSimulatesPythonQuoting(s: string)
    ensures ScanFrom(ScanStart, NormalizeQuotes(s)).inString <==> !PlaceAfter(Outside(""), s).Outside?
    ensures BraceDepth(NormalizeQuotes(s)) == OutsideDepth(Outside(""), s)
  {
    NormalizeSimulatesFrom(Out, s, 0);
  }

  // ----- idempotence -----

  /** The quote state in which the output is read back. */
  function Reread(q: Quote): Quote
  {
    if q == Out then Out else InDouble
  }

  lemma {:induction false} WordLenOfConcat(w: string, r: string)
    requires forall c :: c in w ==> IsWordChar(c)
    requires r == "" || !IsWordChar(r[0])
    ensures WordLen(w + r) == |w|
    decreases |w|
  {
    if w == "" {
      assert w + r == r;
    } else {
      assert IsWordChar(w[0]) && (w + r)[1..] == w[1..] + r;
      WordLenOfConcat(w[1..], r);
    }
  }

  lemma ChunkOfOutput(q: Quote, s: string, r: string)
    requires s != "" && (ChunkLen(q, s) == |s| ==> r == "")
    requires q == Out && IsWordChar(s[0]) && r != "" ==> !IsWordChar(r[0])
    ensures var o := ChunkOut(q, s) + r;
            && ChunkLen(Reread(q), o) == |ChunkOut(q, s)|
            && ChunkOut(Reread(q), o) == ChunkOut(q, s)
            && ChunkQuote(Reread(q), o) == Reread(ChunkQuote(q, s))
  {
    var out := ChunkOut(q, s);
    assert (out + r)[..|out|] == out;
    if q == Out && IsWordChar(s[0]) {
      WordOutputIsWord(s);
      WordLenOfConcat(out, r);
      assert out[0] != '"' && out[0] != '\'';
      assert !IsLiteralPrefix(out);
    }
  }

  lemma NormalizeStartsAtNonWord(s: string)
    requires s == "" || !IsWordChar(s[0])
    ensures Normalize(Out, false, s) == "" || !IsWordChar(Normalize(Out, false, s)[0])
  {
    if s != "" {
      NormalizeChunk(Out, s);
    }
  }

  lemma {:induction false} NormalizeIdempotentFrom(q: Quote, s: string)
    ensures Normalize(Reread(q), false, Normalize(q, false, s)) == Normalize(q, false, s)
    decreases |s|
  {
    hide Normalize, ChunkOut, ChunkLen, ChunkQuote, Step;
    if s == "" {
      NormalizeEmpty(q);
      NormalizeEmpty(Reread(q));
    } else {
      var out, q', rest := ChunkOut(q, s), ChunkQuote(q, s), s[ChunkLen(q, s)..];
      var tail := Normalize(q', false, rest);
      NormalizeChunk(q, s);
      NormalizeIdempotentFrom(q', rest);
      if rest == "" {
        NormalizeEmpty(q');
      }
      if q == Out && IsWordChar(s[0]) {
        WordChunkEndsWord(s);
        NormalizeStartsAtNonWord(rest);
      }
      ChunkOfOutput(q, s, tail);
      NormalizeChunk(Reread(q), out + tail);
      assert (out + tail)[|out|..] == tail;
    }
  }

  lemma WordChunkEndsWord(s: string)
    requires s != "" && IsWordChar(s[0])
    ensures ChunkQuote(Out, s) == Out
    ensures var rest := s[ChunkLen(Out, s)..]; rest == "" || !IsWordChar(rest[0])
  {
  }

  lemma NormalizeIdempotent(s: string)
    ensures NormalizeQuotes(NormalizeQuotes(s)) == NormalizeQuotes(s)
  {
    NormalizeIdempotentFrom(Out, s);
  }

  // ----- prefix monotonicity, and exactly where it fails -----

  /** Cutting `s` at `k` is bad when the cut follows a backslash in a single-quoted string
      and the next character is a single quote, or when it splits an unquoted word whose
      cut part still looks like a literal and whose whole does not. */
  predicate BadCut(p: Place, s: string, k: nat)
    requires k <= |s|
  {
    k < |s| &&
    match PlaceAfter(p, s[..k])
    case Outside(word) =>
      word != "" && IsLiteralPrefix(word) && !IsLiteralPrefix(word + s[k..k + WordLen(s[k..])])
    case Single(escaping) => escaping && s[k] == '\''
    case Double(_) => false
  }

  lemma {:induction false} WordLenPrefix(s: string, k: nat)
    requires k <= |s|
    ensures WordLen(s[..k]) == if k <= WordLen(s) then k else WordLen(s)
  {
    if s != "" && k > 0 && IsWordChar(s[0]) {
      assert s[..k][1..] == s[1..][..k - 1];
      WordLenPrefix(s[1..], k - 1);
    }
  }

  lemma {:induction false} WordLenSuffix(s: string, k: nat)
    requires k <= WordLen(s)
    ensures WordLen(s[k..]) == WordLen(s) - k
  {
    if k > 0 {
      assert s[k..] == s[1..][k - 1..];
      WordLenSuffix(s[1..], k - 1);
    } else {
      assert s[0..] == s;
    }
  }

  lemma ChunkOfPrefix(q: Quote, s: string, k: nat)
    requires s != "" && ChunkLen(q, s) <= k <= |s|
    ensures var c := s[..k];
            && ChunkLen(q, c) == ChunkLen(q, s) && ChunkOut(q, c) == ChunkOut(q, s)
            && ChunkQuote(q, c) == ChunkQuote(q, s)
  {
    WordLenPrefix(s, k);
    assert s[..k][..ChunkLen(q, s)] == s[..ChunkLen(q, s)];
  }

  function SpellWord(word: string): string
  {
    if IsLiteralPrefix(word) then JsonLiteral(word) else word
  }

  lemma NormalizeLeadingWord(s: string)
    requires s != "" && IsWordChar(s[0])
    ensures Normalize(Out, false, s) == SpellWord(s[..WordLen(s)]) + Normalize(Out, false, s[WordLen(s)..])
  {
    hide Normalize, Step;
    NormalizeChunk(Out, s);
  }

  lemma NormalizeLoneWord(s: string)
    requires s != "" && WordLen(s) == |s| && IsWordChar(s[0])
    ensures Normalize(Out, false, s) == SpellWord(s)
  {
    hide *;
    NormalizeLeadingWord(s);
    assert s[|s|..] == "" && s[..|s|] == s;
    NormalizeEmpty(Out);
    assert SpellWord(s) + "" == SpellWord(s);
  }

  lemma BadCutOutside(p: Place, s: string, k: nat, word: string)
    requires k <= |s| && PlaceAfter(p, s[..k]) == Outside(word)
    ensures BadCut(p, s, k)
            <==> k < |s| && word != "" && IsLiteralPrefix(word) && !IsLiteralPrefix(word + s[k..k + WordLen(s[k..])])
  {
    hide PlaceAfter, IsLiteralPrefix, WordLen;
  }

  lemma BadCutInsideWord(s: string, k: nat)
    requires 0 < k < WordLen(s)
    ensures BadCut(Outside(""), s, k) <==> IsLiteralPrefix(s[..k]) && !IsLiteralPrefix(s[..WordLen(s)])
  {
    hide IsLiteralPrefix, PlaceAfter, BadCut, WordLen;
    var n := WordLen(s);
    PlaceOverWord(Outside(""), s[..k]);
    assert "" + s[..k] == s[..k];
    WordLenSuffix(s, k);
    BadCutOutside(Outside(""), s, k, s[..k]);
    assert s[..k] + s[k..n] == s[..n];
  }

  /** The cut falls inside the first word. */
  lemma CutInsideWord(s: string, k: nat)
    requires 0 < k < WordLen(s)
    ensures Normalize(Out, false, s[..k]) <= Normalize(Out, false, s) <==> !BadCut(Outside(""), s, k)
  {
    hide Normalize, Step, IsLiteralPrefix, JsonLiteral, BadCut;
    var n := WordLen(s);
    var cut, word := s[..k], s[..n];
    BadCutInsideWord(s, k);
    NormalizeLeadingWord(s);
    WordLenPrefix(s, k);
    NormalizeLoneWord(cut);
    LiteralCut(cut, word);
    ShortPrefix(SpellWord(cut), SpellWord(word), Normalize(Out, false, s[n..]));
  }

  lemma ShortPrefix(a: string, b: string, c: string)
    requires |a| <= |b|
    ensures a <= b + c <==> a <= b
  {
    assert (b + c)[..|b|] == b;
  }

  lemma LiteralCut(cut: string, word: string)
    requires cut != "" && cut <= word
    ensures SpellWord(cut) <= SpellWord(word) <==> (IsLiteralPrefix(cut) ==> IsLiteralPrefix(word))
  {
    assert cut[0] == word[0];
    assert IsLiteralPrefix(word) ==> IsLiteralPrefix(cut);
    if IsLiteralPrefix(cut) && !IsLiteralPrefix(word) {
      assert SpellWord(cut)[0] != word[0];
    }
  }

  /** The cut falls between a backslash and the character it escapes. */
  lemma CutInsideEscape(q: Quote, s: string)
    requires q != Out && |s| >= 2 && s[0] == '\\'
    ensures Normalize(q, false, s[..1]) <= Normalize(q, false, s) <==> !BadCut(PlaceOf(q), s, 1)
  {
    var cut := s[..1];
    NormalizeChunk(q, s);
    NormalizeChunk(q, cut);
    assert cut == "\\" && cut[1..] == "" && s[..2] == [s[0], s[1]];
    hide Normalize, Step;
    NormalizeEmpty(q);
    assert PlaceAfter(PlaceOf(q), cut) == PlaceAfter(PlaceStep(PlaceOf(q), '\\'), cut[1..]);
    assert ChunkOut(q, cut) == "\\";
    ShortPrefix("\\", ChunkOut(q, s), Normalize(q, false, s[2..]));
  }

  lemma BadCutDependsOnPlace(p: Place, p': Place, a: string, s: string, k: nat)
    requires k <= |s| && (PlaceAfter(p, a + s[..k]) == PlaceAfter(p', s[..k]))
    ensures BadCut(p, a + s, |a| + k) <==> BadCut(p', s, k)
  {
    hide IsLiteralPrefix, PlaceAfter;
    assert (a + s)[..|a| + k] == a + s[..k] && (a + s)[|a| + k..] == s[k..];
    if k < |s| {
      var n := WordLen(s[k..]);
      assert (a + s)[|a| + k..|a| + k + n] == s[k..k + n];
    }
  }

  lemma BadCutAfterChunk(q: Quote, s: string, k: nat)
    requires s != "" && ChunkLen(q, s) <= k <= |s|
    ensures var n := ChunkLen(q, s);
            BadCut(PlaceOf(q), s, k) <==> BadCut(PlaceOf(ChunkQuote(q, s)), s[n..], k - n)
  {
    hide IsLiteralPrefix, PlaceAfter, WordLen;
    if k == |s| {
      return;
    }
    if q == Out && IsWordChar(s[0]) && k == ChunkLen(q, s) {
      BadCutAfterWord(s);
    } else {
      BadCutPastChunk(q, s, k);
    }
  }

  lemma BadCutAfterWord(s: string)
    requires s != "" && IsWordChar(s[0])
    ensures var n := WordLen(s);
            !BadCut(Outside(""), s, n) && !BadCut(Outside(""), s[n..], 0)
  {
    var n := WordLen(s);
    assert n > 0 && WordLen(s[n..]) == 0;
    hide IsLiteralPrefix, PlaceAfter, BadCut, WordLen;
    NoBadCutAtStart(Out, s[n..]);
    PlaceOverWord(Outside(""), s[..n]);
    BadCutOutside(Outside(""), s, n, s[..n]);
    assert "" + s[..n] == s[..n] && s[..n] + s[n..n + 0] == s[..n];
  }

  lemma BadCutPastChunk(q: Quote, s: string, k: nat)
    requires s != "" && ChunkLen(q, s) <= k < |s|
    requires q == Out && IsWordChar(s[0]) ==> ChunkLen(q, s) < k
    ensures var n := ChunkLen(q, s);
            BadCut(PlaceOf(q), s, k) <==> BadCut(PlaceOf(ChunkQuote(q, s)), s[n..], k - n)
  {
    hide *;
    PlacePastChunk(q, s, k);
    var n := ChunkLen(q, s);
    assert s == s[..n] + s[n..];
    BadCutDependsOnPlace(PlaceOf(q), PlaceOf(ChunkQuote(q, s)), s[..n], s[n..], k - n);
  }

  lemma PlacePastChunk(q: Quote, s: string, k: nat)
    requires s != "" && ChunkLen(q, s) <= k < |s|
    requires q == Out && IsWordChar(s[0]) ==> ChunkLen(q, s) < k
    ensures var n := ChunkLen(q, s);
            var rest := s[n..][..k - n];
            PlaceAfter(PlaceOf(q), s[..n] + rest) == PlaceAfter(PlaceOf(ChunkQuote(q, s)), rest)
  {
    ScanOverChunk(q, s, 0);
    var n := ChunkLen(q, s);
    hide PlaceAfter, ScanFrom;
    var chunk, rest := s[..n], s[n..][..k - n];
    PlaceAppend(PlaceOf(q), chunk, rest);
    if q == Out && IsWordChar(s[0]) {
      assert rest[0] == s[n];
      ForgetWord(chunk, rest);
    }
  }

  /** A cut of the input normalises to a prefix of the whole exactly when it is not bad. */
  lemma {:induction false} NormalizePrefixFrom(q: Quote, s: string, k: nat)
    requires k <= |s|
    ensures Normalize(q, false, s[..k]) <= Normalize(q, false, s) <==> !BadCut(PlaceOf(q), s, k)
    decreases |s|
  {
    hide Normalize, Step, ChunkOut, ChunkQuote, BadCut;
    if k == 0 {
      assert s[..0] == "";
      NormalizeEmpty(q);
      NoBadCutAtStart(q, s);
    } else {
      var n := ChunkLen(q, s);
      if k < n {
        if q == Out {
          CutInsideWord(s, k);
        } else {
          CutInsideEscape(q, s);
        }
      } else {
        var cut, q' := s[..k], ChunkQuote(q, s);
        ChunkOfPrefix(q, s, k);
        NormalizeChunk(q, s);
        NormalizeChunk(q, cut);
        assert cut[n..] == s[n..][..k - n];
        NormalizePrefixFrom(q', s[n..], k - n);
        BadCutAfterChunk(q, s, k);
        PrefixCancels(ChunkOut(q, s), Normalize(q', false, cut[n..]), Normalize(q', false, s[n..]));
      }
    }
  }

  /** A cut never normalises to more than the whole does. */
  lemma {:induction false} NormalizeNeverShrinksFrom(q: Quote, s: string, k: nat)
    requires k <= |s|
    ensures |Normalize(q, false, s[..k])| <= |Normalize(q, false, s)|
    decreases |s|
  {
    hide Normalize, Step, ChunkOut, ChunkQuote;
    if k == 0 {
      assert s[..0] == "";
      NormalizeEmpty(q);
    } else {
      var n, cut := ChunkLen(q, s), s[..k];
      NormalizeChunk(q, s);
      if k < n && q == Out {
        WordLenPrefix(s, k);
        NormalizeLoneWord(cut);
        NormalizeLeadingWord(s);
      } else if k < n {
        LoneBackslash(q);
        assert cut == "\\";
      } else {
        ChunkOfPrefix(q, s, k);
        NormalizeChunk(q, cut);
        assert cut[n..] == s[n..][..k - n];
        NormalizeNeverShrinksFrom(ChunkQuote(q, s), s[n..], k - n);
      }
    }
  }

  lemma LoneBackslash(q: Quote)
    requires q != Out
    ensures |Normalize(q, false, "\\")| == 1
  {
    NormalizeChunk(q, "\\");
    assert "\\"[1..] == "" && "\\"[..1] == "\\";
    NormalizeEmpty(ChunkQuote(q, "\\"));
  }

  lemma NormalizeNeverShrinks(cut: string, s: string)
    requires cut <= s
    ensures |NormalizeQuotes(cut)| <= |NormalizeQuotes(s)|
  {
    hide Normalize;
    assert s[..|cut|] == cut;
    NormalizeNeverShrinksFrom(Out, s, |cut|);
  }

  lemma NoBadCutAtStart(q: Quote, s: string)
    ensures !BadCut(PlaceOf(q), s, 0)
  {
    assert s[..0] == "";
  }

  lemma PrefixCancels(a: string, b: string, c: string)
    ensures a + b <= a + c <==> b <= c
  {
    assert (a + b)[|a|..] == b && (a + c)[|a|..] == c;
    if a + b <= a + c {
      assert forall i :: 0 <= i < |b| ==> b[i] == (a + b)[|a| + i] == (a + c)[|a| + i] == c[i];
    }
  }

  lemma NormalizePrefix(cut: string, s: string)
    requires cut <= s
    ensures NormalizeQuotes(cut) <= NormalizeQuotes(s) <==> !BadCut(Outside(""), s, |cut|)
  {
    assert s[..|cut|] == cut;
    NormalizePrefixFrom(Out, s, |cut|);
  }

  /** Both kinds of bad cut do break the prefix property. */
  lemma BadCutsExist()
    ensures !(NormalizeQuotes("'\\") <= NormalizeQuotes("'\\'"))
    ensures !(NormalizeQuotes("T") <= NormalizeQuotes("Tx"))
  {
    hide Normalize, Step, NormalizeQuotes;
    NormalizePrefix("'\\", "'\\'");
    NormalizePrefix("T", "Tx");
    CutAfterBackslash();
    var s := "Tx";
    assert s[1..] == "x" && s[1..][1..] == "" && s[..2] == s && s[..1] == "T";
    BadCutInsideWord(s, 1);
  }

  lemma CutAfterBackslash()
    ensures BadCut(Outside(""), "'\\'", 2)
  {
    var s := "'\\'";
    var cut := s[..2];
    assert cut[1..][1..] == "" && cut[1..][0] == '\\';
    assert PlaceAfter(Outside(""), cut) == PlaceAfter(Single(false), cut[1..]);
    assert PlaceAfter(Single(false), cut[1..]) == PlaceAfter(Single(true), "");
  }
}
