/** What the normaliser writes for every Python text, token by token
    (common/chat-peg-parser.cpp, lines 81-188). */
module QuoteTokens {
  import opened Sequences
  import opened Wrappers
  import opened JsonText
  import opened JsonMeaning
  import opened QuoteNormalizer

  // ----- Python text as tokens -----

  /** One character of a string, as it stands or behind a backslash. */
  datatype Part = Plain(c: char) | Escaped(c: char)

  /** A string may be cut off before its closing quote, or right after a backslash. */
  datatype Ending = Closed | Cut | CutEscape

  datatype Token =
    | Word(text: string)
    | Mark(c: char)
    | Str(quote: char, parts: seq<Part>, ending: Ending)

  predicate IsLetter(c: char)
  {
    'a' <= c <= 'z' || 'A' <= c <= 'Z' || '0' <= c <= '9' || c == '_'
  }

  predicate IsWord(w: string)
  {
    w != "" && forall i :: 0 <= i < |w| ==> IsLetter(w[i])
  }

  predicate ArePartsOf(quote: char, parts: seq<Part>)
  {
    forall i :: 0 <= i < |parts| ==> parts[i].Plain? ==> parts[i].c != '\\' && parts[i].c != quote
  }

  predicate IsToken(t: Token)
  {
    match t
    case Word(text) => IsWord(text)
    case Mark(c) => !IsLetter(c) && c != '\'' && c != '"'
    case Str(quote, parts, _) => (quote == '\'' || quote == '"') && ArePartsOf(quote, parts)
  }

  /** No word directly after a word, and nothing after a string that is cut off. */
  predicate AreTokens(ts: seq<Token>)
  {
    ts == [] ||
    (&& IsToken(ts[0]) && AreTokens(ts[1..])
     && (|ts| > 1 && ts[0].Word? ==> !ts[1].Word?)
     && (|ts| > 1 && ts[0].Str? ==> ts[0].ending.Closed?))
  }

  // ----- how tokens are spelt in Python and in JSON -----

  function PythonParts(parts: seq<Part>): string
  {
    if parts == [] then ""
    else (if parts[0].Plain? then [parts[0].c] else ['\\', parts[0].c]) + PythonParts(parts[1..])
  }

  function EndText(quote: char, ending: Ending): string
  {
    match ending case Closed => [quote] case Cut => "" case CutEscape => "\\"
  }

  function PythonToken(t: Token): string
  {
    match t
    case Word(text) => text
    case Mark(c) => [c]
    case Str(quote, parts, ending) =>
      [quote] + (PythonParts(parts) + EndText(quote, ending))
  }

  function Python(ts: seq<Token>): string
  {
    if ts == [] then "" else PythonToken(ts[0]) + Python(ts[1..])
  }

  /** In a single-quoted string, a double quote needs a backslash in JSON and a single one
      needs none. */
  function JsonPart(quote: char, p: Part): string
  {
    if quote == '\'' && p == Plain('"') then "\\\""
    else if quote == '\'' && p == Escaped('\'') then "'"
    else if p.Plain? then [p.c] else ['\\', p.c]
  }

  function JsonParts(quote: char, parts: seq<Part>): string
  {
    if parts == [] then "" else JsonPart(quote, parts[0]) + JsonParts(quote, parts[1..])
  }

  /** The literals, whole or cut off; all other words stay. */
  function JsonWord(w: string): string
  {
    match w
    case "True" => "true"
    case "Tru" => "tru"
    case "Tr" => "tr"
    case "T" => "t"
    case "False" => "false"
    case "Fals" => "fals"
    case "Fal" => "fal"
    case "Fa" => "fa"
    case "F" => "f"
    case "None" => "null"
    case "Non" => "nul"
    case "No" => "nu"
    case "N" => "n"
    case _ => w
  }

  function JsonToken(t: Token): string
  {
    match t
    case Word(text) => JsonWord(text)
    case Mark(c) => [c]
    case Str(quote, parts, ending) =>
      "\"" + (JsonParts(quote, parts) + EndText('"', ending))
  }

  function Json(ts: seq<Token>): string
  {
    if ts == [] then "" else JsonToken(ts[0]) + Json(ts[1..])
  }

  // ----- words -----

  lemma JsonWordIs(w: string)
    requires w != ""
    ensures SpellWord(w) == JsonWord(w)
  {
    if IsLiteralPrefix(w) {
      LiteralPrefixIs(w);
    }
  }

  lemma LiteralPrefixIs(w: string)
    requires w != "" && IsLiteralPrefix(w)
    ensures JsonLiteral(w) == JsonWord(w)
  {
    hide JsonWord, JsonLiteral;
    if w <= "True" {
      TrueIs(w);
    } else if w <= "False" {
      FalseIs(w);
    } else {
      NoneIs(w);
    }
  }

  lemma TrueIs(w: string)
    requires w != "" && w <= "True"
    ensures JsonLiteral(w) == JsonWord(w)
  {
    assert w == "T" || w == "Tr" || w == "Tru" || w == "True";
  }

  lemma FalseIs(w: string)
    requires w != "" && w <= "False"
    ensures JsonLiteral(w) == JsonWord(w)
  {
    assert w == "F" || w == "Fa" || w == "Fal" || w == "Fals" || w == "False";
    assert w[0] == 'F';
    assert JsonLiteral(w) == "false"[..|w|];
  }

  lemma NoneIs(w: string)
    requires w != "" && w <= "None"
    ensures JsonLiteral(w) == JsonWord(w)
  {
    assert w == "N" || w == "No" || w == "Non" || w == "None";
    assert w[0] == 'N';
    assert JsonLiteral(w) == "null"[..|w|];
  }

  lemma WordReads(w: string, t: string)
    requires IsWord(w) && (t == "" || !IsLetter(t[0]))
    ensures Normalize(Out, false, w + t) == JsonWord(w) + Normalize(Out, false, t)
  {
    hide Normalize, JsonWord, SpellWord;
    assert forall c :: c in w ==> IsWordChar(c);
    WordLenOfConcat(w, t);
    assert (w + t)[0] == w[0] && (w + t)[..|w|] == w && (w + t)[|w|..] == t;
    NormalizeLeadingWord(w + t);
    JsonWordIs(w);
  }

  lemma MarkReads(c: char, t: string)
    requires IsToken(Mark(c))
    ensures Normalize(Out, false, [c] + t) == [c] + Normalize(Out, false, t)
  {
    hide Normalize;
    var s := [c] + t;
    NormalizeChunk(Out, s);
    assert s[1..] == t && s[..1] == [c];
  }

  // ----- strings -----

  function QuoteState(quote: char): Quote
  {
    if quote == '\'' then InSingle else InDouble
  }

  lemma PartReads(quote: char, p: Part, t: string)
    requires quote == '\'' || quote == '"'
    requires p.Plain? ==> p.c != '\\' && p.c != quote
    ensures var spelt := if p.Plain? then [p.c] else ['\\', p.c];
            Normalize(QuoteState(quote), false, spelt + t)
            == JsonPart(quote, p) + Normalize(QuoteState(quote), false, t)
  {
    hide Normalize;
    var spelt := if p.Plain? then [p.c] else ['\\', p.c];
    var s, q := spelt + t, QuoteState(quote);
    NormalizeChunk(q, s);
    assert s[0] == spelt[0] && s[..|spelt|] == spelt && s[|spelt|..] == t;
    assert ChunkLen(q, s) == |spelt|;
  }

  lemma {:induction false} PartsRead(quote: char, parts: seq<Part>, t: string)
    requires (quote == '\'' || quote == '"') && ArePartsOf(quote, parts)
    ensures Normalize(QuoteState(quote), false, PythonParts(parts) + t)
         == JsonParts(quote, parts) + Normalize(QuoteState(quote), false, t)
    decreases |parts|
  {
    hide Normalize, JsonPart;
    var q := QuoteState(quote);
    if parts == [] {
      assert "" + t == t && "" + Normalize(q, false, t) == Normalize(q, false, t);
    } else {
      var p, rest := parts[0], parts[1..];
      var spelt := if p.Plain? then [p.c] else ['\\', p.c];
      PartReads(quote, p, PythonParts(rest) + t);
      PartsRead(quote, rest, t);
      ConcatAssociates(spelt, PythonParts(rest), t);
      ConcatAssociates(JsonPart(quote, p), JsonParts(quote, rest), Normalize(q, false, t));
    }
  }

  lemma OpeningReads(quote: char, t: string)
    requires quote == '\'' || quote == '"'
    ensures Normalize(Out, false, [quote] + t) == "\"" + Normalize(QuoteState(quote), false, t)
  {
    hide Normalize;
    var s := [quote] + t;
    NormalizeChunk(Out, s);
    assert s[1..] == t && s[..1] == [quote];
  }

  lemma ClosingReads(quote: char, t: string)
    requires quote == '\'' || quote == '"'
    ensures Normalize(QuoteState(quote), false, [quote] + t) == "\"" + Normalize(Out, false, t)
  {
    hide Normalize;
    var s := [quote] + t;
    NormalizeChunk(QuoteState(quote), s);
    assert s[1..] == t && s[..1] == [quote];
  }

  lemma LastBackslashReads(q: Quote)
    requires q != Out
    ensures Normalize(q, false, "\\") == "\\"
  {
    hide Normalize;
    NormalizeChunk(q, "\\");
    assert "\\"[1..] == "" && "\\"[..1] == "\\";
    NormalizeEmpty(ChunkQuote(q, "\\"));
  }

  lemma EndReads(quote: char, ending: Ending, rest: string)
    requires (quote == '\'' || quote == '"') && (ending.Closed? || rest == "")
    ensures Normalize(QuoteState(quote), false, EndText(quote, ending) + rest)
         == EndText('"', ending) + Normalize(Out, false, rest)
  {
    hide Normalize;
    var q, end := QuoteState(quote), EndText(quote, ending);
    if ending.Closed? {
      ClosingReads(quote, rest);
    } else {
      NormalizeEmpty(Out);
      assert end + rest == end && end + "" == end;
      if ending.Cut? {
        NormalizeEmpty(q);
      } else {
        LastBackslashReads(q);
      }
    }
  }

  lemma StrReads(t: Token, rest: string)
    requires t.Str? && IsToken(t) && (t.ending.Closed? || rest == "")
    ensures Normalize(Out, false, PythonToken(t) + rest) == JsonToken(t) + Normalize(Out, false, rest)
  {
    assert (t.quote == '\'' || t.quote == '"') && ArePartsOf(t.quote, t.parts);
    var quote, end, jend := t.quote, EndText(t.quote, t.ending), EndText('"', t.ending);
    var py, js := PythonParts(t.parts), JsonParts(quote, t.parts);
    assert PythonToken(t) == [quote] + (py + end) && JsonToken(t) == "\"" + (js + jend);
    hide *;
    Around([quote], py, end, rest);
    OpeningReads(quote, py + (end + rest));
    PartsRead(quote, t.parts, end + rest);
    EndReads(quote, t.ending, rest);
    Around("\"", js, jend, Normalize(Out, false, rest));
  }

  lemma Around(a: string, b: string, c: string, d: string)
    ensures a + (b + c) + d == a + (b + (c + d))
  {
    hide *;
    ConcatAssociates(b, c, d);
    ConcatAssociates(a, b + c, d);
  }

  // ----- whole texts -----

  lemma FirstCharacter(ts: seq<Token>)
    requires AreTokens(ts) && ts != [] && !ts[0].Word?
    ensures Python(ts) != "" && !IsLetter(Python(ts)[0])
  {
  }

  /** Python text, whatever its tokens, becomes the JSON text of the same tokens. */
  lemma {:induction false} TokensNormalize(ts: seq<Token>)
    requires AreTokens(ts)
    ensures NormalizeQuotes(Python(ts)) == Json(ts)
  {
    hide Normalize, PythonToken, JsonToken;
    if ts == [] {
      NormalizeEmpty(Out);
    } else {
      var t, rest := ts[0], Python(ts[1..]);
      TokensNormalize(ts[1..]);
      if t.Str? {
        StrReads(t, rest);
      } else {
        BareReads(t, ts[1..]);
      }
    }
  }

  lemma BareReads(t: Token, ts: seq<Token>)
    requires IsToken(t) && !t.Str? && AreTokens(ts) && (t.Word? && ts != [] ==> !ts[0].Word?)
    ensures Normalize(Out, false, PythonToken(t) + Python(ts)) == JsonToken(t) + Normalize(Out, false, Python(ts))
  {
    hide Normalize, JsonWord;
    if t.Word? {
      if ts != [] {
        FirstCharacter(ts);
      }
      WordReads(t.text, Python(ts));
    } else {
      MarkReads(t.c, Python(ts));
    }
  }

  // ----- every text has tokens -----

  datatype Lexed = Lexed(parts: seq<Part>, ending: Ending, rest: string)

  /** How many characters the part at the front of `s` takes. */
  function PartLen(s: string): nat
    requires s != "" && s != "\\"
    ensures 1 <= PartLen(s) <= |s|
  {
    if s[0] == '\\' then 2 else 1
  }

  function LexParts(quote: char, s: string): (r: Lexed)
    ensures |r.rest| <= |s|
  {
    if s == "" then Lexed([], Cut, "")
    else if s[0] == quote then Lexed([], Closed, s[1..])
    else if s == "\\" then Lexed([], CutEscape, "")
    else
      var r := LexParts(quote, s[PartLen(s)..]);
      r.(parts := [if s[0] == '\\' then Escaped(s[1]) else Plain(s[0])] + r.parts)
  }

  function Lex(s: string): seq<Token>
    decreases |s|
  {
    if s == "" then []
    else if IsWordChar(s[0]) then [Word(s[..WordLen(s)])] + Lex(s[WordLen(s)..])
    else if s[0] == '\'' || s[0] == '"' then
      var r := LexParts(s[0], s[1..]);
      [Str(s[0], r.parts, r.ending)] + Lex(r.rest)
    else [Mark(s[0])] + Lex(s[1..])
  }

  lemma {:induction false} LexPartsIsExact(quote: char, s: string)
    requires quote != '\\'
    ensures var r := LexParts(quote, s);
            && ArePartsOf(quote, r.parts) && (!r.ending.Closed? ==> r.rest == "")
            && s == PythonParts(r.parts) + (EndText(quote, r.ending) + r.rest)
    decreases |s|
  {
    if s == "" || s[0] == quote || s == "\\" {
      LexLastIsExact(quote, s);
    } else {
      LexPartsIsExact(quote, s[PartLen(s)..]);
      LexPartsStep(quote, s);
    }
  }

  lemma LexLastIsExact(quote: char, s: string)
    requires quote != '\\' && (s == "" || s[0] == quote || s == "\\")
    ensures var r := LexParts(quote, s);
            && r.parts == [] && (!r.ending.Closed? ==> r.rest == "")
            && s == PythonParts(r.parts) + (EndText(quote, r.ending) + r.rest)
  {
    if s != "" && s[0] == quote {
      HeadAndTail(s);
    }
  }

  lemma LexPartsStep(quote: char, s: string)
    requires quote != '\\' && s != "" && s[0] != quote && s != "\\"
    requires var r := LexParts(quote, s[PartLen(s)..]);
             && ArePartsOf(quote, r.parts)
             && s[PartLen(s)..] == PythonParts(r.parts) + (EndText(quote, r.ending) + r.rest)
    ensures var r := LexParts(quote, s);
            && ArePartsOf(quote, r.parts) && s == PythonParts(r.parts) + (EndText(quote, r.ending) + r.rest)
            && r.ending == LexParts(quote, s[PartLen(s)..]).ending && r.rest == LexParts(quote, s[PartLen(s)..]).rest
  {
    hide EndText, PythonParts;
    var n := PartLen(s);
    var r := LexParts(quote, s[n..]);
    var part := if s[0] == '\\' then Escaped(s[1]) else Plain(s[0]);
    assert LexParts(quote, s) == Lexed([part] + r.parts, r.ending, r.rest);
    assert ArePartsOf(quote, [part] + r.parts);
    var first := if part.Plain? then [part.c] else ['\\', part.c];
    assert s[..n] == first;
    MorePython(part, r.parts);
    hide *;
    FrontAndRest(s, n);
    ConcatAssociates(first, PythonParts(r.parts), EndText(quote, r.ending) + r.rest);
  }

  lemma FrontAndRest(s: string, n: nat)
    requires n <= |s|
    ensures s == s[..n] + s[n..]
  {
  }

  lemma MorePython(part: Part, parts: seq<Part>)
    ensures PythonParts([part] + parts) == (if part.Plain? then [part.c] else ['\\', part.c]) + PythonParts(parts)
  {
    assert ([part] + parts)[1..] == parts;
  }

  /** Every text is the text of its tokens. */
  lemma {:induction false} LexIsExact(s: string)
    ensures AreTokens(Lex(s)) && Python(Lex(s)) == s
    ensures s != "" ==> Lex(s) != [] && (Lex(s)[0].Word? <==> IsWordChar(s[0]))
    decreases |s|
  {
    hide LexParts, AreTokens, Python;
    if s == "" {
      NoTokens();
    } else if IsWordChar(s[0]) {
      var n := WordLen(s);
      var ts := Lex(s[n..]);
      LexIsExact(s[n..]);
      assert Lex(s) == [Word(s[..n])] + ts;
      assert IsToken(Word(s[..n])) && (ts != [] ==> !ts[0].Word?);
      hide *;
      FrontAndRest(s, n);
      OneMoreToken(Word(s[..n]), ts);
      PythonOf(s[..n]);
    } else if s[0] == '\'' || s[0] == '"' {
      LexStr(s);
    } else {
      var ts := Lex(s[1..]);
      LexIsExact(s[1..]);
      assert Lex(s) == [Mark(s[0])] + ts && IsToken(Mark(s[0]));
      HeadAndTail(s);
      OneMoreToken(Mark(s[0]), ts);
    }
  }

  lemma NoTokens()
    ensures AreTokens([]) && Python([]) == ""
  {
  }

  lemma PythonOf(w: string)
    ensures PythonToken(Word(w)) == w && Word(w).Word?
  {
  }

  lemma OneMoreToken(t: Token, ts: seq<Token>)
    requires IsToken(t) && AreTokens(ts)
    requires ts != [] ==> (t.Word? ==> !ts[0].Word?) && (t.Str? ==> t.ending.Closed?)
    ensures AreTokens([t] + ts) && Python([t] + ts) == PythonToken(t) + Python(ts)
  {
    hide IsToken, PythonToken;
    assert ([t] + ts)[1..] == ts;
  }

  lemma {:induction false} LexStr(s: string)
    requires s != "" && (s[0] == '\'' || s[0] == '"')
    ensures AreTokens(Lex(s)) && Python(Lex(s)) == s && Lex(s) != [] && Lex(s)[0].Str?
    decreases |s|, 0
  {
    var r := LexParts(s[0], s[1..]);
    LexPartsIsExact(s[0], s[1..]);
    LexIsExact(r.rest);
    var t, ts := Str(s[0], r.parts, r.ending), Lex(r.rest);
    assert Lex(s) == [t] + ts && IsToken(t) && (r.rest == "" ==> ts == []);
    assert PythonToken(t) == [s[0]] + (PythonParts(r.parts) + EndText(s[0], r.ending));
    hide *;
    OneMoreToken(t, ts);
    Around([s[0]], PythonParts(r.parts), EndText(s[0], r.ending), r.rest);
    HeadAndTail(s);
  }

  /** So the normaliser writes the JSON spelling of the tokens of any text. */
  lemma EveryTextNormalizes(s: string)
    ensures AreTokens(Lex(s)) && Python(Lex(s)) == s && NormalizeQuotes(s) == Json(Lex(s))
  {
    hide Lex, AreTokens, Python, NormalizeQuotes;
    LexIsExact(s);
    TokensNormalize(Lex(s));
  }

  // ----- a word in its place -----

  lemma {:induction false} NormalizeSplit(q: Quote, a: string, t: string)
    requires PlaceAfter(PlaceOf(q), a) == Outside("")
    ensures Normalize(q, false, a + t) == Normalize(q, false, a) + Normalize(Out, false, t)
    decreases |a|
  {
    hide Normalize, ChunkOut, ChunkLen, ChunkQuote, PlaceAfter;
    if a == "" {
      EmptyPlace(PlaceOf(q));
      NormalizeEmpty(q);
      assert a + t == t && "" + Normalize(q, false, t) == Normalize(q, false, t);
    } else {
      var s := a + t;
      ChunkEndsBefore(q, a, t);
      assert s[..|a|] == a;
      ChunkOfPrefix(q, s, |a|);
      var n, q' := ChunkLen(q, s), ChunkQuote(q, s);
      NormalizeChunk(q, s);
      NormalizeChunk(q, a);
      PlaceOfRest(q, a);
      assert s[n..] == a[n..] + t;
      NormalizeSplit(q', a[n..], t);
      ConcatAssociates(ChunkOut(q, s), Normalize(q', false, a[n..]), Normalize(Out, false, t));
    }
  }

  lemma EmptyPlace(p: Place)
    ensures PlaceAfter(p, "") == p
  {
  }

  /** A text that ends outside strings and words ends between chunks. */
  lemma ChunkEndsBefore(q: Quote, a: string, t: string)
    requires a != "" && PlaceAfter(PlaceOf(q), a) == Outside("")
    ensures ChunkLen(q, a + t) <= |a|
  {
    var s := a + t;
    if q == Out && IsWordChar(a[0]) {
      if WordLen(s) > |a| {
        assert forall c :: c in a ==> IsWordChar(c) by {
          forall i | 0 <= i < |a| ensures IsWordChar(a[i]) { assert s[i] == a[i]; }
        }
        PlaceOverWord(Outside(""), a);
      }
    } else if q != Out {
      LastBackslashPlace(q);
      assert |a| == 1 && a[0] == '\\' ==> a == "\\";
    }
  }

  lemma LastBackslashPlace(q: Quote)
    requires q != Out
    ensures PlaceAfter(PlaceOf(q), "\\") != Outside("")
  {
    assert "\\"[1..] == "";
    assert PlaceAfter(PlaceOf(q), "\\") == PlaceStep(PlaceOf(q), '\\');
  }

  lemma PlaceOfRest(q: Quote, a: string)
    requires a != "" && PlaceAfter(PlaceOf(q), a) == Outside("")
    ensures PlaceAfter(PlaceOf(ChunkQuote(q, a)), a[ChunkLen(q, a)..]) == Outside("")
  {
    hide PlaceAfter, ScanFrom, ChunkOut, OutsideDepth;
    var n := ChunkLen(q, a);
    var chunk, rest := a[..n], a[n..];
    ScanOverChunk(q, a, 0);
    assert a == chunk + rest;
    PlaceAppend(PlaceOf(q), chunk, rest);
    if q == Out && IsWordChar(a[0]) {
      WordChunkEndsWord(a);
      ForgetWord(chunk, rest);
      EmptyPlace(Outside(chunk));
    } else if n == |a| {
      assert chunk == a && rest == "";
      LastChunkPlace(q, a);
    }
  }

  lemma LastChunkPlace(q: Quote, a: string)
    requires a != "" && ChunkLen(q, a) == |a| && !(q == Out && IsWordChar(a[0]))
    requires PlaceAfter(PlaceOf(q), a) == Outside("")
    ensures ChunkQuote(q, a) == Out
  {
    if |a| == 1 {
      assert a[1..] == "";
      assert PlaceAfter(PlaceOf(q), a) == PlaceStep(PlaceOf(q), a[0]);
    } else {
      assert a == [a[0], a[1]];
      PlaceOverPair(PlaceOf(q), a[0], a[1]);
    }
  }

  /** An unquoted word anywhere in a text: Python's literals and their beginnings become
      JSON's, other words stay, and the text around it is rewritten on its own. */
  lemma WordInPlace(a: string, w: string, b: string)
    requires PlaceAfter(Outside(""), a) == Outside("") && IsWord(w) && (b == "" || !IsLetter(b[0]))
    ensures NormalizeQuotes(a + w + b) == NormalizeQuotes(a) + JsonWord(w) + NormalizeQuotes(b)
  {
    hide Normalize, PlaceAfter, JsonWord;
    ConcatAssociates(a, w, b);
    NormalizeSplit(Out, a, w + b);
    WordReads(w, b);
    ConcatAssociates(NormalizeQuotes(a), JsonWord(w), NormalizeQuotes(b));
  }

  /** Any other unquoted character is copied. */
  lemma MarkInPlace(a: string, c: char, b: string)
    requires PlaceAfter(Outside(""), a) == Outside("") && !IsLetter(c) && c != '\'' && c != '"'
    ensures NormalizeQuotes(a + [c] + b) == NormalizeQuotes(a) + [c] + NormalizeQuotes(b)
  {
    hide Normalize, PlaceAfter;
    ConcatAssociates(a, [c], b);
    NormalizeSplit(Out, a, [c] + b);
    MarkReads(c, b);
    ConcatAssociates(NormalizeQuotes(a), [c], NormalizeQuotes(b));
  }

  // ----- what a string stands for -----

  /** The character that a backslash makes of the next one in a Python string. */
  function PythonEscape(c: char): Option<char>
  {
    match c
    case '\'' => Some('\'')
    case '"' => Some('"')
    case '\\' => Some('\\')
    case 'b' => Some(8 as char)
    case 'f' => Some(12 as char)
    case 'n' => Some('\n')
    case 'r' => Some('\r')
    case 't' => Some('\t')
    case _ => None
  }

  function PythonChars(parts: seq<Part>): Option<string>
  {
    if parts == [] then Some("")
    else Cons(if parts[0].Plain? then Some(parts[0].c) else PythonEscape(parts[0].c), PythonChars(parts[1..]))
  }

  /** JSON allows no control characters in a string and no backslash before a single quote. */
  predicate IsPortable(quote: char, p: Part)
  {
    if p.Plain? then p.c >= ' ' else !(quote == '"' && p.c == '\'')
  }

  lemma PartStandsFor(quote: char, p: Part, t: string)
    requires quote == '\'' || quote == '"'
    requires if p.Plain? then p.c != '\\' && p.c != quote else PythonEscape(p.c).Some?
    ensures Unescape(JsonPart(quote, p) + t)
         == if IsPortable(quote, p) then Cons(if p.Plain? then Some(p.c) else PythonEscape(p.c), Unescape(t)) else None
  {
    hide Unescape, HexChar;
    if quote == '\'' && p == Plain('"') {
      ShortReads('"', t);
    } else if quote == '\'' && p == Escaped('\'') {
      PlainReads('\'', t);
    } else if p.Escaped? {
      ShortReads(p.c, t);
    } else if p.c >= ' ' {
      PlainReads(p.c, t);
    } else {
      ControlFails(p.c, t);
    }
  }

  lemma ControlFails(c: char, t: string)
    requires c < ' '
    ensures Unescape([c] + t) == None
  {
    hide HexChar, ShortEscape;
  }

  /** The JSON string stands for the characters of the Python string exactly when the
      latter has no control character as it stands and, inside double quotes, no
      backslash before a single quote. Otherwise it is no JSON string at all. */
  lemma {:induction false} StringStandsForIff(quote: char, parts: seq<Part>)
    requires (quote == '\'' || quote == '"') && ArePartsOf(quote, parts) && PythonChars(parts).Some?
    ensures Unescape(JsonParts(quote, parts))
         == if forall i :: 0 <= i < |parts| ==> IsPortable(quote, parts[i]) then PythonChars(parts) else None
  {
    hide Unescape, IsPortable, JsonPart, PythonEscape;
    if parts == [] {
      EmptyReads();
    } else {
      var rest := parts[1..];
      StringStandsForIff(quote, rest);
      PartStandsFor(quote, parts[0], JsonParts(quote, rest));
      assert forall i :: 0 <= i < |rest| ==> rest[i] == parts[i + 1];
    }
  }

  lemma EmptyReads()
    ensures Unescape("") == Some("")
  {
  }

  /** A backslash before a single quote survives in a double-quoted string, where JSON does
      not know it. */
  lemma EscapedQuoteIsNoJson()
    ensures NormalizeQuotes("\"\\'\"") == "\"\\'\"" && Unescape("\\'") == None
  {
    hide Normalize, NormalizeQuotes, Unescape;
    var parts := [Escaped('\'')];
    var t := Str('"', parts, Closed);
    OneToken(t);
    TokensNormalize([t]);
    assert parts[1..] == [];
    assert PythonParts(parts) == "\\'" && JsonParts('"', parts) == "\\'";
    assert PythonToken(t) == ['"'] + ("\\'" + "\"") == "\"\\'\"";
    assert JsonToken(t) == "\"" + ("\\'" + "\"") == "\"\\'\"";
    ShortReads('\'', "");
    assert ['\\', '\''] + "" == "\\'";
  }

  lemma OneToken(t: Token)
    requires IsToken(t)
    ensures AreTokens([t]) && Python([t]) == PythonToken(t) && Json([t]) == JsonToken(t)
  {
    hide IsToken, PythonToken, JsonToken;
    assert [t][1..] == [];
  }
}
