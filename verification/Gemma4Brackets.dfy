/** Quotes, brackets and braces in the Gemma4 renderer's output
    (common/chat-peg-parser.cpp, lines 966-1059). */
module Gemma4Brackets {
  import opened JsonText
  import opened Gemma4Json
  import opened Gemma4Value

  /** A reader that keeps the open brackets on a stack. */
  datatype Reader = Reader(stack: string, inString: bool, escaped: bool) | Mismatch

  const Start := Reader("", false, false)

  function Step(st: Reader, c: char): Reader
  {
    if st.Mismatch? then st
    else if st.escaped then st.(escaped := false)
    else if st.inString then
      if c == '\\' then st.(escaped := true) else if c == '"' then st.(inString := false) else st
    else if c == '"' then st.(inString := true)
    else if c == '[' || c == '{' then st.(stack := [c] + st.stack)
    else if c == ']' then Pop(st, '[')
    else if c == '}' then Pop(st, '{')
    else st
  }

  function Pop(st: Reader, open: char): Reader
    requires st.Reader?
  {
    if st.stack != "" && st.stack[0] == open then st.(stack := st.stack[1..]) else Mismatch
  }

  function Read(st: Reader, s: string): Reader
    decreases |s|
  {
    if s == "" then st else Read(Step(st, s[0]), s[1..])
  }

  lemma {:induction false} ReadAppend(st: Reader, a: string, b: string)
    ensures Read(st, a + b) == Read(Read(st, a), b)
    decreases |a|
  {
    if a == "" {
      assert a + b == b;
    } else {
      ReadAppend(Step(st, a[0]), a[1..], b);
      assert (a + b)[1..] == a[1..] + b;
    }
  }

  lemma ReadOne(st: Reader, c: char)
    ensures Read(st, [c]) == Step(st, c)
  {
    assert [c][1..] == "";
  }

  predicate Outside(st: Reader)
  {
    st.Reader? && !st.inString && !st.escaped
  }

  predicate PlainText(s: string)
  {
    forall i :: 0 <= i < |s| ==> s[i] !in "\"\\[]{}"
  }

  lemma {:induction false} ReadPlain(st: Reader, s: string)
    requires st.Reader? && !st.escaped && PlainText(s)
    ensures Read(st, s) == st
    decreases |s|
  {
    if s != "" {
      ReadPlain(st, s[1..]);
    }
  }

  lemma ReadEscapedChar(st: Reader, c: char)
    requires st.Reader? && st.inString && !st.escaped
    ensures Read(st, EscapeChar(c)) == st
  {
    EscapeCharShape(c);
    var e := EscapeChar(c);
    if |e| == 1 {
      ReadOne(st, c);
      assert e == [c];
    } else {
      assert e[1..][0] == e[1] && e[1..][1..] == e[2..];
      assert PlainText(e[2..]);
      ReadPlain(st, e[2..]);
    }
  }

  lemma {:induction false} ReadEscaped(st: Reader, s: string)
    requires st.Reader? && st.inString && !st.escaped
    ensures Read(st, Escape(s)) == st
    decreases |s|
  {
    if s != "" {
      ReadEscapedChar(st, s[0]);
      ReadEscaped(st, s[1..]);
      ReadAppend(st, EscapeChar(s[0]), Escape(s[1..]));
    }
  }

  lemma ReadQuoted(st: Reader, s: string)
    requires Outside(st)
    ensures Read(st, Quoted(s)) == st
  {
    var inside := st.(inString := true);
    ReadOne(st, '"');
    ReadOne(inside, '"');
    ReadEscaped(inside, s);
    ReadAppend(st, "\"", Escape(s));
    ReadAppend(st, "\"" + Escape(s), "\"");
  }

  lemma ReadNested(st: Reader, open: char, body: string, close: char)
    requires Outside(st) && ((open == '[' && close == ']') || (open == '{' && close == '}'))
    requires Read(st.(stack := [open] + st.stack), body) == st.(stack := [open] + st.stack)
    ensures Read(st, [open] + body + [close]) == st
  {
    var inside := st.(stack := [open] + st.stack);
    ReadOne(st, open);
    ReadOne(inside, close);
    ReadAppend(st, [open], body);
    ReadAppend(st, [open] + body, [close]);
  }

  /** Reading a value's text leaves the reader where it was. */
  lemma {:induction false} ReadValue(st: Reader, j: Json)
    requires Outside(st) && Numbers(j)
    ensures Read(st, Render(j)) == st
    decreases j
  {
    match j
    case Str(s) => ReadQuoted(st, s);
    case Arr(items) =>
      var inside := st.(stack := "[" + st.stack);
      if items != [] {
        ReadValue(inside, items[0]);
        ReadMore(inside, items[1..]);
        ReadAppend(inside, Render(items[0]), MoreItems(items[1..]));
      }
      ReadNested(st, '[', RenderItems(items), ']');
    case Obj(ms) =>
      var inside := st.(stack := "{" + st.stack);
      if ms != [] {
        ReadMember(inside, ms[0]);
        ReadMoreMembers(inside, ms[1..]);
        ReadAppend(inside, RenderMember(ms[0]), MoreMembers(ms[1..]));
      }
      ReadNested(st, '{', RenderMembers(ms), '}');
    case _ =>
      assert PlainText(Render(j));
      ReadPlain(st, Render(j));
  }

  lemma {:induction false} ReadMore(st: Reader, items: seq<Json>)
    requires Outside(st) && forall i :: 0 <= i < |items| ==> Numbers(items[i])
    ensures Read(st, MoreItems(items)) == st
    decreases items
  {
    if items != [] {
      ReadOne(st, ',');
      ReadValue(st, items[0]);
      ReadMore(st, items[1..]);
      ReadAppend(st, ",", Render(items[0]));
      ReadAppend(st, "," + Render(items[0]), MoreItems(items[1..]));
    }
  }

  lemma {:induction false} ReadMember(st: Reader, m: Member)
    requires Outside(st) && Numbers(m.value)
    ensures Read(st, RenderMember(m)) == st
    decreases m
  {
    ReadQuoted(st, m.key);
    ReadOne(st, ':');
    ReadValue(st, m.value);
    ReadAppend(st, Quoted(m.key), ":");
    ReadAppend(st, Quoted(m.key) + ":", Render(m.value));
  }

  lemma {:induction false} ReadMoreMembers(st: Reader, ms: seq<Member>)
    requires Outside(st) && forall i :: 0 <= i < |ms| ==> Numbers(ms[i].value)
    ensures Read(st, MoreMembers(ms)) == st
    decreases ms
  {
    if ms != [] {
      ReadOne(st, ',');
      ReadMember(st, ms[0]);
      ReadMoreMembers(st, ms[1..]);
      ReadAppend(st, ",", RenderMember(ms[0]));
      ReadAppend(st, "," + RenderMember(ms[0]), MoreMembers(ms[1..]));
    }
  }

  lemma {:induction false} MismatchStays(s: string)
    ensures Read(Mismatch, s) == Mismatch
    decreases |s|
  {
    if s != "" {
      MismatchStays(s[1..]);
    }
  }

  /** Every quote, bracket and brace of a complete tree's text is closed in order; the
      text of a truncation never closes what it did not open. */
  lemma CompleteIsClosed(n: Node)
    requires IsComplete(n)
    ensures Read(Start, ToJson(n)) == Start
    ensures forall t :: Truncates(t, n) ==> Read(Start, ToJson(t)).Reader?
  {
    RendersMeaning(n);
    MeaningNumbers(n);
    ReadValue(Start, Meaning(n));
    hide Meaning, Render, ToJson, IsComplete;
    forall t | Truncates(t, n) ensures Read(Start, ToJson(t)).Reader? {
      TruncationIsPrefix(t, n);
      var rest := ToJson(n)[|ToJson(t)|..];
      assert ToJson(n) == ToJson(t) + rest;
      ReadAppend(Start, ToJson(t), rest);
      MismatchStays(rest);
    }
  }
}
