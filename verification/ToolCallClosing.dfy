/** How arguments are closed (common/chat-peg-parser.cpp, lines 435-457). */
module ToolCallClosing {
  import opened Sequences
  import opened JsonText
  import opened QuoteNormalizer
  import opened ToolCallMapper
  import opened ToolCallRendering

  function AtLeastZero(n: int): nat
  {
    if n < 0 then 0 else n
  }

  // ----- the first raw value that leaves a quote open -----

  function FirstOpen(args: seq<Arg>): (i: nat)
    ensures i <= |args| && (forall k :: 0 <= k < i ==> IsClosed(args[k].value))
    ensures i < |args| ==> !IsClosed(args[i].value)
  {
    if args == [] || !IsClosed(args[0].value) then 0 else 1 + FirstOpen(args[1..])
  }

  /** The members from the j-th on, each behind a comma. */
  function Later(args: seq<Arg>, j: nat): string
    requires j <= |args|
    decreases |args| - j
  {
    if j == |args| then "" else "," + RenderMember(args[j]) + Later(args, j + 1)
  }

  /** Where the first open value leaves the scanner. */
  function OpenPlace(a: Arg): Scan
  {
    ScanAt(PlaceAfter(Outside(""), a.value.text), 0)
  }

  /** How the members after the i-th are read, when that one leaves a quote open. */
  function ReadOpen(args: seq<Arg>, i: nat): Scan
    requires i < |args|
  {
    ScanFrom(OpenPlace(args[i]), Later(args, i + 1))
  }

  lemma {:induction false} MembersThenLater(args: seq<Arg>, j: nat)
    requires 0 < j <= |args|
    ensures RenderMembers(args) == RenderMembers(args[..j]) + Later(args, j)
    decreases |args| - j
  {
    LaterStep(args, j);
    hide RenderMember, RenderMembers, Later;
    if j == |args| {
      assert args[..j] == args && RenderMembers(args) + "" == RenderMembers(args);
    } else {
      MembersThenLater(args, j + 1);
      MembersStep(args, j);
      var so, next := RenderMembers(args[..j]), "," + RenderMember(args[j]);
      ConcatAssociates(so, next, Later(args, j + 1));
      ConcatAssociates(so, ",", RenderMember(args[j]));
    }
  }

  lemma LaterStep(args: seq<Arg>, j: nat)
    requires j <= |args|
    ensures Later(args, j) == if j == |args| then "" else "," + RenderMember(args[j]) + Later(args, j + 1)
  {
    hide RenderMember;
  }

  lemma MembersStep(args: seq<Arg>, j: nat)
    requires 0 < j < |args|
    ensures RenderMembers(args[..j + 1]) == RenderMembers(args[..j]) + "," + RenderMember(args[j])
  {
    hide RenderMember;
    assert args[..j + 1][..j] == args[..j] && args[..j + 1][j] == args[j];
  }

  /** Up to and including the first open value. */
  lemma ScanUpToOpen(args: seq<Arg>, i: nat)
    requires i < |args| && args[i].value.RawValue? && forall k :: 0 <= k < i ==> IsClosed(args[k].value)
    ensures ScanFrom(ScanStart, "{" + RenderMembers(args[..i + 1]))
         == Deeper(OpenPlace(args[i]), 1 + OpenBraces(args[..i + 1]))
  {
    hide RenderMember, IsClosed, ScanFrom, OutsideDepth, PlaceAfter, NormalizeQuotes;
    var up := args[..i + 1];
    assert up[..i] == args[..i] && up[i] == args[i];
    var sep := if i > 0 then "," else "";
    var head, tail := "{" + RenderMembers(args[..i]), sep + RenderMember(args[i]);
    assert "{" + RenderMembers(up) == head + tail;
    ScanAppend(ScanStart, head, tail);
    ScanOfMembers(args[..i]);
    ScanOfOpenMember(1 + OpenBraces(args[..i]), sep, args[i]);
  }

  lemma ScanOfOpenMember(depth: int, sep: string, a: Arg)
    requires (sep == "" || sep == ",") && a.value.RawValue?
    ensures ScanFrom(Scan(false, false, depth), sep + RenderMember(a))
         == Deeper(OpenPlace(a), depth + OutsideDepth(Outside(""), a.value.text))
  {
    hide Quoted, Trim, Normalize;
    var st := Scan(false, false, depth);
    var key, value := Quoted(Trim(a.name)), NormalizeQuotes(a.value.text);
    ScanAppend(st, sep, RenderMember(a));
    assert RenderMember(a) == key + (":" + value);
    ScanAppend(st, key, ":" + value);
    QuotedLeavesScanUnchanged(st, Trim(a.name));
    ScanAppend(st, ":", value);
    assert ScanFrom(st, ":") == st && ScanFrom(st, sep) == st;
    NormalizeSimulatesFrom(Out, a.value.text, depth);
  }

  /** The scan of the whole open object. */
  lemma ScanOfOpenList(args: seq<Arg>)
    ensures var i := FirstOpen(args);
            ScanFrom(ScanStart, OpenObject(args))
            == if i == |args| then Scan(false, false, 1 + OpenBraces(args))
               else Deeper(ReadOpen(args, i), 1 + OpenBraces(args[..i + 1]))
  {
    hide ScanFrom, RenderMembers, RenderMember, OpenBraces, OpenPlace, Later, FirstOpen, PlaceAfter;
    var i := FirstOpen(args);
    if i == |args| {
      ScanOfMembers(args);
    } else {
      MembersThenLater(args, i + 1);
      var head, tail := "{" + RenderMembers(args[..i + 1]), Later(args, i + 1);
      ConcatAssociates("{", RenderMembers(args[..i + 1]), tail);
      ScanAppend(ScanStart, head, tail);
      ScanUpToOpen(args, i);
      ScanDeeper(OpenPlace(args[i]), 1 + OpenBraces(args[..i + 1]), tail);
    }
  }

  /** For every list: the braces that are open when the tool is closed. */
  lemma DepthOfOpenObject(args: seq<Arg>)
    ensures var i := FirstOpen(args);
            BraceDepth(OpenObject(args))
            == if i == |args| then 1 + OpenBraces(args) else 1 + OpenBraces(args[..i + 1]) + ReadOpen(args, i).depth
  {
    hide OpenObject, ReadOpen, OpenBraces, ScanFrom, FirstOpen;
    ScanOfOpenList(args);
  }

  // ----- when the arguments are the object -----

  lemma ClosersAgreeIff(args: seq<Arg>)
    ensures OpenObject(args) + Closers(OpenObject(args)) == RenderObject(args)
            <==> AtLeastZero(BraceDepth(OpenObject(args))) == AtLeastZero(1 + OpenBraces(args))
  {
    hide BraceDepth, OpenBraces, RenderMembers;
    var o := OpenObject(args);
    var m, n := AtLeastZero(BraceDepth(o)), AtLeastZero(1 + OpenBraces(args));
    assert Repeat('}', 0) == "";
    assert o + Closers(o) == o + Repeat('}', m) && RenderObject(args) == o + Repeat('}', n);
    if m != n {
      assert |o + Repeat('}', m)| != |o + Repeat('}', n)|;
    }
  }

  /** For every list: the arguments are the rendered object if and only if every raw value
      closes its quotes, or the members after the first one that does not, read on from
      inside its string, leave as many braces open as they and their values should. */
  lemma ArgumentsRenderIff(args: seq<Arg>)
    ensures var i := FirstOpen(args);
            OpenObject(args) + Closers(OpenObject(args)) == RenderObject(args)
            <==> i == |args|
                 || AtLeastZero(1 + OpenBraces(args[..i + 1]) + ReadOpen(args, i).depth)
                    == AtLeastZero(1 + OpenBraces(args))
  {
    hide BraceDepth, OpenBraces, OpenObject, RenderObject, Closers, ReadOpen, FirstOpen;
    DepthOfOpenObject(args);
    ClosersAgreeIff(args);
  }

  /** In particular when every raw value but the last closes its quotes. */
  lemma ClosedArgumentsRender(args: seq<Arg>)
    requires forall i :: 0 <= i < |args| - 1 ==> IsClosed(args[i].value)
    ensures OpenObject(args) + Closers(OpenObject(args)) == RenderObject(args)
  {
    hide OpenObject, RenderObject, Closers, OpenBraces, FirstOpen, IsClosed, ReadOpen;
    ArgumentsRenderIff(args);
    var i := FirstOpen(args);
    if i < |args| {
      assert i == |args| - 1 && args[..i + 1] == args;
      LastIsOpen(args);
    }
  }

  lemma LastIsOpen(args: seq<Arg>)
    requires args != []
    ensures ReadOpen(args, |args| - 1).depth == 0
  {
    var i := |args| - 1;
    assert Later(args, i + 1) == "";
    hide Later;
    NoClosers(OpenPlace(args[i]));
  }

  /** For every list: the arguments end with no string and no brace open if and only if the
      members do not close more braces than there are and, after an open value, the later
      members happen to end its string. */
  lemma ArgumentsCloseIff(args: seq<Arg>)
    ensures var o, i := OpenObject(args), FirstOpen(args);
            ScanFrom(ScanStart, o + Closers(o)) == ScanStart
            <==> if i == |args| then 1 + OpenBraces(args) >= 0
                 else !ReadOpen(args, i).inString && 1 + OpenBraces(args[..i + 1]) + ReadOpen(args, i).depth >= 0
  {
    ScanOfOpenList(args);
    var o := OpenObject(args);
    ClosesIff(o);
    hide ScanFrom, OpenObject, ReadOpen, OpenBraces, FirstOpen;
  }

  lemma ClosesIff(o: string)
    ensures var sc := ScanFrom(ScanStart, o);
            ScanFrom(ScanStart, o + Closers(o)) == ScanStart <==> !sc.inString && sc.depth >= 0
  {
    hide ScanFrom;
    var sc := ScanFrom(ScanStart, o);
    ScanAppend(ScanStart, o, Closers(o));
    EscapedIsInString(ScanStart, o);
    NoClosers(sc);
    if sc.inString {
      BracesInString(sc, AtLeastZero(sc.depth));
    } else {
      ClosingBraces(sc, AtLeastZero(sc.depth));
    }
  }

  lemma NoClosers(sc: Scan)
    ensures ScanFrom(sc, "") == sc && Repeat('}', 0) == ""
  {
  }

  lemma {:induction false} EscapedIsInString(sc: Scan, s: string)
    requires sc.escaped ==> sc.inString
    ensures ScanFrom(sc, s).escaped ==> ScanFrom(sc, s).inString
    decreases |s|
  {
    if s != "" {
      EscapedIsInString(ScanStep(sc, s[0]), s[1..]);
    }
  }

  /** Inside a string braces close nothing. */
  lemma {:induction false} BracesInString(sc: Scan, n: nat)
    requires sc.inString
    ensures ScanFrom(sc, Repeat('}', n)).inString
    decreases n
  {
    if n > 0 {
      BracesInString(ScanStep(sc, '}'), n - 1);
    }
  }

  /** Quotes that the raw values leave open hide braces from the scanner: the first value
      opens a string in which the brace of the second one is not counted. */
  lemma OpenQuoteHidesBrace()
    ensures var args := [Arg("a", RawValue("'")), Arg("b", RawValue("{"))];
            && 1 + OpenBraces(args) == 2 && BraceDepth(OpenObject(args)) == 1
            && OpenObject(args) + Closers(OpenObject(args)) != RenderObject(args)
  {
    hide *;
    var first, second := Arg("a", RawValue("'")), Arg("b", RawValue("{"));
    OneBraceOutside();
    TwoArguments(first, second);
    FirstOpensString();
    SecondBraceIsInString();
    ScanAppend(ScanStart, "{" + RenderMember(first), "," + RenderMember(second));
    DepthIs(OpenObject([first, second]));
    ClosersAgreeIff([first, second]);
    BothPositive();
  }

  lemma DepthIs(s: string)
    ensures BraceDepth(s) == ScanFrom(ScanStart, s).depth
  {
  }

  lemma BothPositive()
    ensures AtLeastZero(1) == 1 && AtLeastZero(2) == 2
  {
  }

  lemma TwoArguments(a: Arg, b: Arg)
    requires a.value.RawValue? && b.value.RawValue?
    ensures OpenObject([a, b]) == ("{" + RenderMember(a)) + ("," + RenderMember(b))
    ensures OpenBraces([a, b]) == OutsideDepth(Outside(""), a.value.text) + OutsideDepth(Outside(""), b.value.text)
  {
    hide RenderMember, OutsideDepth;
    var args := [a, b];
    assert args[..1] == [a] && [a][..0] == [];
    assert RenderMembers([a]) == RenderMember(a) && OpenBraces([a]) == OutsideDepth(Outside(""), a.value.text);
  }

  lemma OneBraceOutside()
    ensures OutsideDepth(Outside(""), "'") == 0 && OutsideDepth(Outside(""), "{") == 1
  {
    assert "'"[1..] == "" && "{"[1..] == "";
  }

  lemma FirstOpensString()
    ensures ScanFrom(ScanStart, "{" + RenderMember(Arg("a", RawValue("'")))) == Scan(true, false, 1)
  {
    NormalizeChunk(Out, "'");
    assert "'"[1..] == "" && NormalizeQuotes("'") == "\"";
    NormalizeEmpty(InSingle);
    var key := Quoted(Trim("a"));
    var text := "{" + RenderMember(Arg("a", RawValue("'")));
    hide Quoted, Trim, NormalizeQuotes;
    assert text == "{" + (key + (":" + "\""));
    ScanAppend(ScanStart, "{", key + (":" + "\""));
    ScanOfOpenBrace();
    ScanAppend(Scan(false, false, 1), key, ":" + "\"");
    QuotedLeavesScanUnchanged(Scan(false, false, 1), Trim("a"));
    ScanOverShort(Scan(false, false, 1), ":" + "\"");
  }

  lemma SecondBraceIsInString()
    ensures ScanFrom(Scan(true, false, 1), "," + RenderMember(Arg("b", RawValue("{")))).depth == 1
  {
    SecondText();
    hide RenderMember;
    assert "," + "\"b\":{" == ",\"" + ("b\"" + ":{");
    ScanAppend(Scan(true, false, 1), ",\"", "b\"" + ":{");
    ScanOverShort(Scan(true, false, 1), ",\"");
    ScanAppend(Scan(false, false, 1), "b\"", ":{");
    ScanOverShort(Scan(false, false, 1), "b\"");
    ScanOverShort(Scan(true, false, 1), ":{");
  }

  lemma SecondText()
    ensures RenderMember(Arg("b", RawValue("{"))) == "\"b\":{"
  {
    LoneBrace();
    KeyText();
    hide NormalizeQuotes, Quoted, Trim;
  }

  lemma LoneBrace()
    ensures NormalizeQuotes("{") == "{"
  {
    hide Normalize;
    NormalizeChunk(Out, "{");
    assert "{"[1..] == "" && "{"[..1] == "{";
    NormalizeEmpty(Out);
  }

  lemma KeyText()
    ensures Quoted(Trim("b")) == "\"b\""
  {
    assert Trim("b") == "b";
    assert "b"[1..] == "" && Escape("") == "" && Escape("b") == EscapeChar('b') + "";
  }
}
