/** When the place of the tool name among the events of a tool matters
    (common/chat-peg-parser.cpp, lines 278-280 and 344-457). */
module ToolNamePlace {
  import opened Sequences
  import opened JsonText
  import opened QuoteNormalizer
  import opened ToolCallMapper
  import opened ToolCallRendering

  predicate IsObjectEvent(e: Event)
  {
    e.ToolArgs? && IsObjectText(e.text)
  }

  predicate HasObject(body: seq<Event>)
  {
    exists i :: 0 <= i < |body| && IsObjectEvent(body[i])
  }

  /** A value that is written to the arguments although no name or object opened them. */
  predicate IsBareWrite(e: Event)
  {
    e.ArgStringValue? || (e.ArgValue? && e.text != "")
  }

  predicate HasArguments(st: State)
  {
    IsNamed(st) && CurrentTool(st).arguments != ""
  }

  /** The same state with one more brace at the front of the last call's arguments. */
  function AddBrace(st: State): (r: State)
    requires IsNamed(st)
    ensures IsNamed(r)
  {
    var c := CurrentTool(st);
    SetTool(st, c.(arguments := "{" + c.arguments))
  }

  // ----- the brace stays until an object replaces the arguments -----

  lemma BraceIsTarget(st: State)
    requires IsNamed(st)
    ensures HasTool(st) && HasTool(AddBrace(st)) && Target(st) == CurrentTool(st).arguments
    ensures Target(AddBrace(st)) == "{" + Target(st)
    ensures forall s :: SetTarget(AddBrace(st), s) == SetTarget(st, s)
    ensures forall s :: IsNamed(SetTarget(st, s)) && AddBrace(SetTarget(st, s)) == SetTarget(st, "{" + s)
  {
    var c, calls, n := CurrentTool(st), st.msg.calls, |st.msg.calls| - 1;
    forall s
      ensures SetTarget(AddBrace(st), s) == SetTarget(st, s)
      ensures AddBrace(SetTarget(st, s)) == SetTarget(st, "{" + s)
    {
      assert calls[n := c.(arguments := "{" + c.arguments)][n := c.(arguments := s)] == calls[n := c.(arguments := s)];
      assert calls[n := c.(arguments := s)][n := c.(arguments := "{" + s)] == calls[n := c.(arguments := "{" + s)];
    }
  }

  lemma BraceStep(st: State, e: Event)
    requires HasArguments(st) && IsBody(e)
    ensures HasArguments(Next(st, e))
    ensures Next(AddBrace(st), e) == if IsObjectEvent(e) then Next(st, e) else AddBrace(Next(st, e))
  {
    hide Quoted, Trim, TrimTrailing, IdText, ValueText;
    BodyKeepsNamed(st, e);
    if e.ToolId? {
      BraceAndId(st, IdText(e.text));
    } else if TouchesTool(e) {
      BraceIsTarget(st);
      BraceWrites(st, e);
    }
  }

  lemma BraceAndId(st: State, id: string)
    requires IsNamed(st)
    ensures var c := CurrentTool(st);
            && IsNamed(SetTool(st, c.(id := id)))
            && SetTool(AddBrace(st), CurrentTool(AddBrace(st)).(id := id)) == AddBrace(SetTool(st, c.(id := id)))
  {
    var c, calls, n := CurrentTool(st), st.msg.calls, |st.msg.calls| - 1;
    var a, b := c.(arguments := "{" + c.arguments), c.(id := id);
    var both := b.(arguments := "{" + c.arguments);
    assert calls[n := a][n := both] == calls[n := b][n := both];
  }

  lemma BraceWrites(st: State, e: Event)
    requires HasArguments(st) && IsBody(e) && TouchesTool(e) && !e.ToolId?
    ensures IsNamed(OnToolEvent(st, e)) && Target(OnToolEvent(st, e)) != ""
    ensures OnToolEvent(AddBrace(st), e)
         == if IsObjectEvent(e) then OnToolEvent(st, e) else AddBrace(OnToolEvent(st, e))
  {
    BraceIsTarget(st);
    if e.ArgName? {
      BraceOnArgName(st, e.text);
    } else if e.ArgValue? || e.ArgStringValue? {
      BraceOnValue(st, e);
    } else if e.ArgClose? {
      BraceAppend(st, "\"", st.argCount, false);
    }
    hide OnArgName, OnValue, TrimTrailing, SetTarget, AddBrace;
  }

  lemma BraceOnArgName(st: State, text: string)
    requires HasArguments(st)
    ensures HasTool(st) && HasTool(AddBrace(st))
    ensures HasArguments(OnArgName(st, text)) && OnArgName(AddBrace(st), text) == AddBrace(OnArgName(st, text))
  {
    BraceIsTarget(st);
    OnArgNameAppends(st, text);
    OnArgNameAppends(AddBrace(st), text);
    hide OnArgName, Entry, SetTarget, AddBrace;
    BraceAppend(st, Entry(st.argCount, text), st.argCount + 1, st.closing);
  }

  function Entry(argCount: nat, text: string): string
  {
    (if argCount > 0 then "," else "") + Quoted(Trim(text)) + ":"
  }

  lemma OnArgNameAppends(st: State, text: string)
    requires IsNamed(st) && Target(st) != ""
    ensures OnArgName(st, text)
         == SetTarget(st, Target(st) + Entry(st.argCount, text)).(argCount := st.argCount + 1)
  {
    hide Quoted, Trim, SetTarget;
  }

  lemma BraceOnValue(st: State, e: Event)
    requires HasArguments(st) && (e.ArgValue? || e.ArgStringValue?)
    ensures HasTool(st) && HasTool(AddBrace(st))
    ensures HasArguments(OnValue(st, e)) && OnValue(AddBrace(st), e) == AddBrace(OnValue(st, e))
  {
    hide ValueText, SetTarget, AddBrace;
    BraceIsTarget(st);
    BraceAppend(st, ValueText(st.closing, e), st.argCount, st.closing || e.ArgStringValue?);
  }

  /** Appending to the arguments and the brace at their front do not meet. */
  lemma BraceAppend(st: State, s: string, argCount: nat, closing: bool)
    requires IsNamed(st)
    ensures HasTool(st) && HasTool(AddBrace(st))
    ensures var r := SetTarget(st, Target(st) + s).(argCount := argCount, closing := closing);
            && IsNamed(r) && Target(r) == Target(st) + s
            && SetTarget(AddBrace(st), Target(AddBrace(st)) + s).(argCount := argCount, closing := closing)
               == AddBrace(r)
    ensures AddBrace(st).argCount == st.argCount && AddBrace(st).closing == st.closing
    ensures forall t :: SetTarget(st, t).argCount == st.argCount && SetTarget(st, t).closing == st.closing
  {
    BraceIsTarget(st);
    ConcatAssociates("{", Target(st), s);
  }

  lemma {:induction false} BraceRun(st: State, body: seq<Event>)
    requires HasArguments(st) && forall i :: 0 <= i < |body| ==> IsBody(body[i])
    ensures LegalRun(st, body) && LegalRun(AddBrace(st), body) && HasArguments(Run(st, body))
    ensures Run(AddBrace(st), body) == if HasObject(body) then Run(st, body) else AddBrace(Run(st, body))
    decreases |body|
  {
    hide Next, AddBrace;
    if body != [] {
      var e, rest := body[0], body[1..];
      BraceStep(st, e);
      BraceRun(Next(st, e), rest);
      assert HasObject(body) <==> IsObjectEvent(e) || HasObject(rest) by {
        assert forall i :: 0 <= i < |rest| ==> rest[i] == body[i + 1];
      }
      if IsObjectEvent(e) {
        NamedBodyIsLegal(Next(st, e), rest);
      }
    }
  }

  // ----- a bare value before the name -----

  /** A tool has been opened and nothing has been written for it. */
  predicate Untouched(st: State)
  {
    Valid(st) && st.current.PendingTool? && st.buffer == "" && !st.closing
  }

  lemma NormalizeNonEmpty(s: string)
    requires s != ""
    ensures NormalizeQuotes(s) != ""
  {
    hide Normalize;
    NormalizeChunk(Out, s);
  }

  /** The value lands behind a brace if the tool is named, and in an empty buffer if not. */
  lemma BareWrite(st: State, e: Event, text: string)
    requires Untouched(st) && IsBareWrite(e) && TrimTrailing(text) != ""
    ensures var late := Next(st, e);
            && Valid(late) && late.current.PendingTool? && late.buffer != "" && IsNamed(Next(st, ToolName(text)))
            && HasArguments(Next(late, ToolName(text)))
            && Next(Next(st, ToolName(text)), e) == AddBrace(Next(late, ToolName(text)))
  {
    hide NormalizeQuotes, Escape, TrimTrailing;
    if e.ArgValue? {
      NormalizeNonEmpty(e.text);
    }
    var late, v := Next(st, e), ValueText(false, e);
    assert "" + v == v;
    NextIsNamed(st, text);
    NextIsNamed(late, text);
    NamePending(st, text);
    NamePending(late, text);
    var c := CallOf(late, text);
    WriteNamed(st.msg, CallOf(st, text), st.argCount, false, "{" + v);
    WriteNamed(st.msg, c, st.argCount, late.closing, "{" + v);
  }

  lemma PassOver(st: State, e: Event)
    requires Untouched(st) && IsBody(e) && !IsBareWrite(e) && !e.ArgName? && !IsObjectEvent(e)
    ensures Untouched(Next(st, e)) && Waiting(st, [e])
  {
    hide Normalize;
    NormalizeEmpty(Out);
    assert [e][1..] == [] && StartsArguments([]);
  }

  /** The name exchanged with the event before it. */
  lemma NameAfterOne(st: State, e: Event, rest: seq<Event>, text: string)
    requires Untouched(st) && IsBody(e) && !IsBareWrite(e) && !e.ArgName? && !IsObjectEvent(e)
    requires TrimTrailing(text) != "" && forall i :: 0 <= i < |rest| ==> IsBody(rest[i])
    ensures Valid(Next(st, e)) && LegalRun(Next(st, e), [ToolName(text)] + rest)
    ensures LegalRun(st, [ToolName(text)] + ([e] + rest))
    ensures Run(st, [ToolName(text)] + ([e] + rest)) == Run(Next(st, e), [ToolName(text)] + rest)
  {
    PassOver(st, e);
    hide Next, TrimTrailing;
    var name := ToolName(text);
    NameCommutes(st, [e], text);
    NamedRunIsLegal(st, [e] + rest, text);
    NamedRunIsLegal(Next(st, e), rest, text);
    assert ([name] + rest)[1..] == rest && ([e] + rest)[1..] == rest && ([name] + ([e] + rest))[1..] == [e] + rest;
    assert Run(st, [name] + ([e] + rest)) == Run(Next(st, name), [e] + rest);
  }

  /** Naming the tool first leaves one more brace than naming it after a bare value, unless
      an object replaces the arguments. */
  lemma {:induction false} LateNameLacksBrace(st: State, body: seq<Event>, k: nat, text: string)
    requires Untouched(st) && k <= |body| && !StartsArguments(body[..k]) && TrimTrailing(text) != ""
    requires forall i :: 0 <= i < |body| ==> IsBody(body[i])
    ensures var late := body[..k] + [ToolName(text)] + body[k..];
            var early := [ToolName(text)] + body;
            && LegalRun(st, late) && LegalRun(st, early) && HasArguments(Run(st, late))
            && Run(st, early) == if HasObject(body) then Run(st, late) else AddBrace(Run(st, late))
    decreases k
  {
    NotStarted(body, k);
    hide Next, AddBrace, TrimTrailing, Run, LegalRun, HasObject, StartsArguments;
    var name, e, rest := ToolName(text), body[0], body[1..];
    var late' := rest[..k - 1] + [name] + rest[k - 1..];
    HeadAndTail(body);
    FirstMovesOut(body, k, name);
    var st' := Next(st, e);
    if IsBareWrite(e) {
      FirstBareWrite(st, e, rest, k - 1, text);
    } else {
      PassOver(st, e);
      LateNameLacksBrace(st', rest, k - 1, text);
      NameAfterOne(st, e, rest, text);
      RunCons(st, e, late');
    }
  }

  lemma NotStarted(body: seq<Event>, k: nat)
    requires k <= |body| && !StartsArguments(body[..k])
    ensures k > 0 && !IsObjectEvent(body[0]) && !body[0].ArgName?
    ensures !IsBareWrite(body[0]) ==> !StartsArguments(body[1..][..k - 1])
    ensures HasObject(body) <==> HasObject(body[1..])
  {
    var rest := body[1..];
    assert body[..k][0] == body[0] && body[..k][1..] == rest[..k - 1];
    assert forall i :: 0 <= i < |rest| ==> rest[i] == body[i + 1];
  }

  lemma FirstMovesOut<T>(s: seq<T>, k: nat, x: T)
    requires 0 < k <= |s|
    ensures s[..k] + [x] + s[k..] == [s[0]] + (s[1..][..k - 1] + [x] + s[1..][k - 1..])
  {
  }

  /** The first event is a bare value. */
  lemma FirstBareWrite(st: State, e: Event, rest: seq<Event>, k: nat, text: string)
    requires Untouched(st) && IsBareWrite(e) && k <= |rest| && TrimTrailing(text) != ""
    requires forall i :: 0 <= i < |rest| ==> IsBody(rest[i])
    ensures var late := [e] + (rest[..k] + [ToolName(text)] + rest[k..]);
            var early := [ToolName(text)] + ([e] + rest);
            && LegalRun(st, late) && LegalRun(st, early) && HasArguments(Run(st, late))
            && Run(st, early) == if HasObject(rest) then Run(st, late) else AddBrace(Run(st, late))
  {
    hide Next, AddBrace, TrimTrailing, Run, LegalRun, HasObject, StartsArguments;
    var name, st' := ToolName(text), Next(st, e);
    BareWrite(st, e, text);
    NamePlaceFrom(st', rest, k, text);
    BraceRun(Next(st', name), rest);
    RunCons(st', name, rest);
    RunCons(st, e, rest[..k] + [name] + rest[k..]);
    RunCons(Next(st, name), e, rest);
    RunCons(st, name, [e] + rest);
  }

  // ----- closing keeps the two apart -----

  lemma DepthWithBrace(s: string)
    ensures BraceDepth("{" + s) == BraceDepth(s) + 1
  {
    assert ("{" + s)[1..] == s;
    ScanDeeper(ScanStart, 1, s);
  }

  lemma CloseKeepsApart(st: State)
    requires IsNamed(st)
    ensures OnToolClose(AddBrace(st)) != OnToolClose(st)
  {
    var n, quote := |st.msg.calls| - 1, if st.closing then "\"" else "";
    var t := CurrentTool(st).arguments + quote;
    assert "{" + CurrentTool(st).arguments + quote == "{" + t;
    DepthWithBrace(t);
    hide BraceDepth;
    assert |OnToolClose(AddBrace(st)).msg.calls[n].arguments| == |"{" + t| + |Closers("{" + t)|;
    assert |OnToolClose(st).msg.calls[n].arguments| == |t| + |Closers(t)|;
  }

  /** The place of the name does not matter exactly when what precedes it does not begin
      with a bare value, or an object replaces the arguments anyway. */
  lemma NamePlaceIsIrrelevantIff(st: State, body: seq<Event>, k: nat, text: string)
    requires Valid(st) && k <= |body| && TrimTrailing(text) != ""
    requires forall i :: 0 <= i < |body| ==> IsBody(body[i])
    ensures var late := [ToolOpen] + (body[..k] + [ToolName(text)] + body[k..]) + [ToolClose];
            var early := [ToolOpen] + ([ToolName(text)] + body) + [ToolClose];
            && LegalRun(st, late) && LegalRun(st, early)
            && (Run(st, late) == Run(st, early) <==> StartsArguments(body[..k]) || HasObject(body))
  {
    if StartsArguments(body[..k]) {
      NamePlaceIsIrrelevant(st, body, k, text);
    } else {
      var begun := Next(st, ToolOpen);
      assert Untouched(begun);
      hide Next, LegalRun, Run, AddBrace;
      LateNameLacksBrace(begun, body, k, text);
      Enclosed(st, body[..k] + [ToolName(text)] + body[k..]);
      Enclosed(st, [ToolName(text)] + body);
      CloseKeepsApart(Run(begun, body[..k] + [ToolName(text)] + body[k..]));
    }
  }

  lemma Enclosed(st: State, inner: seq<Event>)
    requires Valid(st) && Valid(Next(st, ToolOpen))
    requires LegalRun(Next(st, ToolOpen), inner) && IsNamed(Run(Next(st, ToolOpen), inner))
    ensures var es := [ToolOpen] + inner + [ToolClose];
            LegalRun(st, es) && Run(st, es) == OnToolClose(Run(Next(st, ToolOpen), inner))
  {
    var closing := Run(Next(st, ToolOpen), inner);
    CloseIsNext(closing);
    hide Next, LegalRun, Run;
    RunCons(st, ToolOpen, inner);
    RunOne(closing, ToolClose);
    RunAppend(st, [ToolOpen] + inner, [ToolClose]);
  }
}
