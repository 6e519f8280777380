/** Tagged arguments, written piece by piece, add up to one JSON object
    (common/chat-peg-parser.cpp, lines 278-280 and 344-457). */
module ToolCallRendering {
  import opened Wrappers
  import opened JsonText
  import opened QuoteNormalizer
  import opened ChatMessage
  import opened ToolCallMapper

  lemma {:induction false} RunAppend(st: State, a: seq<Event>, b: seq<Event>)
    requires Valid(st) && LegalRun(st, a) && LegalRun(Run(st, a), b)
    ensures LegalRun(st, a + b) && Run(st, a + b) == Run(Run(st, a), b)
    decreases |a|
  {
    hide Next;
    if a == [] {
      assert a + b == b;
    } else {
      assert (a + b)[1..] == a[1..] + b;
      RunAppend(Next(st, a[0]), a[1..], b);
    }
  }

  lemma RunOne(st: State, e: Event)
    requires Valid(st) && Legal(st, e)
    ensures LegalRun(st, [e]) && Run(st, [e]) == Next(st, e)
  {
    assert [e][1..] == [];
  }

  // ----- the place of the name -----

  /** The events between the opening and the closing of one tool, its name aside. */
  predicate IsBody(e: Event)
  {
    !e.ToolOpen? && !e.ToolClose? && !e.ToolName?
  }

  /** The first thing written to the arguments is an argument name or a whole object. */
  predicate StartsArguments(body: seq<Event>)
  {
    body == [] ||
    (var e := body[0];
     if e.ArgName? || (e.ToolArgs? && IsObjectText(e.text)) then true
     else if e.ArgStringValue? || (e.ArgValue? && e.text != "") then false
     else StartsArguments(body[1..]))
  }

  /** While the name is unknown the arguments wait in the buffer. Either the next event
      does not append to an empty buffer, or the buffer is not empty. */
  predicate Waiting(st: State, body: seq<Event>)
  {
    Valid(st) && st.current.PendingTool? && (st.buffer == "" ==> StartsArguments(body) && !st.closing)
  }

  lemma WaitingAfter(st: State, body: seq<Event>)
    requires body != [] && IsBody(body[0]) && Waiting(st, body)
    ensures Waiting(Next(st, body[0]), body[1..])
  {
    var e := body[0];
    if e.ArgValue? && e.text == "" {
      NormalizeEmpty(Out);
    }
  }

  /** A state in which the last call is named, and so written to directly. */
  function NamedState(base: Msg, c: ToolCall, argCount: nat, closing: bool): State
  {
    State(base.(calls := base.calls + [c]), None, LastCall, argCount, closing, "")
  }

  lemma WriteNamed(base: Msg, c: ToolCall, argCount: nat, closing: bool, s: string)
    requires c.name != ""
    ensures var st := NamedState(base, c, argCount, closing);
            && Valid(st) && HasTool(st) && CurrentTool(st) == c && Target(st) == c.arguments
            && SetTarget(st, s) == NamedState(base, c.(arguments := s), argCount, closing)
  {
    var calls := base.calls + [c];
    assert calls[|calls| - 1 := c.(arguments := s)] == base.calls + [c.(arguments := s)];
  }

  lemma IdNamed(base: Msg, c: ToolCall, argCount: nat, closing: bool, id: string)
    ensures var st := NamedState(base, c, argCount, closing);
            SetTool(st, c.(id := id)) == NamedState(base, c.(id := id), argCount, closing)
  {
    var calls := base.calls + [c];
    assert calls[|calls| - 1 := c.(id := id)] == base.calls + [c.(id := id)];
  }

  function CallOf(st: State, text: string): ToolCall
    requires Valid(st) && st.current.PendingTool?
  {
    ToolCall(TrimTrailing(text), if st.buffer == "" then "{" else st.buffer, st.pending.value.id)
  }

  /** Naming a pending tool moves its buffer into the arguments. */
  lemma NamePending(st: State, text: string)
    requires Valid(st) && st.current.PendingTool?
    ensures OnToolName(st, text) == NamedState(st.msg, CallOf(st, text), st.argCount, st.closing)
  {
  }

  /** A body event and the tool name can be exchanged. */
  lemma NameCommutes(st: State, body: seq<Event>, text: string)
    requires body != [] && IsBody(body[0]) && Waiting(st, body)
    requires TrimTrailing(text) != ""
    ensures Next(Next(st, body[0]), ToolName(text)) == Next(Next(st, ToolName(text)), body[0])
  {
    hide OnToolEvent, StartsArguments;
    var e := body[0];
    NextIsNamed(st, text);
    if TouchesTool(e) {
      NamePending(st, text);
      ToolEventCommutes(st, body, text);
      NextIsNamed(OnToolEvent(st, e), text);
    } else {
      NamePending(st, text);
      NamePending(Next(st, e), text);
      NextIsNamed(Next(st, e), text);
    }
  }

  lemma NextIsNamed(st: State, text: string)
    requires Valid(st) && st.current.PendingTool?
    ensures Next(st, ToolName(text)) == OnToolName(st, text)
  {
  }

  lemma ToolEventCommutes(st: State, body: seq<Event>, text: string)
    requires body != [] && IsBody(body[0]) && TouchesTool(body[0]) && Waiting(st, body)
    requires TrimTrailing(text) != ""
    ensures var named := NamedState(st.msg, CallOf(st, text), st.argCount, st.closing);
            && Valid(named) && OnToolEvent(st, body[0]).current.PendingTool?
            && OnToolName(OnToolEvent(st, body[0]), text) == OnToolEvent(named, body[0])
  {
    hide Quoted, Trim, NormalizeQuotes, Escape, IdText, TrimTrailing;
    var e, c := body[0], CallOf(st, text);
    var late := OnToolEvent(st, e);
    WriteNamed(st.msg, c, st.argCount, st.closing, "");
    if e.ToolId? {
      IdNamed(st.msg, c, st.argCount, st.closing, IdText(e.text));
      NamePending(late, text);
    } else {
      PendingEventWritesBuffer(st, body);
      var early := OnToolEvent(NamedState(st.msg, c, st.argCount, st.closing), e);
      var s := if late.buffer == "" then c.arguments else late.buffer;
      NamedEventWritesArguments(st, body, c, s);
      assert early == NamedState(st.msg, c.(arguments := s), late.argCount, late.closing);
      NamePending(late, text);
    }
  }

  lemma PendingEventWritesBuffer(st: State, body: seq<Event>)
    requires body != [] && IsBody(body[0]) && TouchesTool(body[0]) && !body[0].ToolId? && Waiting(st, body)
    ensures var late := OnToolEvent(st, body[0]);
            && late == st.(buffer := late.buffer, argCount := late.argCount, closing := late.closing)
            && (late.buffer == "" ==> st.buffer == "")
  {
    hide Quoted, Trim, NormalizeQuotes, Escape, TrimTrailing;
  }

  lemma NamedEventWritesArguments(st: State, body: seq<Event>, c: ToolCall, s: string)
    requires body != [] && IsBody(body[0]) && TouchesTool(body[0]) && !body[0].ToolId? && Waiting(st, body)
    requires c.name != "" && c.arguments == if st.buffer == "" then "{" else st.buffer
    requires var late := OnToolEvent(st, body[0]); s == if late.buffer == "" then c.arguments else late.buffer
    ensures var late := OnToolEvent(st, body[0]);
            var named := NamedState(st.msg, c, st.argCount, st.closing);
            && Valid(named)
            && OnToolEvent(named, body[0]) == NamedState(st.msg, c.(arguments := s), late.argCount, late.closing)
  {
    hide Quoted, Trim, NormalizeQuotes, Escape, TrimTrailing, SetTarget;
    var e := body[0];
    var named := NamedState(st.msg, c, st.argCount, st.closing);
    WriteNamed(st.msg, c, st.argCount, st.closing, s);
    WritePending(st);
    if e.ArgValue? && e.text == "" {
      NormalizeEmptyText();
      assert c.arguments + "" == c.arguments && st.buffer + "" == st.buffer;
    }
  }

  lemma NormalizeEmptyText()
    ensures NormalizeQuotes("") == ""
  {
    NormalizeEmpty(Out);
  }

  lemma WritePending(st: State)
    requires Valid(st) && st.current.PendingTool?
    ensures Target(st) == st.buffer && forall s :: SetTarget(st, s) == st.(buffer := s)
  {
  }

  /** Naming the tool first, or after any part of the body, leads to the same state. */
  lemma {:induction false} NamePlaceFrom(st: State, body: seq<Event>, k: nat, text: string)
    requires k <= |body| && Waiting(st, body[..k]) && TrimTrailing(text) != ""
    requires forall i :: 0 <= i < |body| ==> IsBody(body[i])
    ensures var late := body[..k] + [ToolName(text)] + body[k..];
            var early := [ToolName(text)] + body;
            LegalRun(st, late) && LegalRun(st, early) && Run(st, late) == Run(st, early)
    decreases k
  {
    hide Next;
    var name := ToolName(text);
    NamedRunIsLegal(st, body, text);
    if k == 0 {
      assert body[..0] + [name] + body[0..] == [name] + body;
    } else {
      var st', rest := Next(st, body[0]), body[1..];
      assert body[..k][0] == body[0] && body[..k][1..] == rest[..k - 1];
      WaitingAfter(st, body[..k]);
      NamePlaceFrom(st', rest, k - 1, text);
      NameCommutes(st, body[..k], text);
      var late := body[..k] + [name] + body[k..];
      var late' := rest[..k - 1] + [name] + rest[k - 1..];
      assert late[0] == body[0] && late[1..] == late';
      var early' := [name] + rest;
      assert early'[1..] == rest && ([name] + body)[1..] == body;
      assert Run(st', early') == Run(Next(st', name), rest);
      assert Run(st, [name] + body) == Run(Next(st, name), body);
    }
  }

  predicate IsNamed(st: State)
  {
    Valid(st) && st.current.LastCall? && CurrentTool(st).name != "" && st.buffer == ""
  }

  lemma BodyKeepsNamed(st: State, e: Event)
    requires IsNamed(st) && IsBody(e)
    ensures IsNamed(Next(st, e))
  {
  }

  lemma {:induction false} NamedBodyIsLegal(st: State, body: seq<Event>)
    requires IsNamed(st) && forall i :: 0 <= i < |body| ==> IsBody(body[i])
    ensures LegalRun(st, body) && IsNamed(Run(st, body))
    decreases |body|
  {
    hide Next;
    if body != [] {
      BodyKeepsNamed(st, body[0]);
      NamedBodyIsLegal(Next(st, body[0]), body[1..]);
    }
  }

  lemma NamedRunIsLegal(st: State, body: seq<Event>, text: string)
    requires Valid(st) && st.current.PendingTool? && TrimTrailing(text) != ""
    requires forall i :: 0 <= i < |body| ==> IsBody(body[i])
    ensures LegalRun(st, [ToolName(text)] + body) && IsNamed(Run(st, [ToolName(text)] + body))
  {
    NextIsNamed(st, text);
    NamePending(st, text);
    assert IsNamed(Next(st, ToolName(text)));
    hide Next, IsNamed, Run, LegalRun;
    NamedBodyIsLegal(Next(st, ToolName(text)), body);
    RunCons(st, ToolName(text), body);
  }

  /** Wherever the name falls among the events of a tool, the resulting state is the same
      as when the tool is named first. */
  lemma NamePlaceIsIrrelevant(st: State, body: seq<Event>, k: nat, text: string)
    requires Valid(st) && k <= |body| && TrimTrailing(text) != "" && StartsArguments(body[..k])
    requires forall i :: 0 <= i < |body| ==> IsBody(body[i])
    ensures var late := [ToolOpen] + (body[..k] + [ToolName(text)] + body[k..]) + [ToolClose];
            var early := [ToolOpen] + ([ToolName(text)] + body) + [ToolClose];
            LegalRun(st, late) && LegalRun(st, early) && Run(st, late) == Run(st, early)
  {
    hide Next, LegalRun, Run;
    var begun := Next(st, ToolOpen);
    assert Waiting(begun, body[..k]) by { OpenWaits(st, body[..k]); }
    RunOne(st, ToolOpen);
    var late, early := body[..k] + [ToolName(text)] + body[k..], [ToolName(text)] + body;
    NamePlaceFrom(begun, body, k, text);
    NamedRunIsLegal(begun, body, text);
    var closing := Run(begun, early);
    RunOne(closing, ToolClose);
    RunAppend(st, [ToolOpen], late);
    RunAppend(st, [ToolOpen], early);
    RunAppend(st, [ToolOpen] + late, [ToolClose]);
    RunAppend(st, [ToolOpen] + early, [ToolClose]);
  }

  lemma OpenWaits(st: State, body: seq<Event>)
    requires Valid(st) && StartsArguments(body)
    ensures Waiting(Next(st, ToolOpen), body)
  {
  }

  /** Without that condition the place does matter: a value that precedes every argument
      name follows a brace when the tool is named first, and no brace when it is not. */
  lemma ValueBeforeNamesDependsOnPlace()
    ensures var early := Next(Next(Next(Init, ToolOpen), ToolName("f")), ArgStringValue(""));
            var late := Next(Next(Next(Init, ToolOpen), ArgStringValue("")), ToolName("f"));
            early.msg.calls[0].arguments == "{\"" && late.msg.calls[0].arguments == "\""
  {
    var open := Next(Init, ToolOpen);
    var early := Next(open, ToolName("f"));
    assert early.msg.calls == [ToolCall("f", "{", "")];
    assert Next(open, ArgStringValue("")).buffer == "" + "\"";
  }

  // ----- the arguments as one object -----

  datatype Value = StringValue(text: string) | RawValue(text: string)
  datatype Arg = Arg(name: string, value: Value)

  function ValueEvent(v: Value): Event
  {
    if v.StringValue? then ArgStringValue(v.text) else ArgValue(v.text)
  }

  function ArgEvents(a: Arg): seq<Event>
  {
    [ArgOpen, ArgName(a.name), ValueEvent(a.value), ArgClose]
  }

  function BodyOf(args: seq<Arg>): seq<Event>
  {
    if args == [] then [] else BodyOf(args[..|args| - 1]) + ArgEvents(args[|args| - 1])
  }

  function RenderValue(v: Value): string
  {
    if v.StringValue? then Quoted(v.text) else NormalizeQuotes(v.text)
  }

  function RenderMember(a: Arg): string
  {
    Quoted(Trim(a.name)) + ":" + RenderValue(a.value)
  }

  function RenderMembers(args: seq<Arg>): string
  {
    if args == [] then ""
    else
      var n := |args| - 1;
      RenderMembers(args[..n]) + (if n > 0 then "," else "") + RenderMember(args[n])
  }

  lemma ValueThenClose(base: Msg, c: ToolCall, argCount: nat, v: Value)
    requires c.name != ""
    ensures var st := NamedState(base, c, argCount, false);
            && Valid(st) && Valid(OnValue(st, ValueEvent(v))) && HasTool(OnValue(st, ValueEvent(v)))
            && OnArgClose(OnValue(st, ValueEvent(v)))
               == NamedState(base, c.(arguments := c.arguments + RenderValue(v)), argCount, false)
  {
    hide Escape, NormalizeQuotes, SetTarget;
    var t, e := c.arguments, ValueEvent(v);
    var value := t + ValueText(false, e);
    WriteNamed(base, c, argCount, false, value);
    if v.StringValue? {
      if v.text == "" { EscapeEmpty(); }
      assert value + "\"" == t + Quoted(v.text);
      WriteNamed(base, c.(arguments := value), argCount, true, t + Quoted(v.text));
    } else {
      WriteNamed(base, c.(arguments := value), argCount, false, value);
    }
  }

  lemma EscapeEmpty()
    ensures Escape("") == ""
  {
  }

  lemma NameMember(base: Msg, c: ToolCall, argCount: nat, name: string)
    requires c.name != "" && c.arguments != ""
    ensures var st := NamedState(base, c, argCount, false);
            var arguments := c.arguments + (if argCount > 0 then "," else "") + (Quoted(Trim(name)) + ":");
            && Valid(st)
            && OnArgName(st, name) == NamedState(base, c.(arguments := arguments), argCount + 1, false)
  {
    hide Quoted, Trim, SetTarget;
    var entry := (if argCount > 0 then "," else "") + Quoted(Trim(name)) + ":";
    assert c.arguments + entry == c.arguments + (if argCount > 0 then "," else "") + (Quoted(Trim(name)) + ":");
    WriteNamed(base, c, argCount, false, c.arguments + entry);
  }

  lemma RunCons(st: State, e: Event, es: seq<Event>)
    requires Valid(st) && Legal(st, e) && LegalRun(Next(st, e), es)
    ensures LegalRun(st, [e] + es) && Run(st, [e] + es) == Run(Next(st, e), es)
  {
    hide Next;
    assert ([e] + es)[1..] == es;
  }

  /** The four events of one argument append one member. */
  lemma ArgAppendsMember(base: Msg, c: ToolCall, argCount: nat, a: Arg)
    requires c.name != "" && c.arguments != ""
    ensures var st := NamedState(base, c, argCount, false);
            && Valid(st) && LegalRun(st, ArgEvents(a))
            && Run(st, ArgEvents(a))
               == NamedState(base, c.(arguments := c.arguments + (if argCount > 0 then "," else "") + RenderMember(a)),
                             argCount + 1, false)
  {
    hide RenderValue, OnArgName, OnValue, OnArgClose, Quoted, Trim, Run, LegalRun;
    var st := NamedState(base, c, argCount, false);
    var sep, key := if argCount > 0 then "," else "", Quoted(Trim(a.name)) + ":";
    NameMember(base, c, argCount, a.name);
    var s2 := OnArgName(st, a.name);
    assert Next(st, ArgOpen) == st && Next(st, ArgName(a.name)) == s2;
    ValueThenClose(base, c.(arguments := c.arguments + sep + key), argCount + 1, a.value);
    var s3 := OnValue(s2, ValueEvent(a.value));
    assert Next(s2, ValueEvent(a.value)) == s3 && Next(s3, ArgClose) == OnArgClose(s3);
    assert c.arguments + sep + key + RenderValue(a.value) == c.arguments + sep + RenderMember(a);
    hide Next;
    RunOne(s3, ArgClose);
    RunCons(s2, ValueEvent(a.value), [ArgClose]);
    var tail := [ValueEvent(a.value)] + [ArgClose];
    RunCons(st, ArgName(a.name), tail);
    RunCons(st, ArgOpen, [ArgName(a.name)] + tail);
    assert ArgEvents(a) == [ArgOpen] + ([ArgName(a.name)] + tail);
  }

  /** All the arguments of a tool, written one after the other. */
  lemma {:induction false} BodyWritesMembers(base: Msg, c: ToolCall, args: seq<Arg>)
    requires c.name != "" && c.arguments == "{"
    ensures var st := NamedState(base, c, 0, false);
            && Valid(st) && LegalRun(st, BodyOf(args))
            && Run(st, BodyOf(args)) == NamedState(base, c.(arguments := "{" + RenderMembers(args)), |args|, false)
  {
    hide RenderMember, ArgEvents, Next;
    var st := NamedState(base, c, 0, false);
    if args == [] {
      assert "{" + "" == "{";
    } else {
      var n := |args| - 1;
      BodyWritesMembers(base, c, args[..n]);
      var sofar := c.(arguments := "{" + RenderMembers(args[..n]));
      ArgAppendsMember(base, sofar, n, args[n]);
      RunAppend(st, BodyOf(args[..n]), ArgEvents(args[n]));
      var sep := if n > 0 then "," else "";
      assert sofar.arguments + sep + RenderMember(args[n]) == "{" + RenderMembers(args);
    }
  }

  // ----- closing the object -----

  /** A raw value whose quotes are all closed. */
  predicate IsClosed(v: Value)
  {
    v.RawValue? ==> PlaceAfter(Outside(""), v.text).Outside?
  }

  /** Braces that the raw values leave open. */
  function OpenBraces(args: seq<Arg>): int
  {
    if args == [] then 0
    else
      var n := |args| - 1;
      OpenBraces(args[..n]) + if args[n].value.RawValue? then OutsideDepth(Outside(""), args[n].value.text) else 0
  }

  lemma ScanOfMember(st: Scan, sep: string, a: Arg)
    requires !st.inString && !st.escaped && (sep == "" || sep == ",") && IsClosed(a.value)
    ensures ScanFrom(st, sep + RenderMember(a)) ==
            st.(depth := st.depth + if a.value.RawValue? then OutsideDepth(Outside(""), a.value.text) else 0)
  {
    hide Quoted, Trim, Normalize;
    var key, value := Quoted(Trim(a.name)), RenderValue(a.value);
    ScanAppend(st, sep, RenderMember(a));
    assert RenderMember(a) == key + (":" + value);
    ScanAppend(st, key, ":" + value);
    QuotedLeavesScanUnchanged(st, Trim(a.name));
    ScanAppend(st, ":", value);
    assert ScanFrom(st, ":") == st && ScanFrom(st, sep) == st;
    if a.value.StringValue? {
      QuotedLeavesScanUnchanged(st, a.value.text);
    } else {
      NormalizeSimulatesFrom(Out, a.value.text, st.depth);
    }
  }

  lemma {:induction false} ScanOfMembers(args: seq<Arg>)
    requires forall i :: 0 <= i < |args| ==> IsClosed(args[i].value)
    ensures ScanFrom(ScanStart, "{" + RenderMembers(args)) == Scan(false, false, 1 + OpenBraces(args))
  {
    hide RenderMember, IsClosed, ScanFrom, Trim, Quoted, NormalizeQuotes, OutsideDepth;
    if args == [] {
      assert "{" + "" == "{";
      ScanOfOpenBrace();
    } else {
      var n := |args| - 1;
      var sep := if n > 0 then "," else "";
      ScanOfMembers(args[..n]);
      var head, tail := "{" + RenderMembers(args[..n]), sep + RenderMember(args[n]);
      assert "{" + RenderMembers(args) == head + tail;
      ScanAppend(ScanStart, head, tail);
      ScanOfMember(Scan(false, false, 1 + OpenBraces(args[..n])), sep, args[n]);
    }
  }

  lemma ScanOfOpenBrace()
    ensures ScanFrom(ScanStart, "{") == Scan(false, false, 1)
  {
    assert ScanFrom(ScanStart, "{") == ScanFrom(ScanStep(ScanStart, '{'), "{"[1..]);
  }

  /** The rendered object; braces that raw values leave open are closed with it. */
  function RenderObject(args: seq<Arg>): string
  {
    var depth := 1 + OpenBraces(args);
    "{" + RenderMembers(args) + if depth > 0 then Repeat('}', depth) else ""
  }

  lemma CloseNamed(base: Msg, c: ToolCall, argCount: nat)
    requires c.name != ""
    ensures var st := NamedState(base, c, argCount, false);
            && Valid(st)
            && OnToolClose(st) == NamedState(base, c.(arguments := c.arguments + Closers(c.arguments)), argCount, false)
  {
    hide Closers;
    var s := c.arguments + Closers(c.arguments);
    assert c.arguments + "" == c.arguments;
    WriteNamed(base, c, argCount, false, s);
  }

  function TaggedTool(body: seq<Event>, k: nat, text: string): seq<Event>
    requires k <= |body|
  {
    [ToolOpen] + (body[..k] + [ToolName(text)] + body[k..]) + [ToolClose]
  }

  /** The arguments as they stand when the tool is closed. */
  function OpenObject(args: seq<Arg>): string
  {
    "{" + RenderMembers(args)
  }

  /** Wherever the name falls among the argument events of a tool, the run adds exactly
      one call, whose arguments are the members of its (name, value) list in one object,
      closed by as many braces as the scanner finds open. */
  lemma TaggedArgumentsRender(st: State, text: string, args: seq<Arg>, k: nat)
    requires Valid(st) && TrimTrailing(text) != "" && k <= |BodyOf(args)|
    ensures LegalRun(st, TaggedTool(BodyOf(args), k, text))
    ensures var arguments := OpenObject(args) + Closers(OpenObject(args));
            Run(st, TaggedTool(BodyOf(args), k, text)).msg
            == st.msg.(calls := st.msg.calls + [ToolCall(TrimTrailing(text), arguments, "")])
  {
    BodyIsBody(args);
    hide Next, BodyOf, Run, LegalRun, TrimTrailing, OpenObject;
    NamePlaceIsIrrelevant(st, BodyOf(args), k, text);
    NamedFirstRenders(st, text, args);
  }

  lemma NamedFirstRenders(st: State, text: string, args: seq<Arg>)
    requires Valid(st) && TrimTrailing(text) != ""
    ensures var early := [ToolOpen] + ([ToolName(text)] + BodyOf(args)) + [ToolClose];
            var arguments := OpenObject(args) + Closers(OpenObject(args));
            && LegalRun(st, early)
            && Run(st, early).msg
               == st.msg.(calls := st.msg.calls + [ToolCall(TrimTrailing(text), arguments, "")])
  {
    var body := BodyOf(args);
    NamedFirst(st, text, args);
    var begun := Next(st, ToolOpen);
    var c := ToolCall(TrimTrailing(text), "{", "");
    hide Next, BodyOf, Run, LegalRun, TrimTrailing;
    BodyWritesMembers(st.msg, c, args);
    var full := c.(arguments := "{" + RenderMembers(args));
    var done := NamedState(st.msg, full, |args|, false);
    CloseNamed(st.msg, full, |args|);
    CloseIsNext(done);
    RunOne(done, ToolClose);
    RunCons(begun, ToolName(text), body);
    RunCons(st, ToolOpen, [ToolName(text)] + body);
    RunAppend(st, [ToolOpen] + ([ToolName(text)] + body), [ToolClose]);
  }

  lemma CloseIsNext(st: State)
    requires Valid(st) && HasTool(st)
    ensures Next(st, ToolClose) == OnToolClose(st)
  {
  }

  lemma NamedFirst(st: State, text: string, args: seq<Arg>)
    requires Valid(st) && TrimTrailing(text) != ""
    ensures var begun := Next(st, ToolOpen);
            Next(begun, ToolName(text)) == NamedState(st.msg, ToolCall(TrimTrailing(text), "{", ""), 0, false)
  {
    var begun := Next(st, ToolOpen);
    NamePending(begun, text);
  }

  lemma {:induction false} BodyIsBody(args: seq<Arg>)
    ensures forall i :: 0 <= i < |BodyOf(args)| ==> IsBody(BodyOf(args)[i])
    ensures StartsArguments(BodyOf(args)) && forall k :: 0 <= k <= |BodyOf(args)| ==> StartsArguments(BodyOf(args)[..k])
    ensures args != [] ==> |BodyOf(args)| >= 2 && BodyOf(args)[0].ArgOpen? && BodyOf(args)[1].ArgName?
  {
    if args != [] {
      var n := |args| - 1;
      BodyIsBody(args[..n]);
      var es := ArgEvents(args[n]);
      assert forall i :: 0 <= i < 4 ==> IsBody(es[i]);
      assert BodyOf(args)[0].ArgOpen? && BodyOf(args)[1].ArgName?;
      assert BodyOf(args)[1..][0] == BodyOf(args)[1];
    }
  }

  /** With raw values that balance their braces, the arguments are exactly one object, and
      scanning it leaves no brace and no string open. */
  lemma BalancedArgumentsRender(args: seq<Arg>)
    requires forall i :: 0 <= i < |args| ==> IsClosed(args[i].value)
    requires OpenBraces(args) == 0
    ensures RenderObject(args) == "{" + RenderMembers(args) + "}"
    ensures ScanFrom(ScanStart, RenderObject(args)) == ScanStart
  {
    hide ScanFrom, RenderMembers, OpenBraces, IsClosed;
    ScanOfMembers(args);
    OneBrace();
    ScanAppend(ScanStart, "{" + RenderMembers(args), Repeat('}', 1));
    ClosingBraces(Scan(false, false, 1), 1);
  }

  lemma OneBrace()
    ensures Repeat('}', 1) == "}"
  {
  }
}
