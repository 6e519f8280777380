/** The mapper from parse events to a chat message
    (common_chat_peg_mapper, common/chat-peg-parser.cpp, lines 14-40 and 278-458). */
module ToolCallMapper {
  import opened Wrappers
  import opened JsonText
  import opened QuoteNormalizer
  import opened ChatMessage

  // ----- trimming -----

  predicate IsSpace(c: char)
  {
    c == ' ' || (9 as char <= c <= 13 as char)
  }

  function TrimTrailing(s: string): (r: string)
    ensures r <= s && (r != "" ==> !IsSpace(r[|r| - 1]))
    ensures forall i :: |r| <= i < |s| ==> IsSpace(s[i])
  {
    if s != "" && IsSpace(s[|s| - 1]) then TrimTrailing(s[..|s| - 1]) else s
  }

  /** Drops at most one leading space, and all trailing ones. */
  function Trim(s: string): string
  {
    TrimTrailing(if s != "" && IsSpace(s[0]) then s[1..] else s)
  }

  /** Trimming respects prefixes. */
  lemma TrimTrailingMonotone(a: string, b: string)
    requires a <= b
    ensures TrimTrailing(a) <= TrimTrailing(b)
  {
    var r := TrimTrailing(a);
    if r != "" {
      assert r[|r| - 1] == b[|r| - 1];
    }
  }

  // ----- events and state -----

  datatype Event =
    | Reasoning(text: string)
    | Content(text: string)
    | ToolOpen
    | ToolClose
    | ToolId(text: string)
    | ToolName(text: string)
    | ToolArgs(text: string)
    | ArgOpen
    | ArgClose
    | ArgName(text: string)
    | ArgValue(text: string)
    | ArgStringValue(text: string)

  /** What the pointer `current_tool` designates; `Released` is the call of an unnamed
      tool that has been discarded, which no event may touch. */
  datatype Current = NoTool | PendingTool | LastCall | Released

  datatype State = State(
    msg: Msg, pending: Option<ToolCall>, current: Current, argCount: nat, closing: bool, buffer: string)

  const Init := State(EmptyMsg, None, NoTool, 0, false, "")

  /** A pending call is one whose name has not been seen; its arguments are in the buffer. */
  predicate Valid(st: State)
  {
    && (st.current.PendingTool? <==> st.pending.Some?)
    && (st.pending.Some? ==> st.pending.value.name == "" && st.pending.value.arguments == "")
    && (st.current.LastCall? ==> st.msg.calls != [])
  }

  predicate HasTool(st: State)
  {
    st.current.PendingTool? || st.current.LastCall?
  }

  predicate TouchesTool(e: Event)
  {
    !(e.Reasoning? || e.Content? || e.ToolOpen? || e.ArgOpen?)
  }

  predicate Legal(st: State, e: Event)
  {
    st.current.Released? ==> !TouchesTool(e)
  }

  function CurrentTool(st: State): ToolCall
    requires Valid(st) && HasTool(st)
  {
    if st.current.PendingTool? then st.pending.value else st.msg.calls[|st.msg.calls| - 1]
  }

  function SetTool(st: State, c: ToolCall): State
    requires Valid(st) && HasTool(st)
  {
    if st.current.PendingTool? then st.(pending := Some(c))
    else st.(msg := st.msg.(calls := st.msg.calls[|st.msg.calls| - 1 := c]))
  }

  /** The string that arguments are being written to. */
  function Target(st: State): string
    requires Valid(st) && HasTool(st)
  {
    if CurrentTool(st).name != "" then CurrentTool(st).arguments else st.buffer
  }

  function SetTarget(st: State, s: string): (r: State)
    requires Valid(st) && HasTool(st)
    ensures Valid(r) && r.current == st.current && Target(r) == s
  {
    if CurrentTool(st).name != "" then SetTool(st, CurrentTool(st).(arguments := s)) else st.(buffer := s)
  }

  // ----- one event -----

  function IdText(text: string): string
  {
    var t := TrimTrailing(text);
    if |t| >= 2 && t[0] == '"' && t[|t| - 1] == '"' then t[1..|t| - 1] else t
  }

  function OnToolOpen(st: State): State
  {
    st.(pending := Some(EmptyCall), current := PendingTool, argCount := 0, buffer := "", closing := false)
  }

  function OnToolName(st: State, text: string): State
    requires Valid(st) && HasTool(st)
  {
    var c := CurrentTool(st);
    var arguments := if st.buffer != "" then st.buffer else if c.arguments == "" then "{" else c.arguments;
    var named := ToolCall(TrimTrailing(text), arguments, c.id);
    if st.current.PendingTool? then
      st.(msg := st.msg.(calls := st.msg.calls + [named]), pending := None, current := LastCall, buffer := "")
    else
      SetTool(st, named).(buffer := "")
  }

  predicate IsObjectText(text: string)
  {
    TrimTrailing(text) != "" && TrimTrailing(text)[0] == '{'
  }

  function OnToolArgs(st: State, text: string): State
    requires Valid(st) && HasTool(st)
  {
    if IsObjectText(text) then SetTarget(st, TrimTrailing(text)) else st
  }

  function OnArgName(st: State, text: string): State
    requires Valid(st) && HasTool(st)
  {
    var entry := (if st.argCount > 0 then "," else "") + Quoted(Trim(text)) + ":";
    var target := if Target(st) == "" then "{" else Target(st);
    SetTarget(st, target + entry).(argCount := st.argCount + 1)
  }

  function ValueText(closing: bool, e: Event): string
    requires e.ArgValue? || e.ArgStringValue?
  {
    if e.ArgValue? then NormalizeQuotes(e.text)
    else if e.text == "" then "\""
    else (if closing then "" else "\"") + Escape(e.text)
  }

  function OnValue(st: State, e: Event): State
    requires Valid(st) && HasTool(st) && (e.ArgValue? || e.ArgStringValue?)
  {
    SetTarget(st, Target(st) + ValueText(st.closing, e)).(closing := st.closing || e.ArgStringValue?)
  }

  function OnArgClose(st: State): State
    requires Valid(st) && HasTool(st)
  {
    if st.closing then SetTarget(st, Target(st) + "\"").(closing := false) else st
  }

  function Closers(arguments: string): string
  {
    if BraceDepth(arguments) > 0 then Repeat('}', BraceDepth(arguments)) else ""
  }

  function OnToolClose(st: State): State
    requires Valid(st) && HasTool(st)
  {
    if st.current.PendingTool? then
      st.(pending := None, current := Released, closing := false, buffer := "")
    else
      var c := CurrentTool(st);
      var flush := c.name == "" && st.buffer != "";
      var text := (if flush then st.buffer else c.arguments) + (if st.closing then "\"" else "");
      SetTool(st, c.(arguments := text + Closers(text))).(closing := false, buffer := if flush then "" else st.buffer)
  }

  function Next(st: State, e: Event): (r: State)
    requires Valid(st) && Legal(st, e)
    ensures Valid(r)
  {
    if e.Reasoning? then st.(msg := st.msg.(reasoning := st.msg.reasoning + e.text))
    else if e.Content? then st.(msg := st.msg.(content := st.msg.content + e.text))
    else if e.ToolOpen? then OnToolOpen(st)
    else if e.ArgOpen? then st.(closing := false)
    else if st.current.NoTool? then st
    else OnToolEvent(st, e)
  }

  function OnToolEvent(st: State, e: Event): (r: State)
    requires Valid(st) && HasTool(st) && TouchesTool(e)
    ensures Valid(r)
  {
    if e.ToolId? then SetTool(st, CurrentTool(st).(id := IdText(e.text)))
    else if e.ToolName? then OnToolName(st, e.text)
    else if e.ToolArgs? then OnToolArgs(st, e.text)
    else if e.ArgName? then OnArgName(st, e.text)
    else if e.ArgClose? then OnArgClose(st)
    else if e.ToolClose? then OnToolClose(st)
    else OnValue(st, e)
  }

  // ----- runs -----

  predicate LegalRun(st: State, es: seq<Event>)
    requires Valid(st)
    decreases |es|
  {
    es == [] || (Legal(st, es[0]) && LegalRun(Next(st, es[0]), es[1..]))
  }

  function Run(st: State, es: seq<Event>): (r: State)
    requires Valid(st) && LegalRun(st, es)
    ensures Valid(r)
    decreases |es|
  {
    if es == [] then st else Run(Next(st, es[0]), es[1..])
  }

  /** Whitespace-only reasoning is dropped at the end. */
  predicate IsBlank(s: string)
  {
    forall c :: c in s ==> c == ' ' || c == '\n' || c == '\r' || c == '\t'
  }

  function Finish(m: Msg): Msg
  {
    if IsBlank(m.reasoning) then m.(reasoning := "") else m
  }

  function MessageOf(es: seq<Event>): Msg
    requires LegalRun(Init, es)
  {
    Finish(Run(Init, es).msg)
  }

  // ----- the mapper object -----

  class Mapper {
    var msg: Msg
    var pending: Option<ToolCall>
    var current: Current
    var argCount: nat
    var closing: bool
    var buffer: string

    ghost function Abs(): State
      reads this
    {
      State(msg, pending, current, argCount, closing, buffer)
    }

    constructor ()
      ensures Abs() == Init
    {
      msg, pending, current, argCount, closing, buffer := EmptyMsg, None, NoTool, 0, false, "";
    }

    method GetTool() returns (c: ToolCall)
      requires Valid(Abs()) && HasTool(Abs())
      ensures c == CurrentTool(Abs())
    {
      if current.PendingTool? {
        c := pending.value;
      } else {
        c := msg.calls[|msg.calls| - 1];
      }
    }

    method PutTool(c: ToolCall)
      requires Valid(Abs()) && HasTool(Abs())
      modifies this`msg, this`pending
      ensures Abs() == SetTool(old(Abs()), c)
    {
      if current.PendingTool? {
        pending := Some(c);
      } else {
        msg := msg.(calls := msg.calls[|msg.calls| - 1 := c]);
      }
    }

    method PutTarget(s: string)
      requires Valid(Abs()) && HasTool(Abs())
      modifies this`msg, this`pending, this`buffer
      ensures Abs() == SetTarget(old(Abs()), s)
    {
      var c := GetTool();
      if c.name != "" {
        PutTool(c.(arguments := s));
      } else {
        buffer := s;
      }
    }

    method GetTarget() returns (s: string)
      requires Valid(Abs()) && HasTool(Abs())
      ensures s == Target(Abs())
    {
      var c := GetTool();
      s := if c.name != "" then c.arguments else buffer;
    }

    method MapToolName(text: string)
      requires Valid(Abs()) && HasTool(Abs())
      modifies this
      ensures Abs() == OnToolName(old(Abs()), text)
    {
      var c := GetTool();
      c := c.(name := TrimTrailing(text));
      if buffer != "" {
        c := c.(arguments := buffer);
        buffer := "";
      } else if c.arguments == "" {
        c := c.(arguments := "{");
      }
      if pending.Some? {
        msg := msg.(calls := msg.calls + [c]);
        pending := None;
        current := LastCall;
      } else {
        msg := msg.(calls := msg.calls[|msg.calls| - 1 := c]);
      }
    }

    method MapToolArgs(text: string)
      requires Valid(Abs()) && HasTool(Abs())
      modifies this
      ensures Abs() == OnToolArgs(old(Abs()), text)
    {
      var t := TrimTrailing(text);
      if t != "" && t[0] == '{' {
        PutTarget(t);
      }
    }

    method MapArgName(text: string)
      requires Valid(Abs()) && HasTool(Abs())
      modifies this
      ensures Abs() == OnArgName(old(Abs()), text)
    {
      var entry := "";
      if argCount > 0 {
        entry := ",";
      }
      entry := entry + Quoted(Trim(text)) + ":";
      var target := GetTarget();
      if target == "" {
        target := "{";
      }
      PutTarget(target + entry);
      argCount := argCount + 1;
    }

    method MapValue(e: Event)
      requires Valid(Abs()) && HasTool(Abs()) && (e.ArgValue? || e.ArgStringValue?)
      modifies this
      ensures Abs() == OnValue(old(Abs()), e)
    {
      var valueToAdd := "";
      if e.text == "" && e.ArgStringValue? {
        valueToAdd := "\"";
        closing := true;
      } else if e.text != "" && e.ArgStringValue? {
        if !closing {
          valueToAdd := "\"";
          closing := true;
        }
        valueToAdd := valueToAdd + Escape(e.text);
      } else if e.text != "" {
        valueToAdd := NormalizeQuotesToJson(e.text);
      }
      NormalizeEmpty(Out);
      var target := GetTarget();
      PutTarget(target + valueToAdd);
    }

    method MapToolClose()
      requires Valid(Abs()) && HasTool(Abs())
      modifies this
      ensures Abs() == OnToolClose(old(Abs()))
    {
      var c := GetTool();
      if c.name == "" && buffer != "" {
        c := c.(arguments := buffer);
        buffer := "";
      }
      if closing {
        c := c.(arguments := c.arguments + "\"");
        closing := false;
      }
      var depth := JsonBraceDepth(c.arguments);
      if depth > 0 {
        var closers := Repeat('}', depth);
        c := c.(arguments := c.arguments + closers);
      }
      if pending.Some? {
        // a pending call has no name, so it is never added here
        assert c.name == "";
        pending := None;
        current := Released;
        buffer := "";
      } else {
        assert old(CurrentTool(Abs())).arguments + "" == old(CurrentTool(Abs())).arguments;
        assert old(buffer) + "" == old(buffer) && c.arguments + "" == c.arguments;
        PutTool(c);
      }
    }

    method Map(e: Event)
      requires Valid(Abs()) && Legal(Abs(), e)
      modifies this
      ensures Abs() == Next(old(Abs()), e)
    {
      if e.Reasoning? {
        msg := msg.(reasoning := msg.reasoning + e.text);
      } else if e.Content? {
        msg := msg.(content := msg.content + e.text);
      } else if e.ToolOpen? {
        pending, current := Some(EmptyCall), PendingTool;
        argCount, buffer, closing := 0, "", false;
      } else if e.ArgOpen? {
        closing := false;
      } else if !current.NoTool? {
        MapToolEvent(e);
      }
    }

    method MapToolEvent(e: Event)
      requires Valid(Abs()) && HasTool(Abs()) && TouchesTool(e)
      modifies this
      ensures Abs() == OnToolEvent(old(Abs()), e)
    {
      if e.ToolId? {
        var c := GetTool();
        PutTool(c.(id := IdText(e.text)));
      } else if e.ToolName? {
        MapToolName(e.text);
      } else if e.ToolArgs? {
        MapToolArgs(e.text);
      } else if e.ArgName? {
        MapArgName(e.text);
      } else if e.ArgClose? {
        if closing {
          var target := GetTarget();
          PutTarget(target + "\"");
          closing := false;
        }
      } else if e.ToolClose? {
        MapToolClose();
      } else {
        MapValue(e);
      }
    }

    /** Maps all events. The flush of a named pending call at the end never happens: a
        call leaves the pending slot as soon as it has a name. */
    method FromAst(es: seq<Event>)
      requires Abs() == Init && LegalRun(Init, es)
      modifies this
      ensures msg == MessageOf(es)
    {
      for i := 0 to |es|
        invariant Valid(Abs()) && LegalRun(Abs(), es[i..])
        invariant Run(Abs(), es[i..]) == Run(Init, es)
      {
        assert es[i..][1..] == es[i + 1..];
        Map(es[i]);
      }
      assert es[|es|..] == [];
      if pending.Some? && pending.value.name != "" {
        assert false;
      }
      DropBlankReasoning();
    }

    method DropBlankReasoning()
      modifies this`msg
      ensures msg == Finish(old(msg))
    {
      if msg.reasoning != "" {
        var allWhitespace := true;
        var i := 0;
        while i < |msg.reasoning| && allWhitespace
          invariant 0 <= i <= |msg.reasoning|
          invariant if allWhitespace then IsBlank(msg.reasoning[..i]) else !IsBlank(msg.reasoning)
        {
          var c := msg.reasoning[i];
          assert msg.reasoning[..i + 1] == msg.reasoning[..i] + [c];
          if c != ' ' && c != '\n' && c != '\r' && c != '\t' {
            assert c in msg.reasoning;
            allWhitespace := false;
          }
          i := i + 1;
        }
        if allWhitespace {
          assert msg.reasoning[..i] == msg.reasoning;
          msg := msg.(reasoning := "");
        }
      }
    }
  }
}
