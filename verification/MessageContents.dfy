/** What a run of events leaves in the message (common/chat-peg-parser.cpp, lines 286-458). */
module MessageContents {
  import opened Sequences
  import opened Wrappers
  import opened JsonText
  import opened ChatMessage
  import opened ToolCallMapper
  import opened ToolCallRendering

  // ----- texts -----

  /** The texts of the content events, in order. */
  function ContentText(es: seq<Event>): string
  {
    if es == [] then "" else (if es[0].Content? then es[0].text else "") + ContentText(es[1..])
  }

  function ReasoningText(es: seq<Event>): string
  {
    if es == [] then "" else (if es[0].Reasoning? then es[0].text else "") + ReasoningText(es[1..])
  }

  lemma NextTexts(st: State, e: Event)
    requires Valid(st) && Legal(st, e)
    ensures Next(st, e).msg.content == st.msg.content + if e.Content? then e.text else ""
    ensures Next(st, e).msg.reasoning == st.msg.reasoning + if e.Reasoning? then e.text else ""
  {
    hide TrimTrailing, Trim, Quoted, ValueText, Closers, IdText;
    assert st.msg.content + "" == st.msg.content && st.msg.reasoning + "" == st.msg.reasoning;
  }

  /** Content and reasoning of any legal run are the texts of their own events, in order. */
  lemma {:induction false} RunTexts(st: State, es: seq<Event>)
    requires Valid(st) && LegalRun(st, es)
    ensures Run(st, es).msg.content == st.msg.content + ContentText(es)
    ensures Run(st, es).msg.reasoning == st.msg.reasoning + ReasoningText(es)
    decreases |es|
  {
    hide Next;
    if es == [] {
      assert st.msg.content + "" == st.msg.content && st.msg.reasoning + "" == st.msg.reasoning;
    } else {
      NextTexts(st, es[0]);
      RunTexts(Next(st, es[0]), es[1..]);
      ConcatAssociates(st.msg.content, if es[0].Content? then es[0].text else "", ContentText(es[1..]));
      ConcatAssociates(st.msg.reasoning, if es[0].Reasoning? then es[0].text else "", ReasoningText(es[1..]));
    }
  }

  /** The message of a run: its content, and its reasoning unless that is all white space. */
  lemma MessageTexts(es: seq<Event>)
    requires LegalRun(Init, es)
    ensures MessageOf(es).content == ContentText(es)
    ensures var text := ReasoningText(es);
            MessageOf(es).reasoning
            == if forall c :: c in text ==> c in [' ', '\n', '\r', '\t'] then "" else text
  {
    hide Run;
    RunTexts(Init, es);
    assert "" + ContentText(es) == ContentText(es) && "" + ReasoningText(es) == ReasoningText(es);
  }

  // ----- trimming -----

  /** The six white-space characters of the C locale. */
  predicate IsWhite(s: string)
  {
    forall i :: 0 <= i < |s| ==> s[i] in [' ', '\t', '\n', 11 as char, 12 as char, '\r']
  }

  predicate EndsInk(s: string)
  {
    s == "" || s[|s| - 1] !in [' ', '\t', '\n', 11 as char, 12 as char, '\r']
  }

  /** Trimming takes off exactly the trailing white space. */
  lemma TrimmedIs(s: string, w: string)
    requires EndsInk(s) && IsWhite(w)
    ensures TrimTrailing(s + w) == s
  {
    var r := TrimTrailing(s + w);
    assert s != "" ==> !IsSpace((s + w)[|s| - 1]);
    assert forall i :: |s| <= i < |s + w| ==> (s + w)[i] == w[i - |s|] && IsSpace((s + w)[i]);
  }

  lemma TrimmedNothing(s: string)
    requires EndsInk(s)
    ensures TrimTrailing(s) == s
  {
    TrimmedIs(s, "");
    assert s + "" == s;
  }

  /** At most one character goes at the front. */
  lemma TrimOne(c: char, s: string)
    ensures Trim([c] + s) == if IsWhite([c]) then TrimTrailing(s) else TrimTrailing([c] + s)
    ensures Trim("") == ""
  {
    hide TrimTrailing;
    assert ([c] + s)[1..] == s && ([c] + s)[0] == c;
    assert IsWhite([c]) <==> IsSpace(c) by { assert [c][0] == c; }
    TrimmedNothing("");
  }

  /** Quotes around an id are dropped, anything else is kept. */
  lemma IdIs(x: string, w: string)
    requires IsWhite(w)
    ensures IdText("\"" + x + "\"" + w) == x
    ensures (EndsInk(x) && !(|x| >= 2 && x[0] == '"' && x[|x| - 1] == '"')) ==> IdText(x + w) == x
  {
    hide TrimTrailing;
    var q := "\"" + x + "\"";
    assert q[|q| - 1] == '"' && q[1..|q| - 1] == x;
    TrimmedIs(q, w);
    if EndsInk(x) {
      TrimmedIs(x, w);
    }
  }

  // ----- one tool call -----

  /** The arguments that an object event leaves: the object, less trailing white space. */
  function ObjectText(text: string): string
  {
    var t := TrimTrailing(text);
    if t != "" && t[0] == '{' then t else "{"
  }

  lemma IdThenObject(base: Msg, name: string, id: string, text: string)
    requires name != ""
    ensures var st := NamedState(base, ToolCall(name, "{", ""), 0, false);
            && Valid(st) && LegalRun(st, [ToolId(id), ToolArgs(text)])
            && Run(st, [ToolId(id), ToolArgs(text)])
               == NamedState(base, ToolCall(name, ObjectText(text), IdText(id)), 0, false)
  {
    hide TrimTrailing, IdText, SetTarget, Run, LegalRun;
    var c := ToolCall(name, "{", "");
    var st := NamedState(base, c, 0, false);
    WriteNamed(base, c, 0, false, "");
    IdNamed(base, c, 0, false, IdText(id));
    var c', t := c.(id := IdText(id)), TrimTrailing(text);
    var st' := NamedState(base, c', 0, false);
    assert Next(st, ToolId(id)) == st';
    WriteNamed(base, c', 0, false, t);
    assert Next(st', ToolArgs(text)) == NamedState(base, c'.(arguments := ObjectText(text)), 0, false);
    hide Next;
    RunOne(st', ToolArgs(text));
    RunCons(st, ToolId(id), [ToolArgs(text)]);
    assert [ToolId(id)] + [ToolArgs(text)] == [ToolId(id), ToolArgs(text)];
  }

  /** A tool whose arguments come as one object: wherever its name falls, one call is
      added, with the id given and with that object as its arguments. */
  lemma ObjectToolAdds(st: State, name: string, id: string, text: string, k: nat)
    requires Valid(st) && TrimTrailing(name) != "" && k <= 2
    ensures var es := TaggedTool([ToolId(id), ToolArgs(text)], k, name);
            var arguments := ObjectText(text) + Closers(ObjectText(text));
            && LegalRun(st, es)
            && Run(st, es).msg
               == st.msg.(calls := st.msg.calls + [ToolCall(TrimTrailing(name), arguments, IdText(id))])
  {
    var body := [ToolId(id), ToolArgs(text)];
    ObjectStarts(id, text, k);
    NamedFirst(st, name, []);
    var begun := Next(st, ToolOpen);
    hide Next, Run, LegalRun, TrimTrailing, ObjectText, IdText, StartsArguments, Closers;
    NamePlaceIsIrrelevant(st, body, k, name);
    IdThenObject(st.msg, TrimTrailing(name), id, text);
    var full := ToolCall(TrimTrailing(name), ObjectText(text), IdText(id));
    var done := NamedState(st.msg, full, 0, false);
    CloseNamed(st.msg, full, 0);
    CloseIsNext(done);
    RunOne(done, ToolClose);
    RunCons(begun, ToolName(name), body);
    RunCons(st, ToolOpen, [ToolName(name)] + body);
    RunAppend(st, [ToolOpen] + ([ToolName(name)] + body), [ToolClose]);
  }

  lemma ObjectStarts(id: string, text: string, k: nat)
    requires k <= 2
    ensures StartsArguments([ToolId(id), ToolArgs(text)][..k])
  {
    var body := [ToolId(id), ToolArgs(text)];
    assert StartsArguments([]);
    assert k == 1 ==> body[..k] == [ToolId(id)] && [ToolId(id)][1..] == [];
    assert k == 2 ==> body[..k] == body && body[1..] == [ToolArgs(text)] && [ToolArgs(text)][1..] == [];
  }

  /** A tool that is never named adds no call. */
  lemma UnnamedToolIsDropped(st: State, body: seq<Event>)
    requires Valid(st) && forall i :: 0 <= i < |body| ==> IsBody(body[i])
    ensures var es := [ToolOpen] + body + [ToolClose];
            && LegalRun(st, es) && Run(st, es).msg.calls == st.msg.calls && Run(st, es).current.Released?
  {
    var begun := Next(st, ToolOpen);
    assert begun.current.PendingTool? && begun.msg == st.msg;
    RunOne(st, ToolOpen);
    PendingBody(begun, body);
    var last := Run(begun, body);
    assert Next(last, ToolClose).msg == last.msg && Next(last, ToolClose).current.Released?;
    hide Next, Run, LegalRun;
    RunOne(last, ToolClose);
    RunAppend(st, [ToolOpen], body);
    RunAppend(st, [ToolOpen] + body, [ToolClose]);
  }

  lemma {:induction false} PendingBody(st: State, body: seq<Event>)
    requires Valid(st) && st.current.PendingTool? && forall i :: 0 <= i < |body| ==> IsBody(body[i])
    ensures LegalRun(st, body) && Run(st, body).current.PendingTool? && Run(st, body).msg.calls == st.msg.calls
    decreases |body|
  {
    if body != [] {
      PendingEvent(st, body[0]);
      hide Next;
      PendingBody(Next(st, body[0]), body[1..]);
    }
  }

  lemma PendingEvent(st: State, e: Event)
    requires Valid(st) && st.current.PendingTool? && IsBody(e)
    ensures Next(st, e).current.PendingTool? && Next(st, e).msg.calls == st.msg.calls
  {
    hide TrimTrailing, Trim, Quoted, ValueText, Closers, IdText;
  }

  // ----- a string in pieces -----

  function Pieces(texts: seq<string>): seq<Event>
  {
    if texts == [] then [] else [ArgStringValue(texts[0])] + Pieces(texts[1..])
  }

  function Joined(texts: seq<string>): string
  {
    if texts == [] then "" else texts[0] + Joined(texts[1..])
  }

  /** Later pieces of a string go on where the earlier ones ended. */
  lemma {:induction false} MorePieces(base: Msg, c: ToolCall, argCount: nat, texts: seq<string>)
    requires c.name != "" && "" !in texts
    ensures var st := NamedState(base, c, argCount, true);
            && Valid(st) && LegalRun(st, Pieces(texts))
            && Run(st, Pieces(texts))
               == NamedState(base, c.(arguments := c.arguments + Escape(Joined(texts))), argCount, true)
    decreases |texts|
  {
    hide Escape, SetTarget;
    var st := NamedState(base, c, argCount, true);
    WriteNamed(base, c, argCount, true, "");
    if texts == [] {
      EscapeEmpty();
      assert c.arguments + "" == c.arguments;
    } else {
      var e, t, rest := ArgStringValue(texts[0]), c.arguments + Escape(texts[0]), texts[1..];
      WriteNamed(base, c, argCount, true, t);
      assert "" + Escape(texts[0]) == Escape(texts[0]);
      var c' := c.(arguments := t);
      assert Next(st, e) == NamedState(base, c', argCount, true);
      hide Next, Run, LegalRun;
      MorePieces(base, c', argCount, rest);
      RunCons(st, e, Pieces(rest));
      EscapeAppend(texts[0], Joined(rest));
      ConcatAssociates(c.arguments, Escape(texts[0]), Escape(Joined(rest)));
    }
  }

  /** The non-empty pieces of a string value make one JSON string. */
  lemma PiecesMakeOneString(base: Msg, c: ToolCall, argCount: nat, texts: seq<string>)
    requires c.name != "" && texts != [] && "" !in texts
    ensures var st := NamedState(base, c, argCount, false);
            var es := Pieces(texts) + [ArgClose];
            && Valid(st) && LegalRun(st, es)
            && Run(st, es) == NamedState(base, c.(arguments := c.arguments + Quoted(Joined(texts))), argCount, false)
  {
    hide Next, Run, LegalRun, Escape;
    FirstPiece(base, c, argCount, texts[0]);
    var st, rest := NamedState(base, c, argCount, false), texts[1..];
    var first := c.(arguments := c.arguments + "\"" + Escape(texts[0]));
    var full := first.(arguments := first.arguments + Escape(Joined(rest)));
    MorePieces(base, first, argCount, rest);
    CloseString(base, full, argCount);
    var last := NamedState(base, full, argCount, true);
    EscapeAppend(texts[0], Joined(rest));
    QuotesAround(c.arguments, Escape(texts[0]), Escape(Joined(rest)));
    RunOne(last, ArgClose);
    RunCons(st, ArgStringValue(texts[0]), Pieces(rest));
    RunAppend(st, Pieces(texts), [ArgClose]);
  }

  lemma QuotesAround(a: string, x: string, y: string)
    ensures a + "\"" + x + y + "\"" == a + ("\"" + (x + y) + "\"")
  {
  }

  lemma FirstPiece(base: Msg, c: ToolCall, argCount: nat, text: string)
    requires c.name != "" && text != ""
    ensures var st := NamedState(base, c, argCount, false);
            && Valid(st)
            && Next(st, ArgStringValue(text))
               == NamedState(base, c.(arguments := c.arguments + "\"" + Escape(text)), argCount, true)
  {
    hide Escape, SetTarget;
    WriteNamed(base, c, argCount, false, c.arguments + "\"" + Escape(text));
    ConcatAssociates(c.arguments, "\"", Escape(text));
  }

  lemma CloseString(base: Msg, c: ToolCall, argCount: nat)
    requires c.name != ""
    ensures var st := NamedState(base, c, argCount, true);
            && Valid(st) && Next(st, ArgClose) == NamedState(base, c.(arguments := c.arguments + "\""), argCount, false)
  {
    WriteNamed(base, c, argCount, true, c.arguments + "\"");
  }

  // ----- quotes and names out of the ordinary -----

  /** A new argument starts a new string, even if the one before was never closed. */
  lemma ArgOpenStartsString(base: Msg, c: ToolCall, argCount: nat, closing: bool, text: string)
    requires c.name != "" && text != ""
    ensures var st := NamedState(base, c, argCount, closing);
            && Valid(st)
            && Next(Next(st, ArgOpen), ArgStringValue(text))
               == NamedState(base, c.(arguments := c.arguments + "\"" + Escape(text)), argCount, true)
  {
    hide Escape;
    assert Next(NamedState(base, c, argCount, closing), ArgOpen) == NamedState(base, c, argCount, false);
    hide Next;
    FirstPiece(base, c, argCount, text);
  }

  /** A string that is open when its tool closes is closed first, then the braces are. */
  lemma ToolCloseEndsString(base: Msg, c: ToolCall, argCount: nat)
    requires c.name != ""
    ensures var st := NamedState(base, c, argCount, true);
            var text := c.arguments + "\"";
            Valid(st)
            && Next(st, ToolClose) == NamedState(base, c.(arguments := text + Closers(text)), argCount, false)
  {
    hide Closers;
    var text := c.arguments + "\"";
    WriteNamed(base, c, argCount, true, text + Closers(text));
  }

  /** A second name replaces the first and nothing else. */
  lemma NameAgain(base: Msg, c: ToolCall, argCount: nat, closing: bool, text: string)
    requires c.name != "" && c.arguments != ""
    ensures var st := NamedState(base, c, argCount, closing);
            Valid(st) && Next(st, ToolName(text)) == NamedState(base, c.(name := TrimTrailing(text)), argCount, closing)
  {
    hide TrimTrailing;
    var calls := base.calls + [c];
    assert calls[|calls| - 1 := c.(name := TrimTrailing(text))] == base.calls + [c.(name := TrimTrailing(text))];
  }

  /** A call with a blank name is kept; its arguments wait in the buffer until it closes. */
  lemma BlankNameFlushes(base: Msg, c: ToolCall, argCount: nat, text: string)
    requires c.name == "" && text != ""
    ensures var st := NamedState(base, c, argCount, false).(buffer := text);
            Valid(st)
            && Next(st, ToolClose) == NamedState(base, c.(arguments := text + Closers(text)), argCount, false)
  {
    hide Closers;
    var calls, c' := base.calls + [c], c.(arguments := text + Closers(text));
    assert text + "" == text;
    assert calls[|calls| - 1 := c'] == base.calls + [c'];
  }

  /** No event touches a call before the last one, and none takes a call away. */
  lemma EarlierCallsStay(st: State, e: Event)
    requires Valid(st) && Legal(st, e)
    ensures var calls, next := st.msg.calls, Next(st, e).msg.calls;
            && |calls| <= |next| <= |calls| + 1 && (|next| > |calls| ==> e.ToolName? && calls == next[..|calls|])
            && (calls != [] ==> calls[..|calls| - 1] == next[..|calls| - 1])
            && (!st.current.LastCall? ==> calls <= next)
  {
    hide TrimTrailing, Trim, Quoted, ValueText, Closers, IdText;
  }

  // ----- whole messages -----

  /** What a model says, one item after the other. */
  datatype Item =
    | Said(text: string)
    | Thought(text: string)
    | TaggedCall(name: string, args: seq<Arg>, place: nat)
    | ObjectCall(name: string, id: string, text: string, place: nat)
    | NamelessCall(args: seq<Arg>)

  predicate IsItem(it: Item)
  {
    && (it.TaggedCall? ==> TrimTrailing(it.name) != "" && it.place <= |BodyOf(it.args)|)
    && (it.ObjectCall? ==> TrimTrailing(it.name) != "" && it.place <= 2)
  }

  function ItemEvents(it: Item): seq<Event>
    requires IsItem(it)
  {
    match it
    case Said(text) => [Content(text)]
    case Thought(text) => [Reasoning(text)]
    case TaggedCall(name, args, place) => TaggedTool(BodyOf(args), place, name)
    case ObjectCall(name, id, text, place) => TaggedTool([ToolId(id), ToolArgs(text)], place, name)
    case NamelessCall(args) => [ToolOpen] + BodyOf(args) + [ToolClose]
  }

  /** What one item adds to the message. */
  function Add(m: Msg, it: Item): Msg
  {
    match it
    case Said(text) => m.(content := m.content + text)
    case Thought(text) => m.(reasoning := m.reasoning + text)
    case TaggedCall(name, args, _) =>
      m.(calls := m.calls + [ToolCall(TrimTrailing(name), OpenObject(args) + Closers(OpenObject(args)), "")])
    case ObjectCall(name, id, text, _) =>
      m.(calls := m.calls + [ToolCall(TrimTrailing(name), ObjectText(text) + Closers(ObjectText(text)), IdText(id))])
    case NamelessCall(_) => m
  }

  function EventsOf(items: seq<Item>): seq<Event>
    requires forall i :: 0 <= i < |items| ==> IsItem(items[i])
  {
    if items == [] then [] else ItemEvents(items[0]) + EventsOf(items[1..])
  }

  function AddAll(m: Msg, items: seq<Item>): Msg
    decreases |items|
  {
    if items == [] then m else AddAll(Add(m, items[0]), items[1..])
  }

  lemma ItemAdds(st: State, it: Item)
    requires Valid(st) && IsItem(it)
    ensures LegalRun(st, ItemEvents(it)) && Run(st, ItemEvents(it)).msg == Add(st.msg, it)
  {
    hide BodyOf, TaggedTool, OpenObject, ObjectText, Closers, TrimTrailing, IdText;
    match it {
      case Said(text) => RunOne(st, Content(text));
      case Thought(text) => RunOne(st, Reasoning(text));
      case TaggedCall(name, args, place) =>
        hide Next, Run, LegalRun;
        TaggedArgumentsRender(st, name, args, place);
      case ObjectCall(name, id, text, place) =>
        hide Next, Run, LegalRun;
        ObjectToolAdds(st, name, id, text, place);
      case NamelessCall(args) =>
        hide Next, Run, LegalRun;
        NamelessAdds(st, args);
    }
  }

  lemma NamelessAdds(st: State, args: seq<Arg>)
    requires Valid(st)
    ensures var es := [ToolOpen] + BodyOf(args) + [ToolClose]; LegalRun(st, es) && Run(st, es).msg == st.msg
  {
    hide Next, Run, LegalRun;
    var body := BodyOf(args);
    var es := [ToolOpen] + body + [ToolClose];
    BodyIsBody(args);
    UnnamedToolIsDropped(st, body);
    RunTexts(st, es);
    ArgumentsAreSilent(args);
    SilentBetween(body);
    assert st.msg.content + "" == st.msg.content && st.msg.reasoning + "" == st.msg.reasoning;
  }

  predicate Silent(es: seq<Event>)
  {
    forall i :: 0 <= i < |es| ==> !es[i].Content? && !es[i].Reasoning?
  }

  lemma {:induction false} SilentTexts(es: seq<Event>)
    requires Silent(es)
    ensures ContentText(es) == "" && ReasoningText(es) == ""
  {
    if es != [] {
      SilentTexts(es[1..]);
    }
  }

  lemma SilentBetween(body: seq<Event>)
    requires Silent(body)
    ensures ContentText([ToolOpen] + body + [ToolClose]) == "" && ReasoningText([ToolOpen] + body + [ToolClose]) == ""
  {
    SilentTexts([ToolOpen] + body + [ToolClose]);
  }

  lemma {:induction false} ArgumentsAreSilent(args: seq<Arg>)
    ensures Silent(BodyOf(args))
  {
    if args != [] {
      ArgumentsAreSilent(args[..|args| - 1]);
    }
  }

  lemma {:induction false} ItemsAdd(st: State, items: seq<Item>)
    requires Valid(st) && forall i :: 0 <= i < |items| ==> IsItem(items[i])
    ensures LegalRun(st, EventsOf(items)) && Run(st, EventsOf(items)).msg == AddAll(st.msg, items)
    decreases |items|
  {
    hide ItemEvents, Add, IsItem, Next;
    if items != [] {
      ItemAdds(st, items[0]);
      var st' := Run(st, ItemEvents(items[0]));
      ItemsAdd(st', items[1..]);
      hide Run, LegalRun;
      RunAppend(st, ItemEvents(items[0]), EventsOf(items[1..]));
    }
  }

  /** The mapper reads any list of items as the message they spell out: text in its field,
      one call for each named tool, in order, and nothing for a tool without a name. */
  lemma ItemsMakeMessage(items: seq<Item>)
    requires forall i :: 0 <= i < |items| ==> IsItem(items[i])
    ensures LegalRun(Init, EventsOf(items)) && MessageOf(EventsOf(items)) == Finish(AddAll(EmptyMsg, items))
  {
    hide Run, LegalRun, IsItem;
    ItemsAdd(Init, items);
  }
}
