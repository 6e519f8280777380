/** Streaming safety of the mapper (common/chat-peg-parser.cpp, lines 286-458). */
module ToolCallStreaming {
  import opened JsonText
  import opened QuoteNormalizer
  import opened ChatMessage
  import opened MessageStream
  import opened ToolCallMapper

  // ----- well-formed runs -----

  /** Once a call is in the message it has a name and the buffer is empty. */
  predicate Named(st: State)
  {
    Valid(st) && (st.current.LastCall? ==> CurrentTool(st).name != "" && st.buffer == "")
  }

  /** A tool is named once, by a name that is not blank, and an argument object comes
      whole: it never replaces arguments that are already in the message. */
  predicate Allowed(st: State, e: Event)
    requires Valid(st)
  {
    && Legal(st, e)
    && (e.ToolName? && HasTool(st) ==> st.current.PendingTool? && TrimTrailing(e.text) != "")
    && (e.ToolArgs? && IsObjectText(e.text) && st.current.LastCall? ==> Target(st) == "" || Target(st) == "{")
  }

  predicate WellFormed(st: State, es: seq<Event>)
    requires Valid(st)
    decreases |es|
  {
    es == [] || (Allowed(st, es[0]) && WellFormed(Next(st, es[0]), es[1..]))
  }

  lemma {:induction false} WellFormedIsLegal(st: State, es: seq<Event>)
    requires Valid(st) && WellFormed(st, es)
    ensures LegalRun(st, es)
    decreases |es|
  {
    if es != [] {
      WellFormedIsLegal(Next(st, es[0]), es[1..]);
    }
  }

  // ----- one event only ever extends the message -----

  lemma GrowsReflexive(m: Msg)
    ensures Grows(m, m)
  {
  }

  lemma GrowsTransitive(a: Msg, b: Msg, c: Msg)
    requires Grows(a, b) && Grows(b, c)
    ensures Grows(a, c)
  {
    var n := |a.calls|;
    forall i | 0 <= i < n - 1
      ensures SameCall(a.calls[i], c.calls[i])
    {
      assert SameCall(a.calls[i], b.calls[i]) && SameCall(b.calls[i], c.calls[i]);
    }
    if 0 < n < |b.calls| {
      assert SameCall(b.calls[n - 1], c.calls[n - 1]);
    }
  }

  lemma SetLastCallGrows(m: Msg, a: ToolCall, b: ToolCall)
    requires m.calls != [] && a.name == b.name && a.arguments <= b.arguments
    ensures var n := |m.calls| - 1;
            Grows(m.(calls := m.calls[n := a]), m.(calls := m.calls[n := b]))
  {
  }

  /** Writing more to the same target extends the message. */
  lemma SetTargetGrows(st: State, s: string, t: string)
    requires Valid(st) && HasTool(st) && s <= t
    ensures Grows(SetTarget(st, s).msg, SetTarget(st, t).msg)
  {
    if st.current.LastCall? {
      var c := CurrentTool(st);
      SetLastCallGrows(st.msg, c.(arguments := s), c.(arguments := t));
    }
  }

  lemma SetTargetToItself(st: State)
    requires Valid(st) && HasTool(st)
    ensures SetTarget(st, Target(st)) == st
  {
    if st.current.LastCall? {
      var n := |st.msg.calls| - 1;
      assert st.msg.calls[n := st.msg.calls[n]] == st.msg.calls;
    }
  }

  lemma ToolEventGrows(st: State, e: Event)
    requires Named(st) && HasTool(st) && TouchesTool(e) && Allowed(st, e)
    ensures Named(OnToolEvent(st, e)) && Grows(st.msg, OnToolEvent(st, e).msg)
  {
    if e.ArgName? || e.ArgValue? || e.ArgStringValue? || e.ArgClose? {
      ArgEventGrows(st, e);
    } else if e.ToolArgs? {
      SetTargetToItself(st);
      if IsObjectText(e.text) && st.current.LastCall? {
        SetTargetGrows(st, Target(st), TrimTrailing(e.text));
      }
    } else if e.ToolClose? {
      CloseGrows(st);
    } else if e.ToolId? && st.current.LastCall? {
      SetTargetToItself(st);
      var c := CurrentTool(st);
      SetLastCallGrows(st.msg, c, c.(id := IdText(e.text)));
    }
  }

  lemma ArgEventGrows(st: State, e: Event)
    requires Named(st) && HasTool(st) && (e.ArgName? || e.ArgValue? || e.ArgStringValue? || e.ArgClose?)
    ensures Named(OnToolEvent(st, e)) && Grows(st.msg, OnToolEvent(st, e).msg)
  {
    hide Quoted, Trim, ValueText;
    SetTargetToItself(st);
    var t := Target(st);
    if e.ArgName? {
      var entry := (if st.argCount > 0 then "," else "") + Quoted(Trim(e.text)) + ":";
      SetTargetGrows(st, t, (if t == "" then "{" else t) + entry);
    } else if e.ArgValue? || e.ArgStringValue? {
      SetTargetGrows(st, t, t + ValueText(st.closing, e));
    } else {
      SetTargetGrows(st, t, t + "\"");
    }
  }

  lemma CloseGrows(st: State)
    requires Named(st) && HasTool(st)
    ensures Named(OnToolClose(st)) && Grows(st.msg, OnToolClose(st).msg)
  {
    if st.current.LastCall? {
      var c := CurrentTool(st);
      var text := c.arguments + (if st.closing then "\"" else "");
      SetLastCallGrows(st.msg, c, c.(arguments := text + Closers(text)));
      SetTargetToItself(st);
    }
  }

  lemma NextGrows(st: State, e: Event)
    requires Named(st) && Allowed(st, e)
    ensures Named(Next(st, e)) && Grows(st.msg, Next(st, e).msg)
  {
    hide OnToolEvent;
    if TouchesTool(e) && HasTool(st) {
      ToolEventGrows(st, e);
    }
  }

  lemma {:induction false} RunGrows(st: State, es: seq<Event>)
    requires Named(st) && WellFormed(st, es)
    ensures LegalRun(st, es) && Grows(st.msg, Run(st, es).msg)
    decreases |es|
  {
    hide Next, Grows;
    if es == [] {
      GrowsReflexive(st.msg);
    } else {
      var st' := Next(st, es[0]);
      NextGrows(st, es[0]);
      RunGrows(st', es[1..]);
      GrowsTransitive(st.msg, st'.msg, Run(st', es[1..]).msg);
    }
  }

  // ----- cutting the last event -----

  /** `c` is `e` with its text cut short. Names and ids are atomic. */
  predicate CutsShort(c: Event, e: Event)
  {
    || c == e
    || (c.Reasoning? && e.Reasoning? && c.text <= e.text)
    || (c.Content? && e.Content? && c.text <= e.text)
    || (c.ToolArgs? && e.ToolArgs? && c.text <= e.text)
    || (c.ArgValue? && e.ArgValue? && c.text <= e.text)
    || (c.ArgStringValue? && e.ArgStringValue? && c.text <= e.text)
  }

  /** The cut shows in the message and does not grow into the whole: it is a bad cut of an
      unquoted value, or it leaves nothing of the continuation of an open string, which is
      then taken for an empty string of its own. */
  predicate Harmful(st: State, c: Event, e: Event)
    requires CutsShort(c, e)
  {
    && st.current.LastCall?
    && (|| (e.ArgValue? && BadCut(Outside(""), e.text, |c.text|))
        || (e.ArgStringValue? && st.closing && c.text == "" && e.text != ""))
  }

  predicate Truncates(st: State, c: Event, e: Event)
  {
    CutsShort(c, e) && !Harmful(st, c, e)
  }

  lemma ValueTextPrefix(st: State, c: Event, e: Event)
    requires (e.ArgValue? || e.ArgStringValue?) && st.current.LastCall? && Truncates(st, c, e)
    ensures ValueText(st.closing, c) <= ValueText(st.closing, e)
  {
    hide Escape, NormalizeQuotes, BadCut;
    if e.ArgValue? {
      NormalizePrefix(c.text, e.text);
    } else {
      EscapePrefix(c.text, e.text);
      if c.text == "" && e.text != "" && !st.closing {
        assert "\"" <= "\"" + Escape(e.text);
      }
    }
  }

  lemma TruncatedToolEventGrows(st: State, c: Event, e: Event)
    requires Named(st) && HasTool(st) && c != e && Truncates(st, c, e) && Allowed(st, e)
    requires e.ToolArgs? || e.ArgValue? || e.ArgStringValue?
    ensures Allowed(st, c) && Grows(OnToolEvent(st, c).msg, OnToolEvent(st, e).msg)
  {
    hide BadCut, ValueText;
    if st.current.PendingTool? {
      PendingWritesBuffer(st, c);
      PendingWritesBuffer(st, e);
      GrowsReflexive(st.msg);
    } else if e.ToolArgs? {
      TrimTrailingMonotone(c.text, e.text);
      if IsObjectText(c.text) {
        SetTargetGrows(st, TrimTrailing(c.text), TrimTrailing(e.text));
      } else {
        ToolEventGrows(st, e);
      }
    } else {
      var t := Target(st);
      ValueTextPrefix(st, c, e);
      assert t + ValueText(st.closing, c) <= t + ValueText(st.closing, e);
      SetTargetGrows(st, t + ValueText(st.closing, c), t + ValueText(st.closing, e));
    }
  }

  /** What is written before the tool has a name does not show in the message. */
  lemma PendingWritesBuffer(st: State, e: Event)
    requires Valid(st) && st.current.PendingTool? && (e.ToolArgs? || e.ArgValue? || e.ArgStringValue?)
    ensures OnToolEvent(st, e).msg == st.msg
  {
    hide ValueText, TrimTrailing;
  }

  lemma TruncatedEventGrows(st: State, c: Event, e: Event)
    requires Named(st) && Allowed(st, e) && Truncates(st, c, e)
    ensures Allowed(st, c) && Grows(Next(st, c).msg, Next(st, e).msg)
  {
    hide OnToolEvent, BadCut;
    if c == e {
      GrowsReflexive(Next(st, c).msg);
    } else if TouchesTool(e) && HasTool(st) {
      TruncatedToolEventGrows(st, c, e);
    }
  }

  // ----- cuts of a run -----

  /** Argument-object events whose text is not an object have no effect; when the
      arguments are tagged one by one they wrap them, and are cut along with them. */
  predicate SameEffect(c: Event, e: Event)
  {
    c == e || (c.ToolArgs? && e.ToolArgs? && !IsObjectText(c.text) && !IsObjectText(e.text))
  }

  /** `cs` is what the parser reports when the input of `es` is cut: the later events are
      missing and the last one may be cut short. */
  predicate IsCut(st: State, cs: seq<Event>, es: seq<Event>)
    requires Valid(st)
    decreases |cs|
  {
    || cs == []
    || (es != [] && |cs| == 1 && Truncates(st, cs[0], es[0]))
    || (es != [] && SameEffect(cs[0], es[0]) && Legal(st, es[0]) && IsCut(Next(st, es[0]), cs[1..], es[1..]))
  }

  lemma SameEffectSameNext(st: State, c: Event, e: Event)
    requires Valid(st) && Allowed(st, e) && SameEffect(c, e)
    ensures Allowed(st, c) && Next(st, c) == Next(st, e)
  {
  }

  /** The cut run is well formed itself, and the full run only extends its message. */
  lemma {:induction false} CutRunGrows(st: State, cs: seq<Event>, es: seq<Event>)
    requires Named(st) && WellFormed(st, es) && IsCut(st, cs, es)
    ensures WellFormed(st, cs) && LegalRun(st, cs) && LegalRun(st, es)
    ensures Grows(Run(st, cs).msg, Run(st, es).msg)
    decreases |cs|
  {
    hide Next, Grows, Truncates, SameEffect;
    RunGrows(st, es);
    if cs != [] {
      var st' := Next(st, es[0]);
      NextGrows(st, es[0]);
      if |cs| == 1 && Truncates(st, cs[0], es[0]) {
        TruncatedEventGrows(st, cs[0], es[0]);
        assert cs[1..] == [];
        RunGrows(st', es[1..]);
        assert Run(st, cs).msg == Next(st, cs[0]).msg;
        GrowsTransitive(Run(st, cs).msg, st'.msg, Run(st', es[1..]).msg);
      } else {
        SameEffectSameNext(st, cs[0], es[0]);
        CutRunGrows(st', cs[1..], es[1..]);
      }
    }
  }

  lemma FinishGrows(a: Msg, b: Msg)
    requires Grows(a, b)
    ensures Grows(Finish(a), Finish(b))
  {
    if IsBlank(b.reasoning) {
      assert forall c :: c in a.reasoning ==> c in b.reasoning;
    }
  }

  /** Streaming safety: content, reasoning and the arguments of the last call of a cut are
      prefixes of those of the full run, and the earlier calls are the same. */
  lemma StreamingSafety(cs: seq<Event>, es: seq<Event>)
    requires WellFormed(Init, es) && IsCut(Init, cs, es)
    ensures LegalRun(Init, cs) && LegalRun(Init, es) && Grows(MessageOf(cs), MessageOf(es))
  {
    CutRunGrows(Init, cs, es);
    FinishGrows(Run(Init, cs).msg, Run(Init, es).msg);
  }

  /** The bad cuts are exactly what has to be excluded for unquoted values: cutting one
      keeps the arguments growing if and only if the cut is not bad. */
  lemma ValueCutIsSafeIffNotBad(st: State, cut: string, text: string)
    requires Named(st) && st.current.LastCall? && cut <= text
    ensures Grows(OnValue(st, ArgValue(cut)).msg, OnValue(st, ArgValue(text)).msg)
            <==> !BadCut(Outside(""), text, |cut|)
  {
    hide NormalizeQuotes, BadCut;
    var t := Target(st);
    NormalizePrefix(cut, text);
    PrefixCancels(t, NormalizeQuotes(cut), NormalizeQuotes(text));
    var a, b := OnValue(st, ArgValue(cut)), OnValue(st, ArgValue(text));
    var n := |st.msg.calls| - 1;
    assert a.msg.calls[n].arguments == t + NormalizeQuotes(cut);
    assert b.msg.calls[n].arguments == t + NormalizeQuotes(text);
    if t + NormalizeQuotes(cut) <= t + NormalizeQuotes(text) {
      SetTargetGrows(st, t + NormalizeQuotes(cut), t + NormalizeQuotes(text));
    }
  }

  /** For strings: cutting one keeps the arguments growing if and only if it does not leave
      nothing of the continuation of an open string. */
  lemma StringCutIsSafeIff(st: State, cut: string, text: string)
    requires Named(st) && st.current.LastCall? && cut <= text
    ensures Grows(OnValue(st, ArgStringValue(cut)).msg, OnValue(st, ArgStringValue(text)).msg)
            <==> !(st.closing && cut == "" && text != "")
  {
    hide Escape;
    var c, e, t := ArgStringValue(cut), ArgStringValue(text), Target(st);
    var v, w := ValueText(st.closing, c), ValueText(st.closing, e);
    var n := |st.msg.calls| - 1;
    assert OnValue(st, c).msg.calls[n].arguments == t + v && OnValue(st, e).msg.calls[n].arguments == t + w;
    if st.closing && cut == "" && text != "" {
      HarmfulValue(st, c, e);
      PrefixCancels(t, v, w);
    } else {
      ValueTextPrefix(st, c, e);
      assert t + v <= t + w;
      SetTargetGrows(st, t + v, t + w);
    }
  }

  // ----- the harmful cuts are exactly those that break a stream -----

  /** Neither text continues the other. */
  predicate Mismatch(a: string, b: string)
  {
    !(a <= b) && !(b <= a)
  }

  lemma HarmfulValue(st: State, c: Event, e: Event)
    requires Named(st) && CutsShort(c, e) && Harmful(st, c, e)
    ensures c.ArgValue? || c.ArgStringValue?
    ensures var v, w := ValueText(st.closing, c), ValueText(st.closing, e); !(v <= w) && |v| <= |w|
  {
    hide NormalizeQuotes;
    if e.ArgValue? {
      hide BadCut;
      NormalizePrefix(c.text, e.text);
      NormalizeNeverShrinks(c.text, e.text);
    } else {
      EscapeStarts(e.text);
      hide Escape;
      assert ValueText(true, e) == "" + Escape(e.text) == Escape(e.text);
      assert ValueText(true, c)[0] == '"';
    }
  }

  /** Escaped text does not start with a quote. */
  lemma EscapeStarts(s: string)
    requires s != ""
    ensures Escape(s) != "" && Escape(s)[0] != '"'
  {
  }

  lemma MismatchStays(t: string, v: string, w: string, full: string)
    requires !(v <= w) && |v| <= |w| && t + w <= full
    ensures Mismatch(t + v, full)
  {
    if t + v <= full || full <= t + v {
      assert t + v == full[..|t + v|] == (t + w)[..|t + v|];
      PrefixCancels(t, v, w);
    }
  }

  /** After a harmful cut, the last call's arguments and those of the full run part ways. */
  lemma {:induction false} HarmfulCutMismatches(st: State, es: seq<Event>, j: nat, c: Event)
    requires Named(st) && WellFormed(st, es) && j < |es| && CutsShort(c, es[j])
    requires LegalRun(st, es[..j]) && Harmful(Run(st, es[..j]), c, es[j])
    ensures LegalRun(st, es[..j] + [c]) && LegalRun(st, es)
    ensures var a, b := Run(st, es[..j] + [c]).msg.calls, Run(st, es).msg.calls;
            0 < |a| <= |b| && Mismatch(a[|a| - 1].arguments, b[|a| - 1].arguments)
    decreases j
  {
    hide Next, Harmful, Mismatch;
    NextGrows(st, es[0]);
    RunGrows(st, es);
    if j == 0 {
      assert es[..0] + [c] == [c] && [c][1..] == [];
      FirstCutMismatches(st, es, c);
    } else {
      var st', rest := Next(st, es[0]), es[1..];
      var cs := es[..j] + [c];
      assert es[..j][0] == es[0] && es[..j][1..] == rest[..j - 1];
      assert cs[0] == es[0] && cs[1..] == rest[..j - 1] + [c];
      HarmfulCutMismatches(st', rest, j - 1, c);
    }
  }

  lemma FirstCutMismatches(st: State, es: seq<Event>, c: Event)
    requires Named(st) && es != [] && WellFormed(st, es) && CutsShort(c, es[0]) && Harmful(st, c, es[0])
    ensures LegalRun(st, [c]) && LegalRun(st, es)
    ensures var a, b := Next(st, c).msg.calls, Run(st, es).msg.calls;
            0 < |a| <= |b| && Mismatch(a[|a| - 1].arguments, b[|a| - 1].arguments)
  {
    hide ValueText, WellFormed, BadCut, Next, Run, Mismatch;
    var e, t := es[0], Target(st);
    HarmfulValue(st, c, e);
    assert [c][1..] == [];
    ValueArguments(st, c);
    ValueArguments(st, e);
    FirstGrows(st, es);
    MismatchStays(t, ValueText(st.closing, c), ValueText(st.closing, e),
                  Run(st, es).msg.calls[|st.msg.calls| - 1].arguments);
  }

  lemma ValueArguments(st: State, e: Event)
    requires Named(st) && st.current.LastCall? && (e.ArgValue? || e.ArgStringValue?)
    ensures var calls := Next(st, e).msg.calls;
            |calls| == |st.msg.calls| && calls[|calls| - 1].arguments == Target(st) + ValueText(st.closing, e)
  {
    hide ValueText;
  }

  lemma FirstGrows(st: State, es: seq<Event>)
    requires Named(st) && es != [] && WellFormed(st, es)
    ensures LegalRun(st, es) && Grows(Next(st, es[0]).msg, Run(st, es).msg)
  {
    hide Next, Grows;
    NextGrows(st, es[0]);
    RunGrows(Next(st, es[0]), es[1..]);
  }

  lemma {:induction false} PrefixIsCut(st: State, es: seq<Event>, j: nat, c: Event)
    requires Named(st) && WellFormed(st, es) && j < |es|
    ensures LegalRun(st, es[..j])
    ensures Truncates(Run(st, es[..j]), c, es[j]) ==> IsCut(st, es[..j] + [c], es)
    decreases j
  {
    hide Next, Truncates;
    var cs := es[..j] + [c];
    if j == 0 {
      assert cs == [c];
    } else {
      var rest := es[1..];
      NextGrows(st, es[0]);
      assert es[..j][0] == es[0] && es[..j][1..] == rest[..j - 1];
      assert cs[0] == es[0] && cs[1..] == rest[..j - 1] + [c];
      PrefixIsCut(Next(st, es[0]), rest, j - 1, c);
    }
  }

  lemma GrowingDiffs(a: Msg, b: Msg)
    requires Grows(a, b)
    ensures Diffs(a, b).Ok?
  {
    StringDiffAppends(a.reasoning, b.reasoning);
    StringDiffAppends(a.content, b.content);
    if a.calls != [] {
      var i := |a.calls| - 1;
      StringDiffAppends(a.calls[i].arguments, b.calls[i].arguments);
    }
  }

  lemma MismatchedDiffs(a: Msg, b: Msg)
    requires 0 < |a.calls| <= |b.calls| && Mismatch(a.calls[|a.calls| - 1].arguments, b.calls[|a.calls| - 1].arguments)
    ensures Diffs(a, b).Err? && !Grows(a, b)
  {
    var i := |a.calls| - 1;
    StringDiffAppends(a.calls[i].arguments, b.calls[i].arguments);
    assert LastCallDiff(a, b).Err?;
  }

  lemma CallsOfMessage(es: seq<Event>)
    requires LegalRun(Init, es)
    ensures MessageOf(es).calls == Run(Init, es).msg.calls
  {
  }

  /** For every well-formed run and every way to cut it short inside an event: the message
      of the cut grows into that of the run, and the deltas between them can be computed, if
      and only if the cut is not harmful. */
  lemma CutIsSafeIff(es: seq<Event>, j: nat, c: Event)
    requires WellFormed(Init, es) && j < |es| && CutsShort(c, es[j])
    ensures LegalRun(Init, es[..j]) && LegalRun(Init, es[..j] + [c]) && LegalRun(Init, es)
    ensures var a, b := MessageOf(es[..j] + [c]), MessageOf(es);
            var harmful := Harmful(Run(Init, es[..j]), c, es[j]);
            (Grows(a, b) <==> !harmful) && (Diffs(a, b).Ok? <==> !harmful)
  {
    hide Harmful, Grows, Diffs, Mismatch, Next, WellFormed, Run, LegalRun, IsCut, MessageOf;
    PrefixIsCut(Init, es, j, c);
    if Harmful(Run(Init, es[..j]), c, es[j]) {
      HarmfulCutMismatches(Init, es, j, c);
      CallsOfMessage(es[..j] + [c]);
      CallsOfMessage(es);
      MismatchedDiffs(MessageOf(es[..j] + [c]), MessageOf(es));
    } else {
      StreamingSafety(es[..j] + [c], es);
      GrowingDiffs(MessageOf(es[..j] + [c]), MessageOf(es));
    }
  }

  /** A run on which a cut does break the stream: a string value in two pieces, with the
      second piece cut to nothing. */
  lemma OpenStringCutFails()
    ensures var es := [ToolOpen, ToolName("f"), ArgStringValue("a"), ArgStringValue("b")];
            var cut := [ToolOpen, ToolName("f"), ArgStringValue("a"), ArgStringValue("")];
            && WellFormed(Init, es) && LegalRun(Init, es) && LegalRun(Init, cut)
            && Diffs(MessageOf(cut), MessageOf(es)).Err?
  {
    var open, name, a, b := ToolOpen, ToolName("f"), ArgStringValue("a"), ArgStringValue("b");
    var s1, s2, s3 := OpenString();
    hide Next, Harmful, Diffs, WellFormed, LegalRun, Run, Allowed;
    var es := [open, name, a, b];
    assert [b] + [] == [b] && [a] + [b] == [a, b] && [name] + [a, b] == [name, a, b] && [open] + [name, a, b] == es;
    assert [a] + [] == [a] && [name] + [a] == [name, a] && [open] + [name, a] == es[..3];
    NothingIsWellFormed(Next(s3, b));
    NothingIsWellFormed(s3);
    RunPrepend(s3, b, []);
    RunPrepend(s2, a, [b]);
    RunPrepend(s1, name, [a, b]);
    RunPrepend(Init, open, [name, a, b]);
    RunPrepend(s2, a, []);
    RunPrepend(s1, name, [a]);
    RunPrepend(Init, open, [name, a]);
    CutIsSafeIff(es, 3, ArgStringValue(""));
    OpenStringIsHarmed(s3);
    assert es[..3] + [ArgStringValue("")] == [open, name, a, ArgStringValue("")];
  }

  lemma OpenString() returns (s1: State, s2: State, s3: State)
    ensures s1 == Next(Init, ToolOpen) && Valid(s1) && Allowed(s1, ToolName("f")) && Allowed(Init, ToolOpen)
    ensures s2 == Next(s1, ToolName("f")) && Valid(s2) && Allowed(s2, ArgStringValue("a"))
    ensures s3 == Next(s2, ArgStringValue("a")) && Valid(s3) && Allowed(s3, ArgStringValue("b"))
    ensures s3.current.LastCall? && s3.closing
  {
    s1 := Next(Init, ToolOpen);
    assert TrimTrailing("f") == "f";
    s2 := Next(s1, ToolName("f"));
    s3 := Next(s2, ArgStringValue("a"));
  }

  lemma OpenStringIsHarmed(st: State)
    requires st.current.LastCall? && st.closing
    ensures CutsShort(ArgStringValue(""), ArgStringValue("b")) && Harmful(st, ArgStringValue(""), ArgStringValue("b"))
  {
  }

  lemma NothingIsWellFormed(st: State)
    requires Valid(st)
    ensures WellFormed(st, []) && LegalRun(st, []) && Run(st, []) == st
  {
  }

  lemma RunPrepend(st: State, e: Event, es: seq<Event>)
    requires Valid(st) && Allowed(st, e) && WellFormed(Next(st, e), es)
    ensures WellFormed(st, [e] + es) && LegalRun(Next(st, e), es)
    ensures LegalRun(st, [e] + es) && Run(st, [e] + es) == Run(Next(st, e), es)
  {
    hide Next;
    assert ([e] + es)[1..] == es;
    WellFormedIsLegal(Next(st, e), es);
  }

  // ----- end to end -----

  /** The messages a server obtains from successive cuts, before ids are assigned. */
  function Partials(cuts: seq<seq<Event>>): (ms: seq<Msg>)
    requires forall i :: 0 <= i < |cuts| ==> LegalRun(Init, cuts[i])
    ensures |ms| == |cuts| && forall i :: 0 <= i < |ms| ==> ms[i] == MessageOf(cuts[i])
  {
    seq(|cuts|, i requires 0 <= i < |cuts| => MessageOf(cuts[i]))
  }

  /** Cuts of a well-formed run are well formed. */
  lemma {:induction false} CutsAreWellFormed(cuts: seq<seq<Event>>, i: nat)
    requires i < |cuts| && WellFormed(Init, cuts[|cuts| - 1])
    requires forall k :: 0 <= k < |cuts| - 1 ==> IsCut(Init, cuts[k], cuts[k + 1])
    ensures WellFormed(Init, cuts[i])
    decreases |cuts| - i
  {
    hide WellFormed, IsCut;
    if i < |cuts| - 1 {
      CutsAreWellFormed(cuts, i + 1);
      CutRunGrows(Init, cuts[i], cuts[i + 1]);
    }
  }

  /** From the empty run to a full one, through cuts that each cut the next: every delta is
      computed without error, and the deltas fold to the message of the last run, with the
      ids of one shared cache. */
  lemma StreamedDeltasRebuildMessage(cuts: seq<seq<Event>>, gen: nat -> string)
    requires cuts != [] && cuts[0] == [] && WellFormed(Init, cuts[|cuts| - 1])
    requires forall i :: 0 <= i < |cuts| - 1 ==> IsCut(Init, cuts[i], cuts[i + 1])
    ensures forall i :: 0 <= i < |cuts| ==> LegalRun(Init, cuts[i])
    ensures var sent := AssignIds([], Partials(cuts), gen);
            var ids := FinalIds([], Partials(cuts), gen);
            var full := MessageOf(cuts[|cuts| - 1]);
            && Deltas(sent).Ok?
            && |full.calls| <= |ids|
            && ApplyAll(EmptyMsg, Deltas(sent).value) == full.(calls := WithIds(full.calls, ids))
  {
    forall i | 0 <= i < |cuts|
      ensures LegalRun(Init, cuts[i]) && WellFormed(Init, cuts[i])
    {
      CutsAreWellFormed(cuts, i);
      WellFormedIsLegal(Init, cuts[i]);
    }
    var ms := Partials(cuts);
    forall i | 0 <= i < |ms| - 1
      ensures Grows(ms[i], ms[i + 1])
    {
      StreamingSafety(cuts[i], cuts[i + 1]);
    }
    assert ms[0] == EmptyMsg;
    StreamWithIds(ms, gen);
    IdsNeverChange([], ms, gen);
  }
}
