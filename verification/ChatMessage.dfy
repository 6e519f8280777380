/** Chat messages, the deltas between successive partial messages, and tool-call ids
    (common/chat.cpp, lines 56-69 and 266-332; common/chat.h, lines 28-143). */
module ChatMessage {
  import opened Wrappers

  datatype ToolCall = ToolCall(name: string, arguments: string, id: string)

  const EmptyCall := ToolCall("", "", "")

  /** The fields of a message that deltas speak about. */
  datatype Msg = Msg(content: string, reasoning: string, calls: seq<ToolCall>)

  const EmptyMsg := Msg("", "", [])

  datatype DiffError = TextMismatch | FewerToolCalls | ToolCallMismatch

  datatype Result<+T> = Ok(value: T) | Err(error: DiffError) {
    predicate IsFailure() { Err? }
    function PropagateFailure<U>(): Result<U>
      requires Err?
    {
      Err(error)
    }
    function Extract(): T
      requires Ok?
    {
      value
    }
  }

  datatype Diff = Diff(reasoningDelta: string, contentDelta: string, index: Option<nat>, callDelta: ToolCall)

  // ----- computing deltas -----

  function StringDiff(last: string, current: string): Result<string>
  {
    if last == "" then Ok(current)
    else if !(last <= current) then
      if current <= last then Ok("") else Err(TextMismatch)
    else Ok(current[|last|..])
  }

  function ReasoningDiff(prv: Msg, nxt: Msg): Result<seq<Diff>>
  {
    if prv.reasoning == nxt.reasoning then Ok([])
    else
      var d :- StringDiff(prv.reasoning, nxt.reasoning);
      Ok([Diff(d, "", None, EmptyCall)])
  }

  function ContentDiff(prv: Msg, nxt: Msg): Result<seq<Diff>>
  {
    if prv.content == nxt.content then Ok([])
    else
      var d :- StringDiff(prv.content, nxt.content);
      Ok([Diff("", d, None, EmptyCall)])
  }

  predicate NameClash(a: string, b: string)
  {
    a != b && a != "" && b != "" && !(a <= b)
  }

  /** The delta for call `i`, the last one of the previous message. */
  function CallDiff(i: nat, a: ToolCall, b: ToolCall): Result<seq<Diff>>
  {
    if NameClash(a.name, b.name) then Err(ToolCallMismatch)
    else
      var d :- StringDiff(a.arguments, b.arguments);
      var renamed := a.id != b.id || a.name != b.name;
      if d == "" && !renamed then Ok([])
      else Ok([Diff("", "", Some(i), if renamed then ToolCall(b.name, d, b.id) else ToolCall("", d, ""))])
  }

  function LastCallDiff(prv: Msg, nxt: Msg): Result<seq<Diff>>
    requires |prv.calls| <= |nxt.calls|
  {
    if prv.calls == [] then Ok([])
    else
      var i := |prv.calls| - 1;
      CallDiff(i, prv.calls[i], nxt.calls[i])
  }

  function NewCallDiffs(calls: seq<ToolCall>, from: nat): (ds: seq<Diff>)
    requires from <= |calls|
    ensures |ds| == |calls| - from
    decreases |calls| - from
  {
    if from == |calls| then []
    else [Diff("", "", Some(from), calls[from])] + NewCallDiffs(calls, from + 1)
  }

  function Diffs(prv: Msg, nxt: Msg): Result<seq<Diff>>
  {
    var reasoning :- ReasoningDiff(prv, nxt);
    var content :- ContentDiff(prv, nxt);
    if |nxt.calls| < |prv.calls| then Err(FewerToolCalls)
    else
      var last :- LastCallDiff(prv, nxt);
      Ok(reasoning + content + last + NewCallDiffs(nxt.calls, |prv.calls|))
  }

  method ComputeDiffs(prv: Msg, nxt: Msg) returns (r: Result<seq<Diff>>)
    ensures r == Diffs(prv, nxt)
  {
    var diffs := [];
    if prv.reasoning != nxt.reasoning {
      var d :- StringDiff(prv.reasoning, nxt.reasoning);
      diffs := diffs + [Diff(d, "", None, EmptyCall)];
    }
    if prv.content != nxt.content {
      var d :- StringDiff(prv.content, nxt.content);
      diffs := diffs + [Diff("", d, None, EmptyCall)];
    }
    if |nxt.calls| < |prv.calls| {
      return Err(FewerToolCalls);
    }
    if prv.calls != [] {
      var idx := |prv.calls| - 1;
      var pref, newf := prv.calls[idx], nxt.calls[idx];
      if pref.name != newf.name && pref.name != "" && newf.name != "" {
        if !(pref.name <= newf.name) {
          return Err(ToolCallMismatch);
        }
      }
      var argsDiff :- StringDiff(pref.arguments, newf.arguments);
      if argsDiff != "" || pref.id != newf.id || pref.name != newf.name {
        var delta := ToolCall("", argsDiff, "");
        if pref.id != newf.id || pref.name != newf.name {
          delta := delta.(id := newf.id, name := newf.name);
        }
        diffs := diffs + [Diff("", "", Some(idx), delta)];
      }
    }
    ghost var sofar := ReasoningDiff(prv, nxt).value + ContentDiff(prv, nxt).value + LastCallDiff(prv, nxt).value;
    assert Diffs(prv, nxt) == Ok(diffs + NewCallDiffs(nxt.calls, |prv.calls|)) by {
      assert diffs == sofar;
    }
    hide StringDiff, ReasoningDiff, ContentDiff, LastCallDiff, CallDiff, Diffs;
    for idx := |prv.calls| to |nxt.calls|
      invariant Diffs(prv, nxt) == Ok(diffs + NewCallDiffs(nxt.calls, idx))
    {
      ghost var d := Diff("", "", Some(idx), nxt.calls[idx]);
      assert diffs + [d] + NewCallDiffs(nxt.calls, idx + 1) == diffs + NewCallDiffs(nxt.calls, idx);
      diffs := diffs + [Diff("", "", Some(idx), nxt.calls[idx])];
    }
    assert diffs + [] == diffs;
    r := Ok(diffs);
  }

  // ----- what a client does with deltas -----

  function Pad(calls: seq<ToolCall>, n: nat): (r: seq<ToolCall>)
    ensures n < |r| && calls <= r
    decreases n + 1 - |calls|
  {
    if n < |calls| then calls else Pad(calls + [EmptyCall], n)
  }

  function Patch(c: ToolCall, d: ToolCall): ToolCall
  {
    ToolCall(if d.name != "" then d.name else c.name, c.arguments + d.arguments, if d.id != "" then d.id else c.id)
  }

  function Apply(m: Msg, d: Diff): Msg
  {
    Msg(m.content + d.contentDelta, m.reasoning + d.reasoningDelta,
        match d.index
        case None => m.calls
        case Some(i) => var calls := Pad(m.calls, i); calls[i := Patch(calls[i], d.callDelta)])
  }

  function ApplyAll(m: Msg, ds: seq<Diff>): Msg
    decreases |ds|
  {
    if ds == [] then m else ApplyAll(Apply(m, ds[0]), ds[1..])
  }

  lemma {:induction false} ApplyAppend(m: Msg, a: seq<Diff>, b: seq<Diff>)
    ensures ApplyAll(m, a + b) == ApplyAll(ApplyAll(m, a), b)
    decreases |a|
  {
    if a == [] {
      assert a + b == b;
    } else {
      assert (a + b)[1..] == a[1..] + b;
      ApplyAppend(Apply(m, a[0]), a[1..], b);
    }
  }

  lemma ApplyOne(m: Msg, d: Diff)
    ensures ApplyAll(m, [d]) == Apply(m, d)
  {
    assert [d][1..] == [];
  }

  // ----- deltas rebuild the new message exactly when it extends the old one -----

  predicate CallExtends(a: ToolCall, b: ToolCall)
  {
    a.name <= b.name && a.arguments <= b.arguments && (b.id == a.id || b.id != "")
  }

  ghost predicate Extends(prv: Msg, nxt: Msg)
  {
    && prv.content <= nxt.content
    && prv.reasoning <= nxt.reasoning
    && |prv.calls| <= |nxt.calls|
    && (forall i :: 0 <= i < |prv.calls| - 1 ==> prv.calls[i] == nxt.calls[i])
    && (prv.calls != [] ==> CallExtends(prv.calls[|prv.calls| - 1], nxt.calls[|prv.calls| - 1]))
  }

  /** What the deltas do to the previous text: append the missing part, or nothing when
      the text shrank. */
  lemma StringDiffAppends(a: string, b: string)
    ensures StringDiff(a, b).Ok? <==> a <= b || b <= a
    ensures StringDiff(a, b).Ok? ==> (a + StringDiff(a, b).value == b <==> a <= b)
  {
    if a <= b {
      assert a + b[|a|..] == b;
    } else if b <= a {
      assert |b| < |a|;
    }
  }

  lemma ApplyNewCall(m: Msg, c: ToolCall)
    ensures Apply(m, Diff("", "", Some(|m.calls|), c)) == m.(calls := m.calls + [c])
  {
    var n := |m.calls|;
    assert Pad(m.calls, n) == m.calls + [EmptyCall];
    assert Patch(EmptyCall, c) == c;
    assert (m.calls + [EmptyCall])[n := c] == m.calls + [c];
  }

  lemma {:induction false} ApplyNewCalls(m: Msg, calls: seq<ToolCall>, from: nat)
    requires from == |m.calls| <= |calls|
    ensures ApplyAll(m, NewCallDiffs(calls, from)) == m.(calls := m.calls + calls[from..])
    decreases |calls| - from
  {
    hide Apply, Patch, Pad;
    if from == |calls| {
      assert m.calls + calls[from..] == m.calls;
    } else {
      var c, ds := calls[from], NewCallDiffs(calls, from);
      ApplyNewCall(m, c);
      var m' := m.(calls := m.calls + [c]);
      ApplyNewCalls(m', calls, from + 1);
      assert ds[1..] == NewCallDiffs(calls, from + 1);
      assert m.calls + calls[from..] == m'.calls + calls[from + 1..];
    }
  }

  /** The effect of the deltas computed for the last call of the previous message. */
  lemma ApplyCallDiff(m: Msg, i: nat, b: ToolCall)
    requires i == |m.calls| - 1 && CallDiff(i, m.calls[i], b).Ok?
    ensures var m' := ApplyAll(m, CallDiff(i, m.calls[i], b).value);
            && m'.content == m.content && m'.reasoning == m.reasoning && |m'.calls| == |m.calls|
            && (forall j :: 0 <= j < i ==> m'.calls[j] == m.calls[j])
            && (m'.calls[i] == b <==> CallExtends(m.calls[i], b))
  {
    var a := m.calls[i];
    StringDiffAppends(a.arguments, b.arguments);
    var ds := CallDiff(i, a, b).value;
    if ds == [] {
      assert a.arguments + "" == a.arguments;
    } else {
      ApplyOne(m, ds[0]);
      assert ds == [ds[0]];
    }
  }

  lemma ApplyTextDiffs(prv: Msg, nxt: Msg)
    requires ReasoningDiff(prv, nxt).Ok? && ContentDiff(prv, nxt).Ok?
    ensures var m := ApplyAll(prv, ReasoningDiff(prv, nxt).value + ContentDiff(prv, nxt).value);
            && m.calls == prv.calls
            && (m.reasoning == nxt.reasoning <==> prv.reasoning <= nxt.reasoning)
            && (m.content == nxt.content <==> prv.content <= nxt.content)
  {
    var r, c := ReasoningDiff(prv, nxt).value, ContentDiff(prv, nxt).value;
    ApplyAppend(prv, r, c);
    StringDiffAppends(prv.reasoning, nxt.reasoning);
    StringDiffAppends(prv.content, nxt.content);
    var m1 := ApplyAll(prv, r);
    if r != [] {
      assert r == [r[0]];
      ApplyOne(prv, r[0]);
    }
    assert m1.content == prv.content && m1.calls == prv.calls;
    if c != [] {
      assert c == [c[0]];
      ApplyOne(m1, c[0]);
    }
  }

  /** Computing the deltas succeeds and applying them yields the new message if and only
      if the new message extends the old one. */
  lemma DiffsRebuildExactly(prv: Msg, nxt: Msg)
    ensures (Diffs(prv, nxt).Ok? && ApplyAll(prv, Diffs(prv, nxt).value) == nxt) <==> Extends(prv, nxt)
  {
    StringDiffAppends(prv.reasoning, nxt.reasoning);
    StringDiffAppends(prv.content, nxt.content);
    if prv.calls != [] && |prv.calls| <= |nxt.calls| {
      var i := |prv.calls| - 1;
      StringDiffAppends(prv.calls[i].arguments, nxt.calls[i].arguments);
    }
    if Diffs(prv, nxt).Ok? {
      DiffsEffect(prv, nxt);
    }
  }

  lemma DiffsEffect(prv: Msg, nxt: Msg)
    requires Diffs(prv, nxt).Ok?
    ensures ApplyAll(prv, Diffs(prv, nxt).value) == nxt <==> Extends(prv, nxt)
  {
    var n := |prv.calls|;
    var text := ReasoningDiff(prv, nxt).value + ContentDiff(prv, nxt).value;
    var last, added := LastCallDiff(prv, nxt).value, NewCallDiffs(nxt.calls, n);
    assert Diffs(prv, nxt).value == text + last + added;
    assert last == if n == 0 then [] else CallDiff(n - 1, prv.calls[n - 1], nxt.calls[n - 1]).value;
    hide Diffs, ReasoningDiff, ContentDiff, LastCallDiff, CallDiff, StringDiff, NewCallDiffs, Apply, ApplyAll;
    hide CallExtends, Extends;
    ApplyTextDiffs(prv, nxt);
    var m1 := ApplyAll(prv, text);
    var m2 := ApplyAll(m1, last);
    if n > 0 {
      ApplyCallDiff(m1, n - 1, nxt.calls[n - 1]);
    } else {
      ApplyNothing(m1);
    }
    ApplyNewCalls(m2, nxt.calls, n);
    ApplyAppend(prv, text, last);
    ApplyAppend(prv, text + last, added);
    RebuiltIffExtends(prv, nxt, m2);
  }

  lemma ApplyNothing(m: Msg)
    ensures ApplyAll(m, []) == m
  {
  }

  lemma RebuiltIffExtends(prv: Msg, nxt: Msg, m: Msg)
    requires |m.calls| == |prv.calls| <= |nxt.calls|
    requires m.reasoning == nxt.reasoning <==> prv.reasoning <= nxt.reasoning
    requires m.content == nxt.content <==> prv.content <= nxt.content
    requires forall j :: 0 <= j < |prv.calls| - 1 ==> m.calls[j] == prv.calls[j]
    requires var n := |prv.calls|;
             n > 0 ==> (m.calls[n - 1] == nxt.calls[n - 1] <==> CallExtends(prv.calls[n - 1], nxt.calls[n - 1]))
    ensures m.(calls := m.calls + nxt.calls[|prv.calls|..]) == nxt <==> Extends(prv, nxt)
  {
    var n := |prv.calls|;
    SameTail(m.calls, nxt.calls, n);
    if Extends(prv, nxt) {
      assert forall j :: 0 <= j < n ==> m.calls[j] == nxt.calls[j];
    } else if m.calls == nxt.calls[..n] {
      assert forall j :: 0 <= j < n ==> m.calls[j] == nxt.calls[j];
    }
  }

  lemma SameTail<T>(a: seq<T>, b: seq<T>, n: nat)
    requires |a| == n <= |b|
    ensures a + b[n..] == b <==> a == b[..n]
  {
    assert b == b[..n] + b[n..];
    assert (a + b[n..])[..n] == a;
  }
}
