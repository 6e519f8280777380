/** What a client holds after the deltas of one step (common/chat.cpp, lines 56-69 and 266-332). */
module DeltaEffects {
  import opened Wrappers
  import opened ChatMessage

  /** A text that went on is taken over; one that shrank stays as the client has it. */
  function TextAfter(a: string, b: string): string
  {
    if a <= b then b else a
  }

  function FieldAfter(a: string, b: string): string
  {
    if b == "" then a else b
  }

  predicate Comparable(a: string, b: string)
  {
    a <= b || b <= a
  }

  lemma StringDiffLeaves(a: string, b: string)
    ensures StringDiff(a, b).Ok? <==> Comparable(a, b)
    ensures StringDiff(a, b).Err? ==> StringDiff(a, b).error == TextMismatch
    ensures StringDiff(a, b).Ok? ==> a + StringDiff(a, b).value == TextAfter(a, b)
    ensures StringDiff(a, b) == Ok("") <==> b <= a
  {
    StringDiffAppends(a, b);
    assert a + "" == a;
    if a <= b && a != "" {
      assert |b[|a|..]| == |b| - |a|;
      assert b <= a ==> a == b;
    }
  }

  // ----- when the deltas can be computed -----

  /** The last call of the previous message can go on as the other one. */
  predicate CallGoesOn(a: ToolCall, b: ToolCall)
  {
    Comparable(a.arguments, b.arguments) && (a.name == "" || b.name == "" || a.name <= b.name)
  }

  predicate LastGoesOn(prv: Msg, nxt: Msg)
  {
    prv.calls == [] ||
    (var n := |prv.calls|; n <= |nxt.calls| && CallGoesOn(prv.calls[n - 1], nxt.calls[n - 1]))
  }

  lemma CallDiffOkIff(i: nat, a: ToolCall, b: ToolCall)
    ensures CallDiff(i, a, b).Ok? <==> CallGoesOn(a, b)
  {
    hide StringDiff;
    StringDiffLeaves(a.arguments, b.arguments);
  }

  /** Exactly when there are deltas at all. */
  lemma DiffsOkIff(prv: Msg, nxt: Msg)
    ensures Diffs(prv, nxt).Ok?
            <==> && Comparable(prv.content, nxt.content) && Comparable(prv.reasoning, nxt.reasoning)
                 && |prv.calls| <= |nxt.calls| && LastGoesOn(prv, nxt)
  {
    hide StringDiff, CallDiff, CallGoesOn;
    StringDiffLeaves(prv.content, nxt.content);
    StringDiffLeaves(prv.reasoning, nxt.reasoning);
    if prv.calls != [] && |prv.calls| <= |nxt.calls| {
      var i := |prv.calls| - 1;
      CallDiffOkIff(i, prv.calls[i], nxt.calls[i]);
    }
  }

  /** Which error is reported: the texts come first, then the number of calls. */
  lemma DiffsErrorIs(prv: Msg, nxt: Msg)
    requires Diffs(prv, nxt).Err?
    ensures Diffs(prv, nxt).error
            == if !(Comparable(prv.content, nxt.content) && Comparable(prv.reasoning, nxt.reasoning)) then TextMismatch
               else if |nxt.calls| < |prv.calls| then FewerToolCalls
               else
                 var i := |prv.calls| - 1;
                 if i < 0 || prv.calls[i].name == "" || nxt.calls[i].name == ""
                    || prv.calls[i].name <= nxt.calls[i].name
                 then TextMismatch else ToolCallMismatch
  {
    hide StringDiff;
    StringDiffLeaves(prv.content, nxt.content);
    StringDiffLeaves(prv.reasoning, nxt.reasoning);
    if prv.calls != [] && |prv.calls| <= |nxt.calls| {
      var i := |prv.calls| - 1;
      StringDiffLeaves(prv.calls[i].arguments, nxt.calls[i].arguments);
    }
  }

  // ----- what the client holds -----

  /** The call that the client holds in place of the last one of the previous message. */
  function CallAfter(a: ToolCall, b: ToolCall): ToolCall
  {
    ToolCall(FieldAfter(a.name, b.name), TextAfter(a.arguments, b.arguments), FieldAfter(a.id, b.id))
  }

  lemma CallDiffLeaves(m: Msg, i: nat, b: ToolCall)
    requires i == |m.calls| - 1 && CallDiff(i, m.calls[i], b).Ok?
    ensures var a, m' := m.calls[i], ApplyAll(m, CallDiff(i, m.calls[i], b).value);
            && m'.content == m.content && m'.reasoning == m.reasoning
            && m'.calls == m.calls[..i] + [CallAfter(a, b)]
  {
    hide StringDiff;
    var a := m.calls[i];
    StringDiffLeaves(a.arguments, b.arguments);
    var ds := CallDiff(i, a, b).value;
    assert a.arguments + "" == a.arguments;
    if ds == [] {
      assert a == CallAfter(a, b);
      assert m.calls == m.calls[..i] + [a];
    } else {
      ApplyOne(m, ds[0]);
      assert ds == [ds[0]];
      assert m.content + "" == m.content && m.reasoning + "" == m.reasoning;
    }
  }

  lemma TextDiffsLeave(prv: Msg, nxt: Msg)
    requires ReasoningDiff(prv, nxt).Ok? && ContentDiff(prv, nxt).Ok?
    ensures ApplyAll(prv, ReasoningDiff(prv, nxt).value + ContentDiff(prv, nxt).value)
         == Msg(TextAfter(prv.content, nxt.content), TextAfter(prv.reasoning, nxt.reasoning), prv.calls)
  {
    hide StringDiff;
    var r, c := ReasoningDiff(prv, nxt).value, ContentDiff(prv, nxt).value;
    ApplyAppend(prv, r, c);
    StringDiffLeaves(prv.reasoning, nxt.reasoning);
    StringDiffLeaves(prv.content, nxt.content);
    assert prv.content + "" == prv.content;
    var m1 := prv.(reasoning := TextAfter(prv.reasoning, nxt.reasoning));
    assert m1.reasoning + "" == m1.reasoning;
    assert ApplyAll(prv, r) == m1 by {
      if r != [] {
        assert r == [r[0]];
        ApplyOne(prv, r[0]);
      }
    }
    if c != [] {
      assert c == [c[0]];
      ApplyOne(m1, c[0]);
    }
  }

  function OldCallsAfter(prv: Msg, nxt: Msg): seq<ToolCall>
    requires |prv.calls| <= |nxt.calls|
  {
    var n := |prv.calls|;
    if n == 0 then [] else prv.calls[..n - 1] + [CallAfter(prv.calls[n - 1], nxt.calls[n - 1])]
  }

  lemma OldCallsLeave(m: Msg, prv: Msg, nxt: Msg)
    requires |prv.calls| <= |nxt.calls| && LastCallDiff(prv, nxt).Ok? && m.calls == prv.calls
    ensures ApplyAll(m, LastCallDiff(prv, nxt).value) == m.(calls := OldCallsAfter(prv, nxt))
  {
    hide CallDiff, Apply, CallAfter;
    if prv.calls != [] {
      CallDiffLeaves(m, |prv.calls| - 1, nxt.calls[|prv.calls| - 1]);
    }
  }

  lemma DeltasMake(prv: Msg, nxt: Msg)
    requires Diffs(prv, nxt).Ok?
    ensures |prv.calls| <= |nxt.calls|
    ensures ApplyAll(prv, Diffs(prv, nxt).value)
         == Msg(TextAfter(prv.content, nxt.content), TextAfter(prv.reasoning, nxt.reasoning),
                OldCallsAfter(prv, nxt) + nxt.calls[|prv.calls|..])
  {
    var n := |prv.calls|;
    var text := ReasoningDiff(prv, nxt).value + ContentDiff(prv, nxt).value;
    var last, added := LastCallDiff(prv, nxt).value, NewCallDiffs(nxt.calls, n);
    assert Diffs(prv, nxt).value == text + last + added;
    assert |OldCallsAfter(prv, nxt)| == n;
    hide *;
    TextDiffsLeave(prv, nxt);
    var m1 := ApplyAll(prv, text);
    var m2 := ApplyAll(m1, last);
    OldCallsLeave(m1, prv, nxt);
    ApplyNewCalls(m2, nxt.calls, n);
    ApplyAppend(prv, text, last);
    ApplyAppend(prv, text + last, added);
  }

  /** After the deltas, whenever there are any to compute, the client holds the new texts
      where they went on, and its own where they shrank. */
  lemma DeltasLeaveTexts(prv: Msg, nxt: Msg)
    requires Diffs(prv, nxt).Ok?
    ensures var m := ApplyAll(prv, Diffs(prv, nxt).value);
            && m.content == (if prv.content <= nxt.content then nxt.content else prv.content)
            && m.reasoning == (if prv.reasoning <= nxt.reasoning then nxt.reasoning else prv.reasoning)
            && |m.calls| == |nxt.calls| >= |prv.calls|
  {
    hide Diffs, ApplyAll;
    DeltasMake(prv, nxt);
  }

  /** Of the calls it holds its own earlier ones, the last one brought forward in the same
      way, with the new name and id if there are any, and every new call. */
  lemma DeltasLeaveCalls(prv: Msg, nxt: Msg, j: nat)
    requires Diffs(prv, nxt).Ok? && j < |nxt.calls|
    ensures var m, n := ApplyAll(prv, Diffs(prv, nxt).value), |prv.calls|;
            && |m.calls| == |nxt.calls|
            && (j < n - 1 ==> m.calls[j] == prv.calls[j])
            && (j >= n ==> m.calls[j] == nxt.calls[j])
            && (j == n - 1 ==>
                  var a, b, c := prv.calls[j], nxt.calls[j], m.calls[j];
                  && c.arguments == (if a.arguments <= b.arguments then b.arguments else a.arguments)
                  && c.name == (if b.name == "" then a.name else b.name)
                  && c.id == (if b.id == "" then a.id else b.id))
  {
    hide Diffs, ApplyAll;
    DeltasMake(prv, nxt);
  }

  // ----- which deltas are sent -----

  /** Nothing is sent exactly when the texts are the same, no call is new and the last call
      at most lost some of its arguments. */
  lemma NothingToSendIff(prv: Msg, nxt: Msg)
    ensures Diffs(prv, nxt) == Ok([])
            <==> && prv.content == nxt.content && prv.reasoning == nxt.reasoning && |prv.calls| == |nxt.calls|
                 && (prv.calls != [] ==>
                       var a, b := prv.calls[|prv.calls| - 1], nxt.calls[|prv.calls| - 1];
                       a.name == b.name && a.id == b.id && b.arguments <= a.arguments)
  {
    hide StringDiff, NewCallDiffs;
    if prv.calls != [] && |prv.calls| <= |nxt.calls| {
      var i := |prv.calls| - 1;
      StringDiffLeaves(prv.calls[i].arguments, nxt.calls[i].arguments);
    }
    if Diffs(prv, nxt).Ok? {
      var r, c, l := ReasoningDiff(prv, nxt).value, ContentDiff(prv, nxt).value, LastCallDiff(prv, nxt).value;
      assert |Diffs(prv, nxt).value| == |r| + |c| + |l| + (|nxt.calls| - |prv.calls|);
    }
  }

  /** The name and the id of the last call are sent again, both of them, exactly when one of
      the two has changed; its arguments are never sent twice. */
  lemma CallDeltaIs(prv: Msg, nxt: Msg, k: nat)
    requires Diffs(prv, nxt).Ok? && k < |Diffs(prv, nxt).value|
    requires Diffs(prv, nxt).value[k].index == Some(|prv.calls| - 1)
    ensures var a, b := prv.calls[|prv.calls| - 1], nxt.calls[|prv.calls| - 1];
            var d := Diffs(prv, nxt).value[k].callDelta;
            && d.name == (if a.name == b.name && a.id == b.id then "" else b.name)
            && d.id == (if a.name == b.name && a.id == b.id then "" else b.id)
            && a.arguments + d.arguments == TextAfter(a.arguments, b.arguments)
  {
    hide StringDiff, TextAfter;
    var n := |prv.calls|;
    var text := ReasoningDiff(prv, nxt).value + ContentDiff(prv, nxt).value;
    var last, added := LastCallDiff(prv, nxt).value, NewCallDiffs(nxt.calls, n);
    assert Diffs(prv, nxt).value == text + last + added;
    StringDiffLeaves(prv.calls[n - 1].arguments, nxt.calls[n - 1].arguments);
    NewCallsAre(nxt.calls, n);
    hide NewCallDiffs;
    assert forall i :: 0 <= i < |added| ==> added[i].index == Some(n + i);
    assert forall i :: 0 <= i < |text| ==> text[i].index == None;
  }

  /** Reasoning is sent before content, content before calls, and calls by their index. */
  lemma DeltasInOrder(prv: Msg, nxt: Msg, i: nat, j: nat)
    requires Diffs(prv, nxt).Ok? && i < j < |Diffs(prv, nxt).value|
    ensures var d, e := Diffs(prv, nxt).value[i], Diffs(prv, nxt).value[j];
            && (d.index.Some? ==> e.index.Some? && d.index.value < e.index.value)
            && e.reasoningDelta == ""
            && (d.contentDelta != "" ==> e.index.Some?)
  {
    hide StringDiff, NewCallDiffs;
    var n := |prv.calls|;
    var text := ReasoningDiff(prv, nxt).value + ContentDiff(prv, nxt).value;
    var last, added := LastCallDiff(prv, nxt).value, NewCallDiffs(nxt.calls, n);
    assert Diffs(prv, nxt).value == text + last + added;
    NewCallsAre(nxt.calls, n);
    assert forall k :: 0 <= k < |added| ==> added[k].index == Some(n + k);
  }

  lemma {:induction false} NewCallsAre(calls: seq<ToolCall>, from: nat)
    requires from <= |calls|
    ensures forall k :: 0 <= k < |calls| - from ==>
              NewCallDiffs(calls, from)[k] == Diff("", "", Some(from + k), calls[from + k])
    decreases |calls| - from
  {
    if from < |calls| {
      NewCallsAre(calls, from + 1);
    }
  }
}
