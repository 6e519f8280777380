/** Tool results in the order of their calls (common/chat.cpp, lines 2031-2095). */
module AnswerOrder {
  import opened ToolResultOrder

  /** The place of the call with this id: the last one with it, and the first of all for
      results that answer none. */
  predicate IsPlace(calls: seq<string>, id: string, p: nat)
  {
    if id != "" && id in calls then p < |calls| && calls[p] == id && forall q :: p < q < |calls| ==> calls[q] != id
    else p == 0
  }

  lemma {:induction false} PlaceInOrder(calls: seq<string>, id: string)
    ensures id in OrderOf(calls) <==> id != "" && id in calls
    ensures id in OrderOf(calls) ==> IsPlace(calls, id, OrderOf(calls)[id])
  {
    if calls != [] {
      var n := |calls| - 1;
      PlaceInOrder(calls[..n], id);
      assert calls == calls[..n] + [calls[n]];
    }
  }

  lemma KeyIsPlace(calls: seq<string>, m: Message, p: nat)
    requires IsPlace(calls, m.callId, p)
    ensures Key(OrderOf(calls), m) == p
  {
    hide OrderOf;
    PlaceInOrder(calls, m.callId);
    if m.callId in OrderOf(calls) {
      OnePlace(calls, m.callId, p, OrderOf(calls)[m.callId]);
    }
  }

  lemma OnePlace(calls: seq<string>, id: string, p: nat, q: nat)
    requires id != "" && id in calls && IsPlace(calls, id, p) && IsPlace(calls, id, q)
    ensures p == q
  {
  }

  /** Between the two there is no other assistant message that makes calls. */
  predicate LatestCalls(ms: seq<Message>, c: nat, s: nat)
  {
    && c < s <= |ms| && ms[c].role == "assistant" && ms[c].calls != []
    && forall k :: c < k < s ==> ms[k].role != "assistant" || ms[k].calls == []
  }

  lemma {:induction false} OrderInForce(order: Order, ms: seq<Message>, c: nat, s: nat)
    requires LatestCalls(ms, c, s)
    ensures OrderAt(order, ms, s) == OrderOf(ms[c].calls)
    decreases s
  {
    if c < s - 1 {
      OrderInForce(order, ms, c, s - 1);
    }
  }

  lemma SlotPair(slots: seq<nat>, n: nat, i: nat, j: nat) returns (a: nat, b: nat)
    requires Increasing(slots, n) && i in slots && j in slots && i < j
    ensures a < b < |slots| && slots[a] == i && slots[b] == j
  {
    a :| 0 <= a < |slots| && slots[a] == i;
    b :| 0 <= b < |slots| && slots[b] == j;
  }

  lemma ToolsByPlace(order: Order, run: seq<Message>, i: nat, j: nat)
    requires Sorted(order, Tools(run)) && i < j < |run| && IsTool(run[i]) && IsTool(run[j])
    ensures Key(order, run[i]) <= Key(order, run[j])
  {
    hide *;
    SlotsMembers(run, i);
    SlotsMembers(run, j);
    SlotsOfTools(run);
    var a, b := SlotPair(Slots(run), |run|, i, j);
    SortedPair(order, Tools(run), a, b);
  }

  lemma SortedPair(order: Order, s: seq<Message>, a: nat, b: nat)
    requires Sorted(order, s) && a < b < |s|
    ensures Key(order, s[a]) <= Key(order, s[b])
  {
    hide Key;
  }

  /** A maximal run of user and tool messages. */
  predicate IsBlock(ms: seq<Message>, s: nat, e: nat)
  {
    && s < e <= |ms| && (forall k :: s <= k < e ==> ms[k].role in ["user", "tool"])
    && (s > 0 ==> ms[s - 1].role !in ["user", "tool"]) && (e < |ms| ==> ms[e].role !in ["user", "tool"])
  }

  /** Among the results between two other messages, one that answers an earlier call of the
      latest assistant message before them stands before one that answers a later call. */
  lemma AnswersFollowCalls(ms: seq<Message>, s: nat, e: nat, c: nat, i: nat, j: nat, p: nat, q: nat)
    requires IsBlock(ms, s, e) && LatestCalls(ms, c, s) && s <= i < e && s <= j < e
    requires |SortToolResults(ms)| == |ms|
    requires SortToolResults(ms)[i].role == "tool" && SortToolResults(ms)[j].role == "tool"
    requires IsPlace(ms[c].calls, SortToolResults(ms)[i].callId, p)
    requires IsPlace(ms[c].calls, SortToolResults(ms)[j].callId, q) && p < q
    ensures i < j
  {
    hide SortFrom, Key, OrderOf, SortRun, IsPlace;
    var out, order := SortToolResults(ms), OrderOf(ms[c].calls);
    assert MaximalRun(ms, s, e);
    EachRunSorted(map[], ms, s, e);
    OrderInForce(map[], ms, c, s);
    SortRunCorrect(order, ms[s..e], 0);
    KeyIsPlace(ms[c].calls, out[i], p);
    KeyIsPlace(ms[c].calls, out[j], q);
    var run := out[s..e];
    assert run[i - s] == out[i] && run[j - s] == out[j];
    if j < i {
      ToolsByPlace(order, run, j - s, i - s);
    }
  }

  lemma {:induction false} NoKeysNoChange(s: seq<Message>)
    ensures StableSort(map[], s) == s
  {
    if s != [] {
      NoKeysNoChange(s[1..]);
    }
  }

  lemma {:induction false} NoOrderInForce(ms: seq<Message>, s: nat)
    requires s <= |ms| && forall k :: 0 <= k < s ==> ms[k].role != "assistant" || ms[k].calls == []
    ensures OrderAt(map[], ms, s) == map[]
  {
    if s > 0 {
      NoOrderInForce(ms, s - 1);
    }
  }

  /** Results that no calls precede stay as they are. */
  lemma NoCallsNoChange(ms: seq<Message>, s: nat, e: nat)
    requires IsBlock(ms, s, e) && forall k :: 0 <= k < s ==> ms[k].role != "assistant" || ms[k].calls == []
    ensures SortToolResults(ms)[s..e] == ms[s..e]
  {
    hide SortFrom, StableSort, Refill, Tools, OrderAt;
    assert MaximalRun(ms, s, e);
    EachRunSorted(map[], ms, s, e);
    NoOrderInForce(ms, s);
    NoKeysNoChange(Tools(ms[s..e]));
    RefillWithOwn(ms[s..e]);
  }
}
