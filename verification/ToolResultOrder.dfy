/** Ordering tool results by the calls they answer
    (deepseek_v4_sort_tool_results, common/chat.cpp, lines 2031-2095). */
module ToolResultOrder {
  import opened Sequences

  /** A message: its role, the id of the call it answers, the ids of the calls it makes
      ("" for a call without id), and everything else. */
  datatype Message = Message(role: string, callId: string, calls: seq<string>, rest: string)

  type Order = map<string, nat>

  predicate IsTool(m: Message)
  {
    m.role == "tool"
  }

  predicate InRun(m: Message)
  {
    m.role == "user" || m.role == "tool"
  }

  predicate MakesCalls(m: Message)
  {
    m.role == "assistant" && m.calls != []
  }

  /** The position of each call; of two calls with one id the later counts. */
  function OrderOf(calls: seq<string>): Order
  {
    if calls == [] then map[]
    else
      var n := |calls| - 1;
      if calls[n] == "" then OrderOf(calls[..n]) else OrderOf(calls[..n])[calls[n] := n]
  }

  /** Results that answer no known call sort as if they answered the first. */
  function Key(order: Order, m: Message): nat
  {
    if m.callId in order then order[m.callId] else 0
  }

  // ----- stable sorting -----

  function Insert(order: Order, m: Message, s: seq<Message>): (r: seq<Message>)
    ensures |r| == |s| + 1
  {
    if s == [] || Key(order, m) <= Key(order, s[0]) then [m] + s else [s[0]] + Insert(order, m, s[1..])
  }

  function StableSort(order: Order, s: seq<Message>): (r: seq<Message>)
    ensures |r| == |s|
  {
    if s == [] then [] else Insert(order, s[0], StableSort(order, s[1..]))
  }

  predicate Sorted(order: Order, s: seq<Message>)
  {
    forall i, j :: 0 <= i < j < |s| ==> Key(order, s[i]) <= Key(order, s[j])
  }

  /** The messages with key `k`, in their order. */
  function WithKey(order: Order, k: nat, s: seq<Message>): seq<Message>
  {
    if s == [] then []
    else (if Key(order, s[0]) == k then [s[0]] else []) + WithKey(order, k, s[1..])
  }

  lemma {:induction false} InsertPermutes(order: Order, m: Message, s: seq<Message>)
    ensures multiset(Insert(order, m, s)) == multiset(s) + multiset{m}
  {
    hide Key;
    if s != [] {
      InsertPermutes(order, m, s[1..]);
      assert s == [s[0]] + s[1..];
    }
  }

  lemma {:induction false} InsertSorted(order: Order, m: Message, s: seq<Message>)
    requires Sorted(order, s)
    ensures Sorted(order, Insert(order, m, s))
  {
    hide Key, Sorted;
    SortedUncons(order, s);
    if s == [] {
      SortedCons(order, m, []);
    } else if Key(order, m) > Key(order, s[0]) {
      var t := Insert(order, m, s[1..]);
      InsertSorted(order, m, s[1..]);
      forall x | x in t ensures Key(order, s[0]) <= Key(order, x) {
        InsertMembers(order, m, s[1..], x);
      }
      SortedCons(order, s[0], t);
    } else {
      SortedCons(order, m, s);
    }
  }

  lemma {:induction false} InsertMembers(order: Order, m: Message, s: seq<Message>, x: Message)
    requires x in Insert(order, m, s)
    ensures x == m || x in s
  {
    hide Key;
    if s != [] && x != s[0] && x in Insert(order, m, s[1..]) {
      InsertMembers(order, m, s[1..], x);
    }
  }

  lemma SortedCons(order: Order, m: Message, s: seq<Message>)
    requires Sorted(order, s) && forall x :: x in s ==> Key(order, m) <= Key(order, x)
    ensures Sorted(order, [m] + s)
  {
    hide Key;
  }

  lemma SortedUncons(order: Order, s: seq<Message>)
    requires Sorted(order, s)
    ensures s != [] ==> Sorted(order, s[1..]) && forall x :: x in s ==> Key(order, s[0]) <= Key(order, x)
    ensures Sorted(order, [])
  {
    hide Key;
  }

  lemma WithKeyCons(order: Order, k: nat, m: Message, s: seq<Message>)
    ensures WithKey(order, k, [m] + s) == (if Key(order, m) == k then [m] else []) + WithKey(order, k, s)
  {
    assert ([m] + s)[1..] == s;
  }

  lemma {:induction false} InsertKeepsClasses(order: Order, m: Message, s: seq<Message>, k: nat)
    ensures WithKey(order, k, Insert(order, m, s)) == WithKey(order, k, [m] + s)
  {
    if s != [] && Key(order, m) > Key(order, s[0]) {
      var rest := s[1..];
      InsertKeepsClasses(order, m, rest, k);
      var t := Insert(order, m, rest);
      assert Insert(order, m, s) == [s[0]] + t && s == [s[0]] + rest;
      hide Key, Insert, WithKey;
      WithKeyCons(order, k, s[0], t);
      WithKeyCons(order, k, m, rest);
      WithKeyCons(order, k, m, s);
      WithKeyCons(order, k, s[0], rest);
      var w := WithKey(order, k, rest);
      assert [] + w == w && [] + ([s[0]] + w) == [s[0]] + w && [] + ([m] + w) == [m] + w;
    }
  }

  lemma {:induction false} StableSortPermutes(order: Order, s: seq<Message>)
    ensures multiset(StableSort(order, s)) == multiset(s)
  {
    if s != [] {
      StableSortPermutes(order, s[1..]);
      InsertPermutes(order, s[0], StableSort(order, s[1..]));
      HeadAndTail(s);
      MultisetCons(s[0], s[1..]);
    }
  }

  lemma {:induction false} StableSortSorts(order: Order, s: seq<Message>)
    ensures Sorted(order, StableSort(order, s))
  {
    if s != [] {
      StableSortSorts(order, s[1..]);
      InsertSorted(order, s[0], StableSort(order, s[1..]));
    }
  }

  lemma {:induction false} StableSortIsStable(order: Order, s: seq<Message>, k: nat)
    ensures WithKey(order, k, StableSort(order, s)) == WithKey(order, k, s)
  {
    hide Key;
    if s != [] {
      var t := StableSort(order, s[1..]);
      StableSortIsStable(order, s[1..], k);
      InsertKeepsClasses(order, s[0], t, k);
      WithKeyCons(order, k, s[0], t);
    }
  }

  lemma {:induction false} SortedIsFixed(order: Order, s: seq<Message>)
    requires Sorted(order, s)
    ensures StableSort(order, s) == s
  {
    if s != [] {
      SortedIsFixed(order, s[1..]);
    }
  }

  // ----- one run of user and tool messages -----

  function Tools(run: seq<Message>): seq<Message>
  {
    if run == [] then [] else (if IsTool(run[0]) then [run[0]] else []) + Tools(run[1..])
  }

  /** The run with its tool messages replaced, in order, by `ts`. */
  function Refill(run: seq<Message>, ts: seq<Message>): (r: seq<Message>)
    requires |ts| == |Tools(run)|
    ensures |r| == |run|
  {
    if run == [] then []
    else if IsTool(run[0]) then [ts[0]] + Refill(run[1..], ts[1..])
    else [run[0]] + Refill(run[1..], ts)
  }

  function SortRun(order: Order, run: seq<Message>): (r: seq<Message>)
    ensures |r| == |run|
  {
    if |Tools(run)| > 1 && order != map[] then Refill(run, StableSort(order, Tools(run))) else run
  }

  function RunLen(ms: seq<Message>): (n: nat)
    ensures n <= |ms| && (forall i :: 0 <= i < n ==> InRun(ms[i])) && (n < |ms| ==> !InRun(ms[n]))
  {
    if ms == [] || !InRun(ms[0]) then 0 else 1 + RunLen(ms[1..])
  }

  /** The rest of the conversation, given the call order in force. */
  function SortFrom(order: Order, ms: seq<Message>): (r: seq<Message>)
    ensures |r| == |ms|
    decreases |ms|
  {
    if ms == [] then []
    else if MakesCalls(ms[0]) then [ms[0]] + SortFrom(OrderOf(ms[0].calls), ms[1..])
    else if !InRun(ms[0]) then [ms[0]] + SortFrom(order, ms[1..])
    else
      var n := RunLen(ms);
      SortRun(order, ms[..n]) + SortFrom(order, ms[n..])
  }

  function SortToolResults(ms: seq<Message>): seq<Message>
  {
    SortFrom(map[], ms)
  }

  lemma {:induction false} AllTools(run: seq<Message>)
    ensures |Tools(run)| <= |run| && forall i :: 0 <= i < |Tools(run)| ==> IsTool(Tools(run)[i])
  {
    if run != [] {
      AllTools(run[1..]);
    }
  }

  lemma ToolsCons(run: seq<Message>)
    requires run != []
    ensures Tools(run) == if IsTool(run[0]) then [run[0]] + Tools(run[1..]) else Tools(run[1..])
  {
  }

  lemma {:induction false} RefillWithOwn(run: seq<Message>)
    ensures Refill(run, Tools(run)) == run
  {
    if run != [] {
      RefillWithOwn(run[1..]);
      ToolsCons(run);
      assert run == [run[0]] + run[1..];
      if IsTool(run[0]) {
        assert Tools(run)[1..] == Tools(run[1..]);
      }
    }
  }

  /** What refilling changes: the tool messages become `ts`, nothing else moves. */
  lemma {:induction false} RefillTools(run: seq<Message>, ts: seq<Message>)
    requires |ts| == |Tools(run)| && forall i :: 0 <= i < |ts| ==> IsTool(ts[i])
    ensures var r := Refill(run, ts);
            && Tools(r) == ts
            && forall i :: 0 <= i < |run| ==> IsTool(r[i]) == IsTool(run[i]) && (!IsTool(run[i]) ==> r[i] == run[i])
    decreases |run|
  {
    hide IsTool;
    if run == [] {
      assert ts == [];
    } else {
      var rest := run[1..];
      var ts' := if IsTool(run[0]) then ts[1..] else ts;
      RefillTools(rest, ts');
      var r, r' := Refill(run, ts), Refill(rest, ts');
      assert r == [if IsTool(run[0]) then ts[0] else run[0]] + r' && r[1..] == r';
      assert IsTool(run[0]) ==> ts == [ts[0]] + ts[1..];
      forall i | 0 < i < |run|
        ensures IsTool(r[i]) == IsTool(run[i]) && (!IsTool(run[i]) ==> r[i] == run[i])
      {
        assert r[i] == r'[i - 1] && run[i] == rest[i - 1];
      }
    }
  }

  /** Refilling with a rearrangement of the tool messages rearranges the run. */
  lemma {:induction false} RefillPermutes(run: seq<Message>, ts: seq<Message>)
    requires |ts| == |Tools(run)|
    ensures multiset(Refill(run, ts)) + multiset(Tools(run)) == multiset(run) + multiset(ts)
    decreases |run|
  {
    if run == [] {
      assert ts == [];
    } else {
      RefillCons(run, ts);
      ToolsCons(run);
      HeadAndTail(run);
      hide *;
      if IsTool(run[0]) {
        HeadAndTail(ts);
        RefillPermutes(run[1..], ts[1..]);
        SwapHeads(ts[0], run[0], Refill(run[1..], ts[1..]), Tools(run[1..]), run[1..], ts[1..]);
      } else {
        RefillPermutes(run[1..], ts);
        SameHeads(run[0], Refill(run[1..], ts), Tools(run[1..]), run[1..], ts);
      }
    }
  }

  lemma MultisetCons<T>(h: T, t: seq<T>)
    ensures multiset([h] + t) == multiset{h} + multiset(t)
  {
  }

  lemma SwapHeads<T>(x: T, y: T, a: seq<T>, b: seq<T>, c: seq<T>, d: seq<T>)
    requires multiset(a) + multiset(b) == multiset(c) + multiset(d)
    ensures multiset([x] + a) + multiset([y] + b) == multiset([y] + c) + multiset([x] + d)
  {
    MultisetCons(x, a);
    MultisetCons(y, b);
    MultisetCons(y, c);
    MultisetCons(x, d);
    Exchange(multiset{x}, multiset{y}, multiset(a), multiset(b), multiset(c), multiset(d));
  }

  lemma SameHeads<T>(x: T, a: seq<T>, b: seq<T>, c: seq<T>, d: seq<T>)
    requires multiset(a) + multiset(b) == multiset(c) + multiset(d)
    ensures multiset([x] + a) + multiset(b) == multiset([x] + c) + multiset(d)
  {
    MultisetCons(x, a);
    MultisetCons(x, c);
    Exchange(multiset{x}, multiset{}, multiset(a), multiset(b), multiset(c), multiset(d));
  }

  lemma Exchange<T>(x: multiset<T>, y: multiset<T>, a: multiset<T>, b: multiset<T>, c: multiset<T>, d: multiset<T>)
    requires a + b == c + d
    ensures (x + a) + (y + b) == (y + c) + (x + d)
    ensures (x + a) + b == (x + c) + d
  {
    assert (x + a) + (y + b) == (x + y) + (a + b);
    assert (y + c) + (x + d) == (x + y) + (c + d);
    assert (x + a) + b == x + (a + b) && (x + c) + d == x + (c + d);
  }

  lemma Cancel<T>(a: multiset<T>, b: multiset<T>, c: multiset<T>)
    requires a + c == b + c
    ensures a == b
  {
    assert (a + c) - c == a && (b + c) - c == b;
  }

  // ----- what sorting a conversation keeps -----

  /** A tool message may be replaced by another one; any other message stays. */
  predicate Moved(m: Message, r: Message)
  {
    IsTool(r) == IsTool(m) && (!IsTool(m) ==> r == m)
  }

  predicate OnlyToolsMoved(ms: seq<Message>, rs: seq<Message>)
  {
    |ms| == |rs| && forall i :: 0 <= i < |ms| ==> Moved(ms[i], rs[i])
  }

  lemma MovedConcat(a: seq<Message>, b: seq<Message>, a': seq<Message>, b': seq<Message>)
    requires OnlyToolsMoved(a, a') && OnlyToolsMoved(b, b')
    ensures OnlyToolsMoved(a + b, a' + b')
  {
    hide Moved;
  }

  /** Sorting a run permutes it, leaves every message that is not a tool result in place,
      orders the results by key and keeps the order of results with equal keys. */
  lemma SortRunCorrect(order: Order, run: seq<Message>, k: nat)
    ensures var r := SortRun(order, run);
            && multiset(r) == multiset(run)
            && OnlyToolsMoved(run, r)
            && Sorted(order, Tools(r))
            && WithKey(order, k, Tools(r)) == WithKey(order, k, Tools(run))
  {
    hide IsTool, Tools, Refill, StableSort;
    var ts := Tools(run);
    if |ts| > 1 && order != map[] {
      var sorted := StableSort(order, ts);
      StableSortPermutes(order, ts);
      StableSortSorts(order, ts);
      StableSortIsStable(order, ts, k);
      AllTools(run);
      forall i | 0 <= i < |sorted|
        ensures IsTool(sorted[i])
      {
        assert sorted[i] in multiset(sorted);
        assert sorted[i] in ts;
      }
      RefillTools(run, sorted);
      RefillPermutes(run, sorted);
      Cancel(multiset(Refill(run, sorted)), multiset(run), multiset(ts));
    } else {
      assert order == map[] ==> forall i :: 0 <= i < |ts| ==> Key(order, ts[i]) == 0;
    }
  }

  lemma SortRunIdempotent(order: Order, run: seq<Message>)
    ensures SortRun(order, SortRun(order, run)) == SortRun(order, run)
  {
    hide Tools, Refill, StableSort;
    var r := SortRun(order, run);
    SortRunCorrect(order, run, 0);
    SortedIsFixed(order, Tools(r));
    RefillWithOwn(r);
  }

  /** The run lengths of a conversation depend on the roles only. */
  lemma {:induction false} RunLenByRole(ms: seq<Message>, rs: seq<Message>)
    requires |ms| == |rs| && forall i :: 0 <= i < |ms| ==> InRun(ms[i]) == InRun(rs[i])
    ensures RunLen(ms) == RunLen(rs)
  {
    if ms != [] && InRun(ms[0]) {
      RunLenByRole(ms[1..], rs[1..]);
    }
  }

  /** Only tool messages move, and the roles stay where they are. */
  lemma {:induction false} OnlyToolsMove(order: Order, ms: seq<Message>)
    ensures OnlyToolsMoved(ms, SortFrom(order, ms))
    decreases |ms|
  {
    hide IsTool, InRun, MakesCalls, SortRun, OrderOf, RunLen, OnlyToolsMoved;
    if ms == [] {
      NothingMoved();
    } else if MakesCalls(ms[0]) || !InRun(ms[0]) {
      var order' := if MakesCalls(ms[0]) then OrderOf(ms[0].calls) else order;
      OnlyToolsMove(order', ms[1..]);
      OneStays(ms[0]);
      MovedConcat([ms[0]], ms[1..], [ms[0]], SortFrom(order', ms[1..]));
      assert ms == [ms[0]] + ms[1..];
    } else {
      var n := RunLen(ms);
      RunIsNotEmpty(ms);
      SortRunCorrect(order, ms[..n], 0);
      OnlyToolsMove(order, ms[n..]);
      MovedConcat(ms[..n], ms[n..], SortRun(order, ms[..n]), SortFrom(order, ms[n..]));
      assert ms == ms[..n] + ms[n..];
    }
  }

  lemma NothingMoved()
    ensures OnlyToolsMoved([], [])
  {
  }

  lemma OneStays(m: Message)
    ensures OnlyToolsMoved([m], [m])
  {
  }

  lemma RunIsNotEmpty(ms: seq<Message>)
    requires ms != [] && InRun(ms[0])
    ensures RunLen(ms) > 0
  {
  }

  /** Sorting a sorted conversation changes nothing. */
  lemma {:induction false} SortIdempotentFrom(order: Order, ms: seq<Message>)
    ensures SortFrom(order, SortFrom(order, ms)) == SortFrom(order, ms)
    decreases |ms|
  {
    hide IsTool, InRun, MakesCalls, SortRun, OrderOf, RunLen;
    if ms != [] {
      var r := SortFrom(order, ms);
      if MakesCalls(ms[0]) || !InRun(ms[0]) {
        var order' := if MakesCalls(ms[0]) then OrderOf(ms[0].calls) else order;
        SortIdempotentFrom(order', ms[1..]);
        assert r[0] == ms[0] && r[1..] == SortFrom(order', ms[1..]);
      } else {
        RunStaysFirst(order, ms);
        var n := RunLen(ms);
        SortRunIdempotent(order, ms[..n]);
        SortIdempotentFrom(order, ms[n..]);
        assert r[..n] == SortRun(order, ms[..n]) && r[n..] == SortFrom(order, ms[n..]);
      }
    }
  }

  lemma RunStaysFirst(order: Order, ms: seq<Message>)
    requires ms != [] && !MakesCalls(ms[0]) && InRun(ms[0])
    ensures var r := SortFrom(order, ms);
            RunLen(ms) > 0 && RunLen(r) == RunLen(ms) && !MakesCalls(r[0]) && InRun(r[0])
  {
    hide SortFrom, SortRun, RunLen;
    var r := SortFrom(order, ms);
    OnlyToolsMove(order, ms);
    RunIsNotEmpty(ms);
    forall i | 0 <= i < |ms|
      ensures InRun(ms[i]) == InRun(r[i])
    {
      assert Moved(ms[i], r[i]);
    }
    RunLenByRole(ms, r);
    assert Moved(ms[0], r[0]);
  }

  lemma SortIdempotent(ms: seq<Message>)
    ensures SortToolResults(SortToolResults(ms)) == SortToolResults(ms)
  {
    SortIdempotentFrom(map[], ms);
  }

  // ----- a position, its run, and the order in force there -----

  /** The call order in force at the start of `ms[i..]`: that of the latest message before
      `i` that makes calls. */
  function OrderAt(order: Order, ms: seq<Message>, i: nat): Order
    requires i <= |ms|
  {
    if i == 0 then order
    else if MakesCalls(ms[i - 1]) then OrderOf(ms[i - 1].calls)
    else OrderAt(order, ms, i - 1)
  }

  /** `s` up to `e` is a maximal run of user and tool messages. */
  predicate MaximalRun(ms: seq<Message>, s: nat, e: nat)
  {
    && s < e <= |ms| && (forall i :: s <= i < e ==> InRun(ms[i]))
    && (s > 0 ==> !InRun(ms[s - 1])) && (e < |ms| ==> !InRun(ms[e]))
  }

  /** Every maximal run is sorted on its own, by the order in force where it starts. */
  lemma {:induction false} EachRunSorted(order: Order, ms: seq<Message>, s: nat, e: nat)
    requires MaximalRun(ms, s, e)
    ensures SortFrom(order, ms)[s..e] == SortRun(OrderAt(order, ms, s), ms[s..e])
    decreases |ms|
  {
    hide InRun, MakesCalls, SortFrom, SortRun, OrderOf, RunLen, MaximalRun, OrderAt;
    RunFacts(ms, s, e);
    if s == 0 {
      FirstRunSorted(order, ms, e);
    } else if MakesCalls(ms[0]) || !InRun(ms[0]) {
      var order' := if MakesCalls(ms[0]) then OrderOf(ms[0].calls) else order;
      RunInTail(ms, 1, s, e);
      EachRunSorted(order', ms[1..], s - 1, e - 1);
      AfterOther(order, ms);
      OrderInTail(order, ms, 1, s);
      SameSlices(SortFrom(order, ms), SortFrom(order', ms[1..]), ms, 1, s, e);
    } else {
      var n := RunLen(ms);
      RunEndsBefore(ms, s, e);
      RunInTail(ms, n, s, e);
      AfterRun(order, ms);
      EachRunSorted(order, ms[n..], s - n, e - n);
      OrderInTail(order, ms, n, s);
      SameSlices(SortFrom(order, ms), SortFrom(order, ms[n..]), ms, n, s, e);
    }
  }

  lemma SameSlices(r: seq<Message>, tail: seq<Message>, ms: seq<Message>, n: nat, s: nat, e: nat)
    requires |r| == |ms| && n <= s <= e <= |ms| && r[n..] == tail
    ensures r[s..e] == tail[s - n..e - n] && ms[s..e] == ms[n..][s - n..e - n]
  {
    SliceOfTail(r, n, s, e);
    SliceOfTail(ms, n, s, e);
  }

  lemma SliceOfTail<T>(a: seq<T>, n: nat, s: nat, e: nat)
    requires n <= s <= e <= |a|
    ensures a[s..e] == a[n..][s - n..e - n]
  {
    var b := a[n..];
    assert forall i :: 0 <= i < e - s ==> a[s..e][i] == b[s - n..e - n][i];
  }

  lemma FirstRunSorted(order: Order, ms: seq<Message>, e: nat)
    requires MaximalRun(ms, 0, e)
    ensures SortFrom(order, ms)[0..e] == SortRun(OrderAt(order, ms, 0), ms[0..e])
  {
    hide SortRun, OrderOf, RunLen;
    RunIsNotEmpty(ms);
    RunLenIs(ms, e);
    assert ms[0..e] == ms[..e];
  }

  lemma AfterOther(order: Order, ms: seq<Message>)
    requires ms != [] && (MakesCalls(ms[0]) || !InRun(ms[0]))
    ensures var order' := if MakesCalls(ms[0]) then OrderOf(ms[0].calls) else order;
            SortFrom(order, ms)[1..] == SortFrom(order', ms[1..]) && OrderAt(order, ms, 1) == order'
  {
    hide SortRun, OrderOf, RunLen;
  }

  lemma AfterRun(order: Order, ms: seq<Message>)
    requires ms != [] && !MakesCalls(ms[0]) && InRun(ms[0])
    ensures var n := RunLen(ms);
            n > 0 && SortFrom(order, ms)[n..] == SortFrom(order, ms[n..]) && OrderAt(order, ms, n) == order
  {
    var n := RunLen(ms);
    RunIsNotEmpty(ms);
    OrderOverRun(order, ms, n);
    hide SortRun, OrderOf, RunLen;
    assert SortFrom(order, ms) == SortRun(order, ms[..n]) + SortFrom(order, ms[n..]);
  }

  lemma RunFacts(ms: seq<Message>, s: nat, e: nat)
    requires MaximalRun(ms, s, e)
    ensures s < e <= |ms| && InRun(ms[s]) && !MakesCalls(ms[s])
    ensures s == 0 ==> (forall i :: 0 <= i < e ==> InRun(ms[i])) && (e < |ms| ==> !InRun(ms[e]))
  {
  }

  lemma RunLenIs(ms: seq<Message>, e: nat)
    requires e <= |ms| && (forall i :: 0 <= i < e ==> InRun(ms[i])) && (e < |ms| ==> !InRun(ms[e]))
    ensures RunLen(ms) == e
  {
    hide RunLen;
  }

  lemma RunInTail(ms: seq<Message>, n: nat, s: nat, e: nat)
    requires MaximalRun(ms, s, e) && n <= s
    ensures MaximalRun(ms[n..], s - n, e - n)
  {
  }

  lemma RunEndsBefore(ms: seq<Message>, s: nat, e: nat)
    requires MaximalRun(ms, s, e) && s > 0
    ensures RunLen(ms) < s
  {
    hide RunLen;
    assert !InRun(ms[s - 1]);
  }

  lemma {:induction false} OrderInTail(order: Order, ms: seq<Message>, n: nat, i: nat)
    requires n <= i <= |ms|
    ensures OrderAt(order, ms, i) == OrderAt(OrderAt(order, ms, n), ms[n..], i - n)
    decreases i - n
  {
    if n < i {
      OrderInTail(order, ms, n, i - 1);
      assert ms[n..][i - n - 1] == ms[i - 1];
    }
  }

  lemma {:induction false} OrderOverRun(order: Order, ms: seq<Message>, n: nat)
    requires n <= |ms| && forall i :: 0 <= i < n ==> InRun(ms[i])
    ensures OrderAt(order, ms, n) == order
  {
    if n > 0 {
      OrderOverRun(order, ms, n - 1);
    }
  }

  /** The whole conversation is permuted. */
  lemma {:induction false} SortPermutes(order: Order, ms: seq<Message>)
    ensures multiset(SortFrom(order, ms)) == multiset(ms)
    decreases |ms|
  {
    hide InRun, MakesCalls, SortRun, OrderOf, RunLen;
    if ms != [] {
      if MakesCalls(ms[0]) || !InRun(ms[0]) {
        SortPermutes(if MakesCalls(ms[0]) then OrderOf(ms[0].calls) else order, ms[1..]);
        HeadAndTail(ms);
        MultisetCons(ms[0], ms[1..]);
      } else {
        var n := RunLen(ms);
        RunIsNotEmpty(ms);
        SortRunCorrect(order, ms[..n], 0);
        SortPermutes(order, ms[n..]);
        assert ms == ms[..n] + ms[n..];
      }
    }
  }

  // ----- sorting in place -----

  /** The positions of the tool messages of a run. */
  function Slots(run: seq<Message>): seq<nat>
  {
    if run == [] then []
    else
      var n := |run| - 1;
      Slots(run[..n]) + if IsTool(run[n]) then [n] else []
  }

  predicate Increasing(p: seq<nat>, n: nat)
  {
    (forall i :: 0 <= i < |p| ==> p[i] < n) && forall i, j :: 0 <= i < j < |p| ==> p[i] < p[j]
  }

  lemma {:induction false} ToolsSnoc(run: seq<Message>, m: Message)
    ensures Tools(run + [m]) == Tools(run) + if IsTool(m) then [m] else []
  {
    hide IsTool;
    ToolsCons(run + [m]);
    if run == [] {
      assert run + [m] == [m] && [m][1..] == [] && Tools([]) == [];
    } else {
      assert (run + [m])[1..] == run[1..] + [m] && (run + [m])[0] == run[0];
      ToolsSnoc(run[1..], m);
      ToolsCons(run);
    }
  }

  lemma {:induction false} SlotsIncrease(run: seq<Message>)
    ensures Increasing(Slots(run), |run|)
  {
    hide IsTool;
    if run != [] {
      SlotsIncrease(run[..|run| - 1]);
    }
  }

  lemma {:induction false} SlotsMembers(run: seq<Message>, j: nat)
    requires j < |run|
    ensures j in Slots(run) <==> IsTool(run[j])
  {
    hide IsTool;
    var n := |run| - 1;
    SlotsIncrease(run[..n]);
    if j < n {
      SlotsMembers(run[..n], j);
    }
  }

  lemma {:induction false} SlotsOfTools(run: seq<Message>)
    ensures Increasing(Slots(run), |run|) && |Slots(run)| == |Tools(run)|
    ensures forall k :: 0 <= k < |Slots(run)| ==> Tools(run)[k] == run[Slots(run)[k]]
  {
    hide Tools, IsTool, Increasing;
    SlotsIncrease(run);
    assert forall k :: 0 <= k < |Slots(run)| ==> Slots(run)[k] < |run| by { InRange(Slots(run), |run|); }
    if run == [] {
      NoTools();
    } else {
      var n := |run| - 1;
      SlotsOfTools(run[..n]);
      ToolsSnoc(run[..n], run[n]);
      assert run == run[..n] + [run[n]];
      SlotsIncrease(run[..n]);
      InRange(Slots(run[..n]), n);
      forall k | 0 <= k < |Slots(run)|
        ensures Tools(run)[k] == run[Slots(run)[k]]
      {
        if k < |Slots(run[..n])| {
          assert Slots(run)[k] == Slots(run[..n])[k] && Tools(run)[k] == Tools(run[..n])[k];
        }
      }
    }
  }

  lemma InRange(p: seq<nat>, n: nat)
    requires Increasing(p, n)
    ensures forall i :: 0 <= i < |p| ==> p[i] < n
  {
  }

  lemma NoTools()
    ensures Tools([]) == []
  {
  }

  lemma RefillCons(run: seq<Message>, ts: seq<Message>)
    requires run != [] && |ts| == |Tools(run)|
    ensures if IsTool(run[0])
            then |ts| == |Tools(run[1..])| + 1 && Refill(run, ts) == [ts[0]] + Refill(run[1..], ts[1..])
            else |ts| == |Tools(run[1..])| && Refill(run, ts) == [run[0]] + Refill(run[1..], ts)
  {
  }

  /** `r` is `run` with `ts` in its slots. */
  predicate FillsSlots(run: seq<Message>, ts: seq<Message>, r: seq<Message>)
  {
    && |ts| == |Slots(run)| && |r| == |run|
    && (forall j :: 0 <= j < |run| && !IsTool(run[j]) ==> r[j] == run[j])
    && forall k :: 0 <= k < |ts| ==> Slots(run)[k] < |r| && r[Slots(run)[k]] == ts[k]
  }

  lemma FillsTail(run: seq<Message>, ts: seq<Message>, r: seq<Message>)
    requires run != [] && FillsSlots(run, ts, r)
    ensures if IsTool(run[0]) then ts != [] && r[0] == ts[0] && FillsSlots(run[1..], ts[1..], r[1..])
            else r[0] == run[0] && FillsSlots(run[1..], ts, r[1..])
  {
    hide Slots, IsTool;
    var rest, tail := run[1..], r[1..];
    SlotsTail(run);
    SlotsIncrease(rest);
    var shift := if IsTool(run[0]) then 1 else 0;
    var ts' := ts[shift..];
    forall k | 0 <= k < |ts'|
      ensures Slots(rest)[k] < |tail| && tail[Slots(rest)[k]] == ts'[k]
    {
      assert Slots(run)[k + shift] == Slots(rest)[k] + 1;
      assert r[Slots(run)[k + shift]] == ts[k + shift];
    }
    assert ts[0..] == ts;
  }

  /** Refilling is characterised by what it puts into the slots. */
  lemma {:induction false} RefillSlots(run: seq<Message>, ts: seq<Message>, r: seq<Message>)
    requires |ts| == |Tools(run)| && FillsSlots(run, ts, r)
    ensures r == Refill(run, ts)
    decreases |run|
  {
    hide IsTool, Slots, Tools, FillsSlots, Refill;
    assert |r| == |run| by { FillsLength(run, ts, r); }
    if run == [] {
      assert r == [];
    } else {
      FillsTail(run, ts, r);
      RefillCons(run, ts);
      RefillSlots(run[1..], if IsTool(run[0]) then ts[1..] else ts, r[1..]);
      assert r == [r[0]] + r[1..];
    }
  }

  lemma FillsLength(run: seq<Message>, ts: seq<Message>, r: seq<Message>)
    requires FillsSlots(run, ts, r)
    ensures |r| == |run|
  {
  }

  lemma {:induction false} SlotsTail(run: seq<Message>)
    requires run != []
    ensures var shift := if IsTool(run[0]) then 1 else 0;
            && |Slots(run)| == |Slots(run[1..])| + shift
            && (shift == 1 ==> Slots(run)[0] == 0)
            && forall k :: 0 <= k < |Slots(run[1..])| ==> Slots(run)[k + shift] == Slots(run[1..])[k] + 1
    decreases |run|
  {
    hide IsTool;
    var n := |run| - 1;
    if n == 0 {
      assert run[..0] == [] && run[1..] == [];
    } else {
      SlotsTail(run[..n]);
      assert run[..n][1..] == run[1..][..n - 1] && run[1..][n - 1] == run[n];
    }
  }

  method OrderOfCalls(calls: seq<string>) returns (order: Order)
    ensures order == OrderOf(calls)
  {
    order := map[];
    for idx := 0 to |calls|
      invariant order == OrderOf(calls[..idx])
    {
      assert calls[..idx + 1][..idx] == calls[..idx];
      if calls[idx] != "" {
        order := order[calls[idx] := idx];
      }
    }
    assert calls[..|calls|] == calls;
  }

  /** The first `k` of `ts` have been put into their slots. */
  predicate PartFilled(run: seq<Message>, slots: seq<nat>, ts: seq<Message>, k: nat, r: seq<Message>)
  {
    && |r| == |run| && k <= |slots| == |ts| && Increasing(slots, |run|)
    && (forall j :: 0 <= j < k ==> r[slots[j]] == ts[j])
    && forall j :: 0 <= j < |run| && j !in slots ==> r[j] == run[j]
  }

  lemma FillOne(run: seq<Message>, slots: seq<nat>, ts: seq<Message>, k: nat, r: seq<Message>)
    requires PartFilled(run, slots, ts, k, r) && k < |slots|
    ensures slots[k] < |r| && PartFilled(run, slots, ts, k + 1, r[slots[k] := ts[k]])
  {
  }

  lemma AllFilled(run: seq<Message>, ts: seq<Message>, r: seq<Message>)
    requires |ts| == |Tools(run)| && PartFilled(run, Slots(run), ts, |ts|, r)
    ensures r == Refill(run, ts)
  {
    hide Slots, IsTool, Tools, Refill;
    forall j | 0 <= j < |run| && !IsTool(run[j])
      ensures r[j] == run[j]
    {
      SlotsMembers(run, j);
    }
    RefillSlots(run, ts, r);
  }

  /** One maximal run `a[i..e]`: its tool messages are taken out, sorted, and put back. */
  method SortRunInPlace(a: array<Message>, i: nat, e: nat, slots: seq<nat>, order: Order)
    requires i <= e <= a.Length && slots == Slots(a[i..e])
    modifies a
    ensures a[..i] == old(a[..i]) && a[e..] == old(a[e..]) && a[i..e] == SortRun(order, old(a[i..e]))
  {
    hide StableSort, Tools, Slots, Refill, PartFilled;
    ghost var run := a[i..e];
    SlotsOfTools(run);
    if |slots| > 1 && order != map[] {
      var results := seq(|slots|, k requires 0 <= k < |slots| reads a => a[i..e][slots[k]]);
      assert results == Tools(run);
      results := StableSort(order, results);
      NoneFilled(run, slots, results);
      for k := 0 to |slots|
        invariant a[..i] == old(a[..i]) && a[e..] == old(a[e..]) && PartFilled(run, slots, results, k, a[i..e])
      {
        FillOne(run, slots, results, k, a[i..e]);
        ghost var before := a[i..e];
        a[i + slots[k]] := results[k];
        assert a[i..e] == before[slots[k] := results[k]];
      }
      AllFilled(run, results, a[i..e]);
    }
  }

  lemma NoneFilled(run: seq<Message>, slots: seq<nat>, ts: seq<Message>)
    requires Increasing(slots, |run|) && |ts| == |slots|
    ensures PartFilled(run, slots, ts, 0, run)
  {
  }

  /** The run that starts at `i`. */
  method SortNextRun(a: array<Message>, i: nat, order: Order) returns (e: nat)
    requires i < a.Length && InRun(a[i])
    modifies a
    ensures i < e <= a.Length && e - i == RunLen(old(a[i..]))
    ensures a[..e] == old(a[..i]) + SortRun(order, old(a[i..])[..e - i]) && a[e..] == old(a[i..])[e - i..]
  {
    hide SortRun, RunLen, Slots;
    ghost var rest := a[i..];
    var slots;
    e, slots := FindRun(a, i);
    assert a[i..e] == rest[..e - i] && a[e..] == rest[e - i..];
    SortRunInPlace(a, i, e, slots, order);
    assert a[..e] == a[..i] + a[i..e];
  }

  method SortInPlace(a: array<Message>)
    modifies a
    ensures a[..] == SortToolResults(old(a[..]))
  {
    hide SortRun, OrderOf, RunLen, MakesCalls, InRun, SortFrom;
    ghost var ms := a[..];
    var order: Order := map[];
    var i := 0;
    assert a[0..] == ms && a[..0] == [];
    while i < a.Length
      invariant 0 <= i <= a.Length
      invariant a[..i] + SortFrom(order, a[i..]) == SortToolResults(ms)
    {
      ghost var rest, done := a[i..], a[..i];
      var m := a[i];
      assert m == rest[0];
      SortFromOnce(order, rest);
      if MakesCalls(m) {
        order := OrderOfCalls(m.calls);
        StepOver(a, i, rest, order);
        i := i + 1;
      } else if !InRun(m) {
        StepOver(a, i, rest, order);
        i := i + 1;
      } else {
        var e := SortNextRun(a, i, order);
        ConcatAssociates(done, SortRun(order, rest[..e - i]), SortFrom(order, rest[e - i..]));
        i := e;
      }
    }
    assert a[i..] == [] && a[..i] == a[..] && a[..] + [] == a[..];
    NothingLeft(order);
  }

  lemma SortFromOnce(order: Order, ms: seq<Message>)
    requires ms != []
    ensures var n := RunLen(ms);
            SortFrom(order, ms) ==
            if MakesCalls(ms[0]) then [ms[0]] + SortFrom(OrderOf(ms[0].calls), ms[1..])
            else if !InRun(ms[0]) then [ms[0]] + SortFrom(order, ms[1..])
            else SortRun(order, ms[..n]) + SortFrom(order, ms[n..])
  {
  }

  lemma NothingLeft(order: Order)
    ensures SortFrom(order, []) == []
  {
  }

  lemma StepOver(a: array<Message>, i: nat, rest: seq<Message>, order: Order)
    requires i < a.Length && a[i..] == rest
    ensures a[i + 1..] == rest[1..]
    ensures a[..i] + ([rest[0]] + SortFrom(order, rest[1..])) == a[..i + 1] + SortFrom(order, rest[1..])
  {
    hide SortFrom;
    assert a[i..][1..] == a[i + 1..] && a[..i + 1] == a[..i] + [rest[0]];
  }

  lemma NoSlots()
    ensures Slots([]) == []
  {
  }

  lemma SlotsSnoc(run: seq<Message>, m: Message)
    ensures Slots(run + [m]) == Slots(run) + if m.role == "tool" then [|run|] else []
  {
    assert (run + [m])[..|run|] == run;
  }

  /** The end of the run that starts at `i`, and the positions of its tool messages. */
  method FindRun(a: array<Message>, i: nat) returns (e: nat, slots: seq<nat>)
    requires i < a.Length && InRun(a[i])
    ensures i < e <= a.Length && e - i == RunLen(a[i..]) && slots == Slots(a[i..e])
  {
    hide RunLen, InRun, Slots;
    e, slots := i, [];
    NoSlots();
    assert a[i..i] == [];
    while e < a.Length && InRun(a[e])
      invariant i <= e <= a.Length && slots == Slots(a[i..e])
      invariant forall j :: i <= j < e ==> InRun(a[j])
    {
      assert a[i..e + 1] == a[i..e] + [a[e]];
      SlotsSnoc(a[i..e], a[e]);
      if a[e].role == "tool" {
        slots := slots + [e - i];
      }
      e := e + 1;
    }
    RunLenIs(a[i..], e - i);
  }
}
