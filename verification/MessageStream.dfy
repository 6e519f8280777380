/** Streams of partial messages: folding their deltas, and stable tool-call ids
    (common/chat.cpp, lines 266-332; common/chat.h, lines 108-120). */
module MessageStream {
  import opened ChatMessage

  // ----- chains of messages -----

  /** Each message extends the one before it. */
  ghost predicate Chain(ms: seq<Msg>)
  {
    forall i :: 0 <= i < |ms| - 1 ==> Extends(ms[i], ms[i + 1])
  }

  lemma ExtendsReflexive(m: Msg)
    ensures Extends(m, m)
  {
  }

  lemma ExtendsTransitive(a: Msg, b: Msg, c: Msg)
    requires Extends(a, b) && Extends(b, c)
    ensures Extends(a, c)
  {
    var n := |a.calls|;
    forall i | 0 <= i < n - 1
      ensures a.calls[i] == c.calls[i]
    {
      assert a.calls[i] == b.calls[i];
      assert i < |b.calls| - 1;
    }
    if n > 0 && n < |b.calls| {
      assert b.calls[n - 1] == c.calls[n - 1];
    }
  }

  lemma {:induction false} ChainExtends(ms: seq<Msg>, i: nat, j: nat)
    requires Chain(ms) && i <= j < |ms|
    ensures Extends(ms[i], ms[j])
    decreases j - i
  {
    if i == j {
      ExtendsReflexive(ms[i]);
    } else {
      ChainExtends(ms, i, j - 1);
      assert Extends(ms[j - 1], ms[j - 1 + 1]);
      ExtendsTransitive(ms[i], ms[j - 1], ms[j]);
    }
  }

  // ----- folding deltas -----

  /** All deltas emitted while the stream moves through `ms`. */
  function Deltas(ms: seq<Msg>): Result<seq<Diff>>
  {
    if |ms| <= 1 then Ok([])
    else
      var before :- Deltas(ms[..|ms| - 1]);
      var d :- Diffs(ms[|ms| - 2], ms[|ms| - 1]);
      Ok(before + d)
  }

  lemma {:induction false} StreamRebuilds(ms: seq<Msg>)
    requires ms != [] && Chain(ms)
    ensures Deltas(ms).Ok? && ApplyAll(ms[0], Deltas(ms).value) == ms[|ms| - 1]
  {
    var n := |ms|;
    if n > 1 {
      var before := ms[..n - 1];
      assert Chain(before) by {
        forall i | 0 <= i < |before| - 1
          ensures Extends(before[i], before[i + 1])
        {
          assert Extends(ms[i], ms[i + 1]);
        }
      }
      StreamRebuilds(before);
      assert Extends(ms[n - 2], ms[n - 2 + 1]);
      DiffsRebuildExactly(ms[n - 2], ms[n - 1]);
      ApplyAppend(ms[0], Deltas(before).value, Diffs(ms[n - 2], ms[n - 1]).value);
    }
  }

  /** The messages a client sees when the stream is chunked at the positions `picks`. */
  function Select(ms: seq<Msg>, picks: seq<nat>): (r: seq<Msg>)
    requires forall i :: 0 <= i < |picks| ==> picks[i] < |ms|
    ensures |r| == |picks| && forall i :: 0 <= i < |picks| ==> r[i] == ms[picks[i]]
  {
    seq(|picks|, i requires 0 <= i < |picks| => ms[picks[i]])
  }

  /** However a stream that starts empty is chunked, the deltas fold to the last message. */
  lemma ChunkingIsIrrelevant(ms: seq<Msg>, picks: seq<nat>)
    requires ms != [] && Chain(ms) && picks != []
    requires forall i :: 0 <= i < |picks| ==> picks[i] < |ms|
    requires forall i, j :: 0 <= i < j < |picks| ==> picks[i] <= picks[j]
    requires ms[picks[0]] == EmptyMsg && picks[|picks| - 1] == |ms| - 1
    ensures var deltas := Deltas(Select(ms, picks));
            deltas.Ok? && ApplyAll(EmptyMsg, deltas.value) == ms[|ms| - 1]
  {
    var seen := Select(ms, picks);
    forall i | 0 <= i < |seen| - 1
      ensures Extends(seen[i], seen[i + 1])
    {
      ChainExtends(ms, picks[i], picks[i + 1]);
    }
    StreamRebuilds(seen);
  }

  // ----- tool-call ids -----

  /** The cache after a message with these calls has been seen. A generator is asked at
      most once for each slot, so `gen` gives its answer slot by slot. */
  function GrowIds(ids: seq<string>, calls: seq<ToolCall>, gen: nat -> string): (r: seq<string>)
    ensures ids <= r && |r| == if |ids| <= |calls| then |calls| else |ids|
    decreases |calls| - |ids|
  {
    var i := |ids|;
    if |calls| <= i then ids
    else GrowIds(ids + [if calls[i].id == "" then gen(i) else calls[i].id], calls, gen)
  }

  /** Where an id comes from: the cache, or the call itself when it is first seen, or the
      generator when it then has none. */
  lemma {:induction false} GrownIdIs(ids: seq<string>, calls: seq<ToolCall>, gen: nat -> string, i: nat)
    requires i < |calls|
    ensures GrowIds(ids, calls, gen)[i]
         == if i < |ids| then ids[i] else if calls[i].id != "" then calls[i].id else gen(i)
    decreases |calls| - |ids|
  {
    if |ids| <= i {
      var n := |ids|;
      GrownIdIs(ids + [if calls[n].id == "" then gen(n) else calls[n].id], calls, gen, i);
    }
  }

  function WithIds(calls: seq<ToolCall>, ids: seq<string>): (r: seq<ToolCall>)
    requires |calls| <= |ids|
    ensures |r| == |calls|
    ensures forall i :: 0 <= i < |r| ==> r[i] == ToolCall(calls[i].name, calls[i].arguments, ids[i])
  {
    seq(|calls|, i requires 0 <= i < |calls| => calls[i].(id := ids[i]))
  }

  class IdsCache {
    var ids: seq<string>

    constructor ()
      ensures ids == []
    {
      ids := [];
    }
  }

  class ChatMsg {
    var calls: seq<ToolCall>

    constructor (calls: seq<ToolCall>)
      ensures this.calls == calls
    {
      this.calls := calls;
    }

    method SetToolCallIds(cache: IdsCache, gen: nat -> string)
      modifies this, cache
      ensures cache.ids == GrowIds(old(cache.ids), old(calls), gen)
      ensures calls == WithIds(old(calls), cache.ids)
    {
      ghost var ids0, calls0 := cache.ids, calls;
      for i := 0 to |calls|
        invariant |calls| == |calls0| && i <= |cache.ids|
        invariant GrowIds(cache.ids, calls0, gen) == GrowIds(ids0, calls0, gen)
        invariant |cache.ids| > |ids0| ==> |cache.ids| <= i
        invariant forall j :: 0 <= j < i ==> calls[j] == calls0[j].(id := cache.ids[j])
        invariant forall j :: i <= j < |calls| ==> calls[j] == calls0[j]
      {
        if |cache.ids| <= i {
          var id := calls[i].id;
          if id == "" {
            id := gen(i);
          }
          cache.ids := cache.ids + [id];
        }
        calls := calls[i := calls[i].(id := cache.ids[i])];
      }
    }
  }

  /** The cache after a whole stream, and the stream with its ids assigned. */
  function FinalIds(ids: seq<string>, ms: seq<Msg>, gen: nat -> string): seq<string>
    decreases |ms|
  {
    if ms == [] then ids else FinalIds(GrowIds(ids, ms[0].calls, gen), ms[1..], gen)
  }

  function AssignIds(ids: seq<string>, ms: seq<Msg>, gen: nat -> string): (r: seq<Msg>)
    ensures |r| == |ms|
    decreases |ms|
  {
    if ms == [] then []
    else
      var ids' := GrowIds(ids, ms[0].calls, gen);
      [ms[0].(calls := WithIds(ms[0].calls, ids'))] + AssignIds(ids', ms[1..], gen)
  }

  /** Every message of the stream carries the ids of the final cache, so every call keeps
      the id it first received. */
  lemma {:induction false} IdsNeverChange(ids: seq<string>, ms: seq<Msg>, gen: nat -> string)
    ensures var final := FinalIds(ids, ms, gen);
            && ids <= final
            && forall i :: 0 <= i < |ms| ==>
                 && |ms[i].calls| <= |final|
                 && AssignIds(ids, ms, gen)[i] == ms[i].(calls := WithIds(ms[i].calls, final))
    decreases |ms|
  {
    if ms != [] {
      var ids' := GrowIds(ids, ms[0].calls, gen);
      IdsNeverChange(ids', ms[1..], gen);
      var final := FinalIds(ids, ms, gen);
      var rest := AssignIds(ids', ms[1..], gen);
      forall i | 0 <= i < |ms|
        ensures |ms[i].calls| <= |final|
        ensures AssignIds(ids, ms, gen)[i] == ms[i].(calls := WithIds(ms[i].calls, final))
      {
        if i == 0 {
          assert WithIds(ms[0].calls, ids') == WithIds(ms[0].calls, final);
        } else {
          assert ms[i] == ms[1..][i - 1] && AssignIds(ids, ms, gen)[i] == rest[i - 1];
        }
      }
    }
  }

  /** Equality of calls, leaving the ids aside. */
  predicate SameCall(a: ToolCall, b: ToolCall)
  {
    a.name == b.name && a.arguments == b.arguments
  }

  /** As `Extends`, leaving the ids aside. */
  ghost predicate Grows(prv: Msg, nxt: Msg)
  {
    && prv.content <= nxt.content
    && prv.reasoning <= nxt.reasoning
    && |prv.calls| <= |nxt.calls|
    && (forall i :: 0 <= i < |prv.calls| - 1 ==> SameCall(prv.calls[i], nxt.calls[i]))
    && (prv.calls != [] ==>
          var a, b := prv.calls[|prv.calls| - 1], nxt.calls[|prv.calls| - 1];
          a.name <= b.name && a.arguments <= b.arguments)
  }

  lemma GrowsWithIds(a: Msg, b: Msg, ids: seq<string>)
    requires Grows(a, b) && |b.calls| <= |ids|
    ensures Extends(a.(calls := WithIds(a.calls, ids)), b.(calls := WithIds(b.calls, ids)))
  {
    assert forall k :: 0 <= k < |a.calls| - 1 ==> SameCall(a.calls[k], b.calls[k]);
  }

  /** A stream whose texts only grow, given ids from one shared cache, is a chain: its
      deltas are all computed without error and fold to its last message. */
  lemma StreamWithIds(ms: seq<Msg>, gen: nat -> string)
    requires ms != [] && ms[0] == EmptyMsg
    requires forall i :: 0 <= i < |ms| - 1 ==> Grows(ms[i], ms[i + 1])
    ensures var sent := AssignIds([], ms, gen);
            && Chain(sent)
            && Deltas(sent).Ok? && ApplyAll(EmptyMsg, Deltas(sent).value) == sent[|sent| - 1]
  {
    var sent, final := AssignIds([], ms, gen), FinalIds([], ms, gen);
    IdsNeverChange([], ms, gen);
    forall i | 0 <= i < |sent| - 1
      ensures Extends(sent[i], sent[i + 1])
    {
      GrowsWithIds(ms[i], ms[i + 1], final);
    }
    StreamRebuilds(sent);
    assert sent[0] == EmptyMsg;
  }
}
