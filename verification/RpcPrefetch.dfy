/** The workers that connect to RPC servers in parallel, and the registration that follows
    (add_rpc_devices, common/arg.cpp, lines 1131-1158). */
module RpcPrefetch {

  /** A worker about to take a server, waiting for its connection, or past its loop. */
  datatype Worker = Ready | Busy(server: nat) | Finished

  /** The shared counter, the workers and the result slots; for the record, which worker
      took each server, and which workers have written each slot. */
  datatype System = System(next: nat, workers: seq<Worker>, ok: seq<bool>, takers: seq<nat>, writers: seq<seq<nat>>)

  /** One step of worker `t`: an atomic increment that takes a server or ends the loop, or
      the write of a connection result. `connect` is what the connection attempts return. */
  function Step(connect: seq<bool>, s: System, t: nat): System
    requires t < |s.workers| && |s.ok| == |s.writers|
  {
    match s.workers[t]
    case Ready =>
      if s.next >= |s.ok| then s.(next := s.next + 1, workers := s.workers[t := Finished])
      else s.(next := s.next + 1, workers := s.workers[t := Busy(s.next)], takers := s.takers + [t])
    case Busy(server) =>
      if server < |s.ok| && server < |connect| then
        s.(workers := s.workers[t := Ready], ok := s.ok[server := connect[server]],
           writers := s.writers[server := s.writers[server] + [t]])
      else s
    case Finished => s
  }

  function Start(n: nat, threads: nat): System
  {
    System(0, seq(threads, i => Ready), seq(n, i => false), [], seq(n, i => []))
  }

  // ----- the invariant -----

  function CountFinished(ws: seq<Worker>): (c: nat)
    ensures c <= |ws|
  {
    if ws == [] then 0 else CountFinished(ws[1..]) + if ws[0].Finished? then 1 else 0
  }

  /** A server not yet taken, being connected by its one taker, or written by it once. */
  predicate SlotOk(connect: seq<bool>, s: System, i: nat)
    requires i < |s.ok| == |s.writers| == |connect|
  {
    if i >= |s.takers| then s.writers[i] == []
    else
      && s.takers[i] < |s.workers|
      && (if s.writers[i] == [] then s.workers[s.takers[i]] == Busy(i)
          else s.writers[i] == [s.takers[i]] && s.ok[i] == connect[i])
  }

  predicate WorkerOk(s: System, t: nat)
    requires t < |s.workers|
  {
    s.workers[t].Busy? ==>
      var i := s.workers[t].server;
      i < |s.takers| && i < |s.writers| && s.takers[i] == t && s.writers[i] == []
  }

  ghost predicate Inv(connect: seq<bool>, s: System)
  {
    && |s.ok| == |s.writers| == |connect|
    && |s.takers| == (if s.next <= |connect| then s.next else |connect|)
    && s.next == |s.takers| + CountFinished(s.workers)
    && (forall i :: 0 <= i < |connect| ==> SlotOk(connect, s, i))
    && forall t :: 0 <= t < |s.workers| ==> WorkerOk(s, t)
  }

  lemma {:induction false} CountUpdate(ws: seq<Worker>, t: nat, w: Worker)
    requires t < |ws|
    ensures CountFinished(ws[t := w]) ==
            CountFinished(ws) - (if ws[t].Finished? then 1 else 0) + (if w.Finished? then 1 else 0)
  {
    if t > 0 {
      assert ws[t := w][1..] == ws[1..][t - 1 := w];
      CountUpdate(ws[1..], t - 1, w);
    } else {
      assert ws[t := w][1..] == ws[1..];
    }
  }

  lemma StartInv(connect: seq<bool>, threads: nat)
    ensures Inv(connect, Start(|connect|, threads))
  {
    CountsOfStart(threads);
  }

  lemma StepInv(connect: seq<bool>, s: System, t: nat)
    requires Inv(connect, s) && t < |s.workers|
    ensures Inv(connect, Step(connect, s, t))
  {
    var s' := Step(connect, s, t);
    CountUpdate(s.workers, t, s'.workers[t]);
    forall i | 0 <= i < |connect|
      ensures SlotOk(connect, s', i)
    {
      StepSlot(connect, s, t, i);
    }
    forall u | 0 <= u < |s.workers|
      ensures WorkerOk(s', u)
    {
      StepWorker(connect, s, t, u);
    }
    assert WorkerOk(s, t);
  }

  lemma StepSlot(connect: seq<bool>, s: System, t: nat, i: nat)
    requires Inv(connect, s) && t < |s.workers| && i < |connect|
    ensures SlotOk(connect, Step(connect, s, t), i)
  {
    hide CountFinished;
    assert SlotOk(connect, s, i) && WorkerOk(s, t);
  }

  lemma StepWorker(connect: seq<bool>, s: System, t: nat, u: nat)
    requires Inv(connect, s) && t < |s.workers| && u < |s.workers|
    ensures WorkerOk(Step(connect, s, t), u)
  {
    hide CountFinished;
    assert WorkerOk(s, u) && WorkerOk(s, t);
    if s.next < |connect| {
      assert SlotOk(connect, s, s.next);
    }
  }

  // ----- every interleaving -----

  /** The state after the workers have moved in the order of `schedule`. */
  function Run(connect: seq<bool>, s: System, schedule: seq<nat>): System
    requires |s.ok| == |s.writers| && forall i :: 0 <= i < |schedule| ==> schedule[i] < |s.workers|
    decreases |schedule|
  {
    if schedule == [] then s else Run(connect, Step(connect, s, schedule[0]), schedule[1..])
  }

  lemma {:induction false} RunInv(connect: seq<bool>, s: System, schedule: seq<nat>)
    requires Inv(connect, s) && forall i :: 0 <= i < |schedule| ==> schedule[i] < |s.workers|
    ensures Inv(connect, Run(connect, s, schedule)) && |Run(connect, s, schedule).workers| == |s.workers|
    decreases |schedule|
  {
    hide Inv;
    assert |s.ok| == |s.writers| by { InvShape(connect, s); }
    if schedule != [] {
      StepInv(connect, s, schedule[0]);
      InvShape(connect, Step(connect, s, schedule[0]));
      RunInv(connect, Step(connect, s, schedule[0]), schedule[1..]);
    }
  }

  lemma InvShape(connect: seq<bool>, s: System)
    requires Inv(connect, s)
    ensures |s.ok| == |s.writers| == |connect|
  {
  }

  predicate AllFinished(s: System)
  {
    forall t :: 0 <= t < |s.workers| ==> s.workers[t].Finished?
  }

  /** At every moment of every interleaving the counter overshoots by at most the number of
      workers, and every slot has at most one writer, the worker that took its server. */
  lemma AlwaysSafe(connect: seq<bool>, threads: nat, schedule: seq<nat>)
    requires forall i :: 0 <= i < |schedule| ==> schedule[i] < threads
    ensures var s := Run(connect, Start(|connect|, threads), schedule);
            && s.next <= |connect| + threads
            && |s.writers| == |connect|
            && forall i :: 0 <= i < |connect| ==>
                 s.writers[i] == [] || (i < |s.takers| && s.writers[i] == [s.takers[i]])
  {
    StartInv(connect, threads);
    RunInv(connect, Start(|connect|, threads), schedule);
    var s := Run(connect, Start(|connect|, threads), schedule);
    forall i | 0 <= i < |connect|
      ensures s.writers[i] == [] || (i < |s.takers| && s.writers[i] == [s.takers[i]])
    {
      assert SlotOk(connect, s, i);
    }
  }

  /** When the workers have been joined, every slot has been written exactly once and holds
      the result for its server, whatever the interleaving was. */
  lemma JoinedIsComplete(connect: seq<bool>, threads: nat, schedule: seq<nat>)
    requires threads > 0 && forall i :: 0 <= i < |schedule| ==> schedule[i] < threads
    requires AllFinished(Run(connect, Start(|connect|, threads), schedule))
    ensures var s := Run(connect, Start(|connect|, threads), schedule);
            && s.ok == connect && s.next == |connect| + threads
            && |s.takers| == |s.writers| == |connect|
            && forall i :: 0 <= i < |connect| ==> s.writers[i] == [s.takers[i]]
  {
    StartInv(connect, threads);
    RunInv(connect, Start(|connect|, threads), schedule);
    var s := Run(connect, Start(|connect|, threads), schedule);
    Counted(s.workers);
    forall i | 0 <= i < |connect|
      ensures s.writers[i] == [s.takers[i]] && s.ok[i] == connect[i]
    {
      assert SlotOk(connect, s, i);
    }
  }

  // ----- every interleaving ends -----

  /** Steps still to be made: two for each server not taken, one for each connection being
      made, and one for each worker to leave its loop. */
  function StepsLeft(n: nat, s: System): nat
  {
    2 * (if s.next < n then n - s.next else 0) + CountBusy(s.workers) + (|s.workers| - CountFinished(s.workers))
  }

  function CountBusy(ws: seq<Worker>): nat
  {
    if ws == [] then 0 else CountBusy(ws[1..]) + if ws[0].Busy? then 1 else 0
  }

  lemma {:induction false} CountBusyUpdate(ws: seq<Worker>, t: nat, w: Worker)
    requires t < |ws|
    ensures CountBusy(ws[t := w]) ==
            CountBusy(ws) - (if ws[t].Busy? then 1 else 0) + (if w.Busy? then 1 else 0)
  {
    if t > 0 {
      assert ws[t := w][1..] == ws[1..][t - 1 := w];
      CountBusyUpdate(ws[1..], t - 1, w);
    } else {
      assert ws[t := w][1..] == ws[1..];
    }
  }

  /** A worker that is not finished can always move, and every move brings the end one step
      nearer. */
  lemma StepProgresses(connect: seq<bool>, s: System, t: nat)
    requires Inv(connect, s) && t < |s.workers| && !s.workers[t].Finished?
    ensures StepsLeft(|connect|, Step(connect, s, t)) == StepsLeft(|connect|, s) - 1
  {
    assert WorkerOk(s, t);
    var s' := Step(connect, s, t);
    CountUpdate(s.workers, t, s'.workers[t]);
    CountBusyUpdate(s.workers, t, s'.workers[t]);
  }

  /** A schedule in which every move is made by a worker that has not finished. */
  predicate Active(connect: seq<bool>, s: System, schedule: seq<nat>)
    requires |s.ok| == |s.writers|
    decreases |schedule|
  {
    schedule == [] ||
    (schedule[0] < |s.workers| && !s.workers[schedule[0]].Finished?
     && Active(connect, Step(connect, s, schedule[0]), schedule[1..]))
  }

  lemma {:induction false} ActiveRun(connect: seq<bool>, s: System, schedule: seq<nat>)
    requires Inv(connect, s) && |s.ok| == |s.writers| && Active(connect, s, schedule)
    ensures forall i :: 0 <= i < |schedule| ==> schedule[i] < |s.workers|
    ensures Inv(connect, Run(connect, s, schedule))
    ensures StepsLeft(|connect|, Run(connect, s, schedule)) == StepsLeft(|connect|, s) - |schedule|
    decreases |schedule|
  {
    hide Inv, StepsLeft;
    if schedule != [] {
      var t := schedule[0];
      var s' := Step(connect, s, t);
      StepInv(connect, s, t);
      StepProgresses(connect, s, t);
      InvShape(connect, s');
      SameWorkers(connect, s, t);
      ActiveRun(connect, s', schedule[1..]);
    }
  }

  lemma SameWorkers(connect: seq<bool>, s: System, t: nat)
    requires t < |s.workers| && |s.ok| == |s.writers|
    ensures |Step(connect, s, t).workers| == |s.workers|
  {
  }

  lemma {:induction false} CountsOfStart(n: nat)
    ensures CountFinished(seq(n, i => Ready)) == 0 && CountBusy(seq(n, i => Ready)) == 0
  {
    if n > 0 {
      var ws: seq<Worker> := seq(n, i => Ready);
      assert ws[1..] == seq(n - 1, i => Ready);
      CountsOfStart(n - 1);
    }
  }

  lemma {:induction false} Counted(ws: seq<Worker>)
    ensures CountFinished(ws) == |ws| <==> forall t :: 0 <= t < |ws| ==> ws[t].Finished?
    ensures CountFinished(ws) == |ws| ==> CountBusy(ws) == 0
  {
    if ws != [] {
      Counted(ws[1..]);
      assert forall t :: 1 <= t < |ws| ==> ws[t] == ws[1..][t - 1];
    }
  }

  /** Every interleaving ends: it has at most 2n + threads moves, and the workers have all
      finished exactly when it has made that many. */
  lemma EveryInterleavingEnds(connect: seq<bool>, threads: nat, schedule: seq<nat>)
    requires threads > 0 && Active(connect, Start(|connect|, threads), schedule)
    ensures |schedule| <= 2 * |connect| + threads
    ensures forall i :: 0 <= i < |schedule| ==> schedule[i] < threads
    ensures AllFinished(Run(connect, Start(|connect|, threads), schedule)) <==> |schedule| == 2 * |connect| + threads
  {
    hide Inv, StepsLeft, Run, Active, AllFinished, Start;
    var s := Start(|connect|, threads);
    StartInv(connect, threads);
    StepsAtStart(|connect|, threads);
    ActiveRun(connect, s, schedule);
    RunInv(connect, s, schedule);
    FinishedIffNoSteps(connect, Run(connect, s, schedule));
  }

  lemma StepsAtStart(n: nat, threads: nat)
    ensures var s := Start(n, threads);
            StepsLeft(n, s) == 2 * n + threads && |s.workers| == threads && |s.ok| == |s.writers| == n
  {
    CountsOfStart(threads);
  }

  lemma FinishedIffNoSteps(connect: seq<bool>, s: System)
    requires Inv(connect, s) && |s.workers| > 0
    ensures AllFinished(s) <==> StepsLeft(|connect|, s) == 0
  {
    Counted(s.workers);
  }

  // ----- registration -----

  /** The servers whose slot is set, in list order. */
  function Registered(servers: seq<string>, ok: seq<bool>): seq<string>
    requires |servers| == |ok|
  {
    if servers == [] then [] else (if ok[0] then [servers[0]] else []) + Registered(servers[1..], ok[1..])
  }

  method RegisterServers(servers: seq<string>, ok: seq<bool>) returns (registered: seq<string>)
    requires |servers| == |ok|
    ensures registered == Registered(servers, ok)
  {
    registered := [];
    assert servers[0..] == servers && ok[0..] == ok;
    for i := 0 to |servers|
      invariant registered + Registered(servers[i..], ok[i..]) == Registered(servers, ok)
    {
      assert servers[i..][1..] == servers[i + 1..] && ok[i..][1..] == ok[i + 1..];
      if !ok[i] {
        continue;
      }
      registered := registered + [servers[i]];
    }
    assert registered + [] == registered;
  }

  /** The registered servers do not depend on the interleaving, nor on how many workers
      there were: they are the reachable ones in list order. */
  lemma RegistrationIsDeterministic(servers: seq<string>, connect: seq<bool>, threads: nat, schedule: seq<nat>)
    requires |servers| == |connect| && threads > 0 && forall i :: 0 <= i < |schedule| ==> schedule[i] < threads
    requires AllFinished(Run(connect, Start(|connect|, threads), schedule))
    ensures var s := Run(connect, Start(|connect|, threads), schedule);
            |s.ok| == |servers| && Registered(servers, s.ok) == Registered(servers, connect)
  {
    JoinedIsComplete(connect, threads, schedule);
  }

  /** The positions of the set slots, in order. */
  predicate ArePositions(ok: seq<bool>, ps: seq<nat>)
  {
    && (forall k :: 0 <= k < |ps| ==> ps[k] < |ok| && ok[ps[k]])
    && (forall k, m :: 0 <= k < m < |ps| ==> ps[k] < ps[m])
    && forall i :: 0 <= i < |ok| && ok[i] ==> i in ps
  }

  lemma {:induction false} RegisteredAt(servers: seq<string>, ok: seq<bool>, ps: seq<nat>)
    requires |servers| == |ok| && ArePositions(ok, ps)
    ensures |Registered(servers, ok)| == |ps|
    ensures forall k :: 0 <= k < |ps| ==> Registered(servers, ok)[k] == servers[ps[k]]
    decreases |ok|
  {
    hide ArePositions;
    PositionsInRange(ok, ps);
    if ok != [] {
      FirstPosition(ok, ps);
      var h := if ok[0] then 1 else 0;
      var rest: seq<nat> := seq(|ps| - h, k requires 0 <= k < |ps| - h => ps[k + h] - 1);
      RestPositions(ok, ps, h, rest);
      RegisteredAt(servers[1..], ok[1..], rest);
      var tail := Registered(servers[1..], ok[1..]);
      assert forall k :: 0 <= k < |rest| ==> tail[k] == servers[1..][rest[k]] == servers[ps[k + h]];
      Shifted(if ok[0] then [servers[0]] else [], tail, servers, ps);
    }
  }

  lemma Shifted(first: seq<string>, tail: seq<string>, servers: seq<string>, ps: seq<nat>)
    requires |first| + |tail| == |ps| && |first| <= 1
    requires forall k :: 0 <= k < |ps| ==> ps[k] < |servers|
    requires first != [] ==> first[0] == servers[ps[0]]
    requires forall k :: 0 <= k < |tail| ==> tail[k] == servers[ps[k + |first|]]
    ensures forall k :: 0 <= k < |ps| ==> (first + tail)[k] == servers[ps[k]]
  {
    forall k | 0 <= k < |ps|
      ensures (first + tail)[k] == servers[ps[k]]
    {
      if k >= |first| {
        var m := k - |first|;
        assert tail[m] == servers[ps[m + |first|]];
      }
    }
  }

  lemma PositionsInRange(ok: seq<bool>, ps: seq<nat>)
    requires ArePositions(ok, ps)
    ensures ok == [] ==> ps == []
    ensures forall k :: 0 <= k < |ps| ==> ps[k] < |ok|
  {
    if ps != [] {
      FirstInRange(ok, ps);
    }
  }

  lemma FirstInRange(ok: seq<bool>, ps: seq<nat>)
    requires ArePositions(ok, ps) && ps != []
    ensures ps[0] < |ok|
  {
  }

  lemma FirstPosition(ok: seq<bool>, ps: seq<nat>)
    requires ok != [] && ArePositions(ok, ps)
    ensures if ok[0] then ps != [] && ps[0] == 0 && forall k :: 1 <= k < |ps| ==> ps[k] > 0
            else forall k :: 0 <= k < |ps| ==> ps[k] > 0
  {
    if ok[0] {
      var k :| 0 <= k < |ps| && ps[k] == 0;
      NothingBelowZero(ok, ps, k);
    }
  }

  lemma NothingBelowZero(ok: seq<bool>, ps: seq<nat>, k: nat)
    requires ArePositions(ok, ps) && k < |ps| && ps[k] == 0
    ensures k == 0
  {
    if k > 0 {
      FirstIsLeast(ok, ps, k);
    }
  }

  lemma FirstIsLeast(ok: seq<bool>, ps: seq<nat>, k: nat)
    requires ArePositions(ok, ps) && 0 < k < |ps|
    ensures ps[0] < ps[k]
  {
  }

  lemma RestPositions(ok: seq<bool>, ps: seq<nat>, h: nat, rest: seq<nat>)
    requires ok != [] && ArePositions(ok, ps) && h == (if ok[0] then 1 else 0) && |rest| == |ps| - h
    requires h == 1 ==> ps[0] == 0
    requires forall k :: 0 <= k < |rest| ==> ps[k + h] > 0 && rest[k] == ps[k + h] - 1
    ensures ArePositions(ok[1..], rest)
  {
    forall i | 0 <= i < |ok| - 1 && ok[1..][i]
      ensures i in rest
    {
      var k :| 0 <= k < |ps| && ps[k] == i + 1;
      assert rest[k - h] == i;
    }
  }

  /** A server is registered if and only if its connection succeeded, and the registered
      servers keep the order of the list, whatever the schedule. */
  lemma RegisteredIffConnected(
    servers: seq<string>, connect: seq<bool>, threads: nat, schedule: seq<nat>, ps: seq<nat>)
    requires |servers| == |connect| && threads > 0 && forall i :: 0 <= i < |schedule| ==> schedule[i] < threads
    requires AllFinished(Run(connect, Start(|connect|, threads), schedule)) && ArePositions(connect, ps)
    ensures var s := Run(connect, Start(|connect|, threads), schedule);
            && |s.ok| == |servers| && |Registered(servers, s.ok)| == |ps|
            && forall k :: 0 <= k < |ps| ==> Registered(servers, s.ok)[k] == servers[ps[k]]
  {
    hide Run, Start, AllFinished, ArePositions;
    RegistrationIsDeterministic(servers, connect, threads, schedule);
    RegisteredAt(servers, connect, ps);
  }
}
