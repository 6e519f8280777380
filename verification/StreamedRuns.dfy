/** Whole streams of cuts (tools/server/server-task.cpp, lines 162-177). */
module StreamedRuns {
  import opened ChatMessage
  import opened MessageStream
  import opened ToolCallMapper
  import opened ToolCallStreaming

  /** `cs` is `es` cut short anywhere, harmful or not. */
  predicate IsLooseCut(st: State, cs: seq<Event>, es: seq<Event>)
    requires Valid(st)
    decreases |cs|
  {
    || cs == []
    || (es != [] && |cs| == 1 && CutsShort(cs[0], es[0]))
    || (es != [] && SameEffect(cs[0], es[0]) && Legal(st, es[0]) && IsLooseCut(Next(st, es[0]), cs[1..], es[1..]))
  }

  /** The last event of `cs` is a harmful cut of the event of `es` that it comes from. */
  predicate Harms(st: State, cs: seq<Event>, es: seq<Event>)
    requires Valid(st)
    decreases |cs|
  {
    && cs != [] && es != []
    && if |cs| == 1 then CutsShort(cs[0], es[0]) && Harmful(st, cs[0], es[0])
       else Legal(st, es[0]) && Harms(Next(st, es[0]), cs[1..], es[1..])
  }

  /** A cut that does no harm is one of those that the message grows from. */
  lemma {:induction false} HarmlessIsCut(st: State, cs: seq<Event>, es: seq<Event>)
    requires Valid(st) && IsLooseCut(st, cs, es) && !Harms(st, cs, es)
    ensures IsCut(st, cs, es)
    decreases |cs|
  {
    hide Harmful, Next;
    if |cs| > 1 {
      HarmlessIsCut(Next(st, es[0]), cs[1..], es[1..]);
    } else if |cs| == 1 && !CutsShort(cs[0], es[0]) {
      assert cs[1..] == [];
    }
  }

  lemma CutShortIsAllowed(st: State, c: Event, e: Event)
    requires Valid(st) && Allowed(st, e) && CutsShort(c, e)
    ensures Allowed(st, c)
  {
    if c.ToolArgs? {
      TrimTrailingMonotone(c.text, e.text);
    }
  }

  lemma {:induction false} LooseCutIsWellFormed(st: State, cs: seq<Event>, es: seq<Event>)
    requires Valid(st) && WellFormed(st, es) && IsLooseCut(st, cs, es)
    ensures WellFormed(st, cs)
    decreases |cs|
  {
    hide Next, Allowed, SameEffect, CutsShort;
    if cs != [] {
      if |cs| == 1 && CutsShort(cs[0], es[0]) {
        CutShortIsAllowed(st, cs[0], es[0]);
        assert cs[1..] == [];
      } else {
        SameEffectSameNext(st, cs[0], es[0]);
        LooseCutIsWellFormed(Next(st, es[0]), cs[1..], es[1..]);
      }
    }
  }

  ghost predicate CallsMismatch(a: seq<ToolCall>, b: seq<ToolCall>)
  {
    0 < |a| <= |b| && Mismatch(a[|a| - 1].arguments, b[|a| - 1].arguments)
  }

  lemma {:induction false} HarmMismatches(st: State, cs: seq<Event>, es: seq<Event>)
    requires Named(st) && WellFormed(st, es) && IsLooseCut(st, cs, es) && Harms(st, cs, es)
    ensures LegalRun(st, cs) && LegalRun(st, es) && CallsMismatch(Run(st, cs).msg.calls, Run(st, es).msg.calls)
    decreases |cs|
  {
    hide Next, Harmful, Mismatch, SameEffect, Allowed;
    WellFormedIsLegal(st, es);
    if |cs| == 1 {
      FirstCutMismatches(st, es, cs[0]);
      assert cs == [cs[0]] && cs[1..] == [];
    } else {
      assert !(|cs| == 1);
      NextGrows(st, es[0]);
      SameEffectSameNext(st, cs[0], es[0]);
      HarmMismatches(Next(st, es[0]), cs[1..], es[1..]);
    }
  }

  /** For one step of the stream: the deltas can be computed if and only if the cut does the
      next run no harm. */
  lemma StepIsComputedIff(cs: seq<Event>, es: seq<Event>)
    requires WellFormed(Init, es) && IsLooseCut(Init, cs, es)
    ensures LegalRun(Init, cs) && LegalRun(Init, es)
    ensures Diffs(MessageOf(cs), MessageOf(es)).Ok? <==> !Harms(Init, cs, es)
  {
    hide Diffs, Grows, Mismatch, Next, IsCut, Run, LegalRun, MessageOf, Harms, WellFormed, IsLooseCut;
    if Harms(Init, cs, es) {
      HarmMismatches(Init, cs, es);
      CallsOfMessage(cs);
      CallsOfMessage(es);
      MismatchedDiffs(MessageOf(cs), MessageOf(es));
    } else {
      HarmlessIsCut(Init, cs, es);
      StreamingSafety(cs, es);
      GrowingDiffs(MessageOf(cs), MessageOf(es));
    }
  }

  // ----- streams -----

  /** The deltas of a stream are computed step by step. */
  lemma {:induction false} DeltasOkIff(ms: seq<Msg>)
    ensures Deltas(ms).Ok? <==> forall i :: 0 <= i < |ms| - 1 ==> Computed(ms, i)
  {
    hide Diffs;
    var n := |ms| - 1;
    if n > 0 {
      var before := ms[..n];
      DeltasOkIff(before);
      assert forall i :: 0 <= i < n - 1 ==> Computed(before, i) == Computed(ms, i);
      assert Computed(ms, n - 1) == Diffs(ms[n - 1], ms[n]).Ok?;
    }
  }

  predicate Computed(ms: seq<Msg>, i: nat)
    requires i + 1 < |ms|
  {
    Diffs(ms[i], ms[i + 1]).Ok?
  }

  /** Ids make no difference to whether deltas can be computed. */
  lemma DiffsIgnoreIds(a: Msg, b: Msg, ids: seq<string>)
    requires |a.calls| <= |ids| && |b.calls| <= |ids|
    ensures Diffs(a.(calls := WithIds(a.calls, ids)), b.(calls := WithIds(b.calls, ids))).Ok? <==> Diffs(a, b).Ok?
  {
    hide StringDiff;
  }

  lemma {:induction false} LooseCutsAreWellFormed(cuts: seq<seq<Event>>, i: nat)
    requires i < |cuts| && WellFormed(Init, cuts[|cuts| - 1])
    requires forall k :: 0 <= k < |cuts| - 1 ==> IsLooseCut(Init, cuts[k], cuts[k + 1])
    ensures WellFormed(Init, cuts[i]) && LegalRun(Init, cuts[i])
    decreases |cuts| - i
  {
    hide WellFormed, IsLooseCut, LegalRun;
    if i < |cuts| - 1 {
      LooseCutsAreWellFormed(cuts, i + 1);
      LooseCutIsWellFormed(Init, cuts[i], cuts[i + 1]);
    }
    WellFormedIsLegal(Init, cuts[i]);
  }

  ghost predicate HarmsNext(cuts: seq<seq<Event>>, i: nat)
    requires i + 1 < |cuts|
  {
    Harms(Init, cuts[i], cuts[i + 1])
  }

  /** From the empty run to a full one, through any cuts: all deltas are computed if and only
      if no cut harms the next, and then they fold to the message of the last run, with the
      ids of one shared cache. */
  lemma StreamIsComputedIff(cuts: seq<seq<Event>>, gen: nat -> string)
    requires cuts != [] && cuts[0] == [] && WellFormed(Init, cuts[|cuts| - 1])
    requires forall i :: 0 <= i < |cuts| - 1 ==> IsLooseCut(Init, cuts[i], cuts[i + 1])
    ensures forall i :: 0 <= i < |cuts| ==> LegalRun(Init, cuts[i])
    ensures var sent := AssignIds([], Partials(cuts), gen);
            var ids := FinalIds([], Partials(cuts), gen);
            var full := MessageOf(cuts[|cuts| - 1]);
            && (Deltas(sent).Ok? <==> forall i :: 0 <= i < |cuts| - 1 ==> !HarmsNext(cuts, i))
            && |full.calls| <= |ids|
            && (Deltas(sent).Ok? ==> ApplyAll(EmptyMsg, Deltas(sent).value) == full.(calls := WithIds(full.calls, ids)))
  {
    hide WellFormed, IsLooseCut, LegalRun, Deltas, AssignIds, FinalIds, MessageOf, Harms, Diffs, IsCut;
    forall i | 0 <= i < |cuts| ensures WellFormed(Init, cuts[i]) && LegalRun(Init, cuts[i]) {
      LooseCutsAreWellFormed(cuts, i);
    }
    var ms := Partials(cuts);
    var sent, ids := AssignIds([], ms, gen), FinalIds([], ms, gen);
    IdsNeverChange([], ms, gen);
    DeltasOkIff(sent);
    forall i | 0 <= i < |cuts| - 1 ensures Computed(sent, i) <==> !HarmsNext(cuts, i) {
      StepIsComputedIff(cuts[i], cuts[i + 1]);
      DiffsIgnoreIds(ms[i], ms[i + 1], ids);
    }
    if forall i :: 0 <= i < |cuts| - 1 ==> !HarmsNext(cuts, i) {
      forall i | 0 <= i < |cuts| - 1 ensures IsCut(Init, cuts[i], cuts[i + 1]) {
        assert !HarmsNext(cuts, i);
        HarmlessIsCut(Init, cuts[i], cuts[i + 1]);
      }
      StreamedDeltasRebuildMessage(cuts, gen);
    }
  }
}
