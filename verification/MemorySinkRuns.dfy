/** custos/custody.py `MemorySink`, which keeps the anchor objects themselves. The gap of an anchor offered during
    an outage is the manager's own dictionary, and the manager goes on counting in it when some other sink
    refuses that same anchor. */
module MemorySinkRuns {
  import opened Base
  import opened AuditRecords
  import opened AuditChain
  import opened Custody
  import opened Anchoring
  import opened Sinks
  import C = CustodyRuns

  /** An anchor object in the sink's list: what its hash was computed from, and which gap dictionary it refers to. */
  datatype Stored = Stored(sealed: Anchor, ref: Option<nat>)

  /** Every gap dictionary made so far, the one the manager still counts in, and the sink's list. */
  datatype Memory = Memory(gaps: seq<Gap>, pending: Option<nat>, anchors: seq<Stored>)

  predicate Sane(m: Memory) {
    && (m.pending.Some? ==> m.pending.value < |m.gaps|)
    && forall i | 0 <= i < |m.anchors| && m.anchors[i].ref.Some? :: m.anchors[i].ref.value < |m.gaps|
  }

  /** A failed attempt: the pending dictionary is changed in place, or a new one is made. */
  function Failing(m: Memory, epoch: int, at: string): (after: Memory)
    requires Sane(m)
    ensures Sane(after)
  {
    match m.pending
    case Some(r) => m.(gaps := m.gaps[r := m.gaps[r].(attempts := m.gaps[r].attempts + 1, lastAttempt := at)])
    case None => m.(gaps := m.gaps + [Gap(epoch, 1, at, at)], pending := Some(|m.gaps|))
  }

  function Keep(m: Memory, a: Anchor): (after: Memory)
    requires Sane(m)
    ensures Sane(after)
  {
    m.(anchors := m.anchors + [Stored(a, m.pending)])
  }

  function Step(d: C.Deployment, j: nat, s: C.Track, m: Memory, e: C.Event): (after: Memory)
    requires Sane(m)
    ensures Sane(after)
  {
    if e.Append? then m else
    var kept := if C.TookAt(d, e.up, j) then Keep(m, C.Offering(d, s, e)) else m;
    if AllUp(|d.kinds|, e.up) then kept.(pending := None) else Failing(kept, s.st.epoch + 1, e.at)
  }

  /** Sink j and the gap dictionaries after a run. */
  function Run(d: C.Deployment, j: nat, es: seq<C.Event>): (m: Memory)
    ensures Sane(m)
  {
    if es == [] then Memory([], None, []) else
    var before := es[..|es| - 1];
    Step(d, j, C.Run(d, before), Run(d, j, before), es[|es| - 1])
  }

  /** An anchor as it reads now. */
  function Seen(gaps: seq<Gap>, a: Stored): Anchor
    requires a.ref.Some? ==> a.ref.value < |gaps|
  {
    a.sealed.(gap := GapJson(if a.ref.Some? then Some(gaps[a.ref.value]) else None))
  }

  function Shows(m: Memory): (log: seq<Anchor>)
    requires Sane(m)
    ensures |log| == |m.anchors| && forall i | 0 <= i < |log| :: log[i] == Seen(m.gaps, m.anchors[i])
  {
    seq(|m.anchors|, i requires 0 <= i < |m.anchors| => Seen(m.gaps, m.anchors[i]))
  }

  // ---------------------------------------------------------------------------------------------
  // When an anchor no longer reads as it was sealed
  // ---------------------------------------------------------------------------------------------

  /** Sink j took an anchor that some other sink refused while a gap was pending. */
  predicate GapRewritten(d: C.Deployment, es: seq<C.Event>, j: nat) {
    exists k | 0 <= k < |es| :: C.PartialAt(d, es[k], j) && C.Outage(d, es[..k]) != []
  }

  /** More attempts are counted in the anchor's gap than when it was sealed. */
  predicate Aged(gaps: seq<Gap>, a: Stored)
    requires a.ref.Some? ==> a.ref.value < |gaps|
  {
    a.ref.Some? && C.AttemptsIn(a.sealed.gap) < gaps[a.ref.value].attempts
  }

  predicate SomeAged(m: Memory)
    requires Sane(m)
  {
    exists i | 0 <= i < |m.anchors| :: Aged(m.gaps, m.anchors[i])
  }

  /** Sealed over the gap it refers to as that read then: unaged, it still reads so. What refers to the pending
      dictionary is aged, for it was not taken everywhere. */
  predicate SealedOk(h: Hashing, gaps: seq<Gap>, pending: Option<nat>, a: Stored)
    requires a.ref.Some? ==> a.ref.value < |gaps|
  {
    && a.sealed.anchorHash == AnchorHash(h, a.sealed)
    && (a.ref.None? ==> a.sealed.gap == Null)
    && (a.ref.Some? && !Aged(gaps, a) ==> a.sealed.gap == GapJson(Some(gaps[a.ref.value])))
    && (a.ref.Some? && a.ref == pending ==> Aged(gaps, a))
  }

  /** The memory is that of the run's sink j and manager. */
  ghost predicate Remembers(d: C.Deployment, s: C.Track, m: Memory, j: nat) {
    && Sane(m) && j < |s.taken| && |m.anchors| == |s.taken[j]|
    && (forall i | 0 <= i < |m.anchors| :: m.anchors[i].sealed == s.taken[j][i])
    && (forall i | 0 <= i < |m.anchors| :: SealedOk(d.h, m.gaps, m.pending, m.anchors[i]))
    && s.st.pendingGap == if m.pending.Some? then Some(m.gaps[m.pending.value]) else None
  }

  lemma AgedIsAltered(h: Hashing, gaps: seq<Gap>, pending: Option<nat>, a: Stored)
    requires a.ref.Some? ==> a.ref.value < |gaps|
    requires SealedOk(h, gaps, pending, a)
    ensures Aged(gaps, a) <==> Seen(gaps, a) != a.sealed
    ensures Aged(gaps, a) ==> AnchorJson(Seen(gaps, a)) != AnchorJson(a.sealed)
  {
    hide AnchorHash;
    var seen := Seen(gaps, a);
    if Aged(gaps, a) {
      assert C.AttemptsIn(seen.gap) == gaps[a.ref.value].attempts;
      assert AnchorJson(seen).fields[GapKey] == seen.gap && AnchorJson(a.sealed).fields[GapKey] == a.sealed.gap;
    }
  }

  /** What an attempt does to the dictionaries and to which one is pending. */
  function GapsAfter(m: Memory, landed: bool, epoch: int, at: string): Memory
    requires Sane(m)
  {
    if landed then m.(pending := None) else Failing(m, epoch, at)
  }

  /** An anchor already in the list stays sealed over what it refers to, and ages with no further attempt. */
  lemma StaysSealed(h: Hashing, m: Memory, a: Stored, landed: bool, epoch: int, at: string)
    requires Sane(m) && (a.ref.Some? ==> a.ref.value < |m.gaps|) && SealedOk(h, m.gaps, m.pending, a)
    ensures var m' := GapsAfter(m, landed, epoch, at);
            && (a.ref.Some? ==> a.ref.value < |m'.gaps|)
            && SealedOk(h, m'.gaps, m'.pending, a) && (Aged(m'.gaps, a) <==> Aged(m.gaps, a))
  {
    hide AnchorHash;
  }

  /** The anchor just taken ages at once exactly when it was refused elsewhere and refers to a gap. */
  lemma NewlySealed(h: Hashing, m: Memory, sealed: Anchor, landed: bool, epoch: int, at: string)
    requires Sane(m) && sealed.anchorHash == AnchorHash(h, sealed)
    requires sealed.gap == GapJson(if m.pending.Some? then Some(m.gaps[m.pending.value]) else None)
    ensures var m', a := GapsAfter(m, landed, epoch, at), Stored(sealed, m.pending);
            && (a.ref.Some? ==> a.ref.value < |m'.gaps|)
            && SealedOk(h, m'.gaps, m'.pending, a) && (Aged(m'.gaps, a) <==> !landed && m.pending.Some?)
  {
    hide AnchorHash;
  }

  lemma AttemptIs(d: C.Deployment, s: C.Track, m: Memory, e: C.Event, j: nat)
    requires Sane(m) && e.Attempt?
    ensures var after := GapsAfter(m, C.Landed(d, e), s.st.epoch + 1, e.at);
            Step(d, j, s, m, e) ==
            Memory(after.gaps, after.pending,
                   if C.TookAt(d, e.up, j) then m.anchors + [Stored(C.Offering(d, s, e), m.pending)] else m.anchors)
  {
    hide C.Offering;
  }

  lemma AppendIs(d: C.Deployment, s: C.Track, m: Memory, e: C.Event, j: nat)
    requires Sane(m) && e.Append?
    ensures Step(d, j, s, m, e) == m
    ensures C.Step(d, s, e).st == s.st && C.Step(d, s, e).taken == s.taken
  {
    hide Entry;
  }

  /** The list after an attempt. */
  lemma ListStaysSealed(h: Hashing, m: Memory, sealed: Anchor, took: bool, landed: bool, epoch: int, at: string)
    requires Sane(m) && forall i | 0 <= i < |m.anchors| :: SealedOk(h, m.gaps, m.pending, m.anchors[i])
    requires sealed.anchorHash == AnchorHash(h, sealed)
    requires sealed.gap == GapJson(if m.pending.Some? then Some(m.gaps[m.pending.value]) else None)
    ensures var after := GapsAfter(m, landed, epoch, at);
            var m' := after.(anchors := if took then m.anchors + [Stored(sealed, m.pending)] else m.anchors);
            && Sane(m')
            && (forall i | 0 <= i < |m'.anchors| :: SealedOk(h, m'.gaps, m'.pending, m'.anchors[i]))
            && (SomeAged(m') <==> SomeAged(m) || (took && !landed && m.pending.Some?))
  {
    hide SealedOk, Aged;
    var n, last := |m.anchors|, Stored(sealed, m.pending);
    var after := GapsAfter(m, landed, epoch, at);
    var m' := after.(anchors := if took then m.anchors + [last] else m.anchors);
    NewlySealed(h, m, sealed, landed, epoch, at);
    hide GapsAfter;
    forall i | 0 <= i < |m'.anchors|
      ensures m'.anchors[i].ref.Some? ==> m'.anchors[i].ref.value < |m'.gaps|
      ensures SealedOk(h, m'.gaps, m'.pending, m'.anchors[i])
      ensures i < n ==> m'.anchors[i] == m.anchors[i] && Aged(m'.gaps, m'.anchors[i]) == Aged(m.gaps, m.anchors[i])
    {
      if i < n { StaysSealed(h, m, m.anchors[i], landed, epoch, at); } else { assert m'.anchors[i] == last; }
    }
    if SomeAged(m) {
      var i :| 0 <= i < n && Aged(m.gaps, m.anchors[i]);
      assert Aged(m'.gaps, m'.anchors[i]);
    }
    if took { assert m'.anchors[n] == last; }
  }

  lemma StepRemembers(d: C.Deployment, s: C.Track, m: Memory, e: C.Event, j: nat)
    requires Remembers(d, s, m, j)
    ensures Remembers(d, C.Step(d, s, e), Step(d, j, s, m, e), j)
    ensures SomeAged(Step(d, j, s, m, e)) <==>
            SomeAged(m) || (C.PartialAt(d, e, j) && s.st.pendingGap.Some?)
  {
    hide C.Step, Step, C.Offering, AfterAttempt, AnchorHash, SealedOk, Aged, SomeAged, AllUp, GapJson, Took;
    if e.Attempt? {
      C.AttemptStep(d, s, e, j);
      C.OfferingIsSealed(d, s, e);
      PendingAfter(d, s, e);
      AttemptIs(d, s, m, e, j);
      ListStaysSealed(d.h, m, C.Offering(d, s, e), C.TookAt(d, e.up, j), C.Landed(d, e), s.st.epoch + 1, e.at);
    } else {
      AppendIs(d, s, m, e, j);
    }
  }

  lemma PendingAfter(d: C.Deployment, s: C.Track, e: C.Event)
    requires e.Attempt?
    ensures var gap := C.Step(d, s, e).st.pendingGap;
            gap == if C.Landed(d, e) then None
                   else if s.st.pendingGap.Some? then
                     Some(s.st.pendingGap.value.(attempts := s.st.pendingGap.value.attempts + 1, lastAttempt := e.at))
                   else Some(Gap(s.st.epoch + 1, 1, e.at, e.at))
  {
  }

  lemma RewrittenStep(d: C.Deployment, es: seq<C.Event>, e: C.Event, j: nat)
    ensures GapRewritten(d, es + [e], j) <==> GapRewritten(d, es, j) || (C.PartialAt(d, e, j) && C.Outage(d, es) != [])
  {
    hide C.Outage, C.PartialAt;
    var all := es + [e];
    assert all[|es|] == e && all[..|es|] == es;
    assert forall k | 0 <= k < |es| :: all[k] == es[k] && all[..k] == es[..k];
    if GapRewritten(d, es, j) {
      var k :| 0 <= k < |es| && C.PartialAt(d, es[k], j) && C.Outage(d, es[..k]) != [];
      assert C.PartialAt(d, all[k], j) && C.Outage(d, all[..k]) != [];
    }
  }

  lemma RunUnfolds(d: C.Deployment, j: nat, es: seq<C.Event>, e: C.Event)
    ensures Run(d, j, es + [e]) == Step(d, j, C.Run(d, es), Run(d, j, es), e)
    ensures C.Run(d, es + [e]) == C.Step(d, C.Run(d, es), e)
  {
    assert (es + [e])[..|es|] == es;
  }

  /** Over every run the sink's list is what the sink took, and some anchor of it no longer reads as it was
      sealed exactly when the sink took one that another sink refused while a gap was pending. */
  lemma {:induction false} StaysRemembered(d: C.Deployment, es: seq<C.Event>, j: nat)
    requires j < |d.kinds|
    ensures Remembers(d, C.Run(d, es), Run(d, j, es), j)
    ensures SomeAged(Run(d, j, es)) <==> GapRewritten(d, es, j)
    decreases |es|
  {
    if es != [] {
      hide Run, Step, C.Run, C.Step, Remembers, SomeAged, GapRewritten, C.Outage;
      var before, e := es[..|es| - 1], es[|es| - 1];
      assert es == before + [e];
      StaysRemembered(d, before, j);
      C.ManagerState(d, before);
      StepRemembers(d, C.Run(d, before), Run(d, j, before), e, j);
      RewrittenStep(d, before, e, j);
      RunUnfolds(d, j, before, e);
    }
  }

  /** The sink shows exactly what it took exactly when nothing was rewritten. */
  lemma {:induction false} ShowsWhatItTookIff(d: C.Deployment, es: seq<C.Event>, j: nat)
    requires j < |d.kinds|
    ensures |C.Run(d, es).taken| == |d.kinds|
    ensures Shows(Run(d, j, es)) == C.Run(d, es).taken[j] <==> !GapRewritten(d, es, j)
  {
    hide Run, C.Run, GapRewritten, SealedOk, Aged;
    StaysRemembered(d, es, j);
    C.ManagerState(d, es);
    var m, taken := Run(d, j, es), C.Run(d, es).taken[j];
    forall i | 0 <= i < |taken| ensures Shows(m)[i] == taken[i] <==> !Aged(m.gaps, m.anchors[i]) {
      AgedIsAltered(d.h, m.gaps, m.pending, m.anchors[i]);
    }
  }

  // ---------------------------------------------------------------------------------------------
  // The verdicts
  // ---------------------------------------------------------------------------------------------

  /** An anchor of the list reads differently now and has the digest it was sealed with. */
  ghost predicate RewriteCollides(h: Hashing, m: Memory)
    requires Sane(m)
  {
    exists i | 0 <= i < |m.anchors| ::
      Collision(h, AnchorJson(m.anchors[i].sealed), AnchorJson(Seen(m.gaps, m.anchors[i])))
  }

  lemma AgedBreaksAnchorChain(d: C.Deployment, s: C.Track, m: Memory, j: nat)
    requires Remembers(d, s, m, j) && SomeAged(m) && AnchorChainOk(d.h, SortByEpoch(Shows(m)))
    ensures RewriteCollides(d.h, m)
  {
    hide SealedOk, Aged;
    var i :| 0 <= i < |m.anchors| && Aged(m.gaps, m.anchors[i]);
    AgedIsAltered(d.h, m.gaps, m.pending, m.anchors[i]);
    IsSealed(d.h, m.gaps, m.pending, m.anchors[i]);
    var sorted := SortByEpoch(Shows(m));
    assert Shows(m)[i] in multiset(sorted);
    var k :| 0 <= k < |sorted| && sorted[k] == Shows(m)[i];
    assert AnchorLinkOk(d.h, sorted, k);
  }

  lemma IsSealed(h: Hashing, gaps: seq<Gap>, pending: Option<nat>, a: Stored)
    requires a.ref.Some? ==> a.ref.value < |gaps|
    requires SealedOk(h, gaps, pending, a)
    ensures a.sealed.anchorHash == AnchorHash(h, a.sealed)
  {
  }

  lemma ShowsCovers(d: C.Deployment, s: C.Track, m: Memory, j: nat)
    requires Remembers(d, s, m, j) && C.LogCovers(s.chain, s.taken[j])
    ensures C.LogCovers(s.chain, Shows(m))
    ensures C.AnchorsEmptyChain(Shows(m)) <==> C.AnchorsEmptyChain(s.taken[j])
    ensures C.RepeatsEpoch(s.taken[j]) ==> C.RepeatsEpoch(Shows(m))
  {
    hide SealedOk;
    var shown, taken := Shows(m), s.taken[j];
    forall i | 0 <= i < |shown|
      ensures shown[i].epoch == taken[i].epoch && shown[i].chainLength == taken[i].chainLength
      ensures C.Covers(s.chain, shown[i])
    {
      assert C.Covers(s.chain, taken[i]);
    }
  }

  lemma {:induction false} ShownChain(d: C.Deployment, es: seq<C.Event>, j: nat)
    requires j < |d.kinds|
    ensures var m := Run(d, j, es);
            || AnchorChainOk(d.h, SortByEpoch(Shows(m))) == (!C.Reused(d, es, j) && !GapRewritten(d, es, j))
            || (AnchorChainOk(d.h, SortByEpoch(Shows(m))) && RewriteCollides(d.h, m))
  {
    hide Run, C.Run, C.Reused, GapRewritten, AnchorChainOk, SortByEpoch, RewriteCollides, Remembers, SomeAged,
      C.LogCovers;
    var s, m := C.Run(d, es), Run(d, j, es);
    StaysRemembered(d, es, j);
    C.ManagerState(d, es);
    C.AnchorsCover(d, es, j);
    ShowsCovers(d, s, m, j);
    if C.Reused(d, es, j) {
      C.ReusedRepeats(d, es, j);
      C.RepeatBreaksAnchorChain(d.h, Shows(m));
    } else if GapRewritten(d, es, j) {
      if AnchorChainOk(d.h, SortByEpoch(Shows(m))) { AgedBreaksAnchorChain(d, s, m, j); }
    } else {
      ShowsWhatItTookIff(d, es, j);
      C.AnchorChainVerdict(d, es, j);
    }
  }

  /** Honest runs, on the in-memory sink, with whatever policy commits among its entries. P1, P2 and P4 are as
      on a sink that writes its entries out. The anchor chain (P3) is ESTABLISHED exactly when no epoch
      was reused there and no anchor was taken that another sink refused while a gap was pending,
      unless such an anchor as sealed and as it reads now collide. */
  lemma {:induction false} MemorySinkVerdicts(d: C.Deployment, es: seq<C.Event>, j: nat, log: seq<LogEntry>)
    requires j < |d.kinds| && d.kinds[j] == KeepsAll && Anchors(log) == Shows(Run(d, j, es))
    ensures |C.Run(d, es).taken| == |d.kinds|
    ensures var verdicts := Verdicts(d.h, C.Run(d, es).chain, log);
            && verdicts.Some?
            && verdicts.value.p1 == ESTABLISHED
            && (C.Run(d, es).taken[j] != [] ==>
                  && verdicts.value.p4 == ESTABLISHED
                  && verdicts.value.p2 == Decide(!C.EmptyLanding(d, es, j))
                  && (|| verdicts.value.p3 == Decide(!C.Reused(d, es, j) && !GapRewritten(d, es, j))
                      || (verdicts.value.p3 == ESTABLISHED && RewriteCollides(d.h, Run(d, j, es)))))
  {
    hide Run, C.Run, Verdicts, ChainOk, AnchorChainOk, C.Reused, GapRewritten, RewriteCollides, C.EmptyLanding,
      SortByEpoch, SealedOk, SomeAged, C.LogCovers;
    StaysRemembered(d, es, j);
    C.ManagerState(d, es);
    C.ChainIsHonest(d, es);
    C.AnchorsCover(d, es, j);
    ShowsCovers(d, C.Run(d, es), Run(d, j, es), j);
    C.LogVerdicts(d.h, C.Run(d, es).chain, log, Shows(Run(d, j, es)));
    ShownChain(d, es, j);
  }

  /** Two sinks: one append, an attempt both refuse, an attempt only the in-memory sink takes. It holds a single
      anchor, of an epoch it took once, and the manager has counted the second refusal in that anchor's
      gap: P3 is CONTRADICTION with nobody having tampered, unless the anchor as sealed and as it
      reads now collide. */
  lemma {:induction false} RefusedElsewhereIsRewritten(d: C.Deployment, now: real, draft: Draft, first: string,
      second: string, log: seq<LogEntry>)
    requires |d.kinds| == 2 && d.kinds[0] == KeepsAll
    requires Anchors(log) == Shows(Run(d, 0, [C.Append(now, draft), C.Attempt(first, Uptake({}, {})),
                                              C.Attempt(second, Uptake({0}, {}))]))
    ensures var es := [C.Append(now, draft), C.Attempt(first, Uptake({}, {})), C.Attempt(second, Uptake({0}, {}))];
            && !C.Reused(d, es, 0)
            && Verdicts(d.h, C.Run(d, es).chain, log).Some?
            && (|| Verdicts(d.h, C.Run(d, es).chain, log).value.p3 == CONTRADICTION
                || RewriteCollides(d.h, Run(d, 0, es)))
  {
    var es := [C.Append(now, draft), C.Attempt(first, Uptake({}, {})), C.Attempt(second, Uptake({0}, {}))];
    RefusedThenPartial(d, es);
    hide C.Run, Run, Verdicts, RewriteCollides, GapRewritten, C.Reused;
    MemorySinkVerdicts(d, es, 0, log);
    TookSomething(d, es, 0, 2);
  }

  lemma RefusedThenPartial(d: C.Deployment, es: seq<C.Event>)
    requires |d.kinds| == 2 && |es| == 3 && es[0].Append? && es[1].Attempt? && es[1].up == Uptake({}, {})
    requires es[2].Attempt? && es[2].up == Uptake({0}, {})
    ensures GapRewritten(d, es, 0) && !C.Reused(d, es, 0) && C.TookAt(d, es[2].up, 0)
  {
    hide C.Outage;
    assert C.Failed(d, es[1]) by { assert 0 !in es[1].up.acked; }
    assert C.PartialAt(d, es[2], 0) by { assert 1 !in es[2].up.acked; }
    OutageOf(d, es[0], es[1]);
    assert es[..2] == [es[0], es[1]];
  }

  lemma OutageOf(d: C.Deployment, e: C.Event, failed: C.Event)
    requires e.Append? && C.Failed(d, failed)
    ensures C.Outage(d, [e, failed]) == [failed.at]
  {
    assert [e, failed][..1] == [e] && [e][..0] == [];
    assert C.Outage(d, [e]) == [];
  }

  lemma {:induction false} TookSomething(d: C.Deployment, es: seq<C.Event>, j: nat, k: nat)
    requires j < |d.kinds| && k < |es| && es[k].Attempt? && C.TookAt(d, es[k].up, j)
    ensures |C.Run(d, es).taken| == |d.kinds| && C.Run(d, es).taken[j] != []
    decreases |es|
  {
    hide C.Run, C.Step, C.Outage, C.TookAt;
    C.ManagerState(d, es);
    var before, e := es[..|es| - 1], es[|es| - 1];
    C.ManagerState(d, before);
    C.RunUnfolds(d, es);
    if k < |before| { TookSomething(d, before, j, k); }
    StepTakes(d, C.Run(d, before), e, j);
  }

  lemma StepTakes(d: C.Deployment, s: C.Track, e: C.Event, j: nat)
    requires j < |s.taken|
    ensures |C.Step(d, s, e).taken| == |s.taken|
    ensures s.taken[j] != [] || (e.Attempt? && C.TookAt(d, e.up, j)) ==> C.Step(d, s, e).taken[j] != []
  {
    hide AfterAttempt, C.Offering, Entry;
  }
}
