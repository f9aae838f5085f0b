/** Whole runs of one tenant's chain and its anchoring into n sinks: appends and anchor attempts in any
    order, any sink down at any attempt. The verdicts here are those on a sink that keeps everything it
    takes, written out when it takes it; `SinkRuns` adds policy commits and the sinks that replace files,
    `MemorySinkRuns` the sink that keeps the objects. */
module CustodyRuns {
  import opened Base
  import opened AuditRecords
  import opened AuditChain
  import opened Custody
  import opened Anchoring
  import opened Sinks

  /** One tenant's chain, the manager's state for it, and the anchors each sink has taken of it. */
  datatype Track = Track(chain: seq<AuditRecord>, st: TenantState, taken: seq<seq<Anchor>>)

  datatype Event =
    | Append(now: real, d: Draft)
    | Attempt(at: string, up: Uptake)

  datatype Deployment = Deployment(h: Hashing, tenant: string, kinds: seq<SinkKind>)

  function Start(d: Deployment): Track {
    Track([], FRESH_STATE, Empties(|d.kinds|))
  }

  predicate TookAt(d: Deployment, up: Uptake, j: nat) {
    j < |d.kinds| && Took(d.kinds[j], up, j)
  }

  function Offer(d: Deployment, taken: seq<seq<Anchor>>, a: Anchor, up: Uptake): (after: seq<seq<Anchor>>)
    ensures |after| == |taken|
    ensures forall j | 0 <= j < |taken| :: after[j] == if TookAt(d, up, j) then taken[j] + [a] else taken[j]
  {
    if taken == [] then [] else
    var n := |taken| - 1;
    Offer(d, taken[..n], a, up) + [if TookAt(d, up, n) then taken[n] + [a] else taken[n]]
  }

  function Offering(d: Deployment, s: Track, e: Event): Anchor
    requires e.Attempt?
  {
    NextAnchor(d.h, d.tenant, s.st, |s.chain|, Head(s.chain), e.at)
  }

  function Step(d: Deployment, s: Track, e: Event): Track {
    match e
    case Append(now, draft) => s.(chain := s.chain + [Entry(d.h, Some(d.tenant), Head(s.chain), now, draft)])
    case Attempt(at, up) =>
      s.(st := AfterAttempt(d.h, d.tenant, s.st, |s.chain|, Head(s.chain), at, AllUp(|d.kinds|, up)),
         taken := Offer(d, s.taken, Offering(d, s, e), up))
  }

  function Run(d: Deployment, es: seq<Event>): Track {
    if es == [] then Start(d) else Step(d, Run(d, es[..|es| - 1]), es[|es| - 1])
  }

  // ---------------------------------------------------------------------------------------------
  // What a run did, read off its events
  // ---------------------------------------------------------------------------------------------

  predicate Landed(d: Deployment, e: Event) {
    e.Attempt? && AllUp(|d.kinds|, e.up)
  }

  predicate Failed(d: Deployment, e: Event) {
    e.Attempt? && !AllUp(|d.kinds|, e.up)
  }

  /** Sink j took an anchor that some other sink refused. */
  predicate PartialAt(d: Deployment, e: Event, j: nat) {
    Failed(d, e) && TookAt(d, e.up, j)
  }

  /** Sink j took an anchor while holding one that some other sink had refused: the manager offers the
      refused epoch again. */
  predicate Reused(d: Deployment, es: seq<Event>, j: nat) {
    exists k, l | 0 <= k < l < |es| :: PartialAt(d, es[k], j) && es[l].Attempt? && TookAt(d, es[l].up, j)
  }

  /** Sink j took an anchor of the empty chain, which only a forced attempt can offer. */
  predicate EmptyLanding(d: Deployment, es: seq<Event>, j: nat) {
    exists k | 0 <= k < |es| :: es[k].Attempt? && TookAt(d, es[k].up, j) && forall i | 0 <= i < k :: es[i].Attempt?
  }

  function FailedAttempts(d: Deployment, es: seq<Event>): nat {
    if es == [] then 0
    else FailedAttempts(d, es[..|es| - 1]) + if Failed(d, es[|es| - 1]) then 1 else 0
  }

  function LandedAttempts(d: Deployment, es: seq<Event>): nat {
    if es == [] then 0
    else LandedAttempts(d, es[..|es| - 1]) + if Landed(d, es[|es| - 1]) then 1 else 0
  }

  /** When each attempt failed since the last one that landed everywhere. */
  function Outage(d: Deployment, es: seq<Event>): seq<string> {
    if es == [] then [] else
    var e := es[|es| - 1];
    if Landed(d, e) then []
    else Outage(d, es[..|es| - 1]) + if e.Attempt? then [e.at] else []
  }

  /** The gap an outage must be reported as. */
  function GapOf(epoch: int, outage: seq<string>): Option<Gap> {
    if outage == [] then None else Some(Gap(epoch, |outage|, outage[0], outage[|outage| - 1]))
  }

  function AttemptsIn(gap: Json): int {
    if gap.Obj? && AttemptsKey in gap.fields && gap.fields[AttemptsKey].Int? then gap.fields[AttemptsKey].n else 0
  }

  function AttemptsSum(anchors: seq<Anchor>): int {
    if anchors == [] then 0 else AttemptsSum(anchors[..|anchors| - 1]) + AttemptsIn(anchors[|anchors| - 1].gap)
  }

  function PendingAttempts(st: TenantState): int {
    AttemptsIn(GapJson(st.pendingGap))
  }

  // ---------------------------------------------------------------------------------------------
  // The manager's own account
  // ---------------------------------------------------------------------------------------------

  /** Whatever the sinks do: the epoch counts the attempts that landed everywhere, and the pending gap
      describes exactly the failures since the last of them. */
  lemma {:induction false} ManagerState(d: Deployment, es: seq<Event>)
    ensures ManagerOk(d, Run(d, es), LandedAttempts(d, es), Outage(d, es))
  {
    if es != [] {
      var before, e := es[..|es| - 1], es[|es| - 1];
      ManagerState(d, before);
      ManagerStep(d, Run(d, before), e, LandedAttempts(d, before), Outage(d, before));
      RunUnfolds(d, es);
    }
  }

  ghost predicate ManagerOk(d: Deployment, s: Track, landed: nat, outage: seq<string>) {
    && s.st.epoch == landed
    && s.st.pendingGap == GapOf(landed + 1, outage)
    && |s.taken| == |d.kinds|
  }

  lemma ManagerStep(d: Deployment, s: Track, e: Event, landed: nat, outage: seq<string>)
    requires ManagerOk(d, s, landed, outage)
    ensures ManagerOk(d, Step(d, s, e), landed + (if Landed(d, e) then 1 else 0),
                      if Landed(d, e) then [] else outage + if e.Attempt? then [e.at] else [])
  {
    if e.Attempt? {
      GapGrows(d, s.st, |s.chain|, Head(s.chain), e.at, AllUp(|d.kinds|, e.up), outage);
    } else {
      assert outage + [] == outage;
    }
  }

  lemma GapGrows(d: Deployment, st: TenantState, length: int, head: string, at: string, landed: bool,
      outage: seq<string>)
    requires st.pendingGap == GapOf(st.epoch + 1, outage)
    ensures var after := AfterAttempt(d.h, d.tenant, st, length, head, at, landed);
            && after.epoch == st.epoch + (if landed then 1 else 0)
            && after.pendingGap == GapOf(after.epoch + 1, if landed then [] else outage + [at])
            && PendingAttempts(after) == (if landed then 0 else PendingAttempts(st) + 1)
            && PendingAttempts(st) == AttemptsIn(NextAnchor(d.h, d.tenant, st, length, head, at).gap)
  {
    var o := outage + [at];
    assert o[|o| - 1] == at && (outage != [] ==> o[0] == outage[0]);
  }

  // ---------------------------------------------------------------------------------------------
  // One sink's log
  // ---------------------------------------------------------------------------------------------

  lemma RunUnfolds(d: Deployment, es: seq<Event>)
    requires es != []
    ensures Run(d, es) == Step(d, Run(d, es[..|es| - 1]), es[|es| - 1])
  {
  }

  ghost predicate HonestChain(h: Hashing, chain: seq<AuditRecord>, idle: bool) {
    ChainOk(h, chain) && (chain == [] <==> idle)
  }

  lemma StepKeepsChain(d: Deployment, s: Track, e: Event, idle: bool)
    requires HonestChain(d.h, s.chain, idle)
    ensures HonestChain(d.h, Step(d, s, e).chain, idle && e.Attempt?)
  {
    if e.Append? {
      EntryExtends(d.h, s.chain, Some(d.tenant), e.now, e.d);
    }
  }

  lemma {:induction false} ChainIsHonest(d: Deployment, es: seq<Event>)
    ensures HonestChain(d.h, Run(d, es).chain, AllAttempts(es))
    decreases |es|
  {
    if es != [] {
      hide Run, Step, HonestChain, AllAttempts;
      var before, e := es[..|es| - 1], es[|es| - 1];
      ChainIsHonest(d, before);
      StepKeepsChain(d, Run(d, before), e, AllAttempts(before));
      assert es == before + [e];
      AllAttemptsStep(before, e);
      assert AllAttempts(es) == (AllAttempts(before) && e.Attempt?);
      RunUnfolds(d, es);
    }
  }

  predicate AllAttempts(es: seq<Event>) {
    forall i | 0 <= i < |es| :: es[i].Attempt?
  }

  lemma AllAttemptsStep(es: seq<Event>, e: Event)
    ensures AllAttempts(es + [e]) <==> AllAttempts(es) && e.Attempt?
  {
    assert (es + [e])[|es|] == e;
    assert forall i | 0 <= i < |es| :: (es + [e])[i] == es[i];
  }

  /** Some attempt of the run landed an anchor at sink j that only it and not every sink took. */
  predicate AheadAt(d: Deployment, es: seq<Event>, j: nat) {
    exists k | 0 <= k < |es| :: PartialAt(d, es[k], j)
  }

  /** The anchors of epochs 1..n in order, each linked to the one before. */
  ghost predicate CleanLog(h: Hashing, log: seq<Anchor>) {
    && AnchorChainOk(h, log)
    && forall i | 0 <= i < |log| :: log[i].epoch == i + 1
  }

  ghost predicate Covers(chain: seq<AuditRecord>, a: Anchor) {
    && 0 <= a.chainLength <= |chain|
    && a.headHash == Head(chain[..a.chainLength])
  }

  /** The last anchor taken of each epoch. */
  function Ladder(taken: seq<Anchor>): seq<Anchor> {
    if taken == [] then [] else
    var lower, a := Ladder(taken[..|taken| - 1]), taken[|taken| - 1];
    (if lower != [] && lower[|lower| - 1].epoch == a.epoch then lower[..|lower| - 1] else lower) + [a]
  }

  /** Whatever was refused, the last anchors a sink took of each epoch are a clean anchor chain, at most one
      ahead of the manager, and the `failed` attempts so far are all accounted for. */
  ghost predicate LadderOk(d: Deployment, s: Track, j: nat, failed: nat) {
    && j < |s.taken| == |d.kinds|
    && CleanLog(d.h, Ladder(s.taken[j]))
    && 0 <= s.st.epoch <= |Ladder(s.taken[j])| <= s.st.epoch + 1
    && s.st.anchorHash == (if s.st.epoch == 0 then GENESIS else Ladder(s.taken[j])[s.st.epoch - 1].anchorHash)
    && AttemptsSum(Ladder(s.taken[j])[..s.st.epoch]) + PendingAttempts(s.st) == failed
  }

  /** No epoch was taken twice, and `ahead` says whether one was taken that did not land everywhere. */
  predicate Straight(s: Track, j: nat, ahead: bool) {
    && j < |s.taken|
    && Ladder(s.taken[j]) == s.taken[j]
    && |s.taken[j]| == s.st.epoch + (if ahead then 1 else 0)
  }

  lemma ReusedStep(d: Deployment, es: seq<Event>, e: Event, j: nat)
    ensures Reused(d, es + [e], j) <==> Reused(d, es, j) || (AheadAt(d, es, j) && e.Attempt? && TookAt(d, e.up, j))
    ensures AheadAt(d, es + [e], j) <==> AheadAt(d, es, j) || PartialAt(d, e, j)
  {
    var all := es + [e];
    assert forall k | 0 <= k < |es| :: all[k] == es[k];
    assert all[|es|] == e;
    if Reused(d, all, j) {
      var k, l :| 0 <= k < l < |all| && PartialAt(d, all[k], j) && all[l].Attempt? && TookAt(d, all[l].up, j);
      assert PartialAt(d, es[k], j);
    }
    if Reused(d, es, j) {
      var k, l :| 0 <= k < l < |es| && PartialAt(d, es[k], j) && es[l].Attempt? && TookAt(d, es[l].up, j);
      assert PartialAt(d, all[k], j) && all[l].Attempt?;
    }
    if AheadAt(d, es, j) {
      var k :| 0 <= k < |es| && PartialAt(d, es[k], j);
      assert PartialAt(d, all[k], j);
    }
  }

  lemma {:induction false} LadderStaysOk(d: Deployment, es: seq<Event>, j: nat)
    requires j < |d.kinds|
    ensures LadderOk(d, Run(d, es), j, FailedAttempts(d, es))
    decreases |es|
  {
    if es == [] {
      NothingTaken(d, j);
    } else {
      hide Run, Step, LadderOk;
      var before, e := es[..|es| - 1], es[|es| - 1];
      LadderStaysOk(d, before, j);
      ManagerState(d, before);
      LadderStep(d, Run(d, before), e, j, FailedAttempts(d, before), Outage(d, before));
      RunUnfolds(d, es);
    }
  }

  lemma NothingTaken(d: Deployment, j: nat)
    requires j < |d.kinds|
    ensures LadderOk(d, Start(d), j, 0) && Straight(Start(d), j, false)
  {
  }

  lemma LadderStep(d: Deployment, s: Track, e: Event, j: nat, failed: nat, outage: seq<string>)
    requires LadderOk(d, s, j, failed) && s.st.pendingGap == GapOf(s.st.epoch + 1, outage)
    ensures LadderOk(d, Step(d, s, e), j, failed + if Failed(d, e) then 1 else 0)
  {
    if e.Attempt? {
      LadderAttempt(d, s, e, j, failed, outage);
    }
  }

  /** A newly taken anchor goes on top, in place of one that did not land. */
  lemma LadderGrows(h: Hashing, taken: seq<Anchor>, a: Anchor, epoch: nat)
    requires CleanLog(h, Ladder(taken)) && epoch <= |Ladder(taken)| <= epoch + 1 && a.epoch == epoch + 1
    ensures Ladder(taken + [a]) == Ladder(taken)[..epoch] + [a]
  {
    assert (taken + [a])[..|taken|] == taken;
  }

  lemma CleanPrefix(h: Hashing, log: seq<Anchor>, n: nat)
    requires CleanLog(h, log) && n <= |log|
    ensures CleanLog(h, log[..n])
  {
    forall i | 0 <= i < n ensures AnchorLinkOk(h, log[..n], i) {
      assert AnchorLinkOk(h, log, i);
    }
  }

  lemma LadderAttempt(d: Deployment, s: Track, e: Event, j: nat, failed: nat, outage: seq<string>)
    requires e.Attempt? && LadderOk(d, s, j, failed) && s.st.pendingGap == GapOf(s.st.epoch + 1, outage)
    ensures LadderOk(d, Step(d, s, e), j, failed + if Failed(d, e) then 1 else 0)
  {
    hide Step, Offer, AfterAttempt, NextAnchor, GapJson, GapOf, AnchorHash, AttemptsSum, AttemptsIn, PendingAttempts,
      Ladder, CleanLog;
    var a := Offering(d, s, e);
    OfferingIsSealed(d, s, e);
    AttemptStep(d, s, e, j);
    GapGrows(d, s.st, |s.chain|, Head(s.chain), e.at, AllUp(|d.kinds|, e.up), outage);
    if TookAt(d, e.up, j) {
      var lower := Ladder(s.taken[j])[..s.st.epoch];
      LadderGrows(d.h, s.taken[j], a, s.st.epoch);
      CleanPrefix(d.h, Ladder(s.taken[j]), s.st.epoch);
      CleanLogGrows(d.h, lower, a);
      Takes(lower, a, s.st.epoch);
    }
  }

  lemma {:induction false} StaysStraight(d: Deployment, es: seq<Event>, j: nat)
    requires j < |d.kinds| && !Reused(d, es, j)
    ensures Straight(Run(d, es), j, AheadAt(d, es, j))
    decreases |es|
  {
    if es == [] {
      NothingTaken(d, j);
    } else {
      hide Run, Step, Straight, Reused, AheadAt;
      var before, e := es[..|es| - 1], es[|es| - 1];
      assert before + [e] == es;
      ReusedStep(d, before, e, j);
      StaysStraight(d, before, j);
      LadderStaysOk(d, before, j);
      assert AheadAt(d, es, j) == (AheadAt(d, before, j) || PartialAt(d, e, j));
      StraightStep(d, Run(d, before), e, j, AheadAt(d, before, j), FailedAttempts(d, before));
      RunUnfolds(d, es);
    }
  }

  lemma StraightStep(d: Deployment, s: Track, e: Event, j: nat, ahead: bool, failed: nat)
    requires LadderOk(d, s, j, failed) && Straight(s, j, ahead)
    requires ahead && e.Attempt? ==> !TookAt(d, e.up, j)
    ensures Straight(Step(d, s, e), j, ahead || PartialAt(d, e, j))
  {
    if e.Attempt? {
      hide Step, Offer, AfterAttempt, NextAnchor, AnchorHash, AttemptsSum, PendingAttempts, Ladder;
      OfferingIsSealed(d, s, e);
      AttemptStep(d, s, e, j);
      EpochAfter(d, s, e);
      if TookAt(d, e.up, j) {
        LadderGrows(d.h, s.taken[j], Offering(d, s, e), s.st.epoch);
      }
    }
  }

  lemma EpochAfter(d: Deployment, s: Track, e: Event)
    requires e.Attempt?
    ensures Step(d, s, e).st.epoch == s.st.epoch + if Landed(d, e) then 1 else 0
  {
  }

  lemma CleanLogGrows(h: Hashing, log: seq<Anchor>, a: Anchor)
    requires CleanLog(h, log) && a.epoch == |log| + 1 && a.anchorHash == AnchorHash(h, a)
    requires a.prevAnchorHash == if log == [] then GENESIS else log[|log| - 1].anchorHash
    ensures CleanLog(h, log + [a])
  {
    forall i | 0 <= i < |log| + 1 ensures AnchorLinkOk(h, log + [a], i) {
      if i < |log| { assert AnchorLinkOk(h, log, i); }
    }
  }

  lemma OfferingIsSealed(d: Deployment, s: Track, e: Event)
    requires e.Attempt?
    ensures var a := Offering(d, s, e);
            && a.epoch == s.st.epoch + 1 && a.prevAnchorHash == s.st.anchorHash && a.anchorHash == AnchorHash(d.h, a)
            && a.chainLength == |s.chain| && a.headHash == Head(s.chain) && a.gap == GapJson(s.st.pendingGap)
            && a.tenantId == d.tenant && a.anchoredAt == e.at
  {
  }

  lemma AttemptStep(d: Deployment, s: Track, e: Event, j: nat)
    requires e.Attempt? && j < |s.taken|
    ensures var s' := Step(d, s, e);
            && |s'.taken| == |s.taken|
            && s'.st == AfterAttempt(d.h, d.tenant, s.st, |s.chain|, Head(s.chain), e.at, AllUp(|d.kinds|, e.up))
            && s'.st.anchorHash == (if Landed(d, e) then Offering(d, s, e).anchorHash else s.st.anchorHash)
            && s'.taken[j] == if TookAt(d, e.up, j) then s.taken[j] + [Offering(d, s, e)] else s.taken[j]
  {
  }

  lemma Takes(log: seq<Anchor>, a: Anchor, n: nat)
    requires n == |log|
    ensures (log + [a])[..n] == log[..n] == log && (log + [a])[..n + 1] == log + [a]
    ensures AttemptsSum(log + [a]) == AttemptsSum(log) + AttemptsIn(a.gap)
  {
    assert (log + [a])[..n] == log;
  }

  // ---------------------------------------------------------------------------------------------
  // Heads
  // ---------------------------------------------------------------------------------------------

  lemma CoversLater(chain: seq<AuditRecord>, e: AuditRecord, a: Anchor)
    requires Covers(chain, a)
    ensures Covers(chain + [e], a)
  {
    assert (chain + [e])[..a.chainLength] == chain[..a.chainLength];
  }

  ghost predicate LogCovers(chain: seq<AuditRecord>, log: seq<Anchor>) {
    forall i | 0 <= i < |log| :: Covers(chain, log[i])
  }

  predicate AnchorsEmptyChain(log: seq<Anchor>) {
    exists i | 0 <= i < |log| :: log[i].chainLength == 0
  }

  ghost predicate CoverOk(s: Track, j: nat, emptyLanding: bool) {
    j < |s.taken| && LogCovers(s.chain, s.taken[j]) && (AnchorsEmptyChain(s.taken[j]) <==> emptyLanding)
  }

  /** Every anchor a sink holds names the head the chain had at the anchor's length; the empty chain is
      anchored exactly when some attempt landed before the first append. */
  lemma {:induction false} AnchorsCover(d: Deployment, es: seq<Event>, j: nat)
    requires j < |d.kinds|
    ensures CoverOk(Run(d, es), j, EmptyLanding(d, es, j))
    decreases |es|
  {
    hide Run, Step, CoverOk, EmptyLanding, HonestChain, AllAttempts;
    if es == [] {
      NothingCovered(d, j);
    } else {
      var before, e := es[..|es| - 1], es[|es| - 1];
      AnchorsCover(d, before, j);
      assert es == before + [e];
      EmptyLandingIs(d, before, e, j);
      CoverStep(d, Run(d, before), e, j, EmptyLanding(d, before, j));
      RunUnfolds(d, es);
    }
  }

  lemma NothingCovered(d: Deployment, j: nat)
    requires j < |d.kinds|
    ensures CoverOk(Run(d, []), j, EmptyLanding(d, [], j))
  {
  }

  lemma EmptyLandingIs(d: Deployment, before: seq<Event>, e: Event, j: nat)
    ensures EmptyLanding(d, before + [e], j) ==
            (EmptyLanding(d, before, j) || (e.Attempt? && TookAt(d, e.up, j) && Run(d, before).chain == []))
  {
    hide Run, EmptyLanding, ChainOk, AllAttempts;
    ChainIsHonest(d, before);
    EmptyLandingStep(d, before, e, j);
  }

  lemma EmptyLandingStep(d: Deployment, es: seq<Event>, e: Event, j: nat)
    ensures EmptyLanding(d, es + [e], j) <==>
            EmptyLanding(d, es, j) || (e.Attempt? && TookAt(d, e.up, j) && AllAttempts(es))
  {
    var all := es + [e];
    assert forall k | 0 <= k < |es| :: all[k] == es[k];
    if EmptyLanding(d, es, j) {
      var k :| 0 <= k < |es| && es[k].Attempt? && TookAt(d, es[k].up, j) && forall i | 0 <= i < k :: es[i].Attempt?;
      assert all[k].Attempt? && TookAt(d, all[k].up, j);
    }
    assert all[|es|] == e;
  }

  lemma CoverStep(d: Deployment, s: Track, e: Event, j: nat, emptyLanding: bool)
    requires CoverOk(s, j, emptyLanding)
    ensures CoverOk(Step(d, s, e), j, emptyLanding || (e.Attempt? && TookAt(d, e.up, j) && s.chain == []))
  {
    if e.Append? {
      forall i | 0 <= i < |s.taken[j]| ensures Covers(Step(d, s, e).chain, s.taken[j][i]) {
        CoversLater(s.chain, Step(d, s, e).chain[|s.chain|], s.taken[j][i]);
      }
    } else {
      hide Step, Offer, Covers;
      AttemptStep(d, s, e, j);
      AttemptKeepsChain(d, s, e);
      if TookAt(d, e.up, j) {
        OfferingIsSealed(d, s, e);
        TakesCover(s.chain, s.taken[j], Offering(d, s, e));
      }
    }
  }

  lemma AttemptKeepsChain(d: Deployment, s: Track, e: Event)
    requires e.Attempt?
    ensures Step(d, s, e).chain == s.chain
  {
  }

  lemma TakesCover(chain: seq<AuditRecord>, log: seq<Anchor>, a: Anchor)
    requires LogCovers(chain, log) && a.chainLength == |chain| && a.headHash == Head(chain)
    ensures LogCovers(chain, log + [a])
    ensures AnchorsEmptyChain(log + [a]) <==> AnchorsEmptyChain(log) || chain == []
  {
    assert chain[..|chain|] == chain;
    var all := log + [a];
    assert all[|log|] == a && forall i | 0 <= i < |log| :: all[i] == log[i];
    if AnchorsEmptyChain(log) {
      var i :| 0 <= i < |log| && log[i].chainLength == 0;
      assert all[i].chainLength == 0;
    }
  }

  // ---------------------------------------------------------------------------------------------
  // A reused epoch cannot be hidden
  // ---------------------------------------------------------------------------------------------

  predicate RepeatsEpoch(xs: seq<Anchor>) {
    exists i, k | 0 <= i < k < |xs| :: xs[i].epoch == xs[k].epoch
  }

  function EpochCount(xs: seq<Anchor>, epoch: int): nat {
    if xs == [] then 0 else (if xs[0].epoch == epoch then 1 else 0) + EpochCount(xs[1..], epoch)
  }

  lemma {:induction false} InsertKeepsCount(x: Anchor, xs: seq<Anchor>, epoch: int)
    ensures EpochCount(InsertByEpoch(x, xs), epoch) == EpochCount(xs, epoch) + if x.epoch == epoch then 1 else 0
  {
    if xs != [] && x.epoch > xs[0].epoch {
      InsertKeepsCount(x, xs[1..], epoch);
    }
  }

  lemma {:induction false} SortKeepsCount(xs: seq<Anchor>, epoch: int)
    ensures EpochCount(SortByEpoch(xs), epoch) == EpochCount(xs, epoch)
  {
    if xs != [] {
      SortKeepsCount(xs[1..], epoch);
      InsertKeepsCount(xs[0], SortByEpoch(xs[1..]), epoch);
    }
  }

  lemma {:induction false} MemberCounts(xs: seq<Anchor>, k: nat)
    requires k < |xs|
    ensures EpochCount(xs, xs[k].epoch) >= 1
  {
    if k > 0 { MemberCounts(xs[1..], k - 1); }
  }

  lemma {:induction false} RepeatCountsTwice(xs: seq<Anchor>, i: nat, k: nat)
    requires i < k < |xs| && xs[i].epoch == xs[k].epoch
    ensures EpochCount(xs, xs[i].epoch) >= 2
  {
    if i > 0 {
      RepeatCountsTwice(xs[1..], i - 1, k - 1);
    } else {
      MemberCounts(xs[1..], k - 1);
    }
  }

  lemma {:induction false} AbsentCountsZero(xs: seq<Anchor>, epoch: int)
    requires forall i | 0 <= i < |xs| :: xs[i].epoch > epoch
    ensures EpochCount(xs, epoch) == 0
  {
    if xs != [] { AbsentCountsZero(xs[1..], epoch); }
  }

  lemma {:induction false} AscendingCountsOnce(xs: seq<Anchor>, epoch: int)
    requires forall i | 0 <= i < |xs| - 1 :: xs[i].epoch < xs[i + 1].epoch
    ensures EpochCount(xs, epoch) <= 1
  {
    if xs != [] {
      AscendingCountsOnce(xs[1..], epoch);
      if xs[0].epoch == epoch {
        LaterIsGreater(xs);
        AbsentCountsZero(xs[1..], epoch);
      }
    }
  }

  lemma {:induction false} LaterIsGreater(xs: seq<Anchor>)
    requires xs != [] && forall i | 0 <= i < |xs| - 1 :: xs[i].epoch < xs[i + 1].epoch
    ensures forall i | 0 < i < |xs| :: xs[0].epoch < xs[i].epoch
  {
    if |xs| > 1 {
      var rest := xs[1..];
      LaterIsGreater(rest);
      forall i | 0 < i < |xs| ensures xs[0].epoch < xs[i].epoch {
        assert xs[i] == rest[i - 1] && xs[0].epoch < rest[0].epoch;
      }
    }
  }

  /** However a log is sorted, two anchors of one epoch break the anchor chain. */
  lemma RepeatBreaksAnchorChain(h: Hashing, xs: seq<Anchor>)
    requires RepeatsEpoch(xs)
    ensures !AnchorChainOk(h, SortByEpoch(xs))
  {
    var i, k :| 0 <= i < k < |xs| && xs[i].epoch == xs[k].epoch;
    var sorted := SortByEpoch(xs);
    RepeatCountsTwice(xs, i, k);
    SortKeepsCount(xs, xs[i].epoch);
    if AnchorChainOk(h, sorted) {
      forall m | 0 <= m < |sorted| - 1 ensures sorted[m].epoch < sorted[m + 1].epoch {
        assert AnchorLinkOk(h, sorted, m + 1);
      }
      AscendingCountsOnce(sorted, xs[i].epoch);
    }
  }

  lemma {:induction false} ReusedRepeats(d: Deployment, es: seq<Event>, j: nat)
    requires j < |d.kinds| && Reused(d, es, j)
    ensures |Run(d, es).taken| == |d.kinds| && RepeatsEpoch(Run(d, es).taken[j])
  {
    var before, e := es[..|es| - 1], es[|es| - 1];
    ManagerState(d, es);
    ManagerState(d, before);
    assert before + [e] == es;
    ReusedStep(d, before, e, j);
    var s := Run(d, before);
    if Reused(d, before, j) {
      ReusedRepeats(d, before, j);
      RepeatsPersist(d, s, e, j);
    } else {
      StaysStraight(d, before, j);
      LadderStaysOk(d, before, j);
      AheadRepeats(d, s, e, j, FailedAttempts(d, before));
    }
  }

  lemma RepeatsPersist(d: Deployment, s: Track, e: Event, j: nat)
    requires j < |s.taken| && RepeatsEpoch(s.taken[j])
    ensures RepeatsEpoch(Step(d, s, e).taken[j])
  {
    var i, k :| 0 <= i < k < |s.taken[j]| && s.taken[j][i].epoch == s.taken[j][k].epoch;
    var log := Step(d, s, e).taken[j];
    assert log[i] == s.taken[j][i] && log[k] == s.taken[j][k];
  }

  lemma AheadRepeats(d: Deployment, s: Track, e: Event, j: nat, failed: nat)
    requires LadderOk(d, s, j, failed) && Straight(s, j, true) && e.Attempt? && TookAt(d, e.up, j)
    ensures RepeatsEpoch(Step(d, s, e).taken[j])
  {
    OfferingIsSealed(d, s, e);
    var log := Step(d, s, e).taken[j];
    var n := |s.taken[j]|;
    assert log[n - 1] == s.taken[j][n - 1] && log[n] == Offering(d, s, e);
    assert log[n - 1].epoch == log[n].epoch;
  }

  // ---------------------------------------------------------------------------------------------
  // The theorem
  // ---------------------------------------------------------------------------------------------

  function AsLog(anchors: seq<Anchor>): seq<LogEntry> {
    if anchors == [] then [] else [HeadAnchor(anchors[0])] + AsLog(anchors[1..])
  }

  lemma {:induction false} AsLogReadsBack(anchors: seq<Anchor>)
    ensures Anchors(AsLog(anchors)) == anchors && Commits(AsLog(anchors)) == []
  {
    if anchors != [] {
      AsLogReadsBack(anchors[1..]);
      assert anchors == [anchors[0]] + anchors[1..];
    }
  }

  lemma CleanLogIsSorted(h: Hashing, log: seq<Anchor>)
    requires CleanLog(h, log)
    ensures SortByEpoch(log) == log
  {
    SortOfAscending(log);
  }

  /** P2 against an honest chain fails only on anchors of the empty chain. */
  lemma HonestHeadsMatch(h: Hashing, chain: seq<AuditRecord>, a: Anchor)
    requires ChainOk(h, chain) && Covers(chain, a)
    ensures Recomputed(h, chain).Some?
    ensures HeadMatches(Recomputed(h, chain).value, a) <==> a.chainLength != 0
  {
    ChainRecomputes(h, chain);
    if a.chainLength != 0 {
      assert chain[..a.chainLength][a.chainLength - 1] == chain[a.chainLength - 1];
    }
  }

  lemma {:induction false} SortedAnchors(chain: seq<AuditRecord>, h: Hashing, log: seq<Anchor>)
    requires ChainOk(h, chain) && LogCovers(chain, log)
    ensures Recomputed(h, chain).Some?
    ensures forall a | a in SortByEpoch(log) :: a.chainLength <= |chain|
    ensures (forall a | a in SortByEpoch(log) :: HeadMatches(Recomputed(h, chain).value, a)) <==>
            !AnchorsEmptyChain(log)
  {
    ChainRecomputes(h, chain);
    var anchors := SortByEpoch(log);
    forall a | a in anchors
      ensures a.chainLength <= |chain| && a in log
      ensures HeadMatches(Recomputed(h, chain).value, a) <==> a.chainLength != 0
    {
      assert a in multiset(log);
      var i :| 0 <= i < |log| && log[i] == a;
      HonestHeadsMatch(h, chain, a);
    }
    if AnchorsEmptyChain(log) {
      var i :| 0 <= i < |log| && log[i].chainLength == 0;
      assert log[i] in multiset(anchors);
    }
  }

  /** Verifying an honest chain against a log whose anchors cover it leaves only two open questions. */
  lemma LogVerdicts(h: Hashing, chain: seq<AuditRecord>, log: seq<LogEntry>, anchors: seq<Anchor>)
    requires ChainOk(h, chain) && Anchors(log) == anchors && LogCovers(chain, anchors)
    ensures var verdicts := Verdicts(h, chain, log);
            && verdicts.Some?
            && verdicts.value.p1 == ESTABLISHED
            && (anchors != [] ==>
                  && verdicts.value.p4 == ESTABLISHED
                  && verdicts.value.p2 == Decide(!AnchorsEmptyChain(anchors))
                  && verdicts.value.p3 == Decide(AnchorChainOk(h, SortByEpoch(anchors))))
  {
    hide ChainOk, AnchorChainOk, LogCovers, Recomputed, HeadMatches, Cites, CommitOk, CitationOk, SortByEpoch,
        Anchors, Commits;
    SortedAnchors(chain, h, anchors);
    assert |SortByEpoch(anchors)| == |multiset(SortByEpoch(anchors))| == |multiset(anchors)| == |anchors|;
  }

  /** What sink j has to show for its head anchors. */
  function Shown(d: Deployment, es: seq<Event>, j: nat): seq<LogEntry>
    requires j < |d.kinds| == |Run(d, es).taken|
  {
    Held(d.kinds[j], AsLog(Run(d, es).taken[j]))
  }

  /** Honest runs, on a sink that keeps what it takes as it takes it. Whatever happens, verifying the chain against
      any such sink that holds an anchor finds the records consistent and complete (P1, P4). The anchor
      chain (P3) is ESTABLISHED exactly when that sink never took another anchor after one that some other
      sink refused, and the heads (P2) exactly when nothing was anchored before the first append; otherwise
      they are CONTRADICTION. */
  lemma {:induction false} HonestRunVerdicts(d: Deployment, es: seq<Event>, j: nat)
    requires j < |d.kinds| && d.kinds[j] == KeepsAll
    ensures |Run(d, es).taken| == |d.kinds|
    ensures var s := Run(d, es);
            var verdicts := Verdicts(d.h, s.chain, Shown(d, es, j));
            && verdicts.Some?
            && verdicts.value.p1 == ESTABLISHED
            && (s.taken[j] != [] ==>
                  && verdicts.value.p4 == ESTABLISHED
                  && verdicts.value.p2 == Decide(!EmptyLanding(d, es, j))
                  && verdicts.value.p3 == Decide(!Reused(d, es, j)))
  {
    hide Run, Verdicts, ChainOk, AnchorChainOk, Held;
    ChainIsHonest(d, es);
    AnchorsCover(d, es, j);
    ManagerState(d, es);
    AsLogReadsBack(Run(d, es).taken[j]);
    KeepsAllHoldsAll(AsLog(Run(d, es).taken[j]));
    LogVerdicts(d.h, Run(d, es).chain, AsLog(Run(d, es).taken[j]), Run(d, es).taken[j]);
    AnchorChainVerdict(d, es, j);
  }

  // ---------------------------------------------------------------------------------------------
  // A sink that replaces files, handed nothing but head anchors
  // ---------------------------------------------------------------------------------------------

  lemma AsLogCons(a: Anchor, xs: seq<Anchor>)
    ensures AsLog([a] + xs) == [HeadAnchor(a)] + AsLog(xs)
  {
    assert ([a] + xs)[1..] == xs;
  }

  lemma {:induction false} AsLogSplits(xs: seq<Anchor>, ys: seq<Anchor>)
    ensures AsLog(xs + ys) == AsLog(xs) + AsLog(ys)
    decreases |xs|
  {
    if xs == [] {
      assert xs + ys == ys && [] + AsLog(ys) == AsLog(ys);
    } else {
      var a, rest := xs[0], xs[1..];
      assert xs == [a] + rest && xs + ys == [a] + (rest + ys);
      AsLogSplits(rest, ys);
      AsLogCons(a, rest);
      AsLogCons(a, rest + ys);
      hide AsLog;
      assert [HeadAnchor(a)] + (AsLog(rest) + AsLog(ys)) == ([HeadAnchor(a)] + AsLog(rest)) + AsLog(ys);
    }
  }

  lemma {:induction false} WithoutSplits(xs: seq<LogEntry>, ys: seq<LogEntry>, e: LogEntry)
    ensures Without(xs + ys, e) == Without(xs, e) + Without(ys, e)
  {
    hide Without, SamePath;
    if xs == [] {
      NothingWithout(e);
      assert xs + ys == ys && [] + Without(ys, e) == Without(ys, e);
    } else {
      var x, rest := xs[0], xs[1..];
      assert xs == [x] + rest && xs + ys == [x] + (rest + ys);
      WithoutSplits(rest, ys, e);
      WithoutCons(x, rest, e);
      WithoutCons(x, rest + ys, e);
      var first := if SamePath(x, e) then [] else [x];
      assert first + (Without(rest, e) + Without(ys, e)) == (first + Without(rest, e)) + Without(ys, e);
    }
  }

  lemma NothingWithout(e: LogEntry)
    ensures Without([], e) == []
  {
  }

  lemma WithoutCons(x: LogEntry, xs: seq<LogEntry>, e: LogEntry)
    ensures Without([x] + xs, e) == (if SamePath(x, e) then [] else [x]) + Without(xs, e)
  {
    assert ([x] + xs)[1..] == xs;
  }

  lemma {:induction false} WithoutOthers(xs: seq<Anchor>, e: LogEntry)
    requires forall i | 0 <= i < |xs| :: xs[i].epoch != EpochOf(e)
    ensures Without(AsLog(xs), e) == AsLog(xs)
  {
    if xs != [] {
      WithoutOthers(xs[1..], e);
    }
  }

  /** Replacing the file of the next epoch leaves the files of the epochs below it. */
  lemma ReplaceTop(h: Hashing, ladder: seq<Anchor>, a: Anchor, epoch: nat)
    requires CleanLog(h, ladder) && epoch <= |ladder| <= epoch + 1 && a.epoch == epoch + 1
    requires forall i | 0 <= i < |ladder| :: ladder[i].tenantId == a.tenantId
    ensures Without(AsLog(ladder), HeadAnchor(a)) + [HeadAnchor(a)] == AsLog(ladder[..epoch] + [a])
  {
    hide AnchorChainOk;
    var lower, top := ladder[..epoch], ladder[epoch..];
    assert ladder == lower + top;
    AsLogSplits(lower, top);
    WithoutSplits(AsLog(lower), AsLog(top), HeadAnchor(a));
    WithoutOthers(lower, HeadAnchor(a));
    if top != [] {
      assert top == [ladder[epoch]];
      assert AsLog(top) == [HeadAnchor(ladder[epoch])] + AsLog([]);
      assert Without(AsLog(top), HeadAnchor(a)) == [];
    }
    AsLogSplits(lower, [a]);
    assert AsLog([a]) == [HeadAnchor(a)] + AsLog([]);
  }

  predicate OneTenantAnchors(tenant: string, xs: seq<Anchor>) {
    forall i | 0 <= i < |xs| :: xs[i].tenantId == tenant
  }

  /** The files are the last anchors taken of each epoch. */
  lemma {:induction false} FilesAreTheLadder(d: Deployment, es: seq<Event>, j: nat)
    requires j < |d.kinds|
    ensures |Run(d, es).taken| == |d.kinds|
    ensures Held(KeepsLatest, AsLog(Run(d, es).taken[j])) == AsLog(Ladder(Run(d, es).taken[j]))
    ensures OneTenantAnchors(d.tenant, Ladder(Run(d, es).taken[j]))
    decreases |es|
  {
    ManagerState(d, es);
    if es != [] {
      var before, e := es[..|es| - 1], es[|es| - 1];
      FilesAreTheLadder(d, before, j);
      LadderStaysOk(d, before, j);
      RunUnfolds(d, es);
      FilesStep(d, Run(d, before), e, j, FailedAttempts(d, before));
    }
  }

  lemma AsLogOne(a: Anchor)
    ensures AsLog([a]) == [HeadAnchor(a)]
  {
    assert AsLog([a]) == [HeadAnchor(a)] + AsLog([]);
  }

  lemma FilesTake(d: Deployment, taken: seq<Anchor>, a: Anchor, epoch: nat)
    requires Held(KeepsLatest, AsLog(taken)) == AsLog(Ladder(taken)) && OneTenantAnchors(d.tenant, Ladder(taken))
    requires CleanLog(d.h, Ladder(taken)) && epoch <= |Ladder(taken)| <= epoch + 1
    requires a.epoch == epoch + 1 && a.tenantId == d.tenant
    ensures Held(KeepsLatest, AsLog(taken + [a])) == AsLog(Ladder(taken + [a]))
    ensures OneTenantAnchors(d.tenant, Ladder(taken + [a]))
  {
    hide Held, AsLog, Without, Ladder, CleanLog;
    LadderGrows(d.h, taken, a, epoch);
    ReplaceTop(d.h, Ladder(taken), a, epoch);
    AsLogSplits(taken, [a]);
    AsLogOne(a);
    HeldSnoc(KeepsLatest, AsLog(taken), HeadAnchor(a));
  }

  lemma FilesStep(d: Deployment, s: Track, e: Event, j: nat, failed: nat)
    requires LadderOk(d, s, j, failed) && OneTenantAnchors(d.tenant, Ladder(s.taken[j]))
    requires Held(KeepsLatest, AsLog(s.taken[j])) == AsLog(Ladder(s.taken[j]))
    ensures j < |Step(d, s, e).taken|
    ensures Held(KeepsLatest, AsLog(Step(d, s, e).taken[j])) == AsLog(Ladder(Step(d, s, e).taken[j]))
    ensures OneTenantAnchors(d.tenant, Ladder(Step(d, s, e).taken[j]))
  {
    if e.Attempt? {
      hide Step, Offer, Ladder, CleanLog, Held, AsLog, Without, NextAnchor, AnchorHash, GapJson, AttemptsSum,
        OneTenantAnchors;
      AttemptStep(d, s, e, j);
      if TookAt(d, e.up, j) {
        OfferingIsSealed(d, s, e);
        FilesTake(d, s.taken[j], Offering(d, s, e), s.st.epoch);
      }
    }
  }

  /** On a sink that replaces files and is handed only head anchors, no outage anywhere breaks the anchor
      chain: whatever it shows, P1, P3 and P4 are ESTABLISHED; the epochs are exactly 1..k in order, k the
      number of landed attempts or one more; and the attempts reported by the landed gaps and the pending
      one add up to the number of attempts that failed. */
  lemma {:induction false} ReplacingSinkVerdicts(d: Deployment, es: seq<Event>, j: nat)
    requires j < |d.kinds| && d.kinds[j] == KeepsLatest
    ensures |Run(d, es).taken| == |d.kinds|
    ensures var s := Run(d, es);
            var shown := Anchors(Shown(d, es, j));
            var landed := LandedAttempts(d, es);
            && landed <= |shown| <= landed + 1
            && (shown == [] <==> s.taken[j] == [])
            && (forall i | 0 <= i < |shown| :: shown[i].epoch == i + 1)
            && AttemptsSum(shown[..landed]) + PendingAttempts(s.st) == FailedAttempts(d, es)
    ensures var verdicts := Verdicts(d.h, Run(d, es).chain, Shown(d, es, j));
            && verdicts.Some?
            && verdicts.value.p1 == ESTABLISHED
            && (Run(d, es).taken[j] != [] ==> verdicts.value.p3 == ESTABLISHED && verdicts.value.p4 == ESTABLISHED)
  {
    hide Run, Verdicts, ChainOk, AnchorChainOk, Held, Ladder, AttemptsSum, PendingAttempts;
    ManagerState(d, es);
    FilesAreTheLadder(d, es, j);
    LadderStaysOk(d, es, j);
    var taken := Run(d, es).taken[j];
    AsLogReadsBack(Ladder(taken));
    ChainIsHonest(d, es);
    AnchorsCover(d, es, j);
    LadderCovers(Run(d, es).chain, taken);
    LogVerdicts(d.h, Run(d, es).chain, AsLog(Ladder(taken)), Ladder(taken));
    CleanLogIsSorted(d.h, Ladder(taken));
    LadderEmpty(taken);
  }

  lemma LadderEmpty(taken: seq<Anchor>)
    ensures Ladder(taken) == [] <==> taken == []
  {
  }

  lemma {:induction false} LadderCovers(chain: seq<AuditRecord>, taken: seq<Anchor>)
    requires LogCovers(chain, taken)
    ensures LogCovers(chain, Ladder(taken))
  {
    if taken != [] {
      LadderCovers(chain, taken[..|taken| - 1]);
    }
  }

  lemma {:induction false} AnchorChainVerdict(d: Deployment, es: seq<Event>, j: nat)
    requires j < |d.kinds| && |Run(d, es).taken| == |d.kinds|
    ensures AnchorChainOk(d.h, SortByEpoch(Run(d, es).taken[j])) <==> !Reused(d, es, j)
  {
    if Reused(d, es, j) {
      ReusedRepeats(d, es, j);
      RepeatBreaksAnchorChain(d.h, Run(d, es).taken[j]);
    } else {
      StaysStraight(d, es, j);
      LadderStaysOk(d, es, j);
      CleanLogIsSorted(d.h, Run(d, es).taken[j]);
    }
  }

  /** With a single sink that keeps what it takes, and so cannot be refused behind its own back: once an
      anchor has landed and unless the empty chain was forced, P1 to P4 are all ESTABLISHED; the epochs
      are exactly 1..k in order; and the attempts reported by the landed gaps and the pending one add up
      to the number of attempts that failed. */
  lemma {:induction false} SingleSinkRun(d: Deployment, es: seq<Event>)
    requires d.kinds == [KeepsAll] && !EmptyLanding(d, es, 0)
    ensures |Run(d, es).taken| == 1
    ensures var s := Run(d, es);
            var log := s.taken[0];
            && |log| == LandedAttempts(d, es)
            && (forall i | 0 <= i < |log| :: log[i].epoch == i + 1)
            && AttemptsSum(log) + PendingAttempts(s.st) == FailedAttempts(d, es)
    ensures var s := Run(d, es);
            var verdicts := Verdicts(d.h, s.chain, Shown(d, es, 0));
            s.taken[0] != [] ==>
              && verdicts.Some?
              && verdicts.value.p1 == verdicts.value.p2 == verdicts.value.p3 == verdicts.value.p4 == ESTABLISHED
  {
    hide Run, Step, Verdicts, AttemptsSum, ChainOk, AnchorChainOk;
    forall e: Event ensures !PartialAt(d, e, 0) {
      if e.Attempt? && TookAt(d, e.up, 0) { assert AllUp(1, e.up); }
    }
    HonestRunVerdicts(d, es, 0);
    StaysStraight(d, es, 0);
    LadderStaysOk(d, es, 0);
    ManagerState(d, es);
    assert Run(d, es).taken[0][..Run(d, es).st.epoch] == Run(d, es).taken[0];
  }

  /** A second sink suffices to break a sink that keeps everything: one append, an attempt only the first
      takes, and an attempt both take leave the first sink's anchor log in CONTRADICTION, with nobody
      having tampered. */
  lemma TwoSinksBreakTheAnchorChain(d: Deployment, now: real, draft: Draft, at: string)
    requires |d.kinds| == 2 && d.kinds[0] == KeepsAll
    ensures var es := [Append(now, draft), Attempt(at, Uptake({0}, {})), Attempt(at, Uptake({0, 1}, {}))];
            && |Run(d, es).taken| == 2 && Run(d, es).taken[0] != []
            && Verdicts(d.h, Run(d, es).chain, Shown(d, es, 0)).Some?
            && Verdicts(d.h, Run(d, es).chain, Shown(d, es, 0)).value.p3 == CONTRADICTION
  {
    var es := [Append(now, draft), Attempt(at, Uptake({0}, {})), Attempt(at, Uptake({0, 1}, {}))];
    assert PartialAt(d, es[1], 0) by { assert 1 !in es[1].up.acked; }
    assert es[2].Attempt? && TookAt(d, es[2].up, 0);
    hide Run, Verdicts, Shown;
    HonestRunVerdicts(d, es, 0);
    ReusedRepeats(d, es, 0);
  }

  /** An anchor of the empty chain, once taken, fails P2 at a sink that keeps everything whatever is appended
      and anchored later. */
  lemma {:induction false} EmptyAnchorFailsP2(d: Deployment, at: string, up: Uptake, later: seq<Event>, j: nat)
    requires j < |d.kinds| && d.kinds[j] == KeepsAll && TookAt(d, up, j)
    ensures var es := [Attempt(at, up)] + later;
            && |Run(d, es).taken| == |d.kinds|
            && Verdicts(d.h, Run(d, es).chain, Shown(d, es, j)).Some?
            && Verdicts(d.h, Run(d, es).chain, Shown(d, es, j)).value.p2 == CONTRADICTION
  {
    hide Run, Verdicts, Shown, Covers;
    var es := [Attempt(at, up)] + later;
    assert es[0] == Attempt(at, up);
    assert EmptyLanding(d, es, j);
    HonestRunVerdicts(d, es, j);
    AnchorsCover(d, es, j);
  }
}
