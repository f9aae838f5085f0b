/** Whole runs of one tenant's custody with both things a sink is handed: head anchors and policy commits,
    whose epochs are counted separately and which a file-per-epoch sink stores under the same names. */
module SinkRuns {
  import opened Base
  import opened AuditRecords
  import opened AuditChain
  import opened Custody
  import opened Sinks
  import opened Anchoring
  import C = CustodyRuns

  /** The chain and the head anchors as in `CustodyRuns`, the state of the commit chain, and everything each
      sink has taken. */
  datatype Books = Books(track: C.Track, cst: CommitState, taken: seq<seq<LogEntry>>)

  datatype Deed =
    | Custodial(e: C.Event)
    | Committing(digest: string, canonical: string, at: string, up: Uptake)

  function Start(d: C.Deployment): Books {
    Books(C.Start(d), CommitState(0, GENESIS), Empties(|d.kinds|))
  }

  /** The deed hands something to the sinks. */
  predicate Offers(x: Deed) {
    x.Committing? || x.e.Attempt?
  }

  predicate OffersAnchor(x: Deed) {
    x.Custodial? && x.e.Attempt?
  }

  function UpOf(x: Deed): Uptake
    requires Offers(x)
  {
    if x.Committing? then x.up else x.e.up
  }

  predicate Takes(d: C.Deployment, x: Deed, j: nat) {
    Offers(x) && C.TookAt(d, UpOf(x), j)
  }

  predicate Lands(d: C.Deployment, x: Deed) {
    Offers(x) && AllUp(|d.kinds|, UpOf(x))
  }

  function Queued(d: C.Deployment, x: Deed): QueuedCommit
    requires x.Committing?
  {
    QueuedCommit(d.tenant, x.digest, x.canonical)
  }

  function Offering(d: C.Deployment, s: Books, x: Deed): LogEntry
    requires Offers(x)
  {
    if x.Committing? then Commit(NextCommit(d.h, s.cst, Queued(d, x), x.at))
    else HeadAnchor(C.Offering(d, s.track, x.e))
  }

  function Shelve(d: C.Deployment, taken: seq<seq<LogEntry>>, e: LogEntry, x: Deed): (after: seq<seq<LogEntry>>)
    ensures |after| == |taken|
    ensures forall j | 0 <= j < |taken| :: after[j] == if Takes(d, x, j) then taken[j] + [e] else taken[j]
  {
    if taken == [] then [] else
    var n := |taken| - 1;
    Shelve(d, taken[..n], e, x) + [if Takes(d, x, n) then taken[n] + [e] else taken[n]]
  }

  function Step(d: C.Deployment, s: Books, x: Deed): Books {
    Books(
      if x.Custodial? then C.Step(d, s.track, x.e) else s.track,
      if x.Committing? && Lands(d, x)
      then CommitState(s.cst.epoch + 1, NextCommit(d.h, s.cst, Queued(d, x), x.at).anchorHash) else s.cst,
      if Offers(x) then Shelve(d, s.taken, Offering(d, s, x), x) else s.taken)
  }

  function Run(d: C.Deployment, xs: seq<Deed>): Books {
    if xs == [] then Start(d) else Step(d, Run(d, xs[..|xs| - 1]), xs[|xs| - 1])
  }

  /** The last deed, and the run before it. */
  lemma Last(xs: seq<Deed>) returns (before: seq<Deed>, x: Deed)
    requires xs != []
    ensures xs == before + [x] && |before| < |xs|
  {
    before, x := xs[..|xs| - 1], xs[|xs| - 1];
  }

  lemma RunUnfolds(d: C.Deployment, xs: seq<Deed>, x: Deed)
    ensures Run(d, xs + [x]) == Step(d, Run(d, xs), x)
  {
    assert (xs + [x])[..|xs|] == xs;
  }

  // ---------------------------------------------------------------------------------------------
  // What a run did, read off its deeds
  // ---------------------------------------------------------------------------------------------

  /** How many head anchors, or how many commits, landed in every sink. */
  function LandedBefore(d: C.Deployment, xs: seq<Deed>, commits: bool): nat {
    if xs == [] then 0 else
    var x := xs[|xs| - 1];
    LandedBefore(d, xs[..|xs| - 1], commits) + if Lands(d, x) && x.Committing? == commits then 1 else 0
  }

  /** The epoch deed k offers its entry under: one past the landed entries of its kind. */
  function EpochAt(d: C.Deployment, xs: seq<Deed>, k: nat): nat
    requires k < |xs|
  {
    LandedBefore(d, xs[..k], xs[k].Committing?) + 1
  }

  function EntryAt(d: C.Deployment, xs: seq<Deed>, k: nat): LogEntry
    requires k < |xs| && Offers(xs[k])
  {
    Offering(d, Run(d, xs[..k]), xs[k])
  }

  /** A sink that replaces files took something of the same epoch later, of whichever kind. */
  predicate Overwritten(d: C.Deployment, xs: seq<Deed>, k: nat, j: nat)
    requires k < |xs| && j < |d.kinds|
  {
    && d.kinds[j] == KeepsLatest
    && exists l | k < l < |xs| :: Takes(d, xs[l], j) && EpochAt(d, xs, l) == EpochAt(d, xs, k)
  }

  /** Sink j took what deed k offered and still shows it at the end. */
  predicate Survives(d: C.Deployment, xs: seq<Deed>, k: nat, j: nat)
    requires k < |xs| && j < |d.kinds|
  {
    Takes(d, xs[k], j) && !Overwritten(d, xs, k, j)
  }

  /** What sink j has to show. */
  function Shown(d: C.Deployment, xs: seq<Deed>, j: nat): seq<LogEntry>
    requires j < |d.kinds| == |Run(d, xs).taken|
  {
    Held(d.kinds[j], Run(d, xs).taken[j])
  }

  /** The run without its commits. */
  function Plain(xs: seq<Deed>): seq<C.Event> {
    if xs == [] then [] else
    var x := xs[|xs| - 1];
    Plain(xs[..|xs| - 1]) + if x.Custodial? then [x.e] else []
  }

  // ---------------------------------------------------------------------------------------------
  // The two machines side by side
  // ---------------------------------------------------------------------------------------------

  lemma {:induction false} AnchorsSnoc(log: seq<LogEntry>, e: LogEntry)
    ensures Anchors(log + [e]) == Anchors(log) + if e.HeadAnchor? then [e.anchor] else []
    ensures Commits(log + [e]) == Commits(log) + if e.Commit? then [e.commit] else []
  {
    if log == [] {
      assert [] + [e] == [e] && [e][1..] == [];
    } else {
      AnchorsSnoc(log[1..], e);
      assert (log + [e])[1..] == log[1..] + [e];
    }
  }

  ghost predicate InStep(d: C.Deployment, s: Books, plain: seq<C.Event>, anchors: nat, commits: nat) {
    && s.track == C.Run(d, plain)
    && |s.taken| == |d.kinds| == |s.track.taken|
    && s.track.st.epoch == anchors && s.cst.epoch == commits
    && forall j | 0 <= j < |d.kinds| :: Anchors(s.taken[j]) == s.track.taken[j]
  }

  /** Commits leave the head anchors alone: the run is a `CustodyRuns` run with commits mixed in, and the two
      epoch counters count what landed. */
  lemma {:induction false} StaysInStep(d: C.Deployment, xs: seq<Deed>)
    ensures InStep(d, Run(d, xs), Plain(xs), LandedBefore(d, xs, false), LandedBefore(d, xs, true))
    decreases |xs|
  {
    if xs == [] {
      StartsInStep(d);
    } else {
      hide C.Run, C.Step, InStep, Run, Step, LandedBefore, Plain;
      var before, x := Last(xs);
      StaysInStep(d, before);
      OneMoreInStep(d, before, x, xs);
    }
  }

  lemma OneMoreInStep(d: C.Deployment, before: seq<Deed>, x: Deed, xs: seq<Deed>)
    requires xs == before + [x]
    requires InStep(d, Run(d, before), Plain(before), LandedBefore(d, before, false), LandedBefore(d, before, true))
    ensures InStep(d, Run(d, xs), Plain(xs), LandedBefore(d, xs, false), LandedBefore(d, xs, true))
  {
    hide C.Run, C.Step, InStep, Run, Step, LandedBefore, Plain;
    RunUnfolds(d, before, x);
    PlainSnoc(before, x);
    LandedSnoc(d, before, x, false);
    LandedSnoc(d, before, x, true);
    StepInStep(d, Run(d, before), x, Plain(before), LandedBefore(d, before, false), LandedBefore(d, before, true),
               Plain(xs), LandedBefore(d, xs, false), LandedBefore(d, xs, true));
  }

  lemma StartsInStep(d: C.Deployment)
    ensures InStep(d, Run(d, []), Plain([]), LandedBefore(d, [], false), LandedBefore(d, [], true))
  {
  }

  lemma LandedSnoc(d: C.Deployment, xs: seq<Deed>, x: Deed, commits: bool)
    ensures LandedBefore(d, xs + [x], commits) ==
            LandedBefore(d, xs, commits) + if Lands(d, x) && x.Committing? == commits then 1 else 0
  {
    assert (xs + [x])[..|xs|] == xs;
  }

  lemma PlainSnoc(xs: seq<Deed>, x: Deed)
    ensures Plain(xs + [x]) == if x.Custodial? then Plain(xs) + [x.e] else Plain(xs)
  {
    assert (xs + [x])[..|xs|] == xs;
    assert Plain(xs) + [] == Plain(xs);
  }

  lemma TrackSnoc(d: C.Deployment, plain: seq<C.Event>, e: C.Event)
    ensures C.Run(d, plain + [e]) == C.Step(d, C.Run(d, plain), e)
  {
    assert (plain + [e])[..|plain|] == plain;
  }

  lemma StepInStep(d: C.Deployment, s: Books, x: Deed, plain: seq<C.Event>, anchors: nat, commits: nat,
      plain': seq<C.Event>, anchors': nat, commits': nat)
    requires InStep(d, s, plain, anchors, commits)
    requires plain' == if x.Custodial? then plain + [x.e] else plain
    requires anchors' == anchors + if Lands(d, x) && x.Committing? == false then 1 else 0
    requires commits' == commits + if Lands(d, x) && x.Committing? == true then 1 else 0
    ensures InStep(d, Step(d, s, x), plain', anchors', commits')
  {
    hide C.Run, NextCommit, AfterAttempt, C.Offering;
    if x.Custodial? {
      TrackSnoc(d, plain, x.e);
      TrackGrows(d, s.track, x.e);
    }
    var s' := Step(d, s, x);
    forall j | 0 <= j < |d.kinds| ensures Anchors(s'.taken[j]) == s'.track.taken[j] {
      if Takes(d, x, j) { AnchorsSnoc(s.taken[j], Offering(d, s, x)); }
    }
  }

  lemma TrackGrows(d: C.Deployment, s: C.Track, e: C.Event)
    ensures var s' := C.Step(d, s, e);
            && |s'.taken| == |s.taken|
            && s'.st.epoch == s.st.epoch + (if e.Attempt? && AllUp(|d.kinds|, e.up) then 1 else 0)
            && forall j | 0 <= j < |s.taken| ::
                 s'.taken[j] ==
                 if e.Attempt? && C.TookAt(d, e.up, j) then s.taken[j] + [C.Offering(d, s, e)] else s.taken[j]
  {
  }

  lemma EntryIsNamed(d: C.Deployment, xs: seq<Deed>, k: nat)
    requires k < |xs| && Offers(xs[k])
    ensures EpochOf(EntryAt(d, xs, k)) == EpochAt(d, xs, k) && TenantOf(EntryAt(d, xs, k)) == d.tenant
    ensures EntryAt(d, xs, k).Commit? <==> xs[k].Committing?
  {
    hide AnchorHash, CommitHash;
    StaysInStep(d, xs[..k]);
  }

  /** The hash of the last commitment that landed, or the genesis value. */
  function LastCommitted(d: C.Deployment, xs: seq<Deed>): string {
    if xs == [] then GENESIS else
    var n := |xs| - 1;
    if xs[n].Committing? && Lands(d, xs[n]) then EntryAt(d, xs, n).commit.anchorHash else LastCommitted(d, xs[..n])
  }

  /** The commitments form a chain of their own: each names the hash of the last one that landed, and carries the next
      epoch. */
  lemma {:induction false} CommitsChain(d: C.Deployment, xs: seq<Deed>, x: Deed)
    requires x.Committing?
    ensures Run(d, xs).cst.anchorHash == LastCommitted(d, xs)
    ensures var c := Offering(d, Run(d, xs), x).commit;
            && c.prevAnchorHash == LastCommitted(d, xs) && c.epoch == LandedBefore(d, xs, true) + 1
            && c.tenantId == d.tenant && c.headHash == x.digest && c.canonicalJson == x.canonical
            && c.anchoredAt == x.at && c.anchorHash == CommitHash(d.h, c)
    decreases |xs|
  {
    hide CommitHash, LandedBefore;
    StaysInStep(d, xs);
    NextCommitIs(d.h, Run(d, xs).cst, Queued(d, x), x.at);
    if xs != [] {
      CommitsChain(d, xs[..|xs| - 1], x);
    }
  }

  // ---------------------------------------------------------------------------------------------
  // What a sink still shows
  // ---------------------------------------------------------------------------------------------

  lemma PrefixAgrees(d: C.Deployment, before: seq<Deed>, x: Deed, k: nat)
    requires k < |before|
    ensures (before + [x])[k] == before[k] && EpochAt(d, before + [x], k) == EpochAt(d, before, k)
    ensures Offers(before[k]) ==> EntryAt(d, before + [x], k) == EntryAt(d, before, k)
  {
    assert (before + [x])[..k] == before[..k];
  }

  lemma OverwrittenSnoc(d: C.Deployment, before: seq<Deed>, x: Deed, k: nat, j: nat)
    requires k < |before| && j < |d.kinds|
    ensures Overwritten(d, before + [x], k, j) <==>
            || Overwritten(d, before, k, j)
            || (d.kinds[j] == KeepsLatest && Takes(d, x, j)
                && EpochAt(d, before + [x], |before|) == EpochAt(d, before, k))
  {
    hide EpochAt, Takes;
    var all := before + [x];
    assert all[|before|] == x;
    forall l | 0 <= l < |before| ensures all[l] == before[l] && EpochAt(d, all, l) == EpochAt(d, before, l) {
      PrefixAgrees(d, before, x, l);
    }
  }

  ghost predicate ShowsSurvivors(d: C.Deployment, xs: seq<Deed>, j: nat, e: LogEntry)
    requires j < |d.kinds|
  {
    exists k | 0 <= k < |xs| :: Survives(d, xs, k, j) && EntryAt(d, xs, k) == e
  }

  lemma SurvivorsSnoc(d: C.Deployment, before: seq<Deed>, x: Deed, j: nat, e: LogEntry)
    requires j < |d.kinds|
    ensures ShowsSurvivors(d, before + [x], j, e) <==>
            || (Takes(d, x, j) && Offering(d, Run(d, before), x) == e)
            || (ShowsSurvivors(d, before, j, e)
                && !(d.kinds[j] == KeepsLatest && Takes(d, x, j) && SamePath(e, Offering(d, Run(d, before), x))))
  {
    hide Offering, Takes, EpochAt, Overwritten, LandedBefore;
    var all, n := before + [x], |before|;
    assert all[n] == x && all[..n] == before;
    if Takes(d, x, j) {
      TakesOffers(d, x, j);
      LastSurvives(d, before, x, j);
      EntryIsNamed(d, all, n);
    }
    forall k | 0 <= k < n && Takes(d, before[k], j)
      ensures Offers(before[k]) && EntryAt(d, all, k) == EntryAt(d, before, k) && all[k] == before[k]
      ensures Survives(d, all, k, j) <==>
              Survives(d, before, k, j) && !(d.kinds[j] == KeepsLatest && Takes(d, x, j)
                                             && SamePath(EntryAt(d, before, k), Offering(d, Run(d, before), x)))
    {
      TakesOffers(d, before[k], j);
      PrefixAgrees(d, before, x, k);
      OverwrittenSnoc(d, before, x, k, j);
      EntryIsNamed(d, before, k);
    }
    if ShowsSurvivors(d, before, j, e) {
      var k :| 0 <= k < n && Survives(d, before, k, j) && EntryAt(d, before, k) == e;
      assert Survives(d, all, k, j) || (Takes(d, x, j) && SamePath(e, Offering(d, Run(d, before), x)));
    }
  }

  lemma TakesOffers(d: C.Deployment, x: Deed, j: nat)
    requires Takes(d, x, j)
    ensures Offers(x)
  {
  }

  lemma LastSurvives(d: C.Deployment, before: seq<Deed>, x: Deed, j: nat)
    requires j < |d.kinds| && Takes(d, x, j)
    ensures Survives(d, before + [x], |before|, j)
    ensures EntryAt(d, before + [x], |before|) == Offering(d, Run(d, before), x)
  {
    assert (before + [x])[..|before|] == before;
  }

  /** A sink shows exactly the entries of the deeds that survive at it. */
  lemma {:induction false} ShownIsSurvivors(d: C.Deployment, xs: seq<Deed>, j: nat, e: LogEntry)
    requires j < |d.kinds|
    ensures |Run(d, xs).taken| == |d.kinds|
    ensures e in Shown(d, xs, j) <==> ShowsSurvivors(d, xs, j, e)
    decreases |xs|
  {
    StaysInStep(d, xs);
    if xs == [] {
      NothingShown(d, j);
    } else {
      hide Run, Step, ShowsSurvivors, Shown, InStep;
      var before, x := Last(xs);
      ShownIsSurvivors(d, before, j, e);
      OneMoreShown(d, before, x, xs, j, e);
    }
  }

  lemma OneMoreShown(d: C.Deployment, before: seq<Deed>, x: Deed, xs: seq<Deed>, j: nat, e: LogEntry)
    requires xs == before + [x] && j < |d.kinds| == |Run(d, before).taken| == |Run(d, xs).taken|
    requires e in Shown(d, before, j) <==> ShowsSurvivors(d, before, j, e)
    ensures e in Shown(d, xs, j) <==> ShowsSurvivors(d, xs, j, e)
  {
    hide Run, Step, ShowsSurvivors, Offering, Held, Takes, SamePath;
    SurvivorsSnoc(d, before, x, j, e);
    RunUnfolds(d, before, x);
    TakenSnoc(d, Run(d, before), x, j, e);
  }

  lemma NothingShown(d: C.Deployment, j: nat)
    requires j < |d.kinds|
    ensures Held(d.kinds[j], Run(d, []).taken[j]) == []
  {
  }

  lemma TakenSnoc(d: C.Deployment, s: Books, x: Deed, j: nat, e: LogEntry)
    requires j < |d.kinds| == |s.taken|
    ensures |Step(d, s, x).taken| == |d.kinds|
    ensures e in Held(d.kinds[j], Step(d, s, x).taken[j]) <==>
            || (Takes(d, x, j) && Offering(d, s, x) == e)
            || (e in Held(d.kinds[j], s.taken[j])
                && !(d.kinds[j] == KeepsLatest && Takes(d, x, j) && SamePath(e, Offering(d, s, x))))
  {
    hide Offering, Held, Without;
    if Takes(d, x, j) {
      HeldSnoc(d.kinds[j], s.taken[j], Offering(d, s, x));
      WithoutMembers(Held(d.kinds[j], s.taken[j]), Offering(d, s, x), e);
    }
  }

  // ---------------------------------------------------------------------------------------------
  // The anchor chain among what is shown
  // ---------------------------------------------------------------------------------------------

  predicate OnLadder(ladder: seq<Anchor>, a: Anchor) {
    1 <= a.epoch <= |ladder| && ladder[a.epoch - 1] == a
  }

  ghost predicate ShownOnLadder(d: C.Deployment, s: Books, j: nat) {
    && j < |s.taken| && j < |s.track.taken|
    && forall a: Anchor | HeadAnchor(a) in Held(KeepsLatest, s.taken[j]) ::
         OnLadder(C.Ladder(s.track.taken[j]), a) && a.tenantId == d.tenant
  }

  /** Whatever replaced what, an anchor still shown is the last one taken of its epoch. */
  lemma {:induction false} ShownStaysOnLadder(d: C.Deployment, xs: seq<Deed>, j: nat)
    requires j < |d.kinds|
    ensures ShownOnLadder(d, Run(d, xs), j)
    decreases |xs|
  {
    if xs == [] {
      StaysInStep(d, []);
    } else {
      hide C.Run, C.Step, InStep, Run, Step, ShownOnLadder;
      var before, x := Last(xs);
      ShownStaysOnLadder(d, before, j);
      OneMoreOnLadder(d, before, x, j);
    }
  }

  lemma OneMoreOnLadder(d: C.Deployment, before: seq<Deed>, x: Deed, j: nat)
    requires j < |d.kinds| && ShownOnLadder(d, Run(d, before), j)
    ensures ShownOnLadder(d, Run(d, before + [x]), j)
  {
    hide C.Run, C.Step, Run, Step, ShownOnLadder, C.LadderOk;
    RunUnfolds(d, before, x);
    StaysInStep(d, before);
    C.LadderStaysOk(d, Plain(before), j);
    StepOnLadder(d, Run(d, before), x, j, C.FailedAttempts(d, Plain(before)));
  }

  lemma StepOnLadder(d: C.Deployment, s: Books, x: Deed, j: nat, failed: nat)
    requires j < |d.kinds| && |s.taken| == |d.kinds| && ShownOnLadder(d, s, j) && C.LadderOk(d, s.track, j, failed)
    ensures ShownOnLadder(d, Step(d, s, x), j)
  {
    hide Held, Without, C.Ladder, C.CleanLog, C.Offering, NextCommit, AfterAttempt;
    var s' := Step(d, s, x);
    if x.Custodial? { TrackGrows(d, s.track, x.e); }
    forall a: Anchor | HeadAnchor(a) in Held(KeepsLatest, s'.taken[j])
      ensures OnLadder(C.Ladder(s'.track.taken[j]), a) && a.tenantId == d.tenant
    {
      if Takes(d, x, j) {
        var e := Offering(d, s, x);
        HeldSnoc(KeepsLatest, s.taken[j], e);
        WithoutMembers(Held(KeepsLatest, s.taken[j]), e, HeadAnchor(a));
        if x.Custodial? {
          C.OfferingIsSealed(d, s.track, x.e);
          C.LadderGrows(d.h, s.track.taken[j], e.anchor, s.track.st.epoch);
        }
      }
    }
  }

  // --- Sorting what is shown

  lemma {:induction false} NoneCountsZero(xs: seq<Anchor>, epoch: int)
    requires forall i | 0 <= i < |xs| :: xs[i].epoch != epoch
    ensures C.EpochCount(xs, epoch) == 0
  {
    if xs != [] { NoneCountsZero(xs[1..], epoch); }
  }

  lemma {:induction false} OneFileCountsOnce(log: seq<LogEntry>, tenant: string, epoch: int)
    requires OnePerPath(log) && forall a | HeadAnchor(a) in log :: a.tenantId == tenant
    ensures C.EpochCount(Anchors(log), epoch) <= 1
  {
    if log != [] {
      assert log == [log[0]] + log[1..];
      OneFileCountsOnce(log[1..], tenant, epoch);
      if log[0].HeadAnchor? && log[0].anchor.epoch == epoch {
        var rest := Anchors(log[1..]);
        forall i | 0 <= i < |rest| ensures rest[i].epoch != epoch {
          AnchorsAre(log[1..], rest[i]);
          var k :| 0 <= k < |log[1..]| && log[1..][k] == HeadAnchor(rest[i]);
          assert !SamePath(log[0], log[k + 1]);
        }
        NoneCountsZero(rest, epoch);
        assert Anchors(log) == [log[0].anchor] + rest;
        assert Anchors(log)[1..] == rest;
      } else if log[0].HeadAnchor? {
        assert Anchors(log)[1..] == Anchors(log[1..]);
      } else {
        assert Anchors(log) == Anchors(log[1..]);
      }
    }
  }

  predicate Climbs(xs: seq<Anchor>) {
    forall i, k | 0 <= i < k < |xs| :: xs[i].epoch < xs[k].epoch
  }

  lemma OneFileClimbs(log: seq<LogEntry>, tenant: string)
    requires OnePerPath(log) && forall a | HeadAnchor(a) in log :: a.tenantId == tenant
    ensures Climbs(SortByEpoch(Anchors(log)))
  {
    var sorted := SortByEpoch(Anchors(log));
    SortAscends(Anchors(log));
    forall i, k | 0 <= i < k < |sorted| ensures sorted[i].epoch < sorted[k].epoch {
      if sorted[i].epoch == sorted[k].epoch {
        C.RepeatCountsTwice(sorted, i, k);
        C.SortKeepsCount(Anchors(log), sorted[i].epoch);
        OneFileCountsOnce(log, tenant, sorted[i].epoch);
      }
    }
  }

  // --- When a selection of a clean chain is still a chain

  /** Two different anchors of the chain with one digest, or one with the genesis digest. */
  ghost predicate LadderCollides(h: Hashing, ladder: seq<Anchor>) {
    || (exists i | 0 <= i < |ladder| :: h.OfJson(AnchorJson(ladder[i])) == GENESIS)
    || (exists i, k | 0 <= i < k < |ladder| :: Collision(h, AnchorJson(ladder[i]), AnchorJson(ladder[k])))
  }

  lemma EpochsTellApart(a: Anchor, b: Anchor)
    requires a.epoch != b.epoch
    ensures AnchorJson(a) != AnchorJson(b)
  {
    assert AnchorJson(a).fields[EpochKey] == Int(a.epoch) && AnchorJson(b).fields[EpochKey] == Int(b.epoch);
  }

  lemma SameHashCollides(h: Hashing, ladder: seq<Anchor>, i: nat, k: nat)
    requires i < k < |ladder| && ladder[i].epoch != ladder[k].epoch
    requires AnchorHash(h, ladder[i]) == AnchorHash(h, ladder[k])
    ensures LadderCollides(h, ladder)
  {
    EpochsTellApart(ladder[i], ladder[k]);
    assert Collision(h, AnchorJson(ladder[i]), AnchorJson(ladder[k]));
  }

  predicate Unbroken(xs: seq<Anchor>) {
    forall i | 0 <= i < |xs| :: xs[i].epoch == i + 1
  }

  predicate SelectedFrom(ladder: seq<Anchor>, xs: seq<Anchor>) {
    Climbs(xs) && forall i | 0 <= i < |xs| :: OnLadder(ladder, xs[i])
  }

  lemma UnbrokenIsChain(h: Hashing, ladder: seq<Anchor>, xs: seq<Anchor>)
    requires C.CleanLog(h, ladder) && SelectedFrom(ladder, xs) && Unbroken(xs)
    ensures AnchorChainOk(h, xs)
  {
    forall i | 0 <= i < |xs| ensures AnchorLinkOk(h, xs, i) {
      assert OnLadder(ladder, xs[i]) && AnchorLinkOk(h, ladder, i);
      if i > 0 { assert OnLadder(ladder, xs[i - 1]); }
    }
  }

  /** An anchor links to the last anchor of the epoch just below its own. */
  lemma NextRung(h: Hashing, ladder: seq<Anchor>, xs: seq<Anchor>, i: nat)
    requires C.CleanLog(h, ladder) && SelectedFrom(ladder, xs) && i < |xs| && AnchorLinkOk(h, xs, i)
    requires !LadderCollides(h, ladder) && (i > 0 ==> xs[i - 1].epoch == i)
    ensures xs[i].epoch == i + 1
  {
    hide AnchorJson;
    var e := xs[i].epoch;
    assert OnLadder(ladder, xs[i]) && AnchorLinkOk(h, ladder, e - 1);
    if e > 1 { assert AnchorLinkOk(h, ladder, e - 2); }
    if i > 0 {
      assert OnLadder(ladder, xs[i - 1]) && AnchorLinkOk(h, ladder, i - 1);
      if e > i + 1 {
        SameHashCollides(h, ladder, i - 1, e - 2);
      }
    }
  }

  lemma {:induction false} ChainIsUnbroken(h: Hashing, ladder: seq<Anchor>, xs: seq<Anchor>, n: nat)
    requires C.CleanLog(h, ladder) && SelectedFrom(ladder, xs) && AnchorChainOk(h, xs) && n <= |xs|
    requires !LadderCollides(h, ladder)
    ensures forall i | 0 <= i < n :: xs[i].epoch == i + 1
  {
    if n > 0 {
      hide C.CleanLog, SelectedFrom, LadderCollides;
      ChainIsUnbroken(h, ladder, xs, n - 1);
      assert AnchorLinkOk(h, xs, n - 1);
      NextRung(h, ladder, xs, n - 1);
    }
  }

  /** Below every shown anchor, one of each lower epoch is shown. */
  predicate Downward(xs: seq<Anchor>) {
    forall i, e | 0 <= i < |xs| && 1 <= e < xs[i].epoch :: ShowsEpoch(xs, e)
  }

  predicate ShowsEpoch(xs: seq<Anchor>, e: int) {
    exists k | 0 <= k < |xs| :: xs[k].epoch == e
  }

  lemma {:induction false} DownwardIsUnbroken(xs: seq<Anchor>, n: nat)
    requires Climbs(xs) && n <= |xs| && Downward(xs) && forall i | 0 <= i < |xs| :: xs[i].epoch >= 1
    ensures forall i | 0 <= i < n :: xs[i].epoch == i + 1
  {
    if n > 0 {
      DownwardIsUnbroken(xs, n - 1);
      var i := n - 1;
      if i > 0 { assert xs[i - 1].epoch < xs[i].epoch; }
      assert 1 <= i + 1 < xs[i].epoch ==> ShowsEpoch(xs, i + 1);
      if ShowsEpoch(xs, i + 1) {
        var k :| 0 <= k < |xs| && xs[k].epoch == i + 1;
      }
    }
  }

  lemma UnbrokenIsDownward(xs: seq<Anchor>)
    requires Unbroken(xs)
    ensures Downward(xs)
  {
    forall i, e | 0 <= i < |xs| && 1 <= e < xs[i].epoch ensures ShowsEpoch(xs, e) {
      assert xs[e - 1].epoch == e;
    }
  }

  // ---------------------------------------------------------------------------------------------
  // The theorem
  // ---------------------------------------------------------------------------------------------

  /** The head anchor of deed k is still shown. */
  predicate AnchorSurvives(d: C.Deployment, xs: seq<Deed>, k: nat, j: nat)
    requires j < |d.kinds|
  {
    k < |xs| && OffersAnchor(xs[k]) && Survives(d, xs, k, j)
  }

  predicate EpochSurvives(d: C.Deployment, xs: seq<Deed>, j: nat, epoch: int)
    requires j < |d.kinds|
  {
    exists l | 0 <= l < |xs| :: AnchorSurvives(d, xs, l, j) && EpochAt(d, xs, l) == epoch
  }

  /** Under every surviving head anchor a head anchor of each lower epoch survives: no policy commit replaced
      one of them. */
  predicate NoHoles(d: C.Deployment, xs: seq<Deed>, j: nat)
    requires j < |d.kinds|
  {
    forall k, e | 0 <= k < |xs| && AnchorSurvives(d, xs, k, j) && 1 <= e < EpochAt(d, xs, k) ::
        EpochSurvives(d, xs, j, e)
  }

  predicate NoAppends(xs: seq<Deed>) {
    forall i | 0 <= i < |xs| :: xs[i].Custodial? ==> xs[i].e.Attempt?
  }

  /** An anchor of the empty chain is still shown. */
  predicate EmptySurvives(d: C.Deployment, xs: seq<Deed>, j: nat)
    requires j < |d.kinds|
  {
    exists k | 0 <= k < |xs| :: AnchorSurvives(d, xs, k, j) && NoAppends(xs[..k])
  }

  lemma {:induction false} PlainAttempts(xs: seq<Deed>)
    ensures C.AllAttempts(Plain(xs)) <==> NoAppends(xs)
  {
    if xs != [] {
      var before, x := xs[..|xs| - 1], xs[|xs| - 1];
      PlainAttempts(before);
      assert xs == before + [x];
      PlainSnoc(before, x);
      if x.Custodial? { C.AllAttemptsStep(Plain(before), x.e); }
      assert NoAppends(xs) <==> NoAppends(before) && (x.Custodial? ==> x.e.Attempt?);
    }
  }

  ghost predicate AnchorShownBy(d: C.Deployment, xs: seq<Deed>, j: nat, a: Anchor)
    requires j < |d.kinds|
  {
    exists k | 0 <= k < |xs| :: AnchorSurvives(d, xs, k, j) && EntryAt(d, xs, k) == HeadAnchor(a)
  }

  lemma ShownAnchor(d: C.Deployment, xs: seq<Deed>, j: nat, a: Anchor)
    requires j < |d.kinds|
    ensures |Run(d, xs).taken| == |d.kinds|
    ensures a in Anchors(Shown(d, xs, j)) <==> AnchorShownBy(d, xs, j, a)
  {
    hide Overwritten, EpochAt, Shown, Run;
    ShownIsSurvivors(d, xs, j, HeadAnchor(a));
    AnchorsAre(Shown(d, xs, j), a);
    if ShowsSurvivors(d, xs, j, HeadAnchor(a)) {
      var k :| 0 <= k < |xs| && Survives(d, xs, k, j) && EntryAt(d, xs, k) == HeadAnchor(a);
      EntryIsNamed(d, xs, k);
      assert AnchorSurvives(d, xs, k, j);
    }
  }

  /** The anchor of deed k, as shown. */
  lemma SurvivorIsShown(d: C.Deployment, xs: seq<Deed>, k: nat, j: nat) returns (a: Anchor)
    requires j < |d.kinds| && AnchorSurvives(d, xs, k, j)
    ensures |Run(d, xs).taken| == |d.kinds|
    ensures a in Anchors(Shown(d, xs, j)) && EntryAt(d, xs, k) == HeadAnchor(a) && a.epoch == EpochAt(d, xs, k)
    ensures a.chainLength == 0 <==> NoAppends(xs[..k])
  {
    EntryIsNamed(d, xs, k);
    a := EntryAt(d, xs, k).anchor;
    ShownAnchor(d, xs, j, a);
    var s := Run(d, xs[..k]);
    StaysInStep(d, xs[..k]);
    C.ChainIsHonest(d, Plain(xs[..k]));
    PlainAttempts(xs[..k]);
    C.OfferingIsSealed(d, s.track, xs[k].e);
  }

  lemma HolesAreGaps(d: C.Deployment, xs: seq<Deed>, j: nat, sorted: seq<Anchor>)
    requires j < |d.kinds| && |Run(d, xs).taken| == |d.kinds|
    requires forall a: Anchor :: a in sorted <==> a in Anchors(Shown(d, xs, j))
    ensures Downward(sorted) <==> NoHoles(d, xs, j)
  {
    hide Run, Shown, Anchors, AnchorSurvives, EpochAt, NoAppends;
    if Downward(sorted) {
      forall k, e | 0 <= k < |xs| && AnchorSurvives(d, xs, k, j) && 1 <= e < EpochAt(d, xs, k)
        ensures EpochSurvives(d, xs, j, e)
      {
        var a := SurvivorIsShown(d, xs, k, j);
        var i :| 0 <= i < |sorted| && sorted[i] == a;
        assert ShowsEpoch(sorted, e);
        var m :| 0 <= m < |sorted| && sorted[m].epoch == e;
        var l := ShownHasDeed(d, xs, j, sorted[m]);
      }
    }
    if NoHoles(d, xs, j) {
      forall i, e | 0 <= i < |sorted| && 1 <= e < sorted[i].epoch ensures ShowsEpoch(sorted, e) {
        var k := ShownHasDeed(d, xs, j, sorted[i]);
        assert EpochSurvives(d, xs, j, e);
        var l :| 0 <= l < |xs| && AnchorSurvives(d, xs, l, j) && EpochAt(d, xs, l) == e;
        var a := SurvivorIsShown(d, xs, l, j);
        var m :| 0 <= m < |sorted| && sorted[m] == a;
      }
    }
  }

  lemma ShownHasDeed(d: C.Deployment, xs: seq<Deed>, j: nat, a: Anchor) returns (k: nat)
    requires j < |d.kinds| && |Run(d, xs).taken| == |d.kinds| && a in Anchors(Shown(d, xs, j))
    ensures k < |xs| && AnchorSurvives(d, xs, k, j) && EpochAt(d, xs, k) == a.epoch
    ensures a.chainLength == 0 <==> NoAppends(xs[..k])
    ensures EpochSurvives(d, xs, j, a.epoch)
  {
    ShownAnchor(d, xs, j, a);
    k :| 0 <= k < |xs| && AnchorSurvives(d, xs, k, j) && EntryAt(d, xs, k) == HeadAnchor(a);
    var b := SurvivorIsShown(d, xs, k, j);
  }

  lemma ShownCovers(d: C.Deployment, xs: seq<Deed>, j: nat)
    requires j < |d.kinds|
    ensures |Run(d, xs).taken| == |d.kinds| && ChainOk(d.h, Run(d, xs).track.chain)
    ensures C.LogCovers(Run(d, xs).track.chain, Anchors(Shown(d, xs, j)))
  {
    hide C.Run, Run, Anchors;
    StaysInStep(d, xs);
    C.ChainIsHonest(d, Plain(xs));
    C.AnchorsCover(d, Plain(xs), j);
    var s := Run(d, xs);
    var shown := Anchors(Shown(d, xs, j));
    forall i | 0 <= i < |shown| ensures C.Covers(s.track.chain, shown[i]) {
      AnchorsAre(Shown(d, xs, j), shown[i]);
      HeldMembers(d.kinds[j], s.taken[j], HeadAnchor(shown[i]));
      AnchorsAre(s.taken[j], shown[i]);
      var k :| 0 <= k < |s.track.taken[j]| && s.track.taken[j][k] == shown[i];
    }
  }

  /** What a sink that replaces files shows after any run of appends, anchor attempts and policy commits, any
      sink refusing, or failing after the file is written, at any offer. The records are consistent (P1)
      and complete (P4). The heads match (P2) exactly unless an anchor of the empty chain survives. The
      anchor chain (P3) is ESTABLISHED exactly when under every surviving head anchor one of each lower
      epoch survives, unless two of the run's anchors collide or one hashes to the genesis value. */
  lemma {:induction false} ReplacingSinkRun(d: C.Deployment, xs: seq<Deed>, j: nat)
    requires j < |d.kinds| && d.kinds[j] == KeepsLatest
    ensures |Run(d, xs).taken| == |d.kinds|
    ensures var verdicts := Verdicts(d.h, Run(d, xs).track.chain, Shown(d, xs, j));
            && verdicts.Some?
            && verdicts.value.p1 == ESTABLISHED
            && (Anchors(Shown(d, xs, j)) != [] ==>
                  && verdicts.value.p4 == ESTABLISHED
                  && verdicts.value.p2 == Decide(!EmptySurvives(d, xs, j))
                  && (|| verdicts.value.p3 == Decide(NoHoles(d, xs, j))
                      || (verdicts.value.p3 == ESTABLISHED
                          && LadderCollides(d.h, C.Ladder(Anchors(Run(d, xs).taken[j]))))))
  {
    hide Run, Shown, Verdicts, NoHoles, EmptySurvives, LadderCollides, C.Ladder, ChainOk, AnchorChainOk, C.LogCovers;
    ShownCovers(d, xs, j);
    C.LogVerdicts(d.h, Run(d, xs).track.chain, Shown(d, xs, j), Anchors(Shown(d, xs, j)));
    EmptyShown(d, xs, j);
    ShownChain(d, xs, j);
  }

  lemma EmptyShown(d: C.Deployment, xs: seq<Deed>, j: nat)
    requires j < |d.kinds|
    ensures |Run(d, xs).taken| == |d.kinds|
    ensures C.AnchorsEmptyChain(Anchors(Shown(d, xs, j))) <==> EmptySurvives(d, xs, j)
  {
    hide Run, Shown, Anchors, AnchorSurvives, NoAppends;
    StaysInStep(d, xs);
    var shown := Anchors(Shown(d, xs, j));
    if C.AnchorsEmptyChain(shown) {
      var i :| 0 <= i < |shown| && shown[i].chainLength == 0;
      var k := ShownHasDeed(d, xs, j, shown[i]);
    }
    if EmptySurvives(d, xs, j) {
      var k :| 0 <= k < |xs| && AnchorSurvives(d, xs, k, j) && NoAppends(xs[..k]);
      var a := SurvivorIsShown(d, xs, k, j);
      var i :| 0 <= i < |shown| && shown[i] == a;
    }
  }

  lemma ShownChain(d: C.Deployment, xs: seq<Deed>, j: nat)
    requires j < |d.kinds| && d.kinds[j] == KeepsLatest
    ensures |Run(d, xs).taken| == |d.kinds|
    ensures NoHoles(d, xs, j) ==> AnchorChainOk(d.h, SortByEpoch(Anchors(Shown(d, xs, j))))
    ensures AnchorChainOk(d.h, SortByEpoch(Anchors(Shown(d, xs, j)))) ==>
              NoHoles(d, xs, j) || LadderCollides(d.h, C.Ladder(Anchors(Run(d, xs).taken[j])))
  {
    hide Run, NoHoles, LadderCollides, C.Ladder, AnchorChainOk, SortByEpoch, Anchors, Downward, Unbroken;
    StaysInStep(d, xs);
    var ladder := C.Ladder(Anchors(Run(d, xs).taken[j]));
    C.LadderStaysOk(d, Plain(xs), j);
    var sorted := SortByEpoch(Anchors(Shown(d, xs, j)));
    ShownSelected(d, xs, j, ladder);
    HolesAreGaps(d, xs, j, sorted);
    SelectionIsChain(d.h, ladder, sorted);
  }

  lemma ShownSelected(d: C.Deployment, xs: seq<Deed>, j: nat, ladder: seq<Anchor>)
    requires j < |d.kinds| && d.kinds[j] == KeepsLatest
    requires |Run(d, xs).taken| == |d.kinds| && ladder == C.Ladder(Anchors(Run(d, xs).taken[j]))
    ensures SelectedFrom(ladder, SortByEpoch(Anchors(Shown(d, xs, j))))
    ensures forall a: Anchor :: a in SortByEpoch(Anchors(Shown(d, xs, j))) <==> a in Anchors(Shown(d, xs, j))
  {
    hide Run, C.Ladder, Anchors, Held, C.Run, OnePerPath, Climbs;
    StaysInStep(d, xs);
    ShownStaysOnLadder(d, xs, j);
    var shown := Shown(d, xs, j);
    var sorted := SortByEpoch(Anchors(shown));
    LatestIsOnePerPath(Run(d, xs).taken[j]);
    OneFileClimbs(shown, d.tenant);
    forall a: Anchor ensures a in sorted <==> a in Anchors(shown) {
      assert a in multiset(sorted) <==> a in multiset(Anchors(shown));
    }
    forall i | 0 <= i < |sorted| ensures OnLadder(ladder, sorted[i]) {
      assert sorted[i] in sorted;
      AnchorsAre(shown, sorted[i]);
    }
  }

  lemma SelectionIsChain(h: Hashing, ladder: seq<Anchor>, sorted: seq<Anchor>)
    requires C.CleanLog(h, ladder) && SelectedFrom(ladder, sorted)
    ensures Downward(sorted) ==> AnchorChainOk(h, sorted)
    ensures AnchorChainOk(h, sorted) ==> Downward(sorted) || LadderCollides(h, ladder)
  {
    hide AnchorChainOk, LadderCollides, C.CleanLog, Downward;
    if Downward(sorted) {
      DownwardIsUnbroken(sorted, |sorted|);
      UnbrokenIsChain(h, ladder, sorted);
    }
    if AnchorChainOk(h, sorted) && !LadderCollides(h, ladder) {
      ChainIsUnbroken(h, ladder, sorted, |sorted|);
      UnbrokenIsDownward(sorted);
    }
  }

  // ---------------------------------------------------------------------------------------------
  // Citations
  // ---------------------------------------------------------------------------------------------

  /** The commitment of deed k is still shown. */
  predicate CommitSurvives(d: C.Deployment, xs: seq<Deed>, k: nat, j: nat)
    requires j < |d.kinds|
  {
    k < |xs| && xs[k].Committing? && Survives(d, xs, k, j)
  }

  predicate DigestSurvives(d: C.Deployment, xs: seq<Deed>, j: nat, digest: string)
    requires j < |d.kinds|
  {
    exists k | 0 <= k < |xs| :: CommitSurvives(d, xs, k, j) && xs[k].digest == digest
  }

  lemma CommitSurvivorShown(d: C.Deployment, xs: seq<Deed>, k: nat, j: nat) returns (c: PolicyCommit)
    requires j < |d.kinds| && CommitSurvives(d, xs, k, j)
    ensures |Run(d, xs).taken| == |d.kinds|
    ensures c in Commits(Shown(d, xs, j)) && c.tenantId == d.tenant && c.headHash == xs[k].digest
    ensures CommitOk(d.h, c) <==> d.h.OfText(xs[k].canonical) == xs[k].digest
  {
    hide Shown, Overwritten, EpochAt;
    c := EntryAt(d, xs, k).commit;
    ShownIsSurvivors(d, xs, j, Commit(c));
    CommitsAre(Shown(d, xs, j), c);
    NextCommitIs(d.h, Run(d, xs[..k]).cst, Queued(d, xs[k]), xs[k].at);
  }

  lemma ShownCommitHasDeed(d: C.Deployment, xs: seq<Deed>, j: nat, c: PolicyCommit) returns (k: nat)
    requires j < |d.kinds| && |Run(d, xs).taken| == |d.kinds| && c in Commits(Shown(d, xs, j))
    ensures k < |xs| && CommitSurvives(d, xs, k, j) && c.tenantId == d.tenant && c.headHash == xs[k].digest
    ensures CommitOk(d.h, c) <==> d.h.OfText(xs[k].canonical) == xs[k].digest
  {
    hide Shown, Overwritten, EpochAt;
    CommitsAre(Shown(d, xs, j), c);
    ShownIsSurvivors(d, xs, j, Commit(c));
    k :| 0 <= k < |xs| && Survives(d, xs, k, j) && EntryAt(d, xs, k) == Commit(c);
    EntryIsNamed(d, xs, k);
    NextCommitIs(d.h, Run(d, xs[..k]).cst, Queued(d, xs[k]), xs[k].at);
  }

  lemma AnchoredIsSurvival(d: C.Deployment, xs: seq<Deed>, j: nat, tenant: string, digest: string)
    requires j < |d.kinds|
    ensures |Run(d, xs).taken| == |d.kinds|
    ensures Anchored(Commits(Shown(d, xs, j)), tenant, digest) <==>
            tenant == d.tenant && DigestSurvives(d, xs, j, digest)
  {
    hide Run, Shown, Commits, Survives, CommitOk;
    StaysInStep(d, xs);
    if Anchored(Commits(Shown(d, xs, j)), tenant, digest) {
      var c :| c in Commits(Shown(d, xs, j)) && c.tenantId == tenant && c.headHash == digest;
      var k := ShownCommitHasDeed(d, xs, j, c);
    }
    if DigestSurvives(d, xs, j, digest) {
      var k :| 0 <= k < |xs| && CommitSurvives(d, xs, k, j) && xs[k].digest == digest;
      var c := CommitSurvivorShown(d, xs, k, j);
    }
  }

  lemma SoundIsSurvival(d: C.Deployment, xs: seq<Deed>, j: nat)
    requires j < |d.kinds|
    ensures |Run(d, xs).taken| == |d.kinds|
    ensures (forall c | c in Commits(Shown(d, xs, j)) :: CommitOk(d.h, c)) <==>
            forall k | 0 <= k < |xs| && CommitSurvives(d, xs, k, j) :: d.h.OfText(xs[k].canonical) == xs[k].digest
  {
    hide Run, Shown, Commits, Survives, CommitOk;
    StaysInStep(d, xs);
    if forall c | c in Commits(Shown(d, xs, j)) :: CommitOk(d.h, c) {
      forall k | 0 <= k < |xs| && CommitSurvives(d, xs, k, j) ensures d.h.OfText(xs[k].canonical) == xs[k].digest {
        var c := CommitSurvivorShown(d, xs, k, j);
      }
    }
    if forall k | 0 <= k < |xs| && CommitSurvives(d, xs, k, j) :: d.h.OfText(xs[k].canonical) == xs[k].digest {
      forall c | c in Commits(Shown(d, xs, j)) ensures CommitOk(d.h, c) {
        var k := ShownCommitHasDeed(d, xs, j, c);
      }
    }
  }

  /** Every citation of the chain is by this tenant and its digest was committed by a deed that survives. */
  predicate CitationsSurvive(d: C.Deployment, xs: seq<Deed>, j: nat, chain: seq<AuditRecord>)
    requires j < |d.kinds|
  {
    forall r | r in chain && Truthy(r.policyDigest) ::
      CitingTenant(r) == d.tenant && DigestSurvives(d, xs, j, r.policyDigest.value)
  }

  /** On either kind of sink. P5 is ESTABLISHED exactly when every surviving commitment's canonical text
      hashes to its digest, and P6 exactly when every citation's digest was committed by a deed whose
      entry no later head anchor or commit of the same epoch replaced. */
  lemma {:induction false} CitationVerdicts(d: C.Deployment, xs: seq<Deed>, j: nat)
    requires j < |d.kinds|
    ensures |Run(d, xs).taken| == |d.kinds|
    ensures var chain := Run(d, xs).track.chain;
            var verdicts := Verdicts(d.h, chain, Shown(d, xs, j));
            && verdicts.Some?
            && (Cites(chain) <==> verdicts.value.p6.Some?)
            && (Cites(chain) ==> (verdicts.value.p6 == Some(ESTABLISHED) <==> CitationsSurvive(d, xs, j, chain)))
            && (verdicts.value.p5.Some? ==>
                  (verdicts.value.p5 == Some(ESTABLISHED) <==>
                     forall k | 0 <= k < |xs| && CommitSurvives(d, xs, k, j) ::
                       d.h.OfText(xs[k].canonical) == xs[k].digest))
  {
    hide Run, Shown, Commits, CommitSurvives, CommitOk, ChainOk, AnchorChainOk, HeadMatches, SortByEpoch, Anchors,
      Recomputed, DigestSurvives, C.LogCovers, Cites;
    ShownCovers(d, xs, j);
    var chain := Run(d, xs).track.chain;
    ChainRecomputes(d.h, chain);
    SoundIsSurvival(d, xs, j);
    forall r | r in chain && Truthy(r.policyDigest)
      ensures Anchored(Commits(Shown(d, xs, j)), CitingTenant(r), r.policyDigest.value) <==>
              CitingTenant(r) == d.tenant && DigestSurvives(d, xs, j, r.policyDigest.value)
    {
      AnchoredIsSurvival(d, xs, j, CitingTenant(r), r.policyDigest.value);
    }
  }

  // ---------------------------------------------------------------------------------------------
  // When nothing shares a name
  // ---------------------------------------------------------------------------------------------

  /** The sink took a head anchor and a policy commit of one epoch. */
  predicate SharesEpoch(d: C.Deployment, xs: seq<Deed>, j: nat) {
    exists k, l | 0 <= k < |xs| && 0 <= l < |xs| ::
      Takes(d, xs[k], j) && Takes(d, xs[l], j) && OffersAnchor(xs[k]) && xs[l].Committing?
      && EpochAt(d, xs, k) == EpochAt(d, xs, l)
  }

  lemma {:induction false} LandedGrows(d: C.Deployment, xs: seq<Deed>, k: nat, l: nat, commits: bool)
    requires k < l <= |xs|
    ensures LandedBefore(d, xs[..k], commits) + (if Lands(d, xs[k]) && xs[k].Committing? == commits then 1 else 0)
            <= LandedBefore(d, xs[..l], commits)
    decreases l
  {
    hide Lands;
    assert xs[..l] == xs[..l - 1] + [xs[l - 1]];
    LandedSnoc(d, xs[..l - 1], xs[l - 1], commits);
    if k < l - 1 { LandedGrows(d, xs, k, l - 1, commits); }
  }

  /** A landed entry is replaced only by an entry of the other kind. */
  lemma LandedSurvives(d: C.Deployment, xs: seq<Deed>, k: nat, j: nat)
    requires j < |d.kinds| && k < |xs| && Lands(d, xs[k]) && !SharesEpoch(d, xs, j)
    ensures Survives(d, xs, k, j)
  {
    hide LandedBefore;
    assert Takes(d, xs[k], j);
    if Overwritten(d, xs, k, j) {
      var l :| k < l < |xs| && Takes(d, xs[l], j) && EpochAt(d, xs, l) == EpochAt(d, xs, k);
      if xs[l].Committing? == xs[k].Committing? {
        LandedGrows(d, xs, k, l, xs[k].Committing?);
      } else {
        OtherKindShares(d, xs, k, l, j);
      }
    }
  }

  lemma OtherKindShares(d: C.Deployment, xs: seq<Deed>, k: nat, l: nat, j: nat)
    requires k < |xs| && l < |xs| && Takes(d, xs[k], j) && Takes(d, xs[l], j)
    requires xs[k].Committing? != xs[l].Committing? && EpochAt(d, xs, k) == EpochAt(d, xs, l)
    ensures SharesEpoch(d, xs, j)
  {
    hide EpochAt;
  }

  /** Somewhere below n landed entries of a kind, each epoch landed once. */
  lemma {:induction false} EpochLanded(d: C.Deployment, xs: seq<Deed>, commits: bool, epoch: nat) returns (k: nat)
    requires 1 <= epoch <= LandedBefore(d, xs, commits)
    ensures k < |xs| && Lands(d, xs[k]) && xs[k].Committing? == commits && EpochAt(d, xs, k) == epoch
    decreases |xs|
  {
    hide Lands;
    var before, x := xs[..|xs| - 1], xs[|xs| - 1];
    assert xs == before + [x];
    LandedSnoc(d, before, x, commits);
    if epoch <= LandedBefore(d, before, commits) {
      k := EpochLanded(d, before, commits, epoch);
      PrefixAgrees(d, before, x, k);
    } else {
      k := |before|;
      assert xs[..k] == before;
    }
  }

  lemma EpochBounded(d: C.Deployment, xs: seq<Deed>, k: nat)
    requires k < |xs|
    ensures EpochAt(d, xs, k) <= LandedBefore(d, xs, xs[k].Committing?) + 1
  {
    LandedGrows(d, xs, k, |xs|, xs[k].Committing?);
    assert xs[..|xs|] == xs;
  }

  /** While no head anchor and policy commit share an epoch at a sink, nothing that landed is lost there. The
      anchor chain has no holes, so P3 is ESTABLISHED on a sink that replaces files; and P6 is, if every
      citation's digest landed. */
  lemma {:induction false} SeparateEpochsAreSafe(d: C.Deployment, xs: seq<Deed>, j: nat)
    requires j < |d.kinds| && !SharesEpoch(d, xs, j)
    ensures NoHoles(d, xs, j)
    ensures forall k | 0 <= k < |xs| && xs[k].Committing? && Lands(d, xs[k]) :: DigestSurvives(d, xs, j, xs[k].digest)
  {
    hide LandedBefore, SharesEpoch, Lands, Survives;
    forall k, e | 0 <= k < |xs| && AnchorSurvives(d, xs, k, j) && 1 <= e < EpochAt(d, xs, k)
      ensures EpochSurvives(d, xs, j, e)
    {
      EpochBounded(d, xs, k);
      var l := EpochLanded(d, xs, false, e);
      LandedSurvives(d, xs, l, j);
      LandsOffers(d, xs[l]);
      assert AnchorSurvives(d, xs, l, j);
    }
    forall k | 0 <= k < |xs| && xs[k].Committing? && Lands(d, xs[k]) ensures DigestSurvives(d, xs, j, xs[k].digest) {
      LandedSurvives(d, xs, k, j);
      assert CommitSurvives(d, xs, k, j);
    }
  }

  lemma LandsOffers(d: C.Deployment, x: Deed)
    requires Lands(d, x)
    ensures Offers(x)
  {
  }

  // ---------------------------------------------------------------------------------------------
  // When they do
  // ---------------------------------------------------------------------------------------------

  /** The only sink takes the offer. */
  const TAKEN := Uptake({0}, {})

  lemma FirstEpochs(d: C.Deployment, xs: seq<Deed>, k: nat)
    requires k < |xs| && forall i | 0 <= i < k :: !Lands(d, xs[i]) || xs[i].Committing? != xs[k].Committing?
    ensures EpochAt(d, xs, k) == 1
  {
    NoneLanded(d, xs[..k], xs[k].Committing?);
  }

  lemma {:induction false} NoneLanded(d: C.Deployment, xs: seq<Deed>, commits: bool)
    requires forall i | 0 <= i < |xs| :: !Lands(d, xs[i]) || xs[i].Committing? != commits
    ensures LandedBefore(d, xs, commits) == 0
  {
    if xs != [] { NoneLanded(d, xs[..|xs| - 1], commits); }
  }

  /** A healthy run with one sink that replaces files: a policy is committed, a decision cites it, and the
      chain's first anchor is written over the commitment. The citation is then unanchored, P6, with every
      offer taken and nobody having tampered. */
  lemma {:induction false} AnchorOverwritesCommit(d: C.Deployment, digest: string, canonical: string, at: string,
      now: real, draft: Draft)
    requires d.kinds == [KeepsLatest] && digest != "" && draft.policyDigest == Some(digest)
    ensures var xs := [Committing(digest, canonical, at, TAKEN), Custodial(C.Append(now, draft)),
                       Custodial(C.Attempt(at, TAKEN))];
            && |Run(d, xs).taken| == 1
            && Verdicts(d.h, Run(d, xs).track.chain, Shown(d, xs, 0)).Some?
            && Verdicts(d.h, Run(d, xs).track.chain, Shown(d, xs, 0)).value.p6 == Some(CONTRADICTION)
  {
    var xs := [Committing(digest, canonical, at, TAKEN), Custodial(C.Append(now, draft)),
               Custodial(C.Attempt(at, TAKEN))];
    var chain := Run(d, xs).track.chain;
    FirstEpochs(d, xs, 0);
    FirstEpochs(d, xs, 2);
    assert Takes(d, xs[2], 0) && Overwritten(d, xs, 0, 0);
    forall k | 0 <= k < |xs| ensures !CommitSurvives(d, xs, k, 0) {}
    CitesAfter(d, xs[0], now, draft, xs[2]);
    hide Verdicts, Run;
    CitationVerdicts(d, xs, 0);
    Decided(d.h, chain, Shown(d, xs, 0));
  }

  lemma CitesAfter(d: C.Deployment, x: Deed, now: real, draft: Draft, z: Deed)
    requires x.Committing? && OffersAnchor(z)
    ensures Run(d, [x, Custodial(C.Append(now, draft)), z]).track.chain ==
            [Entry(d.h, Some(d.tenant), GENESIS, now, draft)]
  {
    hide Run, NextCommit, C.Offering, AfterAttempt, Entry;
    var a := Custodial(C.Append(now, draft));
    RunUnfolds(d, [], x);
    RunUnfolds(d, [x], a);
    RunUnfolds(d, [x, a], z);
    assert [] + [x] == [x] && [x] + [a] == [x, a] && [x, a] + [z] == [x, a, z];
    assert Run(d, []) == Start(d) by { NothingRun(d); }
    assert Run(d, [x]).track.chain == [] && Head([]) == GENESIS;
  }

  lemma NothingRun(d: C.Deployment)
    ensures Run(d, []) == Start(d)
  {
  }

  lemma Decided(h: Hashing, chain: seq<AuditRecord>, log: seq<LogEntry>)
    requires Verdicts(h, chain, log).Some? && Verdicts(h, chain, log).value.p6.Some?
    ensures Verdicts(h, chain, log).value.p6.value != ESTABLISHED ==>
              Verdicts(h, chain, log).value.p6.value == CONTRADICTION
  {
    hide ChainOk, AnchorChainOk, HeadMatches, SortByEpoch, Anchors, Recomputed, Commits, CitationOk, CommitOk, Cites;
  }

  /** The other way about: the first commitment is written over the first anchor, the second anchor has
      nothing to link to, and P3 fails, unless an anchor hashes to the genesis value or two collide. */
  lemma {:induction false} CommitOverwritesAnchor(d: C.Deployment, digest: string, canonical: string, at: string,
      now: real, draft: Draft)
    requires d.kinds == [KeepsLatest]
    ensures var xs := [Custodial(C.Append(now, draft)), Custodial(C.Attempt(at, TAKEN)),
                       Committing(digest, canonical, at, TAKEN), Custodial(C.Attempt(at, TAKEN))];
            && |Run(d, xs).taken| == 1
            && Verdicts(d.h, Run(d, xs).track.chain, Shown(d, xs, 0)).Some?
            && (|| Verdicts(d.h, Run(d, xs).track.chain, Shown(d, xs, 0)).value.p3 == CONTRADICTION
                || LadderCollides(d.h, C.Ladder(Anchors(Run(d, xs).taken[0]))))
  {
    var xs := [Custodial(C.Append(now, draft)), Custodial(C.Attempt(at, TAKEN)),
               Committing(digest, canonical, at, TAKEN), Custodial(C.Attempt(at, TAKEN))];
    FirstEpochs(d, xs, 1);
    FirstEpochs(d, xs, 2);
    assert Takes(d, xs[2], 0) && Overwritten(d, xs, 1, 0);
    SecondEpoch(d, xs);
    assert AnchorSurvives(d, xs, 3, 0);
    assert !EpochSurvives(d, xs, 0, 1);
    hide Verdicts, Run, NoHoles, LadderCollides;
    assert !NoHoles(d, xs, 0) by { assert AnchorSurvives(d, xs, 3, 0) && 1 <= 1 < EpochAt(d, xs, 3); }
    ReplacingSinkRun(d, xs, 0);
    var a := SurvivorIsShown(d, xs, 3, 0);
  }

  lemma SecondEpoch(d: C.Deployment, xs: seq<Deed>)
    requires |xs| == 4 && OffersAnchor(xs[1]) && Lands(d, xs[1]) && OffersAnchor(xs[3])
    requires xs[0].Custodial? && !Offers(xs[0]) && xs[2].Committing?
    ensures EpochAt(d, xs, 3) == 2
  {
    hide Lands;
    assert !Lands(d, xs[0]) by { NoOfferNoLanding(d, xs[0]); }
    LandedSnoc(d, [], xs[0], false);
    LandedSnoc(d, xs[..1], xs[1], false);
    LandedSnoc(d, xs[..2], xs[2], false);
    assert [] + [xs[0]] == xs[..1] && xs[..1] + [xs[1]] == xs[..2] && xs[..2] + [xs[2]] == xs[..3];
  }

  lemma NoOfferNoLanding(d: C.Deployment, x: Deed)
    requires !Offers(x)
    ensures !Lands(d, x)
  {
  }

  // ---------------------------------------------------------------------------------------------
  // Sinks that keep everything
  // ---------------------------------------------------------------------------------------------

  /** On a sink that keeps everything, policy commits change none of the head-anchor verdicts: they are those
      of the run without its commits. */
  lemma {:induction false} KeepingSinkRun(d: C.Deployment, xs: seq<Deed>, j: nat)
    requires j < |d.kinds| && d.kinds[j] == KeepsAll
    ensures |Run(d, xs).taken| == |d.kinds|
    ensures var verdicts := Verdicts(d.h, Run(d, xs).track.chain, Shown(d, xs, j));
            && verdicts.Some?
            && verdicts.value.p1 == ESTABLISHED
            && (Anchors(Shown(d, xs, j)) != [] ==>
                  && verdicts.value.p4 == ESTABLISHED
                  && verdicts.value.p2 == Decide(!C.EmptyLanding(d, Plain(xs), j))
                  && verdicts.value.p3 == Decide(!C.Reused(d, Plain(xs), j)))
  {
    hide Run, C.Run, Verdicts, ChainOk, AnchorChainOk, C.LogCovers, C.EmptyLanding, C.Reused;
    StaysInStep(d, xs);
    KeepsAllHoldsAll(Run(d, xs).taken[j]);
    C.ChainIsHonest(d, Plain(xs));
    C.AnchorsCover(d, Plain(xs), j);
    C.LogVerdicts(d.h, Run(d, xs).track.chain, Shown(d, xs, j), Anchors(Shown(d, xs, j)));
    C.AnchorChainVerdict(d, Plain(xs), j);
  }

  // ---------------------------------------------------------------------------------------------
  // The steps are the methods' contracts
  // ---------------------------------------------------------------------------------------------

  /** The books are one tenant's view of an anchor manager's fields. */
  ghost predicate Mirrors(d: C.Deployment, s: Books, state: map<string, TenantState>, commits: map<string, CommitState>,
      taken: seq<seq<LogEntry>>)
  {
    && StateOf(state, d.tenant) == s.track.st && CommitStateOf(commits, d.tenant) == s.cst
    && |taken| == |s.taken| == |d.kinds|
    && forall j | 0 <= j < |taken| :: OfTenant(d.tenant, taken[j]) == s.taken[j]
  }

  /** What AnchorManager.Emit promises for this tenant is an Attempt. */
  lemma EmitIsAttempt(d: C.Deployment, s: Books, e: C.Event, state: map<string, TenantState>,
      state': map<string, TenantState>, commits: map<string, CommitState>, taken: seq<seq<LogEntry>>,
      taken': seq<seq<LogEntry>>)
    requires e.Attempt? && Mirrors(d, s, state, commits, taken)
    requires var st, chain := StateOf(state, d.tenant), s.track.chain;
             && Offered(d.kinds, taken, taken',
                        HeadAnchor(NextAnchor(d.h, d.tenant, st, |chain|, Head(chain), e.at)), e.up)
             && state' == state[d.tenant := AfterAttempt(d.h, d.tenant, st, |chain|, Head(chain), e.at,
                                                         AllUp(|d.kinds|, e.up))]
    ensures Mirrors(d, Step(d, s, Custodial(e)), state', commits, taken')
  {
    hide AfterAttempt, GapJson, AnchorHash;
    var a := HeadAnchor(NextAnchor(d.h, d.tenant, s.track.st, |s.track.chain|, Head(s.track.chain), e.at));
    forall j | 0 <= j < |taken'| ensures OfTenant(d.tenant, taken'[j]) == Step(d, s, Custodial(e)).taken[j] {
      OfTenantSnoc(d.tenant, taken[j], a);
    }
  }

  /** What AnchorManager.EmitPolicyCommit promises for this tenant is a Committing. */
  lemma EmitPolicyCommitIsCommitting(d: C.Deployment, s: Books, x: Deed, state: map<string, TenantState>,
      commits: map<string, CommitState>, commits': map<string, CommitState>, taken: seq<seq<LogEntry>>,
      taken': seq<seq<LogEntry>>)
    requires x.Committing? && Mirrors(d, s, state, commits, taken)
    requires var st := CommitStateOf(commits, d.tenant);
             && Offered(d.kinds, taken, taken', Commit(NextCommit(d.h, st, Queued(d, x), x.at)), x.up)
             && CommitStateOf(commits', d.tenant) ==
                if AllUp(|d.kinds|, x.up)
                then CommitState(st.epoch + 1, NextCommit(d.h, st, Queued(d, x), x.at).anchorHash)
                else st
    ensures Mirrors(d, Step(d, s, x), state, commits', taken')
  {
    hide CommitHash;
    var c := Commit(NextCommit(d.h, s.cst, Queued(d, x), x.at));
    forall j | 0 <= j < |taken'| ensures OfTenant(d.tenant, taken'[j]) == Step(d, s, x).taken[j] {
      OfTenantSnoc(d.tenant, taken[j], c);
    }
  }

  /** What the manager offers for other tenants, the books do not see. */
  lemma OtherTenantsUnseen(d: C.Deployment, s: Books, state: map<string, TenantState>, commits: map<string,
      CommitState>,
      taken: seq<seq<LogEntry>>, taken': seq<seq<LogEntry>>, e: LogEntry, up: Uptake)
    requires Mirrors(d, s, state, commits, taken) && TenantOf(e) != d.tenant && Offered(d.kinds, taken, taken', e, up)
    ensures Mirrors(d, s, state, commits, taken')
  {
    forall j | 0 <= j < |taken'| ensures OfTenant(d.tenant, taken'[j]) == s.taken[j] {
      OfTenantSnoc(d.tenant, taken[j], e);
    }
  }

  lemma {:induction false} PathsStayApart(kind: SinkKind, tenant: string, log: seq<LogEntry>)
    ensures OfTenant(tenant, Held(kind, log)) == Held(kind, OfTenant(tenant, log))
  {
    if log != [] {
      var before, e := log[..|log| - 1], log[|log| - 1];
      PathsStayApart(kind, tenant, before);
      HeldSnoc(kind, OfTenant(tenant, before), e);
      OfTenantStores(kind, tenant, Held(kind, before), e);
      assert OfTenant(tenant, before) + [] == OfTenant(tenant, before);
    }
  }

  lemma OfTenantStores(kind: SinkKind, tenant: string, log: seq<LogEntry>, e: LogEntry)
    ensures OfTenant(tenant, Store(kind, log, e)) ==
            if TenantOf(e) == tenant then Store(kind, OfTenant(tenant, log), e) else OfTenant(tenant, log)
  {
    hide Without, OfTenant;
    OfTenantSnoc(tenant, if kind == KeepsAll then log else Without(log, e), e);
    WithoutOfTenant(tenant, log, e);
    assert OfTenant(tenant, log) + [] == OfTenant(tenant, log);
  }

  lemma {:induction false} WithoutOfTenant(tenant: string, log: seq<LogEntry>, e: LogEntry)
    ensures OfTenant(tenant, Without(log, e)) == OwnWithout(tenant, OfTenant(tenant, log), e)
    decreases |log|
  {
    if log != [] {
      hide Without, OfTenant, OwnWithout;
      WithoutOfTenant(tenant, log[..|log| - 1], e);
      WithoutOfTenantStep(tenant, log[..|log| - 1], log[|log| - 1], e);
      assert log == log[..|log| - 1] + [log[|log| - 1]];
    }
  }

  function OwnWithout(tenant: string, own: seq<LogEntry>, e: LogEntry): seq<LogEntry> {
    if TenantOf(e) == tenant then Without(own, e) else own
  }

  lemma WithoutOfTenantStep(tenant: string, before: seq<LogEntry>, last: LogEntry, e: LogEntry)
    requires OfTenant(tenant, Without(before, e)) == OwnWithout(tenant, OfTenant(tenant, before), e)
    ensures OfTenant(tenant, Without(before + [last], e)) == OwnWithout(tenant, OfTenant(tenant, before + [last]), e)
  {
    hide Without, OfTenant;
    var kept, own := Without(before, e), OfTenant(tenant, before);
    OfTenantSnoc(tenant, before, last);
    WithoutSnoc(before, last, e);
    OfTenantSnoc(tenant, kept, last);
    WithoutSnoc(own, last, e);
    assert kept + [] == kept && own + [] == own;
    assert OfTenant(tenant, kept) + [] == OfTenant(tenant, kept) && Without(own, e) + [] == Without(own, e);
  }

  lemma WithoutSnoc(log: seq<LogEntry>, x: LogEntry, e: LogEntry)
    ensures Without(log + [x], e) == Without(log, e) + if SamePath(x, e) then [] else [x]
  {
    hide Without, SamePath;
    C.WithoutSplits(log, [x], e);
    C.WithoutCons(x, [], e);
    C.NothingWithout(e);
    assert [x] + [] == [x];
    assert (if SamePath(x, e) then [] else [x]) + [] == if SamePath(x, e) then [] else [x];
  }
}
