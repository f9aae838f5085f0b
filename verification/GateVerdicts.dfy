/** custos/action_gate.py against custos/custody.py: what the re-walk says about the citations and commitments
    of a gate's runs, whatever the sinks refused meanwhile. */
module GateVerdicts {
  import opened Base
  import opened AuditRecords
  import opened AuditChain
  import opened PolicyEngine
  import opened PolicyCitation
  import opened Anchoring
  import opened Custody
  import opened Gate
  import opened GateRuns
  import opened Sinks

  // ---------------------------------------------------------------------------------------------
  // Citations and commitments
  // ---------------------------------------------------------------------------------------------

  /** The log holds a commitment of this digest for this tenant. */
  predicate Committed(log: seq<LogEntry>, tenant: string, digest: string) {
    exists i | 0 <= i < |log| :: log[i].Commit? && log[i].commit.tenantId == tenant && log[i].commit.headHash == digest
  }

  lemma {:induction false} CommittedIsAnchored(log: seq<LogEntry>, tenant: string, digest: string)
    ensures Committed(log, tenant, digest) <==> Anchored(Commits(log), tenant, digest)
  {
    if Committed(log, tenant, digest) {
      var i :| 0 <= i < |log| && log[i].Commit? && log[i].commit.tenantId == tenant && log[i].commit.headHash == digest;
      CommitsAre(log, log[i].commit);
    }
    if Anchored(Commits(log), tenant, digest) {
      var c :| c in Commits(log) && c.tenantId == tenant && c.headHash == digest;
      CommitsAre(log, c);
      var i :| 0 <= i < |log| && log[i] == Commit(c);
    }
  }

  /** Every commitment in the log re-hashes to its digest: P5. */
  predicate CommitsSound(h: Hashing, log: seq<LogEntry>) {
    forall i | 0 <= i < |log| && log[i].Commit? :: CommitOk(h, log[i].commit)
  }

  /** Every citation of the chain is committed in the log: P6. */
  predicate CitationsCovered(log: seq<LogEntry>, records: seq<AuditRecord>) {
    forall i | 0 <= i < |records| && Truthy(records[i].policyDigest) ::
      Committed(log, CitingTenant(records[i]), records[i].policyDigest.value)
  }

  /** Every sink takes whatever is offered. */
  ghost predicate TakesAll(sinks: nat, up: nat -> Uptake) {
    forall k: nat :: AllUp(sinks, up(k))
  }

  lemma CommitCovers(h: Hashing, log: seq<LogEntry>, q: QueuedCommit)
    requires CommittedAt(h, log, q)
    ensures Committed(log, q.tenant, q.digest)
  {
    hide CommitHash;
    var e :| e in log && e.Commit? && CommitmentOf(h, e.commit, q);
    var i :| 0 <= i < |log| && log[i] == e;
  }

  lemma CommittedLater(log: seq<LogEntry>, log': seq<LogEntry>, tenant: string, digest: string)
    requires log <= log' && Committed(log, tenant, digest)
    ensures Committed(log', tenant, digest)
  {
    var i :| 0 <= i < |log| && log[i].Commit? && log[i].commit.tenantId == tenant && log[i].commit.headHash == digest;
    assert log'[i] == log[i];
  }

  // ---------------------------------------------------------------------------------------------
  // What every act keeps
  // ---------------------------------------------------------------------------------------------

  /** Every sink has taken a commitment of the digest. */
  predicate TakenEverywhere(s: Snap, tenant: string, digest: string) {
    forall j | 0 <= j < |s.taken| :: Committed(s.taken[j], tenant, digest)
  }

  predicate Queued(s: Snap, tenant: string, digest: string) {
    exists q | q in s.queue :: q.tenant == tenant && q.digest == digest
  }

  /** Queued still, or taken by every sink. */
  predicate Settled(s: Snap, tenant: string, digest: string) {
    Queued(s, tenant, digest) || TakenEverywhere(s, tenant, digest)
  }

  /** A chain; and the digest the gate remembers as committed was taken by every sink. */
  ghost predicate Inv(site: Site, s: Snap) {
    && ChainOk(site.h, s.records)
    && (s.anchored.Some? ==> TakenEverywhere(s, site.tenant, s.anchored.value))
  }

  /** No act takes anything from a sink. */
  predicate SinksGrow(s: Snap, s': Snap) {
    |s'.taken| == |s.taken| && forall j | 0 <= j < |s.taken| :: s.taken[j] <= s'.taken[j]
  }

  /** An act that commits: the queue it drains, beginning with what was queued before. */
  function DrainedQueue(site: Site, a: Act, s: Snap): seq<QueuedCommit> {
    if a.Evaluating? && a.custody && CitedIn(site, s, a.pin).Some? && s.anchored != CitedIn(site, s, a.pin) then
      s.queue + [Needed(site.h, site.tenant, s, site.kind, a.pin, CitedIn(site, s, a.pin).value)]
    else s.queue
  }

  /** The four ways an act leaves the queue and the sinks. */
  lemma NextDrains(site: Site, a: Act, s: Snap, s': Snap)
    requires Next(site, a, s, s')
    ensures || (s'.queue == s.queue == DrainedQueue(site, a, s) && s'.taken == s.taken)
            || ((a.Draining? || a.Evaluating?) && Drained(site.h, a.up, DrainedQueue(site, a, s), s, s'))
            || (a.Others? && OthersStep(site.h, site.tenant, s, s'))
    ensures a.Evaluating? && DrainedQueue(site, a, s) != s.queue ==>
              && Drained(site.h, a.up, DrainedQueue(site, a, s), s, s')
              && s'.anchored == if s'.queue == [] then CitedIn(site, s, a.pin) else s.anchored
    ensures a.Evaluating? && DrainedQueue(site, a, s) == s.queue ==> s'.anchored == s.anchored
    ensures !a.Evaluating? ==> s'.anchored == s.anchored
  {
    hide Cited, KeyOf, RecordStep, Decision, Drained, LogGrew, CitationBytes;
    if a.Evaluating? { assert |DrainedQueue(site, a, s)| >= |s.queue|; }
  }

  lemma DrainedSinksGrow(h: Hashing, up: nat -> Uptake, queue: seq<QueuedCommit>, s: Snap, s': Snap)
    requires Drained(h, up, queue, s, s')
    ensures SinksGrow(s, s')
  {
    hide Kept, CommittedEverywhere;
    forall j | 0 <= j < |s.taken| ensures s.taken[j] <= s'.taken[j] {
      assert OnlyCommitsAdded(h, s.taken[j], s'.taken[j], queue);
    }
  }

  lemma OthersSinksGrow(h: Hashing, tenant: string, s: Snap, s': Snap)
    requires OthersStep(h, tenant, s, s')
    ensures SinksGrow(s, s')
  {
    forall j | 0 <= j < |s.taken| ensures s.taken[j] <= s'.taken[j] {
      assert LogGrew(h, s.queue, s.taken[j], s'.taken[j]);
    }
  }

  lemma NextSinksGrow(site: Site, a: Act, s: Snap, s': Snap)
    requires Next(site, a, s, s')
    ensures SinksGrow(s, s')
  {
    hide Next, Drained, OthersStep;
    NextDrains(site, a, s, s');
    if a.Others? && OthersStep(site.h, site.tenant, s, s') {
      OthersSinksGrow(site.h, site.tenant, s, s');
    } else if (a.Draining? || a.Evaluating?) && Drained(site.h, a.up, DrainedQueue(site, a, s), s, s') {
      DrainedSinksGrow(site.h, a.up, DrainedQueue(site, a, s), s, s');
    }
  }

  lemma {:induction false} RunSinksGrow(site: Site, acts: seq<Act>, states: seq<Snap>, i: nat)
    requires Trace(site, acts, states) && i <= |acts|
    ensures SinksGrow(states[i], states[|acts|])
    decreases |acts|
  {
    if i < |acts| {
      hide Next;
      TraceShorter(site, acts, states);
      RunSinksGrow(site, acts[..|acts| - 1], states[..|acts|], i);
      NextSinksGrow(site, acts[|acts| - 1], states[|acts| - 1], states[|acts|]);
    }
  }

  lemma TakenStays(s: Snap, s': Snap, tenant: string, digest: string)
    requires SinksGrow(s, s') && TakenEverywhere(s, tenant, digest)
    ensures TakenEverywhere(s', tenant, digest)
  {
    hide Committed;
    forall j | 0 <= j < |s'.taken| ensures Committed(s'.taken[j], tenant, digest) {
      CommittedLater(s.taken[j], s'.taken[j], tenant, digest);
    }
  }

  lemma EverywhereIsTaken(h: Hashing, s: Snap, q: QueuedCommit)
    requires CommittedEverywhere(h, s.taken, q)
    ensures TakenEverywhere(s, q.tenant, q.digest)
  {
    hide Committed, CommittedAt;
    forall j | 0 <= j < |s.taken| ensures Committed(s.taken[j], q.tenant, q.digest) {
      assert CommittedAt(h, s.taken[j], q);
      CommitCovers(h, s.taken[j], q);
    }
  }

  /** Whatever was queued when an act began, or joined the queue in it, is still queued after it or has been taken
      by every sink. */
  lemma NextHandlesEach(site: Site, a: Act, s: Snap, s': Snap)
    requires Next(site, a, s, s')
    ensures forall q | q in DrainedQueue(site, a, s) :: q in s'.queue || CommittedEverywhere(site.h, s'.taken, q)
    ensures forall q | q in s.queue :: q in DrainedQueue(site, a, s)
    ensures forall q | q in s'.queue && q !in DrainedQueue(site, a, s) :: q.tenant != site.tenant && Honest(site.h, q)
  {
    hide Next, Drained, LogGrew, CommittedEverywhere, Cited, Honest, CitationBytes;
    NextDrains(site, a, s, s');
    if (a.Draining? || a.Evaluating?) && Drained(site.h, a.up, DrainedQueue(site, a, s), s, s') {
      DrainedEach(site.h, a.up, DrainedQueue(site, a, s), s, s');
    }
  }

  lemma NextKeepsSettled(site: Site, a: Act, s: Snap, s': Snap, digest: string)
    requires Next(site, a, s, s') && Settled(s, site.tenant, digest)
    ensures Settled(s', site.tenant, digest)
  {
    hide Next, TakenEverywhere, SinksGrow, CommittedEverywhere, DrainedQueue;
    NextSinksGrow(site, a, s, s');
    NextHandlesEach(site, a, s, s');
    if Queued(s, site.tenant, digest) {
      var q :| q in s.queue && q.tenant == site.tenant && q.digest == digest;
      if q !in s'.queue { EverywhereIsTaken(site.h, s', q); }
    } else {
      TakenStays(s, s', site.tenant, digest);
    }
  }

  /** An evaluation with custody attached settles what it cites. */
  lemma EvaluateSettles(site: Site, a: Act, s: Snap, s': Snap)
    requires Next(site, a, s, s') && Inv(site, s) && a.Evaluating? && a.custody && CitedIn(site, s, a.pin).Some?
    ensures Settled(s', site.tenant, CitedIn(site, s, a.pin).value)
  {
    hide Next, TakenEverywhere, SinksGrow, CommittedEverywhere, Cited, CitationBytes, ChainOk;
    var cited := CitedIn(site, s, a.pin);
    if s.anchored == cited {
      NextSinksGrow(site, a, s, s');
      TakenStays(s, s', site.tenant, cited.value);
    } else {
      NextHandlesEach(site, a, s, s');
      var q := Needed(site.h, site.tenant, s, site.kind, a.pin, cited.value);
      assert q in DrainedQueue(site, a, s);
      if q !in s'.queue { EverywhereIsTaken(site.h, s', q); }
    }
  }

  lemma NextKeepsAnchored(site: Site, a: Act, s: Snap, s': Snap)
    requires Next(site, a, s, s') && Inv(site, s) && s'.anchored.Some?
    ensures TakenEverywhere(s', site.tenant, s'.anchored.value)
  {
    hide Next, TakenEverywhere, SinksGrow, Cited, CitationBytes, ChainOk, Drained;
    NextDrains(site, a, s, s');
    if s'.anchored == s.anchored {
      NextSinksGrow(site, a, s, s');
      TakenStays(s, s', site.tenant, s.anchored.value);
    } else {
      EvaluateSettles(site, a, s, s');
    }
  }

  lemma RecordKeepsChain(site: Site, digest: Option<string>, action: string, rule: Option<string>, s: Snap, s': Snap)
    requires ChainOk(site.h, s.records) && RecordStep(site.h, site.tenant, digest, action, rule, s, s')
    ensures ChainOk(site.h, s'.records)
  {
    hide RecordHash, ChainOk;
    if s'.records != s.records {
      var r := s'.records[|s.records|];
      assert s'.records == s.records + [r];
      ChainExtend(site.h, s.records, r);
    }
  }

  /** What an act records, if it records anything. */
  datatype Note = Note(digest: Option<string>, action: string, named: Option<string>)

  function NoteOf(site: Site, a: Act, s: Snap): Note {
    match a
    case Evaluating(rq, opa, _, pin, _) =>
      var d := DecisionIn(site, s, rq, opa);
      Note(CitedIn(site, s, pin), d.action.Text(), d.triggeredRule)
    case Reconciling(why, pin) => Note(CitedIn(site, s, pin), "DENY", Some(why))
    case Noting(digest, action, named) => Note(digest, action, named)
    case _ => Note(None, "", None)
  }

  lemma NextRecords(site: Site, a: Act, s: Snap, s': Snap)
    requires Next(site, a, s, s')
    ensures var n := NoteOf(site, a, s); RecordStep(site.h, site.tenant, n.digest, n.action, n.named, s, s')
    ensures s'.records != s.records ==> a.Evaluating? || a.Reconciling? || a.Noting?
  {
    hide Cited, KeyOf, CommitStep, Decision, LogGrew, RecordHash, Drained;
  }

  lemma NextKeepsInv(site: Site, a: Act, s: Snap, s': Snap)
    requires Inv(site, s) && Next(site, a, s, s')
    ensures Inv(site, s')
  {
    hide Next, ChainOk, TakenEverywhere, RecordStep;
    var n := NoteOf(site, a, s);
    NextRecords(site, a, s, s');
    RecordKeepsChain(site, n.digest, n.action, n.named, s, s');
    if s'.anchored.Some? { NextKeepsAnchored(site, a, s, s'); }
  }

  lemma {:induction false} StaysInv(site: Site, acts: seq<Act>, states: seq<Snap>)
    requires Trace(site, acts, states) && Inv(site, states[0])
    ensures Inv(site, states[|acts|])
    decreases |acts|
  {
    if acts != [] {
      hide Next, Inv;
      TraceShorter(site, acts, states);
      StaysInv(site, acts[..|acts| - 1], states[..|acts|]);
      NextKeepsInv(site, acts[|acts| - 1], states[|acts| - 1], states[|acts|]);
    }
  }

  /** Whatever the sinks refuse, a digest that an evaluation cited with custody attached is from then on either
      still queued or taken by every sink: once the queue is empty, every sink has it. */
  lemma {:induction false} CitedIsQueuedOrTaken(site: Site, acts: seq<Act>, states: seq<Snap>, i: nat)
    requires Trace(site, acts, states) && Inv(site, states[0])
    requires i < |acts| && acts[i].Evaluating? && acts[i].custody && CitedIn(site, states[i], acts[i].pin).Some?
    ensures Settled(states[|acts|], site.tenant, CitedIn(site, states[i], acts[i].pin).value)
    ensures states[|acts|].queue == [] ==>
              TakenEverywhere(states[|acts|], site.tenant, CitedIn(site, states[i], acts[i].pin).value)
    decreases |acts|
  {
    hide Next, Inv, TakenEverywhere, Queued, Cited;
    var n, digest := |acts| - 1, CitedIn(site, states[i], acts[i].pin).value;
    TraceShorter(site, acts, states);
    if i < n {
      CitedIsQueuedOrTaken(site, acts[..n], states[..|acts|], i);
      NextKeepsSettled(site, acts[n], states[n], states[n + 1], digest);
    } else {
      StaysInv(site, acts[..n], states[..|acts|]);
      EvaluateSettles(site, acts[n], states[n], states[n + 1]);
    }
    assert states[|acts|].queue == [] ==> !Queued(states[|acts|], site.tenant, digest) by {
      NothingQueued(states[|acts|], site.tenant, digest);
    }
  }

  lemma NothingQueued(s: Snap, tenant: string, digest: string)
    ensures s.queue == [] ==> !Queued(s, tenant, digest)
  {
  }

  // ---------------------------------------------------------------------------------------------
  // P5 over whole runs
  // ---------------------------------------------------------------------------------------------

  /** An evaluation here commits a digest that is not the digest of the bytes committed beside it: the cache
      held another policy's, and it was not the one last committed. */
  predicate CommitsStale(site: Site, a: Act, s: Snap) {
    && a.Evaluating? && a.custody && CitedIn(site, s, a.pin).Some? && s.anchored != CitedIn(site, s, a.pin)
    && CitedIn(site, s, a.pin).value != site.h.OfText(CitationBytes(site.h, s.tools, s.rules, site.kind, a.pin))
  }

  predicate AllHonest(h: Hashing, queue: seq<QueuedCommit>) {
    forall q | q in queue :: Honest(h, q)
  }

  /** Every commitment sink j has taken is sound, and so will be every one it may yet take. */
  predicate SoundSoFar(site: Site, s: Snap, j: nat)
    requires j < |s.taken|
  {
    AllHonest(site.h, s.queue) && CommitsSound(site.h, s.taken[j])
  }

  lemma DrainSoundIff(h: Hashing, up: nat -> Uptake, queue: seq<QueuedCommit>, s: Snap, s': Snap, j: nat)
    requires Drained(h, up, queue, s, s') && j < |s.taken|
    ensures |s'.taken| == |s.taken|
    ensures AllHonest(h, s'.queue) && CommitsSound(h, s'.taken[j]) <==>
            AllHonest(h, queue) && CommitsSound(h, s.taken[j])
  {
    hide Kept, Honest, CommittedEverywhere;
    DrainedEach(h, up, queue, s, s');
    assert OnlyCommitsAdded(h, s.taken[j], s'.taken[j], queue);
    SoundAfter(h, queue, s, s', j);
  }

  /** New entries of a sink are commitments of what was queued, and what was queued is queued still or was taken. */
  lemma SoundAfter(h: Hashing, queue: seq<QueuedCommit>, s: Snap, s': Snap, j: nat)
    requires j < |s.taken| == |s'.taken| && s.taken[j] <= s'.taken[j]
    requires forall i | |s.taken[j]| <= i < |s'.taken[j]| && s'.taken[j][i].Commit? ::
               CommitOk(h, s'.taken[j][i].commit) || CommitmentOfSome(h, s'.taken[j][i].commit, queue)
    requires forall q | q in queue :: q in s'.queue || CommittedEverywhere(h, s'.taken, q)
    requires forall q | q in s'.queue :: q in queue || Honest(h, q)
    ensures AllHonest(h, s'.queue) && CommitsSound(h, s'.taken[j]) <==>
            AllHonest(h, queue) && CommitsSound(h, s.taken[j])
  {
    hide Honest, CommitOk, CommittedEverywhere, CommitmentOfSome;
    var log, log' := s.taken[j], s'.taken[j];
    if AllHonest(h, queue) && CommitsSound(h, log) {
      forall i | 0 <= i < |log'| && log'[i].Commit? ensures CommitOk(h, log'[i].commit) {
        if i < |log| {
          assert log'[i] == log[i];
        } else if !CommitOk(h, log'[i].commit) {
          HonestIsSound(h, log'[i].commit, queue);
        }
      }
    }
    if AllHonest(h, s'.queue) && CommitsSound(h, log') {
      forall i | 0 <= i < |log| && log[i].Commit? ensures CommitOk(h, log[i].commit) {
        assert log'[i] == log[i];
      }
      forall q | q in queue ensures Honest(h, q) {
        if q !in s'.queue { SoundIsHonest(h, s'.taken, q, j); }
      }
    }
  }

  lemma HonestIsSound(h: Hashing, c: PolicyCommit, queue: seq<QueuedCommit>)
    requires CommitmentOfSome(h, c, queue) && AllHonest(h, queue)
    ensures CommitOk(h, c)
  {
    hide CommitHash;
    var k :| 0 <= k < |queue| && CommitmentOf(h, c, queue[k]);
    assert Honest(h, queue[k]);
  }

  lemma SoundIsHonest(h: Hashing, taken: seq<seq<LogEntry>>, q: QueuedCommit, j: nat)
    requires CommittedEverywhere(h, taken, q) && j < |taken| && CommitsSound(h, taken[j])
    ensures Honest(h, q)
  {
    hide CommitHash;
    assert CommittedAt(h, taken[j], q);
    var e :| e in taken[j] && e.Commit? && CommitmentOf(h, e.commit, q);
    var i :| 0 <= i < |taken[j]| && taken[j][i] == e;
    assert CommitOk(h, taken[j][i].commit);
  }

  lemma HonestSnoc(h: Hashing, queue: seq<QueuedCommit>, q: QueuedCommit)
    ensures AllHonest(h, queue + [q]) <==> AllHonest(h, queue) && Honest(h, q)
  {
    hide Honest;
    assert q in queue + [q];
    assert forall x | x in queue :: x in queue + [q];
  }

  /** One act, whatever the sinks do in it, leaves what a sink has taken and may yet take sound exactly when it
      was sound before and the act does not commit stale. */
  lemma {:induction false} NextSoundIff(site: Site, a: Act, s: Snap, s': Snap, j: nat)
    requires Next(site, a, s, s') && j < |s.taken|
    ensures |s'.taken| == |s.taken|
    ensures SoundSoFar(site, s', j) <==> SoundSoFar(site, s, j) && !CommitsStale(site, a, s)
  {
    hide Next, Honest, Drained, CommitsSound, Cited, CitationBytes, AllHonest, OthersStep;
    NextDrains(site, a, s, s');
    NextSinksGrow(site, a, s, s');
    QueueHonestIff(site, a, s);
    if (a.Draining? || a.Evaluating?) && Drained(site.h, a.up, DrainedQueue(site, a, s), s, s') {
      DrainSoundIff(site.h, a.up, DrainedQueue(site, a, s), s, s', j);
    } else if a.Others? && OthersStep(site.h, site.tenant, s, s') {
      OthersSoundIff(site.h, site.tenant, s, s', j);
    }
  }

  lemma QueueHonestIff(site: Site, a: Act, s: Snap)
    ensures AllHonest(site.h, DrainedQueue(site, a, s)) <==> AllHonest(site.h, s.queue) && !CommitsStale(site, a, s)
  {
    hide AllHonest, Cited, CitationBytes;
    if a.Evaluating? && CitedIn(site, s, a.pin).Some? {
      HonestSnoc(site.h, s.queue, Needed(site.h, site.tenant, s, site.kind, a.pin, CitedIn(site, s, a.pin).value));
    }
  }

  lemma OthersSoundIff(h: Hashing, tenant: string, s: Snap, s': Snap, j: nat)
    requires OthersStep(h, tenant, s, s') && j < |s.taken|
    ensures |s'.taken| == |s.taken|
    ensures AllHonest(h, s'.queue) && CommitsSound(h, s'.taken[j]) <==>
            AllHonest(h, s.queue) && CommitsSound(h, s.taken[j])
  {
    hide Honest, CommitOk, CommittedEverywhere, CommitmentOfSome;
    assert LogGrew(h, s.queue, s.taken[j], s'.taken[j]);
    SoundAfter(h, s.queue, s, s', j);
  }

  /** Some evaluation of the run committed stale. */
  predicate StaleSomewhere(site: Site, acts: seq<Act>, states: seq<Snap>)
    requires |states| == |acts| + 1
  {
    exists i | 0 <= i < |acts| :: CommitsStale(site, acts[i], states[i])
  }

  lemma StaleSnoc(site: Site, acts: seq<Act>, states: seq<Snap>)
    requires |states| == |acts| + 1 && acts != []
    ensures var n := |acts| - 1;
            StaleSomewhere(site, acts, states) <==>
            StaleSomewhere(site, acts[..n], states[..|acts|]) || CommitsStale(site, acts[n], states[n])
  {
    hide CommitsStale;
    var n := |acts| - 1;
    assert forall i | 0 <= i < n :: acts[..n][i] == acts[i] && states[..|acts|][i] == states[i];
    if StaleSomewhere(site, acts, states) {
      var i :| 0 <= i < |acts| && CommitsStale(site, acts[i], states[i]);
      if i < n { assert CommitsStale(site, acts[..n][i], states[..|acts|][i]); }
    }
    if StaleSomewhere(site, acts[..n], states[..|acts|]) {
      var i :| 0 <= i < n && CommitsStale(site, acts[..n][i], states[..|acts|][i]);
      assert CommitsStale(site, acts[i], states[i]);
    }
  }

  /** Over any run and any outages, what a sink has taken and may yet take is sound exactly when no evaluation
      committed stale. */
  lemma {:induction false} SoundIffNeverStale(site: Site, acts: seq<Act>, states: seq<Snap>, j: nat)
    requires Trace(site, acts, states) && j < |states[0].taken| && SoundSoFar(site, states[0], j)
    ensures |states[|acts|].taken| == |states[0].taken|
    ensures SoundSoFar(site, states[|acts|], j) <==> !StaleSomewhere(site, acts, states)
    decreases |acts|
  {
    if acts != [] {
      hide Next, SoundSoFar, StaleSomewhere, CommitsStale;
      var n := |acts| - 1;
      TraceShorter(site, acts, states);
      SoundIffNeverStale(site, acts[..n], states[..|acts|], j);
      NextSoundIff(site, acts[n], states[n], states[n + 1], j);
      StaleSnoc(site, acts, states);
    }
  }

  // ---------------------------------------------------------------------------------------------
  // P6 over whole runs
  // ---------------------------------------------------------------------------------------------

  /** What this act cites, if it cites without committing. */
  function CitesOnly(site: Site, a: Act, s: Snap): Option<string> {
    match a
    case Evaluating(_, _, custody, pin, _) => if custody then None else CitedIn(site, s, pin)
    case Reconciling(_, pin) => CitedIn(site, s, pin)
    case Noting(digest, _, _) => digest
    case _ => None
  }

  /** An act that commits nothing recorded a citation that this log holds no commitment of. */
  predicate LeavesUncommitted(site: Site, a: Act, s: Snap, s': Snap, log: seq<LogEntry>) {
    && s'.records != s.records && Truthy(CitesOnly(site, a, s))
    && !Committed(log, site.tenant, CitesOnly(site, a, s).value)
  }

  predicate UncommittedSomewhere(site: Site, acts: seq<Act>, states: seq<Snap>, log: seq<LogEntry>)
    requires |states| == |acts| + 1
  {
    exists i | 0 <= i < |acts| :: LeavesUncommitted(site, acts[i], states[i], states[i + 1], log)
  }

  lemma UncommittedSnoc(site: Site, acts: seq<Act>, states: seq<Snap>, log: seq<LogEntry>)
    requires |states| == |acts| + 1 && acts != []
    ensures var n := |acts| - 1;
            UncommittedSomewhere(site, acts, states, log) <==>
            || UncommittedSomewhere(site, acts[..n], states[..|acts|], log)
            || LeavesUncommitted(site, acts[n], states[n], states[n + 1], log)
  {
    hide LeavesUncommitted;
    var n := |acts| - 1;
    assert forall i | 0 <= i < n :: acts[..n][i] == acts[i];
    assert forall i | 0 <= i <= n :: states[..|acts|][i] == states[i];
    if UncommittedSomewhere(site, acts, states, log) {
      var i :| 0 <= i < |acts| && LeavesUncommitted(site, acts[i], states[i], states[i + 1], log);
      if i < n { assert LeavesUncommitted(site, acts[..n][i], states[..|acts|][i], states[..|acts|][i + 1], log); }
    }
    if UncommittedSomewhere(site, acts[..n], states[..|acts|], log) {
      var i :| 0 <= i < n && LeavesUncommitted(site, acts[..n][i], states[..|acts|][i], states[..|acts|][i + 1], log);
      assert LeavesUncommitted(site, acts[i], states[i], states[i + 1], log);
    }
  }

  lemma CoveredSnoc(site: Site, digest: Option<string>, action: string, rule: Option<string>, s: Snap, s': Snap,
      log: seq<LogEntry>)
    requires site.tenant != "" && RecordStep(site.h, site.tenant, digest, action, rule, s, s')
    ensures CitationsCovered(log, s'.records) <==>
            && CitationsCovered(log, s.records)
            && (s'.records != s.records && Truthy(digest) ==> Committed(log, site.tenant, digest.value))
  {
    hide Committed, RecordHash;
    if s'.records != s.records {
      var n := |s.records|;
      assert forall i | 0 <= i < n :: s'.records[i] == s.records[i];
      assert CitingTenant(s'.records[n]) == site.tenant;
    }
  }

  /** The log holds a commitment of what each evaluation cited with custody attached. */
  predicate EvaluationsCommitted(site: Site, acts: seq<Act>, states: seq<Snap>, log: seq<LogEntry>)
    requires |states| == |acts| + 1
  {
    forall i | && 0 <= i < |acts| && acts[i].Evaluating? && acts[i].custody
               && CitedIn(site, states[i], acts[i].pin).Some? ::
      Committed(log, site.tenant, CitedIn(site, states[i], acts[i].pin).value)
  }

  lemma EvaluationsShorter(site: Site, acts: seq<Act>, states: seq<Snap>, log: seq<LogEntry>)
    requires |states| == |acts| + 1 && acts != [] && EvaluationsCommitted(site, acts, states, log)
    ensures EvaluationsCommitted(site, acts[..|acts| - 1], states[..|acts|], log)
  {
    hide Committed, CitedIn;
    var n := |acts| - 1;
    assert forall i | 0 <= i < n :: acts[..n][i] == acts[i] && states[..|acts|][i] == states[i];
  }

  lemma NextCoveredIff(site: Site, a: Act, s: Snap, s': Snap, log: seq<LogEntry>)
    requires site.tenant != "" && Next(site, a, s, s')
    requires a.Evaluating? && a.custody && CitedIn(site, s, a.pin).Some? ==>
               Committed(log, site.tenant, CitedIn(site, s, a.pin).value)
    ensures CitationsCovered(log, s'.records) <==>
            CitationsCovered(log, s.records) && !LeavesUncommitted(site, a, s, s', log)
  {
    hide Next, CitationsCovered, Committed, CitedIn, RecordStep, DecisionIn;
    var n := NoteOf(site, a, s);
    NextRecords(site, a, s, s');
    CoveredSnoc(site, n.digest, n.action, n.named, s, s', log);
  }

  lemma {:induction false} CoveredIffAllCommitted(site: Site, acts: seq<Act>, states: seq<Snap>, log: seq<LogEntry>)
    requires site.tenant != "" && Trace(site, acts, states) && EvaluationsCommitted(site, acts, states, log)
    requires CitationsCovered(log, states[0].records)
    ensures CitationsCovered(log, states[|acts|].records) <==> !UncommittedSomewhere(site, acts, states, log)
    decreases |acts|
  {
    if acts != [] {
      hide Next, CitationsCovered, UncommittedSomewhere, LeavesUncommitted, Committed, CitedIn;
      var n := |acts| - 1;
      TraceShorter(site, acts, states);
      EvaluationsShorter(site, acts, states, log);
      CoveredIffAllCommitted(site, acts[..n], states[..|acts|], log);
      NextCoveredIff(site, acts[n], states[n], states[n + 1], log);
      UncommittedSnoc(site, acts, states, log);
    }
  }

  /** Once nothing is queued, every sink has a commitment of what each evaluation cited with custody attached. */
  lemma EmptyQueueCommits(site: Site, acts: seq<Act>, states: seq<Snap>, j: nat)
    requires Trace(site, acts, states) && Inv(site, states[0]) && states[|acts|].queue == []
    requires j < |states[|acts|].taken|
    ensures EvaluationsCommitted(site, acts, states, states[|acts|].taken[j])
  {
    hide Next, Inv, Committed, CitedIn;
    forall i | 0 <= i < |acts| && acts[i].Evaluating? && acts[i].custody && CitedIn(site, states[i], acts[i].pin).Some?
      ensures Committed(states[|acts|].taken[j], site.tenant, CitedIn(site, states[i], acts[i].pin).value)
    {
      CitedIsQueuedOrTaken(site, acts, states, i);
    }
  }

  // ---------------------------------------------------------------------------------------------
  // The verdicts
  // ---------------------------------------------------------------------------------------------

  /** A gate that has committed nothing, whatever its cache holds, over sinks and a queue that hold what other
      tenants honestly put there. */
  predicate Untouched(site: Site, s: Snap) {
    && ChainOk(site.h, s.records)
    && s.anchored.None? && AllHonest(site.h, s.queue)
    && (forall i | 0 <= i < |s.records| :: !Truthy(s.records[i].policyDigest))
    && forall j | 0 <= j < |s.taken| :: CommitsSound(site.h, s.taken[j])
  }

  lemma SoundIsP5(h: Hashing, log: seq<LogEntry>)
    ensures CommitsSound(h, log) <==> forall c | c in Commits(log) :: CommitOk(h, c)
  {
    hide CommitOk;
    forall c ensures c in Commits(log) <==> Commit(c) in log { CommitsAre(log, c); }
    if CommitsSound(h, log) {
      forall c | c in Commits(log) ensures CommitOk(h, c) {
        var i :| 0 <= i < |log| && log[i] == Commit(c);
      }
    }
    if forall c | c in Commits(log) :: CommitOk(h, c) {
      forall i | 0 <= i < |log| && log[i].Commit? ensures CommitOk(h, log[i].commit) {
        assert log[i] == Commit(log[i].commit) && log[i] in log;
      }
    }
  }

  lemma CoveredIsP6(log: seq<LogEntry>, records: seq<AuditRecord>)
    ensures CitationsCovered(log, records) <==> forall r | r in records :: CitationOk(Commits(log), r)
  {
    hide Committed, Anchored, Commits;
    forall t: string, d: string ensures Committed(log, t, d) <==> Anchored(Commits(log), t, d) {
      CommittedIsAnchored(log, t, d);
    }
    if CitationsCovered(log, records) {
      forall r | r in records ensures CitationOk(Commits(log), r) {
        var i :| 0 <= i < |records| && records[i] == r;
      }
    }
    if forall r | r in records :: CitationOk(Commits(log), r) {
      forall i | 0 <= i < |records| && Truthy(records[i].policyDigest)
        ensures Committed(log, CitingTenant(records[i]), records[i].policyDigest.value)
      {
        assert records[i] in records;
      }
    }
  }

  /** The verdicts on any log against a chain that verifies. */
  lemma VerdictsOfLog(h: Hashing, records: seq<AuditRecord>, log: seq<LogEntry>)
    requires ChainOk(h, records)
    ensures Verdicts(h, records, log).Some? && Verdicts(h, records, log).value.p1 == ESTABLISHED
    ensures Verdicts(h, records, log).value.p5 ==
            if Commits(log) == [] then None else Some(Decide(CommitsSound(h, log)))
    ensures Verdicts(h, records, log).value.p6 ==
            if Cites(records) then Some(Decide(CitationsCovered(log, records))) else None
  {
    hide ChainOk, CommitOk, CitationOk, CommitsSound, CitationsCovered, HeadMatches, AnchorChainOk, Recomputed,
      SortByEpoch, Commits, Cites;
    ChainRecomputes(h, records);
    SoundIsP5(h, log);
    CoveredIsP6(log, records);
    assert CommitsSound(h, log) == forall c | c in Commits(log) :: CommitOk(h, c);
    assert CitationsCovered(log, records) == forall r | r in records :: CitationOk(Commits(log), r);
  }

  lemma UntouchedIsCovered(site: Site, s: Snap, log: seq<LogEntry>)
    requires Untouched(site, s)
    ensures Inv(site, s) && CitationsCovered(log, s.records)
  {
    hide ChainOk, CommitsSound, AllHonest;
  }

  /** Whole runs of one gate over sinks any of which may refuse anything at any time, seen at a sink that keeps
      everything at a moment when nothing is queued; any engine, pinned or not, a tenant that has a name.
      The records are consistent (P1). The commitments are intact (P5) exactly when no evaluation committed
      over a stale cache entry that had not been committed before. Every citation is committed (P6) exactly
      when every digest that was recorded without committing it, by a reconciliation, by an evaluation
      without custody or by another component, is committed all the same. */
  lemma {:induction false} GateRunVerdicts(site: Site, acts: seq<Act>, states: seq<Snap>, j: nat)
    requires site.tenant != "" && Trace(site, acts, states) && Untouched(site, states[0])
    requires states[|acts|].queue == [] && j < |states[0].taken|
    ensures |states[|acts|].taken| == |states[0].taken|
    ensures var s := states[|acts|];
            var log := Held(KeepsAll, s.taken[j]);
            var verdicts := Verdicts(site.h, s.records, log);
            && verdicts.Some? && verdicts.value.p1 == ESTABLISHED
            && verdicts.value.p5 ==
               (if Commits(log) == [] then None else Some(Decide(!StaleSomewhere(site, acts, states))))
            && (StaleSomewhere(site, acts, states) ==> Commits(log) != [])
            && verdicts.value.p6 ==
               (if Cites(s.records) then Some(Decide(!UncommittedSomewhere(site, acts, states, s.taken[j]))) else None)
            && (UncommittedSomewhere(site, acts, states, s.taken[j]) ==> Cites(s.records))
  {
    hide Next, Verdicts, CommitsSound, StaleSomewhere, UncommittedSomewhere, Committed, ChainOk, CitationsCovered,
      EvaluationsCommitted, Cites;
    SoundIffNeverStale(site, acts, states, j);
    var s, log := states[|acts|], states[|acts|].taken[j];
    UntouchedIsCovered(site, states[0], log);
    StaysInv(site, acts, states);
    KeepsAllHoldsAll(log);
    EmptyQueueCommits(site, acts, states, j);
    CoveredIffAllCommitted(site, acts, states, log);
    VerdictsOfLog(site.h, s.records, log);
    UnsoundHasCommits(site.h, log);
    UncoveredCites(log, s.records);
    assert CommitsSound(site.h, log) == !StaleSomewhere(site, acts, states);
    assert CitationsCovered(log, s.records) == !UncommittedSomewhere(site, acts, states, log);
  }

  lemma UnsoundHasCommits(h: Hashing, log: seq<LogEntry>)
    ensures !CommitsSound(h, log) ==> Commits(log) != []
  {
    hide Commits, CommitOk;
    if !CommitsSound(h, log) {
      var i :| 0 <= i < |log| && log[i].Commit? && !CommitOk(h, log[i].commit);
      CommitsAre(log, log[i].commit);
    }
  }

  lemma UncoveredCites(log: seq<LogEntry>, records: seq<AuditRecord>)
    ensures !CitationsCovered(log, records) ==> Cites(records)
  {
    hide Committed;
    if !CitationsCovered(log, records) {
      var i :| 0 <= i < |records| && Truthy(records[i].policyDigest);
      assert records[i] in records;
    }
  }

  // --- When the conditions hold

  /** The regex engine never commits stale, unless an earlier rule list collides with the present one. */
  lemma {:induction false} RegexNeverStale(site: Site, acts: seq<Act>, states: seq<Snap>)
    requires site.kind == RegexKind && Trace(site, acts, states) && CacheOk(site, states[0])
    requires forall i | 0 <= i < |acts| :: !PrefixCollides(site.h, states[i].rules)
    ensures !StaleSomewhere(site, acts, states)
  {
    hide Next, CacheOk, PrefixCollides, Cited, CitationBytes;
    forall i | 0 <= i < |acts| && acts[i].Evaluating? ensures !CommitsStale(site, acts[i], states[i]) {
      TracePrefix(site, acts, states, i);
      CacheStaysOk(site, acts[..i], states[..i + 1]);
      CacheHitIsFresh(site, states[i], acts[i].pin);
    }
  }

  /** Custody is attached and every sink took every commit an evaluation offered. */
  ghost predicate Served(acts: seq<Act>, states: seq<Snap>)
    requires |states| == |acts| + 1
  {
    forall i | 0 <= i < |acts| && acts[i].Evaluating? :: acts[i].custody && TakesAll(|states[i].taken|, acts[i].up)
  }

  lemma ServedShorter(acts: seq<Act>, states: seq<Snap>)
    requires |states| == |acts| + 1 && acts != [] && Served(acts, states)
    ensures Served(acts[..|acts| - 1], states[..|acts|])
  {
    hide TakesAll;
    var n := |acts| - 1;
    assert forall i | 0 <= i < n :: acts[..n][i] == acts[i] && states[..|acts|][i] == states[i];
  }

  /** A cached digest is the one last committed. */
  predicate CacheCommitted(s: Snap) {
    s.cache.Some? && s.cache.value.digest.Some? ==> s.anchored == s.cache.value.digest
  }

  /** The acts that fill the cache without committing what they fill it with. */
  predicate FillsOnly(a: Act) {
    a.Reconciling? || a.Citing?
  }

  lemma NextKeepsCacheCommitted(site: Site, a: Act, s: Snap, s': Snap)
    requires CacheCommitted(s) && Next(site, a, s, s') && !FillsOnly(a)
    requires a.Evaluating? ==> a.custody && TakesAll(|s.taken|, a.up)
    ensures CacheCommitted(s')
    ensures !CommitsStale(site, a, s)
  {
    hide KeyOf, CitationBytes, Drained, RecordStep, LogGrew, Decision;
    if a.Evaluating? {
      NextDrains(site, a, s, s');
      if DrainedQueue(site, a, s) != s.queue { AllTaken(site.h, a.up, DrainedQueue(site, a, s), s, s'); }
    }
  }

  lemma AllTaken(h: Hashing, up: nat -> Uptake, queue: seq<QueuedCommit>, s: Snap, s': Snap)
    requires Drained(h, up, queue, s, s') && TakesAll(|s.taken|, up)
    ensures s'.queue == []
  {
    hide AllUp;
    NothingLeft(|s.taken|, queue, Offers(up, |queue|));
  }

  lemma {:induction false} HealthyIsNeverStale(site: Site, acts: seq<Act>, states: seq<Snap>)
    requires Trace(site, acts, states) && Served(acts, states) && CacheCommitted(states[0])
    requires forall i | 0 <= i < |acts| :: !FillsOnly(acts[i])
    ensures CacheCommitted(states[|acts|]) && !StaleSomewhere(site, acts, states)
    decreases |acts|
  {
    if acts != [] {
      hide Next, TakesAll, CacheCommitted, StaleSomewhere, CommitsStale;
      var n := |acts| - 1;
      TraceShorter(site, acts, states);
      ServedShorter(acts, states);
      HealthyIsNeverStale(site, acts[..n], states[..|acts|]);
      NextKeepsCacheCommitted(site, acts[n], states[n], states[n + 1]);
      StaleSnoc(site, acts, states);
    }
  }

  /** Where nothing but evaluations cites, and each of them found every sink up, P5 and P6 are ESTABLISHED, with
      every engine, and nothing about collisions is assumed. */
  lemma {:induction false} HealthyRunsAreEstablished(site: Site, acts: seq<Act>, states: seq<Snap>, j: nat)
    requires site.tenant != "" && Trace(site, acts, states) && Served(acts, states) && Untouched(site, states[0])
    requires CacheCommitted(states[0]) && states[|acts|].queue == [] && j < |states[0].taken|
    requires forall i | 0 <= i < |acts| :: !FillsOnly(acts[i]) && (acts[i].Noting? ==> !Truthy(acts[i].digest))
    ensures |states[|acts|].taken| == |states[0].taken|
    ensures var s := states[|acts|];
            var log := Held(KeepsAll, s.taken[j]);
            var verdicts := Verdicts(site.h, s.records, log);
            && verdicts.Some? && verdicts.value.p1 == ESTABLISHED
            && verdicts.value.p5 == (if Commits(log) == [] then None else Some(ESTABLISHED))
            && verdicts.value.p6 == (if Cites(s.records) then Some(ESTABLISHED) else None)
  {
    hide Next, Verdicts, StaleSomewhere, Committed, Untouched, CacheCommitted, TakesAll, Commits, Cites;
    HealthyIsNeverStale(site, acts, states);
    GateRunVerdicts(site, acts, states, j);
  }

  // --- At a sink that replaces files

  /** A commitment of the digest is still held. */
  predicate StillCommitted(taken: seq<LogEntry>, tenant: string, digest: string) {
    exists i | 0 <= i < |taken| :: CommitmentAt(taken, i, tenant, digest) && !Replaced(KeepsLatest, taken, i)
  }

  predicate CommitmentAt(taken: seq<LogEntry>, i: nat, tenant: string, digest: string)
    requires i < |taken|
  {
    taken[i].Commit? && taken[i].commit.tenantId == tenant && taken[i].commit.headHash == digest
  }

  lemma HeldCommitted(taken: seq<LogEntry>, tenant: string, digest: string)
    ensures Committed(Held(KeepsLatest, taken), tenant, digest) <==> StillCommitted(taken, tenant, digest)
  {
    hide Held, Replaced;
    var log := Held(KeepsLatest, taken);
    if Committed(log, tenant, digest) {
      var i :| 0 <= i < |log| && log[i].Commit? && log[i].commit.tenantId == tenant && log[i].commit.headHash == digest;
      HeldMembers(KeepsLatest, taken, log[i]);
      var k :| 0 <= k < |taken| && taken[k] == log[i] && !Replaced(KeepsLatest, taken, k);
      assert CommitmentAt(taken, k, tenant, digest);
    }
    if StillCommitted(taken, tenant, digest) {
      var k :| 0 <= k < |taken| && CommitmentAt(taken, k, tenant, digest) && !Replaced(KeepsLatest, taken, k);
      HeldMembers(KeepsLatest, taken, taken[k]);
      var i :| 0 <= i < |log| && log[i] == taken[k];
    }
  }

  /** Every commitment that was not replaced is sound. */
  predicate SurvivorsSound(h: Hashing, taken: seq<LogEntry>) {
    forall i | 0 <= i < |taken| && taken[i].Commit? && !Replaced(KeepsLatest, taken, i) :: CommitOk(h, taken[i].commit)
  }

  lemma HeldSound(h: Hashing, taken: seq<LogEntry>)
    ensures CommitsSound(h, Held(KeepsLatest, taken)) <==> SurvivorsSound(h, taken)
    ensures CommitsSound(h, taken) ==> SurvivorsSound(h, taken)
  {
    hide Held, Replaced, CommitOk;
    var log := Held(KeepsLatest, taken);
    if SurvivorsSound(h, taken) {
      forall i | 0 <= i < |log| && log[i].Commit? ensures CommitOk(h, log[i].commit) {
        HeldMembers(KeepsLatest, taken, log[i]);
        var k :| 0 <= k < |taken| && taken[k] == log[i] && !Replaced(KeepsLatest, taken, k);
      }
    }
    if CommitsSound(h, log) {
      forall k | 0 <= k < |taken| && taken[k].Commit? && !Replaced(KeepsLatest, taken, k)
        ensures CommitOk(h, taken[k].commit)
      {
        HeldMembers(KeepsLatest, taken, taken[k]);
        var i :| 0 <= i < |log| && log[i] == taken[k];
      }
    }
  }

  /** The digest was committed, and every commitment of it replaced. */
  predicate Lost(taken: seq<LogEntry>, tenant: string, digest: string) {
    Committed(taken, tenant, digest) && !StillCommitted(taken, tenant, digest)
  }

  predicate LostSomewhere(taken: seq<LogEntry>, records: seq<AuditRecord>) {
    exists i | 0 <= i < |records| ::
      Truthy(records[i].policyDigest) && Lost(taken, CitingTenant(records[i]), records[i].policyDigest.value)
  }

  lemma HeldCovered(taken: seq<LogEntry>, records: seq<AuditRecord>)
    ensures CitationsCovered(Held(KeepsLatest, taken), records) <==>
            CitationsCovered(taken, records) && !LostSomewhere(taken, records)
  {
    hide Held, Replaced, Committed, StillCommitted;
    forall i | 0 <= i < |records| && Truthy(records[i].policyDigest)
      ensures var t, digest := CitingTenant(records[i]), records[i].policyDigest.value;
              Committed(Held(KeepsLatest, taken), t, digest) <==>
              Committed(taken, t, digest) && !Lost(taken, t, digest)
    {
      HeldCommitted(taken, CitingTenant(records[i]), records[i].policyDigest.value);
      StillIsCommitted(taken, CitingTenant(records[i]), records[i].policyDigest.value);
    }
  }

  lemma StillIsCommitted(taken: seq<LogEntry>, tenant: string, digest: string)
    ensures StillCommitted(taken, tenant, digest) ==> Committed(taken, tenant, digest)
  {
    hide Replaced;
    if StillCommitted(taken, tenant, digest) {
      var i :| 0 <= i < |taken| && CommitmentAt(taken, i, tenant, digest) && !Replaced(KeepsLatest, taken, i);
      assert taken[i].Commit?;
    }
  }

  /** The same runs at a sink that writes one file per tenant and epoch. P1 holds. P5 fails exactly when an
      unsound commitment was not replaced, for which something must have been committed stale. P6 fails
      exactly when some citation was never committed, or was and every commitment of it was replaced by
      a later head anchor or commitment: healthy sinks are not enough. */
  lemma {:induction false} GateRunAtReplacingSink(site: Site, acts: seq<Act>, states: seq<Snap>, j: nat)
    requires site.tenant != "" && Trace(site, acts, states) && Untouched(site, states[0])
    requires states[|acts|].queue == [] && j < |states[0].taken|
    ensures |states[|acts|].taken| == |states[0].taken|
    ensures var s := states[|acts|];
            var log := Held(KeepsLatest, s.taken[j]);
            var verdicts := Verdicts(site.h, s.records, log);
            && verdicts.Some? && verdicts.value.p1 == ESTABLISHED
            && verdicts.value.p5 ==
               (if Commits(log) == [] then None else Some(Decide(SurvivorsSound(site.h, s.taken[j]))))
            && (!SurvivorsSound(site.h, s.taken[j]) ==> StaleSomewhere(site, acts, states))
            && verdicts.value.p6 ==
               (if !Cites(s.records) then None
                else Some(Decide(!UncommittedSomewhere(site, acts, states, s.taken[j])
                                 && !LostSomewhere(s.taken[j], s.records))))
  {
    hide Next, Verdicts, CommitsSound, StaleSomewhere, UncommittedSomewhere, Committed, ChainOk, CitationsCovered,
      EvaluationsCommitted, Cites, SurvivorsSound, LostSomewhere, Held;
    SoundIffNeverStale(site, acts, states, j);
    var s, taken := states[|acts|], states[|acts|].taken[j];
    UntouchedIsCovered(site, states[0], taken);
    StaysInv(site, acts, states);
    EmptyQueueCommits(site, acts, states, j);
    CoveredIffAllCommitted(site, acts, states, taken);
    HeldSound(site.h, taken);
    HeldCovered(taken, s.records);
    VerdictsOfLog(site.h, s.records, Held(KeepsLatest, taken));
    assert CommitsSound(site.h, Held(KeepsLatest, taken)) == SurvivorsSound(site.h, taken);
    assert CitationsCovered(Held(KeepsLatest, taken), s.records) ==
           (!UncommittedSomewhere(site, acts, states, taken) && !LostSomewhere(taken, s.records));
  }

  // --- Where they fail

  /** The act fills an empty cache and leaves the digest uncommitted: a reconciled refusal, a digest asked for,
      an evaluation whose commitment some sink refuses. */
  predicate CachesUncommitted(a: Act, s: Snap, pin: Option<string>) {
    || a == Citing(pin)
    || (a.Reconciling? && a.pin == pin)
    || (a.Evaluating? && a.pin == pin && a.custody && !AllUp(|s.taken|, a.up(|s.queue|)))
  }

  lemma CachesAndForgets(site: Site, a: Act, s: Snap, s': Snap, pin: Option<string>)
    requires CachesUncommitted(a, s, pin) && Next(site, a, s, s') && s.cache.None? && s.anchored.None?
    requires PolicyDigest(site.h, s.tools, s.rules, site.kind, pin).Some?
    ensures s'.anchored.None? && s'.tools == s.tools && s'.rules == s.rules
    ensures s'.cache == Some(CacheEntry(KeyOf(site.h, s.tools, s.rules, site.kind, pin),
                                        PolicyDigest(site.h, s.tools, s.rules, site.kind, pin)))
  {
    hide RecordStep, Decision, KeyOf, PolicyDigest, CitationBytes, CommittedEverywhere, OnlyCommitsAdded, AllUp;
    if a.Evaluating? {
      NextDrains(site, a, s, s');
      var queue := DrainedQueue(site, a, s);
      assert |queue| == |s.queue| + 1;
      KeptOrTaken(|s.taken|, queue, Offers(a.up, |queue|), |s.queue|);
    }
  }

  /** With a pinned OPA or hybrid engine: fill the cache without committing, add a rule, evaluate an action with
      every sink up. The evaluation commits the first policy's digest beside the second policy's bytes,
      and P5 is CONTRADICTION at every sink that keeps everything, with nobody having tampered, unless
      the two canonical policies collide. */
  lemma {:induction false} CacheThenChange(site: Site, first: Act, pin: Option<string>, rule: PolicyRule,
      rq: ActionRequest, opa: OpaServer, up: nat -> Uptake, states: seq<Snap>, j: nat)
    requires site.tenant != "" && site.kind != RegexKind && Truthy(pin)
    requires |states| == 4 && Untouched(site, states[0]) && states[0].cache.None? && j < |states[0].taken|
    requires CachesUncommitted(first, states[0], pin) && TakesAll(|states[2].taken|, up)
    requires Trace(site, [first, AddingRule(rule), Evaluating(rq, opa, true, pin, up)], states)
    ensures |states[3].taken| == |states[0].taken|
    ensures var s := states[0];
            var verdicts := Verdicts(site.h, states[3].records, Held(KeepsAll, states[3].taken[j]));
            || (verdicts.Some? && verdicts.value.p5 == Some(CONTRADICTION))
            || Collision(site.h, CitationJson(site.h, s.tools, s.rules, site.kind, pin),
                         CitationJson(site.h, s.tools, s.rules + [rule], site.kind, pin))
  {
    hide CitationJson, RulesDigest, CommitsSound, Verdicts, Drained, UncommittedSomewhere, ChainOk, RecordStep,
      Decision, Held, Cites, CommitmentOf, AllUp, CachesUncommitted;
    var s := states[0];
    var acts := [first, AddingRule(rule), Evaluating(rq, opa, true, pin, up)];
    assert Next(site, acts[0], states[0], states[1]);
    assert Next(site, acts[1], states[1], states[2]);
    assert Next(site, acts[2], states[2], states[3]);
    CachesAndForgets(site, first, s, states[1], pin);
    assert states[2].rules[..|s.rules|] == s.rules;
    PinnedCitationGoesStale(site, states[2], pin, |s.rules|);
    NextDrains(site, acts[2], states[2], states[3]);
    AllTaken(site.h, up, DrainedQueue(site, acts[2], states[2]), states[2], states[3]);
    GateRunVerdicts(site, acts, states, j);
    assert CommitsStale(site, acts[2], states[2]) ==> StaleSomewhere(site, acts, states);
  }

  /** Once a digest was recorded that nothing committed, and nothing is queued, P6 is CONTRADICTION until something
      commits it. */
  lemma {:induction false} UncommittedFailsP6(site: Site, acts: seq<Act>, states: seq<Snap>, i: nat, j: nat)
    requires site.tenant != "" && Trace(site, acts, states) && Untouched(site, states[0])
    requires states[|acts|].queue == [] && j < |states[0].taken| == |states[|acts|].taken|
    requires i < |acts| && LeavesUncommitted(site, acts[i], states[i], states[i + 1], states[|acts|].taken[j])
    ensures var s := states[|acts|];
            var verdicts := Verdicts(site.h, s.records, Held(KeepsAll, s.taken[j]));
            verdicts.Some? && verdicts.value.p6 == Some(CONTRADICTION)
  {
    hide Next, Verdicts, Held, StaleSomewhere, Untouched, LeavesUncommitted, Commits, Cites;
    GateRunVerdicts(site, acts, states, j);
  }

  lemma NothingCommitted(tenant: string, digest: string)
    ensures !Committed([], tenant, digest)
  {
  }

  /** A refusal is reconciled before anything is evaluated: the record cites a policy nobody commits. */
  lemma {:induction false} ReconciliationFailsP6(site: Site, why: string, pin: Option<string>, states: seq<Snap>,
      j: nat)
    requires site.tenant != "" && |states| == 2 && Untouched(site, states[0]) && states[0].queue == []
    requires j < |states[0].taken| && states[0].taken[j] == []
    requires Trace(site, [Reconciling(why, pin)], states)
    requires states[1].records != states[0].records && Truthy(CitedIn(site, states[0], pin))
    ensures |states[1].taken| == |states[0].taken|
    ensures var verdicts := Verdicts(site.h, states[1].records, Held(KeepsAll, states[1].taken[j]));
            verdicts.Some? && verdicts.value.p6 == Some(CONTRADICTION)
  {
    hide CommitsSound, Verdicts, ChainOk, RecordStep, Held, Committed, Cited, KeyOf;
    var acts := [Reconciling(why, pin)];
    assert Next(site, acts[0], states[0], states[1]);
    NothingCommitted(site.tenant, CitedIn(site, states[0], pin).value);
    assert LeavesUncommitted(site, acts[0], states[0], states[1], states[1].taken[j]);
    UncommittedFailsP6(site, acts, states, 0, j);
  }

  /** What a content decision, a rate limit and a purge cite: the engine's policy over no tools at all. */
  function ContentDigest(h: Hashing, rules: seq<PolicyRule>, kind: EngineKind, pin: Option<string>): Option<string> {
    PolicyDigest(h, {}, rules, kind, pin)
  }

  /** It is what the gate cites and commits exactly for a tenant with no tool allowlisted, unless the two canonical
      policies collide. */
  lemma ContentCitesTheGatesPolicyIff(h: Hashing, tools: set<string>, rules: seq<PolicyRule>, kind: EngineKind,
      pin: Option<string>)
    requires ContentDigest(h, rules, kind, pin).Some?
    ensures PolicyDigest(h, tools, rules, kind, pin).Some?
    ensures ContentDigest(h, rules, kind, pin) == PolicyDigest(h, tools, rules, kind, pin) <==>
            tools == {} || Collision(h, CitationJson(h, {}, rules, kind, pin), CitationJson(h, tools, rules, kind, pin))
  {
    hide CitationJson;
    CitationCanonical(h, {}, rules, kind, pin, tools, rules, kind, pin);
  }

  lemma DrainTakesOnly(h: Hashing, up: nat -> Uptake, queue: seq<QueuedCommit>, s: Snap, s': Snap, tenant: string,
      digest: string, j: nat)
    requires Drained(h, up, queue, s, s') && j < |s.taken| && !Committed(s.taken[j], tenant, digest)
    requires forall q | q in queue :: q.digest != digest
    ensures |s'.taken| == |s.taken| && !Committed(s'.taken[j], tenant, digest)
  {
    hide Kept, CommittedEverywhere, CommitHash;
    var log, log' := s.taken[j], s'.taken[j];
    assert OnlyCommitsAdded(h, log, log', queue);
    forall i | 0 <= i < |log'| && log'[i].Commit?
      ensures !(log'[i].commit.tenantId == tenant && log'[i].commit.headHash == digest)
    {
      if i < |log| {
        assert log'[i] == log[i];
      } else {
        assert CommitmentOfSome(h, log'[i].commit, queue);
      }
    }
  }

  /** Allowlist a tool, evaluate an action, decide on some content: healthy sinks, any engine that can cite. The
      content decision's record cites a policy over no tools, which nobody commits, and P6 is CONTRADICTION
      with nobody having tampered, unless the two canonical policies collide. */
  lemma {:induction false} ContentDecisionIsUncommitted(site: Site, tools: set<string>, rq: ActionRequest,
      opa: OpaServer, pin: Option<string>, up: nat -> Uptake, action: string, named: Option<string>, states: seq<Snap>,
      j: nat)
    requires site.tenant != "" && tools != {} && |states| == 4 && Untouched(site, states[0]) && states[0].queue == []
    requires j < |states[0].taken| && states[0].taken[j] == [] && TakesAll(|states[1].taken|, up)
    requires Truthy(ContentDigest(site.h, states[0].rules, site.kind, pin))
    requires Trace(site, [Registering(tools), Evaluating(rq, opa, true, pin, up),
                          Noting(ContentDigest(site.h, states[0].rules, site.kind, pin), action, named)], states)
    requires states[3].records != states[2].records
    ensures |states[3].taken| == |states[0].taken|
    ensures var rules := states[0].rules;
            var verdicts := Verdicts(site.h, states[3].records, Held(KeepsAll, states[3].taken[j]));
            || (verdicts.Some? && verdicts.value.p6 == Some(CONTRADICTION))
            || Collision(site.h, CitationJson(site.h, {}, rules, site.kind, pin),
                         CitationJson(site.h, tools, rules, site.kind, pin))
  {
    hide CitationJson, RulesDigest, CommitsSound, Verdicts, Drained, StaleSomewhere, ChainOk, RecordStep, Decision,
      Held, Cites, CommitmentOf, AllUp, Committed, PolicyDigest, CommittedEverywhere;
    var h, rules, digest := site.h, states[0].rules, ContentDigest(site.h, states[0].rules, site.kind, pin);
    var acts := [Registering(tools), Evaluating(rq, opa, true, pin, up), Noting(digest, action, named)];
    assert Next(site, acts[0], states[0], states[1]);
    assert Next(site, acts[1], states[1], states[2]);
    assert Next(site, acts[2], states[2], states[3]);
    ContentCitesTheGatesPolicyIff(h, tools, rules, site.kind, pin);
    NothingCommitted(site.tenant, digest.value);
    var cited := CitedIn(site, states[1], pin);
    assert cited == PolicyDigest(h, tools, rules, site.kind, pin);
    RunSinksGrow(site, acts, states, 0);
    NextDrains(site, acts[1], states[1], states[2]);
    var queue := DrainedQueue(site, acts[1], states[1]);
    assert |queue| == 1 && queue[0].digest == cited.value;
    if cited != digest {
      AllTaken(h, up, queue, states[1], states[2]);
      DrainTakesOnly(h, up, queue, states[1], states[2], site.tenant, digest.value, j);
      assert LeavesUncommitted(site, acts[2], states[2], states[3], states[3].taken[j]);
      UncommittedFailsP6(site, acts, states, 2, j);
    }
  }
}
