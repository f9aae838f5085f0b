/** custos/custody.py `AnchorManager`: anchoring chain heads and policy commits into several sinks,
    any of which may be down at any attempt. */
module Anchoring {
  import opened Base
  import opened Custody
  import opened Sinks

  /** An outage, as the next anchor to land describes it. */
  datatype Gap = Gap(fromEpoch: int, attempts: int, firstAttempt: string, lastAttempt: string)

  function GapJson(gap: Option<Gap>): Json {
    match gap
    case None => Null
    case Some(g) => Obj(map[FromEpochKey := Int(g.fromEpoch), AttemptsKey := Int(g.attempts),
                            FirstAttemptKey := Str(g.firstAttempt), LastAttemptKey := Str(g.lastAttempt)])
  }

  datatype TenantState = TenantState(
    epoch: int, length: int, anchorHash: string, lastAnchor: Option<string>, pendingGap: Option<Gap>)

  datatype CommitState = CommitState(epoch: int, anchorHash: string)

  const FRESH_STATE := TenantState(0, 0, GENESIS, None, None)

  /** The anchor an attempt offers to every sink. */
  function NextAnchor(h: Hashing, tenant: string, st: TenantState, length: int, head: string, now: string): Anchor {
    var unsealed := Anchor(tenant, st.epoch + 1, length, head, now, st.anchorHash, GapJson(st.pendingGap), "");
    unsealed.(anchorHash := AnchorHash(h, unsealed))
  }

  /** The tenant's state after an attempt: advanced if every sink took the anchor, otherwise only the
      gap grows. */
  function AfterAttempt(h: Hashing, tenant: string, st: TenantState, length: int, head: string, now: string,
      landed: bool): TenantState
  {
    if landed then
      TenantState(st.epoch + 1, length, NextAnchor(h, tenant, st, length, head, now).anchorHash, Some(now), None)
    else
      var gap := st.pendingGap.GetOr(Gap(st.epoch + 1, 0, now, ""));
      st.(pendingGap := Some(gap.(attempts := gap.attempts + 1, lastAttempt := now)))
  }

  function NextCommit(h: Hashing, st: CommitState, q: QueuedCommit, now: string): PolicyCommit {
    var unsealed := PolicyCommit(q.tenant, st.epoch + 1, q.digest, now, st.anchorHash, q.canonical, "");
    unsealed.(anchorHash := CommitHash(h, unsealed))
  }

  datatype QueuedCommit = QueuedCommit(tenant: string, digest: string, canonical: string)

  /** What chain.head() answers for one tenant. */
  datatype ChainHead = ChainHead(tenant: string, length: int, hash: string)

  function StateOf(state: map<string, TenantState>, tenant: string): TenantState {
    if tenant in state then state[tenant] else FRESH_STATE
  }

  function CommitStateOf(state: map<string, CommitState>, tenant: string): CommitState {
    if tenant in state then state[tenant] else CommitState(0, GENESIS)
  }

  /** What one offer adds to what each sink has taken. */
  ghost predicate Offered(kinds: seq<SinkKind>, before: seq<seq<LogEntry>>, after: seq<seq<LogEntry>>, e: LogEntry,
      up: Uptake)
    requires |kinds| == |before|
  {
    && |after| == |before|
    && forall j | 0 <= j < |before| :: after[j] == if Took(kinds[j], up, j) then before[j] + [e] else before[j]
  }

  /** The commits the queue lets go, in order, and the ones it keeps, in order. `up` answers attempt by
      attempt. */
  function Kept(n: nat, queue: seq<QueuedCommit>, up: seq<Uptake>): seq<QueuedCommit>
    requires |up| == |queue|
  {
    if queue == [] then []
    else (if AllUp(n, up[0]) then [] else [queue[0]]) + Kept(n, queue[1..], up[1..])
  }

  lemma {:induction false} KeptExtends(n: nat, queue: seq<QueuedCommit>, up: seq<Uptake>, q: QueuedCommit, u: Uptake)
    requires |up| == |queue|
    ensures Kept(n, queue + [q], up + [u]) == Kept(n, queue, up) + if AllUp(n, u) then [] else [q]
  {
    if queue != [] {
      assert (queue + [q])[1..] == queue[1..] + [q] && (up + [u])[1..] == up[1..] + [u];
      KeptExtends(n, queue[1..], up[1..], q, u);
    }
  }

  function AfterCommit(h: Hashing, st: CommitState, q: QueuedCommit, now: string, landed: bool): CommitState {
    if landed then CommitState(st.epoch + 1, NextCommit(h, st, q, now).anchorHash) else st
  }

  /** The commit chains once these commits have been offered in turn. */
  function DrainStates(h: Hashing, n: nat, states: map<string, CommitState>, queue: seq<QueuedCommit>, now: string,
      up: seq<Uptake>): map<string, CommitState>
    requires |up| == |queue|
  {
    if queue == [] then states else
    var i := |queue| - 1;
    var before := DrainStates(h, n, states, queue[..i], now, up[..i]);
    before[queue[i].tenant := AfterCommit(h, CommitStateOf(before, queue[i].tenant), queue[i], now, AllUp(n, up[i]))]
  }

  /** What one sink takes of them: of each commit it is up for, one entry, in order. */
  function DrainAdded(h: Hashing, n: nat, states: map<string, CommitState>, queue: seq<QueuedCommit>, now: string,
      up: seq<Uptake>, kind: SinkKind, sink: nat): seq<LogEntry>
    requires |up| == |queue|
  {
    if queue == [] then [] else
    var i := |queue| - 1;
    var st := CommitStateOf(DrainStates(h, n, states, queue[..i], now, up[..i]), queue[i].tenant);
    DrainAdded(h, n, states, queue[..i], now, up[..i], kind, sink)
    + if Took(kind, up[i], sink) then [Commit(NextCommit(h, st, queue[i], now))] else []
  }

  lemma DrainSnoc(h: Hashing, n: nat, states: map<string, CommitState>, queue: seq<QueuedCommit>, now: string,
      up: seq<Uptake>, q: QueuedCommit, u: Uptake)
    requires |up| == |queue|
    ensures var before := DrainStates(h, n, states, queue, now, up);
            var st := CommitStateOf(before, q.tenant);
            && DrainStates(h, n, states, queue + [q], now, up + [u]) ==
               before[q.tenant := AfterCommit(h, st, q, now, AllUp(n, u))]
            && forall kind, sink ::
                 DrainAdded(h, n, states, queue + [q], now, up + [u], kind, sink) ==
                 DrainAdded(h, n, states, queue, now, up, kind, sink)
                 + if Took(kind, u, sink) then [Commit(NextCommit(h, st, q, now))] else []
  {
    assert (queue + [q])[..|queue|] == queue && (up + [u])[..|queue|] == up;
  }

  /** How many of these offers the sink took. */
  function TakenCount(up: seq<Uptake>, kind: SinkKind, sink: nat): nat {
    if up == [] then 0
    else TakenCount(up[..|up| - 1], kind, sink) + if Took(kind, up[|up| - 1], sink) then 1 else 0
  }

  /** At this place the log has a commitment of q. */
  predicate HoldsAt(log: seq<LogEntry>, at: nat, q: QueuedCommit) {
    && at < |log| && log[at].Commit?
    && log[at].commit.tenantId == q.tenant && log[at].commit.headHash == q.digest
    && log[at].commit.canonicalJson == q.canonical
  }

  /** A drain hands each sink each queued commit at most once, the commits in the queue's order. */
  lemma {:induction false} DrainAddedReads(h: Hashing, n: nat, states: map<string, CommitState>,
      queue: seq<QueuedCommit>, now: string, up: seq<Uptake>, kind: SinkKind, sink: nat)
    requires |up| == |queue|
    ensures var added := DrainAdded(h, n, states, queue, now, up, kind, sink);
            && |added| == TakenCount(up, kind, sink)
            && forall k | 0 <= k < |queue| && Took(kind, up[k], sink) ::
                 HoldsAt(added, TakenCount(up[..k], kind, sink), queue[k])
    decreases |queue|
  {
    if queue != [] {
      hide Took, CommitHash, HoldsAt, DrainStates;
      var i := |queue| - 1;
      var earlier, added := DrainAdded(h, n, states, queue[..i], now, up[..i], kind, sink),
        DrainAdded(h, n, states, queue, now, up, kind, sink);
      DrainAddedReads(h, n, states, queue[..i], now, up[..i], kind, sink);
      forall k | 0 <= k < |queue| && Took(kind, up[k], sink)
        ensures HoldsAt(added, TakenCount(up[..k], kind, sink), queue[k])
      {
        if k < i {
          assert up[..i][..k] == up[..k] && queue[..i][k] == queue[k] && up[..i][k] == up[k];
          HoldsLater(earlier, added, TakenCount(up[..k], kind, sink), queue[k]);
        } else {
          HoldsLast(h, CommitStateOf(DrainStates(h, n, states, queue[..i], now, up[..i]), queue[i].tenant), queue[i],
                    now, earlier);
        }
      }
    }
  }

  lemma HoldsLater(log: seq<LogEntry>, log': seq<LogEntry>, at: nat, q: QueuedCommit)
    requires log <= log' && HoldsAt(log, at, q)
    ensures HoldsAt(log', at, q)
  {
  }

  lemma HoldsLast(h: Hashing, st: CommitState, q: QueuedCommit, now: string, log: seq<LogEntry>)
    ensures HoldsAt(log + [Commit(NextCommit(h, st, q, now))], |log|, q)
  {
  }

  /** Every sink has taken a sound commitment of this digest for this tenant. */
  ghost predicate CommittedEverywhere(h: Hashing, logs: seq<seq<LogEntry>>, q: QueuedCommit) {
    forall j | 0 <= j < |logs| :: CommittedAt(h, logs[j], q)
  }

  ghost predicate CommittedAt(h: Hashing, log: seq<LogEntry>, q: QueuedCommit) {
    exists e | e in log :: e.Commit? && CommitmentOf(h, e.commit, q)
  }

  /** A sink that took commitments of queued digests and nothing else. */
  ghost predicate OnlyCommitsAdded(h: Hashing, before: seq<LogEntry>, after: seq<LogEntry>, queue: seq<QueuedCommit>) {
    before <= after && forall i | |before| <= i < |after| ::
        after[i].Commit? && CommitmentOfSome(h, after[i].commit, queue)
  }

  predicate CommitmentOfSome(h: Hashing, c: PolicyCommit, queue: seq<QueuedCommit>) {
    exists k | 0 <= k < |queue| :: CommitmentOf(h, c, queue[k])
  }

  predicate CommitmentOf(h: Hashing, c: PolicyCommit, q: QueuedCommit) {
    c.tenantId == q.tenant && c.headHash == q.digest && c.canonicalJson == q.canonical
        && c.anchorHash == CommitHash(h, c)
  }

  /** A tenant's chain is due for anchoring. */
  predicate Due(force: bool, state: map<string, TenantState>, anchorN: int, head: ChainHead) {
    force || head.length - StateOf(state, head.tenant).length >= anchorN
  }

  function AnchorFor(h: Hashing, state: map<string, TenantState>, head: ChainHead, now: string): LogEntry {
    HeadAnchor(NextAnchor(h, head.tenant, StateOf(state, head.tenant), head.length, head.hash, now))
  }

  function AfterDue(h: Hashing, force: bool, state: map<string, TenantState>, anchorN: int, head: ChainHead,
      now: string, landed: bool): TenantState
  {
    var st := StateOf(state, head.tenant);
    if Due(force, state, anchorN, head) then AfterAttempt(h, head.tenant, st, head.length, head.hash, now, landed)
    else st
  }

  /** What one tenant's turn adds to what one sink has taken. */
  function AddedBy(h: Hashing, force: bool, state: map<string, TenantState>, anchorN: int, head: ChainHead,
      now: string, up: Uptake, kind: SinkKind, sink: nat): seq<LogEntry>
  {
    if Due(force, state, anchorN, head) && Took(kind, up, sink) then [AnchorFor(h, state, head, now)] else []
  }

  /** What a round adds to what one sink has taken: the anchors of the due tenants it was up for, in order. */
  function Added(h: Hashing, force: bool, state: map<string, TenantState>, anchorN: int, heads: seq<ChainHead>,
      now: string, up: seq<Uptake>, kind: SinkKind, sink: nat): seq<LogEntry>
    requires |up| == |heads|
  {
    if heads == [] then [] else
    var i := |heads| - 1;
    Added(h, force, state, anchorN, heads[..i], now, up[..i], kind, sink)
    + AddedBy(h, force, state, anchorN, heads[i], now, up[i], kind, sink)
  }

  // ---------------------------------------------------------------------------------------------
  // What an attempt and a turn do, field by field
  // ---------------------------------------------------------------------------------------------

  /** A sink has the entry when it returned normally, or writes files and failed only afterwards; an offer lands when
      every sink returned normally. */
  lemma OfferReads(kinds: seq<SinkKind>, before: seq<seq<LogEntry>>, after: seq<seq<LogEntry>>, e: LogEntry, up: Uptake)
    requires |kinds| == |before| && Offered(kinds, before, after, e, up)
    ensures |after| == |kinds|
    ensures forall j | 0 <= j < |kinds| ::
              after[j] == if j in up.acked || (j in up.left && kinds[j] == KeepsLatest) then before[j] + [e]
                          else before[j]
    ensures AllUp(|kinds|, up) <==> forall j | 0 <= j < |kinds| :: j in up.acked
  {
  }

  lemma NextAnchorReads(h: Hashing, tenant: string, st: TenantState, length: int, head: string, now: string)
    ensures var a := NextAnchor(h, tenant, st, length, head, now);
            && a.tenantId == tenant && a.epoch == st.epoch + 1 && a.chainLength == length && a.headHash == head
            && a.anchoredAt == now && a.prevAnchorHash == st.anchorHash && a.anchorHash == h.OfJson(AnchorJson(a))
            && (st.pendingGap.None? ==> a.gap == Null)
            && (st.pendingGap.Some? ==>
                  var g := st.pendingGap.value;
                  && a.gap.Obj? && a.gap.fields.Keys == {FromEpochKey, AttemptsKey, FirstAttemptKey, LastAttemptKey}
                  && a.gap.fields[FromEpochKey] == Int(g.fromEpoch) && a.gap.fields[AttemptsKey] == Int(g.attempts)
                  && a.gap.fields[FirstAttemptKey] == Str(g.firstAttempt)
                  && a.gap.fields[LastAttemptKey] == Str(g.lastAttempt))
  {
  }

  /** Landed, the state is the anchor's and no gap is pending; refused, only the gap changes, by one attempt more. */
  lemma AfterAttemptReads(h: Hashing, tenant: string, st: TenantState, length: int, head: string, now: string)
    ensures var after := AfterAttempt(h, tenant, st, length, head, now, true);
            && after.epoch == st.epoch + 1 && after.length == length && after.lastAnchor == Some(now)
            && after.anchorHash == NextAnchor(h, tenant, st, length, head, now).anchorHash && after.pendingGap.None?
    ensures var after := AfterAttempt(h, tenant, st, length, head, now, false);
            && after.epoch == st.epoch && after.length == st.length && after.lastAnchor == st.lastAnchor
            && after.anchorHash == st.anchorHash && after.pendingGap.Some?
            && var gap := after.pendingGap.value;
               && gap.lastAttempt == now
               && (st.pendingGap.None? ==>
                     gap.fromEpoch == st.epoch + 1 && gap.attempts == 1 && gap.firstAttempt == now)
               && (st.pendingGap.Some? ==>
                     && gap.fromEpoch == st.pendingGap.value.fromEpoch
                     && gap.attempts == st.pendingGap.value.attempts + 1
                     && gap.firstAttempt == st.pendingGap.value.firstAttempt)
  {
  }

  lemma AfterCommitReads(h: Hashing, st: CommitState, q: QueuedCommit, now: string)
    ensures var after := AfterCommit(h, st, q, now, true);
            after.epoch == st.epoch + 1 && after.anchorHash == NextCommit(h, st, q, now).anchorHash
    ensures AfterCommit(h, st, q, now, false) == st
  {
  }

  /** A tenant never anchored has advanced by its whole chain. */
  lemma NeverAnchored(state: map<string, TenantState>, tenant: string)
    requires tenant !in state
    ensures var st := StateOf(state, tenant);
            st.epoch == 0 && st.length == 0 && st.anchorHash == GENESIS && st.lastAnchor.None? && st.pendingGap.None?
    ensures forall commits: map<string, CommitState> | tenant !in commits ::
              CommitStateOf(commits, tenant).epoch == 0 && CommitStateOf(commits, tenant).anchorHash == GENESIS
  {
  }

  /** One tenant's turn: its head is offered exactly when forced or advanced by at least anchorN, and recorded as
      anchored exactly when that landed everywhere. */
  lemma TurnReads(h: Hashing, force: bool, state: map<string, TenantState>, anchorN: int, head: ChainHead, now: string,
      up: Uptake, kind: SinkKind, sink: nat, sinks: nat)
    ensures var st := StateOf(state, head.tenant);
            var due := force || head.length >= st.length + anchorN;
            var added := AddedBy(h, force, state, anchorN, head, now, up, kind, sink);
            var after := AfterDue(h, force, state, anchorN, head, now, AllUp(sinks, up));
            && (due && (sink in up.acked || (kind == KeepsLatest && sink in up.left)) ==>
                  && |added| == 1 && added[0].HeadAnchor? && added[0].anchor.tenantId == head.tenant
                  && added[0].anchor.chainLength == head.length && added[0].anchor.headHash == head.hash
                  && added[0].anchor.epoch == st.epoch + 1)
            && (!due || (sink !in up.acked && (kind == KeepsAll || sink !in up.left)) ==> added == [])
            && (due && (forall j | 0 <= j < sinks :: j in up.acked) ==>
                  after.length == head.length && after.epoch == st.epoch + 1)
            && (due && (exists j | 0 <= j < sinks :: j !in up.acked) ==>
                  after.length == st.length && after.epoch == st.epoch)
            && (!due ==> after == st)
  {
    hide AnchorHash, GapJson;
  }

  class AnchorManager {
    const h: Hashing
    const anchorN: int
    const kinds: seq<SinkKind>
    var state: map<string, TenantState>
    var policyState: map<string, CommitState>
    var policyQueue: seq<QueuedCommit>
    var logs: seq<seq<LogEntry>>
    /** Everything each sink has taken, whether or not it still holds it. */
    ghost var taken: seq<seq<LogEntry>>

    ghost predicate Valid()
      reads this
    {
      && anchorN >= 1
      && |logs| == |taken| == |kinds|
      && forall j | 0 <= j < |kinds| :: logs[j] == Held(kinds[j], taken[j])
    }

    constructor (h: Hashing, kinds: seq<SinkKind>, anchorN: int)
      ensures Valid() && this.h == h && this.kinds == kinds && this.anchorN == if anchorN < 1 then 1 else anchorN
      ensures state == map[] && policyState == map[] && policyQueue == []
      ensures forall j | 0 <= j < |kinds| :: taken[j] == [] && logs[j] == []
    {
      this.h, this.kinds, this.anchorN := h, kinds, if anchorN < 1 then 1 else anchorN;
      state, policyState, policyQueue := map[], map[], [];
      logs := seq(|kinds|, _ => []);
      taken := seq(|kinds|, _ => []);
    }

    /** The sink loop shared by both kinds of emission. A sink that takes the entry stores it the way its
        kind does. */
    method Offer(e: LogEntry, up: Uptake) returns (landed: bool)
      requires Valid()
      modifies this`logs, this`taken
      ensures Valid() && Offered(kinds, old(taken), taken, e, up)
      ensures landed == AllUp(|kinds|, up)
    {
      hide Held, Store;
      landed := true;
      for j := 0 to |kinds|
        invariant Valid()
        invariant landed <==> forall k | 0 <= k < j :: k in up.acked
        invariant forall k | 0 <= k < |kinds| ::
          taken[k] == if k < j && Took(kinds[k], up, k) then old(taken)[k] + [e] else old(taken)[k]
      {
        if Took(kinds[j], up, j) {
          HeldSnoc(kinds[j], taken[j], e);
          logs := logs[j := Store(kinds[j], logs[j], e)];
          taken := taken[j := taken[j] + [e]];
        }
        if j !in up.acked {
          landed := false;
        }
      }
    }

    /** AnchorManager._emit. */
    method Emit(tenant: string, length: int, head: string, now: string, up: Uptake)
      requires Valid()
      modifies this`state, this`logs, this`taken
      ensures Valid()
      ensures Offered(kinds, old(taken), taken,
                      HeadAnchor(NextAnchor(h, tenant, StateOf(old(state), tenant), length, head, now)), up)
      ensures state == old(state)[tenant := AfterAttempt(h, tenant, StateOf(old(state), tenant), length, head, now,
                                                         AllUp(|kinds|, up))]
    {
      var st := StateOf(state, tenant);
      var anchor := NextAnchor(h, tenant, st, length, head, now);
      var landed := Offer(HeadAnchor(anchor), up);
      if !landed {
        var gap := match st.pendingGap case Some(g) => g case None => Gap(anchor.epoch, 0, anchor.anchoredAt, "");
        gap := gap.(attempts := gap.attempts + 1);
        gap := gap.(lastAttempt := anchor.anchoredAt);
        state := state[tenant := st.(pendingGap := Some(gap))];
        return;
      }
      state := state[tenant := TenantState(anchor.epoch, length, anchor.anchorHash, Some(anchor.anchoredAt), None)];
    }

    /** AnchorManager._emit_policy_commit. */
    method EmitPolicyCommit(q: QueuedCommit, now: string, up: Uptake) returns (landed: bool)
      requires Valid()
      modifies this`policyState, this`logs, this`taken
      ensures Valid()
      ensures landed == AllUp(|kinds|, up)
      ensures Offered(kinds, old(taken), taken,
                      Commit(NextCommit(h, CommitStateOf(old(policyState), q.tenant), q, now)), up)
      ensures landed ==> CommittedEverywhere(h, taken, q)
      ensures policyState ==
              old(policyState)[q.tenant := AfterCommit(h, CommitStateOf(old(policyState), q.tenant), q, now, landed)]
    {
      hide Held, Store, NextCommit, CommitmentOf;
      var st := CommitStateOf(policyState, q.tenant);
      policyState := policyState[q.tenant := st];
      var commit := NextCommit(h, st, q, now);
      NextCommitIs(h, st, q, now);
      landed := Offer(Commit(commit), up);
      if landed {
        forall j | 0 <= j < |kinds| ensures CommittedAt(h, taken[j], q) {
          assert Commit(commit) in taken[j] && CommitmentOf(h, commit, q);
        }
        policyState := policyState[q.tenant := st.(epoch := st.epoch + 1, anchorHash := commit.anchorHash)];
      }
    }

    /** AnchorManager.anchor_policy_commit. */
    method QueuePolicyCommit(q: QueuedCommit)
      requires Valid()
      modifies this`policyQueue
      ensures Valid()
      ensures policyQueue == old(policyQueue) + [q]
    {
      policyQueue := policyQueue + [q];
    }

    /** AnchorManager.drain_policy_commits: every queued commit is offered once, in order. Those some
        sink refused stay queued in order; every sink has taken a commitment of every other one. The
        sinks take nothing else. */
    method DrainPolicyCommits(now: string, up: seq<Uptake>) returns (clean: bool)
      requires Valid() && |up| == |policyQueue|
      modifies this`policyState, this`policyQueue, this`logs, this`taken
      ensures Valid() && policyQueue == Kept(|kinds|, old(policyQueue), up)
      ensures clean <==> policyQueue == []
      ensures forall k | 0 <= k < |up| && AllUp(|kinds|, up[k]) :: CommittedEverywhere(h, taken, old(policyQueue)[k])
      ensures forall j | 0 <= j < |kinds| :: OnlyCommitsAdded(h, old(taken)[j], taken[j], old(policyQueue))
      ensures policyState == DrainStates(h, |kinds|, old(policyState), old(policyQueue), now, up)
      ensures DrainedTo(h, kinds, old(taken), taken, old(policyState), old(policyQueue), now, up)
    {
      hide Kept, CommittedEverywhere, NextCommit, OnlyCommitsAdded, Offered, AllUp, DrainStates, AfterCommit,
        DrainedTo;
      var queue := policyQueue;
      ghost var start, states := taken, policyState;
      NothingDrained(h, kinds, start, states, now);
      var failed: seq<QueuedCommit> := [];
      var i := 0;
      while policyQueue != []
        invariant Valid() && 0 <= i <= |queue| && policyQueue == queue[i..]
        invariant failed == Kept(|kinds|, queue[..i], up[..i])
        invariant policyState == DrainStates(h, |kinds|, states, queue[..i], now, up[..i])
        invariant DrainedTo(h, kinds, start, taken, states, queue[..i], now, up[..i])
        decreases |queue| - i
      {
        var q := policyQueue[0];
        policyQueue := policyQueue[1..];
        ghost var before := taken;
        var landed := EmitPolicyCommit(q, now, up[i]);
        if !landed { failed := failed + [q]; }
        assert queue[..i + 1] == queue[..i] + [q] && up[..i + 1] == up[..i] + [up[i]];
        KeptExtends(|kinds|, queue[..i], up[..i], q, up[i]);
        OfferedOneMore(h, kinds, start, before, taken, states, queue[..i], now, up[..i], q, up[i]);
        i := i + 1;
      }
      assert queue[..i] == queue && up[..i] == up;
      DrainedCommits(h, kinds, start, taken, states, queue, now, up);
      policyQueue := failed + policyQueue;
      clean := failed == [];
    }

    /** One tenant's turn in anchor_due. */
    method AnchorIfDue(force: bool, head: ChainHead, now: string, up: Uptake)
      requires Valid()
      modifies this`state, this`logs, this`taken
      ensures Valid()
      ensures state == old(state)[head.tenant := AfterDue(h, force, old(state), anchorN, head, now, AllUp(|kinds|, up))]
      ensures forall j | 0 <= j < |kinds| ::
                taken[j] == old(taken)[j] + AddedBy(h, force, old(state), anchorN, head, now, up, kinds[j], j)
    {
      var st := StateOf(state, head.tenant);
      state := state[head.tenant := st];
      if force || head.length - st.length >= anchorN {
        Emit(head.tenant, head.length, head.hash, now, up);
      }
    }

    /** AnchorManager.anchor_due over the chains' heads, in the order the source meets them: queued
        commits are drained first; then a tenant is anchored when forced or when its chain has advanced
        by at least anchorN since its last landed anchor, and other tenants' states are untouched. */
    method AnchorDue(force: bool, heads: seq<ChainHead>, now: string, commitUp: seq<Uptake>, up: seq<Uptake>)
      returns (ghost drained: seq<seq<LogEntry>>)
      requires Valid() && |commitUp| == |policyQueue| && |up| == |heads|
      requires forall i, k | 0 <= i < k < |heads| :: heads[i].tenant != heads[k].tenant
      modifies this
      ensures Valid() && policyQueue == Kept(|kinds|, old(policyQueue), commitUp) && |drained| == |kinds|
      ensures forall j | 0 <= j < |kinds| :: OnlyCommitsAdded(h, old(taken)[j], drained[j], old(policyQueue))
      ensures DrainedTo(h, kinds, old(taken), drained, old(policyState), old(policyQueue), now, commitUp)
      ensures policyState == DrainStates(h, |kinds|, old(policyState), old(policyQueue), now, commitUp)
      ensures TakenAfter(h, kinds, force, old(state), anchorN, heads, now, up, drained, taken)
      ensures StatesAfter(h, force, old(state), anchorN, heads, now, up, |kinds|, state)
      ensures forall k | 0 <= k < |heads| && AllUp(|kinds|, up[k]) ::
                heads[k].length - StateOf(state, heads[k].tenant).length < anchorN
    {
      hide DrainedTo, DrainStates, OnlyCommitsAdded, Kept, Held, AfterDue;
      var _ := DrainPolicyCommits(now, commitUp);
      drained := taken;
      ghost var queue, states := policyQueue, policyState;
      for i := 0 to |heads|
        invariant Valid() && policyQueue == queue && policyState == states && |kinds| == |drained|
        invariant TakenAfter(h, kinds, force, old(state), anchorN, heads[..i], now, up[..i], drained, taken)
        invariant StatesAfter(h, force, old(state), anchorN, heads[..i], now, up[..i], |kinds|, state)
      {
        ghost var state0, taken0 := state, taken;
        assert StateOf(state, heads[i].tenant) == StateOf(old(state), heads[i].tenant);
        AnchorIfDue(force, heads[i], now, up[i]);
        OneMoreState(h, force, old(state), anchorN, heads, now, up, |kinds|, state0, state, i);
        OneMoreTaken(h, kinds, force, old(state), anchorN, heads, now, up, drained, taken0, taken, i);
      }
      assert heads[..|heads|] == heads && up[..|heads|] == up;
      RoundCatchesUp(h, force, old(state), anchorN, heads, now, up, |kinds|, state);
    }
  }

  /** The states after a round: each tenant met is as its own turn left it, every other as it was. */
  ghost predicate StatesAfter(h: Hashing, force: bool, before: map<string, TenantState>, anchorN: int,
      heads: seq<ChainHead>, now: string, up: seq<Uptake>, sinks: nat, after: map<string, TenantState>)
    requires |up| == |heads|
  {
    && (forall k | 0 <= k < |heads| ::
          StateOf(after, heads[k].tenant) == AfterDue(h, force, before, anchorN, heads[k], now, AllUp(sinks, up[k])))
    && (forall t | !Met(heads, t) :: StateOf(after, t) == StateOf(before, t))
  }

  predicate Met(heads: seq<ChainHead>, t: string) {
    exists k | 0 <= k < |heads| :: heads[k].tenant == t
  }

  ghost predicate TakenAfter(h: Hashing, kinds: seq<SinkKind>, force: bool, before: map<string, TenantState>,
      anchorN: int,
      heads: seq<ChainHead>, now: string, up: seq<Uptake>, drained: seq<seq<LogEntry>>, taken: seq<seq<LogEntry>>)
    requires |up| == |heads|
  {
    |taken| == |drained| == |kinds| && forall j | 0 <= j < |taken| ::
      taken[j] == drained[j] + Added(h, force, before, anchorN, heads, now, up, kinds[j], j)
  }

  /** After a round no tenant whose sinks were all up lags by anchorN or more. */
  lemma RoundCatchesUp(h: Hashing, force: bool, before: map<string, TenantState>, anchorN: int, heads: seq<ChainHead>,
      now: string, up: seq<Uptake>, sinks: nat, after: map<string, TenantState>)
    requires anchorN >= 1 && |up| == |heads|
    requires StatesAfter(h, force, before, anchorN, heads, now, up, sinks, after)
    ensures forall k | 0 <= k < |heads| && AllUp(sinks, up[k]) ::
              heads[k].length - StateOf(after, heads[k].tenant).length < anchorN
  {
    hide AfterDue, Due, Met;
    forall k | 0 <= k < |heads| && AllUp(sinks, up[k])
      ensures heads[k].length - StateOf(after, heads[k].tenant).length < anchorN
    {
      TurnReads(h, force, before, anchorN, heads[k], now, up[k], KeepsAll, 0, sinks);
    }
  }

  /** Of one tenant a round adds exactly what that tenant's turn adds. */
  lemma {:induction false} AddedOfTenant(h: Hashing, force: bool, state: map<string, TenantState>, anchorN: int,
      heads: seq<ChainHead>, now: string, up: seq<Uptake>, kind: SinkKind, sink: nat, k: nat)
    requires |up| == |heads| && k < |heads|
    requires forall a, b | 0 <= a < b < |heads| :: heads[a].tenant != heads[b].tenant
    ensures OfTenant(heads[k].tenant, Added(h, force, state, anchorN, heads, now, up, kind, sink)) ==
            AddedBy(h, force, state, anchorN, heads[k], now, up[k], kind, sink)
    decreases |heads|
  {
    hide AddedBy, OfTenant;
    var n, tenant := |heads| - 1, heads[k].tenant;
    var before := Added(h, force, state, anchorN, heads[..n], now, up[..n], kind, sink);
    OfTenantTurn(h, force, state, anchorN, heads[n], now, up[n], kind, sink, tenant, before);
    if k < n {
      AddedOfTenant(h, force, state, anchorN, heads[..n], now, up[..n], kind, sink, k);
    } else {
      NothingOfTenant(h, force, state, anchorN, heads[..n], now, up[..n], kind, sink, tenant);
    }
  }

  lemma OfTenantTurn(h: Hashing, force: bool, state: map<string, TenantState>, anchorN: int, head: ChainHead,
      now: string, up: Uptake, kind: SinkKind, sink: nat, tenant: string, before: seq<LogEntry>)
    ensures var turn := AddedBy(h, force, state, anchorN, head, now, up, kind, sink);
            OfTenant(tenant, before + turn) == OfTenant(tenant, before) + if head.tenant == tenant then turn else []
  {
    hide OfTenant, AnchorHash, GapJson;
    var turn := AddedBy(h, force, state, anchorN, head, now, up, kind, sink);
    if turn == [] {
      assert before + turn == before && OfTenant(tenant, before) + [] == OfTenant(tenant, before);
    } else {
      OfTenantSnoc(tenant, before, turn[0]);
      assert turn == [turn[0]];
    }
  }

  lemma {:induction false} NothingOfTenant(h: Hashing, force: bool, state: map<string, TenantState>, anchorN: int,
      heads: seq<ChainHead>, now: string, up: seq<Uptake>, kind: SinkKind, sink: nat, tenant: string)
    requires |up| == |heads| && forall i | 0 <= i < |heads| :: heads[i].tenant != tenant
    ensures OfTenant(tenant, Added(h, force, state, anchorN, heads, now, up, kind, sink)) == []
    decreases |heads|
  {
    if heads != [] {
      hide AddedBy, OfTenant;
      var n := |heads| - 1;
      NothingOfTenant(h, force, state, anchorN, heads[..n], now, up[..n], kind, sink, tenant);
      OfTenantTurn(h, force, state, anchorN, heads[n], now, up[n], kind, sink, tenant,
                   Added(h, force, state, anchorN, heads[..n], now, up[..n], kind, sink));
    }
  }

  /** After a round no tenant whose sinks were all up lags by anchorN or more. A head that was forced or had advanced by
      at least anchorN added exactly one anchor of its length and hash to every sink that took it; any other
      added nothing and left its tenant's state alone. */
  lemma {:induction false} RoundReads(h: Hashing, kinds: seq<SinkKind>, force: bool, before: map<string, TenantState>,
      anchorN: int, heads: seq<ChainHead>, now: string, up: seq<Uptake>, drained: seq<seq<LogEntry>>,
      taken: seq<seq<LogEntry>>, after: map<string, TenantState>, k: nat, j: nat)
    requires anchorN >= 1 && |up| == |heads| && k < |heads| && j < |kinds|
    requires forall a, b | 0 <= a < b < |heads| :: heads[a].tenant != heads[b].tenant
    requires TakenAfter(h, kinds, force, before, anchorN, heads, now, up, drained, taken)
    requires StatesAfter(h, force, before, anchorN, heads, now, up, |kinds|, after)
    ensures var head, was, now_ := heads[k], StateOf(before, heads[k].tenant), StateOf(after, heads[k].tenant);
            var due := force || head.length >= was.length + anchorN;
            && |taken| == |drained| == |kinds| && drained[j] <= taken[j]
            && var own := OfTenant(head.tenant, taken[j][|drained[j]|..]);
               && ((forall i | 0 <= i < |kinds| :: i in up[k].acked) ==> head.length - now_.length < anchorN)
               && (due && j in up[k].acked ==>
                     && |own| == 1 && own[0].HeadAnchor? && own[0].anchor.tenantId == head.tenant
                     && own[0].anchor.chainLength == head.length && own[0].anchor.headHash == head.hash)
               && (!due ==> own == [] && now_ == was)
  {
    hide Added, AddedBy, AfterDue, OfTenant, Due;
    TurnReads(h, force, before, anchorN, heads[k], now, up[k], kinds[j], j, |kinds|);
    AddedOfTenant(h, force, before, anchorN, heads, now, up, kinds[j], j, k);
    var added := Added(h, force, before, anchorN, heads, now, up, kinds[j], j);
    assert taken[j] == drained[j] + added && taken[j][|drained[j]|..] == added;
  }

  lemma OneMoreState(h: Hashing, force: bool, before: map<string, TenantState>, anchorN: int, heads: seq<ChainHead>,
      now: string, up: seq<Uptake>, sinks: nat, mid: map<string, TenantState>, after: map<string, TenantState>, i: nat)
    requires |up| == |heads| && i < |heads|
    requires forall i, k | 0 <= i < k < |heads| :: heads[i].tenant != heads[k].tenant
    requires StatesAfter(h, force, before, anchorN, heads[..i], now, up[..i], sinks, mid)
    requires StateOf(mid, heads[i].tenant) == StateOf(before, heads[i].tenant)
    requires after == mid[heads[i].tenant := AfterDue(h, force, mid, anchorN, heads[i], now, AllUp(sinks, up[i]))]
    ensures StatesAfter(h, force, before, anchorN, heads[..i + 1], now, up[..i + 1], sinks, after)
  {
    forall t | !Met(heads[..i + 1], t) ensures StateOf(after, t) == StateOf(before, t) {
      assert heads[..i + 1][i] == heads[i];
      forall k | 0 <= k < i ensures heads[..i][k].tenant != t {
        assert heads[..i + 1][k] == heads[k];
      }
      assert !Met(heads[..i], t);
    }
    forall k | 0 <= k < i + 1 ensures
        StateOf(after, heads[k].tenant) == AfterDue(h, force, before, anchorN, heads[k], now, AllUp(sinks, up[k]))
    {
      if k < i {
        assert heads[..i][k] == heads[k] && up[..i][k] == up[k];
      }
    }
  }

  lemma OneMoreTaken(h: Hashing, kinds: seq<SinkKind>, force: bool, before: map<string, TenantState>, anchorN: int,
      heads: seq<ChainHead>,
      now: string, up: seq<Uptake>, drained: seq<seq<LogEntry>>, mid: seq<seq<LogEntry>>,
      after: seq<seq<LogEntry>>, i: nat)
    requires |up| == |heads| && i < |heads|
    requires TakenAfter(h, kinds, force, before, anchorN, heads[..i], now, up[..i], drained, mid) && |after| == |mid|
    requires forall j | 0 <= j < |after| ::
               after[j] == mid[j] + AddedBy(h, force, before, anchorN, heads[i], now, up[i], kinds[j], j)
    ensures TakenAfter(h, kinds, force, before, anchorN, heads[..i + 1], now, up[..i + 1], drained, after)
  {
    assert heads[..i + 1][..i] == heads[..i] && up[..i + 1][..i] == up[..i];
  }

  lemma NextCommitIs(h: Hashing, st: CommitState, q: QueuedCommit, now: string)
    ensures var c := NextCommit(h, st, q, now);
            && CommitmentOf(h, c, q) && c.epoch == st.epoch + 1 && c.prevAnchorHash == st.anchorHash
            && c.tenantId == q.tenant && c.headHash == q.digest && c.canonicalJson == q.canonical
            && c.anchoredAt == now && c.anchorHash == h.OfJson(CommitJson(c))
  {
  }

  /** Each sink has taken what the drain adds for it. */
  ghost predicate DrainedTo(h: Hashing, kinds: seq<SinkKind>, before: seq<seq<LogEntry>>, after: seq<seq<LogEntry>>,
      states: map<string, CommitState>, queue: seq<QueuedCommit>, now: string, up: seq<Uptake>)
    requires |up| == |queue|
  {
    && |after| == |before| == |kinds|
    && forall j | 0 <= j < |kinds| ::
         after[j] == before[j] + DrainAdded(h, |kinds|, states, queue, now, up, kinds[j], j)
  }

  lemma NothingDrained(h: Hashing, kinds: seq<SinkKind>, taken: seq<seq<LogEntry>>, states: map<string, CommitState>,
      now: string)
    requires |taken| == |kinds|
    ensures Kept(|kinds|, [], []) == [] && DrainStates(h, |kinds|, states, [], now, []) == states
    ensures DrainedTo(h, kinds, taken, taken, states, [], now, [])
  {
  }

  lemma OfferedOneMore(h: Hashing, kinds: seq<SinkKind>, start: seq<seq<LogEntry>>, before: seq<seq<LogEntry>>,
      after: seq<seq<LogEntry>>, states: map<string, CommitState>, queue: seq<QueuedCommit>, now: string,
      up: seq<Uptake>, q: QueuedCommit, u: Uptake)
    requires |up| == |queue| && DrainedTo(h, kinds, start, before, states, queue, now, up)
    requires var st := CommitStateOf(DrainStates(h, |kinds|, states, queue, now, up), q.tenant);
             Offered(kinds, before, after, Commit(NextCommit(h, st, q, now)), u)
    ensures DrainedTo(h, kinds, start, after, states, queue + [q], now, up + [u])
    ensures var before := DrainStates(h, |kinds|, states, queue, now, up);
            DrainStates(h, |kinds|, states, queue + [q], now, up + [u]) ==
            before[q.tenant := AfterCommit(h, CommitStateOf(before, q.tenant), q, now, AllUp(|kinds|, u))]
  {
    hide NextCommit, DrainStates, DrainAdded, Took;
    DrainSnoc(h, |kinds|, states, queue, now, up, q, u);
  }

  /** Commitments of what is queued here, and nothing else. */
  predicate CommitsOf(h: Hashing, log: seq<LogEntry>, queue: seq<QueuedCommit>) {
    forall i | 0 <= i < |log| :: log[i].Commit? && CommitmentOfSome(h, log[i].commit, queue)
  }

  /** What a drain adds is commitments of what was queued, and one of every commit the sink was up for. */
  lemma {:induction false} AddedAreCommits(h: Hashing, n: nat, states: map<string, CommitState>,
      queue: seq<QueuedCommit>, now: string, up: seq<Uptake>, kind: SinkKind, sink: nat)
    requires |up| == |queue|
    ensures var added := DrainAdded(h, n, states, queue, now, up, kind, sink);
            && CommitsOf(h, added, queue)
            && forall k | 0 <= k < |queue| && sink in up[k].acked :: CommittedAt(h, added, queue[k])
    decreases |queue|
  {
    if queue != [] {
      hide CommitmentOf, CommitsOf, CommittedAt, NextCommit;
      var i := |queue| - 1;
      var q, st := queue[i], CommitStateOf(DrainStates(h, n, states, queue[..i], now, up[..i]), queue[i].tenant);
      AddedAreCommits(h, n, states, queue[..i], now, up[..i], kind, sink);
      NextCommitIs(h, st, q, now);
      assert queue == queue[..i] + [q];
      var earlier := DrainAdded(h, n, states, queue[..i], now, up[..i], kind, sink);
      OneCommitMore(h, earlier, if Took(kind, up[i], sink) then [Commit(NextCommit(h, st, q, now))] else [],
                    queue[..i], q);
      forall k | 0 <= k < i && sink in up[k].acked
        ensures CommittedAt(h, earlier, queue[k])
      {
        assert queue[..i][k] == queue[k] && up[..i][k] == up[k];
      }
    }
  }

  /** One more queued commit, and at most a commitment of it more in the log. */
  lemma OneCommitMore(h: Hashing, log: seq<LogEntry>, more: seq<LogEntry>, queue: seq<QueuedCommit>, q: QueuedCommit)
    requires CommitsOf(h, log, queue)
    requires more == [] || (|more| == 1 && more[0].Commit? && CommitmentOf(h, more[0].commit, q))
    ensures var all := log + more;
            && CommitsOf(h, all, queue + [q])
            && (forall p | CommittedAt(h, log, p) :: CommittedAt(h, all, p))
            && (more != [] ==> CommittedAt(h, all, q))
  {
    hide CommitmentOf;
    var all, queued := log + more, queue + [q];
    forall i | 0 <= i < |all| ensures all[i].Commit? && CommitmentOfSome(h, all[i].commit, queued) {
      if i < |log| {
        var k :| 0 <= k < |queue| && CommitmentOf(h, log[i].commit, queue[k]);
        assert CommitmentOf(h, all[i].commit, queued[k]);
      } else {
        assert CommitmentOf(h, all[i].commit, queued[|queue|]);
      }
    }
    forall p | CommittedAt(h, log, p) ensures CommittedAt(h, all, p) {
      var e :| e in log && e.Commit? && CommitmentOf(h, e.commit, p);
      assert e in all;
    }
    if more != [] { assert more[0] in all; }
  }

  lemma DrainedCommits(h: Hashing, kinds: seq<SinkKind>, before: seq<seq<LogEntry>>, after: seq<seq<LogEntry>>,
      states: map<string, CommitState>, queue: seq<QueuedCommit>, now: string, up: seq<Uptake>)
    requires |up| == |queue| && DrainedTo(h, kinds, before, after, states, queue, now, up)
    ensures forall k | 0 <= k < |up| && AllUp(|kinds|, up[k]) :: CommittedEverywhere(h, after, queue[k])
    ensures forall j | 0 <= j < |kinds| :: OnlyCommitsAdded(h, before[j], after[j], queue)
  {
    hide DrainAdded, CommitmentOf, CommitmentOfSome;
    forall j | 0 <= j < |kinds|
      ensures OnlyCommitsAdded(h, before[j], after[j], queue)
      ensures forall k | 0 <= k < |up| && AllUp(|kinds|, up[k]) :: CommittedAt(h, after[j], queue[k])
    {
      AddedAreCommits(h, |kinds|, states, queue, now, up, kinds[j], j);
      var added := DrainAdded(h, |kinds|, states, queue, now, up, kinds[j], j);
      assert after[j] == before[j] + added;
      forall i | |before[j]| <= i < |after[j]| ensures after[j][i] == added[i - |before[j]|] {}
      forall k | 0 <= k < |up| && AllUp(|kinds|, up[k]) ensures CommittedAt(h, after[j], queue[k]) {
        assert CommittedAt(h, added, queue[k]);
        var e :| e in added && e.Commit? && CommitmentOf(h, e.commit, queue[k]);
        assert e in after[j];
      }
    }
  }

}
