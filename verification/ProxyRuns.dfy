/** The mediated-call protocol under every interleaving: proxy calls, gate workers that may record after
    the proxy gave up, timeouts, exceptions, cancelled callers, breaker denials and corrective records,
    all over one tenant's chain (custos/mcp_proxy.py, custos/mcp_gate_adapter.py, custos/action_gate.py). */
module ProxyRuns {
  import opened Base
  import opened AuditRecords
  import opened AuditChain
  import opened PolicyEngine
  import opened Proxy
  import Gate

  // ---------------------------------------------------------------------------------------------
  // State and steps
  // ---------------------------------------------------------------------------------------------

  /** What the proxy is doing about a call. CircuitOpen and Expired still owe the corrective record. */
  datatype Phase = CircuitOpen | Waiting | Expired | Done(outcome: Outcome) | Cancelled

  /** What the gate's thread is doing about it, independently. */
  datatype Worker = NotAsked | Running | Finished(verdict: Verdict) | Failed(kind: string)

  datatype Call = Call(phase: Phase, worker: Worker)

  datatype System = System(breaker: Breaker, calls: map<string, Call>, chain: seq<AuditRecord>, clock: real)

  /** What goes into a record beside the decision, the rule and the trace; `note` is the proxy's account of
      a refusal. */
  datatype Context = Context(clientId: string, blob: string, note: string, policyDigest: Option<string>,
      commitment: string)

  datatype Deployment = Deployment(h: Hashing, tenant: string, settings: Settings)

  datatype Event =
    | Start(trace: string, now: real)
    | Decide(trace: string, now: real, decision: PolicyResult, ctx: Context, recorded: bool)
    | Fail(trace: string, kind: string)
    | Receive(trace: string, now: real)
    | Propagate(trace: string)
    | TimeOut(trace: string, now: real)
    | Reconcile(trace: string, now: real, ctx: Context, written: bool)
    | Cancel(trace: string)
    | AppendOther(now: real, d: Draft)

  /** The draft of a gate decision's record. */
  function GateDraft(d: Deployment, trace: string, decision: PolicyResult, ctx: Context): Draft {
    Draft(ctx.clientId, decision.action.Text(), decision.reason, ctx.blob, decision.triggeredRule, Some(trace),
          ctx.policyDigest, Some(d.tenant), ctx.commitment)
  }

  /** The draft AuditChain.append_reconciliation makes of a proxy's refusal. */
  function MarkerDraft(d: Deployment, trace: string, rule: string, ctx: Context): Draft {
    Draft(ctx.clientId, "DENY", ctx.note, ctx.blob, Some(rule), Some(trace), ctx.policyDigest, Some(d.tenant),
          COMMITMENT_NONE)
  }

  function Sealed(d: Deployment, chain: seq<AuditRecord>, now: real, draft: Draft): AuditRecord {
    Entry(d.h, Some(d.tenant), Head(chain), now, draft)
  }

  /** The adapter's translation of the gate's answer: only ALLOW itself is an allow. */
  function AdapterVerdict(decision: PolicyResult, recordHash: Option<string>): Verdict {
    Verdict(if decision.action == ALLOW then LiteralTrue else LiteralFalse, recordHash, decision.triggeredRule,
        decision.reason)
  }

  /** What ActionGate.EvaluateAction's answer becomes, given the policy's decision, the hash of its record if
      one could be written, and the citation. */
  function GateVerdict(decision: PolicyResult, recordHash: Option<string>, cited: Option<string>): Verdict {
    AdapterVerdict(if recordHash.None? && decision.allowed then Gate.Unrecordable(cited) else decision, recordHash)
  }

  /** No call carries this trace yet, and no record does: minted identifiers are new. */
  predicate Fresh(s: System, trace: string) {
    trace != "" && trace !in s.calls && Count(s.chain, trace, true) == 0 && Count(s.chain, trace, false) == 0
  }

  predicate At(s: System, trace: string, phase: Phase) {
    trace in s.calls && s.calls[trace].phase == phase
  }

  predicate Owing(s: System, trace: string) {
    trace in s.calls && (s.calls[trace].phase == CircuitOpen || s.calls[trace].phase == Expired)
  }

  /** Whether an event can happen at all in a state. */
  predicate Enabled(s: System, e: Event) {
    match e
    case Start(trace, now) => Fresh(s, trace) && s.clock <= now
    case Decide(trace, now, decision, _, _) =>
      trace in s.calls && s.calls[trace].worker == Running && Coherent(decision)
    case Fail(trace, _) => trace in s.calls && s.calls[trace].worker == Running
    case Receive(trace, now) => At(s, trace, Waiting) && s.calls[trace].worker.Finished? && s.clock <= now
    case Propagate(trace) => At(s, trace, Waiting) && s.calls[trace].worker.Failed?
    case TimeOut(trace, now) => At(s, trace, Waiting) && s.clock <= now
    case Reconcile(trace, _, _, _) => Owing(s, trace)
    case Cancel(trace) => At(s, trace, Waiting) || Owing(s, trace)
    case AppendOther(_, draft) => draft.traceId.Some? ==> draft.traceId.value !in s.calls
  }

  function WithPhase(s: System, trace: string, phase: Phase): System
    requires trace in s.calls
  {
    s.(calls := s.calls[trace := s.calls[trace].(phase := phase)])
  }

  function WithWorker(s: System, trace: string, worker: Worker): System
    requires trace in s.calls
  {
    s.(calls := s.calls[trace := s.calls[trace].(worker := worker)])
  }

  function Answer(d: Deployment, s: System, timedOut: bool, now: real): System {
    s.(breaker := AfterAnswer(d.settings, s.breaker, timedOut, now), clock := now)
  }

  function Conclude(v: Verdict, trace: string): Outcome {
    var refusal := Refusal(v, trace);
    if refusal.Some? then refusal.value else Forwarded(v, trace)
  }

  function OwedRule(phase: Phase): string {
    if phase == CircuitOpen then REASON_CIRCUIT_OPEN else REASON_TIMEOUT
  }

  function Step(d: Deployment, s: System, e: Event): System {
    if !Enabled(s, e) then s else
    match e
    case Start(trace, now) =>
      System(AfterAsking(d.settings, s.breaker, now),
             s.calls[trace := if Denies(s.breaker, now) then Call(CircuitOpen, NotAsked) else Call(Waiting, Running)],
             s.chain, now)
    case Decide(trace, now, decision, ctx, recorded) =>
      var r := Sealed(d, s.chain, now, GateDraft(d, trace, decision, ctx));
      var recordHash := if recorded then Some(r.recordHash) else None;
      var s' := WithWorker(s, trace, Finished(GateVerdict(decision, recordHash, ctx.policyDigest)));
      if recorded then s'.(chain := s.chain + [r]) else s'
    case Fail(trace, kind) => WithWorker(s, trace, Failed(kind))
    case Receive(trace, now) =>
      WithPhase(Answer(d, s, false, now), trace, Done(Conclude(s.calls[trace].worker.verdict, trace)))
    case Propagate(trace) =>
      WithPhase(s, trace, Done(Outcome(false, trace, None, Some(REASON_ERROR),
                                       REASON_ERROR + ": " + s.calls[trace].worker.kind, false)))
    case TimeOut(trace, now) => WithPhase(Answer(d, s, true, now), trace, Expired)
    case Reconcile(trace, now, ctx, written) =>
      var rule := OwedRule(s.calls[trace].phase);
      var s' := WithPhase(s, trace, Done(Outcome(false, trace, None, Some(rule), rule, true)));
      if written then s'.(chain := s.chain + [Sealed(d, s.chain, now, MarkerDraft(d, trace, rule, ctx))]) else s'
    case Cancel(trace) => WithPhase(s, trace, Cancelled)
    case AppendOther(now, draft) => s.(chain := s.chain + [Sealed(d, s.chain, now, draft)])
  }

  function Run(d: Deployment, s: System, es: seq<Event>): System {
    if es == [] then s else Step(d, Run(d, s, es[..|es| - 1]), es[|es| - 1])
  }

  // ---------------------------------------------------------------------------------------------
  // Reading the chain
  // ---------------------------------------------------------------------------------------------

  /** A corrective deny: the gate itself writes its actions in lower case. */
  predicate IsMarker(r: AuditRecord) {
    r.action == "DENY"
  }

  /** How many records of a trace are (or are not) corrective denies. */
  function Count(chain: seq<AuditRecord>, trace: string, marker: bool): nat {
    if chain == [] then 0 else
    var r := chain[|chain| - 1];
    Count(chain[..|chain| - 1], trace, marker) + if r.traceId == Some(trace) && IsMarker(r) == marker then 1 else 0
  }

  lemma CountSnoc(chain: seq<AuditRecord>, r: AuditRecord, trace: string, marker: bool)
    ensures Count(chain + [r], trace, marker) ==
            Count(chain, trace, marker) + if r.traceId == Some(trace) && IsMarker(r) == marker then 1 else 0
  {
    assert (chain + [r])[..|chain|] == chain;
  }

  /** The gate recorded this verdict for this trace. */
  ghost predicate Witnessed(h: Hashing, chain: seq<AuditRecord>, trace: string, v: Verdict) {
    v.Verdict? && v.recordHash.Some? && exists i | 0 <= i < |chain| :: WitnessedAt(h, chain[i], trace, v)
  }

  predicate WitnessedAt(h: Hashing, r: AuditRecord, trace: string, v: Verdict)
    requires v.Verdict? && v.recordHash.Some?
  {
    && r.traceId == Some(trace) && !IsMarker(r)
    && r.recordHash == v.recordHash.value
    && RecordHash(h, r, r.previousHash) == Some(r.recordHash)
    && (r.action == "allow" <==> v.allowed.LiteralTrue?)
  }

  lemma WitnessedLater(h: Hashing, chain: seq<AuditRecord>, r: AuditRecord, trace: string, v: Verdict)
    requires Witnessed(h, chain, trace, v)
    ensures Witnessed(h, chain + [r], trace, v)
  {
    var i :| 0 <= i < |chain| && WitnessedAt(h, chain[i], trace, v);
    assert (chain + [r])[i] == chain[i];
  }

  // ---------------------------------------------------------------------------------------------
  // What every reachable state keeps
  // ---------------------------------------------------------------------------------------------

  predicate Refused(p: Phase) {
    p.Done? && !p.outcome.forwarded && p.outcome.rule in {Some(REASON_TIMEOUT), Some(REASON_CIRCUIT_OPEN)}
  }

  /** One call, the records of its trace, and what its caller was told. */
  ghost predicate CallOk(h: Hashing, chain: seq<AuditRecord>, trace: string, c: Call) {
    && Count(chain, trace, false) ==
       (if c.worker.Finished? && c.worker.verdict.Verdict? && c.worker.verdict.recordHash.Some? then 1 else 0)
    && Count(chain, trace, true) <= (if Refused(c.phase) then 1 else 0)
    && (c.worker.Finished? ==> c.worker.verdict.Verdict?)
    && (c.worker.Finished? && c.worker.verdict.recordHash.Some? ==> Witnessed(h, chain, trace, c.worker.verdict))
    && (c.worker.Finished? && c.worker.verdict.allowed.LiteralTrue? ==> c.worker.verdict.recordHash.Some?)
    && (c.worker.NotAsked? ==> c.phase == CircuitOpen || Refused(c.phase) || c.phase == Cancelled)
    && (c.phase.Done? && c.phase.outcome.forwarded ==>
          && c.worker.Finished? && c.worker.verdict.allowed.LiteralTrue?
          && c.phase.outcome == Forwarded(c.worker.verdict, trace))
  }

  ghost predicate Inv(d: Deployment, s: System) {
    && ChainOk(d.h, s.chain)
    && Sound(d.settings, s.breaker)
    && forall t | t in s.calls :: CallOk(d.h, s.chain, t, s.calls[t])
  }

  lemma GateRecord(d: Deployment, chain: seq<AuditRecord>, now: real, trace: string, decision: PolicyResult,
      ctx: Context)
    ensures var r := Sealed(d, chain, now, GateDraft(d, trace, decision, ctx));
            && r.traceId == Some(trace) && !IsMarker(r)
            && (r.action == "allow" <==> decision.action == ALLOW)
            && r.previousHash == Head(chain) && RecordHash(d.h, r, Head(chain)) == Some(r.recordHash)
  {
    assert "deny"[0] != "DENY"[0] && "allow"[0] != "DENY"[0] && "audit"[0] != "DENY"[0];
    assert "deny"[0] != "allow"[0] && "audit"[1] != "allow"[1];
  }

  lemma MarkerRecord(d: Deployment, chain: seq<AuditRecord>, now: real, trace: string, rule: string, ctx: Context)
    ensures var r := Sealed(d, chain, now, MarkerDraft(d, trace, rule, ctx));
            r.traceId == Some(trace) && IsMarker(r)
  {
  }

  /** A call whose trace is not the appended record's is unaffected by it. */
  lemma OthersKeepOk(h: Hashing, chain: seq<AuditRecord>, r: AuditRecord, trace: string, c: Call)
    requires CallOk(h, chain, trace, c) && r.traceId != Some(trace)
    ensures CallOk(h, chain + [r], trace, c)
  {
    CountSnoc(chain, r, trace, true);
    CountSnoc(chain, r, trace, false);
    if c.worker.Finished? && c.worker.verdict.recordHash.Some? {
      WitnessedLater(h, chain, r, trace, c.worker.verdict);
    }
  }

  lemma UnrecordableDenies(cited: Option<string>)
    ensures Gate.Unrecordable(cited).action == DENY
  {
  }

  lemma DecideKeeps(d: Deployment, chain: seq<AuditRecord>, trace: string, c: Call, now: real,
      decision: PolicyResult, ctx: Context)
    requires CallOk(d.h, chain, trace, c) && c.worker == Running && Coherent(decision)
    ensures var r := Sealed(d, chain, now, GateDraft(d, trace, decision, ctx));
            && CallOk(d.h, chain + [r], trace,
                      c.(worker := Finished(GateVerdict(decision, Some(r.recordHash), ctx.policyDigest))))
            && CallOk(d.h, chain, trace, c.(worker := Finished(GateVerdict(decision, None, ctx.policyDigest))))
  {
    hide RecordHash, Entry, Gate.Unrecordable;
    UnrecordableDenies(ctx.policyDigest);
    var r := Sealed(d, chain, now, GateDraft(d, trace, decision, ctx));
    var v := GateVerdict(decision, Some(r.recordHash), ctx.policyDigest);
    GateRecord(d, chain, now, trace, decision, ctx);
    CountSnoc(chain, r, trace, true);
    CountSnoc(chain, r, trace, false);
    assert (chain + [r])[|chain|] == r;
    assert WitnessedAt(d.h, (chain + [r])[|chain|], trace, v);
  }

  lemma UpdateKeeps(d: Deployment, s: System, s': System, trace: string, c: Call)
    requires Inv(d, s) && Sound(d.settings, s'.breaker)
    requires s'.chain == s.chain && s'.calls == s.calls[trace := c] && CallOk(d.h, s.chain, trace, c)
    ensures Inv(d, s')
  {
    hide CallOk, ChainOk, Sound;
  }

  lemma AppendKeeps(d: Deployment, s: System, s': System, trace: string, c: Call, r: AuditRecord)
    requires Inv(d, s) && s'.breaker == s.breaker
    requires r.previousHash == Head(s.chain) && RecordHash(d.h, r, Head(s.chain)) == Some(r.recordHash)
    requires r.traceId == Some(trace) && s'.chain == s.chain + [r]
    requires s'.calls == s.calls[trace := c] && CallOk(d.h, s'.chain, trace, c)
    ensures Inv(d, s')
  {
    hide CallOk, RecordHash, Sound;
    ChainExtend(d.h, s.chain, r);
    forall t | t in s'.calls ensures CallOk(d.h, s'.chain, t, s'.calls[t]) {
      if t != trace { OthersKeepOk(d.h, s.chain, r, t, s.calls[t]); }
    }
  }

  lemma StartKeeps(d: Deployment, s: System, trace: string, now: real)
    requires d.settings.Valid() && Inv(d, s) && Enabled(s, Start(trace, now))
    ensures Inv(d, Step(d, s, Start(trace, now)))
  {
    hide ChainOk;
    BreakerStaysSound(d.settings, s.breaker, false, now);
    var s' := Step(d, s, Start(trace, now));
    UpdateKeeps(d, s, s', trace, s'.calls[trace]);
  }

  lemma DecideStepKeeps(d: Deployment, s: System, e: Event)
    requires Inv(d, s) && e.Decide? && Enabled(s, e)
    ensures Inv(d, Step(d, s, e))
  {
    hide CallOk, ChainOk, Sound, Entry, RecordHash;
    var r := Sealed(d, s.chain, e.now, GateDraft(d, e.trace, e.decision, e.ctx));
    GateRecord(d, s.chain, e.now, e.trace, e.decision, e.ctx);
    DecideKeeps(d, s.chain, e.trace, s.calls[e.trace], e.now, e.decision, e.ctx);
    var s' := Step(d, s, e);
    if e.recorded {
      AppendKeeps(d, s, s', e.trace, s'.calls[e.trace], r);
    } else {
      UpdateKeeps(d, s, s', e.trace, s'.calls[e.trace]);
    }
  }

  lemma ReconcileKeeps(d: Deployment, s: System, e: Event)
    requires Inv(d, s) && e.Reconcile? && Enabled(s, e)
    ensures Inv(d, Step(d, s, e))
  {
    hide ChainOk, Sound, RecordHash, Entry;
    var c := s.calls[e.trace];
    var rule := OwedRule(c.phase);
    var r := Sealed(d, s.chain, e.now, MarkerDraft(d, e.trace, rule, e.ctx));
    var s' := Step(d, s, e);
    assert CallOk(d.h, s.chain, e.trace, s'.calls[e.trace]);
    MarkerRecord(d, s.chain, e.now, e.trace, rule, e.ctx);
    if e.written {
      MarkerKeeps(d.h, s.chain, r, e.trace, c, s'.calls[e.trace]);
      EntryIsSealed(d.h, Some(d.tenant), Head(s.chain), e.now, MarkerDraft(d, e.trace, rule, e.ctx));
      AppendKeeps(d, s, s', e.trace, s'.calls[e.trace], r);
    } else {
      UpdateKeeps(d, s, s', e.trace, s'.calls[e.trace]);
    }
  }

  /** The one corrective deny a refused call is owed. */
  lemma MarkerKeeps(h: Hashing, chain: seq<AuditRecord>, r: AuditRecord, trace: string, owing: Call, done: Call)
    requires CallOk(h, chain, trace, owing) && !Refused(owing.phase)
    requires r.traceId == Some(trace) && IsMarker(r)
    requires done.worker == owing.worker && Refused(done.phase)
    ensures CallOk(h, chain + [r], trace, done)
  {
    CountSnoc(chain, r, trace, true);
    CountSnoc(chain, r, trace, false);
    if owing.worker.Finished? && owing.worker.verdict.recordHash.Some? {
      WitnessedLater(h, chain, r, trace, owing.worker.verdict);
    }
  }

  lemma OtherKeeps(d: Deployment, s: System, now: real, draft: Draft)
    requires Inv(d, s) && Enabled(s, AppendOther(now, draft))
    ensures Inv(d, Step(d, s, AppendOther(now, draft)))
  {
    hide CallOk, Sound, RecordHash;
    var r := Sealed(d, s.chain, now, draft);
    EntryExtends(d.h, s.chain, Some(d.tenant), now, draft);
    forall t | t in s.calls ensures CallOk(d.h, s.chain + [r], t, s.calls[t]) {
      OthersKeepOk(d.h, s.chain, r, t, s.calls[t]);
    }
  }

  /** Receiving, propagating, timing out, cancelling and failing touch no record. */
  lemma QuietKeeps(d: Deployment, s: System, e: Event)
    requires d.settings.Valid() && Inv(d, s) && Enabled(s, e)
    requires e.Fail? || e.Receive? || e.Propagate? || e.TimeOut? || e.Cancel?
    ensures Inv(d, Step(d, s, e))
  {
    hide ChainOk, Count, Witnessed;
    var s' := Step(d, s, e);
    if e.Receive? || e.TimeOut? {
      BreakerStaysSound(d.settings, s.breaker, e.TimeOut?, e.now);
    }
    UpdateKeeps(d, s, s', e.trace, s'.calls[e.trace]);
  }

  lemma StepKeepsInv(d: Deployment, s: System, e: Event)
    requires d.settings.Valid() && Inv(d, s)
    ensures Inv(d, Step(d, s, e))
  {
    hide Inv;
    if Enabled(s, e) {
      match e
      case Start(trace, now) => StartKeeps(d, s, trace, now);
      case Decide(_, _, _, _, _) => DecideStepKeeps(d, s, e);
      case Reconcile(_, _, _, _) => ReconcileKeeps(d, s, e);
      case AppendOther(now, draft) => OtherKeeps(d, s, now, draft);
      case _ => QuietKeeps(d, s, e);
    }
  }

  lemma {:induction false} RunKeepsInv(d: Deployment, s: System, es: seq<Event>)
    requires d.settings.Valid() && Inv(d, s)
    ensures Inv(d, Run(d, s, es))
    decreases |es|
  {
    if es != [] {
      hide Inv, Step;
      RunKeepsInv(d, s, es[..|es| - 1]);
      StepKeepsInv(d, Run(d, s, es[..|es| - 1]), es[|es| - 1]);
    }
  }

  function Initial(chain: seq<AuditRecord>): System {
    System(CLOSED, map[], chain, 0.0)
  }

  /** Mediation, over every interleaving from any chain that verifies. The chain still verifies. A
      forwarded call's trace has exactly one gate record, an allow, whose hash the caller was given and
      which hashes to itself, and no corrective deny. A trace with a corrective deny belongs to a call
      that was not forwarded, whatever the gate recorded for it before or after. No trace has two gate
      records or two corrective denies, and a call the breaker denied has no gate record. */
  lemma {:induction false} MediationIsRecorded(d: Deployment, chain: seq<AuditRecord>, es: seq<Event>, trace: string)
    requires d.settings.Valid() && ChainOk(d.h, chain) && trace in Run(d, Initial(chain), es).calls
    ensures var s := Run(d, Initial(chain), es);
            var c := s.calls[trace];
            && ChainOk(d.h, s.chain)
            && Count(s.chain, trace, false) <= 1 && Count(s.chain, trace, true) <= 1
            && (c.phase.Done? && c.phase.outcome.forwarded ==>
                  && Count(s.chain, trace, false) == 1 && Count(s.chain, trace, true) == 0
                  && exists i | 0 <= i < |s.chain| :: AllowRecord(d.h, s.chain[i], trace, c.phase.outcome))
            && (Count(s.chain, trace, true) > 0 ==> c.phase.Done? && !c.phase.outcome.forwarded)
            && (c.worker.NotAsked? ==> Count(s.chain, trace, false) == 0)
  {
    RunKeepsInv(d, Initial(chain), es);
    var s := Run(d, Initial(chain), es);
    var c := s.calls[trace];
    assert CallOk(d.h, s.chain, trace, c);
    if c.phase.Done? && c.phase.outcome.forwarded {
      var i :| 0 <= i < |s.chain| && WitnessedAt(d.h, s.chain[i], trace, c.worker.verdict);
      assert AllowRecord(d.h, s.chain[i], trace, c.phase.outcome);
    }
  }

  predicate AllowRecord(h: Hashing, r: AuditRecord, trace: string, o: Outcome) {
    && r.traceId == Some(trace) && r.action == "allow" && Some(r.recordHash) == o.recordHash
    && RecordHash(h, r, r.previousHash) == Some(r.recordHash)
  }

  // ---------------------------------------------------------------------------------------------
  // Verdicts and flags
  // ---------------------------------------------------------------------------------------------

  /** Through the adapter only a recorded ALLOW is forwarded: a decision the engine allows but flags for
      audit is refused, and so is an allow nobody could record. */
  lemma OnlyRecordedAllowIsForwarded(decision: PolicyResult, recordHash: Option<string>, cited: Option<string>,
      trace: string)
    requires Coherent(decision)
    ensures Conclude(GateVerdict(decision, recordHash, cited), trace).forwarded <==>
            decision.action == ALLOW && recordHash.Some?
    ensures decision.action == AUDIT ==>
              decision.allowed && !Conclude(GateVerdict(decision, recordHash, cited), trace).forwarded
  {
    hide Gate.Unrecordable;
    UnrecordableDenies(cited);
  }

  /** The caller is told `reconciled` whether or not the corrective record was written. */
  lemma ReconciledFlagSaysNothing(d: Deployment, s: System, trace: string, now: real, ctx: Context)
    requires Owing(s, trace)
    ensures var wrote := Step(d, s, Reconcile(trace, now, ctx, true));
            var lost := Step(d, s, Reconcile(trace, now, ctx, false));
            && wrote.calls == lost.calls && wrote.calls[trace].phase.outcome.reconciled
            && Count(wrote.chain, trace, true) == Count(s.chain, trace, true) + 1
            && lost.chain == s.chain
  {
    hide Entry, RecordHash;
    var rule := OwedRule(s.calls[trace].phase);
    var r := Sealed(d, s.chain, now, MarkerDraft(d, trace, rule, ctx));
    MarkerRecord(d, s.chain, now, trace, rule, ctx);
    CountSnoc(s.chain, r, trace, true);
  }

  // ---------------------------------------------------------------------------------------------
  // The breaker
  // ---------------------------------------------------------------------------------------------

  /** Under any interleaving the breaker is open exactly when the consecutive timeouts have reached the
      limit, and a probe runs with the breaker shut and one timeout short of it. */
  lemma {:induction false} BreakerOverRuns(d: Deployment, chain: seq<AuditRecord>, es: seq<Event>)
    requires d.settings.Valid() && ChainOk(d.h, chain)
    ensures var b := Run(d, Initial(chain), es).breaker;
            && (b.openUntil.Some? <==> b.consecutive >= d.settings.limit)
            && (b.probing ==> b.openUntil.None? && b.consecutive == d.settings.limit - 1)
  {
    RunKeepsInv(d, Initial(chain), es);
  }

  /** What a reader of the events remembers: the timeouts since the last answer, when the last of them was, and whether
      a probe is out. */
  datatype Tally = Tally(timeouts: nat, last: real, probe: bool)

  /** Enough timeouts, and the cooldown after the last of them still runs or a probe has ended it. */
  predicate Shut(c: Settings, t: Tally, now: real) {
    t.timeouts >= c.limit && (t.probe || now < t.last + c.cooldown)
  }

  function TallyOf(d: Deployment, s: System, es: seq<Event>): Tally {
    if es == [] then Tally(0, 0.0, false) else
    var before, e := es[..|es| - 1], es[|es| - 1];
    var t := TallyOf(d, s, before);
    if !Enabled(Run(d, s, before), e) then t else
    match e
    case TimeOut(_, now) => Tally(t.timeouts + 1, now, false)
    case Receive(_, _) => Tally(0, t.last, false)
    case Start(_, now) => if t.timeouts >= d.settings.limit && !Shut(d.settings, t, now) then t.(probe := true) else t
    case _ => t
  }

  ghost predicate Tallies(c: Settings, b: Breaker, t: Tally) {
    && (b.openUntil.Some? || b.probing <==> t.timeouts >= c.limit)
    && (t.timeouts < c.limit ==> b.consecutive == t.timeouts && !t.probe)
    && (b.probing <==> t.probe)
    && (b.openUntil.Some? ==> b.openUntil.value == t.last + c.cooldown)
    && Sound(c, b)
  }

  lemma TallyStep(d: Deployment, s: System, e: Event, t: Tally, t': Tally)
    requires d.settings.Valid() && Tallies(d.settings, s.breaker, t)
    requires t' == if !Enabled(s, e) then t else
                   match e
                   case TimeOut(_, now) => Tally(t.timeouts + 1, now, false)
                   case Receive(_, _) => Tally(0, t.last, false)
                   case Start(_, now) =>
                     if t.timeouts >= d.settings.limit && !Shut(d.settings, t, now) then t.(probe := true) else t
                   case _ => t
    ensures Tallies(d.settings, Step(d, s, e).breaker, t')
    ensures Enabled(s, e) && e.Start? ==>
              (Step(d, s, e).calls[e.trace].worker.NotAsked? <==> Shut(d.settings, t, e.now))
  {
    hide Sealed, GateDraft, MarkerDraft, GateVerdict, Conclude, Count;
  }

  /** The breaker over any interleaving, read off the events alone: it is open or probing exactly when the timeouts
      since the last answer have reached the limit, below that it has counted every one of them, and it is open
      for one cooldown from the last. */
  lemma {:induction false} BreakerTallies(d: Deployment, chain: seq<AuditRecord>, es: seq<Event>)
    requires d.settings.Valid()
    ensures Tallies(d.settings, Run(d, Initial(chain), es).breaker, TallyOf(d, Initial(chain), es))
    decreases |es|
  {
    if es != [] {
      hide Step, Tallies, Enabled;
      var before, e := es[..|es| - 1], es[|es| - 1];
      BreakerTallies(d, chain, before);
      TallyStep(d, Run(d, Initial(chain), before), e, TallyOf(d, Initial(chain), before),
                TallyOf(d, Initial(chain), es));
    }
  }

  /** So a call does not reach the gate exactly when enough timeouts have passed without an answer and the cooldown
      after the last still runs or a probe is out. In particular one that starts after an answer, with fewer
      timeouts than the limit since, always does. */
  lemma {:induction false} CallReachesGateIff(d: Deployment, chain: seq<AuditRecord>, es: seq<Event>, trace: string,
      now: real)
    requires d.settings.Valid() && Enabled(Run(d, Initial(chain), es), Start(trace, now))
    ensures var s := Run(d, Initial(chain), es + [Start(trace, now)]);
            var t := TallyOf(d, Initial(chain), es);
            && trace in s.calls
            && (s.calls[trace].worker.NotAsked? <==>
                  t.timeouts >= d.settings.limit && (t.probe || now < t.last + d.settings.cooldown))
            && (t.timeouts == 0 ==> s.calls[trace].worker == Running)
  {
    hide Tallies;
    BreakerTallies(d, chain, es);
    var s, e, t := Run(d, Initial(chain), es), Start(trace, now), TallyOf(d, Initial(chain), es);
    assert (es + [e])[..|es|] == es;
    TallyStep(d, s, e, t, if t.timeouts >= d.settings.limit && !Shut(d.settings, t, now) then t.(probe := true) else t);
  }

  /** Every call the gate is asked about in s' it was already asked about in s. */
  predicate AsksNothingNew(s: System, s': System) {
    forall t | t in s'.calls && !s'.calls[t].worker.NotAsked? :: t in s.calls && !s.calls[t].worker.NotAsked?
  }

  /** While a probe is out, a step that neither receives an answer nor times out asks the gate nothing. */
  lemma ProbeStep(d: Deployment, s: System, e: Event)
    requires s.breaker.probing && !((e.Receive? || e.TimeOut?) && Enabled(s, e))
    ensures Step(d, s, e).breaker == s.breaker && AsksNothingNew(s, Step(d, s, e))
  {
  }

  /** Once a probe is admitted, no other call reaches the gate until some answer or timeout is recorded,
      whatever else happens in between. */
  lemma {:induction false} ProbeIsAlone(d: Deployment, s: System, es: seq<Event>)
    requires s.breaker.probing && forall i | 0 <= i < |es| :: !es[i].Receive? && !es[i].TimeOut?
    ensures Run(d, s, es).breaker == s.breaker && AsksNothingNew(s, Run(d, s, es))
    decreases |es|
  {
    if es != [] {
      var before := es[..|es| - 1];
      ProbeIsAlone(d, s, before);
      ProbeStep(d, Run(d, s, before), es[|es| - 1]);
      NothingNewChains(s, Run(d, s, before), Run(d, s, es));
    }
  }

  lemma NothingNewChains(a: System, b: System, c: System)
    requires AsksNothingNew(a, b) && AsksNothingNew(b, c)
    ensures AsksNothingNew(a, c)
  {
  }

  /** A probe is out and no call is waiting for the gate. */
  predicate Wedged(s: System) {
    s.breaker.probing && forall t | t in s.calls :: s.calls[t].phase != Waiting
  }

  lemma WedgedStep(d: Deployment, s: System, e: Event)
    requires Wedged(s)
    ensures Wedged(Step(d, s, e)) && AsksNothingNew(s, Step(d, s, e))
  {
  }

  lemma {:induction false} WedgedForever(d: Deployment, s: System, es: seq<Event>)
    requires Wedged(s)
    ensures Wedged(Run(d, s, es)) && AsksNothingNew(s, Run(d, s, es))
    decreases |es|
  {
    if es != [] {
      var before := es[..|es| - 1];
      WedgedForever(d, s, before);
      WedgedStep(d, Run(d, s, before), es[|es| - 1]);
      NothingNewChains(s, Run(d, s, before), Run(d, s, es));
    }
  }

  lemma RunOne(d: Deployment, s: System, e: Event)
    ensures Run(d, s, [e]) == Step(d, s, e)
  {
    assert [e][..0] == [];
  }

  lemma RunTwo(d: Deployment, s: System, e: Event, f: Event)
    ensures Run(d, s, [e, f]) == Step(d, Step(d, s, e), f)
  {
    RunOne(d, s, e);
    assert [e, f][..1] == [e];
  }

  /** A moment at which the breaker, if no probe is out, lets a call through. */
  function Reopens(s: System): real {
    if s.breaker.openUntil.Some? && s.breaker.openUntil.value > s.clock then s.breaker.openUntil.value else s.clock
  }

  lemma StartReaches(d: Deployment, s: System, unused: string)
    requires !s.breaker.probing && Fresh(s, unused)
    ensures !AsksNothingNew(s, Step(d, s, Start(unused, Reopens(s))))
  {
    var s' := Step(d, s, Start(unused, Reopens(s)));
    assert unused in s'.calls && s'.calls[unused].worker == Running;
  }

  /** The gate is never asked again, in any continuation, exactly when the breaker is wedged: a probe that
      ended without an answer or a timeout, with nothing else in flight, shuts the proxy for good. */
  lemma WedgedIffNeverAskedAgain(d: Deployment, s: System, unused: string)
    requires Fresh(s, unused)
    ensures Wedged(s) <==> forall es: seq<Event> :: AsksNothingNew(s, Run(d, s, es))
  {
    if Wedged(s) {
      forall es: seq<Event> ensures AsksNothingNew(s, Run(d, s, es)) { WedgedForever(d, s, es); }
    } else if !s.breaker.probing {
      hide AsksNothingNew, Step;
      StartReaches(d, s, unused);
      RunOne(d, s, Start(unused, Reopens(s)));
    } else {
      hide AsksNothingNew, Step, Run;
      var t :| t in s.calls && s.calls[t].phase == Waiting;
      TimeOutThenStart(d, s, t, unused);
      RunTwo(d, s, TimeOut(t, s.clock), Start(unused, Reopens(Step(d, s, TimeOut(t, s.clock)))));
    }
  }

  lemma TimeOutThenStart(d: Deployment, s: System, t: string, unused: string)
    requires At(s, t, Waiting) && Fresh(s, unused)
    ensures var mid := Step(d, s, TimeOut(t, s.clock));
            !AsksNothingNew(s, Step(d, mid, Start(unused, Reopens(mid))))
  {
    var mid := Step(d, s, TimeOut(t, s.clock));
    assert !mid.breaker.probing && mid.calls.Keys == s.calls.Keys && Fresh(mid, unused);
    StartReaches(d, mid, unused);
    var last := Step(d, mid, Start(unused, Reopens(mid)));
    assert unused in last.calls && last.calls[unused].worker == Running;
  }

  /** And that state is reached: once the cooldown has lapsed with nothing in flight, a probe whose
      evaluation raises, or whose caller is cancelled, leaves the breaker wedged. */
  lemma UnansweredProbeWedges(d: Deployment, s: System, trace: string, now: real, kind: string)
    requires s.breaker.openUntil.Some? && !s.breaker.probing && s.breaker.openUntil.value <= now && s.clock <= now
    requires Fresh(s, trace) && forall t | t in s.calls :: s.calls[t].phase != Waiting
    ensures var asked := Step(d, s, Start(trace, now));
            && Wedged(Step(d, Step(d, asked, Fail(trace, kind)), Propagate(trace)))
            && Wedged(Step(d, asked, Cancel(trace)))
  {
  }

  /** The shortest such run from a fresh proxy with limit 1. */
  lemma FreshProxyCanWedge(d: Deployment, a: string, b: string, kind: string)
    requires d.settings.limit == 1 && d.settings.cooldown >= 0.0 && a != b && a != "" && b != ""
    ensures Wedged(Run(d, Initial([]), [Start(a, 0.0), TimeOut(a, 0.0), Start(b, d.settings.cooldown), Cancel(b)]))
  {
    var s := Run(d, Initial([]), [Start(a, 0.0), TimeOut(a, 0.0)]);
    RunTwo(d, Initial([]), Start(a, 0.0), TimeOut(a, 0.0));
    UnansweredProbeWedges(d, s, b, d.settings.cooldown, kind);
    var es := [Start(a, 0.0), TimeOut(a, 0.0), Start(b, d.settings.cooldown), Cancel(b)];
    assert es[..3][..2] == [Start(a, 0.0), TimeOut(a, 0.0)];
    assert Run(d, Initial([]), es[..3]) == Step(d, s, Start(b, d.settings.cooldown));
  }

  // ---------------------------------------------------------------------------------------------
  // The steps are the methods' contracts
  // ---------------------------------------------------------------------------------------------

  /** What Gate.ActionGate.EvaluateAction promises a worker, passed through the adapter, is a Decide. */
  lemma EvaluateActionIsDecide(d: Deployment, s: System, trace: string, now: real, policy: PolicyResult, ctx: Context,
      writable: bool, after: seq<AuditRecord>, decision: PolicyResult, recordHash: Option<string>)
    requires trace in s.calls && s.calls[trace].worker == Running && Coherent(policy)
    requires Gate.Answers(d.h, Some(d.tenant), now,
                          Gate.OutcomeDraft(d.tenant, ctx.clientId, Some(trace), policy, ctx.blob, ctx.policyDigest),
                          policy, writable, s.chain, after, decision, recordHash)
    ensures var form := if writable then after[|s.chain|].commitment else ctx.commitment;
            var s' := Step(d, s, Decide(trace, now, policy, ctx.(commitment := form), writable));
            && s'.chain == after
            && s'.calls == s.calls[trace := Call(s.calls[trace].phase, Finished(AdapterVerdict(decision, recordHash)))]
            && s'.breaker == s.breaker
  {
    hide RecordHash, Gate.Unrecordable;
    if writable {
      var form := after[|s.chain|].commitment;
      assert after[|s.chain|] == Sealed(d, s.chain, now, GateDraft(d, trace, policy, ctx.(commitment := form)));
    }
  }

  /** What Gate.ActionGate.RecordReconciliation promises the adapter is a Reconcile. */
  lemma RecordReconciliationIsReconcile(d: Deployment, s: System, trace: string, now: real, ctx: Context, written: bool,
      after: seq<AuditRecord>)
    requires Owing(s, trace)
    requires var draft := ReconciliationDraft(ctx.clientId, trace, OwedRule(s.calls[trace].phase), ctx.blob, ctx.note,
                                              ctx.policyDigest, Some(d.tenant));
             after == if written then s.chain + [Entry(d.h, Some(d.tenant), Head(s.chain), now, draft)] else s.chain
    ensures Step(d, s, Reconcile(trace, now, ctx, written)).chain == after
  {
    hide RecordHash;
  }

  /** What Proxy.McpProxy.BreakerDenies and RecordAnswer promise is what Start, Receive and TimeOut do. */
  lemma BreakerMethodsAreSteps(d: Deployment, s: System, trace: string, now: real)
    ensures Enabled(s, Start(trace, now)) ==>
              var s' := Step(d, s, Start(trace, now));
              && s'.breaker == AfterAsking(d.settings, s.breaker, now)
              && (s'.calls[trace].phase == CircuitOpen <==> Denies(s.breaker, now))
    ensures Enabled(s, Receive(trace, now)) ==>
              Step(d, s, Receive(trace, now)).breaker == AfterAnswer(d.settings, s.breaker, false, now)
    ensures Enabled(s, TimeOut(trace, now)) ==>
              Step(d, s, TimeOut(trace, now)).breaker == AfterAnswer(d.settings, s.breaker, true, now)
  {
  }
}
