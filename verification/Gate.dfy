/** custos/action_gate.py: deciding a proposed action, citing the policy that decided it, committing that
    policy to the custody log before the citation, and recording the decision. */
module Gate {
  import opened Base
  import opened AuditRecords
  import opened AuditChain
  import opened PolicyEngine
  import opened PolicyCitation
  import opened Anchoring
  import opened Retention
  import opened Sinks
  import Custody

  // ---------------------------------------------------------------------------------------------
  // The decision
  // ---------------------------------------------------------------------------------------------

  /** A proposed action; `args` is the JSON text of its arguments. */
  datatype ActionRequest = ActionRequest(tool: string, command: string, args: string) {
    function Serialize(): string {
      tool + " " + command + " " + args
    }
  }

  /** One row of the dangerous-command table. */
  datatype Danger = Danger(name: string, pattern: string, reason: string)

  function FirstDanger(rx: Regex, dangers: seq<Danger>, blob: string): Option<Danger> {
    if dangers == [] then None
    else if rx.Search(dangers[0].pattern, blob).Some? then Some(dangers[0])
    else FirstDanger(rx, dangers[1..], blob)
  }

  function Deny(rule: string, reason: string): PolicyResult {
    PolicyResult(false, DENY, Some(rule), reason)
  }

  // The texts below are the first sentence of the source's reasons.

  function UnknownTenant(tenant: string): PolicyResult {
    Deny("action_gate_unknown_tenant", "Unknown tenant '" + tenant + "'")
  }

  function NotAllowlisted(tenant: string, tool: string): PolicyResult {
    Deny("action_gate_tool_not_allowlisted", "Tool '" + tool + "' is not in tenant '" + tenant + "'s allowlist")
  }

  function Unrecordable(cited: Option<string>): PolicyResult {
    Deny("action_gate_record_unwritable",
         "The decision could not be recorded" + if Truthy(cited) then "" else "; no policy citation")
  }

  function EngineDecision(kind: EngineKind, rx: Regex, rules: seq<PolicyRule>, blob: string,
      opa: OpaServer): PolicyResult
  {
    var local := Evaluate(rx, rules, blob);
    match kind
    case RegexKind => local
    case OpaKind => OpaEvaluate(local, opa(None))
    case HybridKind => HybridDecide(local, opa)
  }

  /** What a configured tenant's policy says: the allowlist first, then the dangerous commands, then the
      tenant's engine. */
  function Decision(tenant: string, tools: set<string>, dangers: seq<Danger>, kind: EngineKind, rx: Regex,
      rules: seq<PolicyRule>, rq: ActionRequest, opa: OpaServer): PolicyResult
  {
    if rq.tool !in tools then NotAllowlisted(tenant, rq.tool) else
    var danger := FirstDanger(rx, dangers, rq.Serialize());
    if danger.Some? then Deny(danger.value.name, danger.value.reason)
    else EngineDecision(kind, rx, rules, rq.Serialize(), opa)
  }

  lemma DecisionIsCoherent(tenant: string, tools: set<string>, dangers: seq<Danger>, kind: EngineKind, rx: Regex,
      rules: seq<PolicyRule>, rq: ActionRequest, opa: OpaServer)
    ensures Coherent(Decision(tenant, tools, dangers, kind, rx, rules, rq, opa))
  {
    hide Evaluate, OpaEvaluate, HybridEvaluate, FirstDanger, NotAllowlisted;
    NotAllowlistedIs(tenant, rq.tool);
    EvaluateIsMeet(rx, rules, rq.Serialize());
    var local := Evaluate(rx, rules, rq.Serialize());
    OpaIsMeet(local, opa(None));
    HybridIsMeet(local, opa(Some(local)));
  }

  /** The row that decides is one that matches with none before it. */
  lemma {:induction false} FirstDangerIsFirst(rx: Regex, dangers: seq<Danger>, blob: string, i: nat)
    requires i < |dangers| && rx.search(dangers[i].pattern, blob).Some?
    requires forall k | 0 <= k < i :: rx.search(dangers[k].pattern, blob).None?
    ensures FirstDanger(rx, dangers, blob) == Some(dangers[i])
  {
    if i > 0 { FirstDangerIsFirst(rx, dangers[1..], blob, i - 1); }
  }

  lemma {:induction false} FirstDangerExists(rx: Regex, dangers: seq<Danger>, blob: string)
    ensures FirstDanger(rx, dangers, blob).Some? <==> exists x | x in dangers :: rx.Search(x.pattern, blob).Some?
    ensures FirstDanger(rx, dangers, blob).Some? ==>
              var hit := FirstDanger(rx, dangers, blob).value;
              hit in dangers && rx.Search(hit.pattern, blob).Some?
  {
    if dangers != [] {
      assert dangers == [dangers[0]] + dangers[1..];
      FirstDangerExists(rx, dangers[1..], blob);
    }
  }

  /** Deny by default: an action is admitted exactly when its tool is allowlisted, no dangerous-command row
      matches and the engine admits it; and then, flagged or not, the decision is the engine's own. The
      reason for a refusal is the first of the three that refuses. */
  lemma AdmittedIff(tenant: string, tools: set<string>, dangers: seq<Danger>, kind: EngineKind, rx: Regex,
      rules: seq<PolicyRule>, rq: ActionRequest, opa: OpaServer)
    ensures var d := Decision(tenant, tools, dangers, kind, rx, rules, rq, opa);
            var dangerous := exists x | x in dangers :: rx.Search(x.pattern, rq.Serialize()).Some?;
            var engine := EngineDecision(kind, rx, rules, rq.Serialize(), opa);
            && (d.allowed <==> rq.tool in tools && !dangerous && engine.allowed)
            && (rq.tool in tools && !dangerous ==> d == engine)
            && (rq.tool !in tools ==> d.triggeredRule == Some("action_gate_tool_not_allowlisted"))
            && (rq.tool in tools && dangerous ==>
                  exists x | x in dangers ::
                    && rx.Search(x.pattern, rq.Serialize()).Some?
                    && d == PolicyResult(false, DENY, Some(x.name), x.reason))
  {
    hide EngineDecision, NotAllowlisted, FirstDanger;
    NotAllowlistedIs(tenant, rq.tool);
    FirstDangerExists(rx, dangers, rq.Serialize());
  }

  lemma NotAllowlistedIs(tenant: string, tool: string)
    ensures var d := NotAllowlisted(tenant, tool);
            !d.allowed && d.action == DENY && d.triggeredRule == Some("action_gate_tool_not_allowlisted")
  {
  }

  /** The request reaches the tenant's engine. */
  predicate ReachesEngine(tools: set<string>, dangers: seq<Danger>, rx: Regex, rq: ActionRequest) {
    rq.tool in tools && FirstDanger(rx, dangers, rq.Serialize()).None?
  }

  /** Taking tools away never loosens the gate's answer to any request, whatever the engine and OPA. */
  lemma FewerToolsTighten(tenant: string, tools: set<string>, fewer: set<string>, dangers: seq<Danger>,
      kind: EngineKind,
      rx: Regex, rules: seq<PolicyRule>, rq: ActionRequest, opa: OpaServer)
    requires fewer <= tools
    ensures AtLeastAsStrict(Decision(tenant, fewer, dangers, kind, rx, rules, rq, opa).action,
                            Decision(tenant, tools, dangers, kind, rx, rules, rq, opa).action)
  {
    hide EngineDecision, FirstDanger, NotAllowlisted;
    NotAllowlistedIs(tenant, rq.tool);
  }

  /** Appending a rule loosens the gate's answer to a request for no OPA policy, except where a hybrid engine
      is reached and an AUDIT rule hits where no rule did before: there some OPA policy, hearing of the
      new hit, authorizes what it refused. */
  lemma {:induction false} AddedRuleTightensGateIff(tenant: string, tools: set<string>, dangers: seq<Danger>,
      kind: EngineKind, rx: Regex,
      rules: seq<PolicyRule>, added: PolicyRule, rq: ActionRequest)
    ensures (forall opa: OpaServer ::
               AtLeastAsStrict(Decision(tenant, tools, dangers, kind, rx, rules + [added], rq, opa).action,
                               Decision(tenant, tools, dangers, kind, rx, rules, rq, opa).action)) <==>
            !(&& kind == HybridKind && ReachesEngine(tools, dangers, rx, rq)
              && Evaluate(rx, rules, rq.Serialize()).action == ALLOW && added.action == AUDIT
              && Hits(rx, added, rq.Serialize()))
  {
    hide Evaluate, OpaEvaluate, HybridDecide, FirstDanger, NotAllowlisted, Hits;
    var blob := rq.Serialize();
    if ReachesEngine(tools, dangers, rx, rq) && kind == HybridKind {
      AddedRuleTightensHybridIff(rx, rules, added, blob);
      forall opa: OpaServer
        ensures Decision(tenant, tools, dangers, kind, rx, rules + [added], rq, opa) ==
                HybridDecide(Evaluate(rx, rules + [added], blob), opa)
        ensures Decision(tenant, tools, dangers, kind, rx, rules, rq, opa) ==
                HybridDecide(Evaluate(rx, rules, blob), opa)
      {
      }
    } else {
      NotAllowlistedIs(tenant, rq.tool);
      forall opa: OpaServer
        ensures AtLeastAsStrict(Decision(tenant, tools, dangers, kind, rx, rules + [added], rq, opa).action,
                                Decision(tenant, tools, dangers, kind, rx, rules, rq, opa).action)
      {
        AddedRuleTightensRegexAndOpa(rx, rules, added, blob, opa(None));
      }
    }
  }

  // ---------------------------------------------------------------------------------------------
  // The citation and its cache
  // ---------------------------------------------------------------------------------------------

  /** Only the regex engine has a rules digest to put in the key. */
  datatype CacheKey = CacheKey(tools: set<string>, kind: EngineKind, rulesDigest: Option<string>, pin: Option<string>)

  datatype CacheEntry = CacheEntry(key: CacheKey, digest: Option<string>)

  function KeyOf(h: Hashing, tools: set<string>, rules: seq<PolicyRule>, kind: EngineKind,
      pin: Option<string>): CacheKey
  {
    CacheKey(tools, kind, if kind == RegexKind then Some(RulesDigest(h, rules)) else None, pin)
  }

  /** What _cited_policy_digest returns with this entry cached. */
  function Cited(h: Hashing, cache: Option<CacheEntry>, tools: set<string>, rules: seq<PolicyRule>, kind: EngineKind,
      pin: Option<string>): Option<string>
  {
    if cache.Some? && cache.value.key == KeyOf(h, tools, rules, kind, pin) then cache.value.digest
    else PolicyDigest(h, tools, rules, kind, pin)
  }

  function Lookup<V>(m: map<string, V>, key: string): Option<V> {
    if key in m then Some(m[key]) else None
  }

  // ---------------------------------------------------------------------------------------------
  // One tenant's side of the gate, as a value
  // ---------------------------------------------------------------------------------------------

  datatype Snap = Snap(
    tools: set<string>,
    rules: seq<PolicyRule>,
    cache: Option<CacheEntry>,
    anchored: Option<string>,
    queue: seq<QueuedCommit>,
    taken: seq<seq<Custody.LogEntry>>,
    records: seq<AuditRecord>)

  /** Which sinks take the first n commits offered. */
  function Offers(up: nat -> Uptake, n: nat): (offers: seq<Uptake>)
    ensures |offers| == n && forall k | 0 <= k < n :: offers[k] == up(k)
  {
    if n == 0 then [] else Offers(up, n - 1) + [up(n - 1)]
  }

  /** The commitment a citation made now needs. */
  function Needed(h: Hashing, tenant: string, s: Snap, kind: EngineKind, pin: Option<string>,
      digest: string): QueuedCommit
  {
    QueuedCommit(tenant, digest, CitationBytes(h, s.tools, s.rules, kind, pin))
  }

  /** Every commit of this queue was offered once: those some sink refused stay queued in order, every sink has
      taken the others, and nothing else was taken. */
  ghost predicate Drained(h: Hashing, up: nat -> Uptake, queue: seq<QueuedCommit>, s: Snap, s': Snap) {
    && |s'.taken| == |s.taken|
    && s'.queue == Kept(|s.taken|, queue, Offers(up, |queue|))
    && (forall j | 0 <= j < |s.taken| :: OnlyCommitsAdded(h, s.taken[j], s'.taken[j], queue))
    && (forall k | 0 <= k < |queue| && AllUp(|s.taken|, up(k)) :: CommittedEverywhere(h, s'.taken, queue[k]))
  }

  /** _maybe_anchor_policy_commit: nothing to do without custody or a digest, or when this digest was the
      last one to land; otherwise the commitment joins the queue, the queue is drained, and the digest is
      remembered only when nothing is left queued. */
  ghost predicate CommitStep(h: Hashing, tenant: string, custody: bool, kind: EngineKind, pin: Option<string>,
      up: nat -> Uptake, digest: Option<string>, s: Snap, s': Snap)
  {
    if !custody || digest.None? || s.anchored == digest then
      s'.anchored == s.anchored && s'.queue == s.queue && s'.taken == s.taken
    else
      var q := Needed(h, tenant, s, kind, pin, digest.value);
      && Drained(h, up, s.queue + [q], s, s')
      && s'.anchored == if s'.queue == [] then digest else s.anchored
  }

  lemma CommitStepFrame(h: Hashing, tenant: string, custody: bool, kind: EngineKind, pin: Option<string>,
      up: nat -> Uptake, digest: Option<string>, s: Snap, s': Snap, t: Snap, t': Snap)
    requires CommitStep(h, tenant, custody, kind, pin, up, digest, s, s')
    requires t == s.(cache := t.cache, records := t.records) && t' == s'.(cache := t'.cache, records := t'.records)
    ensures CommitStep(h, tenant, custody, kind, pin, up, digest, t, t')
  {
  }

  /** At most one record was appended; it extends the chain, cites this digest for this tenant and states this
      action and rule. */
  predicate RecordStep(h: Hashing, tenant: string, digest: Option<string>, action: string, rule: Option<string>,
      s: Snap, s': Snap)
  {
    || s'.records == s.records
    || (&& s.records < s'.records && |s'.records| == |s.records| + 1
        && var r := s'.records[|s.records|];
        && r.policyDigest == digest && r.tenantId == Some(tenant) && r.action == action && r.triggeredRule == rule
        && r.previousHash == Head(s.records) && RecordHash(h, r, r.previousHash) == Some(r.recordHash))
  }

  /** evaluate_action for a known tenant: cite, commit, then record the decision. */
  ghost predicate EvaluateStep(h: Hashing, tenant: string, custody: bool, kind: EngineKind, pin: Option<string>,
      up: nat -> Uptake, decision: PolicyResult, s: Snap, s': Snap)
  {
    var digest := Cited(h, s.cache, s.tools, s.rules, kind, pin);
    && s'.tools == s.tools && s'.rules == s.rules
    && s'.cache == Some(CacheEntry(KeyOf(h, s.tools, s.rules, kind, pin), digest))
    && CommitStep(h, tenant, custody, kind, pin, up, digest, s, s')
    && RecordStep(h, tenant, digest, decision.action.Text(), decision.triggeredRule, s, s')
  }

  /** cited_policy_digest for a known tenant: the citation is cached, and nothing is committed or recorded. */
  predicate CiteStep(h: Hashing, kind: EngineKind, pin: Option<string>, s: Snap, s': Snap) {
    s' == s.(cache := Some(CacheEntry(KeyOf(h, s.tools, s.rules, kind, pin),
                                      Cited(h, s.cache, s.tools, s.rules, kind, pin))))
  }

  /** record_reconciliation for a known tenant: cite and record, without committing. */
  predicate ReconcileStep(h: Hashing, tenant: string, kind: EngineKind, pin: Option<string>, rule: string, s: Snap,
      s': Snap)
  {
    var digest := Cited(h, s.cache, s.tools, s.rules, kind, pin);
    && s'.tools == s.tools && s'.rules == s.rules
    && s'.cache == Some(CacheEntry(KeyOf(h, s.tools, s.rules, kind, pin), digest))
    && s'.anchored == s.anchored && s'.queue == s.queue && s'.taken == s.taken
    && RecordStep(h, tenant, digest, "DENY", Some(rule), s, s')
  }

  // ---------------------------------------------------------------------------------------------
  // The gate
  // ---------------------------------------------------------------------------------------------

  /** A registered tenant: its engine with its local rules, its chain, and its content store if
      retention is on. */
  datatype Context = Context(kind: EngineKind, engine: RuleSet, chain: Chain, content: Option<ContentStore>)

  /** What the outside world answers during one call: OPA, the clocks, which sinks take the n-th commit
      offered, the salt, and the audit store. */
  datatype World = World(opa: OpaServer, now: real, at: string, up: nat -> Uptake, salt: string,
                         boundRequired: bool, condition: Condition)

  class ActionGate {
    const h: Hashing
    const rx: Regex
    const dangers: seq<Danger>
    var custody: AnchorManager?
    var allowlists: map<string, set<string>>
    var digestCache: map<string, CacheEntry>
    var lastAnchored: map<string, string>

    ghost predicate Valid()
      reads this, custody
    {
      custody != null ==> custody.h == h && custody.Valid()
    }

    ghost predicate Serves(ctx: Context)
      reads ctx.engine, if ctx.content.Some? then {ctx.content.value} else {}
    {
      && ctx.engine.Valid() && ctx.engine.h == h && ctx.engine.rx == rx && ctx.chain.h == h
      && (ctx.content.Some? ==> ctx.content.value.Valid() && ctx.content.value.h == h)
    }

    ghost function SnapOf(tenant: string, ctx: Context): Snap
      reads this, ctx.engine, ctx.chain, custody
    {
      Snap(Tools(tenant), ctx.engine.rules, Lookup(digestCache, tenant), Lookup(lastAnchored, tenant),
           if custody == null then [] else custody.policyQueue, if custody == null then [] else custody.taken,
           ctx.chain.records)
    }

    function Tools(tenant: string): set<string>
      reads this
    {
      if tenant in allowlists then allowlists[tenant] else {}
    }

    constructor (h: Hashing, rx: Regex, dangers: seq<Danger>, custody: AnchorManager?)
      requires custody != null ==> custody.h == h && custody.Valid()
      ensures Valid() && this.h == h && this.rx == rx && this.dangers == dangers && this.custody == custody
      ensures allowlists == map[] && digestCache == map[] && lastAnchored == map[]
    {
      this.h, this.rx, this.dangers, this.custody := h, rx, dangers, custody;
      allowlists, digestCache, lastAnchored := map[], map[], map[];
    }

    /** register_tools. */
    method RegisterTools(tenant: string, tools: set<string>)
      modifies this`allowlists, this`digestCache
      ensures Tools(tenant) == tools && Lookup(digestCache, tenant) == None
      ensures forall t | t != tenant ::
                Tools(t) == old(Tools(t)) && Lookup(digestCache, t) == Lookup(old(digestCache), t)
    {
      allowlists := allowlists[tenant := tools];
      digestCache := digestCache - {tenant};
    }

    /** _cited_policy_digest. */
    method CitedPolicyDigest(tenant: string, ctx: Context, pin: Option<string>) returns (digest: Option<string>)
      requires Serves(ctx)
      modifies this`digestCache, ctx.engine`digestCache
      ensures Serves(ctx)
      ensures digest == Cited(h, Lookup(old(digestCache), tenant), Tools(tenant), ctx.engine.rules, ctx.kind, pin)
      ensures var key := KeyOf(h, Tools(tenant), ctx.engine.rules, ctx.kind, pin);
              digestCache == old(digestCache)[tenant := CacheEntry(key, digest)]
    {
      hide PolicyDigest, RulesDigest, Custody.CommitHash, WellStored;
      var tools := Tools(tenant);
      var rulesDigest := None;
      if ctx.kind == RegexKind {
        var current := ctx.engine.CurrentDigest();
        rulesDigest := Some(current);
      }
      var key := CacheKey(tools, ctx.kind, rulesDigest, pin);
      if tenant in digestCache && digestCache[tenant].key == key {
        return digestCache[tenant].digest;
      }
      digest := PolicyDigest(h, tools, ctx.engine.rules, ctx.kind, pin);
      digestCache := digestCache[tenant := CacheEntry(key, digest)];
    }

    /** cited_policy_digest: what a startup record cites. */
    method DigestInForce(tenant: string, known: Option<Context>, pin: Option<string>) returns (digest: Option<string>)
      requires Valid() && (known.Some? ==> Serves(known.value))
      modifies this`digestCache
      modifies if known.Some? then {known.value.engine} else {}
      ensures Valid() && (known.Some? ==> Serves(known.value))
      ensures known.None? ==> digest.None? && digestCache == old(digestCache)
      ensures known.Some? ==>
                var ctx := known.value;
                var s := old(SnapOf(tenant, ctx));
                && digest == Cited(h, s.cache, s.tools, s.rules, ctx.kind, pin)
                && CiteStep(h, ctx.kind, pin, s, SnapOf(tenant, ctx))
    {
      hide PolicyDigest, RulesDigest, WellStored;
      if known.None? { return None; }
      digest := CitedPolicyDigest(tenant, known.value, pin);
    }

    /** _maybe_anchor_policy_commit. */
    method MaybeAnchorPolicyCommit(tenant: string, ctx: Context, pin: Option<string>, digest: Option<string>,
        at: string, up: nat -> Uptake)
      requires Valid()
      modifies this`lastAnchored, custody
      ensures Valid()
      ensures CommitStep(h, tenant, custody != null, ctx.kind, pin, up, digest, old(SnapOf(tenant, ctx)),
              SnapOf(tenant, ctx))
      ensures forall t | t != tenant :: Lookup(lastAnchored, t) == Lookup(old(lastAnchored), t)
    {
      hide OnlyCommitsAdded, CommittedEverywhere, Kept, CitationBytes, AllUp, DrainedTo, DrainStates,
        Sinks.Held;
      if custody == null || digest.None? { return; }
      if Lookup(lastAnchored, tenant) == digest { return; }
      var canonical := CitationBytes(h, Tools(tenant), ctx.engine.rules, ctx.kind, pin);
      custody.QueuePolicyCommit(QueuedCommit(tenant, digest.value, canonical));
      var offers := Offers(up, |custody.policyQueue|);
      var clean := custody.DrainPolicyCommits(at, offers);
      if clean {
        lastAnchored := lastAnchored[tenant := digest.value];
      }
    }

    /** The chain would accept this draft now. */
    ghost predicate Writable(ctx: Context, d: Draft, w: World)
      reads ctx.chain, ctx.chain.store
    {
      AppendRefusal(h, ctx.chain.store.rows, ctx.chain.records, ctx.chain.scope, w.now, d, w.boundRequired,
          w.condition).None?
    }

    /** How every evaluation of a known tenant begins. */
    method CiteAndCommit(tenant: string, ctx: Context, pin: Option<string>, at: string, up: nat -> Uptake)
      returns (cited: Option<string>)
      requires Valid() && Serves(ctx)
      modifies this`digestCache, this`lastAnchored, ctx.engine`digestCache, custody
      ensures Valid() && Serves(ctx)
      ensures var s, s' := old(SnapOf(tenant, ctx)), SnapOf(tenant, ctx);
              && cited == Cited(h, s.cache, s.tools, s.rules, ctx.kind, pin)
              && s' == s.(cache := Some(CacheEntry(KeyOf(h, s.tools, s.rules, ctx.kind, pin), cited)),
                          anchored := s'.anchored, queue := s'.queue, taken := s'.taken)
              && CommitStep(h, tenant, custody != null, ctx.kind, pin, up, cited, s, s')
    {
      hide PolicyDigest, RulesDigest, CommitStep, WellStored;
      cited := CitedPolicyDigest(tenant, ctx, pin);
      ghost var mid := SnapOf(tenant, ctx);
      MaybeAnchorPolicyCommit(tenant, ctx, pin, cited, at, up);
      CommitStepFrame(h, tenant, custody != null, ctx.kind, pin, up, cited, mid, SnapOf(tenant, ctx),
                      old(SnapOf(tenant, ctx)), SnapOf(tenant, ctx));
    }

    /** _record: None when the store refuses. */
    method RecordOutcome(ctx: Context, d: Draft, w: World) returns (res: Option<AuditRecord>)
      requires Serves(ctx) && d.commitment == COMMITMENT_NONE && d.tenantId.Some?
      modifies ctx.chain, ctx.chain.store, if ctx.content.Some? then {ctx.content.value} else {}
      ensures Serves(ctx)
      ensures res.Some? <==> old(Writable(ctx, d, w))
      ensures ctx.chain.records == if res.Some? then old(ctx.chain.records) + [res.value] else old(ctx.chain.records)
      ensures res.Some? ==> Records(h, ctx.chain.scope, w.now, res.value, d, old(ctx.chain.records))
    {
      var written := RecordDecision(ctx.content, ctx.chain, w.now, d, w.salt, w.boundRequired, w.condition);
      if written.Err? { return None; }
      return Some(written.value);
    }

    /** Steps 2 to 4 of evaluate_action: the policy's decision. */
    method Judge(tenant: string, ctx: Context, rq: ActionRequest, opa: OpaServer) returns (decision: PolicyResult)
      requires Serves(ctx)
      ensures decision == Decision(tenant, Tools(tenant), dangers, ctx.kind, rx, ctx.engine.rules, rq, opa)
    {
      hide Evaluate, OpaEvaluate, HybridEvaluate, FirstDanger, NotAllowlisted, WellStored;
      var blob := rq.Serialize();
      if rq.tool !in Tools(tenant) {
        return NotAllowlisted(tenant, rq.tool);
      }
      var danger := FindDanger(blob);
      if danger.Some? {
        return Deny(danger.value.name, danger.value.reason);
      }
      var local := ctx.engine.EvaluateContent(blob);
      match ctx.kind
      case RegexKind => return local;
      case OpaKind => return OpaEvaluate(local, opa(None));
      case HybridKind => return HybridEvaluate(local, opa(Some(local)));
    }

    /** evaluate_action. An unknown tenant is denied and nothing changes. Otherwise the decision is the
        policy's, recorded with the policy's digest; an allow that could not be recorded is turned into a
        denial, a denial that could not be recorded stands. */
    method EvaluateAction(tenant: string, known: Option<Context>, pin: Option<string>, rq: ActionRequest,
        client: string,
        trace: Option<string>, w: World)
      returns (decision: PolicyResult, recordHash: Option<string>)
      requires Valid() && (known.Some? ==> Serves(known.value))
      modifies this`digestCache, this`lastAnchored
      modifies if known.Some? then Touched(known.value) + (if custody == null then {} else {custody}) else {}
      ensures Valid() && (known.Some? ==> Serves(known.value))
      ensures known.None? ==>
                && !decision.allowed && decision.action == DENY && recordHash.None?
                && decision.triggeredRule == Some("action_gate_unknown_tenant")
                && digestCache == old(digestCache) && lastAnchored == old(lastAnchored)
      ensures decision.allowed ==>
                && known.Some? && recordHash.Some?
                && var before, after := old(if known.Some? then known.value.chain.records else []),
                                        known.value.chain.records;
                   && |after| == |before| + 1 && before <= after
                   && after[|before|].recordHash == recordHash.value
      ensures known.Some? ==>
                EvaluateStep(h, tenant, custody != null, known.value.kind, pin, w.up,
                             old(DecisionFor(tenant, known.value, rq, w.opa)),
                             old(SnapOf(tenant, known.value)), SnapOf(tenant, known.value))
      ensures known.Some? ==>
                var draft := old(DraftFor(tenant, known.value, pin, rq, client, trace, w.opa));
                Answers(h, known.value.chain.scope, w.now, draft, old(DecisionFor(tenant, known.value, rq, w.opa)),
                        old(Writable(known.value, draft, w)), old(known.value.chain.records), known.value.chain.records,
                        decision, recordHash)
    {
      hide Answers, EvaluateStep, UnknownTenant, Decision, AppendRefusal, PolicyDigest, RulesDigest;
      if known.None? {
        UnknownTenantIs(tenant);
        return UnknownTenant(tenant), None;
      }
      ghost var draft := DraftFor(tenant, known.value, pin, rq, client, trace, w.opa);
      ghost var policy := DecisionFor(tenant, known.value, rq, w.opa);
      ghost var writable, before := Writable(known.value, draft, w), known.value.chain.records;
      decision, recordHash := EvaluateFor(tenant, known.value, pin, rq, client, trace, w);
      if decision.allowed {
        AllowedIsRecorded(h, known.value.chain.scope, w.now, draft, policy, writable, before,
                          known.value.chain.records, decision, recordHash);
      }
    }

    /** The policy's decision. */
    ghost function DecisionFor(tenant: string, ctx: Context, rq: ActionRequest, opa: OpaServer): PolicyResult
      reads this, ctx.engine
    {
      Decision(tenant, Tools(tenant), dangers, ctx.kind, rx, ctx.engine.rules, rq, opa)
    }

    /** The draft an evaluation would record. */
    ghost function DraftFor(tenant: string, ctx: Context, pin: Option<string>, rq: ActionRequest, client: string,
        trace: Option<string>, opa: OpaServer): Draft
      reads this, ctx.engine
    {
      OutcomeDraft(tenant, client, trace,
                   DecisionFor(tenant, ctx, rq, opa), rq.Serialize(),
                   Cited(h, Lookup(digestCache, tenant), Tools(tenant), ctx.engine.rules, ctx.kind, pin))
    }

    /** evaluate_action for a known tenant. */
    method EvaluateFor(tenant: string, ctx: Context, pin: Option<string>, rq: ActionRequest, client: string,
        trace: Option<string>, w: World)
      returns (decision: PolicyResult, recordHash: Option<string>)
      requires Valid() && Serves(ctx)
      modifies this`digestCache, this`lastAnchored, Touched(ctx), custody
      ensures Valid() && Serves(ctx)
      ensures EvaluateStep(h, tenant, custody != null, ctx.kind, pin, w.up, old(DecisionFor(tenant, ctx, rq, w.opa)),
                           old(SnapOf(tenant, ctx)), SnapOf(tenant, ctx))
      ensures var draft := old(DraftFor(tenant, ctx, pin, rq, client, trace, w.opa));
              Answers(h, ctx.chain.scope, w.now, draft, old(DecisionFor(tenant, ctx, rq, w.opa)),
                      old(Writable(ctx, draft, w)), old(ctx.chain.records), ctx.chain.records, decision, recordHash)
    {
      hide PolicyDigest, RulesDigest, RecordHash, CommitStep, Decision, WellStored, Unrecordable, AppendRefusal, Entry,
        Records, KeyOf;
      var blob := rq.Serialize();
      var cited := CiteAndCommit(tenant, ctx, pin, w.at, w.up);
      ghost var s1 := SnapOf(tenant, ctx);
      var policy := Judge(tenant, ctx, rq, w.opa);
      var draft := OutcomeDraft(tenant, client, trace, policy, blob, cited);
      var record := RecordOutcome(ctx, draft, w);
      if record.Some? { RecordsReads(h, ctx.chain.scope, w.now, record.value, draft, old(ctx.chain.records)); }
      CommitStepFrame(h, tenant, custody != null, ctx.kind, pin, w.up, cited, old(SnapOf(tenant, ctx)), s1,
                      old(SnapOf(tenant, ctx)), SnapOf(tenant, ctx));
      decision := if record.None? && policy.allowed then Unrecordable(cited) else policy;
      recordHash := if record.Some? then Some(record.value.recordHash) else None;
    }

    ghost function Touched(ctx: Context): set<object> {
      {ctx.engine, ctx.chain, ctx.chain.store} + if ctx.content.Some? then {ctx.content.value} else {}
    }

    /** The dangerous-command loop: the first row that matches. */
    method FindDanger(blob: string) returns (hit: Option<Danger>)
      ensures hit == FirstDanger(rx, dangers, blob)
    {
      for i := 0 to |dangers|
        invariant FirstDanger(rx, dangers, blob) == FirstDanger(rx, dangers[i..], blob)
      {
        assert dangers[i..][0] == dangers[i] && dangers[i..][1..] == dangers[i + 1..];
        if rx.Search(dangers[i].pattern, blob).Some? { return Some(dangers[i]); }
      }
      return None;
    }

    /** record_reconciliation: the corrective deny cites the policy in force, but nothing is committed. */
    method RecordReconciliation(tenant: string, known: Option<Context>, pin: Option<string>, client: string,
        trace: string,
        rule: string, reason: string, content: string, w: World)
      returns (written: bool)
      requires Valid() && (known.Some? ==> Serves(known.value))
      modifies this`digestCache
      modifies if known.Some? then Touched(known.value) else {}
      ensures Valid() && (known.Some? ==> Serves(known.value))
      ensures known.None? ==> !written && digestCache == old(digestCache)
      ensures known.Some? ==>
                var ctx := known.value;
                var s, s' := old(SnapOf(tenant, ctx)), SnapOf(tenant, ctx);
                var draft := ReconciliationDraft(client, trace, rule, content, reason,
                                                 Cited(h, s.cache, s.tools, s.rules, ctx.kind, pin), Some(tenant));
                && ReconcileStep(h, tenant, ctx.kind, pin, rule, s, s')
                && (written <==> trace != "" && rule != "" && old(Writable(ctx, draft, w)))
                && s'.records == if written then s.records + [Entry(h, ctx.chain.scope, Head(s.records), w.now, draft)]
                                 else s.records
    {
      hide PolicyDigest, RulesDigest, RecordHash, WellStored;
      if known.None? { return false; }
      var ctx := known.value;
      var cited := CitedPolicyDigest(tenant, ctx, pin);
      var res := ctx.chain.AppendReconciliation(w.now, client, trace, rule, content, reason, cited, Some(tenant),
                                                w.boundRequired, w.condition);
      return res.Ok?;
    }
  }

  /** The answer to a request. Recorded exactly when the chain accepts it: then the policy's decision, with the
      hash of the one record that was appended; otherwise a denial, and nothing was appended. */
  predicate Answers(h: Hashing, scope: Option<string>, now: real, d: Draft, policy: PolicyResult, writable: bool,
      before: seq<AuditRecord>, after: seq<AuditRecord>, decision: PolicyResult, recordHash: Option<string>)
  {
    && (recordHash.Some? <==> writable)
    && (!writable ==> after == before && decision == if policy.allowed then Unrecordable(d.policyDigest) else policy)
    && (writable ==>
          && decision == policy && |after| == |before| + 1 && after == before + [after[|before|]]
          && Some(after[|before|].recordHash) == recordHash && Records(h, scope, now, after[|before|], d, before))
  }

  /** No allow without a record. */
  lemma AllowedIsRecorded(h: Hashing, scope: Option<string>, now: real, d: Draft, policy: PolicyResult, writable: bool,
      before: seq<AuditRecord>, after: seq<AuditRecord>, decision: PolicyResult, recordHash: Option<string>)
    requires Answers(h, scope, now, d, policy, writable, before, after, decision, recordHash) && decision.allowed
    ensures recordHash.Some? && |after| == |before| + 1 && before <= after
    ensures after[|before|].recordHash == recordHash.value
  {
    hide Records;
    UnrecordableIs(d.policyDigest);
  }

  lemma UnrecordableIs(cited: Option<string>)
    ensures var d := Unrecordable(cited);
            !d.allowed && d.action == DENY && d.triggeredRule == Some("action_gate_record_unwritable")
  {
  }

  lemma UnknownTenantIs(tenant: string)
    ensures var d := UnknownTenant(tenant);
            !d.allowed && d.action == DENY && d.triggeredRule == Some("action_gate_unknown_tenant")
  {
  }

  /** The answer to a request, field by field. Recorded, it is the policy's own, and its record binds the request's
      text, the client, the trace, the tenant, the citation, and the decision in words. Unrecorded, an allow
      becomes a denial that says so and a denial stands. */
  lemma {:induction false} AnswersRead(h: Hashing, scope: Option<string>, now: real, tenant: string, client: string,
      trace: Option<string>, policy: PolicyResult, rq: ActionRequest, cited: Option<string>, writable: bool,
      before: seq<AuditRecord>, after: seq<AuditRecord>, decision: PolicyResult, recordHash: Option<string>)
    requires Coherent(policy)
    requires Answers(h, scope, now, OutcomeDraft(tenant, client, trace, policy, rq.Serialize(), cited), policy,
                     writable, before, after, decision, recordHash)
    ensures recordHash.Some? <==> writable
    ensures writable ==>
              && decision == policy && |after| == |before| + 1 && before <= after
              && var r := after[|before|];
                 && Some(r.recordHash) == recordHash && r.timestamp == now
                 && r.contentHash == h.OfText(rq.tool + " " + rq.command + " " + rq.args)
                 && r.clientId == client && r.traceId == trace && r.tenantId == Some(tenant) && r.policyDigest == cited
                 && r.reason == policy.reason && r.triggeredRule == policy.triggeredRule
                 && (policy.action == DENY ==> r.action == "deny") && (policy.action == AUDIT ==> r.action == "audit")
                 && (policy.action == ALLOW ==> r.action == "allow")
    ensures !writable ==>
              && after == before && !decision.allowed && decision.action == DENY
              && (policy.action == DENY ==> decision == policy)
              && (policy.action != DENY ==> decision.triggeredRule == Some("action_gate_record_unwritable"))
  {
    UnrecordableIs(cited);
    hide Unrecordable, RecordHash;
    if writable {
      EntryReads(h, scope, Head(before), now,
                 OutcomeDraft(tenant, client, trace, policy, rq.Serialize(), cited).(
                   commitment := after[|before|].commitment));
    }
  }

  /** What a decision is recorded as; the commitment form is the content store's to fill in. */
  function OutcomeDraft(tenant: string, client: string, trace: Option<string>, decision: PolicyResult, blob: string,
      cited: Option<string>): Draft
  {
    Draft(client, decision.action.Text(), decision.reason, blob, decision.triggeredRule, trace, cited, Some(tenant),
          COMMITMENT_NONE)
  }

  /** The record of this draft over these records, in the form the content store holds. */
  predicate Records(h: Hashing, scope: Option<string>, now: real, r: AuditRecord, d: Draft, before: seq<AuditRecord>) {
    r == Entry(h, scope, Head(before), now, d.(commitment := r.commitment))
  }

  lemma RecordsReads(h: Hashing, scope: Option<string>, now: real, r: AuditRecord, d: Draft, before: seq<AuditRecord>)
    requires Records(h, scope, now, r, d, before)
    ensures r.tenantId == (if d.tenantId.Some? then d.tenantId else scope) && r.traceId == d.traceId
    ensures r.policyDigest == d.policyDigest && r.action == d.action && r.triggeredRule == d.triggeredRule
    ensures r.previousHash == Head(before) && RecordHash(h, r, Head(before)) == Some(r.recordHash)
  {
    EntryIsSealed(h, scope, Head(before), now, d.(commitment := r.commitment));
  }

  /** A queued commit is still queued, or no sink refused it. */
  lemma {:induction false} KeptOrTaken(n: nat, queue: seq<QueuedCommit>, up: seq<Uptake>, k: nat)
    requires |up| == |queue| && k < |queue|
    ensures queue[k] in Kept(n, queue, up) || AllUp(n, up[k])
  {
    if k > 0 { KeptOrTaken(n, queue[1..], up[1..], k - 1); }
  }

  lemma {:induction false} KeptWasQueued(n: nat, queue: seq<QueuedCommit>, up: seq<Uptake>, q: QueuedCommit)
    requires |up| == |queue| && q in Kept(n, queue, up)
    ensures q in queue
  {
    if queue != [] && (AllUp(n, up[0]) || q != queue[0]) { KeptWasQueued(n, queue[1..], up[1..], q); }
  }

  /** A queue no sink refuses anything of is left empty. */
  lemma {:induction false} NothingLeft(n: nat, queue: seq<QueuedCommit>, up: seq<Uptake>)
    requires |up| == |queue| && forall k | 0 <= k < |up| :: AllUp(n, up[k])
    ensures Kept(n, queue, up) == []
  {
    if queue != [] { NothingLeft(n, queue[1..], up[1..]); }
  }

  /** What draining does to each commit, and where what is queued afterwards comes from. */
  lemma DrainedEach(h: Hashing, up: nat -> Uptake, queue: seq<QueuedCommit>, s: Snap, s': Snap)
    requires Drained(h, up, queue, s, s')
    ensures forall q | q in queue :: q in s'.queue || CommittedEverywhere(h, s'.taken, q)
    ensures forall q | q in s'.queue :: q in queue
  {
    hide Kept, CommittedEverywhere, OnlyCommitsAdded;
    var offers := Offers(up, |queue|);
    forall q | q in queue ensures q in s'.queue || CommittedEverywhere(h, s'.taken, q) {
      var k :| 0 <= k < |queue| && queue[k] == q;
      KeptOrTaken(|s.taken|, queue, offers, k);
    }
    forall q | q in s'.queue ensures q in queue { KeptWasQueued(|s.taken|, queue, offers, q); }
  }
}
