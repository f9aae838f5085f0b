/** Whole runs of one tenant's gate: tools registered, rules added, actions evaluated, refusals reconciled,
    digests asked for and other records appended in any order, with any sink refusing any offer and other
    tenants committing through the same queue into the same sinks. */
module GateRuns {
  import opened Base
  import opened AuditRecords
  import opened AuditChain
  import opened PolicyEngine
  import opened PolicyCitation
  import opened Anchoring
  import opened Custody
  import opened Gate
  import opened Sinks

  // ---------------------------------------------------------------------------------------------
  // Runs
  // ---------------------------------------------------------------------------------------------

  /** `Citing` is a call of cited_policy_digest, as at every startup. `Noting` is a record that another component
      appends to the tenant's chain: a content decision, a rate limit, a purge, a replay, a startup binding.
      `Draining` is the anchoring thread's. `Others` is whatever other tenants do. */
  datatype Act =
    | Registering(tools: set<string>)
    | AddingRule(rule: PolicyRule)
    | Evaluating(rq: ActionRequest, opa: OpaServer, custody: bool, pin: Option<string>, up: nat -> Uptake)
    | Reconciling(why: string, pin: Option<string>)
    | Citing(pin: Option<string>)
    | Noting(digest: Option<string>, action: string, named: Option<string>)
    | Draining(up: nat -> Uptake)
    | Others

  datatype Site = Site(h: Hashing, tenant: string, kind: EngineKind, rx: Regex, dangers: seq<Danger>)

  /** The bytes queued with a digest hash to it. */
  predicate Honest(h: Hashing, q: QueuedCommit) {
    h.OfText(q.canonical) == q.digest
  }

  /** What else a sink takes: this tenant's head anchors, other tenants' anchors and sound commitments, and
      commits that were queued. */
  ghost predicate LogGrew(h: Hashing, queue: seq<QueuedCommit>, log: seq<LogEntry>, log': seq<LogEntry>) {
    && log <= log'
    && forall i | |log| <= i < |log'| && log'[i].Commit? ::
         CommitOk(h, log'[i].commit) || CommitmentOfSome(h, log'[i].commit, queue)
  }

  /** Other tenants queue honest commits of their own and offer the queue, this tenant's commits with it. */
  ghost predicate OthersStep(h: Hashing, tenant: string, s: Snap, s': Snap) {
    && s' == s.(queue := s'.queue, taken := s'.taken) && |s'.taken| == |s.taken|
    && (forall j | 0 <= j < |s.taken| :: LogGrew(h, s.queue, s.taken[j], s'.taken[j]))
    && (forall q | q in s.queue :: q in s'.queue || CommittedEverywhere(h, s'.taken, q))
    && (forall q | q in s'.queue && q !in s.queue :: q.tenant != tenant && Honest(h, q))
  }

  /** The anchoring thread's drain. */
  ghost predicate DrainStep(h: Hashing, up: nat -> Uptake, s: Snap, s': Snap) {
    s' == s.(queue := s'.queue, taken := s'.taken) && Drained(h, up, s.queue, s, s')
  }

  /** At most one record more, of any action. */
  predicate NoteStep(h: Hashing, tenant: string, digest: Option<string>, action: string, named: Option<string>, s: Snap,
      s': Snap)
  {
    s' == s.(records := s'.records) && RecordStep(h, tenant, digest, action, named, s, s')
  }

  /** What the policy in force decides. */
  function DecisionIn(site: Site, s: Snap, rq: ActionRequest, opa: OpaServer): PolicyResult {
    Decision(site.tenant, s.tools, site.dangers, site.kind, site.rx, s.rules, rq, opa)
  }

  function CitedIn(site: Site, s: Snap, pin: Option<string>): Option<string> {
    Cited(site.h, s.cache, s.tools, s.rules, site.kind, pin)
  }

  ghost predicate Next(site: Site, a: Act, s: Snap, s': Snap) {
    match a
    case Registering(tools) => s' == s.(tools := tools, cache := None)
    case AddingRule(rule) => s' == s.(rules := s.rules + [rule])
    case Evaluating(rq, opa, custody, pin, up) =>
      EvaluateStep(site.h, site.tenant, custody, site.kind, pin, up, DecisionIn(site, s, rq, opa), s, s')
    case Reconciling(rule, pin) => ReconcileStep(site.h, site.tenant, site.kind, pin, rule, s, s')
    case Citing(pin) => CiteStep(site.h, site.kind, pin, s, s')
    case Noting(digest, action, named) => NoteStep(site.h, site.tenant, digest, action, named, s, s')
    case Draining(up) => DrainStep(site.h, up, s, s')
    case Others => OthersStep(site.h, site.tenant, s, s')
  }

  /** `states` passes through `acts`. */
  ghost predicate Trace(site: Site, acts: seq<Act>, states: seq<Snap>) {
    && |states| == |acts| + 1
    && forall i | 0 <= i < |acts| :: Next(site, acts[i], states[i], states[i + 1])
  }

  lemma TraceShorter(site: Site, acts: seq<Act>, states: seq<Snap>)
    requires Trace(site, acts, states) && acts != []
    ensures Trace(site, acts[..|acts| - 1], states[..|acts|])
    ensures Next(site, acts[|acts| - 1], states[|acts| - 1], states[|acts|])
  {
    hide Next;
    var n := |acts| - 1;
    forall i | 0 <= i < n ensures Next(site, acts[..n][i], states[..|acts|][i], states[..|acts|][i + 1]) {
      assert Next(site, acts[i], states[i], states[i + 1]);
    }
  }

  lemma TracePrefix(site: Site, acts: seq<Act>, states: seq<Snap>, n: nat)
    requires Trace(site, acts, states) && n <= |acts|
    ensures Trace(site, acts[..n], states[..n + 1])
  {
    hide Next;
    forall i | 0 <= i < n ensures Next(site, acts[..n][i], states[..n + 1][i], states[..n + 1][i + 1]) {
      assert Next(site, acts[i], states[i], states[i + 1]);
    }
  }

  // ---------------------------------------------------------------------------------------------
  // The cache against recomputation
  // ---------------------------------------------------------------------------------------------

  /** The entry is what these rules would have filled it with. */
  predicate FilledFrom(h: Hashing, e: CacheEntry, rules: seq<PolicyRule>) {
    && e.key == KeyOf(h, e.key.tools, rules, e.key.kind, e.key.pin)
    && e.digest == PolicyDigest(h, e.key.tools, rules, e.key.kind, e.key.pin)
  }

  /** The entry was filled from the rules in force at some earlier moment. */
  ghost predicate CacheOk(site: Site, s: Snap) {
    s.cache.Some? ==>
      && s.cache.value.key.kind == site.kind
      && exists n | 0 <= n <= |s.rules| :: FilledFrom(site.h, s.cache.value, s.rules[..n])
  }

  lemma FillKeepsCacheOk(site: Site, s: Snap, s': Snap, pin: Option<string>)
    requires CacheOk(site, s) && s'.rules == s.rules
    requires s'.cache == Some(CacheEntry(KeyOf(site.h, s.tools, s.rules, site.kind, pin),
                                         Cited(site.h, s.cache, s.tools, s.rules, site.kind, pin)))
    ensures CacheOk(site, s')
  {
    hide PolicyDigest, RulesDigest;
    if s'.cache == s.cache {
    } else {
      assert s.rules[..|s.rules|] == s.rules;
      assert FilledFrom(site.h, s'.cache.value, s'.rules[..|s.rules|]);
    }
  }

  lemma NextKeepsCacheOk(site: Site, a: Act, s: Snap, s': Snap)
    requires CacheOk(site, s) && Next(site, a, s, s')
    ensures CacheOk(site, s')
  {
    hide FilledFrom, CommitStep, RecordStep, LogGrew, Decision, Drained;
    match a
    case Evaluating(_, _, _, pin, _) => FillKeepsCacheOk(site, s, s', pin);
    case Reconciling(_, pin) => FillKeepsCacheOk(site, s, s', pin);
    case Citing(pin) => FillKeepsCacheOk(site, s, s', pin);
    case AddingRule(_) =>
      if s.cache.Some? {
        var n :| 0 <= n <= |s.rules| && FilledFrom(site.h, s.cache.value, s.rules[..n]);
        assert s'.rules[..n] == s.rules[..n];
      }
    case _ =>
  }

  lemma {:induction false} CacheStaysOk(site: Site, acts: seq<Act>, states: seq<Snap>)
    requires Trace(site, acts, states) && CacheOk(site, states[0])
    ensures CacheOk(site, states[|acts|])
    decreases |acts|
  {
    if acts != [] {
      hide Trace, Next, CacheOk;
      TraceShorter(site, acts, states);
      CacheStaysOk(site, acts[..|acts| - 1], states[..|acts|]);
      NextKeepsCacheOk(site, acts[|acts| - 1], states[|acts| - 1], states[|acts|]);
    }
  }

  /** The rules in force and an earlier prefix of them serialize differently and hash alike. */
  ghost predicate PrefixCollides(h: Hashing, rules: seq<PolicyRule>) {
    exists n | 0 <= n <= |rules| :: Collision(h, RulesJson(h, rules[..n]), RulesJson(h, rules))
  }

  lemma RegexDigestReadsTwoValues(h: Hashing, tools: set<string>, rules: seq<PolicyRule>, rules': seq<PolicyRule>,
      pin: Option<string>, pin': Option<string>)
    requires RulesJson(h, rules) == RulesJson(h, rules')
    ensures PolicyDigest(h, tools, rules, RegexKind, pin) == PolicyDigest(h, tools, rules', RegexKind, pin')
  {
  }

  /** With the regex engine, after any mutations, evaluations and reconciliations, the digest the gate
      would cite is the one a fresh computation gives, or an earlier rule set collides with this one. */
  lemma RegexCitationIsFresh(site: Site, acts: seq<Act>, states: seq<Snap>, pin: Option<string>)
    requires site.kind == RegexKind && Trace(site, acts, states) && CacheOk(site, states[0])
    ensures var s := states[|acts|];
            || CitedIn(site, s, pin) == PolicyDigest(site.h, s.tools, s.rules, RegexKind, pin)
            || PrefixCollides(site.h, s.rules)
  {
    CacheStaysOk(site, acts, states);
    CacheHitIsFresh(site, states[|acts|], pin);
  }

  lemma CacheHitIsFresh(site: Site, s: Snap, pin: Option<string>)
    requires site.kind == RegexKind && CacheOk(site, s)
    ensures || CitedIn(site, s, pin) == PolicyDigest(site.h, s.tools, s.rules, RegexKind, pin)
            || PrefixCollides(site.h, s.rules)
  {
    hide PolicyDigest, RulesJson;
    if s.cache.Some? && s.cache.value.key == KeyOf(site.h, s.tools, s.rules, RegexKind, pin) {
      var n :| 0 <= n <= |s.rules| && FilledFrom(site.h, s.cache.value, s.rules[..n]);
      assert RulesDigest(site.h, s.rules[..n]) == RulesDigest(site.h, s.rules);
      if RulesJson(site.h, s.rules[..n]) == RulesJson(site.h, s.rules) {
        RegexDigestReadsTwoValues(site.h, s.tools, s.rules[..n], s.rules, pin, pin);
      } else {
        assert Collision(site.h, RulesJson(site.h, s.rules[..n]), RulesJson(site.h, s.rules));
      }
    }
  }

  lemma FilledIs(h: Hashing, e: CacheEntry, rules: seq<PolicyRule>)
    requires FilledFrom(h, e, rules)
    ensures e.digest == PolicyDigest(h, e.key.tools, rules, e.key.kind, e.key.pin)
  {
  }

  /** Over any run a gate cites no digest exactly when its engine is not the regex engine and the pin is absent or
      empty, cached or not. */
  lemma {:induction false} GateCitesNothingIff(site: Site, acts: seq<Act>, states: seq<Snap>, pin: Option<string>)
    requires Trace(site, acts, states) && CacheOk(site, states[0])
    ensures CitedIn(site, states[|acts|], pin).None? <==> site.kind != RegexKind && pin.GetOr("") == ""
  {
    hide Next, FilledFrom, PolicyDigest;
    CacheStaysOk(site, acts, states);
    var s := states[|acts|];
    CitesNothingIff(site.h, s.tools, s.rules, site.kind, pin);
    if s.cache.Some? && s.cache.value.key == KeyOf(site.h, s.tools, s.rules, site.kind, pin) {
      var n :| 0 <= n <= |s.rules| && FilledFrom(site.h, s.cache.value, s.rules[..n]);
      FilledIs(site.h, s.cache.value, s.rules[..n]);
      CitesNothingIff(site.h, s.tools, s.rules[..n], site.kind, pin);
    }
  }

  /** The OPA and hybrid engines have no rules digest in the key. With a pin, an entry filled from the
      first n rules is still cited after more are added, and it is the digest of the policy in force
      exactly when none were, unless the two canonical policies collide. */
  lemma PinnedCitationGoesStale(site: Site, s: Snap, pin: Option<string>, n: nat)
    requires site.kind != RegexKind && Truthy(pin) && n <= |s.rules|
    requires s.cache == Some(CacheEntry(KeyOf(site.h, s.tools, s.rules[..n], site.kind, pin),
                                        PolicyDigest(site.h, s.tools, s.rules[..n], site.kind, pin)))
    ensures CitedIn(site, s, pin) == PolicyDigest(site.h, s.tools, s.rules[..n], site.kind, pin)
    ensures CitedIn(site, s, pin) == PolicyDigest(site.h, s.tools, s.rules, site.kind, pin) <==>
            n == |s.rules| || Collision(site.h, CitationJson(site.h, s.tools, s.rules[..n], site.kind, pin),
                                        CitationJson(site.h, s.tools, s.rules, site.kind, pin))
  {
    hide CitationJson, RulesDigest;
    FewerRulesDiffer(site.h, s.tools, s.rules, n, site.kind, pin);
    assert s.rules[..|s.rules|] == s.rules;
  }

  lemma FewerRulesDiffer(h: Hashing, tools: set<string>, rules: seq<PolicyRule>, n: nat, kind: EngineKind,
      pin: Option<string>)
    requires n <= |rules|
    ensures CitationJson(h, tools, rules[..n], kind, pin) == CitationJson(h, tools, rules, kind, pin) <==> n == |rules|
  {
    CitationCanonical(h, tools, rules[..n], kind, pin, tools, rules, kind, pin);
    assert |multiset(RuleTexts(h, rules[..n]))| == n && |multiset(RuleTexts(h, rules))| == |rules|;
    assert n == |rules| ==> rules[..n] == rules;
  }

  // ---------------------------------------------------------------------------------------------
  // What a digest says about behaviour
  // ---------------------------------------------------------------------------------------------

  /** A policy set as two tenants may hold it. */
  datatype Policy = Policy(tools: set<string>, rules: seq<PolicyRule>, kind: EngineKind, pin: Option<string>)

  function DigestOf(h: Hashing, p: Policy): Option<string> {
    PolicyDigest(h, p.tools, p.rules, p.kind, p.pin)
  }

  function CanonicalOf(h: Hashing, p: Policy): Json {
    CitationJson(h, p.tools, p.rules, p.kind, p.pin)
  }

  function DecisionUnder(tenant: string, dangers: seq<Danger>, rx: Regex, p: Policy, rq: ActionRequest,
      opa: OpaServer): PolicyResult
  {
    Decision(tenant, p.tools, dangers, p.kind, rx, p.rules, rq, opa)
  }

  ghost predicate AlikeUnderEveryServer(dangers: seq<Danger>, rx: Regex, tenant: string, p: Policy, tenant': string,
      p': Policy, rq: ActionRequest)
  {
    forall opa: OpaServer ::
      DecisionUnder(tenant, dangers, rx, p, rq, opa).action == DecisionUnder(tenant', dangers, rx, p', rq, opa).action
  }

  /** The request reaches a hybrid engine, its rules flag it, and the two rule lists name different first
      flags: the one case in which rule order is heard by OPA. */
  predicate FlaggedDifferently(dangers: seq<Danger>, rx: Regex, p: Policy, p': Policy, rq: ActionRequest) {
    && p.kind == HybridKind && ReachesEngine(p.tools, dangers, rx, rq)
    && Evaluate(rx, p.rules, rq.Serialize()).action == AUDIT
    && Evaluate(rx, p.rules, rq.Serialize()) != Evaluate(rx, p'.rules, rq.Serialize())
  }

  /** Two tenants whose policies have one digest take the same action on a request under every OPA policy
      exactly unless a hybrid engine flags it under different first rules, or the two canonical policies
      collide, or two different rules share a text. With the regex engine and in OPA mode they always
      take the same action. */
  lemma {:induction false} SameDigestSameAction(h: Hashing, rx: Regex, dangers: seq<Danger>, tenant: string, p: Policy,
      tenant': string, p': Policy, rq: ActionRequest)
    requires DigestOf(h, p).Some? && DigestOf(h, p) == DigestOf(h, p')
    ensures || Collision(h, CanonicalOf(h, p), CanonicalOf(h, p'))
            || RuleClash(h, p.rules, p'.rules) || RuleClash(h, p'.rules, p.rules)
            || (AlikeUnderEveryServer(dangers, rx, tenant, p, tenant', p', rq) <==>
                !FlaggedDifferently(dangers, rx, p, p', rq))
  {
    hide CitationJson, PolicyDigest, RuleClash, AlikeUnderEveryServer, FlaggedDifferently;
    DigestDeterminesPolicy(h, p.tools, p.rules, p.kind, p.pin, p'.tools, p'.rules, p'.kind, p'.pin);
    if p.tools == p'.tools && p.kind == p'.kind && forall r :: r in p.rules <==> r in p'.rules {
      SameRulesSameAction(rx, dangers, tenant, p, tenant', p', rq);
    }
  }

  lemma SameRulesSameAction(rx: Regex, dangers: seq<Danger>, tenant: string, p: Policy, tenant': string, p': Policy,
      rq: ActionRequest)
    requires p.tools == p'.tools && p.kind == p'.kind && forall r :: r in p.rules <==> r in p'.rules
    ensures AlikeUnderEveryServer(dangers, rx, tenant, p, tenant', p', rq) <==>
            !FlaggedDifferently(dangers, rx, p, p', rq)
  {
    hide Evaluate, OpaEvaluate, HybridEvaluate, FirstDanger, NotAllowlisted;
    var blob := rq.Serialize();
    var a, b := Evaluate(rx, p.rules, blob), Evaluate(rx, p'.rules, blob);
    OrderIrrelevant(rx, p.rules, p'.rules, blob);
    EvaluateIsMeet(rx, p.rules, blob);
    EvaluateIsMeet(rx, p'.rules, blob);
    NotAllowlistedIs(tenant, rq.tool);
    NotAllowlistedIs(tenant', rq.tool);
    if FlaggedDifferently(dangers, rx, p, p', rq) {
      var opa := OnlyFor(a);
      HybridIsMeet(a, opa(Some(a)));
      HybridIsMeet(b, opa(Some(b)));
      assert DecisionUnder(tenant, dangers, rx, p, rq, opa).action !=
             DecisionUnder(tenant', dangers, rx, p', rq, opa).action;
    } else {
      AllowsAlike(rx, p.rules, p'.rules, blob);
      forall opa: OpaServer
        ensures DecisionUnder(tenant, dangers, rx, p, rq, opa).action ==
                DecisionUnder(tenant', dangers, rx, p', rq, opa).action
      {
        OpaIsMeet(a, opa(None));
        OpaIsMeet(b, opa(None));
        HybridIsMeet(a, opa(Some(a)));
        HybridIsMeet(b, opa(Some(b)));
      }
    }
  }

  lemma AllowsAlike(rx: Regex, rules: seq<PolicyRule>, rules': seq<PolicyRule>, blob: string)
    ensures Evaluate(rx, rules, blob).action == ALLOW && Evaluate(rx, rules', blob).action == ALLOW ==>
              Evaluate(rx, rules, blob) == Evaluate(rx, rules', blob)
  {
  }

  /** Two AUDIT rules that both hit, in either order, have one digest; an OPA policy that authorizes only
      the first flag it heard of tells the two orders apart. */
  lemma {:induction false} OrderIsHeard(h: Hashing, rx: Regex, dangers: seq<Danger>, tenant: string, tools: set<string>,
      pin: Option<string>,
      r: PolicyRule, r': PolicyRule, rq: ActionRequest)
    requires r.action == AUDIT && r'.action == AUDIT && r.name != r'.name && ReachesEngine(tools, dangers, rx, rq)
    requires Hits(rx, r, rq.Serialize()) && Hits(rx, r', rq.Serialize())
    ensures var p, p' := Policy(tools, [r, r'], HybridKind, pin), Policy(tools, [r', r], HybridKind, pin);
            && DigestOf(h, p) == DigestOf(h, p')
            && !AlikeUnderEveryServer(dangers, rx, tenant, p, tenant, p', rq)
  {
    hide FirstDanger, Hits, CitationJson, NotAllowlisted;
    var p, p' := Policy(tools, [r, r'], HybridKind, pin), Policy(tools, [r', r], HybridKind, pin);
    TwoTexts(h, r, r');
    CitationCanonical(h, tools, [r, r'], HybridKind, pin, tools, [r', r], HybridKind, pin);
    FirstFlag(rx, r, r', rq.Serialize());
    FirstFlag(rx, r', r, rq.Serialize());
    hide Evaluate;
    assert FlaggedDifferently(dangers, rx, p, p', rq);
    SameRulesSameAction(rx, dangers, tenant, p, tenant, p', rq);
  }

  lemma TwoTexts(h: Hashing, r: PolicyRule, r': PolicyRule)
    ensures SameRuleTexts(h, [r, r'], [r', r])
  {
    assert RuleTexts(h, [r, r']) == [RuleText(h, r), RuleText(h, r')];
    assert RuleTexts(h, [r', r]) == [RuleText(h, r'), RuleText(h, r)];
  }

  lemma FirstFlag(rx: Regex, r: PolicyRule, r': PolicyRule, blob: string)
    requires r.action == AUDIT && r'.action == AUDIT && Hits(rx, r, blob)
    ensures Evaluate(rx, [r, r'], blob).action == AUDIT && Evaluate(rx, [r, r'], blob).triggeredRule == Some(r.name)
  {
    hide Hits;
    assert [r, r'][1..] == [r'] && [r'][1..] == [];
    assert FirstHit(rx, [r'], blob, DENY) == None;
    assert FirstHit(rx, [r, r'], blob, DENY) == None && FirstHit(rx, [r, r'], blob, AUDIT) == Some(r);
  }

  // ---------------------------------------------------------------------------------------------
  // What each record says
  // ---------------------------------------------------------------------------------------------

  lemma NextKeepsRecords(site: Site, a: Act, s: Snap, s': Snap)
    requires Next(site, a, s, s')
    ensures s.records <= s'.records
  {
    hide Cited, KeyOf, CommitStep, Decision, LogGrew, RecordHash, Drained;
  }

  lemma {:induction false} RecordsStay(site: Site, acts: seq<Act>, states: seq<Snap>, i: nat)
    requires Trace(site, acts, states) && i <= |acts|
    ensures states[i].records <= states[|acts|].records
    decreases |acts|
  {
    if i < |acts| {
      hide Next;
      TraceShorter(site, acts, states);
      RecordsStay(site, acts[..|acts| - 1], states[..|acts|], i);
      NextKeepsRecords(site, acts[|acts| - 1], states[|acts| - 1], states[|acts|]);
    }
  }

  /** Over any run with the regex engine, whatever record an evaluation appended is still in its place at the
      end, states the decision and the rule of the policy that was in force, and cites the digest of that
      very policy, or an earlier rule list collides with that policy's. */
  lemma {:induction false} EveryRecordIsItsPolicysDecision(site: Site, acts: seq<Act>, states: seq<Snap>, i: nat)
    requires site.kind == RegexKind && Trace(site, acts, states) && CacheOk(site, states[0])
    requires i < |acts| && acts[i].Evaluating? && states[i + 1].records != states[i].records
    ensures |states[i].records| < |states[|acts|].records|
    ensures var s := states[i];
            var r := states[|acts|].records[|s.records|];
            var decision := DecisionIn(site, s, acts[i].rq, acts[i].opa);
            && r.action == decision.action.Text() && r.triggeredRule == decision.triggeredRule
            && (|| r.policyDigest == PolicyDigest(site.h, s.tools, s.rules, RegexKind, acts[i].pin)
                || PrefixCollides(site.h, s.rules))
  {
    hide CacheOk, PrefixCollides, KeyOf, CommitStep, Decision, PolicyDigest, RecordHash;
    RecordsStay(site, acts, states, i + 1);
    TracePrefix(site, acts, states, i);
    CacheStaysOk(site, acts[..i], states[..i + 1]);
    CacheHitIsFresh(site, states[i], acts[i].pin);
    assert Next(site, acts[i], states[i], states[i + 1]);
    assert states[|acts|].records[|states[i].records|] == states[i + 1].records[|states[i].records|];
  }

  // ---------------------------------------------------------------------------------------------
  // The steps are the methods' contracts
  // ---------------------------------------------------------------------------------------------

  /** What AnchorManager.DrainPolicyCommits promises is a Draining. */
  lemma DrainPolicyCommitsIsDraining(h: Hashing, up: nat -> Uptake, s: Snap, queue: seq<QueuedCommit>,
      taken: seq<seq<LogEntry>>)
    requires |taken| == |s.taken|
    requires var offers := Offers(up, |s.queue|);
             && queue == Kept(|s.taken|, s.queue, offers)
             && (forall k | 0 <= k < |offers| && AllUp(|s.taken|, offers[k]) ::
                   CommittedEverywhere(h, taken, s.queue[k]))
             && forall j | 0 <= j < |s.taken| :: OnlyCommitsAdded(h, s.taken[j], taken[j], s.queue)
    ensures DrainStep(h, up, s, s.(queue := queue, taken := taken))
  {
    hide Kept, CommittedEverywhere, OnlyCommitsAdded, AllUp;
    var offers := Offers(up, |s.queue|);
    forall k | 0 <= k < |s.queue| && AllUp(|s.taken|, up(k)) ensures CommittedEverywhere(h, taken, s.queue[k]) {
      assert offers[k] == up(k);
    }
  }

  /** Another tenant's evaluation, as far as the queue and the sinks go, is one of the Others, if what it commits
      is honest. */
  lemma OtherTenantsCommitIsOthers(h: Hashing, tenant: string, other: string, kind: EngineKind, pin: Option<string>,
      up: nat -> Uptake, digest: Option<string>, theirs: Snap, theirs': Snap, s: Snap)
    requires other != tenant && theirs.queue == s.queue && theirs.taken == s.taken
    requires CommitStep(h, other, true, kind, pin, up, digest, theirs, theirs')
    requires digest.Some? ==> Honest(h, Needed(h, other, theirs, kind, pin, digest.value))
    ensures OthersStep(h, tenant, s, s.(queue := theirs'.queue, taken := theirs'.taken))
  {
    hide Kept, CommittedEverywhere, CommitHash, CitationBytes;
    if digest.Some? && theirs.anchored != digest {
      var q := Needed(h, other, theirs, kind, pin, digest.value);
      var queue := s.queue + [q];
      DrainedEach(h, up, queue, theirs, theirs');
      forall j | 0 <= j < |s.taken| ensures LogGrew(h, s.queue, s.taken[j], theirs'.taken[j]) {
        OneHonestMore(h, s.queue, q, s.taken[j], theirs'.taken[j]);
      }
      assert forall x | x in s.queue :: x in queue;
    }
  }

  lemma OneHonestMore(h: Hashing, queue: seq<QueuedCommit>, q: QueuedCommit, log: seq<LogEntry>, log': seq<LogEntry>)
    requires Honest(h, q) && OnlyCommitsAdded(h, log, log', queue + [q])
    ensures LogGrew(h, queue, log, log')
  {
    hide CommitHash;
    forall i | |log| <= i < |log'| && log'[i].Commit?
      ensures CommitOk(h, log'[i].commit) || CommitmentOfSome(h, log'[i].commit, queue)
    {
      var c := log'[i].commit;
      assert CommitmentOfSome(h, c, queue + [q]);
      var k :| 0 <= k < |queue + [q]| && CommitmentOf(h, c, (queue + [q])[k]);
      if k < |queue| { assert CommitmentOf(h, c, queue[k]); }
    }
  }

  /** So is a head anchor, of whatever tenant. */
  lemma HeadAnchorIsOthers(h: Hashing, tenant: string, kinds: seq<SinkKind>, s: Snap, taken: seq<seq<LogEntry>>,
      a: Anchor, up: Uptake)
    requires |kinds| == |s.taken| && Offered(kinds, s.taken, taken, HeadAnchor(a), up)
    ensures OthersStep(h, tenant, s, s.(taken := taken))
  {
    forall j | 0 <= j < |s.taken| ensures LogGrew(h, s.queue, s.taken[j], taken[j]) {
      if Took(kinds[j], up, j) { assert taken[j] == s.taken[j] + [HeadAnchor(a)]; }
    }
  }
}
