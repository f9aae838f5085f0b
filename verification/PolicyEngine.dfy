/** custos/policy_engine.py, custos/opa_engine.py and custos/hybrid_engine.py: what each engine
    decides about one piece of content. */
module PolicyEngine {
  import opened Base
  import Luhn

  datatype PolicyAction = ALLOW | DENY | AUDIT {
    /** The enum's value, as records carry it. */
    function Text(): string {
      match this case ALLOW => "allow" case DENY => "deny" case AUDIT => "audit"
    }
  }

  datatype PolicyRule = PolicyRule(name: string, pattern: string, action: PolicyAction, reason: string)

  datatype PolicyResult = PolicyResult(
    allowed: bool, action: PolicyAction, triggeredRule: Option<string>, reason: string)

  /** DENY < AUDIT < ALLOW; combining two opinions keeps the stricter one. */
  function Meet(a: PolicyAction, b: PolicyAction): PolicyAction {
    if a == DENY || b == DENY then DENY else if a == AUDIT || b == AUDIT then AUDIT else ALLOW
  }

  predicate AtLeastAsStrict(a: PolicyAction, b: PolicyAction) {
    Meet(a, b) == a
  }

  // ---------------------------------------------------------------------------------------------
  // Regex engine
  // ---------------------------------------------------------------------------------------------

  /** `re.search(pattern, content)`: the first match's text, if any. */
  datatype Regex = Regex(search: (string, string) -> Option<string>) {
    function Search(pattern: string, content: string): Option<string> {
      search(pattern, content)
    }
  }

  const LUHN_RULE := "block_pii_credit_card"

  function DigitsOnly(s: string): seq<Luhn.Digit> {
    if s == [] then []
    else if '0' <= s[0] <= '9' then [s[0] as int - '0' as int] + DigitsOnly(s[1..])
    else DigitsOnly(s[1..])
  }

  /** A rule hits when its pattern matches and, for card numbers, the matched digits pass Luhn. */
  predicate Hits(rx: Regex, rule: PolicyRule, content: string) {
    var match_ := rx.Search(rule.pattern, content);
    match_.Some? && (rule.name == LUHN_RULE ==> Luhn.Accepts(DigitsOnly(match_.value)))
  }

  /** The digits of a match, in order. */
  lemma {:induction false} DigitsOnlyReads(s: string, c: char)
    ensures DigitsOnly("") == []
    ensures DigitsOnly(s + [c]) == DigitsOnly(s) + if '0' <= c <= '9' then [c as int - 48] else []
  {
    if s == "" {
      assert s + [c] == [c] && [c][1..] == "";
    } else {
      DigitsOnlyReads(s[1..], c);
      assert (s + [c])[1..] == s[1..] + [c];
    }
  }

  /** A rule hits when its pattern is found; the card-number rule, and only that, also when the digits found are 13 to
      19 and carry their check digit. */
  lemma HitsReads(rx: Regex, rule: PolicyRule, content: string)
    ensures rx.search(rule.pattern, content).None? ==> !Hits(rx, rule, content)
    ensures rx.search(rule.pattern, content).Some? && rule.name != "block_pii_credit_card" ==> Hits(rx, rule, content)
    ensures rx.search(rule.pattern, content).Some? && rule.name == "block_pii_credit_card" ==>
              (Hits(rx, rule, content) <==> Luhn.Accepts(DigitsOnly(rx.search(rule.pattern, content).value)))
  {
  }

  function FirstHit(rx: Regex, rules: seq<PolicyRule>, content: string, action: PolicyAction): Option<PolicyRule> {
    if rules == [] then None
    else if rules[0].action == action && Hits(rx, rules[0], content) then Some(rules[0])
    else FirstHit(rx, rules[1..], content, action)
  }

  /** First DENY hit, else first AUDIT hit, else ALLOW. */
  function Evaluate(rx: Regex, rules: seq<PolicyRule>, content: string): PolicyResult {
    var deny := FirstHit(rx, rules, content, DENY);
    var audit := FirstHit(rx, rules, content, AUDIT);
    if deny.Some? then PolicyResult(false, DENY, Some(deny.value.name), deny.value.reason)
    else if audit.Some? then PolicyResult(true, AUDIT, Some(audit.value.name), audit.value.reason)
    else PolicyResult(true, ALLOW, None, "No policy violations detected")
  }

  /** The stricter-wins combination of every rule that hits. */
  function MeetOfHits(rx: Regex, rules: seq<PolicyRule>, content: string): PolicyAction {
    if rules == [] then ALLOW
    else Meet(if Hits(rx, rules[0], content) then rules[0].action else ALLOW, MeetOfHits(rx, rules[1..], content))
  }

  lemma {:induction false} FirstHitExists(rx: Regex, rules: seq<PolicyRule>, content: string, action: PolicyAction)
    ensures var hit := FirstHit(rx, rules, content, action);
            && (hit.Some? <==> exists r | r in rules :: r.action == action && Hits(rx, r, content))
            && (hit.Some? ==> hit.value in rules && hit.value.action == action && Hits(rx, hit.value, content))
  {
    if rules != [] {
      assert rules == [rules[0]] + rules[1..];
      FirstHitExists(rx, rules[1..], content, action);
    }
  }

  lemma {:induction false} MeetOfHitsIs(rx: Regex, rules: seq<PolicyRule>, content: string)
    ensures MeetOfHits(rx, rules, content) == DENY <==>
            exists r | r in rules :: r.action == DENY && Hits(rx, r, content)
    ensures MeetOfHits(rx, rules, content) != ALLOW <==>
            exists r | r in rules :: r.action != ALLOW && Hits(rx, r, content)
  {
    if rules != [] {
      assert rules == [rules[0]] + rules[1..];
      MeetOfHitsIs(rx, rules[1..], content);
    }
  }

  /** The regex engine decides the meet of the rules that hit, and names a rule of that action that
      did hit whenever it restricts. */
  lemma {:induction false} EvaluateIsMeet(rx: Regex, rules: seq<PolicyRule>, content: string)
    ensures var result := Evaluate(rx, rules, content);
            && result.action == MeetOfHits(rx, rules, content)
            && (result.allowed <==> result.action != DENY)
            && (result.action == ALLOW <==> result.triggeredRule.None?)
            && (result.action != ALLOW ==> exists r | r in rules ::
                  Hits(rx, r, content) && r.action == result.action && result.triggeredRule == Some(r.name)
                  && result.reason == r.reason)
  {
    FirstHitExists(rx, rules, content, DENY);
    FirstHitExists(rx, rules, content, AUDIT);
    MeetOfHitsIs(rx, rules, content);
  }

  /** The rule named is the first DENY rule that hits, or, where none does, the first AUDIT rule that does. */
  lemma {:induction false} EvaluateNamesFirst(rx: Regex, rules: seq<PolicyRule>, content: string, i: nat)
    requires i < |rules| && rules[i].action != ALLOW && Hits(rx, rules[i], content)
    requires forall k | 0 <= k < i :: rules[k].action == rules[i].action ==> !Hits(rx, rules[k], content)
    requires rules[i].action == AUDIT ==> forall r | r in rules && r.action == DENY :: !Hits(rx, r, content)
    ensures Evaluate(rx, rules, content) ==
            PolicyResult(rules[i].action == AUDIT, rules[i].action, Some(rules[i].name), rules[i].reason)
  {
    hide Hits;
    FirstHitIsFirst(rx, rules, content, rules[i].action, i);
    FirstHitExists(rx, rules, content, DENY);
  }

  lemma {:induction false} FirstHitIsFirst(rx: Regex, rules: seq<PolicyRule>, content: string, action: PolicyAction,
      i: nat)
    requires i < |rules| && rules[i].action == action && Hits(rx, rules[i], content)
    requires forall k | 0 <= k < i :: rules[k].action == action ==> !Hits(rx, rules[k], content)
    ensures FirstHit(rx, rules, content, action) == Some(rules[i])
  {
    hide Hits;
    if i > 0 { FirstHitIsFirst(rx, rules[1..], content, action, i - 1); }
  }

  lemma NoHitReads(rx: Regex, rules: seq<PolicyRule>, content: string)
    requires forall r | r in rules && r.action != ALLOW :: !Hits(rx, r, content)
    ensures Evaluate(rx, rules, content) == PolicyResult(true, ALLOW, None, "No policy violations detected")
  {
    hide Hits;
    FirstHitExists(rx, rules, content, DENY);
    FirstHitExists(rx, rules, content, AUDIT);
  }

  /** The action depends only on which rules are in force, not on their order or multiplicity. */
  lemma OrderIrrelevant(rx: Regex, rules: seq<PolicyRule>, rules': seq<PolicyRule>, content: string)
    requires forall r :: r in rules <==> r in rules'
    ensures Evaluate(rx, rules, content).action == Evaluate(rx, rules', content).action
  {
    EvaluateIsMeet(rx, rules, content);
    EvaluateIsMeet(rx, rules', content);
    MeetOfHitsIs(rx, rules, content);
    MeetOfHitsIs(rx, rules', content);
  }

  /** Appending a rule never loosens the regex engine's decision. */
  lemma AddedRuleTightens(rx: Regex, rules: seq<PolicyRule>, added: PolicyRule, content: string)
    ensures Evaluate(rx, rules + [added], content).action ==
            Meet(Evaluate(rx, rules, content).action, if Hits(rx, added, content) then added.action else ALLOW)
  {
    EvaluateIsMeet(rx, rules, content);
    EvaluateIsMeet(rx, rules + [added], content);
    MeetOfHitsIs(rx, rules, content);
    MeetOfHitsIs(rx, rules + [added], content);
    var all := rules + [added];
    assert added in all;
    assert forall r | r in rules :: r in all;
    assert forall r | r in all :: r in rules || r == added;
  }

  // ---------------------------------------------------------------------------------------------
  // OPA and hybrid engines
  // ---------------------------------------------------------------------------------------------

  /** The `result` member of an OPA response. A missing member is Null, a missing list is []. */
  datatype OpaResult =
    | ObjectResult(allow: Json, deny: seq<string>, denyMessages: seq<string>, triggered: Option<string>, audit: Json)
    | BoolResult(value: bool)
    | OtherResult

  /** What the HTTP exchange with OPA came to. */
  datatype OpaAnswer =
    | Unavailable(error: string)
    | Answered(result: OpaResult, deny: seq<string>, triggered: Option<string>)

  predicate JsonTruthy(j: Json) {
    match j
    case Null => false
    case Bool(b) => b
    case Str(s) => s != ""
    case Int(n) => n != 0
    case Real(x) => x != 0.0
    case Arr(items) => items != []
    case Obj(fields) => fields != map[]
  }

  function Join(parts: seq<string>, otherwise: string): string {
    if parts == [] then otherwise else Concat(parts)
  }

  /** `"; ".join(parts)`. */
  function Concat(parts: seq<string>): string
    requires parts != []
  {
    if |parts| == 1 then parts[0] else parts[0] + "; " + Concat(parts[1..])
  }

  /** `o or default`. */
  function Or(o: Option<string>, default: string): Option<string> {
    if Truthy(o) then o else Some(default)
  }

  function DenyReasons(a: OpaAnswer): seq<string>
    requires a.Answered?
  {
    match a.result
    case ObjectResult(_, deny, messages, _, _) => if deny != [] then deny else messages
    case BoolResult(_) => a.deny
    case OtherResult => ["OPA returned unexpected response format"]
  }

  function TriggeredBy(a: OpaAnswer): Option<string>
    requires a.Answered?
  {
    match a.result
    case ObjectResult(_, _, _, triggered, _) => triggered
    case BoolResult(_) => a.triggered
    case OtherResult => Some("opa_parse_error")
  }

  predicate AuditFlag(a: OpaAnswer)
    requires a.Answered?
  {
    a.result.ObjectResult? && a.result.audit == Bool(true)
  }

  /** Only a literal true authorizes. */
  predicate StrictAllow(a: OpaAnswer)
    requires a.Answered?
  {
    match a.result
    case ObjectResult(allow, _, _, _, _) => allow == Bool(true)
    case BoolResult(b) => b
    case OtherResult => false
  }

  /** Any truthy `allow` authorizes. */
  predicate LooseAllow(a: OpaAnswer)
    requires a.Answered?
  {
    match a.result
    case ObjectResult(allow, _, _, _, _) => JsonTruthy(allow)
    case BoolResult(b) => b
    case OtherResult => false
  }

  /** OPAPolicyEngine.evaluate, given its local rules' result. */
  function OpaEvaluate(custom: PolicyResult, a: OpaAnswer): PolicyResult {
    if custom.action == DENY then custom
    else if a.Unavailable? then
      PolicyResult(false, DENY, Some("opa_unavailable"), "OPA policy server unavailable — failing closed: " + a.error)
    else
      var reasons := DenyReasons(a);
      if !StrictAllow(a) then
        var reason := Join(reasons, "Denied by OPA policy");
        PolicyResult(false, DENY, Or(TriggeredBy(a), "opa_deny"),
                     if AuditFlag(a) then reason + " (audit flag also set)" else reason)
      else if AuditFlag(a) then
        PolicyResult(true, AUDIT, Or(TriggeredBy(a), "opa_audit"), Join(reasons, "Flagged for audit by OPA"))
      else if custom.action == AUDIT then
        PolicyResult(true, AUDIT, custom.triggeredRule,
                     "Custom rule '" + custom.triggeredRule.GetOr("None") + "' flagged for audit: " + custom.reason)
      else
        PolicyResult(true, ALLOW, TriggeredBy(a), "Allowed by OPA policy")
  }

  /** OPAPolicyEngine.evaluate_with_metadata. */
  function OpaEvaluateWithMetadata(custom: PolicyResult, a: OpaAnswer): PolicyResult {
    if custom.action == DENY then custom
    else if a.Unavailable? then
      PolicyResult(false, DENY, Some("opa_unavailable"), "OPA policy server unavailable — failing closed: " + a.error)
    else
      if !StrictAllow(a) then
        var reason := Join(DenyReasons(a), "Denied by OPA policy");
        PolicyResult(false, DENY, Or(TriggeredBy(a), "opa_deny"),
                     if AuditFlag(a) then reason + " (audit flag also set)" else reason)
      else if custom.action == AUDIT then
        PolicyResult(true, AUDIT, custom.triggeredRule,
                     "Custom rule '" + custom.triggeredRule.GetOr("None") + "' flagged for audit: " + custom.reason)
      else
        PolicyResult(true, ALLOW, TriggeredBy(a), "Allowed by OPA policy")
  }

  /** HybridPolicyEngine.evaluate, given the regex engine's result. */
  function HybridEvaluate(regex: PolicyResult, a: OpaAnswer): PolicyResult {
    if !regex.allowed then regex
    else if a.Unavailable? || a.result.OtherResult? then regex
    else if regex.action == AUDIT && LooseAllow(a) then regex
    else if LooseAllow(a) && AuditFlag(a) then
      PolicyResult(true, AUDIT, Or(TriggeredBy(a), "opa_audit"), Join(DenyReasons(a), "Flagged for audit by OPA"))
    else if !LooseAllow(a) then
      PolicyResult(false, DENY, Or(TriggeredBy(a), "opa_deny"), Join(DenyReasons(a), "Denied by OPA policy"))
    else
      PolicyResult(true, ALLOW, if Truthy(TriggeredBy(a)) then TriggeredBy(a) else regex.triggeredRule,
                   "Allowed by regex + OPA")
  }

  /** OPA's own opinion, where `silence` is what no answer or an unreadable one counts as. */
  function Opinion(a: OpaAnswer, authorized: bool, silence: PolicyAction): PolicyAction {
    if a.Unavailable? || a.result.OtherResult? then silence
    else if !authorized then DENY
    else if AuditFlag(a) then AUDIT
    else ALLOW
  }

  predicate Coherent(r: PolicyResult) {
    r.allowed <==> r.action != DENY
  }

  /** What each part of an answer means. OPA mode and the bare boolean authorize on the literal true alone; hybrid mode
      on anything Python holds true. Only the literal true in `audit` flags. */
  lemma AnswerReads(a: OpaAnswer)
    requires a.Answered?
    ensures StrictAllow(a) <==>
            a.result == BoolResult(true) || (a.result.ObjectResult? && a.result.allow == Bool(true))
    ensures LooseAllow(a) <==>
            || a.result == BoolResult(true)
            || (a.result.ObjectResult? && a.result.allow !in {Null, Bool(false), Str(""), Int(0), Real(0.0), Arr([]),
                                                              Obj(map[])})
    ensures AuditFlag(a) <==> a.result.ObjectResult? && a.result.audit == Bool(true)
  {
  }

  /** OPA mode is the meet of the local rules and OPA, with silence counted as DENY. A local DENY is
      returned as it stands; every other restriction names its cause. */
  lemma OpaIsMeet(custom: PolicyResult, a: OpaAnswer)
    requires Coherent(custom)
    ensures var r := OpaEvaluate(custom, a);
            && r.action == Meet(custom.action, Opinion(a, a.Answered? && StrictAllow(a), DENY))
            && Coherent(r)
            && (custom.action == DENY ==> r == custom)
            && (custom.action != DENY && a.Unavailable? ==> r.triggeredRule == Some("opa_unavailable"))
            && (r.action != ALLOW && Opinion(a, a.Answered? && StrictAllow(a), DENY) == ALLOW ==>
                  r.triggeredRule == custom.triggeredRule)
            && (custom.action == ALLOW && r.action != ALLOW ==> Truthy(r.triggeredRule))
  {
  }

  /** Hybrid mode is the meet of the regex engine and OPA, with silence counted as ALLOW. Whenever OPA
      adds nothing to a restriction the regex result is returned as it stands. */
  lemma HybridIsMeet(regex: PolicyResult, a: OpaAnswer)
    requires Coherent(regex)
    ensures var r := HybridEvaluate(regex, a);
            && r.action == Meet(regex.action, Opinion(a, a.Answered? && LooseAllow(a), ALLOW))
            && Coherent(r)
            && (r.action == regex.action != ALLOW ==> r == regex)
            && (a.Unavailable? ==> r == regex)
            && (regex.action == ALLOW && r.action != ALLOW ==> Truthy(r.triggeredRule))
  {
  }

  lemma JoinReads(part: string, others: seq<string>, otherwise: string)
    ensures Join([], otherwise) == otherwise && Join([part], otherwise) == part
    ensures others != [] ==> Join([part] + others, otherwise) == part + "; " + Join(others, otherwise)
  {
    assert ([part] + others)[1..] == others;
  }

  /** What an answer gives as its reasons, and as the rule that fired. */
  lemma AnswerNames(a: OpaAnswer)
    requires a.Answered?
    ensures a.result.ObjectResult? ==>
              && TriggeredBy(a) == a.result.triggered
              && (a.result.deny != [] ==> DenyReasons(a) == a.result.deny)
              && (a.result.deny == [] ==> DenyReasons(a) == a.result.denyMessages)
    ensures a.result.BoolResult? ==> DenyReasons(a) == a.deny && TriggeredBy(a) == a.triggered
    ensures a.result.OtherResult? ==>
              TriggeredBy(a) == Some("opa_parse_error") && DenyReasons(a) == ["OPA returned unexpected response format"]
  {
  }

  /** What OPA mode says beside the action, where OPA was heard and no local rule denied. */
  lemma OpaNames(custom: PolicyResult, a: OpaAnswer)
    requires custom.action != DENY && a.Answered?
    ensures var r, heard := OpaEvaluate(custom, a), TriggeredBy(a).GetOr("");
            && (r.action == DENY ==>
                  && r.triggeredRule == Some(if heard != "" then heard else "opa_deny")
                  && r.reason == Join(DenyReasons(a), "Denied by OPA policy")
                                 + if AuditFlag(a) then " (audit flag also set)" else "")
            && (r.action == AUDIT && AuditFlag(a) ==>
                  && r.triggeredRule == Some(if heard != "" then heard else "opa_audit")
                  && r.reason == Join(DenyReasons(a), "Flagged for audit by OPA"))
            && (r.action == AUDIT && !AuditFlag(a) ==>
                  && r.triggeredRule == custom.triggeredRule
                  && r.reason == "Custom rule '" + custom.triggeredRule.GetOr("None") + "' flagged for audit: "
                                 + custom.reason)
            && (r.action == ALLOW ==> r.triggeredRule == TriggeredBy(a) && r.reason == "Allowed by OPA policy")
  {
    hide Join;
    var reason := Join(DenyReasons(a), "Denied by OPA policy");
    assert reason + "" == reason;
  }

  /** What hybrid mode says beside the action, where it is not the regex engine's own result. */
  lemma HybridNames(regex: PolicyResult, a: OpaAnswer)
    requires Coherent(regex) && HybridEvaluate(regex, a) != regex
    ensures a.Answered?
    ensures var r, heard := HybridEvaluate(regex, a), TriggeredBy(a).GetOr("");
            && (r.action == DENY ==>
                  && r.triggeredRule == Some(if heard != "" then heard else "opa_deny")
                  && r.reason == Join(DenyReasons(a), "Denied by OPA policy"))
            && (r.action == AUDIT ==>
                  && r.triggeredRule == Some(if heard != "" then heard else "opa_audit")
                  && r.reason == Join(DenyReasons(a), "Flagged for audit by OPA"))
            && (r.action == ALLOW ==>
                  && r.triggeredRule == (if heard != "" then TriggeredBy(a) else regex.triggeredRule)
                  && r.reason == "Allowed by regex + OPA")
  {
    hide Join, DenyReasons;
  }

  /** Silence in OPA mode. */
  lemma OpaSilenceNames(custom: PolicyResult, error: string)
    requires custom.action != DENY
    ensures OpaEvaluate(custom, Unavailable(error)) ==
            PolicyResult(false, DENY, Some("opa_unavailable"),
                         "OPA policy server unavailable — failing closed: " + error)
  {
  }

  /** Appending a local rule never loosens the regex engine, nor, whatever OPA answers, OPA mode: OPA's
      input there does not contain the local result, so one answer serves both sides. */
  lemma AddedRuleTightensRegexAndOpa(rx: Regex, rules: seq<PolicyRule>, added: PolicyRule, content: string,
      a: OpaAnswer)
    ensures var before, after := Evaluate(rx, rules, content), Evaluate(rx, rules + [added], content);
            && AtLeastAsStrict(after.action, before.action)
            && AtLeastAsStrict(OpaEvaluate(after, a).action, OpaEvaluate(before, a).action)
  {
    var before, after := Evaluate(rx, rules, content), Evaluate(rx, rules + [added], content);
    EvaluateIsMeet(rx, rules, content);
    EvaluateIsMeet(rx, rules + [added], content);
    AddedRuleTightens(rx, rules, added, content);
    OpaIsMeet(before, a);
    OpaIsMeet(after, a);
  }

  // ---------------------------------------------------------------------------------------------
  // OPA hears the regex result
  // ---------------------------------------------------------------------------------------------

  /** One OPA server's answers about one content. Hybrid mode puts the regex result into the query; OPA
      mode does not, and asks with None. */
  type OpaServer = Option<PolicyResult> -> OpaAnswer

  /** HybridPolicyEngine.evaluate with the query it makes. */
  function HybridDecide(regex: PolicyResult, opa: OpaServer): PolicyResult {
    HybridEvaluate(regex, opa(Some(regex)))
  }

  /** Authorizes exactly one regex result. */
  function OnlyFor(favoured: PolicyResult): OpaServer {
    (heard: Option<PolicyResult>) => Answered(BoolResult(heard == Some(favoured)), [], None)
  }

  lemma {:induction false} FirstHitAppend(rx: Regex, rules: seq<PolicyRule>, added: PolicyRule, content: string,
      action: PolicyAction)
    ensures FirstHit(rx, rules + [added], content, action) ==
            var hit := FirstHit(rx, rules, content, action);
            if hit.Some? then hit else if added.action == action && Hits(rx, added, content) then Some(added) else None
  {
    if rules == [] {
      assert [added][1..] == [];
      assert [] + [added] == [added];
    } else {
      FirstHitAppend(rx, rules[1..], added, content, action);
      assert (rules + [added])[1..] == rules[1..] + [added];
    }
  }

  /** An appended rule that leaves the regex action alone leaves the whole result alone. */
  lemma AppendedRuleUnheard(rx: Regex, rules: seq<PolicyRule>, added: PolicyRule, content: string)
    requires Evaluate(rx, rules + [added], content).action == Evaluate(rx, rules, content).action
    ensures Evaluate(rx, rules + [added], content) == Evaluate(rx, rules, content)
  {
    FirstHitAppend(rx, rules, added, content, DENY);
    FirstHitAppend(rx, rules, added, content, AUDIT);
  }

  /** Two regex results that hybrid mode, over every server, decides one as strictly as the other. */
  lemma HybridStricterIff(after: PolicyResult, before: PolicyResult)
    requires Coherent(after) && Coherent(before)
    ensures (forall opa: OpaServer ::
               AtLeastAsStrict(HybridDecide(after, opa).action, HybridDecide(before, opa).action)) <==>
            after == before || after.action == DENY
  {
    if after != before && after.action != DENY {
      var opa := OnlyFor(after);
      HybridIsMeet(after, opa(Some(after)));
      HybridIsMeet(before, opa(Some(before)));
      assert HybridDecide(before, opa).action == DENY && HybridDecide(after, opa).action != DENY;
      assert !AtLeastAsStrict(HybridDecide(after, opa).action, HybridDecide(before, opa).action);
    }
  }

  /** Hybrid mode tells OPA what the regex engine found, so a new rule changes the question. Appending a
      rule loosens hybrid mode for no OPA policy, except in exactly one case: an AUDIT rule that hits
      where no rule did before. There some OPA policy refuses before and authorizes after. */
  lemma {:induction false} AddedRuleTightensHybridIff(rx: Regex, rules: seq<PolicyRule>, added: PolicyRule,
      content: string)
    ensures (forall opa: OpaServer ::
               AtLeastAsStrict(HybridDecide(Evaluate(rx, rules + [added], content), opa).action,
                               HybridDecide(Evaluate(rx, rules, content), opa).action)) <==>
            !(Evaluate(rx, rules, content).action == ALLOW && added.action == AUDIT && Hits(rx, added, content))
  {
    var before, after := Evaluate(rx, rules, content), Evaluate(rx, rules + [added], content);
    EvaluateIsMeet(rx, rules, content);
    EvaluateIsMeet(rx, rules + [added], content);
    AddedRuleTightens(rx, rules, added, content);
    if after.action == before.action { AppendedRuleUnheard(rx, rules, added, content); }
    HybridStricterIff(after, before);
  }

  /** The case itself: no rules, an AUDIT rule that hits, and an OPA policy that authorizes what the regex
      engine flagged and nothing else. The decision goes from DENY to AUDIT. */
  lemma AuditRuleLoosensHybrid(rx: Regex, added: PolicyRule, content: string)
    requires added.action == AUDIT && Hits(rx, added, content)
    ensures var opa: OpaServer := (heard: Option<PolicyResult>) =>
              Answered(BoolResult(heard.Some? && heard.value.action == AUDIT), [], None);
            && HybridDecide(Evaluate(rx, [], content), opa).action == DENY
            && HybridDecide(Evaluate(rx, [added], content), opa).action == AUDIT
  {
    assert [added][1..] == [];
    assert FirstHit(rx, [added], content, DENY) == None;
  }

  /** An OPA policy whose opinion of what the new rule leaves is at least as strict as before, which holds
      of every policy that does not read the regex result, is never loosened by an appended rule. */
  lemma DeafServerTightens(rx: Regex, rules: seq<PolicyRule>, added: PolicyRule, content: string, opa: OpaServer)
    requires var a, b := opa(Some(Evaluate(rx, rules + [added], content))), opa(Some(Evaluate(rx, rules, content)));
             AtLeastAsStrict(Opinion(a, a.Answered? && LooseAllow(a), ALLOW),
                             Opinion(b, b.Answered? && LooseAllow(b), ALLOW))
    ensures AtLeastAsStrict(HybridDecide(Evaluate(rx, rules + [added], content), opa).action,
                            HybridDecide(Evaluate(rx, rules, content), opa).action)
  {
    var before, after := Evaluate(rx, rules, content), Evaluate(rx, rules + [added], content);
    EvaluateIsMeet(rx, rules, content);
    EvaluateIsMeet(rx, rules + [added], content);
    AddedRuleTightens(rx, rules, added, content);
    HybridIsMeet(before, opa(Some(before)));
    HybridIsMeet(after, opa(Some(after)));
  }

  /** The two OPA entry points disagree on the action exactly when OPA authorizes with its audit flag
      set and no local rule restricts: there `evaluate_with_metadata` drops the flag. */
  lemma MetadataDropsAuditFlag(custom: PolicyResult, a: OpaAnswer)
    ensures OpaEvaluateWithMetadata(custom, a).action != OpaEvaluate(custom, a).action <==>
            custom.action == ALLOW && a.Answered? && StrictAllow(a) && AuditFlag(a)
    ensures !(custom.action != DENY && a.Answered? && StrictAllow(a) && AuditFlag(a)) ==>
              OpaEvaluateWithMetadata(custom, a) == OpaEvaluate(custom, a)
  {
  }

  /** The engines read `allow` differently: for the same answer and the same local ALLOW, hybrid mode
      admits what OPA mode refuses exactly when OPA is silent or unreadable, or when `allow` is truthy
      without being the literal true. */
  lemma HybridAdmitsMore(local: PolicyResult, a: OpaAnswer)
    requires local.action == ALLOW && local.allowed
    ensures HybridEvaluate(local, a).allowed && !OpaEvaluate(local, a).allowed <==>
            || a.Unavailable? || a.result.OtherResult?
            || (a.result.ObjectResult? && a.result.allow != Bool(true) && JsonTruthy(a.result.allow))
  {
  }
}
