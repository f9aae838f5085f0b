/** custos/policy_citation.py: the digest a record cites, and the policy set it stands for. */
module PolicyCitation {
  import opened Base
  import opened PolicyEngine
  import opened Strings
  import Luhn

  datatype EngineKind = RegexKind | OpaKind | HybridKind {
    function Text(): string {
      match this case RegexKind => "regex" case OpaKind => "opa" case HybridKind => "hybrid"
    }
  }

  function RuleJson(r: PolicyRule): Json {
    Obj(map[NameKey := Str(r.name), PatternKey := Str(r.pattern), ActionKey := Str(r.action.Text()),
            ReasonKey := Str(r.reason)])
  }

  function RuleText(h: Hashing, r: PolicyRule): string {
    h.dumps(RuleJson(r))
  }

  function RuleTexts(h: Hashing, rules: seq<PolicyRule>): (texts: seq<string>)
    ensures |texts| == |rules| && forall i | 0 <= i < |rules| :: texts[i] == RuleText(h, rules[i])
  {
    if rules == [] then [] else [RuleText(h, rules[0])] + RuleTexts(h, rules[1..])
  }

  function StrItems(xs: seq<string>): (items: seq<Json>)
    ensures |items| == |xs| && forall i | 0 <= i < |xs| :: items[i] == Str(xs[i])
  {
    if xs == [] then [] else [Str(xs[0])] + StrItems(xs[1..])
  }

  lemma StrItemsInjective(xs: seq<string>, ys: seq<string>)
    requires StrItems(xs) == StrItems(ys)
    ensures xs == ys
  {
    assert |xs| == |StrItems(xs)| == |ys|;
    forall i | 0 <= i < |xs| ensures xs[i] == ys[i] {
      assert StrItems(xs)[i] == Str(xs[i]) && StrItems(ys)[i] == Str(ys[i]);
    }
  }

  function RulesJson(h: Hashing, rules: seq<PolicyRule>): Json {
    Arr(StrItems(Sort(RuleTexts(h, rules))))
  }

  function ToolsJson(tools: set<string>): Json {
    Arr(StrItems(SortSet(tools)))
  }

  /** The value engine_citation_bytes serializes. The regex engine's is canonical_policy_bytes; any
      other engine also names itself and its Rego pin. */
  function CitationJson(h: Hashing, tools: set<string>, rules: seq<PolicyRule>, kind: EngineKind,
      pin: Option<string>): Json
  {
    Obj(CitationFields(ToolsJson(tools), RulesJson(h, rules), kind, pin))
  }

  function CitationFields(tools: Json, rules: Json, kind: EngineKind, pin: Option<string>): map<Key, Json> {
    if kind == RegexKind then map[ToolsKey := tools, RulesKey := rules]
    else map[ToolsKey := tools, EngineKey := Str(kind.Text()), RulesKey := rules, OpaPolicyKey := JsonOfOption(pin)]
  }

  lemma CitationFieldsInjective(tools: Json, rules: Json, kind: EngineKind, pin: Option<string>,
      tools': Json, rules': Json, kind': EngineKind, pin': Option<string>)
    requires CitationFields(tools, rules, kind, pin) == CitationFields(tools', rules', kind', pin')
    ensures tools == tools' && rules == rules' && kind == kind' && (kind == RegexKind || pin == pin')
  {
    var f, g := CitationFields(tools, rules, kind, pin), CitationFields(tools', rules', kind', pin');
    assert f[ToolsKey] == g[ToolsKey] && f[RulesKey] == g[RulesKey];
    assert EngineKey in f <==> EngineKey in g;
    if kind != RegexKind {
      assert f[EngineKey] == g[EngineKey] && f[OpaPolicyKey] == g[OpaPolicyKey];
      assert |OpaKind.Text()| != |HybridKind.Text()|;
    }
  }

  function CitationBytes(h: Hashing, tools: set<string>, rules: seq<PolicyRule>, kind: EngineKind,
      pin: Option<string>): string
  {
    h.dumps(CitationJson(h, tools, rules, kind, pin))
  }

  /** engine_policy_digest: None when a consulted policy source cannot be hashed. */
  function PolicyDigest(h: Hashing, tools: set<string>, rules: seq<PolicyRule>, kind: EngineKind,
      pin: Option<string>): Option<string>
  {
    if kind != RegexKind && !Truthy(pin) then None
    else Some(h.OfText(CitationBytes(h, tools, rules, kind, pin)))
  }

  /** No digest is cited exactly when the engine consults a Rego policy that carries no pin. */
  lemma CitesNothingIff(h: Hashing, tools: set<string>, rules: seq<PolicyRule>, kind: EngineKind, pin: Option<string>)
    ensures PolicyDigest(h, tools, rules, kind, pin).None? <==> kind != RegexKind && pin.GetOr("") == ""
    ensures PolicyDigest(h, tools, rules, kind, pin).Some? ==>
              PolicyDigest(h, tools, rules, kind, pin).value == h.sha(h.dumps(CitationJson(h, tools, rules, kind, pin)))
  {
  }

  /** The canonical value, member by member. */
  lemma CitationReads(h: Hashing, tools: set<string>, rules: seq<PolicyRule>, kind: EngineKind, pin: Option<string>)
    ensures var j := CitationJson(h, tools, rules, kind, pin);
            && j.Obj? && ToolsKey in j.fields && RulesKey in j.fields
            && j.fields[ToolsKey] == Arr(StrItems(SortSet(tools)))
            && j.fields[RulesKey] == Arr(StrItems(Sort(RuleTexts(h, rules))))
            && (kind == RegexKind ==> j.fields.Keys == {ToolsKey, RulesKey})
            && (kind != RegexKind ==>
                  && j.fields.Keys == {ToolsKey, RulesKey, EngineKey, OpaPolicyKey}
                  && j.fields[EngineKey] == Str(if kind == OpaKind then "opa" else "hybrid")
                  && j.fields[OpaPolicyKey] == if pin.Some? then Str(pin.value) else Null)
  {
    hide Sort, SortSet, StrItems, RuleTexts;
  }

  /** A rule's text serializes exactly its name, pattern, action in words, and reason. */
  lemma RuleReads(r: PolicyRule)
    ensures var j := RuleJson(r);
            && j.Obj? && j.fields.Keys == {NameKey, PatternKey, ActionKey, ReasonKey}
            && j.fields[NameKey] == Str(r.name) && j.fields[PatternKey] == Str(r.pattern)
            && j.fields[ActionKey] == Str(if r.action == ALLOW then "allow" else if r.action == DENY then "deny"
                                          else "audit")
            && j.fields[ReasonKey] == Str(r.reason)
  {
  }

  function RulesDigest(h: Hashing, rules: seq<PolicyRule>): string {
    h.OfJson(RulesJson(h, rules))
  }

  predicate SameRuleTexts(h: Hashing, rules: seq<PolicyRule>, rules': seq<PolicyRule>) {
    multiset(RuleTexts(h, rules)) == multiset(RuleTexts(h, rules'))
  }

  lemma RulesJsonCanonical(h: Hashing, rules: seq<PolicyRule>, rules': seq<PolicyRule>)
    ensures RulesJson(h, rules) == RulesJson(h, rules') <==> SameRuleTexts(h, rules, rules')
  {
    SortCanonical(RuleTexts(h, rules), RuleTexts(h, rules'));
    if RulesJson(h, rules) == RulesJson(h, rules') {
      StrItemsInjective(Sort(RuleTexts(h, rules)), Sort(RuleTexts(h, rules')));
    }
  }

  /** One policy set has one canonical value, whatever order its rules were added in; two policy sets
      with one canonical value have the same tools, rule texts, engine and pin. */
  lemma CitationCanonical(h: Hashing, tools: set<string>, rules: seq<PolicyRule>, kind: EngineKind, pin: Option<string>,
      tools': set<string>, rules': seq<PolicyRule>, kind': EngineKind, pin': Option<string>)
    ensures CitationJson(h, tools, rules, kind, pin) == CitationJson(h, tools', rules', kind', pin') <==>
            tools == tools' && SameRuleTexts(h, rules, rules') && kind == kind' && (kind == RegexKind || pin == pin')
  {
    RulesJsonCanonical(h, rules, rules');
    SortSetCanonical(tools, tools');
    if CitationJson(h, tools, rules, kind, pin) == CitationJson(h, tools', rules', kind', pin') {
      CitationFieldsInjective(ToolsJson(tools), RulesJson(h, rules), kind, pin,
                              ToolsJson(tools'), RulesJson(h, rules'), kind', pin');
      StrItemsInjective(SortSet(tools), SortSet(tools'));
    }
  }

  /** Two different rules with one JSON text. */
  ghost predicate RuleClash(h: Hashing, rules: seq<PolicyRule>, rules': seq<PolicyRule>) {
    exists r, r' | r in rules && r' in rules' :: r != r' && RuleText(h, r) == RuleText(h, r')
  }

  lemma RuleJsonInjective(r: PolicyRule, r': PolicyRule)
    requires RuleJson(r) == RuleJson(r')
    ensures r == r'
  {
    var f, g := RuleJson(r).fields, RuleJson(r').fields;
    assert f[NameKey] == g[NameKey] && f[PatternKey] == g[PatternKey];
    assert f[ActionKey] == g[ActionKey] && f[ReasonKey] == g[ReasonKey];
    assert "allow"[1] == 'l' && "deny"[1] == 'e' && "audit"[1] == 'u';
  }

  /** Serialization that tells JSON values apart tells rules apart. */
  lemma NoClash(h: Hashing, rules: seq<PolicyRule>, rules': seq<PolicyRule>)
    requires forall a, b :: h.dumps(a) == h.dumps(b) ==> a == b
    ensures !RuleClash(h, rules, rules')
  {
    forall r, r' | r in rules && r' in rules' && RuleText(h, r) == RuleText(h, r') ensures r == r' {
      RuleJsonInjective(r, r');
    }
  }

  lemma SameTextsSameRules(h: Hashing, rules: seq<PolicyRule>, rules': seq<PolicyRule>)
    requires SameRuleTexts(h, rules, rules') && !RuleClash(h, rules, rules') && !RuleClash(h, rules', rules)
    ensures forall r :: r in rules <==> r in rules'
  {
    forall r | r in rules ensures r in rules' { TextFound(h, rules, rules', r); }
    forall r | r in rules' ensures r in rules { TextFound(h, rules', rules, r); }
  }

  lemma TextFound(h: Hashing, rules: seq<PolicyRule>, rules': seq<PolicyRule>, r: PolicyRule)
    requires SameRuleTexts(h, rules, rules') && !RuleClash(h, rules, rules') && r in rules
    ensures r in rules'
  {
    var i :| 0 <= i < |rules| && rules[i] == r;
    var texts, texts' := RuleTexts(h, rules), RuleTexts(h, rules');
    assert texts[i] in multiset(texts');
    var j :| 0 <= j < |texts'| && texts'[j] == texts[i];
    assert rules'[j] in rules';
  }

  /** A digest determines the policy: two sets citing one digest have the same tools, the same rules
      and, beyond the regex engine, the same engine and pin; or their canonical values collide, or two
      of their rules share a text. */
  lemma DigestDeterminesPolicy(h: Hashing, tools: set<string>, rules: seq<PolicyRule>, kind: EngineKind,
      pin: Option<string>,
      tools': set<string>, rules': seq<PolicyRule>, kind': EngineKind, pin': Option<string>)
    requires PolicyDigest(h, tools, rules, kind, pin).Some?
    requires PolicyDigest(h, tools, rules, kind, pin) == PolicyDigest(h, tools', rules', kind', pin')
    ensures
      || Collision(h, CitationJson(h, tools, rules, kind, pin), CitationJson(h, tools', rules', kind', pin'))
      || RuleClash(h, rules, rules') || RuleClash(h, rules', rules)
      || (&& tools == tools' && (forall r :: r in rules <==> r in rules')
          && kind == kind' && (kind == RegexKind || pin == pin'))
  {
    CitationCanonical(h, tools, rules, kind, pin, tools', rules', kind', pin');
    if SameRuleTexts(h, rules, rules') && !RuleClash(h, rules, rules') && !RuleClash(h, rules', rules) {
      SameTextsSameRules(h, rules, rules');
    }
  }

  /** The regex engine as an object: a rule list that only grows, and the digest cached beside it. The
      OPA and hybrid engines keep their local rules in one of these. */
  class RuleSet {
    const h: Hashing
    const rx: Regex
    var rules: seq<PolicyRule>
    var digestCache: Option<string>

    ghost predicate Valid()
      reads this
    {
      digestCache.Some? ==> digestCache.value == RulesDigest(h, rules)
    }

    constructor (h: Hashing, rx: Regex, rules: seq<PolicyRule>)
      ensures Valid() && this.h == h && this.rx == rx && this.rules == rules
    {
      this.h, this.rx, this.rules, digestCache := h, rx, rules, None;
    }

    /** PolicyEngine.add_rule. */
    method AddRule(rule: PolicyRule)
      modifies this
      ensures Valid() && rules == old(rules) + [rule]
    {
      rules := rules + [rule];
      digestCache := None;
    }

    /** PolicyEngine.rules_digest: always the digest of the rules in force. */
    method CurrentDigest() returns (d: string)
      requires Valid()
      modifies this`digestCache
      ensures Valid() && d == RulesDigest(h, rules)
    {
      if digestCache.None? {
        digestCache := Some(RulesDigest(h, rules));
      }
      d := digestCache.value;
    }

    /** PolicyEngine.evaluate. */
    method EvaluateContent(content: string) returns (result: PolicyResult)
      ensures result == Evaluate(rx, rules, content)
    {
      var auditHit: Option<PolicyRule> := None;
      for i := 0 to |rules|
        invariant FirstHit(rx, rules, content, DENY) == FirstHit(rx, rules[i..], content, DENY)
        invariant FirstHit(rx, rules, content, AUDIT) ==
                  if auditHit.Some? then auditHit else FirstHit(rx, rules[i..], content, AUDIT)
      {
        var rule := rules[i];
        assert rules[i..][0] == rule && rules[i..][1..] == rules[i + 1..];
        var found := rx.Search(rule.pattern, content);
        if found.Some? {
          if rule.name == LUHN_RULE {
            var valid := Luhn.LuhnValid(DigitsOnly(found.value));
            if !valid { continue; }
          }
          if rule.action == DENY {
            return PolicyResult(false, DENY, Some(rule.name), rule.reason);
          } else if rule.action == AUDIT && auditHit.None? {
            auditHit := Some(rule);
          }
        }
      }
      if auditHit.Some? {
        return PolicyResult(true, AUDIT, Some(auditHit.value.name), auditHit.value.reason);
      }
      return PolicyResult(true, ALLOW, None, "No policy violations detected");
    }
  }
}
