/** custos/replay.py: finding the record a hash names and deciding its content again. */
module Replay {
  import opened Base
  import opened AuditRecords
  import opened AuditChain
  import opened PolicyEngine
  import opened PolicyCitation

  datatype ReplayError = RecordNotFound | ContentMismatch

  datatype ReplayResult = ReplayResult(
    original: AuditRecord, replayedAction: string, replayedRule: Option<string>, replayedReason: string, matches: bool)

  /** _find_record: the first record with that hash. */
  function FindRecord(records: seq<AuditRecord>, recordHash: string): (found: Option<AuditRecord>)
    ensures found.Some? ==> found.value in records && found.value.recordHash == recordHash
    ensures found.None? <==> forall r | r in records :: r.recordHash != recordHash
  {
    if records == [] then None
    else if records[0].recordHash == recordHash then Some(records[0])
    else
      assert records == [records[0]] + records[1..];
      FindRecord(records[1..], recordHash)
  }

  /** replay_by_hash, given what the engine in force makes of the supplied content. */
  function ReplayByHash(h: Hashing, records: seq<AuditRecord>, recordHash: string, content: string,
      again: PolicyResult):
    Result<ReplayResult, ReplayError>
  {
    var found := FindRecord(records, recordHash);
    if found.None? then Err(RecordNotFound)
    else if h.OfText(content) != found.value.contentHash then Err(ContentMismatch)
    else
      var r := found.value;
      Ok(ReplayResult(r, again.action.Text(), again.triggeredRule, again.reason,
                      again.action.Text() == r.action && again.triggeredRule == r.triggeredRule))
  }

  /** How a replay ends, and what it compares. */
  lemma ReplayReads(h: Hashing, records: seq<AuditRecord>, recordHash: string, content: string, again: PolicyResult)
    ensures var replay := ReplayByHash(h, records, recordHash, content, again);
            && (replay == Err(RecordNotFound) <==> forall r | r in records :: r.recordHash != recordHash)
            && (replay.Ok? ==>
                  var o := replay.value;
                  && o.original in records && o.original.recordHash == recordHash
                  && o.original.contentHash == h.OfText(content)
                  && o.replayedAction == (if again.action == ALLOW then "allow" else if again.action == DENY then "deny"
                                          else "audit")
                  && o.replayedRule == again.triggeredRule && o.replayedReason == again.reason
                  && (o.matches <==>
                        o.original.action == o.replayedAction && o.original.triggeredRule == o.replayedRule))
  {
  }

  lemma {:induction false} FirstMatch(records: seq<AuditRecord>, i: nat)
    requires i < |records| && forall k | 0 <= k < i :: records[k].recordHash != records[i].recordHash
    ensures FindRecord(records, records[i].recordHash) == Some(records[i])
  {
    if i > 0 {
      FirstMatch(records[1..], i - 1);
    }
  }

  /** In a chain that verifies a hash names one record and the search finds it, unless two of the chain's
      records collide or one is a preimage of the genesis value. */
  lemma {:induction false} HashNamesOneRecord(h: Hashing, records: seq<AuditRecord>, i: nat)
    requires ChainOk(h, records) && i < |records|
    requires !CollisionWithin(h, records) && !GenesisPreimageWithin(h, records)
    ensures FindRecord(records, records[i].recordHash) == Some(records[i])
  {
    forall k | 0 <= k < i ensures records[k].recordHash != records[i].recordHash {
      HashesDistinct(h, records, k, i);
    }
    FirstMatch(records, i);
  }

  /** Record i is what the regex engine decided about `content` under `rules`. */
  predicate Decided(h: Hashing, rx: Regex, r: AuditRecord, rules: seq<PolicyRule>, content: string) {
    var result := Evaluate(rx, rules, content);
    && r.contentHash == h.OfText(content) && r.action == result.action.Text()
    && r.triggeredRule == result.triggeredRule && r.reason == result.reason
  }

  lemma TextsDiffer(a: PolicyAction, b: PolicyAction)
    ensures a.Text() == b.Text() ==> a == b
  {
    assert "allow"[1] == 'l' && "deny"[1] == 'e' && "audit"[1] == 'u';
  }

  /** Replaying a recorded decision under the same rules succeeds and matches in full. Under any reordering
      of them the action still agrees, so the replay matches exactly when the rule named is the same. */
  lemma ReplayReproduces(h: Hashing, rx: Regex, records: seq<AuditRecord>, i: nat, rules: seq<PolicyRule>,
      rules': seq<PolicyRule>, content: string)
    requires ChainOk(h, records) && i < |records|
    requires !CollisionWithin(h, records) && !GenesisPreimageWithin(h, records)
    requires Decided(h, rx, records[i], rules, content) && forall r :: r in rules <==> r in rules'
    ensures var same := ReplayByHash(h, records, records[i].recordHash, content, Evaluate(rx, rules, content));
            same.Ok? && same.value.original == records[i] && same.value.matches
            && same.value.replayedReason == records[i].reason
    ensures var moved := ReplayByHash(h, records, records[i].recordHash, content, Evaluate(rx, rules', content));
            && moved.Ok? && moved.value.original == records[i] && moved.value.replayedAction == records[i].action
            && (moved.value.matches <==> moved.value.replayedRule == records[i].triggeredRule)
  {
    hide Evaluate, ChainOk, CollisionWithin, GenesisPreimageWithin;
    HashNamesOneRecord(h, records, i);
    OrderIrrelevant(rx, rules, rules', content);
  }

  /** Only the content that was decided replays, or a text whose digest collides with its. */
  lemma OnlyTheContentReplays(h: Hashing, rx: Regex, records: seq<AuditRecord>, i: nat, rules: seq<PolicyRule>,
      content: string, supplied: string, again: PolicyResult)
    requires ChainOk(h, records) && i < |records|
    requires !CollisionWithin(h, records) && !GenesisPreimageWithin(h, records)
    requires Decided(h, rx, records[i], rules, content)
    ensures var replay := ReplayByHash(h, records, records[i].recordHash, supplied, again);
            replay.Ok? == (h.OfText(supplied) == h.OfText(content)) && (replay.Err? ==> replay.error == ContentMismatch)
  {
    hide Evaluate;
    HashNamesOneRecord(h, records, i);
  }

  /** A citation is enough to replay by: whatever rule set and tools hash to the digest a record's policy
      had, replaying under them reproduces the recorded action, unless the two canonical policies
      collide or two different rules share a text. */
  lemma CitedPolicyReplays(h: Hashing, rx: Regex, records: seq<AuditRecord>, i: nat, content: string,
      tools: set<string>, rules: seq<PolicyRule>, tools': set<string>, rules': seq<PolicyRule>)
    requires ChainOk(h, records) && i < |records|
    requires !CollisionWithin(h, records) && !GenesisPreimageWithin(h, records)
    requires Decided(h, rx, records[i], rules, content)
    requires records[i].policyDigest == PolicyDigest(h, tools, rules, RegexKind, None)
    requires PolicyDigest(h, tools', rules', RegexKind, None) == records[i].policyDigest
    ensures
      || Collision(h, CitationJson(h, tools, rules, RegexKind, None), CitationJson(h, tools', rules', RegexKind, None))
      || RuleClash(h, rules, rules') || RuleClash(h, rules', rules)
      || (var again := ReplayByHash(h, records, records[i].recordHash, content, Evaluate(rx, rules', content));
          again.Ok? && again.value.replayedAction == records[i].action)
  {
    hide Evaluate, CitationJson, RuleClash, ChainOk, CollisionWithin, GenesisPreimageWithin, Decided;
    assert PolicyDigest(h, tools, rules, RegexKind, None).Some?;
    DigestDeterminesPolicy(h, tools, rules, RegexKind, None, tools', rules', RegexKind, None);
    if forall r :: r in rules <==> r in rules' {
      ReplayReproduces(h, rx, records, i, rules, rules', content);
    }
  }

  /** What a full match means: the engine decided now what the record says was decided then. */
  lemma MatchMeansSameDecision(h: Hashing, rx: Regex, records: seq<AuditRecord>, i: nat, rules: seq<PolicyRule>,
      content: string, again: PolicyResult)
    requires ChainOk(h, records) && i < |records|
    requires !CollisionWithin(h, records) && !GenesisPreimageWithin(h, records)
    requires Decided(h, rx, records[i], rules, content)
    ensures var replay := ReplayByHash(h, records, records[i].recordHash, content, again);
            && replay.Ok?
            && (replay.value.matches <==> again.action == Evaluate(rx, rules, content).action
                                          && again.triggeredRule == Evaluate(rx, rules, content).triggeredRule)
  {
    hide Evaluate;
    HashNamesOneRecord(h, records, i);
    TextsDiffer(again.action, Evaluate(rx, rules, content).action);
  }
}
