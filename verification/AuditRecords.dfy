/** custos/audit.py: the record, its versioned hash preimage, and what a hash binds. */
module AuditRecords {
  import opened Base

  /** RECORD_BINDING_CURRENT. */
  const BINDING_CURRENT := 2

  const COMMITMENT_NONE := "none"
  const COMMITMENT_UNSALTED := "unsalted-v0"
  const COMMITMENT_SALTED := "salted-v1"
  const COMMITMENT_PURGED := "purged-v1"
  const COMMITMENT_FORMS := {COMMITMENT_NONE, COMMITMENT_UNSALTED, COMMITMENT_SALTED, COMMITMENT_PURGED}

  lemma FormsAre()
    ensures COMMITMENT_FORMS == {"none", "unsalted-v0", "salted-v1", "purged-v1"}
    ensures COMMITMENT_NONE == "none" && |COMMITMENT_UNSALTED| == 11 && |COMMITMENT_SALTED| == |COMMITMENT_PURGED| == 9
    ensures COMMITMENT_SALTED[0] == 's' && COMMITMENT_PURGED[0] == 'p'
  {
  }

  datatype AuditRecord = AuditRecord(
    timestamp: real,
    clientId: string,
    action: string,
    triggeredRule: Option<string>,
    reason: string,
    contentHash: string,
    recordHash: string,
    previousHash: string,
    traceId: Option<string>,
    policyDigest: Option<string>,
    tenantId: Option<string>,
    bindingVersion: int,
    commitment: string)

  /** The fields a record hash covers, or None where the source raises UnknownBindingVersion. */
  function PreimageFields(r: AuditRecord, previousHash: string): Option<map<Key, Json>> {
    if r.bindingVersion > BINDING_CURRENT then None else
    var core := map[
      TimestampKey := Real(r.timestamp),
      ClientIdKey := Str(r.clientId),
      ActionKey := Str(r.action),
      TriggeredRuleKey := JsonOfOption(r.triggeredRule),
      ReasonKey := Str(r.reason),
      ContentHashKey := Str(r.contentHash),
      PreviousHashKey := Str(previousHash)];
    var cited := if Truthy(r.policyDigest) then core[PolicyDigestKey := Str(r.policyDigest.value)] else core;
    var owned := if Truthy(r.tenantId) then cited[TenantIdKey := Str(r.tenantId.value)] else cited;
    if r.bindingVersion < 1 then Some(owned) else
    var marked := owned[BindingKey := Str(if r.bindingVersion == 1 then "v1" else "v2")];
    var traced := if Truthy(r.traceId) then marked[TraceIdKey := Str(r.traceId.value)] else marked;
    if r.bindingVersion < 2 then Some(traced) else
    Some(traced[CommitmentKey := Str(if r.commitment != "" then r.commitment else COMMITMENT_NONE)])
  }

  /** The value whose digest is the record hash. */
  function Preimage(r: AuditRecord, previousHash: string): Json
    requires r.bindingVersion <= BINDING_CURRENT
  {
    Obj(PreimageFields(r, previousHash).value)
  }

  function RecordHash(h: Hashing, r: AuditRecord, previousHash: string): Option<string> {
    if r.bindingVersion > BINDING_CURRENT then None else Some(h.OfJson(Preimage(r, previousHash)))
  }

  /** What a record's version promises is covered by its hash, written without reference to the
      preimage. Absent and empty citations, tenants and traces are one value; a version below one
      binds no trace, a version below two binds no commitment form. */
  datatype Bound = Bound(
    version: int,
    timestamp: real,
    clientId: string,
    action: string,
    triggeredRule: Option<string>,
    reason: string,
    contentHash: string,
    previousHash: string,
    policyDigest: string,
    tenantId: string,
    traceId: Option<string>,
    commitment: Option<string>)

  function BoundView(r: AuditRecord, previousHash: string): Bound {
    Bound(
      if r.bindingVersion < 1 then 0 else r.bindingVersion,
      r.timestamp, r.clientId, r.action, r.triggeredRule, r.reason, r.contentHash, previousHash,
      r.policyDigest.GetOr(""), r.tenantId.GetOr(""),
      if r.bindingVersion < 1 then None else Some(r.traceId.GetOr("")),
      if r.bindingVersion < 2 then None
      else Some(if r.commitment != "" then r.commitment else COMMITMENT_NONE))
  }

  /** One member of the preimage of an implemented version. */
  function Member(r: AuditRecord, previousHash: string, key: Key): Option<Json> {
    var fields := PreimageFields(r, previousHash).GetOr(map[]);
    if key in fields then Some(fields[key]) else None
  }

  lemma CoreMembers(r: AuditRecord, p: string)
    requires r.bindingVersion <= BINDING_CURRENT
    ensures Member(r, p, TimestampKey) == Some(Real(r.timestamp))
    ensures Member(r, p, ClientIdKey) == Some(Str(r.clientId))
    ensures Member(r, p, ActionKey) == Some(Str(r.action))
    ensures Member(r, p, TriggeredRuleKey) == Some(JsonOfOption(r.triggeredRule))
    ensures Member(r, p, ReasonKey) == Some(Str(r.reason))
    ensures Member(r, p, ContentHashKey) == Some(Str(r.contentHash))
    ensures Member(r, p, PreviousHashKey) == Some(Str(p))
  {
  }

  lemma ConditionalMembers(r: AuditRecord, p: string)
    requires r.bindingVersion <= BINDING_CURRENT
    ensures Member(r, p, PolicyDigestKey) == (if Truthy(r.policyDigest) then Some(Str(r.policyDigest.value)) else None)
    ensures Member(r, p, TenantIdKey) == (if Truthy(r.tenantId) then Some(Str(r.tenantId.value)) else None)
    ensures Member(r, p, BindingKey) ==
            (if r.bindingVersion < 1 then None else Some(Str(if r.bindingVersion == 1 then "v1" else "v2")))
    ensures Member(r, p, TraceIdKey) ==
            (if r.bindingVersion >= 1 && Truthy(r.traceId) then Some(Str(r.traceId.value)) else None)
    ensures Member(r, p, CommitmentKey) ==
            (if r.bindingVersion < 2 then None
             else Some(Str(if r.commitment != "" then r.commitment else COMMITMENT_NONE)))
  {
  }

  /** A preimage determines exactly the bound fields: nothing a version binds is lost, and nothing it
      leaves unbound leaks in. In particular records of different versions never share a preimage. */
  lemma PreimageBindsExactly(r: AuditRecord, p: string, s: AuditRecord, q: string)
    requires r.bindingVersion <= BINDING_CURRENT && s.bindingVersion <= BINDING_CURRENT
    ensures Preimage(r, p) == Preimage(s, q) <==> BoundView(r, p) == BoundView(s, q)
  {
    if Preimage(r, p) == Preimage(s, q) {
      MembersDetermineBound(r, p, s, q);
    }
  }

  lemma MembersDetermineBound(r: AuditRecord, p: string, s: AuditRecord, q: string)
    requires r.bindingVersion <= BINDING_CURRENT && s.bindingVersion <= BINDING_CURRENT
    requires forall key :: Member(r, p, key) == Member(s, q, key)
    ensures BoundView(r, p) == BoundView(s, q)
  {
    CoreMembers(r, p);
    CoreMembers(s, q);
    ConditionalMembers(r, p);
    ConditionalMembers(s, q);
    assert "v1"[1] != "v2"[1];
  }

  /** Relabelling a record from one implemented version to another while keeping its hash takes a
      collision between the two preimages. */
  lemma RelabellingNeedsCollision(h: Hashing, r: AuditRecord, p: string, s: AuditRecord, q: string)
    requires r.bindingVersion <= BINDING_CURRENT && s.bindingVersion <= BINDING_CURRENT
    requires RecordHash(h, r, p) == RecordHash(h, s, q)
    ensures BoundView(r, p) == BoundView(s, q) || Collision(h, Preimage(r, p), Preimage(s, q))
  {
    PreimageBindsExactly(r, p, s, q);
  }
}
