/** custos/audit.py: one tenant's hash chain over a store that several writers share. */
module AuditChain {
  import opened Base
  import opened AuditRecords

  // ---------------------------------------------------------------------------------------------
  // Chains as sequences
  // ---------------------------------------------------------------------------------------------

  function Head(rs: seq<AuditRecord>): string {
    if rs == [] then GENESIS else rs[|rs| - 1].recordHash
  }

  /** Record i names its predecessor and hashes to its own recordHash. */
  predicate LinkOk(h: Hashing, rs: seq<AuditRecord>, i: nat)
    requires i < |rs|
  {
    && rs[i].previousHash == Head(rs[..i])
    && RecordHash(h, rs[i], rs[i].previousHash) == Some(rs[i].recordHash)
  }

  predicate ChainOk(h: Hashing, rs: seq<AuditRecord>) {
    forall i | 0 <= i < |rs| :: LinkOk(h, rs, i)
  }

  lemma ChainPrefix(h: Hashing, rs: seq<AuditRecord>, n: nat)
    requires ChainOk(h, rs) && n <= |rs|
    ensures ChainOk(h, rs[..n])
  {
    forall i | 0 <= i < n ensures LinkOk(h, rs[..n], i) {
      assert rs[..n][..i] == rs[..i];
      assert LinkOk(h, rs, i);
    }
  }

  lemma ChainExtend(h: Hashing, rs: seq<AuditRecord>, e: AuditRecord)
    requires ChainOk(h, rs)
    requires e.previousHash == Head(rs) && RecordHash(h, e, Head(rs)) == Some(e.recordHash)
    ensures ChainOk(h, rs + [e])
  {
    forall i | 0 <= i < |rs| + 1 ensures LinkOk(h, rs + [e], i) {
      assert (rs + [e])[..i] == rs[..i];
      if i < |rs| {
        assert LinkOk(h, rs, i);
      } else {
        assert rs[..i] == rs;
      }
    }
  }

  /** Two records of the chain whose different preimages share a digest. */
  ghost predicate CollisionWithin(h: Hashing, rs: seq<AuditRecord>) {
    exists i, j | 0 <= i < j < |rs| :: CollidingPair(h, rs, i, j)
  }

  predicate CollidingPair(h: Hashing, rs: seq<AuditRecord>, i: nat, j: nat)
    requires i < |rs| && j < |rs|
  {
    && rs[i].bindingVersion <= BINDING_CURRENT && rs[j].bindingVersion <= BINDING_CURRENT
    && Collision(h, Preimage(rs[i], rs[i].previousHash), Preimage(rs[j], rs[j].previousHash))
  }

  /** A record of the chain whose preimage hashes to the all-zero digest. */
  ghost predicate GenesisPreimageWithin(h: Hashing, rs: seq<AuditRecord>) {
    exists i | 0 <= i < |rs| :: RecordHash(h, rs[i], rs[i].previousHash) == Some(GENESIS)
  }

  /** In a chain that verifies no record hash is GENESIS and no two are equal, unless two of its own
      records collide or one of them is a preimage of GENESIS. */
  lemma {:induction false} HashesDistinct(h: Hashing, rs: seq<AuditRecord>, i: nat, j: nat)
    requires ChainOk(h, rs) && i < j < |rs|
    requires !CollisionWithin(h, rs) && !GenesisPreimageWithin(h, rs)
    ensures rs[i].recordHash != rs[j].recordHash
    ensures rs[i].recordHash != GENESIS && rs[j].recordHash != GENESIS
    decreases i
  {
    assert LinkOk(h, rs, i) && LinkOk(h, rs, j);
    assert rs[j].previousHash == rs[j - 1].recordHash;
    if rs[i].recordHash == rs[j].recordHash {
      assert !CollidingPair(h, rs, i, j);
      PreimageBindsExactly(rs[i], rs[i].previousHash, rs[j], rs[j].previousHash);
      assert rs[i].previousHash == rs[j].previousHash;
      assert LinkOk(h, rs, j - 1);
      if i > 0 {
        HashesDistinct(h, rs, i - 1, j - 1);
      }
    }
  }

  // ---------------------------------------------------------------------------------------------
  // The shared table
  // ---------------------------------------------------------------------------------------------

  /** COALESCE(tenant_id, ''). */
  function Scope(r: AuditRecord): string {
    r.tenantId.GetOr("")
  }

  /** The rows of one tenant, in insertion order. */
  function TenantRows(rows: seq<AuditRecord>, tenant: string): seq<AuditRecord> {
    if rows == [] then [] else
    var rest := TenantRows(rows[..|rows| - 1], tenant);
    if Scope(rows[|rows| - 1]) == tenant then rest + [rows[|rows| - 1]] else rest
  }

  lemma TenantRowsAppend(rows: seq<AuditRecord>, e: AuditRecord, tenant: string)
    ensures TenantRows(rows + [e], tenant) ==
            if Scope(e) == tenant then TenantRows(rows, tenant) + [e] else TenantRows(rows, tenant)
  {
    assert (rows + [e])[..|rows|] == rows;
  }

  lemma {:induction false} TenantRowsMembers(rows: seq<AuditRecord>, tenant: string, r: AuditRecord)
    ensures r in TenantRows(rows, tenant) <==> r in rows && Scope(r) == tenant
  {
    if rows != [] {
      TenantRowsMembers(rows[..|rows| - 1], tenant, r);
      assert rows == rows[..|rows| - 1] + [rows[|rows| - 1]];
    }
  }

  /** Some row of the tenant already names this predecessor: what the unique index on
      (COALESCE(tenant_id, ''), previous_hash) refuses to see twice. */
  predicate PredecessorTaken(rows: seq<AuditRecord>, tenant: string, previousHash: string) {
    exists r | r in rows :: Scope(r) == tenant && r.previousHash == previousHash
  }

  /** The unique index can be built. */
  predicate Indexed(rows: seq<AuditRecord>) {
    forall i, j | 0 <= i < j < |rows| ::
      Scope(rows[i]) != Scope(rows[j]) || rows[i].previousHash != rows[j].previousHash
  }

  /** What the database would answer an insert that violates no constraint. */
  datatype Condition = Healthy | NoSpace | OtherFault

  datatype AppendError =
    | UnknownCommitment
    | WrongTenant
    | UnboundEvidence
    | MissingTrace
    | MissingRule
    | ChainFork
    | StoreFull
    | StoreFault

  function SaveError(rows: seq<AuditRecord>, e: AuditRecord, condition: Condition): Option<AppendError> {
    match condition
    case NoSpace => Some(StoreFull)
    case OtherFault => Some(StoreFault)
    case Healthy => if PredecessorTaken(rows, Scope(e), e.previousHash) then Some(ChainFork) else None
  }

  class AuditStore {
    var rows: seq<AuditRecord>

    constructor ()
      ensures rows == []
    {
      rows := [];
    }

    /** SQLiteBackend.save. */
    method Save(e: AuditRecord, condition: Condition) returns (refused: Option<AppendError>)
      modifies this
      ensures refused == SaveError(old(rows), e, condition)
      ensures refused == Some(StoreFull) <==> condition == NoSpace
      ensures refused == Some(StoreFault) <==> condition == OtherFault
      ensures refused == Some(ChainFork) <==>
              condition == Healthy && exists r | r in old(rows) ::
                r.tenantId.GetOr("") == e.tenantId.GetOr("") && r.previousHash == e.previousHash
      ensures refused.None? <==>
              condition == Healthy && forall r | r in old(rows) ::
                r.tenantId.GetOr("") != e.tenantId.GetOr("") || r.previousHash != e.previousHash
      ensures rows == if refused.None? then old(rows) + [e] else old(rows)
      ensures old(Indexed(rows)) ==> Indexed(rows)
    {
      if condition.NoSpace? { return Some(StoreFull); }
      if condition.OtherFault? { return Some(StoreFault); }
      if PredecessorTaken(rows, Scope(e), e.previousHash) { return Some(ChainFork); }
      rows := rows + [e];
      refused := None;
    }

    /** SQLiteBackend.load_all: one tenant's rows, or every row for an unscoped backend. */
    method LoadAll(tenant: Option<string>) returns (loaded: seq<AuditRecord>)
      ensures loaded == if tenant.Some? then TenantRows(rows, tenant.value) else rows
    {
      if tenant.None? { return rows; }
      loaded := [];
      for i := 0 to |rows|
        invariant loaded == TenantRows(rows[..i], tenant.value)
      {
        TenantRowsAppend(rows[..i], rows[i], tenant.value);
        assert rows[..i + 1] == rows[..i] + [rows[i]];
        if Scope(rows[i]) == tenant.value {
          loaded := loaded + [rows[i]];
        }
      }
      assert rows[..|rows|] == rows;
    }
  }

  // ---------------------------------------------------------------------------------------------
  // One writer
  // ---------------------------------------------------------------------------------------------

  /** The arguments of AuditChain.record. */
  datatype Draft = Draft(
    clientId: string,
    action: string,
    reason: string,
    content: string,
    triggeredRule: Option<string>,
    traceId: Option<string>,
    policyDigest: Option<string>,
    tenantId: Option<string>,
    commitment: string)

  /** Refusals decided before the store is asked. */
  function DraftError(d: Draft, scope: Option<string>, boundRequired: bool): Option<AppendError> {
    if d.commitment !in COMMITMENT_FORMS then Some(UnknownCommitment)
    else if d.tenantId.Some? && scope.Some? && d.tenantId != scope then Some(WrongTenant)
    else if boundRequired && (!Truthy(d.policyDigest) || !Truthy(d.traceId)) then Some(UnboundEvidence)
    else None
  }

  /** The record a draft becomes after `previous`. */
  function Entry(h: Hashing, scope: Option<string>, previous: string, now: real, d: Draft): AuditRecord {
    var unsealed := AuditRecord(
      now, d.clientId, d.action, d.triggeredRule, d.reason, h.OfText(d.content), "", previous,
      d.traceId, d.policyDigest, if d.tenantId.Some? then d.tenantId else scope,
      BINDING_CURRENT, d.commitment);
    unsealed.(recordHash := RecordHash(h, unsealed, previous).value)
  }

  lemma EntryIsSealed(h: Hashing, scope: Option<string>, previous: string, now: real, d: Draft)
    ensures var e := Entry(h, scope, previous, now, d);
            e.previousHash == previous && RecordHash(h, e, previous) == Some(e.recordHash)
  {
  }

  /** What the record of a draft says, field by field. */
  lemma EntryReads(h: Hashing, scope: Option<string>, previous: string, now: real, d: Draft)
    ensures var e := Entry(h, scope, previous, now, d);
            && e.timestamp == now && e.clientId == d.clientId && e.action == d.action
            && e.triggeredRule == d.triggeredRule && e.reason == d.reason && e.contentHash == h.OfText(d.content)
            && e.previousHash == previous && e.traceId == d.traceId && e.policyDigest == d.policyDigest
            && e.tenantId == (if d.tenantId.None? then scope else d.tenantId)
            && e.bindingVersion == 2 && e.commitment == d.commitment
  {
  }

  /** Whatever `record` writes, its hash binds all of the draft: two records over one predecessor, or over any two,
      have one hash only if predecessor, time, client, action, rule, reason, content digest, citation,
      tenant, trace and retention form agree, absent and empty being one, or their preimages collide. */
  lemma {:induction false} HashBindsDraft(h: Hashing, scope: Option<string>, previous: string, now: real, d: Draft,
      scope': Option<string>, previous': string, now': real, d': Draft)
    requires d.commitment in COMMITMENT_FORMS && d'.commitment in COMMITMENT_FORMS
    requires Entry(h, scope, previous, now, d).recordHash == Entry(h, scope', previous', now', d').recordHash
    ensures
      || Collision(h, Preimage(Entry(h, scope, previous, now, d), previous),
                   Preimage(Entry(h, scope', previous', now', d'), previous'))
      || (&& previous == previous' && now == now' && d.clientId == d'.clientId && d.action == d'.action
          && d.triggeredRule == d'.triggeredRule && d.reason == d'.reason && h.OfText(d.content) == h.OfText(d'.content)
          && d.policyDigest.GetOr("") == d'.policyDigest.GetOr("") && d.traceId.GetOr("") == d'.traceId.GetOr("")
          && (if d.tenantId.None? then scope else d.tenantId).GetOr("") ==
             (if d'.tenantId.None? then scope' else d'.tenantId).GetOr("")
          && d.commitment == d'.commitment)
  {
    var e, e' := Entry(h, scope, previous, now, d), Entry(h, scope', previous', now', d');
    EntryReads(h, scope, previous, now, d);
    EntryReads(h, scope', previous', now', d');
    EntryIsSealed(h, scope, previous, now, d);
    EntryIsSealed(h, scope', previous', now', d');
    FormsAre();
    hide Entry, RecordHash, PreimageFields;
    RelabellingNeedsCollision(h, e, previous, e', previous');
  }

  lemma EntryExtends(h: Hashing, rs: seq<AuditRecord>, scope: Option<string>, now: real, d: Draft)
    requires ChainOk(h, rs)
    ensures ChainOk(h, rs + [Entry(h, scope, Head(rs), now, d)])
  {
    EntryIsSealed(h, scope, Head(rs), now, d);
    ChainExtend(h, rs, Entry(h, scope, Head(rs), now, d));
  }

  /** The draft of a corrective deny. */
  function ReconciliationDraft(clientId: string, traceId: string, rule: string, content: string, reason: string,
      policyDigest: Option<string>, tenantId: Option<string>): Draft
  {
    Draft(clientId, "DENY", reason, content, Some(rule), Some(traceId), policyDigest, tenantId, COMMITMENT_NONE)
  }

  /** What a writer holding `mine` is told when it tries to append over `rows`. */
  function AppendRefusal(h: Hashing, rows: seq<AuditRecord>, mine: seq<AuditRecord>, scope: Option<string>,
      now: real, d: Draft, boundRequired: bool, condition: Condition): Option<AppendError>
  {
    var early := DraftError(d, scope, boundRequired);
    if early.Some? then early else SaveError(rows, Entry(h, scope, Head(mine), now, d), condition)
  }

  /** Why an append is refused, and when it is not: an unknown retention form, another tenant's chain, missing bound
      evidence, a full store, another fault, a predecessor already named, in that order. */
  lemma RefusalReads(h: Hashing, rows: seq<AuditRecord>, mine: seq<AuditRecord>, scope: Option<string>, now: real,
      d: Draft, boundRequired: bool, condition: Condition)
    ensures var r := AppendRefusal(h, rows, mine, scope, now, d, boundRequired, condition);
            var known := d.commitment in COMMITMENT_FORMS;
            var own := d.tenantId.None? || scope.None? || d.tenantId.value == scope.value;
            var bound := boundRequired ==> d.policyDigest.GetOr("") != "" && d.traceId.GetOr("") != "";
            var tenant := (if d.tenantId.None? then scope else d.tenantId).GetOr("");
            var previous := if mine == [] then GENESIS else mine[|mine| - 1].recordHash;
            var named := exists row | row in rows :: row.tenantId.GetOr("") == tenant && row.previousHash == previous;
            && (r == Some(UnknownCommitment) <==> !known)
            && (r == Some(WrongTenant) <==> known && !own)
            && (r == Some(UnboundEvidence) <==> known && own && !bound)
            && (r == Some(StoreFull) <==> known && own && bound && condition == NoSpace)
            && (r == Some(StoreFault) <==> known && own && bound && condition == OtherFault)
            && (r == Some(ChainFork) <==> known && own && bound && condition == Healthy && named)
            && (r.None? <==> known && own && bound && condition == Healthy && !named)
  {
    EntryReads(h, scope, Head(mine), now, d);
    hide Entry;
  }

  datatype Verification = EmptyChain | Verified | LinkBroken(at: nat) | FutureVersion(at: nat) | HashInvalid(at: nat) {
    predicate Accepts() { EmptyChain? || Verified? }
  }

  class Chain {
    const h: Hashing
    const scope: Option<string>
    const store: AuditStore
    var records: seq<AuditRecord>

    constructor (h: Hashing, scope: Option<string>, store: AuditStore, loaded: seq<AuditRecord>)
      ensures this.h == h && this.scope == scope && this.store == store && records == loaded
    {
      this.h, this.scope, this.store, records := h, scope, store, loaded;
    }

    /** AuditChain.record. */
    method Record(now: real, d: Draft, boundRequired: bool, condition: Condition)
      returns (res: Result<AuditRecord, AppendError>)
      modifies this, store
      ensures var refusal := old(AppendRefusal(h, store.rows, records, scope, now, d, boundRequired, condition));
              res == if refusal.Some? then Err(refusal.value)
                     else Ok(Entry(h, scope, old(Head(records)), now, d))
      ensures res.Ok? ==>
                && res.value.bindingVersion == 2 && res.value.timestamp == now
                && res.value.previousHash ==
                   (if old(records) == [] then GENESIS else old(records)[|old(records)| - 1].recordHash)
                && RecordHash(h, res.value, res.value.previousHash) == Some(res.value.recordHash)
      ensures res.Ok? && boundRequired ==> Truthy(res.value.policyDigest) && Truthy(res.value.traceId)
      ensures records == if res.Ok? then old(records) + [res.value] else old(records)
      ensures store.rows == if res.Ok? then old(store.rows) + [res.value] else old(store.rows)
    {
      if d.commitment !in COMMITMENT_FORMS { return Err(UnknownCommitment); }
      if d.tenantId.Some? && scope.Some? && d.tenantId != scope { return Err(WrongTenant); }
      var previous := if records != [] then records[|records| - 1].recordHash else GENESIS;
      if boundRequired && (!Truthy(d.policyDigest) || !Truthy(d.traceId)) { return Err(UnboundEvidence); }
      var e := Entry(h, scope, previous, now, d);
      var refused := store.Save(e, condition);
      if refused.Some? { return Err(refused.value); }
      records := records + [e];
      return Ok(e);
    }

    /** AuditChain.append_reconciliation: a corrective DENY, joined by its trace and its rule. */
    method AppendReconciliation(now: real, clientId: string, traceId: string, rule: string, content: string,
        reason: string, policyDigest: Option<string>, tenantId: Option<string>, boundRequired: bool,
        condition: Condition)
      returns (res: Result<AuditRecord, AppendError>)
      modifies this, store
      ensures traceId == "" <==> res == Err(MissingTrace)
      ensures traceId != "" && rule == "" <==> res == Err(MissingRule)
      ensures var refusal := old(AppendRefusal(h, store.rows, records, scope, now,
                ReconciliationDraft(clientId, traceId, rule, content, reason, policyDigest, tenantId),
                boundRequired, condition));
              traceId != "" && rule != "" ==>
                res == if refusal.Some? then Err(refusal.value)
                       else Ok(Entry(h, scope, old(Head(records)), now,
                                     ReconciliationDraft(clientId, traceId, rule, content, reason,
                                                         policyDigest, tenantId)))
      ensures res.Ok? ==>
                && res.value.action == "DENY" && res.value.traceId == Some(traceId)
                && res.value.triggeredRule == Some(rule) && res.value.policyDigest == policyDigest
                && res.value.contentHash == h.OfText(content) && res.value.commitment == COMMITMENT_NONE
                && res.value.clientId == clientId && res.value.reason == reason
                && res.value.tenantId == (if tenantId.Some? then tenantId else scope)
                && res.value.previousHash == old(Head(records))
                && RecordHash(h, res.value, res.value.previousHash) == Some(res.value.recordHash)
      ensures records == if res.Ok? then old(records) + [res.value] else old(records)
      ensures store.rows == if res.Ok? then old(store.rows) + [res.value] else old(store.rows)
    {
      if traceId == "" { return Err(MissingTrace); }
      if rule == "" { return Err(MissingRule); }
      res := Record(now, ReconciliationDraft(clientId, traceId, rule, content, reason, policyDigest, tenantId),
                    boundRequired, condition);
    }

    /** AuditChain.verify. It accepts exactly the chains; otherwise it names the first bad record, and
        a record of an unimplemented version is never reported as tampering. */
    method Verify() returns (v: Verification)
      ensures v.Accepts() <==> ChainOk(h, records)
      ensures v.EmptyChain? <==> records == []
      ensures !v.Accepts() ==>
                && v.at < |records|
                && ChainOk(h, records[..v.at])
                && (v.LinkBroken? <==> records[v.at].previousHash != Head(records[..v.at]))
                && (v.FutureVersion? ==> records[v.at].bindingVersion > BINDING_CURRENT)
                && (v.HashInvalid? ==> records[v.at].bindingVersion <= BINDING_CURRENT)
    {
      if records == [] { return EmptyChain; }
      var previous := GENESIS;
      for i := 0 to |records|
        invariant previous == Head(records[..i])
        invariant forall k | 0 <= k < i :: LinkOk(h, records, k)
      {
        ChainPrefixUpTo(h, records, i);
        if records[i].previousHash != previous {
          assert !LinkOk(h, records, i);
          return LinkBroken(i);
        }
        if records[i].bindingVersion > BINDING_CURRENT {
          assert !LinkOk(h, records, i);
          return FutureVersion(i);
        }
        if Some(records[i].recordHash) != RecordHash(h, records[i], previous) {
          assert !LinkOk(h, records, i);
          return HashInvalid(i);
        }
        assert LinkOk(h, records, i);
        previous := records[i].recordHash;
      }
      return Verified;
    }
  }

  lemma ChainPrefixUpTo(h: Hashing, rs: seq<AuditRecord>, n: nat)
    requires n <= |rs| && forall k | 0 <= k < n :: LinkOk(h, rs, k)
    ensures ChainOk(h, rs[..n])
  {
    forall i | 0 <= i < n ensures LinkOk(h, rs[..n], i) {
      assert rs[..n][..i] == rs[..i];
      assert LinkOk(h, rs, i);
    }
  }

  datatype OpenError = StoreForked | SeveralTenants

  predicate OneTenant(rows: seq<AuditRecord>) {
    forall i, j | 0 <= i < |rows| && 0 <= j < |rows| :: Scope(rows[i]) == Scope(rows[j])
  }

  function OpenRefusal(rows: seq<AuditRecord>, scope: Option<string>): Option<OpenError> {
    if !Indexed(rows) then Some(StoreForked)
    else if scope.None? && !OneTenant(rows) then Some(SeveralTenants)
    else None
  }

  /** AuditChain.__init__ over a durable store: the backend refuses a store that already forks, and an
      unscoped chain refuses a store of several tenants. */
  method Open(h: Hashing, scope: Option<string>, store: AuditStore)
    returns (chain: Option<Chain>, refused: Option<OpenError>)
    ensures refused == OpenRefusal(store.rows, scope)
    ensures refused == Some(StoreForked) <==>
            exists i, j | 0 <= i < j < |store.rows| ::
              && store.rows[i].tenantId.GetOr("") == store.rows[j].tenantId.GetOr("")
              && store.rows[i].previousHash == store.rows[j].previousHash
    ensures refused == Some(SeveralTenants) ==>
              scope.None? && exists r, r' | r in store.rows && r' in store.rows ::
                r.tenantId.GetOr("") != r'.tenantId.GetOr("")
    ensures refused.None? && scope.None? ==>
              forall r, r' | r in store.rows && r' in store.rows :: r.tenantId.GetOr("") == r'.tenantId.GetOr("")
    ensures chain.Some? <==> refused.None?
    ensures chain.Some? ==>
              && fresh(chain.value) && chain.value.store == store && chain.value.scope == scope
              && chain.value.h == h
              && chain.value.records == if scope.Some? then TenantRows(store.rows, scope.value) else store.rows
  {
    if !Indexed(store.rows) { return None, Some(StoreForked); }
    var loaded := store.LoadAll(scope);
    if scope.None? && !OneTenant(loaded) { return None, Some(SeveralTenants); }
    var c := new Chain(h, scope, store, loaded);
    return Some(c), None;
  }
}
