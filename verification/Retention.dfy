/** custos/retention.py: content bodies kept beside the chain, their purge, and the comparison of the
    two stores. */
module Retention {
  import opened Base
  import opened AuditRecords
  import opened AuditChain

  const MARKER_SALTED := "CUSTOS-COMMIT-v1:salted\0"
  const MARKER_UNSALTED := "CUSTOS-COMMIT-v0:unsalted\0"

  /** The text a commitment digests: marker, salt, body. */
  function CommitmentText(body: string, salt: string): string {
    (if salt != "" then MARKER_SALTED + (if |salt| <= 32 then salt else salt[..32]) else MARKER_UNSALTED) + body
  }

  /** A salted commitment is never digested from the text of an unsalted one, whatever the bodies. */
  lemma MarkersSeparateForms(body: string, salt: string, body': string)
    requires salt != ""
    ensures CommitmentText(body, salt) != CommitmentText(body', "")
  {
    assert CommitmentText(body, salt)[15] == '1';
    assert CommitmentText(body', "")[15] == '0';
  }

  /** Two salted commitments to bodies under salts of at least 32 bytes, as the store draws them, digest one text only
      if the first 32 bytes of the salts and the bodies agree; two unsalted ones only if the bodies do. */
  lemma CommitmentTextBinds(body: string, salt: string, body': string, salt': string)
    ensures |salt| >= 32 && |salt'| >= 32 ==>
              (CommitmentText(body, salt) == CommitmentText(body', salt') <==>
               salt[..32] == salt'[..32] && body == body')
    ensures CommitmentText(body, "") == CommitmentText(body', "") <==> body == body'
  {
    var m, u := MARKER_SALTED, MARKER_UNSALTED;
    assert CommitmentText(body, "") == u + body && CommitmentText(body', "") == u + body';
    assert (u + body)[|u|..] == body && (u + body')[|u|..] == body';
    if |salt| >= 32 && |salt'| >= 32 {
      var a, b := salt[..32], salt'[..32];
      PrefixOf(salt);
      PrefixOf(salt');
      var x, y := m + a + body, m + b + body';
      assert CommitmentText(body, salt) == x && CommitmentText(body', salt') == y;
      assert x[|m|..|m| + 32] == a && y[|m|..|m| + 32] == b;
      assert x[|m| + 32..] == body && y[|m| + 32..] == body';
    }
  }

  lemma PrefixOf(salt: string)
    requires |salt| >= 32
    ensures (if |salt| <= 32 then salt else salt[..32]) == salt[..32] && salt != ""
  {
  }

  /** One row of content_bodies; `marker` is the stored form. */
  datatype BodyRow = BodyRow(marker: string, salt: string, commitment: string, body: string)

  datatype PurgeRow = PurgeRow(purgedAt: real, reason: string, attestation: Option<string>)

  type Bodies = map<string, BodyRow>
  type Purges = map<string, PurgeRow>

  function SaltedRow(h: Hashing, body: string, salt: string): BodyRow {
    BodyRow(COMMITMENT_SALTED, salt, h.OfText(CommitmentText(body, salt)), body)
  }

  function UnsaltedRow(h: Hashing, body: string): BodyRow {
    BodyRow(COMMITMENT_UNSALTED, "", h.OfText(CommitmentText(body, "")), body)
  }

  datatype Status = Present | Purged | Unknown

  function StatusOf(bodies: Bodies, purges: Purges, digest: string): Status {
    if digest in bodies then Present else if digest in purges then Purged else Unknown
  }

  /** The form a record must bind for this digest. */
  function FormOf(bodies: Bodies, purges: Purges, digest: string): string {
    if digest in bodies then
      if bodies[digest].marker in {COMMITMENT_SALTED, COMMITMENT_UNSALTED} then bodies[digest].marker
      else COMMITMENT_NONE
    else if digest in purges then COMMITMENT_PURGED
    else COMMITMENT_NONE
  }

  /** Every body is stored under its own digest, in a form the store writes. */
  predicate WellStored(h: Hashing, bodies: Bodies) {
    forall k | k in bodies ::
      h.OfText(bodies[k].body) == k && bodies[k].marker in {COMMITMENT_SALTED, COMMITMENT_UNSALTED}
  }

  /** The form a record binds is the stored one, `purged-v1` for a body that was deleted, and `none` for one never
      held. */
  lemma FormReads(h: Hashing, bodies: Bodies, purges: Purges, digest: string)
    requires WellStored(h, bodies)
    ensures digest in bodies ==>
              FormOf(bodies, purges, digest) == bodies[digest].marker && StatusOf(bodies, purges, digest) == Present
    ensures digest !in bodies && digest in purges ==>
              FormOf(bodies, purges, digest) == COMMITMENT_PURGED && StatusOf(bodies, purges, digest) == Purged
    ensures digest !in bodies && digest !in purges ==>
              FormOf(bodies, purges, digest) == COMMITMENT_NONE && StatusOf(bodies, purges, digest) == Unknown
  {
  }

  datatype StoreError =
    | ContentPurged
    | PurgeRefused
    | PurgeRowExists
    | ChainRefused(error: AppendError)

  // ---------------------------------------------------------------------------------------------
  // What each operation does to the two sides
  // ---------------------------------------------------------------------------------------------

  /** put: kept as it was if already held, refused if purged, otherwise stored salted. */
  function AfterPut(h: Hashing, bodies: Bodies, purges: Purges, body: string, salt: string): Bodies {
    var k := h.OfText(body);
    if k in bodies || k in purges then bodies else bodies[k := SaltedRow(h, body, salt)]
  }

  /** put_legacy: stored unsalted unless already held. The purges are not consulted. */
  function AfterPutLegacy(h: Hashing, bodies: Bodies, body: string): Bodies {
    var k := h.OfText(body);
    if k in bodies then bodies else bodies[k := UnsaltedRow(h, body)]
  }

  /** A purge finds something to delete, and no purge row in its way. */
  predicate CanPurge(bodies: Bodies, purges: Purges, digest: string) {
    digest in bodies && digest !in purges
  }

  class ContentStore {
    const h: Hashing
    var bodies: Bodies
    var purges: Purges

    predicate Valid()
      reads this
    {
      WellStored(h, bodies)
    }

    constructor (h: Hashing)
      ensures Valid() && this.h == h && bodies == map[] && purges == map[]
    {
      this.h, bodies, purges := h, map[], map[];
    }

    /** ContentStore.put. */
    method Put(body: string, salt: string) returns (res: Result<string, StoreError>)
      requires Valid()
      modifies this`bodies
      ensures Valid() && bodies == AfterPut(h, old(bodies), purges, body, salt)
      ensures res == if h.OfText(body) !in old(bodies) && h.OfText(body) in purges then Err(ContentPurged)
                     else Ok(h.OfText(body))
      ensures h.OfText(body) !in old(bodies) && h.OfText(body) !in purges ==>
                && h.OfText(body) in bodies
                && var row := bodies[h.OfText(body)];
                   && row.marker == COMMITMENT_SALTED && row.salt == salt && row.body == body
                   && row.commitment == h.OfText(CommitmentText(body, salt))
      ensures forall k | k != h.OfText(body) :: k in bodies <==> k in old(bodies)
      ensures forall k | k in old(bodies) :: k in bodies && bodies[k] == old(bodies)[k]
    {
      var k := h.OfText(body);
      if k in bodies { return Ok(k); }
      if k in purges { return Err(ContentPurged); }
      bodies := bodies[k := SaltedRow(h, body, salt)];
      return Ok(k);
    }

    /** ContentStore.put_legacy. */
    method PutLegacy(body: string) returns (k: string)
      requires Valid()
      modifies this`bodies
      ensures Valid() && k == h.OfText(body) && bodies == AfterPutLegacy(h, old(bodies), body)
      ensures k in bodies && (k !in old(bodies) ==>
                && bodies[k].marker == COMMITMENT_UNSALTED && bodies[k].salt == "" && bodies[k].body == body
                && bodies[k].commitment == h.OfText(CommitmentText(body, "")))
      ensures forall d | d in old(bodies) :: d in bodies && bodies[d] == old(bodies)[d]
    {
      k := h.OfText(body);
      if k !in bodies {
        bodies := bodies[k := UnsaltedRow(h, body)];
      }
    }

    /** ContentStore.put_and_record: the record binds the form the store used, and is written only over
        a body the store holds. */
    method PutAndRecord(body: string, salt: string, legacy: bool, chain: Chain, now: real, d: Draft,
        boundRequired: bool, condition: Condition)
      returns (res: Result<AuditRecord, StoreError>)
      requires Valid() && chain.h == h
      modifies this`bodies, chain, chain.store
      ensures Valid()
      ensures bodies == if legacy then AfterPutLegacy(h, old(bodies), body)
              else AfterPut(h, old(bodies), purges, body, salt)
      ensures var d' := d.(content := body, commitment := FormOf(bodies, purges, h.OfText(body)));
              var refusal := AppendRefusal(h, old(chain.store.rows), old(chain.records), chain.scope, now, d',
                  boundRequired, condition);
              res == if h.OfText(body) !in bodies then Err(ContentPurged)
                     else if refusal.Some? then Err(ChainRefused(refusal.value))
                     else Ok(Entry(h, chain.scope, old(Head(chain.records)), now, d'))
      ensures res.Ok? ==> res.value.contentHash == h.OfText(body) && res.value.contentHash in bodies
                          && res.value.commitment == bodies[res.value.contentHash].marker
      ensures chain.records == if res.Ok? then old(chain.records) + [res.value] else old(chain.records)
      ensures chain.store.rows == if res.Ok? then old(chain.store.rows) + [res.value] else old(chain.store.rows)
    {
      var k;
      if legacy {
        k := PutLegacy(body);
      } else {
        var put := Put(body, salt);
        if put.Err? { return Err(put.error); }
        k := put.value;
      }
      var form := FormOf(bodies, purges, k);
      var written := chain.Record(now, d.(content := body, commitment := form), boundRequired, condition);
      if written.Err? { return Err(ChainRefused(written.error)); }
      return Ok(written.value);
    }

    /** ContentStore.purge. The deletion comes first and stands even when the chain refuses the
        attestation; a purge row already present rolls the deletion back. */
    method Purge(digest: string, chain: Chain, now: real, reason: string, d: Draft, boundRequired: bool,
        condition: Condition)
      returns (res: Result<string, StoreError>)
      requires Valid() && chain.h == h
      modifies this, chain, chain.store
      ensures Valid()
      ensures !CanPurge(old(bodies), old(purges), digest) ==>
                && bodies == old(bodies) && purges == old(purges) && chain.records == old(chain.records)
                && res == Err(if digest in old(bodies) then PurgeRowExists
                              else if digest in old(purges) then ContentPurged else PurgeRefused)
      ensures CanPurge(old(bodies), old(purges), digest) ==>
                && bodies == old(bodies) - {digest}
                && purges == old(purges)[digest := PurgeRow(now, reason, if res.Ok? then Some(res.value) else None)]
                && (var refusal := old(AppendRefusal(h, chain.store.rows, chain.records, chain.scope, now,
                      d.(content := bodies[digest].body, commitment := COMMITMENT_PURGED), boundRequired, condition));
                    (res.Ok? <==> refusal.None?) && (res.Err? ==> res.error == ChainRefused(refusal.value)))
                && (res.Err? ==> chain.records == old(chain.records))
                && (res.Ok? ==>
                      var a := Entry(h, chain.scope, old(Head(chain.records)), now,
                                     d.(content := old(bodies)[digest].body, commitment := COMMITMENT_PURGED));
                      && a.contentHash == digest && a.recordHash == res.value
                      && chain.records == old(chain.records) + [a])
    {
      if digest !in bodies {
        return Err(if digest in purges then ContentPurged else PurgeRefused);
      }
      var body := bodies[digest].body;
      if digest in purges { return Err(PurgeRowExists); }
      bodies := bodies - {digest};
      purges := purges[digest := PurgeRow(now, reason, None)];
      var written := chain.Record(now, d.(content := body, commitment := COMMITMENT_PURGED), boundRequired, condition);
      if written.Err? { return Err(ChainRefused(written.error)); }
      assert written.value.contentHash == digest;
      purges := purges[digest := purges[digest].(attestation := Some(written.value.recordHash))];
      return Ok(written.value.recordHash);
    }
  }

  /** Whether an append is refused does not depend on which form the record claims. */
  predicate RefusesAlike(h: Hashing, rows: seq<AuditRecord>, mine: seq<AuditRecord>, scope: Option<string>, now: real,
      d: Draft, form: string, boundRequired: bool, condition: Condition)
  {
    AppendRefusal(h, rows, mine, scope, now, d.(commitment := form), boundRequired, condition) ==
    AppendRefusal(h, rows, mine, scope, now, d.(commitment := COMMITMENT_NONE), boundRequired, condition)
  }

  lemma RefusalIgnoresForm(h: Hashing, rows: seq<AuditRecord>, mine: seq<AuditRecord>, scope: Option<string>, now: real,
      d: Draft, form: string, boundRequired: bool, condition: Condition)
    requires form in COMMITMENT_FORMS
    ensures RefusesAlike(h, rows, mine, scope, now, d, form, boundRequired, condition)
  {
    hide RecordHash;
  }

  /** record_decision. `store` is None when no tenant resolves to a store or retention is off. Content a
      purge removed is still decided, and recorded as `none`. */
  method RecordDecision(store: Option<ContentStore>, chain: Chain, now: real, d: Draft, salt: string,
      boundRequired: bool, condition: Condition)
    returns (res: Result<AuditRecord, StoreError>)
    requires store.Some? ==> store.value.Valid() && store.value.h == chain.h
    modifies chain, chain.store, if store.Some? then {store.value} else {}
    ensures store.Some? ==>
              && store.value.Valid() && store.value.purges == old(store.value.purges)
              && store.value.bodies == AfterPut(chain.h, old(store.value.bodies), store.value.purges, d.content, salt)
    ensures chain.records == if res.Ok? then old(chain.records) + [res.value] else old(chain.records)
    ensures res.Ok? ==>
              && res.value.contentHash == chain.h.OfText(d.content)
              && res.value.commitment == (if store.Some? && res.value.contentHash in store.value.bodies
                                          then store.value.bodies[res.value.contentHash].marker else COMMITMENT_NONE)
              && res.value == Entry(chain.h, chain.scope, old(Head(chain.records)), now,
                  d.(commitment := res.value.commitment))
    ensures var refusal := old(AppendRefusal(chain.h, chain.store.rows, chain.records, chain.scope, now,
                                             d.(commitment := COMMITMENT_NONE), boundRequired, condition));
            (res.Ok? <==> refusal.None?) && (res.Err? ==> res.error == ChainRefused(refusal.value))
    ensures chain.store.rows == if res.Ok? then old(chain.store.rows) + [res.value] else old(chain.store.rows)
  {
    var plain := d.(commitment := COMMITMENT_NONE);
    forall form | form in COMMITMENT_FORMS
      ensures RefusesAlike(chain.h, chain.store.rows, chain.records, chain.scope, now,
                                                               d, form, boundRequired, condition) {
      RefusalIgnoresForm(chain.h, chain.store.rows, chain.records, chain.scope, now, d, form, boundRequired, condition);
    }
    if store.Some? {
      res := store.value.PutAndRecord(d.content, salt, false, chain, now, d, boundRequired, condition);
      if res != Err(ContentPurged) {
        return;
      }
    }
    var written := chain.Record(now, plain, boundRequired, condition);
    res := match written case Ok(r) => Ok(r) case Err(e) => Err(ChainRefused(e));
  }

  // ---------------------------------------------------------------------------------------------
  // Comparing the two sides
  // ---------------------------------------------------------------------------------------------

  datatype FindingKind = BodyMissing | UnattestedPurge | UneffectedPurge

  datatype Finding = Finding(kind: FindingKind, contentHash: string, recordIndexes: seq<nat>)

  predicate Claims(r: AuditRecord, digest: string) {
    r.contentHash == digest && (r.commitment == COMMITMENT_SALTED || r.commitment == COMMITMENT_UNSALTED)
  }

  predicate Attests(r: AuditRecord, digest: string) {
    r.contentHash == digest && r.commitment == COMMITMENT_PURGED
  }

  /** The records that claim a stored form for a digest, in order. */
  function ClaimIndexes(records: seq<AuditRecord>, digest: string): seq<nat> {
    if records == [] then [] else
    var n := |records| - 1;
    ClaimIndexes(records[..n], digest) + if Claims(records[n], digest) then [n] else []
  }

  predicate Ascending(xs: seq<nat>) {
    forall a, b | 0 <= a < b < |xs| :: xs[a] < xs[b]
  }

  /** They are exactly the records that do, each once. */
  lemma {:induction false} ClaimIndexesRead(records: seq<AuditRecord>, digest: string)
    ensures forall i :: i in ClaimIndexes(records, digest) <==>
              0 <= i < |records| && records[i].contentHash == digest
              && (records[i].commitment == COMMITMENT_SALTED || records[i].commitment == COMMITMENT_UNSALTED)
    ensures Ascending(ClaimIndexes(records, digest))
    decreases |records|
  {
    if records != [] {
      var n := |records| - 1;
      ClaimIndexesRead(records[..n], digest);
      var before, all := ClaimIndexes(records[..n], digest), ClaimIndexes(records, digest);
      assert all == before + if Claims(records[n], digest) then [n] else [];
      forall i ensures i in all <==> i in before || (i == n && Claims(records[n], digest)) {}
      assert forall a | 0 <= a < |before| :: before[a] in before;
    }
  }

  predicate ClaimsStored(records: seq<AuditRecord>, digest: string) {
    exists r | r in records :: Claims(r, digest)
  }

  predicate PurgeAttested(records: seq<AuditRecord>, digest: string) {
    exists r | r in records :: Attests(r, digest)
  }

  /** What the comparison must say about one digest, if anything. */
  function FindingFor(records: seq<AuditRecord>, bodies: Bodies, purges: Purges, digest: string): Option<Finding> {
    var status := StatusOf(bodies, purges, digest);
    if status == Present then
      if PurgeAttested(records, digest) then Some(Finding(UneffectedPurge, digest, [])) else None
    else if !ClaimsStored(records, digest) then None
    else if status == Unknown then Some(Finding(BodyMissing, digest, ClaimIndexes(records, digest)))
    else if !PurgeAttested(records, digest) then Some(Finding(UnattestedPurge, digest, ClaimIndexes(records, digest)))
    else None
  }

  /** When each finding is reported of a digest, and what it lists. */
  lemma FindingReads(records: seq<AuditRecord>, bodies: Bodies, purges: Purges, digest: string)
    ensures var f := FindingFor(records, bodies, purges, digest);
            var attested := exists r | r in records :: r.contentHash == digest && r.commitment == COMMITMENT_PURGED;
            var claimed := ClaimIndexes(records, digest) != [];
            && (f.Some? ==> f.value.contentHash == digest)
            && (f.Some? && f.value.kind == UneffectedPurge <==> digest in bodies && attested)
            && (f.Some? && f.value.kind == BodyMissing <==> digest !in bodies && digest !in purges && claimed)
            && (f.Some? && f.value.kind == UnattestedPurge <==>
                  digest !in bodies && digest in purges && claimed && !attested)
            && (f.Some? && f.value.kind == UneffectedPurge ==> f.value.recordIndexes == [])
            && (f.Some? && f.value.kind != UneffectedPurge ==>
                  f.value.recordIndexes == ClaimIndexes(records, digest))
  {
    ClaimIndexesRead(records, digest);
    hide ClaimIndexes;
    var listed := ClaimIndexes(records, digest);
    if listed != [] { assert listed[0] in listed && records[listed[0]] in records; }
    if ClaimsStored(records, digest) {
      var r :| r in records && Claims(r, digest);
      var i :| 0 <= i < |records| && records[i] == r;
      assert i in listed;
    }
  }

  lemma NothingRead()
    ensures forall d :: ClaimIndexes([], d) == [] && !PurgeAttested([], d) && !ClaimsStored([], d)
  {
  }

  lemma OneMoreRead(was: seq<AuditRecord>, r: AuditRecord)
    ensures forall d :: ClaimIndexes(was + [r], d) == ClaimIndexes(was, d) + (if Claims(r, d) then [|was|] else [])
    ensures forall d :: PurgeAttested(was + [r], d) <==> PurgeAttested(was, d) || Attests(r, d)
    ensures forall d :: ClaimsStored(was + [r], d) <==> ClaimsStored(was, d) || Claims(r, d)
  {
    var now := was + [r];
    assert now[..|was|] == was && now[|was|] == r;
    forall d ensures ClaimIndexes(now, d) == ClaimIndexes(was, d) + (if Claims(r, d) then [|was|] else []) {}
  }

  /** reconcile: one finding for every digest the two sides disagree about, and no other. */
  method Reconcile(records: seq<AuditRecord>, store: ContentStore) returns (findings: seq<Finding>)
    ensures forall f :: f in findings <==> FindingFor(records, store.bodies, store.purges, f.contentHash) == Some(f)
    ensures forall i, k | 0 <= i < k < |findings| :: findings[i].contentHash != findings[k].contentHash
  {
    hide ClaimIndexes, PurgeAttested, ClaimsStored;
    var attested: set<string> := {};
    var claims: map<string, seq<nat>> := map[];
    var order: seq<string> := [];
    NothingRead();
    assert records[..0] == [];
    for i := 0 to |records|
      invariant forall d :: d in attested <==> PurgeAttested(records[..i], d)
      invariant forall d :: d in claims <==> ClaimsStored(records[..i], d)
      invariant forall d :: d in claims <==> d in order
      invariant forall a, b | 0 <= a < b < |order| :: order[a] != order[b]
      invariant forall d | d in claims :: claims[d] == ClaimIndexes(records[..i], d)
    {
      var r := records[i];
      ghost var was, now := records[..i], records[..i + 1];
      assert now == was + [r];
      OneMoreRead(was, r);
      if r.commitment == COMMITMENT_PURGED {
        attested := attested + {r.contentHash};
        assert forall d :: !Claims(r, d);
        continue;
      }
      if r.commitment == COMMITMENT_SALTED || r.commitment == COMMITMENT_UNSALTED {
        var d := r.contentHash;
        if d !in claims {
          NoClaimsNoIndexes(was, d);
          order := order + [d];
        }
        claims := claims[d := (if d in claims then claims[d] else []) + [i]];
      }
    }
    assert records[..|records|] == records;
    findings := ClaimFindings(records, store, attested, claims, order);
    var more := AttestedFindings(records, store, attested);
    findings := findings + more;
  }

  lemma {:induction false} NoClaimsNoIndexes(records: seq<AuditRecord>, digest: string)
    requires !ClaimsStored(records, digest)
    ensures ClaimIndexes(records, digest) == []
  {
    if records != [] {
      var n := |records| - 1;
      assert records == records[..n] + [records[n]];
      assert records[n] in records;
      NoClaimsNoIndexes(records[..n], digest);
    }
  }

  method ClaimFindings(records: seq<AuditRecord>, store: ContentStore, attested: set<string>, claims: map<string,
      seq<nat>>, order: seq<string>)
    returns (findings: seq<Finding>)
    requires forall d :: d in attested <==> PurgeAttested(records, d)
    requires forall d :: d in claims <==> ClaimsStored(records, d)
    requires forall d :: d in claims <==> d in order
    requires forall a, b | 0 <= a < b < |order| :: order[a] != order[b]
    requires forall d | d in claims :: claims[d] == ClaimIndexes(records, d)
    ensures forall f :: f in findings <==>
              FindingFor(records, store.bodies, store.purges, f.contentHash) == Some(f) && f.kind != UneffectedPurge
    ensures forall i, k | 0 <= i < k < |findings| :: findings[i].contentHash != findings[k].contentHash
  {
    hide ClaimIndexes, PurgeAttested;
    findings := [];
    for i := 0 to |order|
      invariant forall f :: f in findings <==>
        && FindingFor(records, store.bodies, store.purges, f.contentHash) == Some(f) && f.kind != UneffectedPurge
        && f.contentHash in order[..i]
      invariant forall a, b | 0 <= a < b < |findings| :: findings[a].contentHash != findings[b].contentHash
    {
      var d := order[i];
      assert d in order && order[..i + 1] == order[..i] + [d];
      assert d !in order[..i];
      var status := StatusOf(store.bodies, store.purges, d);
      if status == Purged && d !in attested {
        findings := findings + [Finding(UnattestedPurge, d, claims[d])];
      } else if status == Unknown {
        findings := findings + [Finding(BodyMissing, d, claims[d])];
      }
    }
    assert order[..|order|] == order;
  }

  method AttestedFindings(records: seq<AuditRecord>, store: ContentStore,
      attested: set<string>) returns (findings: seq<Finding>)
    requires forall d :: d in attested <==> PurgeAttested(records, d)
    ensures forall f :: f in findings <==>
              FindingFor(records, store.bodies, store.purges, f.contentHash) == Some(f) && f.kind == UneffectedPurge
    ensures forall i, k | 0 <= i < k < |findings| :: findings[i].contentHash != findings[k].contentHash
  {
    findings := [];
    var todo := attested;
    while todo != {}
      invariant todo <= attested
      invariant forall f :: f in findings <==>
        && FindingFor(records, store.bodies, store.purges, f.contentHash) == Some(f) && f.kind == UneffectedPurge
        && f.contentHash !in todo
      invariant forall a, b | 0 <= a < b < |findings| :: findings[a].contentHash != findings[b].contentHash
      decreases todo
    {
      var d :| d in todo;
      todo := todo - {d};
      if StatusOf(store.bodies, store.purges, d) == Present {
        findings := findings + [Finding(UneffectedPurge, d, [])];
      }
    }
  }
}
