/** custos/custody.py `verify_custody`: the external re-walk of a copy of the audit store against an
    anchor log held elsewhere. */
module Custody {
  import opened Base
  import opened AuditRecords
  import opened AuditChain

  // ---------------------------------------------------------------------------------------------
  // What an anchor log holds
  // ---------------------------------------------------------------------------------------------

  /** `gap` is whatever JSON the anchor carries: null, or the description of an outage. */
  datatype Anchor = Anchor(
    tenantId: string, epoch: int, chainLength: int, headHash: string, anchoredAt: string,
    prevAnchorHash: string, gap: Json, anchorHash: string)

  datatype PolicyCommit = PolicyCommit(
    tenantId: string, epoch: int, headHash: string, anchoredAt: string, prevAnchorHash: string,
    canonicalJson: string, anchorHash: string)

  datatype LogEntry = HeadAnchor(anchor: Anchor) | Commit(commit: PolicyCommit)

  /** The value an anchor's hash covers. */
  function AnchorJson(a: Anchor): Json {
    Obj(map[
      TenantIdKey := Str(a.tenantId), EpochKey := Int(a.epoch), ChainLengthKey := Int(a.chainLength),
      HeadHashKey := Str(a.headHash), AnchoredAtKey := Str(a.anchoredAt),
      PrevAnchorHashKey := Str(a.prevAnchorHash), GapKey := a.gap])
  }

  function AnchorHash(h: Hashing, a: Anchor): string {
    h.OfJson(AnchorJson(a))
  }

  /** The value a commitment's hash covers. */
  function CommitJson(c: PolicyCommit): Json {
    Obj(map[
      TenantIdKey := Str(c.tenantId), EpochKey := Int(c.epoch), HeadHashKey := Str(c.headHash),
      AnchoredAtKey := Str(c.anchoredAt), PrevAnchorHashKey := Str(c.prevAnchorHash),
      KindKey := Str("policy_commit"), CanonicalJsonKey := Str(c.canonicalJson)])
  }

  function CommitHash(h: Hashing, c: PolicyCommit): string {
    h.OfJson(CommitJson(c))
  }

  /** An anchor's hash covers every field but itself: two anchors with one hash agree on all of them or collide. */
  lemma AnchorHashBinds(h: Hashing, a: Anchor, b: Anchor)
    requires AnchorHash(h, a) == AnchorHash(h, b)
    ensures || Collision(h, AnchorJson(a), AnchorJson(b))
            || (&& a.tenantId == b.tenantId && a.epoch == b.epoch && a.chainLength == b.chainLength
                && a.headHash == b.headHash && a.anchoredAt == b.anchoredAt && a.prevAnchorHash == b.prevAnchorHash
                && a.gap == b.gap)
  {
    var f, g := AnchorJson(a).fields, AnchorJson(b).fields;
    if f == g {
      assert f[TenantIdKey] == g[TenantIdKey] && f[EpochKey] == g[EpochKey] && f[ChainLengthKey] == g[ChainLengthKey];
      assert f[HeadHashKey] == g[HeadHashKey] && f[AnchoredAtKey] == g[AnchoredAtKey];
      assert f[PrevAnchorHashKey] == g[PrevAnchorHashKey] && f[GapKey] == g[GapKey];
    }
  }

  /** So does a commitment's, and the two kinds of hash are never computed from one value. */
  lemma CommitHashBinds(h: Hashing, c: PolicyCommit, d: PolicyCommit, a: Anchor)
    ensures CommitHash(h, c) == CommitHash(h, d) ==>
              || Collision(h, CommitJson(c), CommitJson(d))
              || (&& c.tenantId == d.tenantId && c.epoch == d.epoch && c.headHash == d.headHash
                  && c.anchoredAt == d.anchoredAt && c.prevAnchorHash == d.prevAnchorHash
                  && c.canonicalJson == d.canonicalJson)
    ensures CommitJson(c) != AnchorJson(a)
  {
    var f, g := CommitJson(c).fields, CommitJson(d).fields;
    assert KindKey in f && KindKey !in AnchorJson(a).fields;
    if f == g {
      assert f[TenantIdKey] == g[TenantIdKey] && f[EpochKey] == g[EpochKey] && f[HeadHashKey] == g[HeadHashKey];
      assert f[AnchoredAtKey] == g[AnchoredAtKey] && f[PrevAnchorHashKey] == g[PrevAnchorHashKey];
      assert f[CanonicalJsonKey] == g[CanonicalJsonKey];
    }
  }

  function Anchors(log: seq<LogEntry>): seq<Anchor> {
    if log == [] then []
    else (if log[0].HeadAnchor? then [log[0].anchor] else []) + Anchors(log[1..])
  }

  function Commits(log: seq<LogEntry>): seq<PolicyCommit> {
    if log == [] then []
    else (if log[0].Commit? then [log[0].commit] else []) + Commits(log[1..])
  }

  lemma {:induction false} AnchorsAre(log: seq<LogEntry>, a: Anchor)
    ensures a in Anchors(log) <==> HeadAnchor(a) in log
  {
    if log != [] {
      AnchorsAre(log[1..], a);
      assert log == [log[0]] + log[1..];
    }
  }

  lemma {:induction false} CommitsAre(log: seq<LogEntry>, c: PolicyCommit)
    ensures c in Commits(log) <==> Commit(c) in log
  {
    if log != [] {
      CommitsAre(log[1..], c);
      assert log == [log[0]] + log[1..];
    }
  }

  /** `sorted(anchors, key=epoch)`, which is stable. */
  function SortByEpoch(xs: seq<Anchor>): (r: seq<Anchor>)
    ensures multiset(r) == multiset(xs)
  {
    if xs == [] then []
    else
      assert xs == [xs[0]] + xs[1..];
      InsertByEpoch(xs[0], SortByEpoch(xs[1..]))
  }

  function InsertByEpoch(x: Anchor, xs: seq<Anchor>): (r: seq<Anchor>)
    ensures multiset(r) == multiset(xs) + multiset{x}
  {
    if xs == [] then [x]
    else
      assert xs == [xs[0]] + xs[1..];
      if x.epoch <= xs[0].epoch then [x] + xs else [xs[0]] + InsertByEpoch(x, xs[1..])
  }

  predicate EpochsAscend(xs: seq<Anchor>) {
    forall i, j | 0 <= i < j < |xs| :: xs[i].epoch <= xs[j].epoch
  }

  lemma {:induction false} SortOfAscending(xs: seq<Anchor>)
    requires EpochsAscend(xs)
    ensures SortByEpoch(xs) == xs
  {
    if xs != [] {
      SortOfAscending(xs[1..]);
      assert xs == [xs[0]] + xs[1..];
    }
  }

  lemma {:induction false} InsertAscends(x: Anchor, xs: seq<Anchor>)
    requires EpochsAscend(xs)
    ensures EpochsAscend(InsertByEpoch(x, xs))
  {
    if xs != [] && x.epoch > xs[0].epoch {
      var rest := InsertByEpoch(x, xs[1..]);
      InsertAscends(x, xs[1..]);
      forall k | 0 <= k < |rest| ensures xs[0].epoch <= rest[k].epoch {
        assert rest[k] in multiset(rest);
        if rest[k] != x {
          assert rest[k] in xs[1..];
          var i :| 0 <= i < |xs[1..]| && xs[1..][i] == rest[k];
          assert xs[i + 1] == rest[k];
        }
      }
    }
  }

  lemma {:induction false} SortAscends(xs: seq<Anchor>)
    ensures EpochsAscend(SortByEpoch(xs))
  {
    if xs != [] {
      SortAscends(xs[1..]);
      InsertAscends(xs[0], SortByEpoch(xs[1..]));
    }
  }

  // ---------------------------------------------------------------------------------------------
  // The verdicts, as statements about the evidence
  // ---------------------------------------------------------------------------------------------

  datatype Verdict = ESTABLISHED | CANNOT_ESTABLISH | CONTRADICTION

  /** The digests the re-walk arrives at. After a broken link it goes on from the digest the store
      claims; None where a record of an unimplemented version makes the source raise. */
  function Recomputed(h: Hashing, rs: seq<AuditRecord>): (out: Option<seq<string>>)
    ensures out.Some? ==> |out.value| == |rs|
  {
    if rs == [] then Some([]) else
    var n := |rs| - 1;
    var before := Recomputed(h, rs[..n]);
    if before.None? then None else
    if rs[n].previousHash != LastOr(before.value) then Some(before.value + [rs[n].recordHash]) else
    var expected := RecordHash(h, rs[n], rs[n].previousHash);
    if expected.None? then None else Some(before.value + [expected.value])
  }

  function LastOr(hashes: seq<string>): string {
    if hashes == [] then GENESIS else hashes[|hashes| - 1]
  }

  /** Anchor i continues the anchor chain. */
  predicate AnchorLinkOk(h: Hashing, anchors: seq<Anchor>, i: nat)
    requires i < |anchors|
  {
    && anchors[i].epoch > (if i == 0 then 0 else anchors[i - 1].epoch)
    && anchors[i].prevAnchorHash == (if i == 0 then GENESIS else anchors[i - 1].anchorHash)
    && anchors[i].anchorHash == AnchorHash(h, anchors[i])
  }

  predicate AnchorChainOk(h: Hashing, anchors: seq<Anchor>) {
    forall i | 0 <= i < |anchors| :: AnchorLinkOk(h, anchors, i)
  }

  predicate HeadMatches(hashes: seq<string>, a: Anchor) {
    1 <= a.chainLength <= |hashes| && hashes[a.chainLength - 1] == a.headHash
  }

  predicate CommitOk(h: Hashing, c: PolicyCommit) {
    c.anchorHash == CommitHash(h, c) && h.OfText(c.canonicalJson) == c.headHash
  }

  /** `rec.get("tenant_id") or rec.get("client_id", "")`. */
  function CitingTenant(r: AuditRecord): string {
    if Truthy(r.tenantId) then r.tenantId.value else r.clientId
  }

  predicate Anchored(commits: seq<PolicyCommit>, tenant: string, digest: string) {
    exists c | c in commits :: c.tenantId == tenant && c.headHash == digest
  }

  predicate CitationOk(commits: seq<PolicyCommit>, r: AuditRecord) {
    Truthy(r.policyDigest) ==> Anchored(commits, CitingTenant(r), r.policyDigest.value)
  }

  predicate Cites(rs: seq<AuditRecord>) {
    exists r | r in rs :: Truthy(r.policyDigest)
  }

  datatype Report = Report(p1: Verdict, p2: Verdict, p3: Verdict, p4: Verdict,
                           p5: Option<Verdict>, p6: Option<Verdict>, overall: Verdict)

  function Decide(holds: bool): Verdict {
    if holds then ESTABLISHED else CONTRADICTION
  }

  function Overall(p1: Verdict, p2: Verdict, p3: Verdict, p4: Verdict, p5: Option<Verdict>,
      p6: Option<Verdict>): Verdict
  {
    if p1 == CONTRADICTION || p2 == CONTRADICTION || p3 == CONTRADICTION || p4 == CONTRADICTION
       || p5 == Some(CONTRADICTION) || p6 == Some(CONTRADICTION) then CONTRADICTION
    else if p1 == p2 == p3 == p4 == ESTABLISHED
            && p5 != Some(CANNOT_ESTABLISH) && p6 != Some(CANNOT_ESTABLISH) then ESTABLISHED
    else CANNOT_ESTABLISH
  }

  /** The four head-anchor verdicts and the two citation verdicts; None where the source raises. */
  function Verdicts(h: Hashing, rs: seq<AuditRecord>, log: seq<LogEntry>): Option<Report> {
    var walked := Recomputed(h, rs);
    if walked.None? then None else
    var anchors := SortByEpoch(Anchors(log));
    var commits := Commits(log);
    var none := anchors == [];
    var p1 := Decide(ChainOk(h, rs));
    var p2 := if none then CANNOT_ESTABLISH else Decide(forall a | a in anchors :: HeadMatches(walked.value, a));
    var p3 := if none then CANNOT_ESTABLISH else Decide(AnchorChainOk(h, anchors));
    var p4 := if none then CANNOT_ESTABLISH else Decide(forall a | a in anchors :: a.chainLength <= |rs|);
    var p5 := if commits == [] then None else Some(Decide(forall c | c in commits :: CommitOk(h, c)));
    var p6 := if !Cites(rs) then None else Some(Decide(forall r | r in rs :: CitationOk(commits, r)));
    Some(Report(p1, p2, p3, p4, p5, p6, Overall(p1, p2, p3, p4, p5, p6)))
  }

  // ---------------------------------------------------------------------------------------------
  // The re-walk itself
  // ---------------------------------------------------------------------------------------------

  /** P1's loop: the running digest, the list of recomputed digests, and whether anything broke. */
  method WalkRecords(h: Hashing, rs: seq<AuditRecord>) returns (walked: Option<seq<string>>, p1: Verdict)
    ensures walked == Recomputed(h, rs)
    ensures walked.Some? ==> p1 == Decide(ChainOk(h, rs))
  {
    var prev := GENESIS;
    var recomputed: seq<string> := [];
    p1 := ESTABLISHED;
    for i := 0 to |rs|
      invariant |recomputed| == i && Recomputed(h, rs[..i]) == Some(recomputed) && prev == LastOr(recomputed)
      invariant p1 == ESTABLISHED || p1 == CONTRADICTION
      invariant p1 == ESTABLISHED ==> prev == Head(rs[..i])
      invariant p1 == ESTABLISHED <==> forall k | 0 <= k < i :: LinkOk(h, rs, k)
    {
      var rec := rs[i];
      assert rs[..i + 1][..i] == rs[..i] && rs[..i + 1][i] == rec;
      if rec.previousHash != prev {
        assert p1 == ESTABLISHED ==> !LinkOk(h, rs, i);
        p1 := CONTRADICTION;
        prev := rec.recordHash;
        recomputed := recomputed + [prev];
        continue;
      }
      var expected := RecordHash(h, rec, prev);
      if expected.None? {
        RaisesOnward(h, rs, i + 1);
        return None, p1;
      }
      if rec.recordHash != expected.value {
        assert !LinkOk(h, rs, i);
        p1 := CONTRADICTION;
      }
      recomputed := recomputed + [expected.value];
      prev := expected.value;
    }
    assert rs[..|rs|] == rs;
    return Some(recomputed), p1;
  }

  lemma {:induction false} RaisesOnward(h: Hashing, rs: seq<AuditRecord>, n: nat)
    requires n <= |rs| && Recomputed(h, rs[..n]).None?
    ensures Recomputed(h, rs).None?
    decreases |rs|
  {
    if n < |rs| {
      assert rs[..|rs| - 1][..n] == rs[..n];
      RaisesOnward(h, rs[..|rs| - 1], n);
    } else {
      assert rs[..n] == rs;
    }
  }

  method WalkAnchors(h: Hashing, anchors: seq<Anchor>) returns (p3: Verdict)
    ensures p3 == Decide(AnchorChainOk(h, anchors))
  {
    var prevAnchor := GENESIS;
    var lastEpoch := 0;
    for i := 0 to |anchors|
      invariant prevAnchor == if i == 0 then GENESIS else anchors[i - 1].anchorHash
      invariant lastEpoch == if i == 0 then 0 else anchors[i - 1].epoch
      invariant forall k | 0 <= k < i :: AnchorLinkOk(h, anchors, k)
    {
      var a := anchors[i];
      if a.epoch <= lastEpoch || a.prevAnchorHash != prevAnchor || a.anchorHash != AnchorHash(h, a) {
        assert !AnchorLinkOk(h, anchors, i);
        return CONTRADICTION;
      }
      prevAnchor := a.anchorHash;
      lastEpoch := a.epoch;
    }
    return ESTABLISHED;
  }

  method MatchHeads(hashes: seq<string>, anchors: seq<Anchor>) returns (p2: Verdict)
    ensures p2 == Decide(forall a | a in anchors :: HeadMatches(hashes, a))
  {
    for i := 0 to |anchors|
      invariant forall k | 0 <= k < i :: HeadMatches(hashes, anchors[k])
    {
      var a := anchors[i];
      if a.chainLength < 1 || a.chainLength > |hashes| {
        assert !HeadMatches(hashes, a);
        return CONTRADICTION;
      }
      if hashes[a.chainLength - 1] != a.headHash {
        assert !HeadMatches(hashes, a);
        return CONTRADICTION;
      }
    }
    return ESTABLISHED;
  }

  /** `max(a.chain_length for a in anchors)`. */
  method LongestAnchor(anchors: seq<Anchor>) returns (last: int)
    requires anchors != []
    ensures exists a | a in anchors :: a.chainLength == last
    ensures forall a | a in anchors :: a.chainLength <= last
  {
    last := anchors[0].chainLength;
    for i := 1 to |anchors|
      invariant exists a | a in anchors :: a.chainLength == last
      invariant forall k | 0 <= k < i :: anchors[k].chainLength <= last
    {
      if anchors[i].chainLength > last {
        last := anchors[i].chainLength;
        assert anchors[i] in anchors;
      }
    }
  }

  method CheckCommits(h: Hashing, commits: seq<PolicyCommit>) returns (p5: Verdict)
    ensures p5 == Decide(forall c | c in commits :: CommitOk(h, c))
  {
    for i := 0 to |commits|
      invariant forall k | 0 <= k < i :: CommitOk(h, commits[k])
    {
      var c := commits[i];
      if c.anchorHash != CommitHash(h, c) || h.OfText(c.canonicalJson) != c.headHash {
        assert !CommitOk(h, commits[i]);
        return CONTRADICTION;
      }
    }
    return ESTABLISHED;
  }

  method CheckCitations(commits: seq<PolicyCommit>, rs: seq<AuditRecord>) returns (p6: Option<Verdict>)
    ensures p6 == if Cites(rs) then Some(Decide(forall r | r in rs :: CitationOk(commits, r))) else None
  {
    var anchored: set<(string, string)> := {};
    for i := 0 to |commits|
      invariant forall t, d :: (t, d) in anchored <==> exists k | 0 <= k < i ::
          commits[k].tenantId == t && commits[k].headHash == d
    {
      anchored := anchored + {(commits[i].tenantId, commits[i].headHash)};
    }
    var cited, unanchored := false, false;
    for i := 0 to |rs|
      invariant cited <==> exists k | 0 <= k < i :: Truthy(rs[k].policyDigest)
      invariant unanchored <==> exists k | 0 <= k < i :: !CitationOk(commits, rs[k])
    {
      if Truthy(rs[i].policyDigest) {
        cited := true;
        var entry := (CitingTenant(rs[i]), rs[i].policyDigest.value);
        assert entry in anchored <==> Anchored(commits, entry.0, entry.1);
        if entry !in anchored {
          unanchored := true;
        }
      }
    }
    if !cited { return None; }
    return Some(if unanchored then CONTRADICTION else ESTABLISHED);
  }

  /** verify_custody. */
  method VerifyCustody(h: Hashing, rs: seq<AuditRecord>, log: seq<LogEntry>) returns (report: Option<Report>)
    ensures report == Verdicts(h, rs, log)
  {
    hide ChainOk, AnchorChainOk, HeadMatches, CommitOk, CitationOk, SortByEpoch, Recomputed, Cites;
    var anchors := SortByEpoch(Anchors(log));
    var commits := Commits(log);
    var walked, p1 := WalkRecords(h, rs);
    if walked.None? { return None; }
    var p2, p3, p4 := CANNOT_ESTABLISH, CANNOT_ESTABLISH, CANNOT_ESTABLISH;
    if anchors != [] {
      p3 := WalkAnchors(h, anchors);
      p2 := MatchHeads(walked.value, anchors);
      var last := LongestAnchor(anchors);
      p4 := if |rs| < last then CONTRADICTION else ESTABLISHED;
    }
    var p5 := None;
    if commits != [] {
      var integrity := CheckCommits(h, commits);
      p5 := Some(integrity);
    }
    var p6 := CheckCitations(commits, rs);
    return Some(Report(p1, p2, p3, p4, p5, p6, Overall(p1, p2, p3, p4, p5, p6)));
  }

  // ---------------------------------------------------------------------------------------------
  // What each verdict says, read off the copy and the log
  // ---------------------------------------------------------------------------------------------

  /** The digests the re-walk arrives at, place by place: what the record hashes to, or, where it does not name the
      digest before it, what the copy claims. */
  lemma {:induction false} RecomputedReads(h: Hashing, rs: seq<AuditRecord>, i: nat)
    requires Recomputed(h, rs).Some? && i < |rs|
    ensures var walked := Recomputed(h, rs).value;
            var previous := if i == 0 then GENESIS else walked[i - 1];
            if rs[i].previousHash != previous then walked[i] == rs[i].recordHash
            else RecordHash(h, rs[i], previous) == Some(walked[i])
    decreases |rs|
  {
    if i < |rs| - 1 { RecomputedReads(h, rs[..|rs| - 1], i); }
  }

  lemma LastWalked(h: Hashing, rs: seq<AuditRecord>)
    requires Recomputed(h, rs).Some?
    ensures |Recomputed(h, rs).value| == |rs|
    ensures LastOr(Recomputed(h, rs).value) == if rs == [] then GENESIS else Recomputed(h, rs).value[|rs| - 1]
  {
  }

  /** The re-walk raises exactly when it meets a record of an unimplemented version that names the digest before it. */
  lemma {:induction false} RaisesIff(h: Hashing, rs: seq<AuditRecord>)
    ensures Recomputed(h, rs).None? <==> exists i | 0 <= i < |rs| :: RaisesAt(h, rs, i)
    decreases |rs|
  {
    if rs != [] {
      var n := |rs| - 1;
      RaisesIff(h, rs[..n]);
      forall i | 0 <= i < n ensures RaisesAt(h, rs[..n], i) <==> RaisesAt(h, rs, i) {
        assert rs[..n][..i] == rs[..i];
      }
      if Recomputed(h, rs[..n]).Some? { LastWalked(h, rs[..n]); }
      assert Recomputed(h, rs).None? <==> Recomputed(h, rs[..n]).None? || RaisesAt(h, rs, n);
    }
  }

  predicate RaisesAt(h: Hashing, rs: seq<AuditRecord>, i: nat)
    requires i < |rs|
  {
    var walked := Recomputed(h, rs[..i]);
    && walked.Some? && rs[i].bindingVersion > 2
    && rs[i].previousHash == if i == 0 then GENESIS else walked.value[i - 1]
  }

  ghost predicate HasAnchor(log: seq<LogEntry>) {
    exists a :: HeadAnchor(a) in log
  }

  lemma SortedIsLog(log: seq<LogEntry>, a: Anchor)
    ensures a in SortByEpoch(Anchors(log)) <==> HeadAnchor(a) in log
  {
    AnchorsAre(log, a);
    assert a in SortByEpoch(Anchors(log)) <==> a in multiset(SortByEpoch(Anchors(log)));
  }

  lemma AnchoredIffSome(log: seq<LogEntry>)
    ensures HasAnchor(log) <==> SortByEpoch(Anchors(log)) != []
  {
    hide SortByEpoch, Anchors;
    var sorted := SortByEpoch(Anchors(log));
    if sorted != [] { SortedIsLog(log, sorted[0]); }
    if HasAnchor(log) {
      var a :| HeadAnchor(a) in log;
      SortedIsLog(log, a);
    }
  }

  /** Without a head anchor P2, P3 and P4 cannot be established. With one, P2 is ESTABLISHED when every anchored head
      is the recomputed digest at its length, P4 when no anchored length exceeds the copy, and each is
      CONTRADICTION otherwise. P1 never depends on the log. */
  lemma HeadVerdictsRead(h: Hashing, rs: seq<AuditRecord>, log: seq<LogEntry>)
    requires Verdicts(h, rs, log).Some?
    ensures Recomputed(h, rs).Some?
    ensures var r, walked := Verdicts(h, rs, log).value, Recomputed(h, rs).value;
            && r.p1 == (if ChainOk(h, rs) then ESTABLISHED else CONTRADICTION)
            && (!HasAnchor(log) ==> r.p2 == CANNOT_ESTABLISH && r.p3 == CANNOT_ESTABLISH && r.p4 == CANNOT_ESTABLISH)
            && (HasAnchor(log) ==>
                  && r.p2 in {ESTABLISHED, CONTRADICTION} && r.p4 in {ESTABLISHED, CONTRADICTION}
                  && (r.p2 == ESTABLISHED <==>
                        forall a | HeadAnchor(a) in log ::
                          1 <= a.chainLength <= |rs| && walked[a.chainLength - 1] == a.headHash)
                  && (r.p4 == CONTRADICTION <==> exists a :: HeadAnchor(a) in log && a.chainLength > |rs|))
  {
    hide ChainOk, AnchorChainOk, SortByEpoch, Anchors, Commits, CommitOk, CitationOk, Cites, RecordHash, HasAnchor;
    AnchoredIffSome(log);
    forall a ensures a in SortByEpoch(Anchors(log)) <==> HeadAnchor(a) in log { SortedIsLog(log, a); }
    if HasAnchor(log) {
      var walked, r := Recomputed(h, rs).value, Verdicts(h, rs, log).value;
      assert r.p2 == Decide(forall a | a in SortByEpoch(Anchors(log)) :: HeadMatches(walked, a));
      assert r.p4 == Decide(forall a | a in SortByEpoch(Anchors(log)) :: a.chainLength <= |rs|);
    }
  }

  /** With a head anchor P3 is ESTABLISHED when the anchors, in ascending order, climb strictly from an epoch of at
      least one, each naming the hash of the one before, the first the genesis value, and each hashing to
      itself; and CONTRADICTION otherwise. */
  lemma AnchorVerdictReads(h: Hashing, rs: seq<AuditRecord>, log: seq<LogEntry>)
    requires Verdicts(h, rs, log).Some? && HasAnchor(log)
    ensures var xs := SortByEpoch(Anchors(log));
            && EpochsAscend(xs) && multiset(xs) == multiset(Anchors(log)) && xs != []
            && Verdicts(h, rs, log).value.p3 in {ESTABLISHED, CONTRADICTION}
            && (Verdicts(h, rs, log).value.p3 == ESTABLISHED <==>
                  && xs[0].epoch >= 1 && xs[0].prevAnchorHash == GENESIS
                  && (forall i | 0 <= i < |xs| :: xs[i].anchorHash == h.OfJson(AnchorJson(xs[i])))
                  && (forall i | 0 < i < |xs| ::
                        xs[i - 1].epoch < xs[i].epoch && xs[i].prevAnchorHash == xs[i - 1].anchorHash))
  {
    hide ChainOk, Recomputed, SortByEpoch, Anchors, Commits, CommitOk, CitationOk, Cites, HeadMatches, AnchorJson,
      EpochsAscend;
    AnchoredIffSome(log);
    SortAscends(Anchors(log));
    var xs := SortByEpoch(Anchors(log));
    if AnchorChainOk(h, xs) {
      assert AnchorLinkOk(h, xs, 0);
      forall i | 0 <= i < |xs|
        ensures xs[i].anchorHash == h.OfJson(AnchorJson(xs[i]))
        ensures i > 0 ==> xs[i - 1].epoch < xs[i].epoch && xs[i].prevAnchorHash == xs[i - 1].anchorHash
      {
        assert AnchorLinkOk(h, xs, i);
      }
    }
  }

  /** P5 is absent without a commitment, and otherwise CONTRADICTION exactly when one does not hash to itself or its
      text does not hash to its digest. */
  lemma CommitVerdictReads(h: Hashing, rs: seq<AuditRecord>, log: seq<LogEntry>)
    requires Verdicts(h, rs, log).Some?
    ensures var p5 := Verdicts(h, rs, log).value.p5;
            && p5 in {None, Some(ESTABLISHED), Some(CONTRADICTION)}
            && (p5.Some? <==> exists c :: Commit(c) in log)
            && (p5 == Some(CONTRADICTION) <==>
                  exists c :: Commit(c) in log && (c.anchorHash != h.OfJson(CommitJson(c))
                                                   || h.OfText(c.canonicalJson) != c.headHash))
  {
    hide ChainOk, AnchorChainOk, SortByEpoch, Anchors, Commits, HeadMatches, Recomputed, CommitJson, CitationOk, Cites;
    var commits := Commits(log);
    forall c ensures c in commits <==> Commit(c) in log { CommitsAre(log, c); }
    if commits != [] { assert commits[0] in commits; }
    assert Verdicts(h, rs, log).value.p5 ==
           if commits == [] then None else Some(Decide(forall c | c in commits :: CommitOk(h, c)));
  }

  ghost predicate CommittedFor(log: seq<LogEntry>, tenant: string, digest: string) {
    exists c :: Commit(c) in log && c.tenantId == tenant && c.headHash == digest
  }

  /** P6 is absent when nothing is cited, and otherwise CONTRADICTION exactly when some record cites a digest of which
      the log has no commitment for the record's tenant, or for its client where it names no tenant. */
  lemma CitationVerdictReads(h: Hashing, rs: seq<AuditRecord>, log: seq<LogEntry>)
    requires Verdicts(h, rs, log).Some?
    ensures var p6 := Verdicts(h, rs, log).value.p6;
            && p6 in {None, Some(ESTABLISHED), Some(CONTRADICTION)}
            && (p6.Some? <==> exists rec | rec in rs :: rec.policyDigest.GetOr("") != "")
            && (p6 == Some(CONTRADICTION) <==>
                  exists rec | rec in rs ::
                    && rec.policyDigest.GetOr("") != ""
                    && !CommittedFor(log, if rec.tenantId.GetOr("") != "" then rec.tenantId.value else rec.clientId,
                                     rec.policyDigest.value))
  {
    hide ChainOk, AnchorChainOk, SortByEpoch, Anchors, Commits, HeadMatches, Recomputed, CommitOk;
    var commits := Commits(log);
    forall c ensures c in commits <==> Commit(c) in log { CommitsAre(log, c); }
    forall t: string, digest: string ensures Anchored(commits, t, digest) <==> CommittedFor(log, t, digest) {}
    assert Verdicts(h, rs, log).value.p6 ==
           if !Cites(rs) then None else Some(Decide(forall rec | rec in rs :: CitationOk(commits, rec)));
  }

  lemma OverallIs(r: Report)
    ensures var overall := Overall(r.p1, r.p2, r.p3, r.p4, r.p5, r.p6);
            && (overall == CONTRADICTION <==> Reported(r, CONTRADICTION))
            && (overall == ESTABLISHED <==> forall v | Reported(r, v) :: v == ESTABLISHED)
  {
    assert Reported(r, r.p1) && Reported(r, r.p2) && Reported(r, r.p3) && Reported(r, r.p4);
    assert r.p5.Some? ==> Reported(r, r.p5.value);
    assert r.p6.Some? ==> Reported(r, r.p6.value);
  }

  /** The report contains this verdict on some proposition. */
  predicate Reported(r: Report, v: Verdict) {
    v == r.p1 || v == r.p2 || v == r.p3 || v == r.p4 || Some(v) == r.p5 || Some(v) == r.p6
  }

  /** Overall is CONTRADICTION exactly when some reported verdict is, and ESTABLISHED exactly when every one is; so
      never without a head anchor. */
  lemma OverallReads(h: Hashing, rs: seq<AuditRecord>, log: seq<LogEntry>)
    requires Verdicts(h, rs, log).Some?
    ensures var r := Verdicts(h, rs, log).value;
            && (r.overall == CONTRADICTION <==> Reported(r, CONTRADICTION))
            && (r.overall == ESTABLISHED <==> forall v | Reported(r, v) :: v == ESTABLISHED)
            && (!HasAnchor(log) ==> r.overall != ESTABLISHED)
  {
    hide ChainOk, AnchorChainOk, SortByEpoch, Anchors, Commits, HeadMatches, Recomputed, CommitOk, CitationOk, Cites,
      HasAnchor, Reported, Overall;
    var r := Verdicts(h, rs, log).value;
    HeadVerdictsRead(h, rs, log);
    OverallIs(r);
    assert r.overall == Overall(r.p1, r.p2, r.p3, r.p4, r.p5, r.p6);
    CannotIsReported(r);
  }

  lemma CannotIsReported(r: Report)
    ensures r.p2 == CANNOT_ESTABLISH ==> Reported(r, CANNOT_ESTABLISH)
  {
  }

  // ---------------------------------------------------------------------------------------------
  // What the verdicts establish
  // ---------------------------------------------------------------------------------------------

  lemma {:induction false} ChainRecomputes(h: Hashing, rs: seq<AuditRecord>)
    requires ChainOk(h, rs)
    ensures Recomputed(h, rs).Some?
    ensures forall i | 0 <= i < |rs| :: Recomputed(h, rs).value[i] == rs[i].recordHash
  {
    if rs != [] {
      var n := |rs| - 1;
      ChainPrefix(h, rs, n);
      ChainRecomputes(h, rs[..n]);
      assert LinkOk(h, rs, n);
    }
  }

  /** The two walkers agree: external P1 is ESTABLISHED exactly when the chain's own `verify` accepts,
      and they agree on records of any version. */
  lemma ExternalAgreesWithInternal(h: Hashing, rs: seq<AuditRecord>, log: seq<LogEntry>)
    ensures Verdicts(h, rs, log).Some? && Verdicts(h, rs, log).value.p1 == ESTABLISHED <==> ChainOk(h, rs)
  {
    if ChainOk(h, rs) {
      ChainRecomputes(h, rs);
    }
  }

  /** Where there are anchors, matching heads implies completeness, though P2 and P4 are separate loops. */
  lemma {:induction false} MatchingHeadsMeanComplete(h: Hashing, rs: seq<AuditRecord>, log: seq<LogEntry>)
    requires Verdicts(h, rs, log).Some? && Verdicts(h, rs, log).value.p2 == ESTABLISHED
    ensures Verdicts(h, rs, log).value.p4 == ESTABLISHED
  {
    var anchors := SortByEpoch(Anchors(log));
    forall a | a in anchors ensures a.chainLength <= |rs| {
      assert HeadMatches(Recomputed(h, rs).value, a);
    }
  }

  /** The records below `length` agree with the honest ones: same links, same digests, and the same
      value in every field the record's version binds. */
  predicate AgreeBelow(honest: seq<AuditRecord>, rs: seq<AuditRecord>, length: nat)
    requires length <= |honest|
  {
    && length <= |rs|
    && forall i | 0 <= i < length :: AgreeAt(honest, rs, i)
  }

  predicate AgreeAt(honest: seq<AuditRecord>, rs: seq<AuditRecord>, i: nat)
    requires i < |honest| && i < |rs|
  {
    && honest[i].recordHash == rs[i].recordHash
    && BoundView(honest[i], honest[i].previousHash) == BoundView(rs[i], rs[i].previousHash)
  }

  /** An honest record and the presented record at the same place whose preimages collide. */
  ghost predicate CollisionAcross(h: Hashing, honest: seq<AuditRecord>, rs: seq<AuditRecord>) {
    exists i | 0 <= i < |honest| && i < |rs| :: CollidesAt(h, honest, rs, i)
  }

  predicate CollidesAt(h: Hashing, honest: seq<AuditRecord>, rs: seq<AuditRecord>, i: nat)
    requires i < |honest| && i < |rs|
  {
    && honest[i].bindingVersion <= BINDING_CURRENT && rs[i].bindingVersion <= BINDING_CURRENT
    && Collision(h, Preimage(honest[i], honest[i].previousHash), Preimage(rs[i], rs[i].previousHash))
  }

  /** From an equal digest at one place, two chains agree all the way down. */
  lemma {:induction false} AgreeDownFrom(h: Hashing, honest: seq<AuditRecord>, rs: seq<AuditRecord>, length: nat)
    requires ChainOk(h, honest) && ChainOk(h, rs)
    requires length <= |honest| && length <= |rs|
    requires length > 0 ==> honest[length - 1].recordHash == rs[length - 1].recordHash
    ensures CollisionAcross(h, honest, rs) || AgreeBelow(honest, rs, length)
  {
    if length > 0 && !CollisionAcross(h, honest, rs) {
      var i := length - 1;
      assert LinkOk(h, honest, i) && LinkOk(h, rs, i) && !CollidesAt(h, honest, rs, i);
      RelabellingNeedsCollision(h, honest[i], honest[i].previousHash, rs[i], rs[i].previousHash);
      AgreeDownFrom(h, honest, rs, i);
      assert AgreeAt(honest, rs, i);
    }
  }

  lemma AnchoredHeadMatches(h: Hashing, rs: seq<AuditRecord>, log: seq<LogEntry>, a: Anchor)
    requires a in Anchors(log) && Verdicts(h, rs, log).Some?
    requires Verdicts(h, rs, log).value.p1 == ESTABLISHED && Verdicts(h, rs, log).value.p2 == ESTABLISHED
    ensures ChainOk(h, rs) && Recomputed(h, rs).Some? && HeadMatches(Recomputed(h, rs).value, a)
  {
    hide ChainOk, Recomputed, HeadMatches, AnchorChainOk, CommitOk, CitationOk, Cites, Anchors;
    assert a in multiset(SortByEpoch(Anchors(log)));
  }

  /** Tamper evidence. Let the log hold an anchor taken of an honest chain at some length. A copy for
      which P1 and P2 come out ESTABLISHED agrees with the honest chain on every bound field below
      that length, or one of its records collides with the honest record in its place. */
  lemma {:induction false} EstablishedMeansUntampered(h: Hashing, honest: seq<AuditRecord>, rs: seq<AuditRecord>,
      log: seq<LogEntry>, a: Anchor)
    requires ChainOk(h, honest) && a in Anchors(log)
    requires 1 <= a.chainLength <= |honest| && a.headHash == honest[a.chainLength - 1].recordHash
    requires Verdicts(h, rs, log).Some?
    requires Verdicts(h, rs, log).value.p1 == ESTABLISHED && Verdicts(h, rs, log).value.p2 == ESTABLISHED
    ensures CollisionAcross(h, honest, rs) || AgreeBelow(honest, rs, a.chainLength)
  {
    hide Verdicts, CollisionAcross, AgreeBelow, ChainOk, Recomputed, Anchors;
    AnchoredHeadMatches(h, rs, log, a);
    ChainRecomputes(h, rs);
    AgreeDownFrom(h, honest, rs, a.chainLength);
  }

  /** Hence every truncation below the anchor, and every edit of a bound field below it however
      thoroughly rehashed, is answered by CONTRADICTION, or by the refusal to interpret a record of
      an unimplemented version, or by a collision. */
  lemma {:induction false} TamperingContradicts(h: Hashing, honest: seq<AuditRecord>, rs: seq<AuditRecord>,
      log: seq<LogEntry>, a: Anchor)
    requires ChainOk(h, honest) && a in Anchors(log)
    requires 1 <= a.chainLength <= |honest| && a.headHash == honest[a.chainLength - 1].recordHash
    requires !AgreeBelow(honest, rs, a.chainLength)
    ensures || Verdicts(h, rs, log).None?
            || Verdicts(h, rs, log).value.overall == CONTRADICTION
            || CollisionAcross(h, honest, rs)
  {
    if Verdicts(h, rs, log).Some? && Verdicts(h, rs, log).value.overall != CONTRADICTION {
      NotContradicted(h, rs, log, a);
      EstablishedMeansUntampered(h, honest, rs, log, a);
    }
  }

  /** Against a log with an anchor in it, P1 and P2 are ESTABLISHED or the overall verdict is CONTRADICTION. */
  lemma NotContradicted(h: Hashing, rs: seq<AuditRecord>, log: seq<LogEntry>, a: Anchor)
    requires a in Anchors(log) && Verdicts(h, rs, log).Some?
    requires Verdicts(h, rs, log).value.overall != CONTRADICTION
    ensures Verdicts(h, rs, log).value.p1 == ESTABLISHED && Verdicts(h, rs, log).value.p2 == ESTABLISHED
  {
    hide ChainOk, Recomputed, HeadMatches, AnchorChainOk, CommitOk, CitationOk, Cites, Anchors;
    assert a in multiset(SortByEpoch(Anchors(log)));
    var r := Verdicts(h, rs, log).value;
    assert r.overall == Overall(r.p1, r.p2, r.p3, r.p4, r.p5, r.p6);
  }
}
