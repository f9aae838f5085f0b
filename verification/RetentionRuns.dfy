/** Runs of decisions and purges over a chain and a content store, and what comparing the chain as it
    was at one time with the store as it was at another must report. */
module RetentionRuns {
  import opened Base
  import opened AuditRecords
  import opened AuditChain
  import opened Retention

  datatype World = World(chain: seq<AuditRecord>, bodies: Bodies, purges: Purges)

  /** What stays the same throughout: hashing, and the tenant the chain is scoped to. */
  datatype Setting = Setting(h: Hashing, scope: Option<string>)

  /** `written` says whether the chain took the record the operation ends with. */
  datatype Op =
    | Decision(body: string, salt: string, now: real, d: Draft, written: bool)
    | Legacy(body: string, now: real, d: Draft, written: bool)
    | PurgeOf(digest: string, now: real, reason: string, d: Draft, written: bool)

  const EMPTY_WORLD := World([], map[], map[])

  function Write(g: Setting, chain: seq<AuditRecord>, now: real, d: Draft, body: string, form: string,
      written: bool): seq<AuditRecord>
  {
    if written then chain + [Entry(g.h, g.scope, Head(chain), now, d.(content := body, commitment := form))] else chain
  }

  function Step(g: Setting, w: World, op: Op): World {
    match op
    case Decision(body, salt, now, d, written) =>
      var k := g.h.OfText(body);
      var bodies := AfterPut(g.h, w.bodies, w.purges, body, salt);
      var form := if k in bodies then FormOf(bodies, w.purges, k) else COMMITMENT_NONE;
      World(Write(g, w.chain, now, d, body, form, written), bodies, w.purges)
    case Legacy(body, now, d, written) =>
      var k := g.h.OfText(body);
      var bodies := AfterPutLegacy(g.h, w.bodies, body);
      World(Write(g, w.chain, now, d, body, FormOf(bodies, w.purges, k), written), bodies, w.purges)
    case PurgeOf(k, now, reason, d, written) =>
      if !CanPurge(w.bodies, w.purges, k) then w else
      var chain := Write(g, w.chain, now, d, w.bodies[k].body, COMMITMENT_PURGED, written);
      World(chain, w.bodies - {k}, w.purges[k := PurgeRow(now, reason, if written then Some(Head(chain)) else None)])
  }

  function Run(g: Setting, ops: seq<Op>): World {
    if ops == [] then EMPTY_WORLD else Step(g, Run(g, ops[..|ops| - 1]), ops[|ops| - 1])
  }

  // ---------------------------------------------------------------------------------------------
  // Events of a run
  // ---------------------------------------------------------------------------------------------

  function Target(g: Setting, op: Op): string {
    if op.PurgeOf? then op.digest else g.h.OfText(op.body)
  }

  /** Operation n first stores the digest. */
  predicate StoresAt(g: Setting, ops: seq<Op>, n: nat, k: string)
    requires n < |ops|
  {
    var w := Run(g, ops[..n]);
    !ops[n].PurgeOf? && Target(g, ops[n]) == k && k !in w.bodies && (ops[n].Decision? ==> k !in w.purges)
  }

  /** Operation n deletes the digest's body. */
  predicate PurgesAt(g: Setting, ops: seq<Op>, n: nat, k: string)
    requires n < |ops|
  {
    ops[n].PurgeOf? && ops[n].digest == k && CanPurge(Run(g, ops[..n]).bodies, Run(g, ops[..n]).purges, k)
  }

  /** Operation n writes a record claiming a stored form for the digest. */
  predicate ClaimsAt(g: Setting, ops: seq<Op>, n: nat, k: string)
    requires n < |ops|
  {
    var w := Run(g, ops[..n]);
    && !ops[n].PurgeOf? && Target(g, ops[n]) == k && ops[n].written
    && (ops[n].Decision? ==> k in w.bodies || k !in w.purges)
  }

  predicate Stored(g: Setting, ops: seq<Op>, n: nat, k: string)
    requires n <= |ops|
  {
    exists s | 0 <= s < n :: StoresAt(g, ops, s, k)
  }

  predicate Deleted(g: Setting, ops: seq<Op>, n: nat, k: string)
    requires n <= |ops|
  {
    exists p | 0 <= p < n :: PurgesAt(g, ops, p, k)
  }

  predicate ClaimedBy(g: Setting, ops: seq<Op>, n: nat, k: string)
    requires n <= |ops|
  {
    exists c | 0 <= c < n :: ClaimsAt(g, ops, c, k)
  }

  predicate AttestedBy(g: Setting, ops: seq<Op>, n: nat, k: string)
    requires n <= |ops|
  {
    exists p | 0 <= p < n :: PurgesAt(g, ops, p, k) && ops[p].written
  }

  /** Stored by some operation before n, and deleted by none since. */
  predicate HeldSince(g: Setting, ops: seq<Op>, n: nat, k: string)
    requires n <= |ops|
  {
    exists s | 0 <= s < n :: StoresAt(g, ops, s, k) && !DeletedIn(g, ops, s, n, k)
  }

  predicate DeletedIn(g: Setting, ops: seq<Op>, from: nat, n: nat, k: string)
    requires n <= |ops|
  {
    exists p | from < p < n :: PurgesAt(g, ops, p, k)
  }

  /** Operation n imports through the legacy path a body whose digest was deleted before. */
  predicate ImportsDeletedAt(g: Setting, ops: seq<Op>, n: nat, k: string)
    requires n < |ops|
  {
    ops[n].Legacy? && Target(g, ops[n]) == k && Deleted(g, ops, n, k)
  }

  predicate Resurrected(g: Setting, ops: seq<Op>, n: nat, k: string)
    requires n <= |ops|
  {
    exists m | 0 <= m < n :: ImportsDeletedAt(g, ops, m, k)
  }

  // ---------------------------------------------------------------------------------------------
  // The two sides as functions of the events
  // ---------------------------------------------------------------------------------------------

  /** The state after n operations, digest by digest. */
  ghost predicate Accounts(g: Setting, ops: seq<Op>, n: nat, k: string)
    requires n <= |ops|
  {
    var w := Run(g, ops[..n]);
    && (k in w.purges <==> Deleted(g, ops, n, k))
    && (k in w.bodies <==> HeldSince(g, ops, n, k))
    && (ClaimsStored(w.chain, k) <==> ClaimedBy(g, ops, n, k))
    && (PurgeAttested(w.chain, k) <==> AttestedBy(g, ops, n, k))
    && (Deleted(g, ops, n, k) || HeldSince(g, ops, n, k) <==> Stored(g, ops, n, k))
    && (ClaimedBy(g, ops, n, k) ==> Stored(g, ops, n, k))
    && (Deleted(g, ops, n, k) && HeldSince(g, ops, n, k) <==> Resurrected(g, ops, n, k))
    && WellStored(g.h, w.bodies)
  }

  lemma StepWellStored(g: Setting, w: World, op: Op)
    requires WellStored(g.h, w.bodies)
    ensures WellStored(g.h, Step(g, w, op).bodies)
  {
  }

  /** What one operation changes about one digest. */
  lemma StepEffect(g: Setting, w: World, op: Op, k: string)
    requires WellStored(g.h, w.bodies)
    ensures var w' := Step(g, w, op);
            var stores := !op.PurgeOf? && Target(g, op) == k && k !in w.bodies && (op.Decision? ==> k !in w.purges);
            var purges := op.PurgeOf? && op.digest == k && CanPurge(w.bodies, w.purges, k);
            var claims := && !op.PurgeOf? && Target(g, op) == k && op.written
                          && (op.Decision? ==> k in w.bodies || k !in w.purges);
            && (k in w'.bodies <==> (k in w.bodies || stores) && !purges)
            && (k in w'.purges <==> k in w.purges || purges)
            && (ClaimsStored(w'.chain, k) <==> ClaimsStored(w.chain, k) || claims)
            && (PurgeAttested(w'.chain, k) <==> PurgeAttested(w.chain, k) || (purges && op.written))
  {
    var w' := Step(g, w, op);
    if w'.chain != w.chain {
      var r := w'.chain[|w.chain|];
      assert w'.chain == w.chain + [r];
      assert ClaimsStored(w'.chain, k) <==> ClaimsStored(w.chain, k) || Claims(r, k);
      assert PurgeAttested(w'.chain, k) <==> PurgeAttested(w.chain, k) || Attests(r, k);
      assert r.contentHash == Target(g, op);
    }
  }

  lemma UpTo(ops: seq<Op>, n: nat)
    requires n < |ops|
    ensures ops[..n + 1][..n] == ops[..n] && ops[..n + 1][n] == ops[n]
  {
  }

  lemma RunNext(g: Setting, ops: seq<Op>, n: nat)
    requires n < |ops|
    ensures Run(g, ops[..n + 1]) == Step(g, Run(g, ops[..n]), ops[n])
  {
    UpTo(ops, n);
  }

  lemma AccountsStep(g: Setting, ops: seq<Op>, n: nat, k: string)
    requires n < |ops| && Accounts(g, ops, n, k)
    ensures Accounts(g, ops, n + 1, k)
  {
    hide Run, Step, WellStored, ClaimsStored, PurgeAttested, DeletedIn, Stored, Deleted, ClaimedBy, AttestedBy,
      HeldSince, Resurrected;
    var w, op := Run(g, ops[..n]), ops[n];
    RunNext(g, ops, n);
    StepWellStored(g, w, op);
    StepEffect(g, w, op, k);
    OneMore(g, ops, n, k);
    OneMoreHeld(g, ops, n, k);
  }

  lemma {:induction false} AccountsHold(g: Setting, ops: seq<Op>, n: nat, k: string)
    requires n <= |ops|
    ensures Accounts(g, ops, n, k)
  {
    if n > 0 {
      hide Accounts;
      AccountsHold(g, ops, n - 1, k);
      AccountsStep(g, ops, n - 1, k);
    }
  }

  lemma OneMore(g: Setting, ops: seq<Op>, n: nat, k: string)
    requires n < |ops|
    ensures Stored(g, ops, n + 1, k) <==> Stored(g, ops, n, k) || StoresAt(g, ops, n, k)
    ensures Deleted(g, ops, n + 1, k) <==> Deleted(g, ops, n, k) || PurgesAt(g, ops, n, k)
    ensures ClaimedBy(g, ops, n + 1, k) <==> ClaimedBy(g, ops, n, k) || ClaimsAt(g, ops, n, k)
    ensures AttestedBy(g, ops, n + 1, k) <==> AttestedBy(g, ops, n, k) || (PurgesAt(g, ops, n, k) && ops[n].written)
    ensures Resurrected(g, ops, n + 1, k) <==> Resurrected(g, ops, n, k) || ImportsDeletedAt(g, ops, n, k)
  {
    hide StoresAt, PurgesAt, ClaimsAt, ImportsDeletedAt;
  }

  lemma OneMoreHeld(g: Setting, ops: seq<Op>, n: nat, k: string)
    requires n < |ops|
    ensures HeldSince(g, ops, n + 1, k) <==>
            (HeldSince(g, ops, n, k) && !PurgesAt(g, ops, n, k)) || StoresAt(g, ops, n, k)
  {
    forall s | 0 <= s < n
      ensures DeletedIn(g, ops, s, n + 1, k) <==> DeletedIn(g, ops, s, n, k) || PurgesAt(g, ops, n, k)
    {
    }
    if StoresAt(g, ops, n, k) {
      assert !DeletedIn(g, ops, n, n + 1, k);
    }
  }

  /** A digest is deleted at most once, resurrected or not. */
  lemma {:induction false} DeletedOnce(g: Setting, ops: seq<Op>, p: nat, q: nat, k: string)
    requires p < |ops| && q < |ops|
    requires PurgesAt(g, ops, p, k) && PurgesAt(g, ops, q, k)
    ensures p == q
  {
    assert p < q ==> Deleted(g, ops, q, k);
    assert q < p ==> Deleted(g, ops, p, k);
    AccountsHold(g, ops, p, k);
    AccountsHold(g, ops, q, k);
  }

  // ---------------------------------------------------------------------------------------------
  // The theorem
  // ---------------------------------------------------------------------------------------------

  /** What comparing the chain after i operations with the store after j reports about a digest. */
  function Report(g: Setting, ops: seq<Op>, i: nat, j: nat, k: string): Option<FindingKind>
    requires i <= |ops| && j <= |ops|
  {
    var chain, store := Run(g, ops[..i]).chain, Run(g, ops[..j]);
    var finding := FindingFor(chain, store.bodies, store.purges, k);
    if finding.Some? then Some(finding.value.kind) else None
  }

  /** Split restore. Restore the chain to time i and the store to time j of one run, in either order.
      A missing body is exactly a digest claimed by i and first stored in [j, i). An unattested purge is
      exactly a digest claimed by i and not held at j whose deletion, before j, is at or after i or had
      its attestation refused. An uneffected purge is exactly a digest held at j whose deletion, before
      i, was attested. Nothing else is reported. */
  lemma {:induction false} SplitRestore(g: Setting, ops: seq<Op>, i: nat, j: nat, k: string)
    requires i <= |ops| && j <= |ops|
    ensures Report(g, ops, i, j, k) == Some(BodyMissing) <==>
            ClaimedBy(g, ops, i, k) && !Stored(g, ops, j, k) && exists s | j <= s < i :: StoresAt(g, ops, s, k)
    ensures Report(g, ops, i, j, k) == Some(UnattestedPurge) <==>
            && ClaimedBy(g, ops, i, k) && !HeldSince(g, ops, j, k)
            && exists p | 0 <= p < j :: PurgesAt(g, ops, p, k) && (i <= p || !ops[p].written)
    ensures Report(g, ops, i, j, k) == Some(UneffectedPurge) <==>
            HeldSince(g, ops, j, k) && exists p | 0 <= p < i :: PurgesAt(g, ops, p, k) && ops[p].written
  {
    AccountsHold(g, ops, i, k);
    AccountsHold(g, ops, j, k);
    forall p, q | 0 <= p < |ops| && 0 <= q < |ops| && PurgesAt(g, ops, p, k) && PurgesAt(g, ops, q, k) ensures p == q {
      DeletedOnce(g, ops, p, q, k);
    }
    if ClaimedBy(g, ops, i, k) && !Stored(g, ops, j, k) {
      var s :| 0 <= s < i && StoresAt(g, ops, s, k);
      assert j <= s;
    }
  }

  /** For a digest that was not resurrected the three reports are three windows: first stored in [j, i),
      deleted in [i, j) or unattested before j, deleted and attested in [j, i). */
  lemma {:induction false} SplitRestoreWindows(g: Setting, ops: seq<Op>, i: nat, j: nat, k: string)
    requires i <= |ops| && j <= |ops| && !Resurrected(g, ops, |ops|, k)
    ensures Report(g, ops, i, j, k) == Some(BodyMissing) <==>
            ClaimedBy(g, ops, i, k) && !Stored(g, ops, j, k)
    ensures Report(g, ops, i, j, k) == Some(UnattestedPurge) <==>
            ClaimedBy(g, ops, i, k) && exists p | 0 <= p < j :: PurgesAt(g, ops, p, k) && (i <= p || !ops[p].written)
    ensures Report(g, ops, i, j, k) == Some(UneffectedPurge) <==>
            Stored(g, ops, j, k) && exists p | j <= p < i :: PurgesAt(g, ops, p, k) && ops[p].written
  {
    SplitRestore(g, ops, i, j, k);
    AccountsHold(g, ops, i, k);
    AccountsHold(g, ops, j, k);
    assert !Resurrected(g, ops, i, k) && !Resurrected(g, ops, j, k);
    forall p, q | 0 <= p < |ops| && 0 <= q < |ops| && PurgesAt(g, ops, p, k) && PurgesAt(g, ops, q, k) ensures p == q {
      DeletedOnce(g, ops, p, q, k);
    }
    if ClaimedBy(g, ops, i, k) && !Stored(g, ops, j, k) {
      var s :| 0 <= s < i && StoresAt(g, ops, s, k);
      assert j <= s;
    }
  }

  /** With both sides from one time, two things can be reported and nothing else: a deletion whose
      attestation the chain refused, for a claimed digest that is not held; and an attested deletion of
      a digest that a later legacy import resurrected. */
  lemma {:induction false} SameTimeReport(g: Setting, ops: seq<Op>, i: nat, k: string)
    requires i <= |ops|
    ensures Report(g, ops, i, i, k) == Some(UnattestedPurge) <==>
            && ClaimedBy(g, ops, i, k) && !Resurrected(g, ops, i, k)
            && exists p | 0 <= p < i :: PurgesAt(g, ops, p, k) && !ops[p].written
    ensures Report(g, ops, i, i, k) == Some(UneffectedPurge) <==>
            Resurrected(g, ops, i, k) && exists p | 0 <= p < i :: PurgesAt(g, ops, p, k) && ops[p].written
    ensures Report(g, ops, i, i, k) != Some(BodyMissing)
  {
    SplitRestore(g, ops, i, i, k);
    AccountsHold(g, ops, i, k);
  }

  // ---------------------------------------------------------------------------------------------
  // The legacy path does not honour purges
  // ---------------------------------------------------------------------------------------------

  /** After any run a digest is both held and purged exactly when, at some point of it, its body was
      imported through the legacy path after it had been deleted. */
  lemma {:induction false} ResurrectedIff(g: Setting, ops: seq<Op>, k: string)
    ensures k in Run(g, ops).bodies && k in Run(g, ops).purges <==> Resurrected(g, ops, |ops|, k)
  {
    AccountsHold(g, ops, |ops|, k);
    assert ops[..|ops|] == ops;
  }

  /** A resurrected body can never be purged again: no later operation removes it, and if its purge was
      attested the comparison reports it as uneffected at every later time. */
  lemma {:induction false} ResurrectionIsPermanent(g: Setting, ops: seq<Op>, n: nat, k: string)
    requires n <= |ops| && k in Run(g, ops[..n]).bodies && k in Run(g, ops[..n]).purges
    ensures k in Run(g, ops).bodies && k in Run(g, ops).purges
    ensures PurgeAttested(Run(g, ops[..n]).chain, k) ==> Report(g, ops, |ops|, |ops|, k) == Some(UneffectedPurge)
    decreases |ops|
  {
    assert ops[..|ops|] == ops;
    if n < |ops| {
      var before, op := ops[..|ops| - 1], ops[|ops| - 1];
      assert before[..n] == ops[..n] && before[..|before|] == before;
      ResurrectionIsPermanent(g, before, n, k);
      StepKeepsBoth(g, Run(g, before), op, k);
    }
  }

  lemma StepKeepsBoth(g: Setting, w: World, op: Op, k: string)
    requires k in w.bodies && k in w.purges
    ensures var w' := Step(g, w, op);
            k in w'.bodies && k in w'.purges && (PurgeAttested(w.chain, k) ==> PurgeAttested(w'.chain, k))
  {
    assert w.chain <= Step(g, w, op).chain;
  }

  lemma StepKeepsChain(g: Setting, w: World, op: Op)
    requires ChainOk(g.h, w.chain)
    ensures ChainOk(g.h, Step(g, w, op).chain)
  {
    var w' := Step(g, w, op);
    if w'.chain != w.chain {
      var body := if op.PurgeOf? then w.bodies[op.digest].body else op.body;
      forall form: string ensures ChainOk(g.h, Write(g, w.chain, op.now, op.d, body, form, true)) {
        EntryExtends(g.h, w.chain, g.scope, op.now, op.d.(content := body, commitment := form));
      }
    }
  }

  /** Through any run of decisions, imports and purges, even a resurrecting one, the chain verifies. */
  lemma {:induction false} ChainStillVerifies(g: Setting, ops: seq<Op>)
    ensures ChainOk(g.h, Run(g, ops).chain)
  {
    if ops != [] {
      ChainStillVerifies(g, ops[..|ops| - 1]);
      StepKeepsChain(g, Run(g, ops[..|ops| - 1]), ops[|ops| - 1]);
    }
  }

  // ---------------------------------------------------------------------------------------------
  // The steps are the methods' contracts
  // ---------------------------------------------------------------------------------------------

  /** What Retention.RecordDecision promises with a store is a Decision. */
  lemma RecordDecisionIsDecision(g: Setting, w: World, op: Op, bodies: Bodies, chain: seq<AuditRecord>,
      res: Result<AuditRecord, StoreError>)
    requires op.Decision? && op.d.content == op.body && op.written == res.Ok? && WellStored(g.h, w.bodies)
    requires bodies == AfterPut(g.h, w.bodies, w.purges, op.d.content, op.salt)
    requires chain == if res.Ok? then w.chain + [res.value] else w.chain
    requires res.Ok? ==>
               && res.value.contentHash == g.h.OfText(op.d.content)
               && res.value.commitment == (if res.value.contentHash in bodies
                                           then bodies[res.value.contentHash].marker else COMMITMENT_NONE)
               && res.value == Entry(g.h, g.scope, Head(w.chain), op.now, op.d.(commitment := res.value.commitment))
    ensures World(chain, bodies, w.purges) == Step(g, w, op)
  {
    hide Entry;
    StepWellStored(g, w, op);
  }

  /** What ContentStore.PutAndRecord promises of a legacy import is a Legacy. */
  lemma PutAndRecordIsLegacy(g: Setting, w: World, op: Op, bodies: Bodies, chain: seq<AuditRecord>,
      res: Result<AuditRecord, StoreError>)
    requires op.Legacy? && op.written == res.Ok?
    requires bodies == AfterPutLegacy(g.h, w.bodies, op.body)
    requires chain == if res.Ok? then w.chain + [res.value] else w.chain
    requires res.Ok? ==>
               res.value == Entry(g.h, g.scope, Head(w.chain), op.now,
                 op.d.(content := op.body, commitment := FormOf(bodies, w.purges, g.h.OfText(op.body))))
    ensures World(chain, bodies, w.purges) == Step(g, w, op)
  {
    hide Entry, FormOf;
  }

  /** What ContentStore.Purge promises is a PurgeOf. */
  lemma PurgeIsPurgeOf(g: Setting, w: World, op: Op, bodies: Bodies, purges: Purges, chain: seq<AuditRecord>,
      res: Result<string, StoreError>)
    requires op.PurgeOf? && op.written == res.Ok?
    requires !CanPurge(w.bodies, w.purges, op.digest) ==> bodies == w.bodies && purges == w.purges && chain == w.chain
    requires CanPurge(w.bodies, w.purges, op.digest) ==>
               && bodies == w.bodies - {op.digest}
               && purges == w.purges[op.digest := PurgeRow(op.now, op.reason,
                                                           if res.Ok? then Some(res.value) else None)]
               && (res.Err? ==> chain == w.chain)
               && (res.Ok? ==>
                     var a := Entry(g.h, g.scope, Head(w.chain), op.now,
                                    op.d.(content := w.bodies[op.digest].body, commitment := COMMITMENT_PURGED));
                     a.recordHash == res.value && chain == w.chain + [a])
    ensures World(chain, bodies, purges) == Step(g, w, op)
  {
    hide Entry;
    if CanPurge(w.bodies, w.purges, op.digest) && res.Ok? {
      assert Head(chain) == res.value;
    }
  }
}
