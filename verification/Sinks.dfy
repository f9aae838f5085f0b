/** custos/custody.py: what the sinks keep of what they are handed. A sink as CustodySink describes it is
    append-only: it persists every entry as it was handed over. The git sink writes one file per tenant and
    epoch, whether of a head anchor or of a policy commit, so a later entry of the same tenant and epoch
    replaces an earlier one. The in-memory sink, which keeps the objects, is neither: see `MemorySinkRuns`. */
module Sinks {
  import opened Base
  import opened Custody

  datatype SinkKind = KeepsAll | KeepsLatest

  /** How the sinks answered one offer: `acked` returned normally; `left` raised, but only after the file
      had been written, as when the git commit fails. */
  datatype Uptake = Uptake(acked: set<nat>, left: set<nat>)

  /** Sink j holds the entry afterwards. */
  predicate Took(kind: SinkKind, u: Uptake, j: nat) {
    j in u.acked || (kind == KeepsLatest && j in u.left)
  }

  predicate AllUp(n: nat, u: Uptake) {
    forall j | 0 <= j < n :: j in u.acked
  }

  function TenantOf(e: LogEntry): string {
    match e case HeadAnchor(a) => a.tenantId case Commit(c) => c.tenantId
  }

  function EpochOf(e: LogEntry): int {
    match e case HeadAnchor(a) => a.epoch case Commit(c) => c.epoch
  }

  /** `anchors/<tenant>/epoch-<n>.json`. */
  predicate SamePath(a: LogEntry, b: LogEntry) {
    TenantOf(a) == TenantOf(b) && EpochOf(a) == EpochOf(b)
  }

  /** One tenant's entries, in order. */
  function OfTenant(tenant: string, log: seq<LogEntry>): seq<LogEntry> {
    if log == [] then [] else
    var e := log[|log| - 1];
    OfTenant(tenant, log[..|log| - 1]) + if TenantOf(e) == tenant then [e] else []
  }

  lemma OfTenantSnoc(tenant: string, log: seq<LogEntry>, e: LogEntry)
    ensures OfTenant(tenant, log + [e]) == OfTenant(tenant, log) + if TenantOf(e) == tenant then [e] else []
  {
    assert (log + [e])[..|log|] == log;
  }

  function Without(log: seq<LogEntry>, e: LogEntry): seq<LogEntry> {
    if log == [] then []
    else (if SamePath(log[0], e) then [] else [log[0]]) + Without(log[1..], e)
  }

  function Store(kind: SinkKind, log: seq<LogEntry>, e: LogEntry): seq<LogEntry> {
    (if kind == KeepsAll then log else Without(log, e)) + [e]
  }

  /** What a sink holds after it has taken these entries in order. */
  function Held(kind: SinkKind, taken: seq<LogEntry>): seq<LogEntry> {
    if taken == [] then [] else Store(kind, Held(kind, taken[..|taken| - 1]), taken[|taken| - 1])
  }

  lemma HeldSnoc(kind: SinkKind, taken: seq<LogEntry>, e: LogEntry)
    ensures Held(kind, taken + [e]) == Store(kind, Held(kind, taken), e)
  {
    assert (taken + [e])[..|taken|] == taken;
  }

  /** A later entry was written to the i-th one's file. */
  predicate Replaced(kind: SinkKind, taken: seq<LogEntry>, i: nat)
    requires i < |taken|
  {
    kind == KeepsLatest && exists k | i < k < |taken| :: SamePath(taken[k], taken[i])
  }

  lemma {:induction false} WithoutMembers(log: seq<LogEntry>, e: LogEntry, x: LogEntry)
    ensures x in Without(log, e) <==> x in log && !SamePath(x, e)
  {
    if log != [] {
      WithoutMembers(log[1..], e, x);
      assert log == [log[0]] + log[1..];
    }
  }

  /** A sink that keeps everything holds what it took. */
  lemma {:induction false} KeepsAllHoldsAll(taken: seq<LogEntry>)
    ensures Held(KeepsAll, taken) == taken
  {
    if taken != [] {
      KeepsAllHoldsAll(taken[..|taken| - 1]);
      assert taken == taken[..|taken| - 1] + [taken[|taken| - 1]];
    }
  }

  /** The entry was taken and not replaced. */
  predicate Remains(kind: SinkKind, taken: seq<LogEntry>, x: LogEntry) {
    exists i | 0 <= i < |taken| :: taken[i] == x && !Replaced(kind, taken, i)
  }

  lemma RemainsSnoc(kind: SinkKind, taken: seq<LogEntry>, e: LogEntry, x: LogEntry)
    ensures Remains(kind, taken + [e], x) <==>
            x == e || (Remains(kind, taken, x) && !(kind == KeepsLatest && SamePath(e, x)))
  {
    hide SamePath;
    var all, n := taken + [e], |taken|;
    assert all[n] == e && !Replaced(kind, all, n);
    hide Replaced;
    forall i | 0 <= i < n
      ensures all[i] == taken[i]
      ensures Replaced(kind, all, i) <==> Replaced(kind, taken, i) || (kind == KeepsLatest && SamePath(e, taken[i]))
    {
      ReplacedSnoc(kind, taken, e, i);
    }
    if Remains(kind, taken, x) {
      var i :| 0 <= i < n && taken[i] == x && !Replaced(kind, taken, i);
      assert all[i] == x;
    }
  }

  /** A sink holds exactly the entries it took that were not replaced. */
  lemma {:induction false} HeldMembers(kind: SinkKind, taken: seq<LogEntry>, x: LogEntry)
    ensures x in Held(kind, taken) <==> Remains(kind, taken, x)
    decreases |taken|
  {
    if taken != [] {
      hide Held, SamePath, Without, Remains;
      var before, e := taken[..|taken| - 1], taken[|taken| - 1];
      assert taken == before + [e];
      HeldMembers(kind, before, x);
      HeldSnoc(kind, before, e);
      WithoutMembers(Held(kind, before), e, x);
      RemainsSnoc(kind, before, e, x);
      SamePathSymmetric(e, x);
    } else {
      assert Held(kind, taken) == [];
    }
  }

  lemma SamePathSymmetric(a: LogEntry, b: LogEntry)
    ensures SamePath(a, b) <==> SamePath(b, a)
  {
  }

  lemma ReplacedSnoc(kind: SinkKind, taken: seq<LogEntry>, e: LogEntry, i: nat)
    requires i < |taken|
    ensures Replaced(kind, taken + [e], i) <==>
            Replaced(kind, taken, i) || (kind == KeepsLatest && SamePath(e, taken[i]))
  {
    var all := taken + [e];
    assert all[|taken|] == e && forall k | 0 <= k < |taken| :: all[k] == taken[k];
  }

  predicate OnePerPath(log: seq<LogEntry>) {
    forall i, k | 0 <= i < k < |log| :: !SamePath(log[i], log[k])
  }

  lemma {:induction false} WithoutKeepsOnePerPath(log: seq<LogEntry>, e: LogEntry)
    requires OnePerPath(log)
    ensures OnePerPath(Without(log, e) + [e])
  {
    if log != [] {
      WithoutKeepsOnePerPath(log[1..], e);
      var rest := Without(log[1..], e) + [e];
      if !SamePath(log[0], e) {
        forall k | 0 <= k < |rest| ensures !SamePath(log[0], rest[k]) {
          if k < |rest| - 1 {
            WithoutMembers(log[1..], e, rest[k]);
            assert rest[k] in Without(log[1..], e);
          }
        }
        assert Without(log, e) + [e] == [log[0]] + rest;
      } else {
        assert Without(log, e) + [e] == rest;
      }
    }
  }

  lemma {:induction false} LatestIsOnePerPath(taken: seq<LogEntry>)
    ensures OnePerPath(Held(KeepsLatest, taken))
  {
    if taken != [] {
      LatestIsOnePerPath(taken[..|taken| - 1]);
      WithoutKeepsOnePerPath(Held(KeepsLatest, taken[..|taken| - 1]), taken[|taken| - 1]);
    }
  }
}
