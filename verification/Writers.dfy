/** Any number of processes, each holding its own copy of one tenant's chain, over one store.
    The unique index on (tenant, previous_hash) is the only coordination between them. */
module Writers {
  import opened Base
  import opened AuditRecords
  import opened AuditChain

  /** The in-memory side of one process: the tenant it is scoped to and the list it loaded. */
  datatype Writer = Writer(tenant: string, records: seq<AuditRecord>)

  datatype System = System(rows: seq<AuditRecord>, writers: map<nat, Writer>)

  datatype Event =
    | OpenChain(w: nat, tenant: string)
    | Append(w: nat, now: real, d: Draft, boundRequired: bool, condition: Condition)

  /** What one writer is told when it appends; None means the append is accepted. */
  function Refusal(h: Hashing, s: System, e: Event): Option<AppendError>
    requires e.Append? && e.w in s.writers
  {
    var me := s.writers[e.w];
    AppendRefusal(h, s.rows, me.records, Some(me.tenant), e.now, e.d, e.boundRequired, e.condition)
  }

  function NewEntry(h: Hashing, s: System, e: Event): AuditRecord
    requires e.Append? && e.w in s.writers
  {
    var me := s.writers[e.w];
    Entry(h, Some(me.tenant), Head(me.records), e.now, e.d)
  }

  function Step(h: Hashing, s: System, e: Event): System {
    match e
    case OpenChain(w, tenant) =>
      if OpenRefusal(s.rows, Some(tenant)).Some? then s
      else s.(writers := s.writers[w := Writer(tenant, TenantRows(s.rows, tenant))])
    case Append(w, _, _, _, _) =>
      if w !in s.writers || Refusal(h, s, e).Some? then s else
      var me := s.writers[w];
      var entry := NewEntry(h, s, e);
      System(s.rows + [entry], s.writers[w := me.(records := me.records + [entry])])
  }

  function Run(h: Hashing, s: System, es: seq<Event>): System {
    if es == [] then s else Step(h, Run(h, s, es[..|es| - 1]), es[|es| - 1])
  }

  ghost predicate Inv(h: Hashing, s: System) {
    && Indexed(s.rows)
    && (forall t: string {:trigger TenantRows(s.rows, t)} :: ChainOk(h, TenantRows(s.rows, t)))
    && (forall w | w in s.writers :: s.writers[w].records <= TenantRows(s.rows, s.writers[w].tenant))
  }

  /** A writer that lags its tenant's rows finds its predecessor already claimed. */
  lemma StaleIsTaken(h: Hashing, s: System, w: nat)
    requires Inv(h, s) && w in s.writers
    requires s.writers[w].records != TenantRows(s.rows, s.writers[w].tenant)
    ensures PredecessorTaken(s.rows, s.writers[w].tenant, Head(s.writers[w].records))
  {
    var me := s.writers[w];
    var rows := TenantRows(s.rows, me.tenant);
    var n := |me.records|;
    assert rows[..n] == me.records;
    assert LinkOk(h, rows, n);
    TenantRowsMembers(s.rows, me.tenant, rows[n]);
  }

  lemma StepKeepsInv(h: Hashing, s: System, e: Event)
    requires Inv(h, s)
    ensures Inv(h, Step(h, s, e))
  {
    if e.Append? && e.w in s.writers && Refusal(h, s, e).None? {
      var me := s.writers[e.w];
      var entry := NewEntry(h, s, e);
      EntryIsSealed(h, Some(me.tenant), Head(me.records), e.now, e.d);
      assert Scope(entry) == me.tenant;
      if me.records != TenantRows(s.rows, me.tenant) {
        StaleIsTaken(h, s, e.w);
        assert false;
      }
      var s' := Step(h, s, e);
      forall t: string
        ensures TenantRows(s'.rows, t) == if t == me.tenant then TenantRows(s.rows, t) + [entry]
                else TenantRows(s.rows, t)
        ensures ChainOk(h, TenantRows(s'.rows, t))
      {
        TenantRowsAppend(s.rows, entry, t);
        if t == me.tenant {
          ChainExtend(h, TenantRows(s.rows, t), entry);
        }
      }
    }
  }

  /** Safety over every run, from an empty store and whatever the writers do: every tenant's rows are
      one unforked chain from GENESIS that verification accepts, and every writer's in-memory list is
      a prefix of its tenant's rows. */
  lemma {:induction false} RunsKeepOneChainPerTenant(h: Hashing, es: seq<Event>)
    ensures Inv(h, Run(h, System([], map[]), es))
  {
    if es != [] {
      RunsKeepOneChainPerTenant(h, es[..|es| - 1]);
      StepKeepsInv(h, Run(h, System([], map[]), es[..|es| - 1]), es[|es| - 1]);
    }
  }

  /** In every reachable state a well-formed append to a healthy store is refused as a fork exactly
      when the writer lags its tenant's rows, unless the tenant's own chain exhibits a collision or a
      preimage of GENESIS. */
  lemma ForkRefusalMeansStale(h: Hashing, s: System, e: Event)
    requires Inv(h, s) && e.Append? && e.w in s.writers
    requires DraftError(e.d, Some(s.writers[e.w].tenant), e.boundRequired).None? && e.condition.Healthy?
    ensures var rows := TenantRows(s.rows, s.writers[e.w].tenant);
            || CollisionWithin(h, rows) || GenesisPreimageWithin(h, rows)
            || (Refusal(h, s, e) == Some(ChainFork) <==> s.writers[e.w].records != rows)
  {
    var me := s.writers[e.w];
    var rows := TenantRows(s.rows, me.tenant);
    assert Scope(NewEntry(h, s, e)) == me.tenant;
    if me.records != rows {
      StaleIsTaken(h, s, e.w);
    } else if PredecessorTaken(s.rows, me.tenant, Head(rows))
              && !CollisionWithin(h, rows) && !GenesisPreimageWithin(h, rows) {
      HeadIsFresh(h, s.rows, me.tenant);
    }
  }

  /** No row of a tenant names the tenant's current head as its predecessor. */
  lemma HeadIsFresh(h: Hashing, rows: seq<AuditRecord>, tenant: string)
    requires ChainOk(h, TenantRows(rows, tenant))
    requires !CollisionWithin(h, TenantRows(rows, tenant)) && !GenesisPreimageWithin(h, TenantRows(rows, tenant))
    ensures !PredecessorTaken(rows, tenant, Head(TenantRows(rows, tenant)))
  {
    var mine := TenantRows(rows, tenant);
    forall r | r in rows && Scope(r) == tenant ensures r.previousHash != Head(mine) {
      TenantRowsMembers(rows, tenant, r);
      var i :| 0 <= i < |mine| && mine[i] == r;
      var last := |mine| - 1;
      assert LinkOk(h, mine, i) && LinkOk(h, mine, last);
      if i > 0 {
        HashesDistinct(h, mine, i - 1, last);
      } else if last > 0 {
        HashesDistinct(h, mine, 0, last);
      } else {
        assert RecordHash(h, mine[0], mine[0].previousHash) != Some(GENESIS);
      }
    }
  }

  /** Reopening restores progress: in any reachable state, a writer that reopens its tenant's chain
      has its next well-formed append to a healthy store accepted as the tenant's next row, unless
      the chain exhibits a collision or a preimage of GENESIS. */
  lemma {:induction false} ReopenRestoresProgress(h: Hashing, s: System, w: nat, tenant: string, now: real, d: Draft,
      boundRequired: bool)
    requires Inv(h, s) && DraftError(d, Some(tenant), boundRequired).None?
    ensures var rows := TenantRows(s.rows, tenant);
            var s1 := Step(h, s, OpenChain(w, tenant));
            var s2 := Step(h, s1, Append(w, now, d, boundRequired, Healthy));
            || CollisionWithin(h, rows) || GenesisPreimageWithin(h, rows)
            || (&& TenantRows(s2.rows, tenant) == rows + [Entry(h, Some(tenant), Head(rows), now, d)]
                && s2.writers[w].records == TenantRows(s2.rows, tenant))
  {
    var rows := TenantRows(s.rows, tenant);
    var s1 := Step(h, s, OpenChain(w, tenant));
    var e := Append(w, now, d, boundRequired, Healthy);
    StepKeepsInv(h, s, OpenChain(w, tenant));
    assert s1.writers[w] == Writer(tenant, rows);
    if !CollisionWithin(h, rows) && !GenesisPreimageWithin(h, rows) {
      ForkRefusalMeansStale(h, s1, e);
      assert Refusal(h, s1, e).None?;
      TenantRowsAppend(s1.rows, NewEntry(h, s1, e), tenant);
    }
  }

  /** A chain must be opened with its tenant. An unscoped chain opens over a store that holds one
      tenant's rows and then writes rows with no tenant; the rows it leaves under the empty tenant are
      a chain exactly when the other tenant's head happens to be GENESIS. */
  lemma UnscopedWriterLeavesNoChain(h: Hashing, rows: seq<AuditRecord>, tenant: string, now: real, d: Draft)
    requires rows != [] && Indexed(rows) && tenant != ""
    requires forall r | r in rows :: Scope(r) == tenant
    requires DraftError(d, None, false).None? && d.tenantId.None?
    ensures OpenRefusal(rows, None).None?
    ensures AppendRefusal(h, rows, rows, None, now, d, false, Healthy).None?
    ensures ChainOk(h, TenantRows(rows + [Entry(h, None, Head(rows), now, d)], "")) <==> Head(rows) == GENESIS
  {
    var e := Entry(h, None, Head(rows), now, d);
    EntryIsSealed(h, None, Head(rows), now, d);
    if TenantRows(rows, "") != [] {
      TenantRowsMembers(rows, "", TenantRows(rows, "")[0]);
    }
    TenantRowsAppend(rows, e, "");
    assert TenantRows(rows + [e], "") == [e];
    assert [e][..0] == [];
    if Head(rows) == GENESIS {
      assert LinkOk(h, [e], 0);
    } else {
      assert !LinkOk(h, [e], 0);
    }
  }
}
