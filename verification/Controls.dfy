/**
 The operator's controls on the running system: rebuilding a tenant in any state of it, and replaying a tenant's
 history once it is at rest.
 */
module Controls {
  import opened Events
  import opened Projection
  import opened Convergence
  import opened Source
  import opened SourceInvariant
  import opened TenantRebuild
  import Op = Operator
  import E = EndToEnd
  import A = AtRest
  import FS = ForecastSource

  // --- rebuild in any state ------------------------------------------------------------------------------

  /** An inbox row of the running system is the row of the event of that id, so ids are never shared between tenants. */
  lemma InboxTenant(o: Outside, l: Ledger, db: Db, id: string)
    requires LedgerInv(o, l) && CleanDb(o.codec, l.history, db) && id in db.inbox && id in l.source.outbox
    ensures db.inbox[id].tenant == l.source.outbox[id].tenant
  {
    hide ItemsBalanced, OrdersMatch, HopsMatch, Caused, UniqueParents, ItemClean, HopClean;
    assert RowClean(o.codec, l.history, db, id);
    var row := db.inbox[id];
    EventAtInHistory(o.codec, l.history, row.kind, row.tenant, row.aggregate, row.version);
    var out := l.source.outbox[id];
    assert OutboxRowClean(o, l.history, id, out);
    EventAtInHistory(o.codec, l.history, out.kind, out.tenant, out.aggregate, out.version);
  }

  lemma NothingShared(o: Outside, l: Ledger, db: Db, t: string, order: seq<string>)
    requires LedgerInv(o, l) && CleanDb(o.codec, l.history, db) && Op.Selected(l.source.outbox, t, order)
    ensures Op.Unshared(db, t, order)
  {
    hide LedgerInv, CleanDb;
    forall id | id in order && id in db.inbox ensures db.inbox[id].tenant == t {
      InboxTenant(o, l, db, id);
    }
  }

  /**
   In every state of the running system, whatever is under way, rebuilding a tenant with no operation failing is
   complete exactly when the tenant has an event; it then ends in the source's inventory and hops, and in any case no
   other tenant's rows change.
   */
  lemma RebuildInEveryRun(o: Outside, steps: seq<E.SystemStep>, t: string, order: seq<string>, budgets: seq<nat>,
                          tie: TieBreak)
    requires o.codec.Lawful() && E.Steps(steps) && Op.Selected(E.RunSystem(o, steps).ledger.source.outbox, t, order)
    requires |budgets| == |order| && forall i | 0 <= i < |budgets| :: budgets[i] >= 2
    ensures var s := E.RunSystem(o, steps);
            var ds := Op.LoadedHistory(o.codec, t, s.ledger.source.outbox, order, budgets, tie);
            && ds.Records?
            && var r := ReplayTenant(o.codec, ResetTenant(s.desk.db, t), t, ds.records);
            && (r.status == Complete <==> order != [])
            && (r.status == Complete ==> Op.MatchesSource(s.ledger, t, r.db))
            && OthersKept(t, s.desk.db, r.db)
  {
    hide E.RunSystem, E.Steps, LedgerInv, E.LogClean, CleanDb, Op.Selected, Op.MatchesSource, Op.LoadedHistory, ReplayTenant,
         ResetTenant, OthersKept, Codec.Lawful;
    E.RunKeepsInv(o, steps);
    var s := E.RunSystem(o, steps);
    NothingShared(o, s.ledger, s.desk.db, t, order);
    Op.SourceRebuilds(o, s.ledger, s.desk.db, t, order, budgets, tie);
  }

  // --- replay at rest --------------------------------------------------------------------------------------

  /** Every event is recorded as done, and nothing of the tenant waits. */
  ghost predicate DoneFor(c: Codec, t: string, es: seq<Envelope>, db: Db) {
    && (forall i | 0 <= i < |es| ::
          && es[i].eventId in db.inbox && db.inbox[es[i].eventId].hash == c.Hash(es[i])
          && IsDone(db.inbox[es[i].eventId].disposition))
    && (forall id | id in db.inbox && db.inbox[id].tenant == t :: IsDone(db.inbox[id].disposition))
    && db.failures == map[]
  }

  lemma DoneIsDuplicate(c: Codec, t: string, es: seq<Envelope>, db: Db, d: Delivery, i: nat)
    requires Retained(c, t, es) && DoneFor(c, t, es, db) && i < |es| && ReadsAs(c, d, es[i]) && d.budget >= 2
    ensures var o := ProcessRecord(c, db, d);
            && o.ack && o.disposition == Some(DuplicateNoop) && o.applied == []
            && o.db.items == db.items && o.db.hops == db.hops && DoneFor(c, t, es, o.db)
  {
    hide Codec.Hash, AggregateKey, Redrive, ApplyEvent;
    var e := es[i];
    var db' := Record(c, db, e, DuplicateNoop, None);
    assert ProcessValidated(c, db, e) == (db', DuplicateNoop);
    assert GapCandidates(db', e.Kind(), e.tenantId, e.aggregateId) == {};
    RedriveIs(c, db', e.Kind(), e.tenantId, e.aggregateId, d.budget - 1, d.tie);
    assert DoneFor(c, t, es, db');
  }

  ghost predicate OnlyDuplicates(c: Codec, t: string, es: seq<Envelope>, db: Db, r: Replay, n: nat) {
    && DoneFor(c, t, es, r.db) && r.db.items == db.items && r.db.hops == db.hops
    && r.status == Complete && r.stop == Running
    && r.applied == 0 && r.duplicates == n && r.quarantined == 0 && r.failures == 0
  }

  lemma {:induction false} DoneReplays(c: Codec, t: string, es: seq<Envelope>, db: Db, ds: seq<Delivery>, n: nat)
    requires Retained(c, t, es) && DoneFor(c, t, es, db) && ReadAs(c, ds, es) && Funded(ds) && n <= |ds|
    ensures OnlyDuplicates(c, t, es, db, ReplayRecords(c, t, Replay(db, Complete, 0, 0, 0, 0, Running), ds[..n]), n)
  {
    hide ProcessRecord, DoneFor;
    if n > 0 {
      DoneReplays(c, t, es, db, ds, n - 1);
      assert ds[..n][..n - 1] == ds[..n - 1];
      var r := ReplayRecords(c, t, Replay(db, Complete, 0, 0, 0, 0, Running), ds[..n - 1]);
      DoneIsDuplicate(c, t, es, r.db, ds[n - 1], n - 1);
    }
  }

  /** A replay of events that are all done changes no projection table and reports every one as a duplicate. */
  lemma DoneReplay(c: Codec, t: string, es: seq<Envelope>, db: Db, ds: seq<Delivery>)
    requires Retained(c, t, es) && DoneFor(c, t, es, db) && ReadAs(c, ds, es) && Funded(ds) && ds != []
    ensures OnlyDuplicates(c, t, es, db, ReplayTenant(c, db, t, ds), |ds|)
  {
    hide ReplayRecords, Retained;
    DoneReplays(c, t, es, db, ds, |ds|);
    assert ds[..|ds|] == ds;
    var r := ReplayRecords(c, t, Replay(db, Complete, 0, 0, 0, 0, Running), ds);
    assert TenantGaps(r.db, t) == {} && TenantFailures(r.db, t) == {};
  }

  lemma RestIsDone(o: Outside, s: E.System, t: string, es: seq<Envelope>)
    requires o.codec.Lawful() && E.SystemInv(o, s) && A.BooksInv(o, s) && A.Quiescent(o.codec, s)
    requires forall i | 0 <= i < |es| :: InHistory(s.ledger.history, es[i])
    ensures DoneFor(o.codec, t, es, s.desk.db)
  {
    hide LedgerInv, E.LogClean, A.BooksInv, A.Quiescent, RowClean, ItemClean, HopClean, Settled, InHistory, Codec.Hash;
    InvClean(o, s.ledger);
    forall id | id in s.desk.db.inbox ensures IsDone(s.desk.db.inbox[id].disposition) {
      RestRowDone(o, s, id);
    }
    A.RestIsSettled(o, s);
    forall i | 0 <= i < |es|
      ensures es[i].eventId in s.desk.db.inbox && s.desk.db.inbox[es[i].eventId].hash == o.codec.Hash(es[i])
    {
      A.QuiescentDelivers(o, s, es[i]);
      SettledKeys(o, s);
      RowOfEvent(o.codec, s.ledger.history, s.desk.db, es[i]);
    }
  }

  lemma SettledKeys(o: Outside, s: E.System)
    requires Settled(o.codec, s.ledger.history, A.SessionOf(s.desk))
    ensures s.desk.db.inbox.Keys == s.desk.delivered
  {
  }

  lemma RestRowDone(o: Outside, s: E.System, id: string)
    requires o.codec.Lawful() && E.SystemInv(o, s) && A.BooksInv(o, s) && A.Quiescent(o.codec, s) && id in s.desk.db.inbox
    ensures IsDone(s.desk.db.inbox[id].disposition)
  {
    hide LedgerInv, E.LogClean, A.BooksInv, A.Quiescent, ItemClean, HopClean, Codec.Hash;
    var row := s.desk.db.inbox[id];
    assert RowClean(o.codec, s.ledger.history, s.desk.db, id);
    InvClean(o, s.ledger);
    EventAtInHistory(o.codec, s.ledger.history, row.kind, row.tenant, row.aggregate, row.version);
    if row.kind == InventoryItem {
      var e := EventAt(s.ledger.history, row.kind, row.tenant, row.aggregate, row.version).value;
      FS.RestApplies(o, s, row.tenant, e);
    }
  }

  /**
   Replaying a tenant's whole history when the system is at rest is complete as soon as there is history, applies
   nothing, reports every event as a duplicate and leaves inventory and lineage as they are.
   */
  lemma ReplayAtRestIsNoop(o: Outside, steps: seq<E.SystemStep>, t: string, order: seq<string>, budgets: seq<nat>,
                           tie: TieBreak)
    requires o.codec.Lawful() && E.Steps(steps) && A.QuietResets(o, steps) && A.Quiescent(o.codec, E.RunSystem(o, steps))
    requires Op.Selected(E.RunSystem(o, steps).ledger.source.outbox, t, order) && order != []
    requires |budgets| == |order| && forall i | 0 <= i < |budgets| :: budgets[i] >= 2
    ensures var s := E.RunSystem(o, steps);
            var ds := Op.LoadedHistory(o.codec, t, s.ledger.source.outbox, order, budgets, tie);
            && ds.Records?
            && var r := ReplayTenant(o.codec, s.desk.db, t, ds.records);
            && r.status == Complete && r.applied == 0 && r.duplicates == |order|
            && r.db.items == s.desk.db.items && r.db.hops == s.desk.db.hops
  {
    hide E.RunSystem, E.Steps, LedgerInv, E.LogClean, CleanDb, Op.Selected, Op.LoadedHistory, ReplayTenant, A.QuietResets,
         A.Quiescent, A.BooksInv, Codec.Lawful, Op.AllAgree, Retained, ReadAs, DoneFor, InHistory, VersionsUnique;
    E.RunKeepsInv(o, steps);
    A.RunKeepsBooks(o, steps);
    var s := E.RunSystem(o, steps);
    Op.SourceOutbox(o, s.ledger, t, order);
    Op.DecodedIsRetained(o.codec, t, s.ledger.source.outbox, order);
    SelectedRows(s.ledger.source.outbox, t, order);
    Op.HistoryReads(o.codec, t, s.ledger.source.outbox, order, budgets, tie);
    var es := Op.Decoded(o.codec, s.ledger.source.outbox, order);
    var ds := Op.LoadedHistory(o.codec, t, s.ledger.source.outbox, order, budgets, tie).records;
    Op.ReadAsLength(o.codec, ds, es);
    RestIsDone(o, s, t, es);
    DoneReplay(o.codec, t, es, s.desk.db, ds);
  }

  lemma SelectedRows(outbox: map<string, OutboxRow>, t: string, order: seq<string>)
    requires Op.Selected(outbox, t, order)
    ensures forall id | id in order :: id in outbox && outbox[id].tenant == t
  {
  }
}
