/**
 The composed system at rest: what is owed while events wait, and that rest makes the projection exact.
 */
module AtRest {
  import opened Events
  import opened Projection
  import opened Convergence
  import opened Source
  import opened SourceInvariant
  import opened Interleaving
  import opened DeskConvergence
  import opened EndToEnd
  import T = TenantRebuild
  import R = Relay

  // --- quiet resets ----------------------------------------------------------------------------------

  predicate TaskOf(c: Codec, task: Task, t: string) {
    match task
    case Fetched(_, value, _, _) => c.parse(value).Ok? && c.parse(value).value.tenantId == t
    case Selecting(e) => e.tenantId == t
    case Chosen(e, _, _) => e.tenantId == t
  }

  /** No delivery to the tenant is under way. */
  ghost predicate Quiet(c: Codec, d: Desk, t: string) {
    forall u | u in d.tasks :: !TaskOf(c, d.tasks[u], t)
  }

  ghost predicate QuietAt(o: Outside, steps: seq<SystemStep>, i: nat)
    requires Steps(steps) && i < |steps|
  {
    steps[i].Reset? ==> Quiet(o.codec, RunSystem(o, steps[..i]).desk, steps[i].tenant)
  }

  /** Every reset found no delivery to its tenant under way. */
  ghost predicate QuietResets(o: Outside, steps: seq<SystemStep>)
    requires Steps(steps)
  {
    forall i | 0 <= i < |steps| :: QuietAt(o, steps, i)
  }

  ghost predicate BooksInv(o: Outside, s: System) {
    DeskAck(o.codec, s.ledger.history, s.desk) && Booked(o.codec, s.desk)
  }

  // --- source steps --------------------------------------------------------------------------------

  lemma UniqueOf(c: Codec, h: History, a: Envelope, b: Envelope)
    requires Clean(c, h) && InHistory(h, a) && InHistory(h, b) && a.eventId == b.eventId
    ensures a == b
  {
  }

  /** A waiting event belongs to the history the consumer has seen, so growing the history adds no obligation. */
  lemma WaitedBefore(c: Codec, h: History, h': History, db: Db, k: ItemKey)
    requires Clean(c, h) && Clean(c, h') && Extends(h, h') && CleanDb(c, h, db)
    requires k in h'.chains && NextWaits(h', db, k)
    ensures k in h.chains && NextWaits(h, db, k)
  {
    hide Clean, CleanDb, Extends, InHistory;
    var v := VersionOf(db.items, k);
    var waiting := h'.chains[k][v];
    var e := RowEvent(c, h, db, waiting.eventId);
    ExtendsIn(h, h', e);
    EventAtInHistory(c, h', InventoryItem, k.tenant, k.item, v + 1);
    UniqueOf(c, h', e, waiting);
    WasWaiting(h, db, k, e);
  }

  lemma WasWaiting(h: History, db: Db, k: ItemKey, e: Envelope)
    requires InHistory(h, e) && e.payload.QuantityDecremented? && ItemKeyOf(e) == k
    requires e.version == VersionOf(db.items, k) + 1 && e.eventId in db.inbox
    ensures k in h.chains && NextWaits(h, db, k)
  {
  }

  lemma OutstandingCarriesOver(c: Codec, h: History, h': History, s: Desk, k: ItemKey)
    requires Extends(h, h') && Outstanding(c, h, s, k)
    ensures Outstanding(c, h', s, k)
  {
    hide InHistory, Extends, AppliedOf, Responsible;
    if FailedOf(h, s, k) {
      var e :| InHistory(h, e) && AppliedOf(s.db, k, e) && e.eventId in s.failed;
      ExtendsIn(h, h', e);
    }
  }

  lemma ErpKeepsBooks(o: Outside, s: System, step: SourceStep)
    requires SystemInv(o, s) && BooksInv(o, s) && StepOk(step)
    ensures BooksInv(o, s.(ledger := Advance(o, s.ledger, step)))
  {
    hide LedgerInv, LogClean, R.RelayInv, R.NoneQuarantined, Advance, Extends, NextWaits, Outstanding, Clean, CleanDb, TaskClean,
      TaskDone, UnderWay, EventId;
    var c := o.codec;
    var l' := Advance(o, s.ledger, step);
    AdvanceKeepsInv(o, s.ledger, step);
    InvClean(o, s.ledger);
    InvClean(o, l');
    forall k | k in l'.history.chains && NextWaits(l'.history, s.desk.db, k) ensures Outstanding(c, l'.history, s.desk, k) {
      WaitedBefore(c, s.ledger.history, l'.history, s.desk.db, k);
      OutstandingCarriesOver(c, s.ledger.history, l'.history, s.desk, k);
    }
  }

  // --- resets --------------------------------------------------------------------------------------

  /** What the books and the tables say of one event before and after a reset of another tenant. */
  lemma ResetElsewhere(o: Outside, s: System, t: string, e: Envelope)
    requires SystemInv(o, s) && InHistory(s.ledger.history, e)
    ensures var d := s.desk;
            var d' := ResetDesk(s.ledger.source.outbox, t, d);
            && (e.eventId in d'.delivered <==> e.eventId in d.delivered && e.tenantId != t)
            && (e.eventId in d'.failed <==> e.eventId in d.failed && e.tenantId != t)
            && (e.eventId in d'.db.inbox <==> e.eventId in d.db.inbox && e.tenantId != t)
  {
    hide R.RelayInv, R.NoneQuarantined, LogClean, LedgerInv, CleanDb, TaskClean, InHistory;
    InvClean(o, s.ledger);
    OutboxTenant(o, s.ledger, e);
    if e.eventId in s.desk.db.inbox {
      RowOfEvent(o.codec, s.ledger.history, s.desk.db, e);
    }
  }

  lemma ResetVersion(db: Db, t: string, k: ItemKey)
    ensures VersionOf(T.ResetTenant(db, t).items, k) == if k.tenant == t then 0 else VersionOf(db.items, k)
  {
  }

  /** After a reset nothing of the tenant waits, and elsewhere what waits waited before. */
  lemma ResetWaits(o: Outside, s: System, t: string, k: ItemKey)
    requires SystemInv(o, s) && k in s.ledger.history.chains
    requires NextWaits(s.ledger.history, T.ResetTenant(s.desk.db, t), k)
    ensures k.tenant != t && NextWaits(s.ledger.history, s.desk.db, k)
  {
    hide R.RelayInv, R.NoneQuarantined, LogClean, LedgerInv, CleanDb, TaskClean;
    InvClean(o, s.ledger);
    ResetVersion(s.desk.db, t, k);
    var v := VersionOf(T.ResetTenant(s.desk.db, t).items, k);
    EventAtInHistory(o.codec, s.ledger.history, InventoryItem, k.tenant, k.item, v + 1);
    ResetElsewhere(o, s, t, s.ledger.history.chains[k][v]);
  }

  lemma ResetTask(o: Outside, s: System, t: string, u: nat)
    requires SystemInv(o, s) && BooksInv(o, s) && u in s.desk.tasks && !TaskOf(o.codec, s.desk.tasks[u], t)
    ensures TaskDone(ResetDesk(s.ledger.source.outbox, t, s.desk), s.desk.tasks[u])
    ensures EventId(o.codec, s.desk.tasks[u]).Some?
    ensures EventId(o.codec, s.desk.tasks[u]).value in ResetDesk(s.ledger.source.outbox, t, s.desk).delivered
  {
    hide R.RelayInv, R.NoneQuarantined, LogClean, LedgerInv, CleanDb, InHistory, T.ResetTenant, AggregateKey, NextWaits,
      Outstanding, UnderWay;
    var task := s.desk.tasks[u];
    assert TaskClean(o.codec, s.ledger.history, task) && TaskDone(s.desk, task);
    assert IdSet(EventId(o.codec, task)) <= s.desk.delivered;
    match task
    case Fetched(_, value, _, _) => ResetElsewhere(o, s, t, o.codec.parse(value).value);
    case Selecting(e) =>
      ResetElsewhere(o, s, t, e);
      ResetVersion(s.desk.db, t, ItemKeyOf(e));
    case Chosen(e, next, _) =>
      ResetElsewhere(o, s, t, e);
      ResetElsewhere(o, s, t, next);
      ResetVersion(s.desk.db, t, ItemKeyOf(e));
  }

  lemma ResetOutstanding(o: Outside, s: System, t: string, k: ItemKey)
    requires SystemInv(o, s) && k.tenant != t && Outstanding(o.codec, s.ledger.history, s.desk, k)
    ensures Outstanding(o.codec, s.ledger.history, ResetDesk(s.ledger.source.outbox, t, s.desk), k)
  {
    hide R.RelayInv, R.NoneQuarantined, LogClean, LedgerInv, CleanDb, InHistory, T.ResetTenant, TaskClean, Elsewhere;
    var h := s.ledger.history;
    var d' := ResetDesk(s.ledger.source.outbox, t, s.desk);
    ResetVersion(s.desk.db, t, k);
    if FailedOf(h, s.desk, k) {
      var e :| InHistory(h, e) && AppliedOf(s.desk.db, k, e) && e.eventId in s.desk.failed;
      ResetElsewhere(o, s, t, e);
      assert AppliedOf(d'.db, k, e);
    } else {
      var u :| Responsible(o.codec, s.desk, k, u);
      assert Responsible(o.codec, d', k, u);
    }
  }

  lemma ResetKeepsBooks(o: Outside, s: System, t: string)
    requires SystemInv(o, s) && BooksInv(o, s) && Quiet(o.codec, s.desk, t)
    ensures BooksInv(o, s.(desk := ResetDesk(s.ledger.source.outbox, t, s.desk)))
  {
    hide R.RelayInv, R.NoneQuarantined, LogClean, LedgerInv, CleanDb, TaskClean, T.ResetTenant, NextWaits, Outstanding, TaskDone,
      EventId, Elsewhere, TaskOf;
    var c, h, d := o.codec, s.ledger.history, s.desk;
    var d' := ResetDesk(s.ledger.source.outbox, t, d);
    InvClean(o, s.ledger);
    forall id | id in d'.db.inbox ensures id in d'.delivered {
      ResetInboxKey(d.db, t, id);
      var e := RowEvent(c, h, d.db, id);
      ResetElsewhere(o, s, t, e);
    }
    forall id | id in d'.delivered ensures id in d'.db.inbox || id in d'.failed || UnderWay(c, d', id) {
      ElsewhereIn(s.ledger.source.outbox, t, d.delivered, id);
      var e := BookedEvent(o, s, id);
      ResetElsewhere(o, s, t, e);
      if id !in d.db.inbox && id !in d.failed {
        var u :| u in d.tasks && EventId(c, d.tasks[u]) == Some(id);
        assert UnderWay(c, d', id);
      }
    }
    forall u | u in d'.tasks ensures TaskDone(d', d'.tasks[u]) && IdSet(EventId(c, d'.tasks[u])) <= d'.delivered {
      ResetTask(o, s, t, u);
    }
    forall k | k in h.chains && NextWaits(h, d'.db, k) ensures Outstanding(c, h, d', k) {
      ResetWaits(o, s, t, k);
      ResetOutstanding(o, s, t, k);
    }
    forall id | id in d'.failed ensures id in d'.delivered {
      ElsewhereIn(s.ledger.source.outbox, t, d.failed, id);
      var e := BookedEvent(o, s, id);
      ResetElsewhere(o, s, t, e);
    }
  }

  lemma ElsewhereIn(outbox: map<string, OutboxRow>, t: string, ids: set<string>, id: string)
    requires id in Elsewhere(outbox, t, ids)
    ensures id in ids
  {
  }

  lemma ResetInboxKey(db: Db, t: string, id: string)
    requires id in T.ResetTenant(db, t).inbox
    ensures id in db.inbox
  {
  }

  /** The event behind an id in the books. */
  lemma BookedEvent(o: Outside, s: System, id: string) returns (e: Envelope)
    requires SystemInv(o, s) && id in s.desk.delivered
    ensures InHistory(s.ledger.history, e) && e.eventId == id
  {
    hide R.RelayInv, R.NoneQuarantined, LogClean, DeskClean, UniqueIds, UniqueParents, ItemsBalanced, OrdersMatch, HopsMatch,
         Caused;
    var row := s.ledger.source.outbox[id];
    assert OutboxRowClean(o, s.ledger.history, id, row);
    EventAtInHistory(o.codec, s.ledger.history, row.kind, row.tenant, row.aggregate, row.version);
    e := EventAt(s.ledger.history, row.kind, row.tenant, row.aggregate, row.version).value;
  }

  // --- all steps -----------------------------------------------------------------------------------

  lemma DeskStepKeepsBooks(o: Outside, s: System, step: DeskStep)
    requires o.codec.Lawful() && SystemInv(o, s) && BooksInv(o, s) && StepClean(o.codec, s.ledger.history, step)
    ensures BooksInv(o, s.(desk := Interleaving.Step(o.codec, s.desk, step)))
  {
    hide LedgerInv, R.RelayInv, R.NoneQuarantined, LogClean, DeskClean, DeskAck, Booked, StepClean, Interleaving.Step;
    InvClean(o, s.ledger);
    StepKeepsAck(o.codec, s.ledger.history, s.desk, step);
    StepKeepsBooked(o.codec, s.ledger.history, s.desk, step);
  }

  lemma StepKeepsBooks(o: Outside, s: System, step: SystemStep)
    requires o.codec.Lawful() && SystemInv(o, s) && BooksInv(o, s)
    requires step.Erp? ==> StepOk(step.source)
    requires step.Reset? ==> Quiet(o.codec, s.desk, step.tenant)
    ensures BooksInv(o, EndToEnd.Step(o, s, step))
  {
    hide SystemInv, Advance, R.Next, Interleaving.Step, ResetDesk, LedgerInv, RecordClean, StepClean, R.RecordOf, FetchOf,
         DeskAck, Booked, Quiet;
    match step
    case Erp(source) => ErpKeepsBooks(o, s, source);
    case Relay(relay) =>
    case Deliver(task, index, pos) =>
      if index < |s.log| {
        LogRecord(o, s, index);
        FetchIsClean(o.codec, s.ledger.history, task, s.log[index], pos);
        DeskStepKeepsBooks(o, s, FetchOf(task, s.log[index], pos));
      }
    case Replay(task, id, pos) =>
      if id in s.ledger.source.outbox {
        LedgerOf(o, s);
        OutboxRecord(o, s.ledger, id);
        FetchIsClean(o.codec, s.ledger.history, task, R.RecordOf(s.ledger.source.outbox[id]), pos);
        DeskStepKeepsBooks(o, s, FetchOf(task, R.RecordOf(s.ledger.source.outbox[id]), pos));
      }
    case Consume(desk) =>
      if !desk.Fetch? {
        NoFetchIsClean(o.codec, s.ledger.history, desk);
        DeskStepKeepsBooks(o, s, desk);
      }
    case Reset(tenant) => ResetKeepsBooks(o, s, tenant);
  }

  lemma {:induction false} RunKeepsBooks(o: Outside, steps: seq<SystemStep>)
    requires o.codec.Lawful() && Steps(steps) && QuietResets(o, steps)
    ensures BooksInv(o, RunSystem(o, steps))
  {
    hide EndToEnd.Step, BooksInv, Quiet, SystemInv;
    if steps == [] {
      StartBooks(o);
    } else {
      var init := steps[..|steps| - 1];
      QuietPrefix(o, steps);
      RunKeepsBooks(o, init);
      RunKeepsInv(o, init);
      assert QuietAt(o, steps, |steps| - 1);
      StepKeepsBooks(o, RunSystem(o, init), steps[|steps| - 1]);
    }
  }

  lemma StartBooks(o: Outside)
    ensures BooksInv(o, START)
  {
  }

  lemma QuietPrefix(o: Outside, steps: seq<SystemStep>)
    requires Steps(steps) && QuietResets(o, steps) && steps != []
    ensures QuietResets(o, steps[..|steps| - 1])
  {
    hide RunSystem, Quiet;
    var init := steps[..|steps| - 1];
    forall i | 0 <= i < |init| ensures QuietAt(o, init, i) {
      assert QuietAt(o, steps, i);
      assert init[..i] == steps[..i];
    }
  }

  /**
   In every state of the composed system: if the event after an item's projected version waits in the inbox, the latest
   delivery of an applied event of that item has failed or is under way.
   */
  lemma SystemAckObligation(o: Outside, steps: seq<SystemStep>, k: ItemKey)
    requires o.codec.Lawful() && Steps(steps) && QuietResets(o, steps)
    ensures var s := RunSystem(o, steps);
            k in s.ledger.history.chains && NextWaits(s.ledger.history, s.desk.db, k) ==>
              Outstanding(o.codec, s.ledger.history, s.desk, k)
  {
    hide RunSystem, QuietResets, NextWaits, Outstanding;
    RunKeepsBooks(o, steps);
  }

  // --- rest ----------------------------------------------------------------------------------------

  /** Everything published, every record delivered, no delivery failed and none under way. */
  ghost predicate Quiescent(c: Codec, s: System) {
    && (forall id | id in s.ledger.source.outbox :: s.ledger.source.outbox[id].status == Published)
    && (forall i | 0 <= i < |s.log| ::
          c.parse(s.log[i].value).Ok? ==> c.parse(s.log[i].value).value.eventId in s.desk.delivered)
    && s.desk.failed == {} && s.desk.tasks == map[]
  }

  lemma QuiescentDelivers(o: Outside, s: System, e: Envelope)
    requires o.codec.Lawful() && SystemInv(o, s) && Quiescent(o.codec, s) && InHistory(s.ledger.history, e)
    ensures e.eventId in s.desk.delivered
  {
    hide Clean, OrdersMatch, HopsMatch, Caused, ItemsBalanced, DeskClean, R.NoneQuarantined, LogClean, R.RecordOf, InHistory,
         R.WorkerSound;
    var row := s.ledger.source.outbox[e.eventId];
    RowRecord(o, s.ledger, row, e.eventId);
    assert R.RecordOf(row) in s.log;
    var i :| 0 <= i < |s.log| && s.log[i] == R.RecordOf(row);
    RecordBytes(row);
  }

  lemma RecordBytes(row: OutboxRow)
    ensures R.RecordOf(row).value == row.bytes
  {
  }

  /** The consumer's session once nothing is under way and nothing failed. */
  function SessionOf(d: Desk): Session { Session(d.db, d.delivered, {}) }

  lemma RestIsSettled(o: Outside, s: System)
    requires o.codec.Lawful() && SystemInv(o, s) && BooksInv(o, s) && Quiescent(o.codec, s)
    ensures SessionInv(o.codec, s.ledger.history, SessionOf(s.desk)) && Settled(o.codec, s.ledger.history, SessionOf(s.desk))
  {
    hide LedgerInv, LogClean, R.RelayInv, R.NoneQuarantined, DeskClean, DeskAck, Booked, SessionInv, Settled;
    InvClean(o, s.ledger);
    QuietDeskIsSettled(o.codec, s.ledger.history, s.desk);
  }

  /**
   When the system comes to rest, the inventory projection is erp.inventory_items: the same row for every item that
   has had an order, and no row for the others.
   */
  lemma RestIsExact(o: Outside, steps: seq<SystemStep>, k: ItemKey)
    requires o.codec.Lawful() && Steps(steps) && QuietResets(o, steps)
    requires Quiescent(o.codec, RunSystem(o, steps))
    ensures var source := RunSystem(o, steps).ledger.source.items;
            var projected := RunSystem(o, steps).desk.db.items;
            if k in source && source[k].version > 0 then k in projected && projected[k] == source[k]
            else k !in projected
  {
    hide RunSystem, SystemInv, QuietResets, BooksInv;
    RunKeepsInv(o, steps);
    RunKeepsBooks(o, steps);
    RestOfItem(o, RunSystem(o, steps), k);
  }

  lemma RestOfItem(o: Outside, s: System, k: ItemKey)
    requires o.codec.Lawful() && SystemInv(o, s) && BooksInv(o, s) && Quiescent(o.codec, s)
    ensures var source := s.ledger.source.items;
            var projected := s.desk.db.items;
            if k in source && source[k].version > 0 then k in projected && projected[k] == source[k]
            else k !in projected
  {
    hide Clean, LogClean, R.RelayInv, R.NoneQuarantined, DeskClean, LedgerInv, Quiescent, RowAt, BooksInv, SessionInv, Settled;
    var source := s.ledger.source.items;
    if k in s.desk.db.items {
      ProjectedRow(o, s, k);
    }
    if k in source && source[k].version > 0 {
      CurrentRow(o, s.ledger, k);
      var es := s.ledger.history.chains[k];
      InvClean(o, s.ledger);
      forall i | 0 <= i < |es| ensures es[i].eventId in s.desk.delivered {
        EventAtInHistory(o.codec, s.ledger.history, InventoryItem, k.tenant, k.item, i + 1);
        QuiescentDelivers(o, s, es[i]);
      }
      PrefixIs(es, s.desk.delivered, |es|);
      RestIsSettled(o, s);
      SettledItem(o.codec, s.ledger.history, SessionOf(s.desk), k);
    }
  }

  /** At rest the lineage tables hold exactly the source's hops, each as its event wrote it. */
  lemma RestHopsAreExact(o: Outside, steps: seq<SystemStep>, k: HopKey)
    requires o.codec.Lawful() && Steps(steps) && QuietResets(o, steps)
    requires Quiescent(o.codec, RunSystem(o, steps))
    ensures var s := RunSystem(o, steps);
            && (k in s.desk.db.hops <==> k in s.ledger.source.hops)
            && (k in s.desk.db.hops ==> k in s.ledger.history.hops && s.desk.db.hops[k] == HopOf(s.ledger.history.hops[k]))
  {
    hide RunSystem, SystemInv, QuietResets, BooksInv;
    RunKeepsInv(o, steps);
    RunKeepsBooks(o, steps);
    RestOfHop(o, RunSystem(o, steps), k);
  }

  lemma RestOfHop(o: Outside, s: System, k: HopKey)
    requires o.codec.Lawful() && SystemInv(o, s) && BooksInv(o, s) && Quiescent(o.codec, s)
    ensures k in s.desk.db.hops <==> k in s.ledger.source.hops
    ensures k in s.desk.db.hops ==>
              k in s.ledger.history.hops && s.desk.db.hops[k] == HopOf(s.ledger.history.hops[k])
  {
    hide Clean, CleanDb, LogClean, R.RelayInv, R.NoneQuarantined, Quiescent, OutboxMatches, ItemsBalanced, OrdersMatch, Caused,
      HopOf, BooksInv, SessionInv, Settled, TaskClean;
    var h := s.ledger.history;
    if k in s.desk.db.hops {
      HopCleanFacts(o.codec, h, s.desk.db, k);
    }
    if k in h.hops {
      HopInHistory(o.codec, h, k);
      QuiescentDelivers(o, s, h.hops[k]);
      RestIsSettled(o, s);
      AckedHop(o.codec, h, SessionOf(s.desk), k);
    }
  }
}
