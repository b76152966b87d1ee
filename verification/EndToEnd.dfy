/**
 Source, relay, broker, consumer and operator composed: every interleaving of commands, rollbacks, claims, expiries,
 lost answers, crashes, single database operations of duplicate and reordered deliveries, failed re-drives, tenant
 resets and replays of retained rows.
 */
module EndToEnd {
  import opened Events
  import opened Projection
  import opened Convergence
  import opened Source
  import opened SourceInvariant
  import opened Interleaving
  import opened DeskConvergence
  import T = TenantRebuild
  import R = Relay

  datatype System = System(
    ledger: Ledger,
    log: seq<R.Record>,
    now: int,
    workers: map<nat, R.Worker>,
    desk: Desk)

  /**
   Deliver hands a broker record to the consumer and Replay a retained outbox row to the operator's replay; Consume is
   the next database operation, or the crash, of a delivery under way; Reset deletes a tenant's derived state.
   */
  datatype SystemStep =
    | Erp(source: SourceStep)
    | Relay(relay: R.RelayStep)
    | Deliver(task: nat, index: nat, pos: Position)
    | Replay(task: nat, id: string, pos: Position)
    | Consume(desk: DeskStep)
    | Reset(tenant: string)

  const START: System := System(EMPTY_LEDGER, [], 0, map[], EMPTY_DESK)

  function RelayOf(s: System): R.Relay { R.Relay(s.ledger.source.outbox, s.log, s.now, s.workers) }

  function WithRelay(s: System, r: R.Relay): System {
    System(s.ledger.(source := s.ledger.source.(outbox := r.outbox)), r.log, r.now, r.workers, s.desk)
  }

  function FetchOf(task: nat, r: R.Record, pos: Position): DeskStep { Fetch(task, r.key, r.value, pos, None) }

  /** The ids whose outbox row belongs to another tenant. */
  function Elsewhere(outbox: map<string, OutboxRow>, t: string, ids: set<string>): set<string> {
    set id | id in ids && (id in outbox ==> outbox[id].tenant != t)
  }

  /** ResetDerivedStateForTenant; what was delivered to the tenant has to be delivered again. */
  function ResetDesk(outbox: map<string, OutboxRow>, t: string, d: Desk): Desk {
    d.(db := T.ResetTenant(d.db, t), delivered := Elsewhere(outbox, t, d.delivered), failed := Elsewhere(outbox, t, d.failed))
  }

  ghost function Step(o: Outside, s: System, step: SystemStep): System
    requires step.Erp? ==> StepOk(step.source)
  {
    match step
    case Erp(source) => s.(ledger := Advance(o, s.ledger, source))
    case Relay(relay) => WithRelay(s, R.Next(o.codec, RelayOf(s), relay))
    case Deliver(task, index, pos) =>
      if index < |s.log| then s.(desk := Interleaving.Step(o.codec, s.desk, FetchOf(task, s.log[index], pos))) else s
    case Replay(task, id, pos) =>
      if id in s.ledger.source.outbox then
        s.(desk := Interleaving.Step(o.codec, s.desk, FetchOf(task, R.RecordOf(s.ledger.source.outbox[id]), pos)))
      else s
    case Consume(desk) => if desk.Fetch? then s else s.(desk := Interleaving.Step(o.codec, s.desk, desk))
    case Reset(tenant) => s.(desk := ResetDesk(s.ledger.source.outbox, tenant, s.desk))
  }

  ghost predicate Steps(steps: seq<SystemStep>) {
    forall i | 0 <= i < |steps| && steps[i].Erp? :: StepOk(steps[i].source)
  }

  ghost function RunSystem(o: Outside, steps: seq<SystemStep>): System
    requires Steps(steps)
  {
    if steps == [] then START
    else Step(o, RunSystem(o, steps[..|steps| - 1]), steps[|steps| - 1])
  }

  // --- the invariant -------------------------------------------------------------------------------

  /** The record carries an event of the history, as canonical text under its aggregate key. */
  ghost predicate RecordClean(c: Codec, h: History, r: R.Record) {
    && c.parse(r.value).Ok?
    && var e := c.parse(r.value).value;
    && InHistory(h, e)
    && r == R.Record(AggregateKey(e.tenantId, e.aggregateType, e.aggregateId), c.print_(e))
  }

  ghost predicate LogClean(c: Codec, h: History, log: seq<R.Record>) {
    forall i | 0 <= i < |log| :: RecordClean(c, h, log[i])
  }

  ghost predicate SystemInv(o: Outside, s: System) {
    && LedgerInv(o, s.ledger)
    && LogClean(o.codec, s.ledger.history, s.log)
    && R.RelayInv(RelayOf(s))
    && R.NoneQuarantined(RelayOf(s))
    && DeskClean(o.codec, s.ledger.history, s.desk)
    && s.desk.delivered + s.desk.failed <= s.ledger.source.outbox.Keys
  }

  // --- source steps --------------------------------------------------------------------------------

  lemma ExtendsIn(h: History, h': History, e: Envelope)
    requires Extends(h, h') && InHistory(h, e)
    ensures InHistory(h', e)
  {
    ExtendsEventAt(h, h', e.Kind(), e.tenantId, e.aggregateId, e.version);
  }

  lemma LogCarriesOver(c: Codec, h: History, h': History, log: seq<R.Record>)
    requires Extends(h, h') && LogClean(c, h, log)
    ensures LogClean(c, h', log)
  {
    hide InHistory, Extends;
    forall i | 0 <= i < |log| ensures RecordClean(c, h', log[i]) {
      assert RecordClean(c, h, log[i]);
      ExtendsIn(h, h', c.parse(log[i].value).value);
    }
  }

  lemma DbCarriesOver(c: Codec, h: History, h': History, db: Db)
    requires Extends(h, h') && CleanDb(c, h, db)
    ensures CleanDb(c, h', db)
  {
    hide HopOf, Codec.Hash;
    forall id | id in db.inbox ensures RowClean(c, h', db, id) {
      assert RowClean(c, h, db, id);
      var row := db.inbox[id];
      ExtendsEventAt(h, h', row.kind, row.tenant, row.aggregate, row.version);
    }
    forall k | k in db.items ensures ItemClean(h', db, k) {
      assert ItemClean(h, db, k);
    }
    forall k | k in db.hops ensures HopClean(h', db, k) {
      assert HopClean(h, db, k);
    }
  }

  lemma DeskCarriesOver(c: Codec, h: History, h': History, s: Desk)
    requires Extends(h, h') && DeskClean(c, h, s)
    ensures DeskClean(c, h', s)
  {
    hide CleanDb, InHistory, Extends, AggregateKey, Codec.Hash;
    DbCarriesOver(c, h, h', s.db);
    forall t | t in s.tasks ensures TaskClean(c, h', s.tasks[t]) {
      assert TaskClean(c, h, s.tasks[t]);
      match s.tasks[t]
      case Fetched(_, value, _, _) => ExtendsIn(h, h', c.parse(value).value);
      case Selecting(e) => ExtendsIn(h, h', e);
      case Chosen(e, next, _) =>
        ExtendsIn(h, h', e);
        ExtendsIn(h, h', next);
    }
  }

  /** A source step leaves existing outbox rows alone and adds at most one pending row. */
  ghost predicate OutboxGrew(a: map<string, OutboxRow>, b: map<string, OutboxRow>) {
    forall id | id in b :: if id in a then b[id] == a[id] else b[id].status == Pending && b[id].expires == None
  }

  lemma AdvanceOutbox(o: Outside, l: Ledger, step: SourceStep)
    requires StepOk(step)
    ensures var outbox' := Advance(o, l, step).source.outbox;
            OutboxGrew(l.source.outbox, outbox') && l.source.outbox.Keys <= outbox'.Keys
  {
    hide AcceptOrder, AcceptHop, HopError, SourceHopCollides;
    if step.Command? {
      if step.cmd.OrderCommand? {
        OrderEffectOf(o, l.source, step.cmd, step.commits);
      } else {
        HopEffectOf(o, l.source, step.cmd, step.commits);
      }
    }
  }

  lemma RelayCarriesOver(r: R.Relay, r': R.Relay)
    requires R.RelayInv(r) && R.NoneQuarantined(r)
    requires r'.log == r.log && r'.workers == r.workers
    requires OutboxGrew(r.outbox, r'.outbox) && r.outbox.Keys <= r'.outbox.Keys
    ensures R.RelayInv(r') && R.NoneQuarantined(r')
  {
    hide R.RecordOf;
    forall w | w in r'.workers ensures R.WorkerSound(r', r'.workers[w]) {
      assert R.WorkerSound(r, r.workers[w]);
    }
  }

  lemma ErpKeepsInv(o: Outside, s: System, step: SourceStep)
    requires SystemInv(o, s) && StepOk(step)
    ensures SystemInv(o, s.(ledger := Advance(o, s.ledger, step)))
  {
    hide LedgerInv, LogClean, R.RelayInv, R.NoneQuarantined, DeskClean, Advance, Extends, OutboxGrew;
    var l' := Advance(o, s.ledger, step);
    AdvanceKeepsInv(o, s.ledger, step);
    LogCarriesOver(o.codec, s.ledger.history, l'.history, s.log);
    DeskCarriesOver(o.codec, s.ledger.history, l'.history, s.desk);
    AdvanceOutbox(o, s.ledger, step);
    RelayCarriesOver(RelayOf(s), RelayOf(s.(ledger := l')));
  }

  // --- relay steps ---------------------------------------------------------------------------------

  lemma SameEventIsRow(o: Outside, a: OutboxRow, b: OutboxRow, e: Envelope)
    requires R.SameEvent(a, b)
    ensures IsRowOf(o, a, e) <==> IsRowOf(o, b, e)
  {
  }

  lemma PreservedLedger(o: Outside, l: Ledger, outbox: map<string, OutboxRow>)
    requires LedgerInv(o, l) && R.Preserves(l.source.outbox, outbox)
    ensures LedgerInv(o, l.(source := l.source.(outbox := outbox)))
  {
    hide Clean, OrdersMatch, HopsMatch, Caused, IsRowOf, Total;
    forall id | id in outbox ensures OutboxRowClean(o, l.history, id, outbox[id]) {
      assert OutboxRowClean(o, l.history, id, l.source.outbox[id]);
      SameEventIsRow(o, l.source.outbox[id], outbox[id],
                     EventAt(l.history, outbox[id].kind, outbox[id].tenant, outbox[id].aggregate, outbox[id].version).value);
    }
    var l' := l.(source := l.source.(outbox := outbox));
    forall k | k in l'.source.items ensures ItemBalanced(l', k) {
      assert ItemBalanced(l, k);
    }
  }

  /** A row of the outbox is publishable, and its record carries its event. */
  lemma RowRecord(o: Outside, l: Ledger, row: OutboxRow, id: string)
    requires o.codec.Lawful() && LedgerInv(o, l) && id in l.source.outbox && R.SameEvent(row, l.source.outbox[id])
    ensures RecordClean(o.codec, l.history, R.RecordOf(row))
    ensures R.Refusal(o.codec, row) == None
    ensures o.codec.parse(row.bytes).Ok? && o.codec.parse(row.bytes).value.eventId == id
  {
    hide UniqueIds, UniqueParents, OrdersMatch, HopsMatch, Caused, ItemsBalanced, AggregateKey;
    var own := l.source.outbox[id];
    assert OutboxRowClean(o, l.history, id, own);
    EventAtInHistory(o.codec, l.history, own.kind, own.tenant, own.aggregate, own.version);
  }

  lemma OutboxPublishable(o: Outside, l: Ledger)
    requires o.codec.Lawful() && LedgerInv(o, l)
    ensures R.Publishable(o.codec, l.source.outbox)
  {
    hide LedgerInv, R.Refusal, RecordClean;
    forall id | id in l.source.outbox ensures R.Refusal(o.codec, l.source.outbox[id]) == None {
      RowRecord(o, l, l.source.outbox[id], id);
    }
  }

  /** A relay step appends nothing, or the record of the row at the head of some worker's queue. */
  lemma Appended(c: Codec, r: R.Relay, step: R.RelayStep)
    requires R.RelayInv(r)
    ensures var log' := R.Next(c, r, step).log;
            log' == r.log
            || exists id, row :: id in r.outbox && R.SameEvent(row, r.outbox[id]) && log' == r.log + [R.RecordOf(row)]
  {
    hide R.RecordOf, R.Refusal, R.ClaimAll, R.SqlBackoff;
    if step.Publish? && step.worker in r.workers && r.workers[step.worker].queue != [] {
      assert R.WorkerSound(r, r.workers[step.worker]);
      var head := r.workers[step.worker].queue[0];
      assert head.id in r.outbox && R.SameEvent(head.row, r.outbox[head.id]);
    }
  }

  lemma RelayKeepsInv(o: Outside, s: System, step: R.RelayStep)
    requires o.codec.Lawful() && SystemInv(o, s)
    ensures SystemInv(o, WithRelay(s, R.Next(o.codec, RelayOf(s), step)))
  {
    hide LedgerInv, LogClean, R.RelayInv, R.NoneQuarantined, DeskClean, R.Next, R.Preserves, R.Publishable, R.RecordOf,
         RecordClean, R.SameEvent;
    var r := RelayOf(s);
    var r' := R.Next(o.codec, r, step);
    R.NextPreserves(o.codec, r, step);
    PreservedLedger(o, s.ledger, r'.outbox);
    R.NextKeepsInv(o.codec, r, step);
    OutboxPublishable(o, s.ledger);
    R.NeverQuarantined(o.codec, r, step);
    Appended(o.codec, r, step);
    if r'.log != r.log {
      var id, row :| id in r.outbox && R.SameEvent(row, r.outbox[id]) && r'.log == r.log + [R.RecordOf(row)];
      RowRecord(o, s.ledger, row, id);
      LogGrows(o.codec, s.ledger.history, r.log, R.RecordOf(row));
    }
    assert RelayOf(WithRelay(s, r')) == r';
    PreservesKeys(r.outbox, r'.outbox);
  }

  lemma PreservesKeys(a: map<string, OutboxRow>, b: map<string, OutboxRow>)
    requires R.Preserves(a, b)
    ensures a.Keys == b.Keys
  {
  }

  lemma LogGrows(c: Codec, h: History, log: seq<R.Record>, r: R.Record)
    requires LogClean(c, h, log) && RecordClean(c, h, r)
    ensures LogClean(c, h, log + [r])
  {
  }

  // --- deliveries, replays and resets ----------------------------------------------------------------

  lemma FetchIsClean(c: Codec, h: History, task: nat, r: R.Record, pos: Position)
    requires RecordClean(c, h, r)
    ensures StepClean(c, h, FetchOf(task, r, pos))
  {
    hide AggregateKey, InHistory;
  }

  /** The outbox row of an event names the event's tenant. */
  lemma OutboxTenant(o: Outside, l: Ledger, e: Envelope)
    requires LedgerInv(o, l) && InHistory(l.history, e)
    ensures e.eventId in l.source.outbox && l.source.outbox[e.eventId].tenant == e.tenantId
  {
    hide UniqueIds, UniqueParents, ItemsBalanced, OrdersMatch, HopsMatch, Caused, IsRowOf;
    EventRow(o, l.history, l.source.outbox, e);
    RowColumns(o, l.source.outbox[e.eventId], e);
  }

  lemma TaskEvent(c: Codec, h: History, task: Task) returns (e: Envelope)
    requires TaskClean(c, h, task)
    ensures InHistory(h, e) && EventId(c, task) == Some(e.eventId)
  {
    e := match task
      case Fetched(_, value, _, _) => c.parse(value).value
      case Selecting(e) => e
      case Chosen(e, _, _) => e;
  }

  /** The books of a desk change only by the id of the delivery that the step concerns. */
  lemma DeskBooks(c: Codec, s: Desk, step: DeskStep)
    ensures var s' := Interleaving.Step(c, s, step);
            var ids := match step
              case Fetch(t, key, value, pos, probe) => IdSet(EventId(c, Fetched(key, value, pos, probe)))
              case Work(t, _, _) => if t in s.tasks then IdSet(EventId(c, s.tasks[t])) else {}
              case Crash(t) => if t in s.tasks then IdSet(EventId(c, s.tasks[t])) else {};
            s'.delivered + s'.failed <= s.delivered + s.failed + ids
  {
    hide ProcessValidated, GapCandidates, Record, AggregateKey, Codec.Hash, EventId;
  }

  lemma DeskStepKeepsInv(o: Outside, s: System, step: DeskStep)
    requires o.codec.Lawful() && SystemInv(o, s) && StepClean(o.codec, s.ledger.history, step)
    ensures SystemInv(o, s.(desk := Interleaving.Step(o.codec, s.desk, step)))
  {
    hide LedgerInv, R.RelayInv, R.NoneQuarantined, LogClean, InHistory, AggregateKey, Interleaving.Step, CleanDb, TaskClean,
         EventId;
    var c := o.codec;
    InvClean(o, s.ledger);
    StepKeepsClean(c, s.ledger.history, s.desk, step);
    DeskBooks(c, s.desk, step);
    if step.Fetch? {
      var e := TaskEvent(c, s.ledger.history, Fetched(step.key, step.value, step.pos, step.probe));
      OutboxTenant(o, s.ledger, e);
    } else if step.task in s.desk.tasks {
      var e := TaskEvent(c, s.ledger.history, s.desk.tasks[step.task]);
      OutboxTenant(o, s.ledger, e);
    }
  }

  /** A tenant's rows only speak of that tenant, so deleting them leaves the other tenants' clean. */
  lemma ResetClean(c: Codec, h: History, db: Db, t: string)
    requires Clean(c, h) && CleanDb(c, h, db)
    ensures CleanDb(c, h, T.ResetTenant(db, t))
  {
    hide UniqueIds, UniqueParents, HopOf, Codec.Hash;
    var db' := T.ResetTenant(db, t);
    forall id | id in db'.inbox ensures RowClean(c, h, db', id) {
      assert RowClean(c, h, db, id);
    }
    forall k | k in db'.items ensures ItemClean(h, db', k) {
      ResetItem(c, h, db, t, k);
    }
    forall k | k in db'.hops ensures HopClean(h, db', k) {
      HopCleanFacts(c, h, db, k);
      HopInHistory(c, h, k);
      RowOfEvent(c, h, db, h.hops[k]);
    }
  }

  lemma ResetItem(c: Codec, h: History, db: Db, t: string, k: ItemKey)
    requires Clean(c, h) && CleanDb(c, h, db) && k in db.items && k.tenant != t
    ensures k in T.ResetTenant(db, t).items && ItemClean(h, T.ResetTenant(db, t), k)
  {
    hide UniqueIds, UniqueParents, HopOf, Codec.Hash, RowClean, HopClean;
    var db' := T.ResetTenant(db, t);
    assert ItemClean(h, db, k);
    forall i | 0 <= i < db.items[k].version ensures h.chains[k][i].eventId in db'.inbox {
      EventAtInHistory(c, h, InventoryItem, k.tenant, k.item, i + 1);
      RowOfEvent(c, h, db, h.chains[k][i]);
    }
  }

  lemma ResetKeepsInv(o: Outside, s: System, t: string)
    requires SystemInv(o, s)
    ensures SystemInv(o, s.(desk := ResetDesk(s.ledger.source.outbox, t, s.desk)))
  {
    hide LedgerInv, R.RelayInv, R.NoneQuarantined, LogClean, CleanDb, TaskClean, T.ResetTenant;
    InvClean(o, s.ledger);
    ResetClean(o.codec, s.ledger.history, s.desk.db, t);
  }

  lemma OutboxRecord(o: Outside, l: Ledger, id: string)
    requires o.codec.Lawful() && LedgerInv(o, l) && id in l.source.outbox
    ensures RecordClean(o.codec, l.history, R.RecordOf(l.source.outbox[id]))
  {
    hide LedgerInv, RecordClean, R.RecordOf, R.Refusal;
    RowRecord(o, l, l.source.outbox[id], id);
  }

  lemma StepKeepsInv(o: Outside, s: System, step: SystemStep)
    requires o.codec.Lawful() && SystemInv(o, s)
    requires step.Erp? ==> StepOk(step.source)
    ensures SystemInv(o, Step(o, s, step))
  {
    hide SystemInv, Advance, R.Next, Interleaving.Step, ResetDesk, LedgerInv, RecordClean, StepClean, R.RecordOf, FetchOf;
    match step
    case Erp(source) => ErpKeepsInv(o, s, source);
    case Relay(relay) => RelayKeepsInv(o, s, relay);
    case Deliver(task, index, pos) =>
      if index < |s.log| {
        LogRecord(o, s, index);
        FetchIsClean(o.codec, s.ledger.history, task, s.log[index], pos);
        DeskStepKeepsInv(o, s, FetchOf(task, s.log[index], pos));
      }
    case Replay(task, id, pos) =>
      if id in s.ledger.source.outbox {
        LedgerOf(o, s);
        OutboxRecord(o, s.ledger, id);
        FetchIsClean(o.codec, s.ledger.history, task, R.RecordOf(s.ledger.source.outbox[id]), pos);
        DeskStepKeepsInv(o, s, FetchOf(task, R.RecordOf(s.ledger.source.outbox[id]), pos));
      }
    case Consume(desk) =>
      if !desk.Fetch? {
        NoFetchIsClean(o.codec, s.ledger.history, desk);
        DeskStepKeepsInv(o, s, desk);
      }
    case Reset(tenant) => ResetKeepsInv(o, s, tenant);
  }

  lemma NoFetchIsClean(c: Codec, h: History, step: DeskStep)
    requires !step.Fetch?
    ensures StepClean(c, h, step)
  {
  }

  lemma LogRecord(o: Outside, s: System, index: nat)
    requires SystemInv(o, s) && index < |s.log|
    ensures RecordClean(o.codec, s.ledger.history, s.log[index])
  {
    hide LedgerInv, RecordClean, DeskClean;
  }

  lemma LedgerOf(o: Outside, s: System)
    requires SystemInv(o, s)
    ensures LedgerInv(o, s.ledger)
  {
  }

  lemma StartInv(o: Outside)
    ensures SystemInv(o, START)
  {
    hide LedgerInv;
    EmptyLedgerInv(o);
  }

  lemma {:induction false} RunKeepsInv(o: Outside, steps: seq<SystemStep>)
    requires o.codec.Lawful() && Steps(steps)
    ensures SystemInv(o, RunSystem(o, steps))
  {
    hide Step, SystemInv;
    if steps == [] {
      StartInv(o);
    } else {
      RunKeepsInv(o, steps[..|steps| - 1]);
      StepKeepsInv(o, RunSystem(o, steps[..|steps| - 1]), steps[|steps| - 1]);
    }
  }

  // --- the projection is a past state of the source --------------------------------------------------

  /** What erp.inventory_items held for the item when it was at that version. */
  ghost function RowAt(l: Ledger, k: ItemKey, v: int): ItemRow
    requires k in l.seeds && 0 <= v <= |ChainOf(l.history, k)|
  {
    if v == 0 then ItemRow(l.seeds[k], 0)
    else
      var p := ChainOf(l.history, k)[v - 1].payload;
      ItemRow(if p.QuantityDecremented? then p.after else 0, v)
  }

  lemma CurrentRow(o: Outside, l: Ledger, k: ItemKey)
    requires LedgerInv(o, l) && k in l.source.items
    ensures k in l.seeds && l.source.items[k].version == |ChainOf(l.history, k)|
    ensures RowAt(l, k, l.source.items[k].version) == l.source.items[k]
  {
    hide Clean, OutboxMatches, OrdersMatch, HopsMatch, Caused, Total;
    assert ItemBalanced(l, k);
  }

  /** A source step moves an item by at most one version and does not rewrite its past. */
  lemma AdvanceItem(o: Outside, l: Ledger, step: SourceStep, k: ItemKey, v: int)
    requires LedgerInv(o, l) && StepOk(step)
    requires k in Advance(o, l, step).source.items && 0 <= v < Advance(o, l, step).source.items[k].version
    ensures k in l.source.items && v <= l.source.items[k].version
    ensures var l' := Advance(o, l, step);
            && k in l.seeds && v <= |ChainOf(l.history, k)|
            && k in l'.seeds && v <= |ChainOf(l'.history, k)|
            && RowAt(l', k, v) == RowAt(l, k, v)
  {
    hide LedgerInv, AcceptOrder, AcceptHop, HopError, SourceHopCollides, PendingRow;
    if step.Command? {
      if step.cmd.OrderCommand? {
        OrderEffectOf(o, l.source, step.cmd, step.commits);
      } else {
        HopEffectOf(o, l.source, step.cmd, step.commits);
      }
    }
    assert k in l.source.items;
    CurrentRow(o, l, k);
  }

  lemma StepItem(o: Outside, s: System, step: SystemStep, k: ItemKey, v: int)
    requires LedgerInv(o, s.ledger)
    requires step.Erp? ==> StepOk(step.source)
    requires k in Step(o, s, step).ledger.source.items && 0 <= v < Step(o, s, step).ledger.source.items[k].version
    ensures k in s.ledger.source.items && v <= s.ledger.source.items[k].version
    ensures var l := s.ledger;
            var l' := Step(o, s, step).ledger;
            && k in l.seeds && v <= |ChainOf(l.history, k)|
            && k in l'.seeds && v <= |ChainOf(l'.history, k)|
            && RowAt(l', k, v) == RowAt(l, k, v)
  {
    hide LedgerInv, Advance, R.Next, Interleaving.Step, ResetDesk, R.RecordOf;
    if step.Erp? {
      AdvanceItem(o, s.ledger, step.source, k, v);
    } else {
      CurrentRow(o, s.ledger, k);
    }
  }

  /** At some point of the run the item's authoritative row was this one. */
  ghost predicate Held(o: Outside, steps: seq<SystemStep>, k: ItemKey, row: ItemRow)
    requires Steps(steps)
  {
    exists n :: 0 <= n <= |steps| && HeldAt(o, steps, n, k, row)
  }

  ghost predicate HeldAt(o: Outside, steps: seq<SystemStep>, n: nat, k: ItemKey, row: ItemRow)
    requires n <= |steps| && Steps(steps)
  {
    var items := RunSystem(o, steps[..n]).ledger.source.items;
    k in items && items[k] == row
  }

  lemma {:induction false} EveryVersionWasHeld(o: Outside, steps: seq<SystemStep>, k: ItemKey, v: int)
    requires o.codec.Lawful() && Steps(steps)
    requires k in RunSystem(o, steps).ledger.source.items
    requires 0 <= v <= RunSystem(o, steps).ledger.source.items[k].version
    ensures var l := RunSystem(o, steps).ledger;
            k in l.seeds && v <= |ChainOf(l.history, k)| && Held(o, steps, k, RowAt(l, k, v))
  {
    hide Step, SystemInv, RowAt, HeldAt;
    RunKeepsInv(o, steps);
    var s := RunSystem(o, steps);
    LedgerOf(o, s);
    CurrentRow(o, s.ledger, k);
    if v == s.ledger.source.items[k].version {
      HeldNow(o, steps, k);
    } else {
      assert steps != [];
      var before := steps[..|steps| - 1];
      RunKeepsInv(o, before);
      LedgerOf(o, RunSystem(o, before));
      StepItem(o, RunSystem(o, before), steps[|steps| - 1], k, v);
      EveryVersionWasHeld(o, before, k, v);
      HeldLater(o, steps, k, RowAt(s.ledger, k, v));
    }
  }

  lemma HeldNow(o: Outside, steps: seq<SystemStep>, k: ItemKey)
    requires Steps(steps) && k in RunSystem(o, steps).ledger.source.items
    ensures Held(o, steps, k, RunSystem(o, steps).ledger.source.items[k])
  {
    hide Step;
    assert steps[..|steps|] == steps;
    assert HeldAt(o, steps, |steps|, k, RunSystem(o, steps).ledger.source.items[k]);
  }

  lemma HeldLater(o: Outside, steps: seq<SystemStep>, k: ItemKey, row: ItemRow)
    requires Steps(steps) && steps != [] && Held(o, steps[..|steps| - 1], k, row)
    ensures Held(o, steps, k, row)
  {
    hide Step, RunSystem;
    var before := steps[..|steps| - 1];
    var n :| 0 <= n <= |before| && HeldAt(o, before, n, k, row);
    assert before[..n] == steps[..n];
    assert HeldAt(o, steps, n, k, row);
  }

  /**
   End to end, in every reachable state: a projected item is one the source knows, its row is the row the source
   itself held at an earlier or the present point of the run, and its version is not ahead of the source.
   */
  lemma ProjectionIsPastSource(o: Outside, steps: seq<SystemStep>, k: ItemKey)
    requires o.codec.Lawful() && Steps(steps)
    requires k in RunSystem(o, steps).desk.db.items
    ensures var s := RunSystem(o, steps);
            && k in s.ledger.source.items
            && s.desk.db.items[k].version <= s.ledger.source.items[k].version
            && Held(o, steps, k, s.desk.db.items[k])
  {
    hide RunSystem, SystemInv, LedgerInv, CleanDb, Held;
    RunKeepsInv(o, steps);
    var s := RunSystem(o, steps);
    ProjectedRow(o, s, k);
    EveryVersionWasHeld(o, steps, k, s.desk.db.items[k].version);
  }

  lemma ProjectedRow(o: Outside, s: System, k: ItemKey)
    requires SystemInv(o, s) && k in s.desk.db.items
    ensures k in s.ledger.source.items && k in s.ledger.seeds
    ensures 1 <= s.desk.db.items[k].version <= |ChainOf(s.ledger.history, k)|
    ensures s.desk.db.items[k].version <= s.ledger.source.items[k].version
    ensures RowAt(s.ledger, k, s.desk.db.items[k].version) == s.desk.db.items[k]
  {
    hide Clean, OutboxMatches, OrdersMatch, HopsMatch, Caused, CleanDb, R.RelayInv, R.NoneQuarantined, LogClean, ItemBalanced;
    ItemCleanFacts(o.codec, s.ledger.history, s.desk.db, k);
    CurrentRow(o, s.ledger, k);
  }
}
