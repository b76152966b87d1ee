/**
 Properties of the derived tables that every transaction keeps, lifted once to whole runs, and three of them: the
 content an event id is bound to, the unique keys of the lineage tables, and the keys of every row.
 */
module TableInvariants {
  import opened Events
  import opened Projection
  import opened Interleaving
  import opened ProjectionSafety
  import C = Convergence

  // --- lifting -----------------------------------------------------------------------------------------

  /** A property of the tables and the events applied so far. */
  type Property = (Db, seq<Envelope>) -> bool

  /** Kept by every transaction over a valid event, and by the conflict record of a re-drive. */
  ghost predicate KeptByEvents(c: Codec, p: Property) {
    forall db, log, env | p(db, log) && c.valid(env) ::
      && p(ProcessValidated(c, db, env).0, log + Logged(ProcessValidated(c, db, env).1, env))
      && p(Record(c, db, env, Conflict, None), log)
  }

  ghost predicate KeptByFailures(p: Property) {
    forall db: Db, log, failures | p(db, log) :: p(db.(failures := failures), log)
  }

  /** The record parses but its key, or its payload, is not that of the event's aggregate. */
  predicate Misaddressed(c: Codec, d: Delivery) {
    && c.parse(d.value).Ok?
    && var env := c.parse(d.value).value;
    d.key != AggregateKey(env.tenantId, env.aggregateType, env.aggregateId) || env.payload.SelfId() != env.aggregateId
  }

  ghost predicate KeptByMismatch(c: Codec, p: Property, d: Delivery) {
    Misaddressed(c, d) ==> forall db, log | p(db, log) :: p(Record(c, db, c.parse(d.value).value, Mismatch, None), log)
  }

  lemma {:induction false} RedriveKeeps(c: Codec, p: Property, db: Db, log: seq<Envelope>, kind: Kind, tenant: string,
                                        aggregate: string, budget: nat, tie: TieBreak)
    requires c.Lawful() && KeptByEvents(c, p) && p(db, log)
    ensures var r := Redrive(c, db, kind, tenant, aggregate, budget, tie);
            p(r.db, log + r.applied)
    decreases budget
  {
    hide Redrive, ProcessValidated, Record, Codec.Hash, GapCandidates;
    assert log + [] == log;
    RedriveIs(c, db, kind, tenant, aggregate, budget, tie);
    var cs := GapCandidates(db, kind, tenant, aggregate);
    if budget > 1 && cs != {} {
      var parsed := c.parse(db.inbox[tie(cs)].bytes.value);
      if parsed.Ok? {
        var env := parsed.value;
        assert c.valid(env);
        if c.Hash(env) != db.inbox[tie(cs)].hash {
          RedriveKeeps(c, p, Record(c, db, env, Conflict, None), log, kind, tenant, aggregate, budget - 2, tie);
        } else {
          var (db', d) := ProcessValidated(c, db, env);
          RedriveKeeps(c, p, db', log + Logged(d, env), kind, tenant, aggregate, budget - 2, tie);
          var rest := Redrive(c, db', kind, tenant, aggregate, budget - 2, tie);
          assert log + ([env] + rest.applied) == log + [env] + rest.applied;
        }
      }
    }
  }

  lemma DeliveryKeeps(c: Codec, p: Property, db: Db, log: seq<Envelope>, d: Delivery)
    requires c.Lawful() && KeptByEvents(c, p) && KeptByFailures(p) && KeptByMismatch(c, p, d) && p(db, log)
    ensures p(ProcessRecord(c, db, d).db, log + ProcessRecord(c, db, d).applied)
  {
    hide Redrive, ProcessValidated, Record, AggregateKey;
    assert log + [] == log;
    if d.budget > 0 && c.parse(d.value).Ok? && !Misaddressed(c, d) {
      var env := c.parse(d.value).value;
      var (db', disp) := ProcessValidated(c, db, env);
      assert c.valid(env);
      RedriveKeeps(c, p, db', log + Logged(disp, env), env.Kind(), env.tenantId, env.aggregateId, d.budget - 1, d.tie);
      var r := Redrive(c, db', env.Kind(), env.tenantId, env.aggregateId, d.budget - 1, d.tie);
      assert log + Logged(disp, env) + r.applied == log + (Logged(disp, env) + r.applied);
    }
  }

  /** What every transaction keeps, every run keeps. */
  lemma {:induction false} RunKeeps(c: Codec, p: Property, start: Trace, ds: seq<Delivery>)
    requires c.Lawful() && KeptByEvents(c, p) && KeptByFailures(p) && p(start.db, start.log)
    requires forall i | 0 <= i < |ds| :: KeptByMismatch(c, p, ds[i])
    ensures p(Run(c, start, ds).db, Run(c, start, ds).log)
  {
    hide ProcessRecord, KeptByEvents, KeptByFailures, KeptByMismatch;
    if ds != [] {
      RunKeeps(c, p, start, ds[..|ds| - 1]);
      var before := Run(c, start, ds[..|ds| - 1]);
      DeliveryKeeps(c, p, before.db, before.log, ds[|ds| - 1]);
    }
  }

  /** Kept by everything a delivery may write. */
  ghost predicate Kept(c: Codec, p: Property) {
    && KeptByEvents(c, p) && KeptByFailures(p)
    && (forall db, log, env | p(db, log) && c.valid(env) :: p(Record(c, db, env, Mismatch, None), log))
  }

  lemma KeptOverRun(c: Codec, p: Property, ds: seq<Delivery>)
    requires c.Lawful() && Kept(c, p) && p(EMPTY_DB, [])
    ensures p(Run(c, Trace(EMPTY_DB, []), ds).db, Run(c, Trace(EMPTY_DB, []), ds).log)
  {
    hide KeptByEvents, KeptByFailures, Run, Record, AggregateKey;
    forall i | 0 <= i < |ds| ensures KeptByMismatch(c, p, ds[i]) {
      assert c.parse(ds[i].value).Ok? ==> c.valid(c.parse(ds[i].value).value);
    }
    RunKeeps(c, p, Trace(EMPTY_DB, []), ds);
  }

  lemma DeskStepKeeps(c: Codec, p: Property, s: Desk, step: DeskStep)
    requires c.Lawful() && Kept(c, p) && p(s.db, s.log) && DeskInv(c, s)
    ensures p(Step(c, s, step).db, Step(c, s, step).log)
  {
    hide ProcessValidated, Record, GapCandidates, AggregateKey, Codec.Hash, ProjectionSafety.Inv;
    assert s.log + [] == s.log;
    if step.Work? && step.ok && step.task in s.tasks {
      var task := s.tasks[step.task];
      if task.Fetched? && c.parse(task.value).Ok? {
        var env := c.parse(task.value).value;
        assert c.valid(env);
        assert p(ProcessValidated(c, s.db, env).0, s.log + Logged(ProcessValidated(c, s.db, env).1, env));
      }
      if task.Chosen? {
        var env := task.next;
        assert p(ProcessValidated(c, s.db, env).0, s.log + Logged(ProcessValidated(c, s.db, env).1, env));
      }
    }
  }

  lemma EmptyDeskInv(c: Codec)
    ensures DeskInv(c, EMPTY_DESK)
  {
    ProjectionSafety.EmptyInv(c);
  }

  /** What every write keeps holds for deliveries interleaved in any way. */
  lemma {:induction false} KeptOverDesk(c: Codec, p: Property, steps: seq<DeskStep>)
    requires c.Lawful() && Kept(c, p) && p(EMPTY_DB, [])
    ensures p(RunDesk(c, EMPTY_DESK, steps).db, RunDesk(c, EMPTY_DESK, steps).log)
  {
    hide Step, DeskInv, Kept;
    if steps != [] {
      KeptOverDesk(c, p, steps[..|steps| - 1]);
      EmptyDeskInv(c);
      RunKeepsDesk(c, EMPTY_DESK, steps[..|steps| - 1]);
      DeskStepKeeps(c, p, RunDesk(c, EMPTY_DESK, steps[..|steps| - 1]), steps[|steps| - 1]);
    }
  }

  // --- the content of an event id ------------------------------------------------------------------------

  /** The id's content hash in the inbox. */
  predicate Bound(db: Db, id: string, hash: string) {
    id in db.inbox && db.inbox[id].hash == hash
  }

  /** A transaction leaves every recorded content hash as it was. */
  lemma HashesAfter(c: Codec, db: Db, env: Envelope, id: string)
    requires id in db.inbox
    ensures Bound(ProcessValidated(c, db, env).0, id, db.inbox[id].hash)
    ensures Bound(Record(c, db, env, Conflict, None), id, db.inbox[id].hash)
  {
    hide ApplyEvent, Record;
    RecordHash(c, db, env, Conflict, None, id);
    RecordHash(c, db, env, DuplicateNoop, None, id);
    ApplyHash(c, db, env, id);
  }

  lemma RecordHash(c: Codec, db: Db, env: Envelope, d: Disposition, expected: Option<int>, id: string)
    requires id in db.inbox
    ensures d == Conflict || env.eventId != id || c.Hash(env) == db.inbox[id].hash ==>
              Bound(Record(c, db, env, d, expected), id, db.inbox[id].hash)
  {
    hide Codec.Hash;
  }

  lemma ApplyHash(c: Codec, db: Db, env: Envelope, id: string)
    requires id in db.inbox
    ensures env.eventId != id || c.Hash(env) == db.inbox[id].hash ==> Bound(ApplyEvent(c, db, env).0, id, db.inbox[id].hash)
  {
    hide Record, HopCollides, HopOf, Codec.Hash;
    forall db': Db, d, expected | id in db'.inbox && db'.inbox == db.inbox
      ensures env.eventId != id || c.Hash(env) == db.inbox[id].hash ==>
                Bound(Record(c, db', env, d, expected), id, db.inbox[id].hash)
    {
      RecordHash(c, db', env, d, expected, id);
    }
  }

  lemma BindingKept(c: Codec, id: string, hash: string)
    ensures KeptByEvents(c, (db, log) => Bound(db, id, hash)) && KeptByFailures((db, log) => Bound(db, id, hash))
  {
    hide ProcessValidated, Record;
    forall db, env | Bound(db, id, hash) && c.valid(env)
      ensures Bound(ProcessValidated(c, db, env).0, id, hash) && Bound(Record(c, db, env, Conflict, None), id, hash)
    {
      HashesAfter(c, db, env, id);
    }
  }

  lemma BindingKeptElsewhere(c: Codec, id: string, hash: string, d: Delivery)
    requires Misaddressed(c, d) ==> c.parse(d.value).value.eventId != id
    ensures KeptByMismatch(c, (db, log) => Bound(db, id, hash), d)
  {
    hide Codec.Hash, AggregateKey;
  }

  /** The delivery is of this id, and misaddressed. */
  predicate Overwrites(c: Codec, d: Delivery, id: string) {
    Misaddressed(c, d) && c.parse(d.value).value.eventId == id
  }

  /**
   An event id is bound to the content first recorded for it: however many deliveries follow, in whatever order and
   with whatever failures, other content under that id is refused as a conflict and touches no projection table. Only
   a misaddressed delivery of the id can change the binding.
   */
  lemma ContentIsBound(c: Codec, start: Trace, ds: seq<Delivery>, id: string, d: Delivery)
    requires c.Lawful() && id in start.db.inbox
    requires forall i | 0 <= i < |ds| :: !Overwrites(c, ds[i], id)
    requires d.budget > 0 && c.parse(d.value).Ok? && c.parse(d.value).value.eventId == id && !Misaddressed(c, d)
    requires c.Hash(c.parse(d.value).value) != start.db.inbox[id].hash
    ensures var db := Run(c, start, ds).db;
            var o := ProcessRecord(c, db, d);
            && Bound(db, id, start.db.inbox[id].hash) && Bound(o.db, id, start.db.inbox[id].hash)
            && o.disposition == Some(Conflict) && o.ack && o.applied == []
            && o.db.items == db.items && o.db.hops == db.hops
  {
    hide Run, KeptByEvents, KeptByFailures, KeptByMismatch, Codec.Hash, AggregateKey, Codec.Lawful;
    var hash := start.db.inbox[id].hash;
    BindingKept(c, id, hash);
    forall i | 0 <= i < |ds| ensures KeptByMismatch(c, (db, log) => Bound(db, id, hash), ds[i]) {
      BindingKeptElsewhere(c, id, hash, ds[i]);
    }
    RunKeeps(c, (db, log) => Bound(db, id, hash), start, ds);
  }

  /** The delivery that changes a binding is exactly a durable, misaddressed one of the id with other content. */
  lemma BindingChangesIff(c: Codec, db: Db, d: Delivery, id: string)
    requires c.Lawful() && id in db.inbox
    ensures id in ProcessRecord(c, db, d).db.inbox
    ensures ProcessRecord(c, db, d).db.inbox[id].hash != db.inbox[id].hash <==>
            d.budget > 0 && Overwrites(c, d, id) && c.Hash(c.parse(d.value).value) != db.inbox[id].hash
  {
    hide KeptByEvents, KeptByFailures, KeptByMismatch, Codec.Hash, AggregateKey, Codec.Lawful;
    var hash := db.inbox[id].hash;
    if d.budget > 0 && Overwrites(c, d, id) {
      hide Redrive, ProcessValidated;
    } else if d.budget > 0 {
      hide ProcessRecord;
      BindingKept(c, id, hash);
      BindingKeptElsewhere(c, id, hash, d);
      DeliveryKeeps(c, (db, log) => Bound(db, id, hash), db, [], d);
    }
  }

  // --- unique keys of the lineage tables ---------------------------------------------------------------

  /** No two hops of a table and tenant share a parent, and no two shipments an order. */
  ghost predicate HopsUnique(db: Db) {
    forall k, k' | k in db.hops && k' in db.hops && k != k' && k.kind == k'.kind && k.tenant == k'.tenant ::
      !SharesParent(k.kind, db.hops[k], db.hops[k'])
  }

  lemma HopsUniqueKept(c: Codec)
    ensures Kept(c, (db, log) => HopsUnique(db))
  {
    hide Record, HopOf, ProcessValidated, SharesParent;
    forall db, env | HopsUnique(db)
      ensures HopsUnique(ProcessValidated(c, db, env).0)
      ensures HopsUnique(Record(c, db, env, Conflict, None)) && HopsUnique(Record(c, db, env, Mismatch, None))
    {
      HopsAfter(c, db, env);
      RecordTables(c, db, env, Conflict);
      RecordTables(c, db, env, Mismatch);
      InsertKeepsUnique(db.hops, HopKeyOf(env), HopOf(env));
    }
  }

  lemma InsertKeepsUnique(hops: map<HopKey, HopRow>, k: HopKey, row: HopRow)
    requires HopsUnique(EMPTY_DB.(hops := hops))
    ensures !HopCollides(hops, k, row) ==> HopsUnique(EMPTY_DB.(hops := hops[k := row]))
  {
  }

  lemma RecordTables(c: Codec, db: Db, env: Envelope, d: Disposition)
    ensures Record(c, db, env, d, None).items == db.items && Record(c, db, env, d, None).hops == db.hops
  {
  }

  /** A transaction changes at most its own item or hop, and a hop it inserts collides with none. */
  lemma HopsAfter(c: Codec, db: Db, env: Envelope)
    ensures var hops := ProcessValidated(c, db, env).0.hops;
            || hops == db.hops
            || (!env.payload.QuantityDecremented? && hops == db.hops[HopKeyOf(env) := HopOf(env)]
                && !HopCollides(db.hops, HopKeyOf(env), HopOf(env)))
  {
    hide HopCollides, HopOf, Codec.Hash;
  }

  lemma ItemsAfter(c: Codec, db: Db, env: Envelope)
    ensures var items := ProcessValidated(c, db, env).0.items;
            || items == db.items
            || (env.payload.QuantityDecremented? && items.Keys == db.items.Keys + {ItemKeyOf(env)})
  {
    hide HopCollides, HopOf, Codec.Hash;
  }

  /** However deliveries are interleaved, a parent keeps at most one child of a kind and an order at most one shipment. */
  lemma HopsStayUnique(c: Codec, ds: seq<Delivery>, steps: seq<DeskStep>)
    requires c.Lawful()
    ensures HopsUnique(Run(c, Trace(EMPTY_DB, []), ds).db) && HopsUnique(RunDesk(c, EMPTY_DESK, steps).db)
  {
    hide Kept, Run, RunDesk;
    HopsUniqueKept(c);
    KeptOverRun(c, (db, log) => HopsUnique(db), ds);
    KeptOverDesk(c, (db, log) => HopsUnique(db), steps);
  }

  // --- keys ---------------------------------------------------------------------------------------------

  ghost predicate ItemFromEvent(c: Codec, k: ItemKey) {
    exists e :: c.valid(e) && e.payload.QuantityDecremented? && ItemKeyOf(e) == k
  }

  ghost predicate HopFromEvent(c: Codec, k: HopKey, row: HopRow) {
    exists e :: c.valid(e) && HopKeyOf(e) == k && HopOf(e) == row
  }

  /** Every row was written by a valid event: an item under its key, a hop with all its columns. */
  ghost predicate RowsFromEvents(c: Codec, db: Db) {
    && (forall k | k in db.items :: ItemFromEvent(c, k))
    && (forall k | k in db.hops :: HopFromEvent(c, k, db.hops[k]))
  }

  lemma RowsFromEventsKept(c: Codec)
    ensures Kept(c, (db, log) => RowsFromEvents(c, db))
  {
    hide ProcessValidated, Record, HopOf, HopCollides;
    forall db, env | RowsFromEvents(c, db) && c.valid(env)
      ensures RowsFromEvents(c, ProcessValidated(c, db, env).0)
      ensures RowsFromEvents(c, Record(c, db, env, Conflict, None)) && RowsFromEvents(c, Record(c, db, env, Mismatch, None))
    {
      HopsAfter(c, db, env);
      ItemsAfter(c, db, env);
      RecordTables(c, db, env, Conflict);
      RecordTables(c, db, env, Mismatch);
      assert env.payload.QuantityDecremented? ==> ItemFromEvent(c, ItemKeyOf(env));
      assert HopFromEvent(c, HopKeyOf(env), HopOf(env));
    }
  }

  /** However deliveries are interleaved, every projected row comes from a valid event. */
  lemma EveryRowFromEvent(c: Codec, ds: seq<Delivery>, steps: seq<DeskStep>)
    requires c.Lawful()
    ensures RowsFromEvents(c, Run(c, Trace(EMPTY_DB, []), ds).db) && RowsFromEvents(c, RunDesk(c, EMPTY_DESK, steps).db)
  {
    hide Kept, Run, RunDesk, ItemFromEvent, HopFromEvent;
    RowsFromEventsKept(c);
    KeptOverRun(c, (db, log) => RowsFromEvents(c, db), ds);
    KeptOverDesk(c, (db, log) => RowsFromEvents(c, db), steps);
  }

  // --- the log --------------------------------------------------------------------------------------------

  ghost predicate Logs(log: seq<Envelope>, id: string) {
    exists i | 0 <= i < |log| :: log[i].eventId == id
  }

  /** A lineage event of the log wrote the row. */
  ghost predicate LogsHop(log: seq<Envelope>, k: HopKey, row: HopRow) {
    exists i | 0 <= i < |log| :: !log[i].payload.QuantityDecremented? && HopKeyOf(log[i]) == k && HopOf(log[i]) == row
  }

  /**
   Done means applied: every row marked applied or duplicate is about an event of the log; the hops are exactly what
   the lineage events of the log wrote.
   */
  ghost predicate DoneIsLogged(db: Db, log: seq<Envelope>) {
    && (forall id | id in db.inbox && C.IsDone(db.inbox[id].disposition) :: Logs(log, id))
    && (forall k | k in db.hops :: LogsHop(log, k, db.hops[k]))
    && (forall i | 0 <= i < |log| && !log[i].payload.QuantityDecremented? ::
          HopKeyOf(log[i]) in db.hops && db.hops[HopKeyOf(log[i])] == HopOf(log[i]))
  }

  lemma LogsGrow(log: seq<Envelope>, more: seq<Envelope>)
    ensures forall id | Logs(log, id) :: Logs(log + more, id)
    ensures forall k, row | LogsHop(log, k, row) :: LogsHop(log + more, k, row)
  {
    forall id | Logs(log, id) ensures Logs(log + more, id) {
      var i :| 0 <= i < |log| && log[i].eventId == id;
      assert (log + more)[i] == log[i];
    }
    forall k, row | LogsHop(log, k, row) ensures LogsHop(log + more, k, row) {
      var i :| 0 <= i < |log| && !log[i].payload.QuantityDecremented? && HopKeyOf(log[i]) == k && HopOf(log[i]) == row;
      assert (log + more)[i] == log[i];
    }
  }

  lemma LogsLast(log: seq<Envelope>, e: Envelope)
    ensures Logs(log + [e], e.eventId)
    ensures !e.payload.QuantityDecremented? ==> LogsHop(log + [e], HopKeyOf(e), HopOf(e))
  {
    assert (log + [e])[|log|] == e;
  }

  lemma HopSourceIsLogged(log: seq<Envelope>, k: HopKey, row: HopRow)
    requires LogsHop(log, k, row)
    ensures Logs(log, row.source)
  {
  }

  /** A transaction marks an event done only if it applied it, if it was done already, or if it wrote the hop that stands. */
  lemma DoneAfter(c: Codec, db: Db, env: Envelope)
    ensures var (db', d) := ProcessValidated(c, db, env);
            forall id | id in db'.inbox && C.IsDone(db'.inbox[id].disposition) ::
              || (id in db.inbox && C.IsDone(db.inbox[id].disposition))
              || (id == env.eventId && d == Applied)
              || (id == env.eventId && HopKeyOf(env) in db.hops && db.hops[HopKeyOf(env)].source == id)
  {
    hide ApplyEvent, Record, Codec.Hash, QuietEffect;
    RecordEffect(c, db, env, Conflict, None);
    RecordEffect(c, db, env, DuplicateNoop, None);
    ApplySetsOwn(c, db, env);
  }

  lemma OthersMeans(inbox: map<string, InboxRow>, own: string)
    ensures forall inbox' | OthersUnchanged(inbox, inbox', own) :: own in inbox'
             && inbox'.Keys == inbox.Keys + {own} && forall id | id in inbox && id != own :: inbox'[id] == inbox[id]
  {
  }

  /** Applying an event writes its own row with the disposition it returns; it is a duplicate only if its hop stands. */
  lemma ApplySetsOwn(c: Codec, db: Db, env: Envelope)
    ensures var (db', d) := ApplyEvent(c, db, env);
            && OthersUnchanged(db.inbox, db'.inbox, env.eventId) && db'.inbox[env.eventId].disposition == d
            && (d == DuplicateNoop ==> HopKeyOf(env) in db.hops && db.hops[HopKeyOf(env)].source == env.eventId)
  {
    hide Record, HopCollides, HopOf, OthersUnchanged;
    forall db2: Db, d, expected | db2.inbox == db.inbox
      ensures var inbox := Record(c, db2, env, d, expected).inbox;
              OthersUnchanged(db.inbox, inbox, env.eventId) && env.eventId in inbox && inbox[env.eventId].disposition == d
    {
      RecordEffect(c, db2, env, d, expected);
      OthersMeans(db.inbox, env.eventId);
    }
  }

  lemma DoneIsLoggedKept(c: Codec)
    ensures Kept(c, (db, log) => DoneIsLogged(db, log))
  {
    hide ProcessValidated, Record, HopOf, HopCollides, Logs, LogsHop;
    forall db, log, env | DoneIsLogged(db, log)
      ensures DoneIsLogged(ProcessValidated(c, db, env).0, log + Logged(ProcessValidated(c, db, env).1, env))
      ensures DoneIsLogged(Record(c, db, env, Conflict, None), log) && DoneIsLogged(Record(c, db, env, Mismatch, None), log)
    {
      TransactionLogs(c, db, log, env);
      RefusalLogs(c, db, log, env, Conflict);
      RefusalLogs(c, db, log, env, Mismatch);
    }
  }

  lemma TransactionLogs(c: Codec, db: Db, log: seq<Envelope>, env: Envelope)
    requires DoneIsLogged(db, log)
    ensures DoneIsLogged(ProcessValidated(c, db, env).0, log + Logged(ProcessValidated(c, db, env).1, env))
  {
    hide ProcessValidated, HopOf, HopCollides, Logs, LogsHop;
    var (db', d) := ProcessValidated(c, db, env);
    DoneAfter(c, db, env);
    HopsWithLog(c, db, env);
    LogsGrow(log, Logged(d, env));
    LogsLast(log, env);
    if HopKeyOf(env) in db.hops {
      HopSourceIsLogged(log, HopKeyOf(env), db.hops[HopKeyOf(env)]);
    }
  }

  /** A transaction inserts a hop exactly when it applies a lineage event. */
  lemma HopsWithLog(c: Codec, db: Db, env: Envelope)
    ensures var (db', d) := ProcessValidated(c, db, env);
            && (d == Applied && !env.payload.QuantityDecremented? ==>
                  HopKeyOf(env) !in db.hops && db'.hops == db.hops[HopKeyOf(env) := HopOf(env)])
            && (d != Applied || env.payload.QuantityDecremented? ==> db'.hops == db.hops)
  {
    hide HopCollides, HopOf, Codec.Hash, Upsert, RowOf;
  }

  lemma RefusalLogs(c: Codec, db: Db, log: seq<Envelope>, env: Envelope, d: Disposition)
    requires DoneIsLogged(db, log) && !C.IsDone(d)
    ensures DoneIsLogged(Record(c, db, env, d, None), log)
  {
    hide Record, Logs, LogsHop;
    RecordEffect(c, db, env, d, None);
  }

  /** However deliveries are interleaved, an inbox row marked applied or duplicate is about an event that was applied. */
  lemma DoneMeansApplied(c: Codec, ds: seq<Delivery>, steps: seq<DeskStep>)
    requires c.Lawful()
    ensures var t := Run(c, Trace(EMPTY_DB, []), ds);
            DoneIsLogged(t.db, t.log)
    ensures var s := RunDesk(c, EMPTY_DESK, steps);
            DoneIsLogged(s.db, s.log)
  {
    hide Kept, Run, RunDesk, Logs, LogsHop;
    DoneIsLoggedKept(c);
    KeptOverRun(c, (db, log) => DoneIsLogged(db, log), ds);
    KeptOverDesk(c, (db, log) => DoneIsLogged(db, log), steps);
  }
}
