/**
 The projection consumer's transactions as functions on the derived tables.
 */
module Projection {
  import opened Events

  datatype Disposition =
    | Applied | DuplicateNoop
    | Conflict | Gap | Stale | Invalid | Mismatch | Transition

  /** One row of platform.inbox; the event id is the table key. */
  datatype InboxRow = InboxRow(
    tenant: string,
    hash: string,
    kind: Kind,
    aggregate: string,
    version: int,
    disposition: Disposition,
    expected: Option<int>,
    received: Option<int>,
    bytes: Option<string>)

  datatype ItemKey = ItemKey(tenant: string, item: string)
  datatype ItemRow = ItemRow(quantity: int, version: int)

  datatype HopKey = HopKey(kind: Kind, tenant: string, id: string)
  datatype HopRow = HopRow(
    parent: string,
    item: string,
    order: string,
    version: int,
    source: string,
    schema: int,
    occurredAt: string,
    recordedAt: string,
    correlation: string,
    causation: Option<string>,
    trace: string)

  /** Partition and offset of a delivered record. */
  datatype Position = Position(partition: int, offset: int)

  /** The derived tables. A failure row keeps the tenant recovered from the bytes, if any. */
  datatype Db = Db(
    inbox: map<string, InboxRow>,
    items: map<ItemKey, ItemRow>,
    hops: map<HopKey, HopRow>,
    failures: map<Position, Option<string>>)

  const EMPTY_DB: Db := Db(map[], map[], map[], map[])

  function ItemKeyOf(env: Envelope): ItemKey { ItemKey(env.tenantId, env.aggregateId) }

  function HopKeyOf(env: Envelope): HopKey { HopKey(env.Kind(), env.tenantId, env.aggregateId) }

  /** Version of the item's projection row; 0 where there is no row. */
  function VersionOf(items: map<ItemKey, ItemRow>, k: ItemKey): int {
    if k in items then items[k].version else 0
  }

  /** INSERT ... ON CONFLICT (consumer_name, event_id) DO UPDATE: a conflict keeps the first content hash. */
  function Upsert(inbox: map<string, InboxRow>, id: string, row: InboxRow): map<string, InboxRow> {
    inbox[id := if id in inbox && row.disposition == Conflict then row.(hash := inbox[id].hash) else row]
  }

  function RowOf(c: Codec, env: Envelope, d: Disposition, expected: Option<int>): InboxRow {
    InboxRow(env.tenantId, c.Hash(env), env.Kind(), env.aggregateId, env.version, d,
             expected,
             if expected.Some? then Some(env.version) else None,
             if d == Gap then NullBytes(c.print_(env)) else None)
  }

  function NullBytes(bytes: string): Option<string> {
    if bytes == "" then None else Some(bytes)
  }

  function Record(c: Codec, db: Db, env: Envelope, d: Disposition, expected: Option<int>): Db {
    db.(inbox := Upsert(db.inbox, env.eventId, RowOf(c, env, d, expected)))
  }

  /** applyProjection: one inventory event against the item's projection row. */
  function ApplyProjection(c: Codec, db: Db, env: Envelope): (Db, Disposition)
    requires env.payload.QuantityDecremented?
  {
    var k := ItemKeyOf(env);
    var p := env.payload;
    if k !in db.items then
      if env.version != 1 then
        (Record(c, db, env, Gap, Some(1)), Gap)
      else
        (Record(c, db.(items := db.items[k := ItemRow(p.after, 1)]), env, Applied, None), Applied)
    else
      var row := db.items[k];
      if env.version <= row.version then
        (Record(c, db, env, Stale, Some(row.version + 1)), Stale)
      else if env.version > row.version + 1 then
        (Record(c, db, env, Gap, Some(row.version + 1)), Gap)
      else if p.before != row.quantity then
        (Record(c, db, env, Transition, None), Transition)
      else if p.before - p.decremented != p.after then
        (Record(c, db, env, Invalid, None), Invalid)
      else
        (Record(c, db.(items := db.items[k := ItemRow(p.after, env.version)]), env, Applied, None), Applied)
  }

  function HopOf(env: Envelope): HopRow {
    HopRow(
      env.payload.ParentId(),
      if env.payload.IngredientLotReceived? then env.payload.itemId else "",
      if env.payload.ShipmentDispatched? then env.payload.orderId else "",
      env.version, env.eventId, env.schemaVersion,
      env.occurredAt, env.recordedAt, env.correlationId, env.causationId, env.traceId)
  }

  /** Two rows of one lineage table collide on a UNIQUE constraint other than the primary key. */
  predicate SharesParent(kind: Kind, a: HopRow, b: HopRow) {
    || (kind != Supplier && a.parent == b.parent)
    || (kind == Shipment && a.order == b.order)
  }

  /** Some row of the same table already holds one of the new row's unique keys. */
  predicate HopCollides(hops: map<HopKey, HopRow>, k: HopKey, row: HopRow) {
    || k in hops
    || exists k' | k' in hops :: k'.kind == k.kind && k'.tenant == k.tenant && SharesParent(k.kind, hops[k'], row)
  }

  function LineageExistingDisposition(current: int, incoming: int): Disposition {
    if incoming <= current then Stale
    else if incoming > current + 1 then Gap
    else Invalid
  }

  /** applyLineage: one traceability event against its lineage table. */
  function ApplyLineage(c: Codec, db: Db, env: Envelope): (Db, Disposition)
  {
    var k := HopKeyOf(env);
    if k in db.hops then
      var current := db.hops[k].version;
      var d := LineageExistingDisposition(current, env.version);
      if d == Stale && db.hops[k].source == env.eventId then
        (Record(c, db, env, DuplicateNoop, None), DuplicateNoop)
      else
        (Record(c, db, env, d, Some(current + 1)), d)
    else if env.version != 1 then
      (Record(c, db, env, Gap, Some(1)), Gap)
    else if HopCollides(db.hops, k, HopOf(env)) then
      (Record(c, db, env, Invalid, None), Invalid)
    else
      (Record(c, db.(hops := db.hops[k := HopOf(env)]), env, Applied, None), Applied)
  }

  function ApplyEvent(c: Codec, db: Db, env: Envelope): (Db, Disposition) {
    if env.payload.QuantityDecremented? then ApplyProjection(c, db, env) else ApplyLineage(c, db, env)
  }

  /** processValidated: the writes of one transaction, taken when the transaction commits. */
  function ProcessValidated(c: Codec, db: Db, env: Envelope): (Db, Disposition) {
    if env.eventId in db.inbox then
      var row := db.inbox[env.eventId];
      if row.hash != c.Hash(env) then
        (Record(c, db, env, Conflict, None), Conflict)
      else if row.disposition == Applied || row.disposition == DuplicateNoop then
        (Record(c, db, env, DuplicateNoop, None), DuplicateNoop)
      else if row.disposition == Gap then
        ApplyEvent(c, db, env)
      else
        (db, row.disposition)
    else
      ApplyEvent(c, db, env)
  }

  /** The database's choice among rows that tie in ORDER BY aggregate_version LIMIT 1. */
  type TieBreak = f: set<string> -> string | forall s: set<string> :: s != {} ==> f(s) in s
    ghost witness (s: set<string>) => if s == {} then "" else var x :| x in s; x

  /** The rows selected by redriveGaps. The join is on inventory_projection whatever the aggregate type. */
  function GapCandidates(db: Db, kind: Kind, tenant: string, aggregate: string): set<string> {
    set id | id in db.inbox
             && db.inbox[id].disposition == Gap
             && db.inbox[id].kind == kind
             && db.inbox[id].tenant == tenant
             && db.inbox[id].aggregate == aggregate
             && ItemKey(tenant, aggregate) in db.items
             && db.inbox[id].version == db.items[ItemKey(tenant, aggregate)].version + 1
             && db.inbox[id].bytes.Some?
  }

  /** The rows that wait for an earlier version of their aggregate. */
  function GapIds(db: Db): set<string> {
    set id | id in db.inbox && db.inbox[id].disposition == Gap
  }

  /** What a call leaves behind: the tables, whether it finished without error, and the events it applied. */
  datatype Redriven = Redriven(db: Db, ok: bool, applied: seq<Envelope>)

  /**
   redriveGaps. `budget` counts the database operations (each select, each transaction) that succeed
   before the database fails; a failed operation ends the call with an error.
   */
  function Redrive(c: Codec, db: Db, kind: Kind, tenant: string, aggregate: string,
                   budget: nat, tie: TieBreak): Redriven
    decreases budget
  {
    if budget == 0 then Redriven(db, false, [])
    else
      var candidates := GapCandidates(db, kind, tenant, aggregate);
      if candidates == {} then Redriven(db, true, [])
      else
        var row := db.inbox[tie(candidates)];
        match c.parse(row.bytes.value)
        case Err(_) => Redriven(db, false, [])
        case Ok(env) =>
          if budget == 1 then Redriven(db, false, [])
          else if c.Hash(env) != row.hash then
            Redrive(c, Record(c, db, env, Conflict, None), kind, tenant, aggregate, budget - 2, tie)
          else
            var (db', d) := ProcessValidated(c, db, env);
            if d != Applied then Redriven(db', true, [])
            else
              var rest := Redrive(c, db', kind, tenant, aggregate, budget - 2, tie);
              Redriven(rest.db, rest.ok, [env] + rest.applied)
  }

  function Prepend(applied: seq<Envelope>, r: Redriven): Redriven {
    Redriven(r.db, r.ok, applied + r.applied)
  }

  lemma CandidateHasBytes(db: Db, kind: Kind, tenant: string, aggregate: string, id: string)
    requires id in GapCandidates(db, kind, tenant, aggregate)
    ensures id in db.inbox && db.inbox[id].bytes.Some?
  {
  }

  /** One iteration of the loop, by what its operations meet. */
  lemma RedriveIs(c: Codec, db: Db, kind: Kind, tenant: string, aggregate: string, budget: nat, tie: TieBreak)
    ensures var cs := GapCandidates(db, kind, tenant, aggregate);
            var r := Redrive(c, db, kind, tenant, aggregate, budget, tie);
            if budget == 0 then r == Redriven(db, false, [])
            else if cs == {} then r == Redriven(db, true, [])
            else
              tie(cs) in db.inbox && db.inbox[tie(cs)].bytes.Some?
              && var row := db.inbox[tie(cs)];
              var parsed := c.parse(row.bytes.value);
              if parsed.Err? || budget == 1 then r == Redriven(db, false, [])
              else if c.Hash(parsed.value) != row.hash then
                r == Redrive(c, Record(c, db, parsed.value, Conflict, None), kind, tenant, aggregate, budget - 2, tie)
              else
                var (db', d) := ProcessValidated(c, db, parsed.value);
                if d != Applied then r == Redriven(db', true, [])
                else r == Prepend([parsed.value], Redrive(c, db', kind, tenant, aggregate, budget - 2, tie))
  {
    hide Record, ProcessValidated, Codec.Hash;
    var cs := GapCandidates(db, kind, tenant, aggregate);
    if cs != {} {
      CandidateHasBytes(db, kind, tenant, aggregate, tie(cs));
    }
  }

  /** One delivery: broker key and value, source position, and what the database does during it. */
  datatype Delivery = Delivery(key: string, value: string, pos: Position, probe: Option<string>,
                               budget: nat, tie: TieBreak)

  /** `disposition` is None when no decision became durable. */
  datatype Outcome = Outcome(db: Db, disposition: Option<Disposition>, ack: bool, applied: seq<Envelope>)

  /** ProcessRecord. */
  function ProcessRecord(c: Codec, db: Db, d: Delivery): Outcome {
    if d.budget == 0 then Outcome(db, None, false, [])
    else
      match c.parse(d.value)
      case Err(_) =>
        var row := if d.pos in db.failures then db.failures[d.pos] else d.probe;
        Outcome(db.(failures := db.failures[d.pos := row]), Some(Invalid), true, [])
      case Ok(env) =>
        if d.key != AggregateKey(env.tenantId, env.aggregateType, env.aggregateId)
           || env.payload.SelfId() != env.aggregateId
        then
          Outcome(Record(c, db, env, Mismatch, None), Some(Mismatch), true, [])
        else
          var (db', disp) := ProcessValidated(c, db, env);
          if disp == Applied || disp == DuplicateNoop then
            var r := Redrive(c, db', env.Kind(), env.tenantId, env.aggregateId, d.budget - 1, d.tie);
            Outcome(r.db, Some(disp), r.ok, (if disp == Applied then [env] else []) + r.applied)
          else
            Outcome(db', Some(disp), true, [])
  }

  /** A run of deliveries, and the log of events applied during it. */
  datatype Trace = Trace(db: Db, log: seq<Envelope>)

  function Run(c: Codec, start: Trace, ds: seq<Delivery>): Trace {
    if ds == [] then start
    else
      var before := Run(c, start, ds[..|ds| - 1]);
      var o := ProcessRecord(c, before.db, ds[|ds| - 1]);
      Trace(o.db, before.log + o.applied)
  }
}
