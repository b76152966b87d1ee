/**
 The ERP source: orders, inventory, traceability hops and the outbox, written together or not at all.
 */
module Source {
  import opened Events
  import opened Families
  import opened Projection
  import opened Convergence

  datatype Status = Pending | Publishing | Published | Quarantined

  /** One row of erp.outbox; the event id is the table key. `recordedAt` is kept at microsecond precision. */
  datatype OutboxRow = OutboxRow(
    tenant: string,
    kind: Kind,
    aggregateType: string,
    aggregate: string,
    version: int,
    hash: string,
    bytes: string,
    recordedAt: int,
    status: Status,
    owner: Option<string>,
    expires: Option<int>,
    attempts: nat,
    error: Option<string>)

  datatype Order = Order(tenant: string, item: string, quantity: int)

  /** A row of one of the four lineage source tables. */
  datatype SourceHop = SourceHop(parent: string, item: string, order: string)

  datatype Source = Source(
    items: map<ItemKey, ItemRow>,
    orders: map<string, Order>,
    hops: map<HopKey, SourceHop>,
    outbox: map<string, OutboxRow>)

  const EMPTY_SOURCE: Source := Source(map[], map[], map[], map[])

  datatype SourceError =
    | InvalidQuantity | TenantMismatch | UnknownItem | UnknownSource | InvalidTransition
    | DuplicateOrder | DuplicateSource | DuplicateEvent | InvalidEvent | NotCommitted

  datatype Accepted = Accepted(event: Envelope) | Rejected(error: SourceError)

  /** What the source gets from outside: the codec, the format checks on a command, and the reading of timestamps. */
  datatype Outside = Outside(codec: Codec, wellFormed: Command -> bool, instant: string -> int)

  /** A command: the envelope it asks for, apart from the fields the source computes. */
  datatype Command =
    | OrderCommand(eventId: string, tenant: string, orderId: string, item: string, quantity: int,
                   occurredAt: string, recordedAt: string, correlation: string, causation: Option<string>, trace: string)
    | HopCommand(eventId: string, tenant: string, hop: Payload,
                 occurredAt: string, recordedAt: string, correlation: string, causation: Option<string>, trace: string)

  function EnvelopeOf(cmd: Command, version: int, payload: Payload): Envelope {
    Envelope(cmd.eventId, cmd.tenant, EventTypeName(payload.Kind()), 1, AggregateTypeName(payload.Kind()),
             payload.SelfId(), version, cmd.occurredAt, cmd.recordedAt, PRODUCER, cmd.correlation,
             if payload.SupplierRegistered? then None else cmd.causation, cmd.trace, payload)
  }

  // --- outbox ------------------------------------------------------------------------------------

  predicate SameVersion(a: OutboxRow, b: OutboxRow) {
    a.tenant == b.tenant && a.kind == b.kind && a.aggregate == b.aggregate && a.version == b.version
  }

  /** UNIQUE (tenant_id, aggregate_type, aggregate_id, aggregate_version) holds on erp.outbox. */
  ghost predicate VersionsUnique(outbox: map<string, OutboxRow>) {
    forall id, id' | id in outbox && id' in outbox && id != id' :: !SameVersion(outbox[id], outbox[id'])
  }

  /** The primary key or UNIQUE (tenant, aggregate type, aggregate, version) refuses the row. */
  predicate OutboxCollides(outbox: map<string, OutboxRow>, id: string, row: OutboxRow) {
    id in outbox || exists id' | id' in outbox :: SameVersion(outbox[id'], row)
  }

  /** A timestamp as the database keeps it: whole microseconds, from nanoseconds. */
  function AtDatabasePrecision(nanos: int): int { nanos - nanos % 1000 }

  function PendingRow(o: Outside, env: Envelope): OutboxRow {
    OutboxRow(env.tenantId, env.Kind(), env.aggregateType, env.aggregateId, env.version,
              o.codec.Hash(env), o.codec.print_(env), AtDatabasePrecision(o.instant(env.recordedAt)),
              Pending, None, None, 0, None)
  }

  /** insertPendingOutbox followed by the commit. */
  function Emit(o: Outside, s: Source, env: Envelope, commits: bool): (Option<Source>, Accepted) {
    if !o.codec.valid(env) then (None, Rejected(InvalidEvent))
    else if OutboxCollides(s.outbox, env.eventId, PendingRow(o, env)) then (None, Rejected(DuplicateEvent))
    else if !commits then (None, Rejected(NotCommitted))
    else (Some(s.(outbox := s.outbox[env.eventId := PendingRow(o, env)])), Accepted(env))
  }

  predicate IsFirst(outbox: map<string, OutboxRow>, kind: Kind, tenant: string, aggregate: string, id: string) {
    && id in outbox
    && outbox[id].tenant == tenant && outbox[id].kind == kind && outbox[id].aggregate == aggregate
    && (forall id' | id' in outbox && outbox[id'].tenant == tenant && outbox[id'].kind == kind
                     && outbox[id'].aggregate == aggregate :: outbox[id].version <= outbox[id'].version)
  }

  /** parentOutboxEventID: the aggregate's first event by version. */
  ghost function ParentEvent(outbox: map<string, OutboxRow>, kind: Kind, tenant: string, aggregate: string): Option<string> {
    if exists id :: IsFirst(outbox, kind, tenant, aggregate, id) then
      var id :| IsFirst(outbox, kind, tenant, aggregate, id);
      Some(id)
    else None
  }

  // --- orders ------------------------------------------------------------------------------------

  predicate ShipsOrder(hops: map<HopKey, SourceHop>, tenant: string, order: string, k: HopKey) {
    k in hops && k.kind == Shipment && k.tenant == tenant && hops[k].order == order
  }

  /** requireOrderShipmentCausation. */
  ghost function OrderCausationError(s: Source, cmd: Command): Option<SourceError>
    requires cmd.OrderCommand?
  {
    if exists k :: ShipsOrder(s.hops, cmd.tenant, cmd.orderId, k) then
      var k :| ShipsOrder(s.hops, cmd.tenant, cmd.orderId, k);
      match ParentEvent(s.outbox, Shipment, cmd.tenant, k.id)
      case None => Some(UnknownSource)
      case Some(parent) => if cmd.causation == Some(parent) then None else Some(InvalidTransition)
    else if cmd.causation.Some? then Some(InvalidTransition)
    else None
  }

  /** AcceptOrder: the source after the call, and the event it emitted or the error it returned. */
  ghost function AcceptOrder(o: Outside, s: Source, cmd: Command, commits: bool): (Source, Accepted)
    requires cmd.OrderCommand?
  {
    var k := ItemKey(cmd.tenant, cmd.item);
    if cmd.quantity < 1 || cmd.quantity > MAX_SAFE_INT then (s, Rejected(InvalidQuantity))
    else if !o.wellFormed(cmd) then (s, Rejected(TenantMismatch))
    else if k !in s.items then (s, Rejected(UnknownItem))
    else if s.items[k].quantity < cmd.quantity then (s, Rejected(InvalidTransition))
    else if s.items[k].version + 1 > MAX_SAFE_INT then (s, Rejected(InvalidTransition))
    else if OrderCausationError(s, cmd).Some? then (s, Rejected(OrderCausationError(s, cmd).value))
    else if cmd.orderId in s.orders then (s, Rejected(DuplicateOrder))
    else
      var before := s.items[k].quantity;
      var version := s.items[k].version + 1;
      var written := s.(items := s.items[k := ItemRow(before - cmd.quantity, version)],
                        orders := s.orders[cmd.orderId := Order(cmd.tenant, cmd.item, cmd.quantity)]);
      var payload := QuantityDecremented(cmd.orderId, cmd.item, cmd.quantity, before, before - cmd.quantity);
      var (s', r) := Emit(o, written, EnvelopeOf(cmd, version, payload), commits);
      (if s'.Some? then s'.value else s, r)
  }

  // --- traceability hops -------------------------------------------------------------------------

  function ParentKind(kind: Kind): Kind {
    match kind
    case ProductionBatch => IngredientLot
    case Shipment => ProductionBatch
    case _ => Supplier
  }

  function ParentKey(tenant: string, hop: Payload): HopKey {
    HopKey(ParentKind(hop.Kind()), tenant, hop.ParentId())
  }

  function SourceHopOf(hop: Payload): SourceHop {
    SourceHop(hop.ParentId(),
              if hop.IngredientLotReceived? then hop.itemId else "",
              if hop.ShipmentDispatched? then hop.orderId else "")
  }

  predicate SharesSourceParent(kind: Kind, a: SourceHop, b: SourceHop) {
    (kind != Supplier && a.parent == b.parent) || (kind == Shipment && a.order == b.order)
  }

  predicate SourceHopCollides(hops: map<HopKey, SourceHop>, k: HopKey, row: SourceHop) {
    || k in hops
    || exists k' | k' in hops :: k'.kind == k.kind && k'.tenant == k.tenant && SharesSourceParent(k.kind, hops[k'], row)
  }

  /** The locks and causation checks of the four hop commands. */
  ghost function HopError(s: Source, cmd: Command): Option<SourceError>
    requires cmd.HopCommand?
  {
    if cmd.hop.SupplierRegistered? then
      if cmd.causation.Some? then Some(InvalidTransition) else None
    else if cmd.causation.None? then Some(InvalidTransition)
    else if ParentKey(cmd.tenant, cmd.hop) !in s.hops then Some(UnknownSource)
    else if cmd.hop.IngredientLotReceived? && ItemKey(cmd.tenant, cmd.hop.itemId) !in s.items then Some(UnknownItem)
    else
      var parent := ParentKey(cmd.tenant, cmd.hop);
      match ParentEvent(s.outbox, parent.kind, parent.tenant, parent.id)
      case None => Some(UnknownSource)
      case Some(id) => if cmd.causation == Some(id) then None else Some(InvalidTransition)
  }

  /** RegisterSupplier, ReceiveIngredientLot, ProduceProductionBatch and DispatchShipment. */
  ghost function AcceptHop(o: Outside, s: Source, cmd: Command, commits: bool): (Source, Accepted)
    requires cmd.HopCommand? && !cmd.hop.QuantityDecremented?
  {
    var k := HopKey(cmd.hop.Kind(), cmd.tenant, cmd.hop.SelfId());
    var row := SourceHopOf(cmd.hop);
    if !o.wellFormed(cmd) then (s, Rejected(TenantMismatch))
    else if HopError(s, cmd).Some? then (s, Rejected(HopError(s, cmd).value))
    else if SourceHopCollides(s.hops, k, row) then (s, Rejected(DuplicateSource))
    else
      var written := s.(hops := s.hops[k := row]);
      var (s', r) := Emit(o, written, EnvelopeOf(cmd, 1, cmd.hop), commits);
      (if s'.Some? then s'.value else s, r)
  }

  /** One step of the source: seeding an item at version 0, or a command that commits or not. */
  datatype SourceStep =
    | Seed(key: ItemKey, quantity: nat)
    | Command(cmd: Command, commits: bool)

  ghost predicate StepOk(step: SourceStep) {
    step.Command? && step.cmd.HopCommand? ==> !step.cmd.hop.QuantityDecremented?
  }

  /** The source together with the history it has emitted and the quantities it was seeded with. */
  datatype Ledger = Ledger(source: Source, history: History, seeds: map<ItemKey, int>)

  const EMPTY_LEDGER: Ledger := Ledger(EMPTY_SOURCE, History(map[], map[]), map[])

  function ChainOf(h: History, k: ItemKey): seq<Envelope> {
    if k in h.chains then h.chains[k] else []
  }

  function Extend(h: History, e: Envelope): History {
    if e.payload.QuantityDecremented? then
      h.(chains := h.chains[ItemKeyOf(e) := ChainOf(h, ItemKeyOf(e)) + [e]])
    else
      h.(hops := h.hops[HopKeyOf(e) := e])
  }

  ghost function Execute(o: Outside, s: Source, cmd: Command, commits: bool): (Source, Accepted)
    requires cmd.HopCommand? ==> !cmd.hop.QuantityDecremented?
  {
    if cmd.OrderCommand? then AcceptOrder(o, s, cmd, commits) else AcceptHop(o, s, cmd, commits)
  }

  ghost function Advance(o: Outside, l: Ledger, step: SourceStep): Ledger
    requires StepOk(step)
  {
    match step
    case Seed(k, q) =>
      if k in l.source.items then l
      else l.(source := l.source.(items := l.source.items[k := ItemRow(q, 0)]), seeds := l.seeds[k := q])
    case Command(cmd, commits) =>
      var (s', r) := Execute(o, l.source, cmd, commits);
      l.(source := s', history := if r.Accepted? then Extend(l.history, r.event) else l.history)
  }
}
