/**
 What the ERP answers to a command, from the seeds and the committed events alone: when it accepts, which error it
 returns otherwise, the event it emits field by field, and the rows it writes.
 */
module Acceptance {
  import opened Events
  import opened Families
  import opened Projection
  import opened Convergence
  import opened Source
  import opened SourceInvariant

  // --- what the books say --------------------------------------------------------------------------------

  function QuantityAfter(e: Envelope): int { if e.payload.QuantityDecremented? then e.payload.after else 0 }

  /** What is on hand after the item's committed events. */
  function OnHand(l: Ledger, k: ItemKey): int
    requires k in l.seeds
  {
    var es := ChainOf(l.history, k);
    if es == [] then l.seeds[k] else QuantityAfter(es[|es| - 1])
  }

  ghost predicate OrderUsed(h: History, id: string) {
    exists k, i :: k in h.chains && 0 <= i < |h.chains[k]| && h.chains[k][i].payload.QuantityDecremented?
                   && h.chains[k][i].payload.orderId == id
  }

  ghost predicate EventUsed(h: History, id: string) {
    exists e :: InHistory(h, e) && e.eventId == id
  }

  /** A dispatched shipment of the tenant carries the order. */
  predicate Carries(h: History, tenant: string, order: string, k: HopKey) {
    && k in h.hops && k.kind == Shipment && k.tenant == tenant
    && h.hops[k].payload.ShipmentDispatched? && h.hops[k].payload.orderId == order
  }

  /** The command names the event of the shipment that carries its order, or no cause if there is none. */
  ghost predicate RightCause(h: History, tenant: string, order: string, causation: Option<string>) {
    && (forall k | Carries(h, tenant, order, k) :: causation == Some(h.hops[k].eventId))
    && ((forall k :: !Carries(h, tenant, order, k)) ==> causation == None)
  }

  // --- tables and books ------------------------------------------------------------------------------------

  lemma ItemInBooks(o: Outside, l: Ledger, k: ItemKey)
    requires LedgerInv(o, l)
    ensures k in l.source.items <==> k in l.seeds
    ensures k in l.seeds ==> l.source.items[k] == ItemRow(OnHand(l, k), |ChainOf(l.history, k)|)
  {
    hide Clean, OutboxMatches, OrdersMatch, HopsMatch, Caused, Total;
    if k in l.source.items {
      assert ItemBalanced(l, k);
    }
  }

  lemma OrderInBooks(o: Outside, l: Ledger, id: string)
    requires LedgerInv(o, l)
    ensures id in l.source.orders <==> OrderUsed(l.history, id)
  {
    hide Clean, OutboxMatches, ItemsBalanced, HopsMatch, Caused;
    if id in l.source.orders {
      var order := l.source.orders[id];
      var i :| OrdersAt(l.history, ItemKey(order.tenant, order.item), i, id, order);
    }
  }

  lemma EventInBooks(o: Outside, l: Ledger, id: string)
    requires LedgerInv(o, l)
    ensures id in l.source.outbox <==> EventUsed(l.history, id)
  {
    hide OrdersMatch, ItemsBalanced, HopsMatch, Caused, IsRowOf, UniqueIds, UniqueParents;
    if id in l.source.outbox {
      var row := l.source.outbox[id];
      assert OutboxRowClean(o, l.history, id, row);
      EventAtInHistory(o.codec, l.history, row.kind, row.tenant, row.aggregate, row.version);
    }
  }

  /** A row for the aggregate's next version collides only on the event id. */
  lemma NextVersionIsFree(o: Outside, l: Ledger, e: Envelope)
    requires LedgerInv(o, l) && EventAt(l.history, e.Kind(), e.tenantId, e.aggregateId, e.version) == None
    ensures OutboxCollides(l.source.outbox, e.eventId, PendingRow(o, e)) <==> e.eventId in l.source.outbox
  {
    hide Clean, OrdersMatch, ItemsBalanced, HopsMatch, Caused, IsRowOf;
    forall id | id in l.source.outbox ensures !SameVersion(l.source.outbox[id], PendingRow(o, e)) {
      assert OutboxRowClean(o, l.history, id, l.source.outbox[id]);
    }
  }

  lemma CarriedInBooks(o: Outside, l: Ledger, tenant: string, order: string, k: HopKey)
    requires LedgerInv(o, l)
    ensures ShipsOrder(l.source.hops, tenant, order, k) <==> Carries(l.history, tenant, order, k)
  {
    hide OutboxMatches, OrdersMatch, ItemsBalanced, Caused, UniqueIds, UniqueParents;
    if k in l.history.hops {
      assert CleanHop(o.codec, k, l.history.hops[k]);
    }
  }

  lemma CauseInBooks(o: Outside, l: Ledger, cmd: Command)
    requires LedgerInv(o, l) && cmd.OrderCommand?
    ensures OrderCausationError(l.source, cmd)
         == if RightCause(l.history, cmd.tenant, cmd.orderId, cmd.causation) then None else Some(InvalidTransition)
  {
    hide LedgerInv, ShipsOrder, Carries, ParentEvent;
    forall k ensures ShipsOrder(l.source.hops, cmd.tenant, cmd.orderId, k) <==> Carries(l.history, cmd.tenant, cmd.orderId, k) {
      CarriedInBooks(o, l, cmd.tenant, cmd.orderId, k);
    }
    forall k | Carries(l.history, cmd.tenant, cmd.orderId, k)
      ensures k in l.history.hops && k.kind == Shipment && k.tenant == cmd.tenant
      ensures ParentEvent(l.source.outbox, Shipment, cmd.tenant, k.id) == Some(l.history.hops[k].eventId)
    {
      CarriesIs(l.history, cmd.tenant, cmd.orderId, k);
      ParentIsHop(o, l, k);
    }
    forall k, k' | Carries(l.history, cmd.tenant, cmd.orderId, k) && Carries(l.history, cmd.tenant, cmd.orderId, k')
      ensures k == k'
    {
      CarriedOnce(o, l, cmd.tenant, cmd.orderId, k, k');
    }
  }

  lemma CarriesIs(h: History, tenant: string, order: string, k: HopKey)
    requires Carries(h, tenant, order, k)
    ensures k in h.hops && k.kind == Shipment && k.tenant == tenant
  {
  }

  lemma CarriedOnce(o: Outside, l: Ledger, tenant: string, order: string, k: HopKey, k': HopKey)
    requires LedgerInv(o, l) && Carries(l.history, tenant, order, k) && Carries(l.history, tenant, order, k')
    ensures k == k'
  {
    hide OutboxMatches, OrdersMatch, ItemsBalanced, HopsMatch, Caused, UniqueIds;
    assert k != k' ==> !SharesParent(k.kind, HopOf(l.history.hops[k]), HopOf(l.history.hops[k']));
  }

  // --- orders ------------------------------------------------------------------------------------------------

  /** The event an accepted order emits. */
  function OrderEvent(l: Ledger, cmd: Command): Envelope
    requires cmd.OrderCommand? && ItemKey(cmd.tenant, cmd.item) in l.seeds
  {
    var k := ItemKey(cmd.tenant, cmd.item);
    Envelope(cmd.eventId, cmd.tenant, "inventory.quantity_decremented", 1, "inventory_item", cmd.item,
             |ChainOf(l.history, k)| + 1, cmd.occurredAt, cmd.recordedAt, "synthetic-erp", cmd.correlation, cmd.causation,
             cmd.trace,
             QuantityDecremented(cmd.orderId, cmd.item, cmd.quantity, OnHand(l, k), OnHand(l, k) - cmd.quantity))
  }

  /** The outbox row of a new event: pending, never tried, with its canonical text, digest and time in microseconds. */
  function FreshRow(o: Outside, e: Envelope): OutboxRow {
    OutboxRow(e.tenantId, e.payload.Kind(), e.aggregateType, e.aggregateId, e.version, o.codec.digest(o.codec.print_(e)),
              o.codec.print_(e), o.instant(e.recordedAt) - o.instant(e.recordedAt) % 1000, Pending, None, None, 0, None)
  }

  /** The source after an accepted order. */
  function OrderWritten(o: Outside, l: Ledger, cmd: Command): Source
    requires cmd.OrderCommand? && ItemKey(cmd.tenant, cmd.item) in l.seeds
  {
    var k, e := ItemKey(cmd.tenant, cmd.item), OrderEvent(l, cmd);
    l.source.(items := l.source.items[k := ItemRow(OnHand(l, k) - cmd.quantity, |ChainOf(l.history, k)| + 1)],
              orders := l.source.orders[cmd.orderId := Order(cmd.tenant, cmd.item, cmd.quantity)],
              outbox := l.source.outbox[cmd.eventId := FreshRow(o, e)])
  }

  predicate QuantityOk(cmd: Command)
    requires cmd.OrderCommand?
  {
    1 <= cmd.quantity <= 9007199254740991
  }

  /** Enough on hand, a version left, and the right cause. */
  ghost predicate Deliverable(l: Ledger, cmd: Command)
    requires cmd.OrderCommand? && ItemKey(cmd.tenant, cmd.item) in l.seeds
  {
    var k := ItemKey(cmd.tenant, cmd.item);
    && cmd.quantity <= OnHand(l, k) && |ChainOf(l.history, k)| < 9007199254740991
    && RightCause(l.history, cmd.tenant, cmd.orderId, cmd.causation)
  }

  /** The answer to an order, check by check, each in terms of the command, the seeds and the committed events. */
  ghost predicate OrderAnswer(o: Outside, l: Ledger, cmd: Command, commits: bool, s': Source, r: Accepted)
    requires cmd.OrderCommand?
  {
    var known := ItemKey(cmd.tenant, cmd.item) in l.seeds;
    var formed := QuantityOk(cmd) && o.wellFormed(cmd);
    var fits := formed && known && Deliverable(l, cmd);
    var unused := fits && !OrderUsed(l.history, cmd.orderId);
    var valid := unused && o.codec.valid(OrderEvent(l, cmd));
    && (r == Rejected(InvalidQuantity) <==> !QuantityOk(cmd))
    && (r == Rejected(TenantMismatch) <==> QuantityOk(cmd) && !o.wellFormed(cmd))
    && (r == Rejected(UnknownItem) <==> formed && !known)
    && (r == Rejected(InvalidTransition) <==> formed && known && !Deliverable(l, cmd))
    && (r == Rejected(DuplicateOrder) <==> fits && OrderUsed(l.history, cmd.orderId))
    && (r == Rejected(InvalidEvent) <==> unused && !o.codec.valid(OrderEvent(l, cmd)))
    && (r == Rejected(DuplicateEvent) <==> valid && EventUsed(l.history, cmd.eventId))
    && (r == Rejected(NotCommitted) <==> valid && !EventUsed(l.history, cmd.eventId) && !commits)
    && (r.Accepted? <==> valid && !EventUsed(l.history, cmd.eventId) && commits)
    && (r.Accepted? ==> r.event == OrderEvent(l, cmd) && s' == OrderWritten(o, l, cmd))
    && (!r.Accepted? ==> s' == l.source)
  }

  lemma OrderAnswered(o: Outside, l: Ledger, cmd: Command, commits: bool)
    requires LedgerInv(o, l) && cmd.OrderCommand?
    ensures OrderAnswer(o, l, cmd, commits, AcceptOrder(o, l.source, cmd, commits).0, AcceptOrder(o, l.source, cmd, commits).1)
  {
    hide LedgerInv, OrderCausationError, RightCause, OrderUsed, EventUsed, OutboxCollides, OnHand, ChainOf;
    var k := ItemKey(cmd.tenant, cmd.item);
    ItemInBooks(o, l, k);
    CauseInBooks(o, l, cmd);
    OrderInBooks(o, l, cmd.orderId);
    EventInBooks(o, l, cmd.eventId);
    if k in l.seeds {
      OrderEventIs(l, cmd, l.source.items[k]);
      NextOfChain(l, cmd);
      NextVersionIsFree(o, l, OrderEvent(l, cmd));
      assert PendingRow(o, OrderEvent(l, cmd)) == FreshRow(o, OrderEvent(l, cmd));
    }
  }

  lemma OrderEventIs(l: Ledger, cmd: Command, row: ItemRow)
    requires cmd.OrderCommand? && ItemKey(cmd.tenant, cmd.item) in l.seeds
    requires row == ItemRow(OnHand(l, ItemKey(cmd.tenant, cmd.item)), |ChainOf(l.history, ItemKey(cmd.tenant, cmd.item))|)
    ensures EnvelopeOf(cmd, row.version + 1,
                       QuantityDecremented(cmd.orderId, cmd.item, cmd.quantity, row.quantity, row.quantity - cmd.quantity))
         == OrderEvent(l, cmd)
  {
    hide OnHand, ChainOf;
  }

  lemma NextOfChain(l: Ledger, cmd: Command)
    requires cmd.OrderCommand? && ItemKey(cmd.tenant, cmd.item) in l.seeds
    ensures var e := OrderEvent(l, cmd);
            EventAt(l.history, e.Kind(), e.tenantId, e.aggregateId, e.version) == None
  {
  }

  /** In every state the source can reach, the answer to an order is this function of its books. */
  lemma EveryOrderIsAnswered(o: Outside, steps: seq<SourceStep>, cmd: Command, commits: bool)
    requires (forall i | 0 <= i < |steps| :: StepOk(steps[i])) && cmd.OrderCommand?
    ensures var l := RunSource(o, steps);
            OrderAnswer(o, l, cmd, commits, Execute(o, l.source, cmd, commits).0, Execute(o, l.source, cmd, commits).1)
  {
    hide RunSource, StepOk, LedgerInv, OrderAnswer, AcceptOrder;
    RunSourceKeepsInv(o, steps);
    OrderAnswered(o, RunSource(o, steps), cmd, commits);
  }

  // --- hops --------------------------------------------------------------------------------------------------

  /** The kind of the hop one step closer to the supplier. */
  function UpKind(hop: Payload): Kind {
    match hop
    case IngredientLotReceived(_, _, _) => Supplier
    case ProductionBatchProduced(_, _) => IngredientLot
    case ShipmentDispatched(_, _, _) => ProductionBatch
    case _ => Supplier
  }

  function UpId(hop: Payload): string {
    match hop
    case IngredientLotReceived(_, supplier, _) => supplier
    case ProductionBatchProduced(_, lot) => lot
    case ShipmentDispatched(_, batch, _) => batch
    case _ => ""
  }

  /** The event an accepted hop command emits. */
  function HopEvent(cmd: Command): Envelope
    requires cmd.HopCommand? && !cmd.hop.QuantityDecremented?
  {
    match cmd.hop
    case SupplierRegistered(supplier) => HopEnvelope(cmd, "supplier.registered", "supplier", supplier, None)
    case IngredientLotReceived(lot, _, _) => HopEnvelope(cmd, "ingredient_lot.received", "ingredient_lot", lot, cmd.causation)
    case ProductionBatchProduced(batch, _) =>
      HopEnvelope(cmd, "production_batch.produced", "production_batch", batch, cmd.causation)
    case ShipmentDispatched(shipment, _, _) => HopEnvelope(cmd, "shipment.dispatched", "shipment", shipment, cmd.causation)
  }

  function HopEnvelope(cmd: Command, eventType: string, aggregateType: string, id: string, causation: Option<string>): Envelope
    requires cmd.HopCommand?
  {
    Envelope(cmd.eventId, cmd.tenant, eventType, 1, aggregateType, id, 1, cmd.occurredAt, cmd.recordedAt, "synthetic-erp",
             cmd.correlation, causation, cmd.trace, cmd.hop)
  }

  /** The parent hop was committed. */
  predicate HasParent(h: History, cmd: Command)
    requires cmd.HopCommand?
  {
    HopKey(UpKind(cmd.hop), cmd.tenant, UpId(cmd.hop)) in h.hops
  }

  /** A committed hop has the command's own id, its parent, or, for a shipment, its order. */
  ghost predicate HopUsed(h: History, cmd: Command)
    requires cmd.HopCommand?
  {
    exists k :: k in h.hops && k.kind == cmd.hop.Kind() && k.tenant == cmd.tenant && Blocks(k.id, h.hops[k].payload, cmd.hop)
  }

  predicate Blocks(id: string, other: Payload, hop: Payload) {
    || id == hop.SelfId()
    || (!hop.SupplierRegistered? && UpId(other) == UpId(hop))
    || (hop.ShipmentDispatched? && other.ShipmentDispatched? && other.orderId == hop.orderId)
  }

  /** The first check a hop command fails on its parent, its item and its cause. */
  function HopRefusal(l: Ledger, cmd: Command): Option<SourceError>
    requires cmd.HopCommand? && !cmd.hop.QuantityDecremented?
  {
    if cmd.hop.SupplierRegistered? then if cmd.causation == None then None else Some(InvalidTransition)
    else if cmd.causation == None then Some(InvalidTransition)
    else if !HasParent(l.history, cmd) then Some(UnknownSource)
    else if cmd.hop.IngredientLotReceived? && ItemKey(cmd.tenant, cmd.hop.itemId) !in l.seeds then Some(UnknownItem)
    else if cmd.causation != Some(l.history.hops[HopKey(UpKind(cmd.hop), cmd.tenant, UpId(cmd.hop))].eventId)
    then Some(InvalidTransition)
    else None
  }

  function HopWritten(o: Outside, l: Ledger, cmd: Command): Source
    requires cmd.HopCommand? && !cmd.hop.QuantityDecremented?
  {
    var row := match cmd.hop
      case IngredientLotReceived(_, supplier, item) => SourceHop(supplier, item, "")
      case ProductionBatchProduced(_, lot) => SourceHop(lot, "", "")
      case ShipmentDispatched(_, batch, order) => SourceHop(batch, "", order)
      case _ => SourceHop("", "", "");
    l.source.(hops := l.source.hops[HopKey(cmd.hop.Kind(), cmd.tenant, cmd.hop.SelfId()) := row],
              outbox := l.source.outbox[cmd.eventId := FreshRow(o, HopEvent(cmd))])
  }

  /** The answer to a hop command, in terms of the command, the seeds and the committed events. */
  ghost predicate HopAnswer(o: Outside, l: Ledger, cmd: Command, commits: bool, s': Source, r: Accepted)
    requires cmd.HopCommand? && !cmd.hop.QuantityDecremented?
  {
    var refusal := HopRefusal(l, cmd);
    var fits := o.wellFormed(cmd) && refusal == None;
    var unused := fits && !HopUsed(l.history, cmd);
    var valid := unused && o.codec.valid(HopEvent(cmd));
    && (r == Rejected(TenantMismatch) <==> !o.wellFormed(cmd))
    && (forall error | error in {InvalidTransition, UnknownSource, UnknownItem} ::
          r == Rejected(error) <==> o.wellFormed(cmd) && refusal == Some(error))
    && (r == Rejected(DuplicateSource) <==> fits && HopUsed(l.history, cmd))
    && (r == Rejected(InvalidEvent) <==> unused && !o.codec.valid(HopEvent(cmd)))
    && (r == Rejected(DuplicateEvent) <==> valid && EventUsed(l.history, cmd.eventId))
    && (r == Rejected(NotCommitted) <==> valid && !EventUsed(l.history, cmd.eventId) && !commits)
    && (r.Accepted? <==> valid && !EventUsed(l.history, cmd.eventId) && commits)
    && (r.Accepted? ==> r.event == HopEvent(cmd) && s' == HopWritten(o, l, cmd))
    && (!r.Accepted? ==> s' == l.source)
  }

  lemma HopRefusalIs(o: Outside, l: Ledger, cmd: Command)
    requires LedgerInv(o, l) && cmd.HopCommand? && !cmd.hop.QuantityDecremented?
    ensures HopError(l.source, cmd) == HopRefusal(l, cmd)
    ensures HopRefusal(l, cmd).Some? ==> HopRefusal(l, cmd).value in {InvalidTransition, UnknownSource, UnknownItem}
  {
    hide LedgerInv, ParentEvent;
    if !cmd.hop.SupplierRegistered? {
      var parent := ParentKey(cmd.tenant, cmd.hop);
      assert parent == HopKey(UpKind(cmd.hop), cmd.tenant, UpId(cmd.hop));
      HopKeysAgree(o, l);
      if parent in l.history.hops {
        ParentIsHop(o, l, parent);
      }
      if cmd.hop.IngredientLotReceived? {
        ItemInBooks(o, l, ItemKey(cmd.tenant, cmd.hop.itemId));
      }
    }
  }

  lemma HopKeysAgree(o: Outside, l: Ledger)
    requires LedgerInv(o, l)
    ensures l.source.hops.Keys == l.history.hops.Keys
  {
  }

  lemma HopUsedIs(o: Outside, l: Ledger, cmd: Command)
    requires LedgerInv(o, l) && cmd.HopCommand? && !cmd.hop.QuantityDecremented?
    ensures SourceHopCollides(l.source.hops, HopKey(cmd.hop.Kind(), cmd.tenant, cmd.hop.SelfId()), SourceHopOf(cmd.hop))
            <==> HopUsed(l.history, cmd)
  {
    hide OutboxMatches, OrdersMatch, ItemsBalanced, Caused, UniqueIds, UniqueParents;
    forall k | k in l.history.hops && k.kind == cmd.hop.Kind()
      ensures k in l.source.hops && l.source.hops[k] == SourceHopOf(l.history.hops[k].payload)
      ensures l.history.hops[k].payload.Kind() == k.kind
    {
      assert CleanHop(o.codec, k, l.history.hops[k]);
    }
  }

  lemma HopAnswered(o: Outside, l: Ledger, cmd: Command, commits: bool)
    requires LedgerInv(o, l) && cmd.HopCommand? && !cmd.hop.QuantityDecremented?
    ensures HopAnswer(o, l, cmd, commits, AcceptHop(o, l.source, cmd, commits).0, AcceptHop(o, l.source, cmd, commits).1)
  {
    hide LedgerInv, HopError, HopRefusal, HopUsed, EventUsed, OutboxCollides, SourceHopCollides;
    HopRefusalIs(o, l, cmd);
    HopUsedIs(o, l, cmd);
    EventInBooks(o, l, cmd.eventId);
    assert EnvelopeOf(cmd, 1, cmd.hop) == HopEvent(cmd);
    if !HopUsed(l.history, cmd) {
      FirstOfHop(l, cmd);
      NextVersionIsFree(o, l, HopEvent(cmd));
    }
    assert PendingRow(o, HopEvent(cmd)) == FreshRow(o, HopEvent(cmd));
  }

  lemma FirstOfHop(l: Ledger, cmd: Command)
    requires cmd.HopCommand? && !cmd.hop.QuantityDecremented? && !HopUsed(l.history, cmd)
    ensures var e := HopEvent(cmd);
            EventAt(l.history, e.Kind(), e.tenantId, e.aggregateId, e.version) == None
  {
  }

  /** In every state the source can reach, the answer to each of the four hop commands is this function of its books. */
  lemma EveryHopIsAnswered(o: Outside, steps: seq<SourceStep>, cmd: Command, commits: bool)
    requires forall i | 0 <= i < |steps| :: StepOk(steps[i])
    requires cmd.HopCommand? && !cmd.hop.QuantityDecremented?
    ensures var l := RunSource(o, steps);
            HopAnswer(o, l, cmd, commits, Execute(o, l.source, cmd, commits).0, Execute(o, l.source, cmd, commits).1)
  {
    hide RunSource, StepOk, LedgerInv, HopAnswer, AcceptHop;
    RunSourceKeepsInv(o, steps);
    HopAnswered(o, RunSource(o, steps), cmd, commits);
  }
}
