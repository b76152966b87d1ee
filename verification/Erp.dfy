/**
 The source as it runs: commands that read and lock, write inside a transaction, and commit everything or nothing.
 Each is proved to do what `Source.AcceptOrder` and `Source.AcceptHop` say.
 */
module Erp {
  import opened Events
  import opened Projection
  import S = Source

  /** UNIQUE (tenant_id, order_id) on erp.shipments. */
  ghost predicate OrdersShippedOnce(hops: map<HopKey, S.SourceHop>) {
    forall k, k' | k in hops && k' in hops && k.kind == Shipment && k'.kind == Shipment && k.tenant == k'.tenant
                   && hops[k].order == hops[k'].order :: k == k'
  }

  predicate OfAggregate(row: S.OutboxRow, kind: Kind, tenant: string, aggregate: string) {
    row.tenant == tenant && row.kind == kind && row.aggregate == aggregate
  }

  /** parentOutboxEventID: ORDER BY aggregate_version LIMIT 1. */
  method FirstEvent(outbox: map<string, S.OutboxRow>, kind: Kind, tenant: string, aggregate: string)
    returns (first: Option<string>)
    requires S.VersionsUnique(outbox)
    ensures first == S.ParentEvent(outbox, kind, tenant, aggregate)
  {
    first := None;
    var todo := outbox.Keys;
    while todo != {}
      invariant todo <= outbox.Keys
      invariant first.None? ==> forall id | id in outbox && id !in todo :: !OfAggregate(outbox[id], kind, tenant, aggregate)
      invariant first.Some? ==> first.value in outbox && OfAggregate(outbox[first.value], kind, tenant, aggregate)
      invariant first.Some? ==> forall id | id in outbox && id !in todo && OfAggregate(outbox[id], kind, tenant, aggregate) ::
                  outbox[first.value].version <= outbox[id].version
      decreases |todo|
    {
      var id :| id in todo;
      todo := todo - {id};
      if OfAggregate(outbox[id], kind, tenant, aggregate)
         && (first.None? || outbox[id].version < outbox[first.value].version)
      {
        first := Some(id);
      }
    }
    FirstIsParent(outbox, kind, tenant, aggregate, first);
  }

  lemma FirstIsParent(outbox: map<string, S.OutboxRow>, kind: Kind, tenant: string, aggregate: string, first: Option<string>)
    requires S.VersionsUnique(outbox)
    requires first.None? ==> forall id | id in outbox :: !OfAggregate(outbox[id], kind, tenant, aggregate)
    requires first.Some? ==> S.IsFirst(outbox, kind, tenant, aggregate, first.value)
    ensures first == S.ParentEvent(outbox, kind, tenant, aggregate)
  {
    forall id, id' | S.IsFirst(outbox, kind, tenant, aggregate, id) && S.IsFirst(outbox, kind, tenant, aggregate, id')
      ensures id == id'
    {
      assert S.SameVersion(outbox[id], outbox[id']);
    }
  }

  /** The shipment that carries the order, if there is one. */
  method ShipmentOf(hops: map<HopKey, S.SourceHop>, tenant: string, order: string) returns (found: Option<HopKey>)
    ensures found.Some? ==> S.ShipsOrder(hops, tenant, order, found.value)
    ensures found.None? ==> forall k :: !S.ShipsOrder(hops, tenant, order, k)
  {
    var todo := hops.Keys;
    while todo != {}
      invariant todo <= hops.Keys
      invariant forall k | k in hops && k !in todo :: !S.ShipsOrder(hops, tenant, order, k)
      decreases |todo|
    {
      var k :| k in todo;
      if S.ShipsOrder(hops, tenant, order, k) {
        return Some(k);
      }
      todo := todo - {k};
    }
    return None;
  }

  class Database {
    var items: map<ItemKey, ItemRow>
    var orders: map<string, S.Order>
    var hops: map<HopKey, S.SourceHop>
    var outbox: map<string, S.OutboxRow>

    ghost function Tables(): S.Source
      reads this
    {
      S.Source(items, orders, hops, outbox)
    }

    /** The table constraints hold. */
    ghost predicate Valid()
      reads this
    {
      S.VersionsUnique(outbox) && OrdersShippedOnce(hops)
    }

    constructor ()
      ensures Tables() == S.EMPTY_SOURCE && Valid()
    {
      items, orders, hops, outbox := map[], map[], map[], map[];
    }

    /** requireOrderShipmentCausation. */
    method RequireOrderShipmentCausation(cmd: S.Command) returns (error: Option<S.SourceError>)
      requires Valid() && cmd.OrderCommand?
      ensures error == S.OrderCausationError(Tables(), cmd)
    {
      hide S.ParentEvent;
      var shipment := ShipmentOf(hops, cmd.tenant, cmd.orderId);
      if shipment.None? {
        return if cmd.causation.Some? then Some(S.InvalidTransition) else None;
      }
      assert S.ShipsOrder(hops, cmd.tenant, cmd.orderId, shipment.value);
      assert forall k | S.ShipsOrder(hops, cmd.tenant, cmd.orderId, k) :: k == shipment.value;
      var parent := FirstEvent(outbox, Shipment, cmd.tenant, shipment.value.id);
      if parent.None? {
        return Some(S.UnknownSource);
      }
      return if cmd.causation == parent then None else Some(S.InvalidTransition);
    }

    /** AcceptOrder: lock the item, decrement it, insert the order and the outbox row, commit. */
    method AcceptOrder(o: S.Outside, cmd: S.Command, commits: bool) returns (r: S.Accepted)
      requires Valid() && cmd.OrderCommand?
      modifies this
      ensures (Tables(), r) == S.AcceptOrder(o, old(Tables()), cmd, commits)
      ensures Valid()
    {
      hide S.OrderCausationError, S.PendingRow, S.EnvelopeOf;
      if cmd.quantity < 1 || cmd.quantity > MAX_SAFE_INT {
        return S.Rejected(S.InvalidQuantity);
      }
      if !o.wellFormed(cmd) {
        return S.Rejected(S.TenantMismatch);
      }
      var k := ItemKey(cmd.tenant, cmd.item);
      if k !in items {
        return S.Rejected(S.UnknownItem);
      }
      var onHand, version := items[k].quantity, items[k].version + 1;
      if onHand < cmd.quantity || version > MAX_SAFE_INT {
        return S.Rejected(S.InvalidTransition);
      }
      var error := RequireOrderShipmentCausation(cmd);
      if error.Some? {
        return S.Rejected(error.value);
      }
      var txItems := items[k := ItemRow(onHand - cmd.quantity, version)];
      if cmd.orderId in orders {
        return S.Rejected(S.DuplicateOrder);
      }
      var txOrders := orders[cmd.orderId := S.Order(cmd.tenant, cmd.item, cmd.quantity)];
      var payload := QuantityDecremented(cmd.orderId, cmd.item, cmd.quantity, onHand, onHand - cmd.quantity);
      var env := S.EnvelopeOf(cmd, version, payload);
      var row, refused := PrepareOutboxRow(o, env);
      if refused.Some? {
        return S.Rejected(refused.value);
      }
      if !commits {
        return S.Rejected(S.NotCommitted);
      }
      RowKeepsUnique(outbox, env.eventId, row);
      items, orders, outbox := txItems, txOrders, outbox[env.eventId := row];
      return S.Accepted(env);
    }

    /** insertPendingOutbox up to the constraint checks of the INSERT. */
    method PrepareOutboxRow(o: S.Outside, env: Envelope) returns (row: S.OutboxRow, refused: Option<S.SourceError>)
      ensures row == S.PendingRow(o, env)
      ensures refused == if !o.codec.valid(env) then Some(S.InvalidEvent)
                         else if S.OutboxCollides(outbox, env.eventId, row) then Some(S.DuplicateEvent) else None
    {
      row := S.PendingRow(o, env);
      if !o.codec.valid(env) {
        return row, Some(S.InvalidEvent);
      }
      if env.eventId in outbox {
        return row, Some(S.DuplicateEvent);
      }
      var todo := outbox.Keys;
      while todo != {}
        invariant todo <= outbox.Keys
        invariant forall id | id in outbox && id !in todo :: !S.SameVersion(outbox[id], row)
        decreases |todo|
      {
        var id :| id in todo;
        if S.SameVersion(outbox[id], row) {
          return row, Some(S.DuplicateEvent);
        }
        todo := todo - {id};
      }
      return row, None;
    }

    /** The checks of the four hop commands on the parent hop and its event. */
    method RequireHop(cmd: S.Command) returns (error: Option<S.SourceError>)
      requires Valid() && cmd.HopCommand?
      ensures error == S.HopError(Tables(), cmd)
    {
      hide S.ParentEvent;
      if cmd.hop.SupplierRegistered? {
        return if cmd.causation.Some? then Some(S.InvalidTransition) else None;
      }
      if cmd.causation.None? {
        return Some(S.InvalidTransition);
      }
      var parent := S.ParentKey(cmd.tenant, cmd.hop);
      if parent !in hops {
        return Some(S.UnknownSource);
      }
      if cmd.hop.IngredientLotReceived? && ItemKey(cmd.tenant, cmd.hop.itemId) !in items {
        return Some(S.UnknownItem);
      }
      var first := FirstEvent(outbox, parent.kind, parent.tenant, parent.id);
      if first.None? {
        return Some(S.UnknownSource);
      }
      return if cmd.causation == first then None else Some(S.InvalidTransition);
    }

    /** RegisterSupplier, ReceiveIngredientLot, ProduceProductionBatch and DispatchShipment. */
    method AcceptHop(o: S.Outside, cmd: S.Command, commits: bool) returns (r: S.Accepted)
      requires Valid() && cmd.HopCommand? && !cmd.hop.QuantityDecremented?
      modifies this
      ensures (Tables(), r) == S.AcceptHop(o, old(Tables()), cmd, commits)
      ensures Valid()
    {
      hide S.HopError, S.PendingRow, S.EnvelopeOf, S.SourceHopOf;
      if !o.wellFormed(cmd) {
        return S.Rejected(S.TenantMismatch);
      }
      var error := RequireHop(cmd);
      if error.Some? {
        return S.Rejected(error.value);
      }
      var k := HopKey(cmd.hop.Kind(), cmd.tenant, cmd.hop.SelfId());
      var hop := S.SourceHopOf(cmd.hop);
      if S.SourceHopCollides(hops, k, hop) {
        return S.Rejected(S.DuplicateSource);
      }
      var env := S.EnvelopeOf(cmd, 1, cmd.hop);
      var row, refused := PrepareOutboxRow(o, env);
      if refused.Some? {
        return S.Rejected(refused.value);
      }
      if !commits {
        return S.Rejected(S.NotCommitted);
      }
      RowKeepsUnique(outbox, env.eventId, row);
      HopKeepsUnique(hops, k, hop);
      hops, outbox := hops[k := hop], outbox[env.eventId := row];
      return S.Accepted(env);
    }
  }

  lemma RowKeepsUnique(outbox: map<string, S.OutboxRow>, id: string, row: S.OutboxRow)
    requires S.VersionsUnique(outbox) && !S.OutboxCollides(outbox, id, row)
    ensures S.VersionsUnique(outbox[id := row])
  {
  }

  lemma HopKeepsUnique(hops: map<HopKey, S.SourceHop>, k: HopKey, hop: S.SourceHop)
    requires OrdersShippedOnce(hops) && !S.SourceHopCollides(hops, k, hop)
    ensures OrdersShippedOnce(hops[k := hop])
  {
  }
}
