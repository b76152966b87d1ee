/**
 The five event families: their names, aggregate types and payload members.
 */
module Families {
  import opened Events

  const PRODUCER := "synthetic-erp"

  function EventTypeName(kind: Kind): string {
    match kind
    case InventoryItem => "inventory.quantity_decremented"
    case Supplier => "supplier.registered"
    case IngredientLot => "ingredient_lot.received"
    case ProductionBatch => "production_batch.produced"
    case Shipment => "shipment.dispatched"
  }

  function AggregateTypeName(kind: Kind): string {
    match kind
    case InventoryItem => "inventory_item"
    case Supplier => "supplier"
    case IngredientLot => "ingredient_lot"
    case ProductionBatch => "production_batch"
    case Shipment => "shipment"
  }

  /** familyAggregateType: the family an event type and schema version name. */
  function FamilyOf(eventType: string, schemaVersion: int): (r: Result<Kind>)
    ensures r.Ok? <==> schemaVersion == 1 && exists kind :: eventType == EventTypeName(kind)
    ensures r.Err? ==> r.error == Unsupported
    ensures r.Ok? ==> eventType == EventTypeName(r.value)
  {
    if schemaVersion != 1 then Err(Unsupported)
    else if eventType == EventTypeName(InventoryItem) then Ok(InventoryItem)
    else if eventType == EventTypeName(Supplier) then Ok(Supplier)
    else if eventType == EventTypeName(IngredientLot) then Ok(IngredientLot)
    else if eventType == EventTypeName(ProductionBatch) then Ok(ProductionBatch)
    else if eventType == EventTypeName(Shipment) then Ok(Shipment)
    else Err(Unsupported)
  }

  /** No two families share an event type. */
  lemma FamilyOfName(kind: Kind)
    ensures FamilyOf(EventTypeName(kind), 1) == Ok(kind)
  {
    assert |EventTypeName(InventoryItem)| == 30 && |EventTypeName(Supplier)| == 19 && |EventTypeName(IngredientLot)| == 23
        && |EventTypeName(ProductionBatch)| == 25 && EventTypeName(Shipment)[1] != EventTypeName(Supplier)[1];
  }
}
