/**
 The Event Spine envelope and the codec interface the pipeline relies on.

 The pipeline modules take the codec as a value of type `Codec` and assume only `Lawful()`.
 Module `EnvelopeCodec` builds the concrete JSON codec and proves it lawful.
 */
module Events {
  datatype Option<+T> = None | Some(value: T)

  /** Parse errors: `ErrMalformed` and `ErrUnsupported`. */
  datatype Fault = Malformed | Unsupported

  datatype Result<+T> = Ok(value: T) | Err(error: Fault)

  /** The five aggregate types; each event family has exactly one. */
  datatype Kind = InventoryItem | Supplier | IngredientLot | ProductionBatch | Shipment

  datatype Payload =
    | QuantityDecremented(orderId: string, itemId: string, decremented: int, before: int, after: int)
    | SupplierRegistered(supplierId: string)
    | IngredientLotReceived(lotId: string, supplierId: string, itemId: string)
    | ProductionBatchProduced(batchId: string, lotId: string)
    | ShipmentDispatched(shipmentId: string, batchId: string, orderId: string)
  {
    /** The aggregate type that goes with the payload's family. */
    function Kind(): Kind {
      match this
      case QuantityDecremented(_, _, _, _, _) => InventoryItem
      case SupplierRegistered(_) => Supplier
      case IngredientLotReceived(_, _, _) => IngredientLot
      case ProductionBatchProduced(_, _) => ProductionBatch
      case ShipmentDispatched(_, _, _) => Shipment
    }

    /** The payload field that must equal the envelope's aggregate id. */
    function SelfId(): string {
      match this
      case QuantityDecremented(_, item, _, _, _) => item
      case SupplierRegistered(supplier) => supplier
      case IngredientLotReceived(lot, _, _) => lot
      case ProductionBatchProduced(batch, _) => batch
      case ShipmentDispatched(shipment, _, _) => shipment
    }

    /** The id of the hop one step closer to the supplier; empty where there is none. */
    function ParentId(): string {
      match this
      case IngredientLotReceived(_, supplier, _) => supplier
      case ProductionBatchProduced(_, lot) => lot
      case ShipmentDispatched(_, batch, _) => batch
      case _ => ""
    }
  }

  datatype Envelope = Envelope(
    eventId: string,
    tenantId: string,
    eventType: string,
    schemaVersion: int,
    aggregateType: string,
    aggregateId: string,
    version: int,
    occurredAt: string,
    recordedAt: string,
    producer: string,
    correlationId: string,
    causationId: Option<string>,
    traceId: string,
    payload: Payload)
  {
    function Kind(): Kind { payload.Kind() }
  }

  const MAX_SAFE_INT: int := 9007199254740991

  /** The part of envelope validation that the pipeline's state machines depend on. */
  predicate Sound(env: Envelope) {
    && 1 <= env.version <= MAX_SAFE_INT
    && env.payload.SelfId() == env.aggregateId
    && (env.payload.QuantityDecremented? ==>
          && env.payload.decremented >= 1
          && env.payload.before >= 0
          && env.payload.after >= 0
          && env.payload.before - env.payload.decremented == env.payload.after)
  }

  /**
   Validation, strict parsing, canonical printing and the digest of the canonical text.
   `digest` stands for SHA-256 and is assumed collision-free.
   */
  datatype Codec = Codec(
    valid: Envelope -> bool,
    parse: string -> Result<Envelope>,
    print_: Envelope -> string,
    digest: string -> string)
  {
    function Hash(env: Envelope): string { digest(print_(env)) }

    ghost predicate Lawful() {
      && (forall env :: valid(env) ==> Sound(env) && parse(print_(env)) == Ok(env) && print_(env) != "")
      && (forall text :: parse(text).Ok? ==> valid(parse(text).value))
      && (forall a, b :: digest(a) == digest(b) ==> a == b)
    }

    /** Equal content hashes identify equal envelopes. */
    lemma HashIdentifies(a: Envelope, b: Envelope)
      requires Lawful() && valid(a) && valid(b)
      requires Hash(a) == Hash(b)
      ensures a == b
    {
      assert print_(a) == print_(b);
      assert parse(print_(a)) == Ok(a) && parse(print_(b)) == Ok(b);
    }
  }

  /** The broker partition key of an aggregate. */
  function AggregateKey(tenant: string, aggregateType: string, aggregate: string): string {
    tenant + "/" + aggregateType + "/" + aggregate
  }
}
