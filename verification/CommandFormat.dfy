/**
 The ERP's own checks on a command against the contract's checks on the event it becomes: two validations written
 apart, in two packages, and exactly where the second refuses what the first let pass.
 */
module CommandFormat {
  import opened Events
  import opened Families
  import opened Projection
  import opened Source
  import opened SourceInvariant
  import opened Acceptance
  import EC = EnvelopeCodec

  /** The checks every command goes through; `clock` says which timestamps the ERP can read. */
  predicate HeaderOk(rules: EC.TextRules, clock: string -> bool, cmd: Command) {
    && EC.IsUuid(cmd.tenant) && rules.isLower(cmd.tenant) && EC.IsUuid(cmd.eventId) && EC.IsUuid(cmd.correlation)
    && (exists i | 0 <= i < |cmd.trace| :: !rules.isSpace(cmd.trace[i]))
    && clock(cmd.occurredAt) && clock(cmd.recordedAt)
    && (cmd.causation.Some? ==> EC.IsUuid(cmd.causation.value))
  }

  /** validateCommand and the four checks of the hop commands, but for the quantity and a missing cause. */
  predicate FormatOk(rules: EC.TextRules, clock: string -> bool, cmd: Command) {
    && HeaderOk(rules, clock, cmd)
    && match cmd
       case OrderCommand(_, _, order, item, _, _, _, _, _, _) => EC.IsUuid(order) && EC.IsCanonicalId(rules, item)
       case HopCommand(_, _, hop, _, _, _, _, _) => IdsOk(rules, hop)
  }

  predicate IdsOk(rules: EC.TextRules, hop: Payload) {
    match hop
    case SupplierRegistered(supplier) => EC.IsCanonicalId(rules, supplier)
    case IngredientLotReceived(lot, supplier, item) =>
      EC.IsCanonicalId(rules, lot) && EC.IsCanonicalId(rules, supplier) && EC.IsCanonicalId(rules, item)
    case ProductionBatchProduced(batch, lot) => EC.IsCanonicalId(rules, batch) && EC.IsCanonicalId(rules, lot)
    case ShipmentDispatched(shipment, batch, order) =>
      EC.IsCanonicalId(rules, shipment) && EC.IsCanonicalId(rules, batch) && EC.IsUuid(order)
    case QuantityDecremented(_, _, _, _, _) => true
  }

  /** The ERP with the canonical JSON codec and its own format checks. */
  ghost function Erp(rules: EC.TextRules, clock: string -> bool, digest: string -> string, instant: string -> int): Outside {
    Outside(EC.JsonCodec(rules, digest), cmd => FormatOk(rules, clock, cmd), instant)
  }

  /** Both timestamps are in the form the contract asks for. */
  predicate TimesOk(rules: EC.TextRules, cmd: Command) { rules.isInstant(cmd.occurredAt) && rules.isInstant(cmd.recordedAt) }

  lemma OrderEventValidIff(rules: EC.TextRules, clock: string -> bool, l: Ledger, cmd: Command)
    requires cmd.OrderCommand? && ItemKey(cmd.tenant, cmd.item) in l.seeds
    requires FormatOk(rules, clock, cmd) && QuantityOk(cmd) && Deliverable(l, cmd)
    ensures EC.Validate(rules, OrderEvent(l, cmd)) == None <==>
            TimesOk(rules, cmd) && OnHand(l, ItemKey(cmd.tenant, cmd.item)) <= 9007199254740991
  {
    hide EC.IsUuid, OnHand, ChainOf, RightCause, EC.IsCanonicalId;
  }

  lemma HopEventValidIff(rules: EC.TextRules, clock: string -> bool, cmd: Command)
    requires cmd.HopCommand? && !cmd.hop.QuantityDecremented? && FormatOk(rules, clock, cmd)
    ensures EC.Validate(rules, HopEvent(cmd)) == None <==> TimesOk(rules, cmd)
  {
    HopFamily(cmd);
    hide EC.IsUuid, EC.IsCanonicalId, FamilyOf, AggregateTypeName, HopEvent;
  }

  lemma HopFamily(cmd: Command)
    requires cmd.HopCommand? && !cmd.hop.QuantityDecremented?
    ensures var e := HopEvent(cmd);
            && FamilyOf(e.eventType, e.schemaVersion) == Ok(cmd.hop.Kind()) && e.aggregateType == AggregateTypeName(cmd.hop.Kind())
            && e.payload == cmd.hop && e.aggregateId == cmd.hop.SelfId() && e.version == 1 && e.producer == PRODUCER
            && e.eventId == cmd.eventId && e.tenantId == cmd.tenant && e.correlationId == cmd.correlation && e.traceId == cmd.trace
            && e.occurredAt == cmd.occurredAt && e.recordedAt == cmd.recordedAt
            && e.causationId == if cmd.hop.SupplierRegistered? then None else cmd.causation
  {
  }

  /**
   In every state the source can reach, an order that passes every check of the ERP is refused as an invalid event exactly
   when one of its timestamps is not in the contract's form or more is on hand than 2^53 - 1.
   */
  lemma OrdersMakeEvents(rules: EC.TextRules, clock: string -> bool, digest: string -> string, instant: string -> int,
                         steps: seq<SourceStep>, cmd: Command, commits: bool)
    requires (forall i | 0 <= i < |steps| :: StepOk(steps[i])) && cmd.OrderCommand?
    ensures var o := Erp(rules, clock, digest, instant);
            var l := RunSource(o, steps);
            var k := ItemKey(cmd.tenant, cmd.item);
            var passes := QuantityOk(cmd) && FormatOk(rules, clock, cmd) && k in l.seeds && Deliverable(l, cmd)
                          && !OrderUsed(l.history, cmd.orderId);
            Execute(o, l.source, cmd, commits).1 == Rejected(InvalidEvent) <==>
            passes && !(TimesOk(rules, cmd) && OnHand(l, k) <= 9007199254740991)
  {
    hide RunSource, Execute, OrderUsed, Deliverable, FormatOk, OnHand, EventUsed, OrderWritten;
    var o := Erp(rules, clock, digest, instant);
    var l := RunSource(o, steps);
    EveryOrderIsAnswered(o, steps, cmd, commits);
    if QuantityOk(cmd) && FormatOk(rules, clock, cmd) && ItemKey(cmd.tenant, cmd.item) in l.seeds && Deliverable(l, cmd) {
      OrderEventValidIff(rules, clock, l, cmd);
    }
  }

  /** And a hop that passes every check, exactly when one of its timestamps is not in the contract's form. */
  lemma HopsMakeEvents(rules: EC.TextRules, clock: string -> bool, digest: string -> string, instant: string -> int,
                       steps: seq<SourceStep>, cmd: Command, commits: bool)
    requires (forall i | 0 <= i < |steps| :: StepOk(steps[i])) && cmd.HopCommand? && !cmd.hop.QuantityDecremented?
    ensures var o := Erp(rules, clock, digest, instant);
            var l := RunSource(o, steps);
            var passes := FormatOk(rules, clock, cmd) && HopRefusal(l, cmd) == None && !HopUsed(l.history, cmd);
            Execute(o, l.source, cmd, commits).1 == Rejected(InvalidEvent) <==> passes && !TimesOk(rules, cmd)
  {
    hide RunSource, Execute, HopUsed, HopRefusal, FormatOk, EventUsed, HopWritten, HopEvent;
    var o := Erp(rules, clock, digest, instant);
    EveryHopIsAnswered(o, steps, cmd, commits);
    if FormatOk(rules, clock, cmd) {
      HopEventValidIff(rules, clock, cmd);
    }
  }
}
