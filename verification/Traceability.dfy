/**
 Causation: the chain of events behind a lineage event, and what a batch trace shows of it.
 */
module Traceability {
  import opened Events
  import opened Projection
  import opened Convergence
  import opened Source
  import opened SourceInvariant
  import E = EndToEnd
  import A = AtRest

  /** How many events lead from a lineage event of the kind to its supplier, itself included. */
  function Depth(kind: Kind): nat {
    match kind
    case Supplier => 1
    case IngredientLot => 2
    case ProductionBatch => 3
    case Shipment => 4
    case InventoryItem => 0
  }

  /** Each event names the next as its cause; the last names none. */
  ghost predicate CausalChain(h: History, path: seq<Envelope>) {
    && path != []
    && (forall i | 0 <= i < |path| :: InHistory(h, path[i]))
    && (forall i | 0 <= i < |path| - 1 :: path[i].causationId == Some(path[i + 1].eventId))
    && path[|path| - 1].causationId == None
  }

  /** The event behind a lineage event. */
  lemma CauseOf(c: Codec, h: History, e: Envelope) returns (cause: Envelope)
    requires Clean(c, h) && Caused(h) && InHistory(h, e) && e.Kind() != InventoryItem && e.Kind() != Supplier
    ensures InHistory(h, cause) && cause.tenantId == e.tenantId && cause.Kind() == ParentKind(e.Kind())
    ensures e.causationId == Some(cause.eventId)
  {
    hide UniqueIds, UniqueParents;
    var k := HopKeyOf(e);
    assert HopCaused(h, k);
    var parent := ParentKey(k.tenant, e.payload);
    cause := h.hops[parent];
    HopInHistory(c, h, parent);
  }

  /** There is a chain, inside the tenant, down to the supplier, of the length of the kind. */
  lemma {:induction false} ChainExists(c: Codec, h: History, e: Envelope) returns (path: seq<Envelope>)
    requires Clean(c, h) && Caused(h) && InHistory(h, e) && e.Kind() != InventoryItem
    ensures CausalChain(h, path) && path[0] == e && |path| == Depth(e.Kind())
    ensures forall i | 0 <= i < |path| :: path[i].tenantId == e.tenantId
    ensures path[|path| - 1].payload.SupplierRegistered?
    decreases Depth(e.Kind())
  {
    hide Clean, InHistory;
    if e.Kind() == Supplier {
      path := [e];
      SupplierHasNoCause(c, h, e);
    } else {
      var cause := CauseOf(c, h, e);
      var rest := ChainExists(c, h, cause);
      path := [e] + rest;
      forall i | 0 <= i < |path| - 1 ensures path[i].causationId == Some(path[i + 1].eventId) {
        if i > 0 {
          assert path[i] == rest[i - 1] && path[i + 1] == rest[i];
        }
      }
    }
  }

  lemma SupplierHasNoCause(c: Codec, h: History, e: Envelope)
    requires Clean(c, h) && Caused(h) && InHistory(h, e) && e.Kind() == Supplier
    ensures e.causationId == None && e.payload.SupplierRegistered?
  {
    hide UniqueIds, UniqueParents;
    assert HopCaused(h, HopKeyOf(e));
  }

  /** It is the only one: following causation ids from an event leaves no choice. */
  lemma {:induction false} ChainUnique(c: Codec, h: History, p: seq<Envelope>, q: seq<Envelope>)
    requires Clean(c, h) && CausalChain(h, p) && CausalChain(h, q) && p[0] == q[0]
    ensures p == q
  {
    assert p == [p[0]] + p[1..] && q == [q[0]] + q[1..];
    ChainHead(h, p);
    ChainHead(h, q);
    if |p| > 1 {
      assert InHistory(h, p[1]) && InHistory(h, q[1]);
      TailChain(h, p);
      TailChain(h, q);
      ChainUnique(c, h, p[1..], q[1..]);
    }
  }

  lemma ChainHead(h: History, p: seq<Envelope>)
    requires CausalChain(h, p)
    ensures |p| > 1 ==> p[0].causationId == Some(p[1].eventId)
    ensures |p| == 1 ==> p[0].causationId == None
  {
    hide InHistory;
    if |p| > 1 {
      var i := 0;
      assert p[i].causationId == Some(p[i + 1].eventId);
    }
  }

  lemma TailChain(h: History, p: seq<Envelope>)
    requires CausalChain(h, p) && |p| > 1
    ensures CausalChain(h, p[1..])
  {
    hide InHistory;
    forall i | 0 <= i < |p[1..]| - 1 ensures p[1..][i].causationId == Some(p[1..][i + 1].eventId) {
      assert p[i + 1].causationId == Some(p[i + 2].eventId);
    }
  }

  /**
   Causation is well founded in every state the source can reach: every chain of causes that starts at a committed
   lineage event stays in its tenant, ends at a supplier.registered event, and has the length of its family.
   */
  lemma CausationIsWellFounded(o: Outside, steps: seq<SourceStep>, e: Envelope, path: seq<Envelope>)
    requires forall i | 0 <= i < |steps| :: StepOk(steps[i])
    requires InHistory(RunSource(o, steps).history, e) && e.Kind() != InventoryItem
    requires CausalChain(RunSource(o, steps).history, path) && path[0] == e
    ensures |path| == Depth(e.Kind())
    ensures forall i | 0 <= i < |path| :: path[i].tenantId == e.tenantId
    ensures path[|path| - 1].payload.SupplierRegistered?
  {
    hide RunSource, Clean, CausalChain, OutboxMatches, ItemsBalanced, OrdersMatch, HopsMatch, Caused, InHistory, StepOk;
    RunSourceKeepsInv(o, steps);
    var h := RunSource(o, steps).history;
    var path' := ChainExists(o.codec, h, e);
    ChainUnique(o.codec, h, path, path');
  }

  // --- batch traces ----------------------------------------------------------------------------------

  /** What TraceBatch returns for a batch that is present. */
  datatype Trace = Trace(batch: HopRow, lot: Option<HopRow>, supplier: Option<HopRow>, shipment: Option<HopRow>)

  function HopAt(db: Db, kind: Kind, tenant: string, id: string): Option<HopRow> {
    var k := HopKey(kind, tenant, id);
    if k in db.hops then Some(db.hops[k]) else None
  }

  ghost predicate Ships(db: Db, tenant: string, batch: string, row: HopRow) {
    exists k :: k in db.hops && k.kind == Shipment && k.tenant == tenant && db.hops[k] == row && row.parent == batch
  }

  /** A row of the left joins from the batch to its lot, its supplier and its shipment. */
  ghost predicate IsTrace(db: Db, tenant: string, batch: string, t: Trace) {
    && HopAt(db, ProductionBatch, tenant, batch) == Some(t.batch)
    && t.lot == HopAt(db, IngredientLot, tenant, t.batch.parent)
    && t.supplier == (if t.lot.None? then None else HopAt(db, Supplier, tenant, t.lot.value.parent))
    && (if t.shipment.Some? then Ships(db, tenant, batch, t.shipment.value)
        else forall row :: !Ships(db, tenant, batch, row))
  }

  /** Adjacent hops of a trace that are both present are linked by causation id = source event id. */
  ghost predicate Linked(t: Trace) {
    && (t.lot.Some? ==> t.batch.causation == Some(t.lot.value.source))
    && (t.supplier.Some? ==> t.lot.Some? && t.lot.value.causation == Some(t.supplier.value.source)
                             && t.supplier.value.causation == None)
    && (t.shipment.Some? ==> t.shipment.value.causation == Some(t.batch.source))
  }

  /** The causation of a projected hop is the source event of its projected parent. */
  lemma ParentLink(c: Codec, h: History, db: Db, k: HopKey)
    requires Clean(c, h) && Caused(h) && CleanDb(c, h, db) && k in db.hops
    ensures k.kind == Supplier ==> db.hops[k].causation == None
    ensures k.kind != Supplier ==>
              var parent := HopKey(ParentKind(k.kind), k.tenant, db.hops[k].parent);
              parent in db.hops ==> db.hops[k].causation == Some(db.hops[parent].source)
  {
    hide UniqueIds, UniqueParents;
    HopCleanFacts(c, h, db, k);
    HopInHistory(c, h, k);
    assert HopCaused(h, k);
    if k.kind != Supplier {
      var parent := HopKey(ParentKind(k.kind), k.tenant, db.hops[k].parent);
      if parent in db.hops {
        HopCleanFacts(c, h, db, parent);
      }
    }
  }

  lemma TraceIsLinked(c: Codec, h: History, db: Db, tenant: string, batch: string, t: Trace)
    requires Clean(c, h) && Caused(h) && CleanDb(c, h, db) && IsTrace(db, tenant, batch, t)
    ensures Linked(t)
  {
    hide Clean, Caused, CleanDb;
    ParentLink(c, h, db, HopKey(ProductionBatch, tenant, batch));
    if t.lot.Some? {
      ParentLink(c, h, db, HopKey(IngredientLot, tenant, t.batch.parent));
      if t.supplier.Some? {
        ParentLink(c, h, db, HopKey(Supplier, tenant, t.lot.value.parent));
      }
    }
    if t.shipment.Some? {
      var k :| k in db.hops && k.kind == Shipment && k.tenant == tenant && db.hops[k] == t.shipment.value
               && t.shipment.value.parent == batch;
      ParentLink(c, h, db, k);
    }
  }

  /** In every state of the whole system, however little has been delivered, every batch trace is linked. */
  lemma EveryTraceIsLinked(o: Outside, steps: seq<E.SystemStep>, tenant: string, batch: string, t: Trace)
    requires o.codec.Lawful() && E.Steps(steps) && IsTrace(E.RunSystem(o, steps).desk.db, tenant, batch, t)
    ensures Linked(t)
  {
    hide E.RunSystem, IsTrace, Linked, Clean, CleanDb, OutboxMatches, ItemsBalanced, OrdersMatch, HopsMatch, Caused,
         E.LogClean, E.Steps;
    E.RunKeepsInv(o, steps);
    var s := E.RunSystem(o, steps);
    TraceIsLinked(o.codec, s.ledger.history, s.desk.db, tenant, batch, t);
  }

  /** Nothing unacknowledged and the parents' events delivered: the trace has its lot and supplier. */
  lemma SettledTraceIsWhole(c: Codec, h: History, s: Session, tenant: string, batch: string, t: Trace)
    requires Clean(c, h) && Caused(h) && Settled(c, h, s) && CleanDb(c, h, s.db)
    requires forall e :: InHistory(h, e) ==> e.eventId in s.delivered
    requires IsTrace(s.db, tenant, batch, t)
    ensures t.lot.Some? && t.supplier.Some?
  {
    hide UniqueIds, UniqueParents, SettledChain, Ships;
    var k := HopKey(ProductionBatch, tenant, batch);
    var lot := PresentParent(c, h, s, k);
    var supplier := PresentParent(c, h, s, lot);
  }

  lemma PresentParent(c: Codec, h: History, s: Session, k: HopKey) returns (parent: HopKey)
    requires Clean(c, h) && Caused(h) && Settled(c, h, s) && CleanDb(c, h, s.db)
    requires forall e :: InHistory(h, e) ==> e.eventId in s.delivered
    requires k in s.db.hops && k.kind != Supplier
    ensures parent == HopKey(ParentKind(k.kind), k.tenant, s.db.hops[k].parent) && parent in s.db.hops
  {
    hide UniqueIds, UniqueParents, SettledChain;
    HopCleanFacts(c, h, s.db, k);
    HopInHistory(c, h, k);
    assert HopCaused(h, k);
    parent := HopKey(ParentKind(k.kind), k.tenant, s.db.hops[k].parent);
    HopInHistory(c, h, parent);
    assert SettledHop(h, s, parent);
  }

  /** When the whole system comes to rest, every batch trace has its lot and its supplier and is linked throughout. */
  lemma RestTraceIsWhole(o: Outside, steps: seq<E.SystemStep>, tenant: string, batch: string, t: Trace)
    requires o.codec.Lawful() && E.Steps(steps) && A.QuietResets(o, steps)
    requires A.Quiescent(o.codec, E.RunSystem(o, steps)) && IsTrace(E.RunSystem(o, steps).desk.db, tenant, batch, t)
    ensures t.lot.Some? && t.supplier.Some? && Linked(t)
  {
    hide E.RunSystem, E.Steps, A.QuietResets, A.Quiescent, A.BooksInv, IsTrace, Linked, Clean, CleanDb, OutboxMatches,
         ItemsBalanced, OrdersMatch, HopsMatch, Caused, E.LogClean, Settled, InHistory;
    E.RunKeepsInv(o, steps);
    A.RunKeepsBooks(o, steps);
    var s := E.RunSystem(o, steps);
    TraceIsLinked(o.codec, s.ledger.history, s.desk.db, tenant, batch, t);
    A.RestIsSettled(o, s);
    forall e | InHistory(s.ledger.history, e) ensures e.eventId in s.desk.delivered {
      A.QuiescentDelivers(o, s, e);
    }
    SettledTraceIsWhole(o.codec, s.ledger.history, A.SessionOf(s.desk), tenant, batch, t);
  }

  /** The projected row of a hop is its event and its source row, column by column. */
  ghost predicate Carries(row: HopRow, e: Envelope, hop: SourceHop) {
    && row.parent == hop.parent && row.item == hop.item && row.order == hop.order
    && row.source == e.eventId && row.version == e.version && row.schema == e.schemaVersion
    && row.occurredAt == e.occurredAt && row.recordedAt == e.recordedAt
    && row.correlation == e.correlationId && row.causation == e.causationId && row.trace == e.traceId
  }

  /** In every state of the whole system a projected hop is a hop of the source, carrying its committed event. */
  lemma EveryHopIsItsEvent(o: Outside, steps: seq<E.SystemStep>, k: HopKey)
    requires o.codec.Lawful() && E.Steps(steps) && k in E.RunSystem(o, steps).desk.db.hops
    ensures var s := E.RunSystem(o, steps);
            && k in s.ledger.history.hops && k in s.ledger.source.hops
            && Carries(s.desk.db.hops[k], s.ledger.history.hops[k], s.ledger.source.hops[k])
  {
    hide E.RunSystem, Clean, CleanDb, OutboxMatches, ItemsBalanced, OrdersMatch, Caused, E.LogClean, E.Steps;
    E.RunKeepsInv(o, steps);
    var s := E.RunSystem(o, steps);
    HopCleanFacts(o.codec, s.ledger.history, s.desk.db, k);
  }

  // --- the trace of a system at rest -----------------------------------------------------------------

  ghost predicate CarriesAt(l: Ledger, k: HopKey, row: HopRow) {
    k in l.source.hops && k in l.history.hops && Carries(row, l.history.hops[k], l.source.hops[k])
  }

  ghost predicate ShipmentOf(l: Ledger, tenant: string, batch: string, k: HopKey) {
    k in l.source.hops && k.kind == Shipment && k.tenant == tenant && l.source.hops[k].parent == batch
  }

  /** The batch of the source with its lot, that lot's supplier, and its shipment if it has been shipped. */
  ghost predicate SourceTrace(l: Ledger, tenant: string, batch: string, t: Trace) {
    && CarriesAt(l, HopKey(ProductionBatch, tenant, batch), t.batch)
    && t.lot.Some? && CarriesAt(l, HopKey(IngredientLot, tenant, t.batch.parent), t.lot.value)
    && t.supplier.Some? && CarriesAt(l, HopKey(Supplier, tenant, t.lot.value.parent), t.supplier.value)
    && (t.shipment.Some? <==> exists k :: ShipmentOf(l, tenant, batch, k))
    && (t.shipment.Some? ==> exists k :: ShipmentOf(l, tenant, batch, k) && CarriesAt(l, k, t.shipment.value))
  }

  /** The projected hops are the source's hops. */
  ghost predicate SameHops(l: Ledger, db: Db) {
    forall k :: (k in db.hops <==> k in l.source.hops) && (k in db.hops ==> CarriesAt(l, k, db.hops[k]))
  }

  lemma RestHops(o: Outside, steps: seq<E.SystemStep>)
    requires o.codec.Lawful() && E.Steps(steps) && A.QuietResets(o, steps) && A.Quiescent(o.codec, E.RunSystem(o, steps))
    ensures SameHops(E.RunSystem(o, steps).ledger, E.RunSystem(o, steps).desk.db)
  {
    hide E.RunSystem, E.Steps, A.QuietResets, A.Quiescent, A.BooksInv, Clean, CleanDb, OutboxMatches, ItemsBalanced,
         OrdersMatch, Caused, E.LogClean, SettledChain, InHistory, Carries;
    E.RunKeepsInv(o, steps);
    A.RunKeepsBooks(o, steps);
    var s := E.RunSystem(o, steps);
    A.RestIsSettled(o, s);
    forall k ensures (k in s.desk.db.hops <==> k in s.ledger.source.hops)
                     && (k in s.desk.db.hops ==> CarriesAt(s.ledger, k, s.desk.db.hops[k]))
    {
      if k in s.ledger.history.hops {
        HopInHistory(o.codec, s.ledger.history, k);
        A.QuiescentDelivers(o, s, s.ledger.history.hops[k]);
        assert SettledHop(s.ledger.history, A.SessionOf(s.desk), k);
      }
      if k in s.desk.db.hops {
        EveryHopIsItsEvent(o, steps, k);
      }
    }
  }

  lemma RowIsCarried(l: Ledger, db: Db, k: HopKey, row: HopRow)
    requires SameHops(l, db)
    ensures k in db.hops && db.hops[k] == row <==> CarriesAt(l, k, row)
  {
  }

  lemma ShipmentShows(l: Ledger, db: Db, tenant: string, batch: string, row: HopRow)
    requires SameHops(l, db)
    ensures Ships(db, tenant, batch, row) <==> exists k :: ShipmentOf(l, tenant, batch, k) && CarriesAt(l, k, row)
  {
    hide Carries;
    forall k ensures k in db.hops && db.hops[k] == row <==> CarriesAt(l, k, row) {
      RowIsCarried(l, db, k, row);
    }
    if k :| ShipmentOf(l, tenant, batch, k) && CarriesAt(l, k, row) {
      ParentIs(l, k, row);
    }
    if k :| k in db.hops && k.kind == Shipment && k.tenant == tenant && db.hops[k] == row && row.parent == batch {
      ParentIs(l, k, row);
      assert ShipmentOf(l, tenant, batch, k) && CarriesAt(l, k, row);
    }
  }

  lemma ParentIs(l: Ledger, k: HopKey, row: HopRow)
    requires CarriesAt(l, k, row)
    ensures row.parent == l.source.hops[k].parent
  {
  }

  /**
   When the whole system comes to rest, the trace of a batch is what the source says of it: there is one exactly if
   the source has the batch, with the committed event and columns of the batch, of its lot and of the lot's supplier,
   and of its shipment exactly if it has one.
   */
  lemma RestTraceIsSource(o: Outside, steps: seq<E.SystemStep>, tenant: string, batch: string, t: Trace)
    requires o.codec.Lawful() && E.Steps(steps) && A.QuietResets(o, steps) && A.Quiescent(o.codec, E.RunSystem(o, steps))
    ensures IsTrace(E.RunSystem(o, steps).desk.db, tenant, batch, t) <==>
            SourceTrace(E.RunSystem(o, steps).ledger, tenant, batch, t)
  {
    hide E.RunSystem, E.Steps, A.QuietResets, A.Quiescent, Linked, SameHops, Ships, ShipmentOf, CarriesAt;
    var s := E.RunSystem(o, steps);
    RestHops(o, steps);
    if IsTrace(s.desk.db, tenant, batch, t) {
      RestTraceIsWhole(o, steps, tenant, batch, t);
    }
    RowIsCarried(s.ledger, s.desk.db, HopKey(ProductionBatch, tenant, batch), t.batch);
    RowIsCarried(s.ledger, s.desk.db, HopKey(IngredientLot, tenant, t.batch.parent), if t.lot.Some? then t.lot.value else t.batch);
    if t.lot.Some? && t.supplier.Some? {
      RowIsCarried(s.ledger, s.desk.db, HopKey(Supplier, tenant, t.lot.value.parent), t.supplier.value);
    }
    ShipmentIsShown(s.ledger, s.desk.db, tenant, batch, t.shipment);
  }

  lemma ShipmentIsShown(l: Ledger, db: Db, tenant: string, batch: string, shipment: Option<HopRow>)
    requires SameHops(l, db)
    ensures (if shipment.Some? then Ships(db, tenant, batch, shipment.value)
             else forall row :: !Ships(db, tenant, batch, row)) <==>
            (shipment.Some? <==> exists k :: ShipmentOf(l, tenant, batch, k))
            && (shipment.Some? ==> exists k :: ShipmentOf(l, tenant, batch, k) && CarriesAt(l, k, shipment.value))
  {
    hide Carries;
    forall row: HopRow
      ensures Ships(db, tenant, batch, row) <==> exists k :: ShipmentOf(l, tenant, batch, k) && CarriesAt(l, k, row)
    {
      ShipmentShows(l, db, tenant, batch, row);
    }
    if k :| ShipmentOf(l, tenant, batch, k) {
      assert Ships(db, tenant, batch, db.hops[k]) by {
        assert CarriesAt(l, k, db.hops[k]);
      }
    }
  }
}
