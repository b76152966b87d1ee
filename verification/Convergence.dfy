/**
 Deliveries drawn from a clean history: what the ERP can emit, in any order, any number of times, with
 transactions that fail and re-drives that stop part way.
 */
module Convergence {
  import opened Events
  import opened Projection

  /** Per item the chain of its events, per lineage aggregate its single event. */
  datatype History = History(chains: map<ItemKey, seq<Envelope>>, hops: map<HopKey, Envelope>)

  function EventAt(h: History, kind: Kind, tenant: string, aggregate: string, version: int): Option<Envelope> {
    if kind == InventoryItem then
      var k := ItemKey(tenant, aggregate);
      if k in h.chains && 1 <= version <= |h.chains[k]| then Some(h.chains[k][version - 1]) else None
    else
      var k := HopKey(kind, tenant, aggregate);
      if k in h.hops && version == 1 then Some(h.hops[k]) else None
  }

  predicate InHistory(h: History, e: Envelope) {
    EventAt(h, e.Kind(), e.tenantId, e.aggregateId, e.version) == Some(e)
  }

  /** Versions 1..n of one item, each quantity-before equal to the previous quantity-after. */
  ghost predicate CleanChain(c: Codec, k: ItemKey, es: seq<Envelope>) {
    && (forall i | 0 <= i < |es| ::
          && es[i].payload.QuantityDecremented?
          && ItemKeyOf(es[i]) == k
          && es[i].version == i + 1
          && c.valid(es[i]))
    && (forall i | 1 <= i < |es| :: es[i].payload.before == es[i - 1].payload.after)
  }

  ghost predicate CleanHop(c: Codec, k: HopKey, e: Envelope) {
    && !e.payload.QuantityDecremented?
    && HopKeyOf(e) == k
    && e.version == 1
    && c.valid(e)
  }

  ghost predicate UniqueIds(h: History) {
    forall a, b :: InHistory(h, a) && InHistory(h, b) && a.eventId == b.eventId ==> a == b
  }

  ghost predicate UniqueParents(h: History) {
    forall k, k' | k in h.hops && k' in h.hops && k != k' && k.kind == k'.kind && k.tenant == k'.tenant ::
      !SharesParent(k.kind, HopOf(h.hops[k]), HopOf(h.hops[k']))
  }

  ghost predicate Clean(c: Codec, h: History) {
    && (forall k | k in h.chains :: CleanChain(c, k, h.chains[k]))
    && (forall k | k in h.hops :: CleanHop(c, k, h.hops[k]))
    && UniqueIds(h)
    && UniqueParents(h)
  }

  // --- states of a consumer that has only seen a clean history ---------------------------------------

  predicate IsDone(d: Disposition) { d == Applied || d == DuplicateNoop }

  /** The row belongs to an event of the history; it is done up to the projected version and a gap beyond it. */
  ghost predicate RowClean(c: Codec, h: History, db: Db, id: string)
    requires id in db.inbox
  {
    var row := db.inbox[id];
    var at := EventAt(h, row.kind, row.tenant, row.aggregate, row.version);
    && at.Some?
    && at.value.eventId == id
    && row.hash == c.Hash(at.value)
    && if row.kind == InventoryItem then
         if row.version <= VersionOf(db.items, ItemKey(row.tenant, row.aggregate)) then IsDone(row.disposition)
         else row.disposition == Gap && row.bytes == Some(c.print_(at.value))
       else
         IsDone(row.disposition) && HopKey(row.kind, row.tenant, row.aggregate) in db.hops
  }

  /** The projection row is the source item at its version, and every event up to there has an inbox row. */
  ghost predicate ItemClean(h: History, db: Db, k: ItemKey)
    requires k in db.items
  {
    && k in h.chains
    && 1 <= db.items[k].version <= |h.chains[k]|
    && h.chains[k][db.items[k].version - 1].payload.QuantityDecremented?
    && db.items[k].quantity == h.chains[k][db.items[k].version - 1].payload.after
    && (forall i | 0 <= i < db.items[k].version :: h.chains[k][i].eventId in db.inbox)
  }

  ghost predicate HopClean(h: History, db: Db, k: HopKey)
    requires k in db.hops
  {
    && k in h.hops
    && db.hops[k] == HopOf(h.hops[k])
    && h.hops[k].eventId in db.inbox
  }

  ghost predicate CleanDb(c: Codec, h: History, db: Db) {
    && (forall id | id in db.inbox :: RowClean(c, h, db, id))
    && (forall k | k in db.items :: ItemClean(h, db, k))
    && (forall k | k in db.hops :: HopClean(h, db, k))
    && db.failures == map[]
  }

  /** What a transaction over an event of the history does, told by the item's version alone. */
  ghost predicate CleanEffect(c: Codec, db: Db, e: Envelope, db': Db, d: Disposition) {
    && db'.inbox.Keys == db.inbox.Keys + {e.eventId}
    && (forall id | id in db.inbox && id != e.eventId :: db'.inbox[id] == db.inbox[id])
    && db'.failures == db.failures
    && var row := db'.inbox[e.eventId];
    && row.tenant == e.tenantId && row.kind == e.Kind() && row.aggregate == e.aggregateId
    && row.version == e.version && row.hash == c.Hash(e) && row.disposition == d
    && if e.payload.QuantityDecremented? then
         var k := ItemKeyOf(e);
         var v := VersionOf(db.items, k);
         && db'.hops == db.hops
         && d == (if e.version <= v then DuplicateNoop else if e.version == v + 1 then Applied else Gap)
         && db'.items == (if d == Applied then db.items[k := ItemRow(e.payload.after, e.version)] else db.items)
         && (d == Gap ==> row.bytes == Some(c.print_(e)))
       else
         && db'.items == db.items
         && d == (if e.eventId in db.inbox then DuplicateNoop else Applied)
         && db'.hops == (if d == Applied then db.hops[HopKeyOf(e) := HopOf(e)] else db.hops)
  }

  lemma RowOfEvent(c: Codec, h: History, db: Db, e: Envelope)
    requires Clean(c, h) && CleanDb(c, h, db) && InHistory(h, e)
    requires e.eventId in db.inbox
    ensures var row := db.inbox[e.eventId];
            && row.kind == e.Kind() && row.tenant == e.tenantId && row.aggregate == e.aggregateId
            && row.version == e.version && row.hash == c.Hash(e)
  {
    assert RowClean(c, h, db, e.eventId);
    var row := db.inbox[e.eventId];
    var at := EventAt(h, row.kind, row.tenant, row.aggregate, row.version).value;
    EventAtInHistory(c, h, row.kind, row.tenant, row.aggregate, row.version);
    assert InHistory(h, at);
  }

  lemma EventAtInHistory(c: Codec, h: History, kind: Kind, tenant: string, aggregate: string, version: int)
    requires Clean(c, h) && EventAt(h, kind, tenant, aggregate, version).Some?
    ensures var e := EventAt(h, kind, tenant, aggregate, version).value;
            && e.Kind() == kind && e.tenantId == tenant && e.aggregateId == aggregate && e.version == version
            && InHistory(h, e)
            && c.valid(e)
  {
    if kind == InventoryItem {
      assert CleanChain(c, ItemKey(tenant, aggregate), h.chains[ItemKey(tenant, aggregate)]);
    } else {
      assert CleanHop(c, HopKey(kind, tenant, aggregate), h.hops[HopKey(kind, tenant, aggregate)]);
    }
  }

  lemma InHistoryValid(c: Codec, h: History, e: Envelope)
    requires c.Lawful() && Clean(c, h) && InHistory(h, e)
    ensures c.valid(e) && Sound(e) && c.parse(c.print_(e)) == Ok(e) && c.print_(e) != ""
    ensures !e.payload.QuantityDecremented? ==> e.version == 1
  {
    EventAtInHistory(c, h, e.Kind(), e.tenantId, e.aggregateId, e.version);
  }

  /** What the tables say about one inventory event of the history. */
  ghost predicate InventoryFacts(c: Codec, db: Db, e: Envelope) {
    var k := ItemKeyOf(e);
    var v := VersionOf(db.items, k);
    && (k in db.items ==> v >= 1)
    && (e.eventId in db.inbox ==>
          var row := db.inbox[e.eventId];
          row.hash == c.Hash(e) && if e.version <= v then IsDone(row.disposition) else row.disposition == Gap)
    && (e.eventId !in db.inbox ==> e.version > v)
    && (k in db.items && e.version == v + 1 ==>
          e.payload.QuantityDecremented? && e.payload.before == db.items[k].quantity)
  }

  lemma CleanInventoryFacts(c: Codec, h: History, db: Db, e: Envelope)
    requires Clean(c, h) && CleanDb(c, h, db) && InHistory(h, e)
    requires e.payload.QuantityDecremented?
    ensures InventoryFacts(c, db, e)
  {
    hide UniqueIds, UniqueParents, Codec.Hash;
    var k := ItemKeyOf(e);
    assert CleanChain(c, k, h.chains[k]);
    if e.eventId in db.inbox {
      RowOfEvent(c, h, db, e);
      assert RowClean(c, h, db, e.eventId);
    }
    if k in db.items {
      assert ItemClean(h, db, k);
      var v := db.items[k].version;
      if e.version == v + 1 {
        assert h.chains[k][v].payload.before == h.chains[k][v - 1].payload.after;
      } else if e.version <= v {
        assert h.chains[k][e.version - 1].eventId in db.inbox;
      }
    }
  }

  /** Writing a row other than a conflict leaves that row as given and the others alone. */
  lemma RecordShape(c: Codec, db: Db, e: Envelope, d: Disposition, expected: Option<int>)
    requires d != Conflict
    ensures var db' := Record(c, db, e, d, expected);
            && db'.inbox.Keys == db.inbox.Keys + {e.eventId}
            && (forall id | id in db.inbox && id != e.eventId :: db'.inbox[id] == db.inbox[id])
            && db'.inbox[e.eventId] == RowOf(c, e, d, expected)
            && db'.items == db.items && db'.hops == db.hops && db'.failures == db.failures
  {
  }

  lemma ProjectionEffect(c: Codec, db: Db, e: Envelope)
    requires Sound(e) && c.print_(e) != "" && e.payload.QuantityDecremented? && InventoryFacts(c, db, e)
    requires e.version > VersionOf(db.items, ItemKeyOf(e))
    ensures var (db', d) := ApplyProjection(c, db, e);
            CleanEffect(c, db, e, db', d)
  {
    hide Record, Codec.Hash;
    var k := ItemKeyOf(e);
    RecordShape(c, db, e, Gap, Some(VersionOf(db.items, k) + 1));
    RecordShape(c, db.(items := db.items[k := ItemRow(e.payload.after, e.version)]), e, Applied, None);
  }

  lemma InventoryEffect(c: Codec, db: Db, e: Envelope)
    requires Sound(e) && c.print_(e) != "" && e.payload.QuantityDecremented? && InventoryFacts(c, db, e)
    ensures var (db', d) := ProcessValidated(c, db, e);
            CleanEffect(c, db, e, db', d)
  {
    hide Record, Codec.Hash, ApplyProjection;
    if e.version > VersionOf(db.items, ItemKeyOf(e)) {
      ProjectionEffect(c, db, e);
    } else {
      RecordShape(c, db, e, DuplicateNoop, None);
    }
  }

  /** What the tables say about one traceability event of the history. */
  ghost predicate LineageFacts(c: Codec, db: Db, e: Envelope) {
    if e.eventId in db.inbox then
      db.inbox[e.eventId].hash == c.Hash(e) && IsDone(db.inbox[e.eventId].disposition)
    else
      !HopCollides(db.hops, HopKeyOf(e), HopOf(e))
  }

  lemma CleanLineageFacts(c: Codec, h: History, db: Db, e: Envelope)
    requires Clean(c, h) && CleanDb(c, h, db) && InHistory(h, e)
    requires !e.payload.QuantityDecremented?
    ensures LineageFacts(c, db, e)
  {
    hide UniqueIds, HopOf, SharesParent, Codec.Hash;
    var k := HopKeyOf(e);
    if e.eventId in db.inbox {
      RowOfEvent(c, h, db, e);
      assert RowClean(c, h, db, e.eventId);
    } else {
      forall k' | k' in db.hops
        ensures k' != k
        ensures k'.kind == k.kind && k'.tenant == k.tenant ==> !SharesParent(k.kind, db.hops[k'], HopOf(e))
      {
        assert HopClean(h, db, k');
      }
    }
  }

  lemma LineageEffect(c: Codec, db: Db, e: Envelope)
    requires !e.payload.QuantityDecremented? && e.version == 1 && LineageFacts(c, db, e)
    ensures var (db', d) := ProcessValidated(c, db, e);
            CleanEffect(c, db, e, db', d)
  {
    hide HopOf, SharesParent, ApplyProjection;
    if e.eventId !in db.inbox {
      assert HopKeyOf(e) !in db.hops;
    }
  }

  lemma EffectKeepsItems(c: Codec, h: History, db: Db, e: Envelope, db': Db, d: Disposition)
    requires CleanDb(c, h, db) && InHistory(h, e)
    requires CleanEffect(c, db, e, db', d)
    ensures forall k | k in db'.items :: ItemClean(h, db', k)
  {
    hide RowClean, HopClean, HopOf;
    forall k | k in db'.items ensures ItemClean(h, db', k) {
      if k in db.items {
        assert ItemClean(h, db, k);
      }
    }
  }

  lemma EffectKeepsHops(c: Codec, h: History, db: Db, e: Envelope, db': Db, d: Disposition)
    requires CleanDb(c, h, db) && InHistory(h, e)
    requires CleanEffect(c, db, e, db', d)
    ensures forall k | k in db'.hops :: HopClean(h, db', k)
  {
    hide RowClean, ItemClean, HopOf;
    forall k | k in db'.hops ensures HopClean(h, db', k) {
      if k in db.hops {
        assert HopClean(h, db, k);
      }
    }
  }

  lemma EffectKeepsOtherRow(c: Codec, h: History, db: Db, e: Envelope, db': Db, d: Disposition, id: string)
    requires Clean(c, h) && InHistory(h, e)
    requires CleanEffect(c, db, e, db', d)
    requires id in db.inbox && id != e.eventId && RowClean(c, h, db, id)
    ensures RowClean(c, h, db', id)
  {
    hide UniqueIds, UniqueParents, HopOf;
    EventAtInHistory(c, h, e.Kind(), e.tenantId, e.aggregateId, e.version);
    var row := db.inbox[id];
    EventAtInHistory(c, h, row.kind, row.tenant, row.aggregate, row.version);
  }

  lemma EffectOwnRow(c: Codec, h: History, db: Db, e: Envelope, db': Db, d: Disposition)
    requires Clean(c, h) && CleanDb(c, h, db) && InHistory(h, e)
    requires CleanEffect(c, db, e, db', d)
    ensures RowClean(c, h, db', e.eventId)
  {
    hide UniqueIds, UniqueParents, HopOf, ItemClean, HopClean;
    if !e.payload.QuantityDecremented? && d != Applied {
      RowOfEvent(c, h, db, e);
      assert RowClean(c, h, db, e.eventId);
    }
  }

  lemma EffectKeepsClean(c: Codec, h: History, db: Db, e: Envelope, db': Db, d: Disposition)
    requires Clean(c, h) && CleanDb(c, h, db) && InHistory(h, e)
    requires CleanEffect(c, db, e, db', d)
    ensures CleanDb(c, h, db')
  {
    hide Clean, RowClean, ItemClean, HopClean, HopOf, InHistory;
    EffectKeepsItems(c, h, db, e, db', d);
    EffectKeepsHops(c, h, db, e, db', d);
    forall id | id in db'.inbox ensures RowClean(c, h, db', id) {
      if id == e.eventId {
        EffectOwnRow(c, h, db, e, db', d);
      } else {
        EffectKeepsOtherRow(c, h, db, e, db', d, id);
      }
    }
  }

  lemma CleanTransaction(c: Codec, h: History, db: Db, e: Envelope)
    requires c.Lawful() && Clean(c, h) && CleanDb(c, h, db) && InHistory(h, e)
    ensures var (db', d) := ProcessValidated(c, db, e);
            CleanEffect(c, db, e, db', d) && CleanDb(c, h, db')
  {
    hide ProcessValidated, Clean, CleanDb, CleanEffect, InHistory, InventoryFacts, LineageFacts;
    InHistoryValid(c, h, e);
    if e.payload.QuantityDecremented? {
      CleanInventoryFacts(c, h, db, e);
      InventoryEffect(c, db, e);
    } else {
      CleanLineageFacts(c, h, db, e);
      LineageEffect(c, db, e);
    }
    var (db', d) := ProcessValidated(c, db, e);
    EffectKeepsClean(c, h, db, e, db', d);
  }

  // --- re-drive ----------------------------------------------------------------------------------

  /** The event after the projected version is waiting in the inbox. */
  predicate NextWaits(h: History, db: Db, k: ItemKey) {
    var v := VersionOf(db.items, k);
    k in h.chains && 0 <= v < |h.chains[k]| && h.chains[k][v].eventId in db.inbox
  }

  /** The waiting event's row holds exactly that event. */
  ghost predicate NextFacts(c: Codec, h: History, db: Db, k: ItemKey)
    requires k in db.items && NextWaits(h, db, k)
  {
    var e := h.chains[k][db.items[k].version];
    && InHistory(h, e) && c.valid(e) && e.payload.QuantityDecremented? && ItemKeyOf(e) == k
    && e.version == db.items[k].version + 1
    && var row := db.inbox[e.eventId];
    && row.bytes == Some(c.print_(e)) && row.hash == c.Hash(e) && row.disposition == Gap
    && row.kind == InventoryItem && row.tenant == k.tenant && row.aggregate == k.item && row.version == e.version
  }

  lemma CleanNextFacts(c: Codec, h: History, db: Db, k: ItemKey)
    requires Clean(c, h) && CleanDb(c, h, db) && k in db.items && NextWaits(h, db, k)
    ensures NextFacts(c, h, db, k)
  {
    hide UniqueIds, UniqueParents, HopClean, Codec.Hash;
    var v := db.items[k].version;
    EventAtInHistory(c, h, InventoryItem, k.tenant, k.item, v + 1);
    RowOfEvent(c, h, db, h.chains[k][v]);
    assert RowClean(c, h, db, h.chains[k][v].eventId);
  }

  lemma CandidateWaits(c: Codec, h: History, db: Db, k: ItemKey, id: string)
    requires k in db.items && ItemClean(h, db, k)
    requires id in GapCandidates(db, InventoryItem, k.tenant, k.item) && RowClean(c, h, db, id)
    ensures NextWaits(h, db, k) && id == h.chains[k][db.items[k].version].eventId
  {
  }

  /** The rows selected for re-drive are the one waiting row, if there is one. */
  lemma Candidates(c: Codec, h: History, db: Db, k: ItemKey)
    requires CleanDb(c, h, db) && k in db.items
    requires NextWaits(h, db, k) ==> NextFacts(c, h, db, k)
    ensures GapCandidates(db, InventoryItem, k.tenant, k.item) ==
            if NextWaits(h, db, k) then {h.chains[k][db.items[k].version].eventId} else {}
  {
    var cs := GapCandidates(db, InventoryItem, k.tenant, k.item);
    var v := db.items[k].version;
    forall id | id in cs ensures NextWaits(h, db, k) && id == h.chains[k][v].eventId {
      CandidateWaits(c, h, db, k, id);
    }
    if NextWaits(h, db, k) {
      assert h.chains[k][v].eventId in cs;
    }
  }

  /** What a re-drive of one item may have done: moved that item forward over events already in the inbox. */
  ghost predicate Redrove(h: History, db: Db, db': Db, k: ItemKey) {
    && db'.inbox.Keys == db.inbox.Keys
    && db'.hops == db.hops
    && k in db'.items
    && VersionOf(db'.items, k) >= VersionOf(db.items, k)
    && (forall k' | k' != k :: (k' in db'.items <==> k' in db.items) && (k' in db.items ==> db'.items[k'] == db.items[k']))
  }

  /** The transaction a re-drive of the item starts with when the next event waits. */
  ghost predicate NextStep(c: Codec, h: History, db: Db, k: ItemKey, db': Db)
    requires k in db.items && NextWaits(h, db, k)
  {
    var e := h.chains[k][db.items[k].version];
    InHistory(h, e) && (db', Applied) == ProcessValidated(c, db, e) && CleanEffect(c, db, e, db', Applied)
  }

  lemma NextApplies(c: Codec, h: History, db: Db, k: ItemKey) returns (db': Db)
    requires c.Lawful() && Clean(c, h) && CleanDb(c, h, db) && k in db.items && NextWaits(h, db, k)
    ensures NextStep(c, h, db, k, db') && CleanDb(c, h, db') && k in db'.items
  {
    hide ProcessValidated, Clean, CleanDb, InHistory, GapCandidates, Codec.Hash;
    CleanNextFacts(c, h, db, k);
    var e := h.chains[k][db.items[k].version];
    CleanTransaction(c, h, db, e);
    db' := ProcessValidated(c, db, e).0;
  }

  /** One iteration of the re-drive of an item in a clean state. */
  lemma RedriveStep(c: Codec, h: History, db: Db, k: ItemKey, budget: nat, tie: TieBreak, db': Db)
    requires c.Lawful() && Clean(c, h) && CleanDb(c, h, db) && k in db.items
    requires NextWaits(h, db, k) ==> NextStep(c, h, db, k, db')
    ensures !NextWaits(h, db, k) || budget < 2 ==>
              Redrive(c, db, InventoryItem, k.tenant, k.item, budget, tie)
              == Redriven(db, budget > 0 && !NextWaits(h, db, k), [])
    ensures NextWaits(h, db, k) && budget >= 2 ==>
              var rest := Redrive(c, db', InventoryItem, k.tenant, k.item, budget - 2, tie);
              var r := Redrive(c, db, InventoryItem, k.tenant, k.item, budget, tie);
              r.db == rest.db && r.ok == rest.ok
  {
    hide ProcessValidated, Clean, CleanDb, GapCandidates, InHistory, CleanEffect, Codec.Hash;
    if NextWaits(h, db, k) {
      CleanNextFacts(c, h, db, k);
    }
    Candidates(c, h, db, k);
    if NextWaits(h, db, k) {
      var e := h.chains[k][db.items[k].version];
      assert tie(GapCandidates(db, InventoryItem, k.tenant, k.item)) == e.eventId;
      assert c.parse(c.print_(e)) == Ok(e);
    }
  }

  lemma {:induction false} CleanRedrive(c: Codec, h: History, db: Db, k: ItemKey, budget: nat, tie: TieBreak)
    requires c.Lawful() && Clean(c, h) && CleanDb(c, h, db) && k in db.items
    ensures var r := Redrive(c, db, InventoryItem, k.tenant, k.item, budget, tie);
            && CleanDb(c, h, r.db)
            && Redrove(h, db, r.db, k)
            && (r.ok ==> !NextWaits(h, r.db, k))
    decreases budget
  {
    hide ProcessValidated, Clean, CleanDb, InHistory, Redrive, Codec.Lawful, Codec.Hash;
    var db' := db;
    if NextWaits(h, db, k) {
      db' := NextApplies(c, h, db, k);
    }
    RedriveStep(c, h, db, k, budget, tie, db');
    if NextWaits(h, db, k) && budget >= 2 {
      CleanNextFacts(c, h, db, k);
      NextMoves(c, h, db, k, db');
      CleanRedrive(c, h, db', k, budget - 2, tie);
    }
  }

  lemma NextMoves(c: Codec, h: History, db: Db, k: ItemKey, db': Db)
    requires k in db.items && NextWaits(h, db, k) && NextFacts(c, h, db, k) && NextStep(c, h, db, k, db')
    ensures Redrove(h, db, db', k)
  {
    hide ProcessValidated, InHistory, HopOf;
  }

  lemma LineageRedrive(c: Codec, h: History, db: Db, kind: Kind, tenant: string, aggregate: string, budget: nat, tie: TieBreak)
    requires CleanDb(c, h, db) && kind != InventoryItem
    ensures Redrive(c, db, kind, tenant, aggregate, budget, tie) == Redriven(db, budget > 0, [])
  {
    hide ProcessValidated;
    var cs := GapCandidates(db, kind, tenant, aggregate);
    forall id | id in db.inbox ensures id !in cs {
      assert RowClean(c, h, db, id);
    }
    assert cs == {};
  }

  // --- sessions ----------------------------------------------------------------------------------

  /** A delivery of an event of the history, as the relay publishes it. */
  datatype Arrival = Arrival(event: Envelope, pos: Position, budget: nat, tie: TieBreak)

  function DeliveryOf(c: Codec, a: Arrival): Delivery {
    Delivery(AggregateKey(a.event.tenantId, a.event.aggregateType, a.event.aggregateId), c.print_(a.event),
             a.pos, None, a.budget, a.tie)
  }

  /** The derived tables, the ids delivered so far, and the ids whose latest delivery was not acknowledged. */
  datatype Session = Session(db: Db, delivered: set<string>, unacked: set<string>)

  const FRESH: Session := Session(EMPTY_DB, {}, {})

  function Arrive(c: Codec, s: Session, a: Arrival): Session {
    var o := ProcessRecord(c, s.db, DeliveryOf(c, a));
    Session(o.db, s.delivered + {a.event.eventId},
            if o.ack then s.unacked - {a.event.eventId} else s.unacked + {a.event.eventId})
  }

  function Consume(c: Codec, s: Session, arrivals: seq<Arrival>): Session {
    if arrivals == [] then s
    else Arrive(c, Consume(c, s, arrivals[..|arrivals| - 1]), arrivals[|arrivals| - 1])
  }

  /** Some applied event of the item is owed an acknowledgement. */
  ghost predicate Owed(h: History, s: Session, k: ItemKey)
    requires k in h.chains
  {
    exists i :: 0 <= i < VersionOf(s.db.items, k) && i < |h.chains[k]| && h.chains[k][i].eventId in s.unacked
  }

  ghost predicate AckInv(h: History, s: Session) {
    && s.db.inbox.Keys <= s.delivered
    && s.delivered <= s.db.inbox.Keys + s.unacked
    && (forall k | k in h.chains && NextWaits(h, s.db, k) :: Owed(h, s, k))
  }

  ghost predicate SessionInv(c: Codec, h: History, s: Session) {
    CleanDb(c, h, s.db) && AckInv(h, s)
  }

  /** What one arrival does to the tables. */
  lemma ArrivalEffect(c: Codec, h: History, db: Db, a: Arrival)
    requires c.Lawful() && Clean(c, h) && CleanDb(c, h, db) && InHistory(h, a.event)
    ensures var o := ProcessRecord(c, db, DeliveryOf(c, a));
            var e := a.event;
            && CleanDb(c, h, o.db)
            && (a.budget == 0 ==> o.db == db && !o.ack)
            && (a.budget > 0 ==>
                  && o.db.inbox.Keys == db.inbox.Keys + {e.eventId}
                  && var (db', d) := ProcessValidated(c, db, e);
                  && CleanEffect(c, db, e, db', d)
                  && if e.payload.QuantityDecremented? && IsDone(d) then
                       Redrove(h, db', o.db, ItemKeyOf(e)) && (o.ack ==> !NextWaits(h, o.db, ItemKeyOf(e)))
                     else o.db == db')
  {
    hide ProcessValidated, Clean, CleanDb, Redrive, AggregateKey, UniqueIds, UniqueParents, Redrove, NextWaits;
    var e := a.event;
    InHistoryValid(c, h, e);
    if a.budget > 0 {
      CleanTransaction(c, h, db, e);
      var (db', d) := ProcessValidated(c, db, e);
      if IsDone(d) {
        if e.payload.QuantityDecremented? {
          DoneHasItem(c, h, db, e, db', d);
          CleanRedrive(c, h, db', ItemKeyOf(e), a.budget - 1, a.tie);
          RedroveKeys(h, db', Redrive(c, db', e.Kind(), e.tenantId, e.aggregateId, a.budget - 1, a.tie).db, ItemKeyOf(e));
        } else {
          LineageRedrive(c, h, db', e.Kind(), e.tenantId, e.aggregateId, a.budget - 1, a.tie);
        }
      }
    }
  }

  lemma RedroveKeys(h: History, db: Db, db': Db, k: ItemKey)
    requires Redrove(h, db, db', k)
    ensures db'.inbox.Keys == db.inbox.Keys
  {
  }

  lemma DoneHasItem(c: Codec, h: History, db: Db, e: Envelope, db': Db, d: Disposition)
    requires CleanEffect(c, db, e, db', d) && IsDone(d) && e.payload.QuantityDecremented? && e.version >= 1
    ensures ItemKeyOf(e) in db'.items
  {
  }

  lemma OtherId(c: Codec, h: History, k: ItemKey, i: nat, e: Envelope)
    requires Clean(c, h) && InHistory(h, e) && k in h.chains && i < |h.chains[k]|
    requires !(e.payload.QuantityDecremented? && ItemKeyOf(e) == k && e.version == i + 1)
    ensures h.chains[k][i].eventId != e.eventId
  {
    EventAtInHistory(c, h, InventoryItem, k.tenant, k.item, i + 1);
  }

  /** An event that is not among the item's applied ones leaves the item's obligation as it was. */
  lemma OwedElsewhere(c: Codec, h: History, s: Session, s': Session, k: ItemKey, e: Envelope)
    requires Clean(c, h) && InHistory(h, e) && k in h.chains
    requires VersionOf(s'.db.items, k) == VersionOf(s.db.items, k)
    requires s.unacked - {e.eventId} <= s'.unacked
    requires !(e.payload.QuantityDecremented? && ItemKeyOf(e) == k && e.version <= VersionOf(s.db.items, k))
    requires Owed(h, s, k)
    ensures Owed(h, s', k)
  {
    hide Clean, InHistory;
    var i :| 0 <= i < VersionOf(s.db.items, k) && i < |h.chains[k]| && h.chains[k][i].eventId in s.unacked;
    OtherId(c, h, k, i, e);
  }

  /** The item's next event waits after the arrival only if it waited before, unless the arrival moved the item. */
  lemma WaitsElsewhere(c: Codec, h: History, db: Db, db': Db, k: ItemKey, e: Envelope)
    requires Clean(c, h) && InHistory(h, e)
    requires VersionOf(db'.items, k) == VersionOf(db.items, k)
    requires db'.inbox.Keys <= db.inbox.Keys + {e.eventId}
    requires !(e.payload.QuantityDecremented? && ItemKeyOf(e) == k && e.version == VersionOf(db.items, k) + 1)
    requires NextWaits(h, db', k)
    ensures NextWaits(h, db, k)
  {
    hide Clean, InHistory;
    OtherId(c, h, k, VersionOf(db.items, k), e);
  }

  lemma OwedMonotone(h: History, s: Session, s': Session, k: ItemKey)
    requires k in h.chains && s'.db == s.db && s.unacked <= s'.unacked && Owed(h, s, k)
    ensures Owed(h, s', k)
  {
  }

  lemma ArriveKeepsObligation(c: Codec, h: History, s: Session, a: Arrival, k: ItemKey)
    requires c.Lawful() && Clean(c, h) && SessionInv(c, h, s) && InHistory(h, a.event)
    requires k in h.chains && NextWaits(h, Arrive(c, s, a).db, k)
    ensures Owed(h, Arrive(c, s, a), k)
  {
    hide ProcessRecord, ProcessValidated, Clean, CleanDb, NextWaits, Owed, DeliveryOf, InHistory;
    var s' := Arrive(c, s, a);
    var e := a.event;
    ArrivalEffect(c, h, s.db, a);
    var (db', d) := ProcessValidated(c, s.db, e);
    if a.budget == 0 {
      OwedMonotone(h, s, s', k);
    } else if e.payload.QuantityDecremented? && IsDone(d) && ItemKeyOf(e) == k {
      assert e.eventId in s'.unacked;
      ObligationOfDone(c, h, s.db, e, db', d, s', k);
    } else {
      WaitsElsewhere(c, h, s.db, s'.db, k, e);
      OwedElsewhere(c, h, s, s', k, e);
    }
  }

  lemma ObligationOfDone(c: Codec, h: History, db: Db, e: Envelope, db': Db, d: Disposition, s': Session, k: ItemKey)
    requires InHistory(h, e) && e.payload.QuantityDecremented? && ItemKeyOf(e) == k && k in h.chains
    requires CleanEffect(c, db, e, db', d) && IsDone(d) && Redrove(h, db', s'.db, k)
    requires e.eventId in s'.unacked
    ensures Owed(h, s', k)
  {
    var i := e.version - 1;
    assert h.chains[k][i] == e;
  }

  lemma ArriveKeepsInv(c: Codec, h: History, s: Session, a: Arrival)
    requires c.Lawful() && Clean(c, h) && SessionInv(c, h, s) && InHistory(h, a.event)
    ensures SessionInv(c, h, Arrive(c, s, a))
  {
    hide ProcessRecord, ProcessValidated, Clean, CleanDb, NextWaits, Owed, DeliveryOf, InHistory, CleanEffect, Redrove;
    var s' := Arrive(c, s, a);
    ArrivalEffect(c, h, s.db, a);
    forall k | k in h.chains && NextWaits(h, s'.db, k) ensures Owed(h, s', k) {
      ArriveKeepsObligation(c, h, s, a, k);
    }
  }

  ghost predicate AllFrom(h: History, arrivals: seq<Arrival>) {
    forall i | 0 <= i < |arrivals| :: InHistory(h, arrivals[i].event)
  }

  lemma FreshInv(c: Codec, h: History)
    ensures SessionInv(c, h, FRESH)
  {
  }

  lemma {:induction false} ConsumeKeepsInv(c: Codec, h: History, s: Session, arrivals: seq<Arrival>)
    requires c.Lawful() && Clean(c, h) && SessionInv(c, h, s) && AllFrom(h, arrivals)
    ensures SessionInv(c, h, Consume(c, s, arrivals))
  {
    hide Arrive, Clean, SessionInv, InHistory;
    if arrivals != [] {
      ConsumeKeepsInv(c, h, s, arrivals[..|arrivals| - 1]);
      ArriveKeepsInv(c, h, Consume(c, s, arrivals[..|arrivals| - 1]), arrivals[|arrivals| - 1]);
    }
  }

  /**
   Acknowledgement obligation, over every run with failed transactions and interrupted re-drives: whenever the
   inbox holds the event after an item's projected version, some already applied event of that item has its
   latest delivery unacknowledged.
   */
  lemma AckObligation(c: Codec, h: History, arrivals: seq<Arrival>, k: ItemKey)
    requires c.Lawful() && Clean(c, h) && AllFrom(h, arrivals) && k in h.chains
    ensures var s := Consume(c, FRESH, arrivals);
            NextWaits(h, s.db, k) ==> Owed(h, s, k)
  {
    hide Consume, CleanDb, NextWaits, Owed;
    FreshInv(c, h);
    ConsumeKeepsInv(c, h, FRESH, arrivals);
  }

  /** Length of the longest prefix of the chain whose event ids are all in `delivered`. */
  function Prefix(es: seq<Envelope>, delivered: set<string>): nat {
    if es == [] || es[0].eventId !in delivered then 0 else 1 + Prefix(es[1..], delivered)
  }

  lemma {:induction false} PrefixIs(es: seq<Envelope>, delivered: set<string>, n: nat)
    requires n <= |es|
    requires forall i | 0 <= i < n :: es[i].eventId in delivered
    requires n < |es| ==> es[n].eventId !in delivered
    ensures Prefix(es, delivered) == n
  {
    if n > 0 {
      forall i | 0 <= i < n - 1 ensures es[1..][i].eventId in delivered {
        assert es[1..][i] == es[i + 1];
      }
      PrefixIs(es[1..], delivered, n - 1);
    }
  }

  /** Row of the i-th event of an item: done within the delivered prefix, a gap with its bytes beyond it. */
  ghost predicate SettledEvent(c: Codec, h: History, s: Session, k: ItemKey, i: nat)
    requires k in h.chains && i < |h.chains[k]|
  {
    var id := h.chains[k][i].eventId;
    && id in s.db.inbox
    && if i < Prefix(h.chains[k], s.delivered) then IsDone(s.db.inbox[id].disposition)
       else s.db.inbox[id].disposition == Gap && s.db.inbox[id].bytes == Some(c.print_(h.chains[k][i]))
  }

  ghost predicate SettledChain(c: Codec, h: History, s: Session, k: ItemKey)
    requires k in h.chains
  {
    var n := Prefix(h.chains[k], s.delivered);
    && n <= |h.chains[k]|
    && (k in s.db.items <==> n > 0)
    && (n > 0 ==> h.chains[k][n - 1].payload.QuantityDecremented?
                  && s.db.items[k] == ItemRow(h.chains[k][n - 1].payload.after, n))
    && (forall i | 0 <= i < |h.chains[k]| && h.chains[k][i].eventId in s.delivered :: SettledEvent(c, h, s, k, i))
  }

  ghost predicate SettledHop(h: History, s: Session, k: HopKey)
    requires k in h.hops
  {
    && (k in s.db.hops <==> h.hops[k].eventId in s.delivered)
    && (k in s.db.hops ==>
          && s.db.hops[k] == HopOf(h.hops[k])
          && h.hops[k].eventId in s.db.inbox
          && IsDone(s.db.inbox[h.hops[k].eventId].disposition))
  }

  /** The whole state a set of delivered events leads to when nothing is left unacknowledged. */
  ghost predicate Settled(c: Codec, h: History, s: Session) {
    && s.db.inbox.Keys == s.delivered
    && s.db.failures == map[]
    && s.db.items.Keys <= h.chains.Keys
    && s.db.hops.Keys <= h.hops.Keys
    && (forall k | k in h.chains :: SettledChain(c, h, s, k))
    && (forall k | k in h.hops :: SettledHop(h, s, k))
  }

  lemma SettledItem(c: Codec, h: History, s: Session, k: ItemKey)
    requires c.Lawful() && Clean(c, h) && SessionInv(c, h, s) && s.unacked == {} && k in h.chains
    ensures Prefix(h.chains[k], s.delivered) == VersionOf(s.db.items, k)
    ensures VersionOf(s.db.items, k) <= |h.chains[k]|
  {
    hide UniqueIds, UniqueParents, RowClean, HopClean;
    var v := VersionOf(s.db.items, k);
    if k in s.db.items {
      assert ItemClean(h, s.db, k);
    }
    assert v < |h.chains[k]| ==> h.chains[k][v].eventId !in s.delivered by {
      assert !NextWaits(h, s.db, k);
    }
    PrefixIs(h.chains[k], s.delivered, v);
  }

  lemma SettledRow(c: Codec, h: History, s: Session, e: Envelope)
    requires Clean(c, h) && CleanDb(c, h, s.db) && InHistory(h, e) && e.eventId in s.db.inbox
    ensures var row := s.db.inbox[e.eventId];
            if e.payload.QuantityDecremented? then
              if e.version <= VersionOf(s.db.items, ItemKeyOf(e)) then IsDone(row.disposition)
              else row.disposition == Gap && row.bytes == Some(c.print_(e))
            else IsDone(row.disposition) && HopKeyOf(e) in s.db.hops
  {
    hide UniqueIds, UniqueParents, ItemClean, HopClean, Codec.Hash;
    RowOfEvent(c, h, s.db, e);
    assert RowClean(c, h, s.db, e.eventId);
  }

  /**
   With no delivery left unacknowledged, every item is at its longest contiguous delivered prefix; the gap rows
   are exactly the delivered events beyond it, and the applied or duplicate rows exactly those within it.
   */
  lemma AckedIsSettled(c: Codec, h: History, s: Session)
    requires c.Lawful() && Clean(c, h) && SessionInv(c, h, s) && s.unacked == {}
    ensures Settled(c, h, s)
  {
    hide Clean, RowClean, ItemClean, HopClean, HopOf, InHistory, SettledChain, SettledHop, NextWaits, Owed;
    forall k | k in h.chains ensures SettledChain(c, h, s, k) {
      AckedChain(c, h, s, k);
    }
    forall k | k in h.hops ensures SettledHop(h, s, k) {
      AckedHop(c, h, s, k);
    }
    forall k | k in s.db.items ensures k in h.chains {
      ItemCleanFacts(c, h, s.db, k);
    }
    forall k | k in s.db.hops ensures k in h.hops {
      HopCleanFacts(c, h, s.db, k);
    }
  }

  lemma AckedChain(c: Codec, h: History, s: Session, k: ItemKey)
    requires c.Lawful() && Clean(c, h) && SessionInv(c, h, s) && s.unacked == {} && k in h.chains
    ensures SettledChain(c, h, s, k)
  {
    hide Clean, CleanDb, Prefix, InHistory, NextWaits, Owed;
    SettledItem(c, h, s, k);
    if k in s.db.items {
      ItemCleanFacts(c, h, s.db, k);
    }
    forall i | 0 <= i < |h.chains[k]| && h.chains[k][i].eventId in s.delivered
      ensures SettledEvent(c, h, s, k, i)
    {
      EventAtInHistory(c, h, InventoryItem, k.tenant, k.item, i + 1);
      assert EventAt(h, InventoryItem, k.tenant, k.item, i + 1).value == h.chains[k][i];
      SettledRow(c, h, s, h.chains[k][i]);
    }
  }

  lemma AckedHop(c: Codec, h: History, s: Session, k: HopKey)
    requires Clean(c, h) && SessionInv(c, h, s) && s.unacked == {} && k in h.hops
    ensures SettledHop(h, s, k)
  {
    hide Clean, CleanDb, HopOf, InHistory, NextWaits, Owed;
    HopInHistory(c, h, k);
    if k in s.db.hops {
      HopCleanFacts(c, h, s.db, k);
    }
    if h.hops[k].eventId in s.delivered {
      SettledRow(c, h, s, h.hops[k]);
    }
  }

  lemma ItemCleanFacts(c: Codec, h: History, db: Db, k: ItemKey)
    requires CleanDb(c, h, db) && k in db.items
    ensures k in h.chains && 1 <= db.items[k].version <= |h.chains[k]|
    ensures var e := h.chains[k][db.items[k].version - 1];
            e.payload.QuantityDecremented? && db.items[k] == ItemRow(e.payload.after, db.items[k].version)
  {
    assert ItemClean(h, db, k);
  }

  lemma HopCleanFacts(c: Codec, h: History, db: Db, k: HopKey)
    requires CleanDb(c, h, db) && k in db.hops
    ensures k in h.hops && db.hops[k] == HopOf(h.hops[k]) && h.hops[k].eventId in db.inbox
  {
    assert HopClean(h, db, k);
  }

  lemma HopInHistory(c: Codec, h: History, k: HopKey)
    requires Clean(c, h) && k in h.hops
    ensures InHistory(h, h.hops[k]) && HopKeyOf(h.hops[k]) == k && !h.hops[k].payload.QuantityDecremented?
  {
    assert CleanHop(c, k, h.hops[k]);
  }

  /** Two settled sessions over the same delivered events agree, except that a row may read applied or duplicate. */
  ghost predicate SameOutcome(a: Db, b: Db) {
    && a.items == b.items
    && a.hops == b.hops
    && a.inbox.Keys == b.inbox.Keys
    && (forall id | id in a.inbox ::
          (IsDone(a.inbox[id].disposition) && IsDone(b.inbox[id].disposition))
          || (a.inbox[id].disposition == Gap && b.inbox[id].disposition == Gap))
  }

  /**
   Order independence: any two delivery sequences over the same events, in any order and with any repetition
   or failures, that both end with nothing unacknowledged leave the same projection.
   */
  lemma OrderIndependence(c: Codec, h: History, xs: seq<Arrival>, ys: seq<Arrival>)
    requires c.Lawful() && Clean(c, h) && AllFrom(h, xs) && AllFrom(h, ys)
    requires Consume(c, FRESH, xs).delivered == Consume(c, FRESH, ys).delivered
    requires Consume(c, FRESH, xs).unacked == {} && Consume(c, FRESH, ys).unacked == {}
    ensures Settled(c, h, Consume(c, FRESH, xs))
    ensures SameOutcome(Consume(c, FRESH, xs).db, Consume(c, FRESH, ys).db)
  {
    hide Consume, Clean, SessionInv, Settled, SameOutcome, InHistory;
    FreshInv(c, h);
    ConsumeKeepsInv(c, h, FRESH, xs);
    ConsumeKeepsInv(c, h, FRESH, ys);
    AckedIsSettled(c, h, Consume(c, FRESH, xs));
    AckedIsSettled(c, h, Consume(c, FRESH, ys));
    SettledAgree(c, h, Consume(c, FRESH, xs), Consume(c, FRESH, ys));
  }

  lemma SettledItemsAgree(c: Codec, h: History, a: Session, b: Session)
    requires c.Lawful() && Clean(c, h) && SessionInv(c, h, a) && SessionInv(c, h, b)
    requires a.unacked == {} && b.unacked == {} && a.delivered == b.delivered
    ensures a.db.items.Keys <= b.db.items.Keys
    ensures forall k | k in a.db.items :: b.db.items[k] == a.db.items[k]
  {
    hide Clean, CleanDb, Prefix, AckInv;
    forall k | k in a.db.items ensures k in b.db.items && b.db.items[k] == a.db.items[k] {
      ItemCleanFacts(c, h, a.db, k);
      SettledItem(c, h, a, k);
      SettledItem(c, h, b, k);
      ItemCleanFacts(c, h, b.db, k);
    }
  }

  lemma SettledHopsAgree(c: Codec, h: History, a: Session, b: Session)
    requires Clean(c, h) && SessionInv(c, h, a) && SessionInv(c, h, b)
    requires a.unacked == {} && b.unacked == {} && a.delivered == b.delivered
    ensures a.db.hops.Keys <= b.db.hops.Keys
    ensures forall k | k in a.db.hops :: b.db.hops[k] == a.db.hops[k]
  {
    hide Clean, CleanDb, HopOf, NextWaits, Owed;
    forall k | k in a.db.hops ensures k in b.db.hops && b.db.hops[k] == a.db.hops[k] {
      HopCleanFacts(c, h, a.db, k);
      HopInHistory(c, h, k);
      SettledRow(c, h, b, h.hops[k]);
      HopCleanFacts(c, h, b.db, k);
    }
  }

  lemma SettledAgree(c: Codec, h: History, a: Session, b: Session)
    requires c.Lawful() && Clean(c, h) && SessionInv(c, h, a) && SessionInv(c, h, b)
    requires a.unacked == {} && b.unacked == {} && a.delivered == b.delivered
    ensures SameOutcome(a.db, b.db)
  {
    hide Clean, RowClean, ItemClean, HopClean, HopOf, InHistory, NextWaits, Owed;
    SettledItemsAgree(c, h, a, b);
    SettledItemsAgree(c, h, b, a);
    SettledHopsAgree(c, h, a, b);
    SettledHopsAgree(c, h, b, a);
    forall id | id in a.db.inbox
      ensures (IsDone(a.db.inbox[id].disposition) && IsDone(b.db.inbox[id].disposition))
              || (a.db.inbox[id].disposition == Gap && b.db.inbox[id].disposition == Gap)
    {
      var e := RowEvent(c, h, a.db, id);
      SettledRow(c, h, a, e);
      SettledRow(c, h, b, e);
    }
  }

  /** The event of the history that an inbox row is about. */
  lemma RowEvent(c: Codec, h: History, db: Db, id: string) returns (e: Envelope)
    requires Clean(c, h) && CleanDb(c, h, db) && id in db.inbox
    ensures InHistory(h, e) && e.eventId == id
  {
    hide UniqueIds, UniqueParents, ItemClean, HopClean;
    assert RowClean(c, h, db, id);
    var row := db.inbox[id];
    EventAtInHistory(c, h, row.kind, row.tenant, row.aggregate, row.version);
    e := EventAt(h, row.kind, row.tenant, row.aggregate, row.version).value;
  }

  /** What decides the acknowledgement of a delivery: its own transaction, and the re-drive after it. */
  lemma AckIs(c: Codec, h: History, db: Db, a: Arrival)
    requires c.Lawful() && Clean(c, h) && CleanDb(c, h, db) && InHistory(h, a.event) && a.budget > 0
    ensures var (db', d) := ProcessValidated(c, db, a.event);
            var e := a.event;
            ProcessRecord(c, db, DeliveryOf(c, a)).ack ==
            (IsDone(d) ==> Redrive(c, db', e.Kind(), e.tenantId, e.aggregateId, a.budget - 1, a.tie).ok)
  {
    hide ProcessValidated, Clean, CleanDb, Redrive, AggregateKey;
    InHistoryValid(c, h, a.event);
    hide Codec.Lawful, InHistory;
  }

  /** A delivery whose database operations all succeed is acknowledged. */
  lemma EnoughBudgetAcks(c: Codec, h: History, db: Db, a: Arrival)
    requires c.Lawful() && Clean(c, h) && CleanDb(c, h, db) && InHistory(h, a.event)
    requires a.budget >= 2 * |db.inbox| + 4
    ensures ProcessRecord(c, db, DeliveryOf(c, a)).ack
  {
    hide ProcessValidated, Clean, CleanDb, Redrive, ProcessRecord, InHistory, Codec.Lawful, CleanEffect, DeliveryOf;
    var e := a.event;
    AckIs(c, h, db, a);
    CleanTransaction(c, h, db, e);
    InHistoryValid(c, h, e);
    var (db', d) := ProcessValidated(c, db, e);
    if IsDone(d) {
      if e.payload.QuantityDecremented? {
        DoneHasItem(c, h, db, e, db', d);
        EffectInbox(c, db, e, db', d);
        CleanRedriveEnds(c, h, db', ItemKeyOf(e), a.budget - 1, a.tie);
      } else {
        LineageRedrive(c, h, db', e.Kind(), e.tenantId, e.aggregateId, a.budget - 1, a.tie);
      }
    }
  }

  lemma EffectInbox(c: Codec, db: Db, e: Envelope, db': Db, d: Disposition)
    requires CleanEffect(c, db, e, db', d)
    ensures |db'.inbox| <= |db.inbox| + 1
  {
    hide HopOf, Codec.Hash;
    assert |db'.inbox| == |db'.inbox.Keys| && |db.inbox| == |db.inbox.Keys|;
  }

  lemma WaitingBounded(db: Db)
    ensures |GapIds(db)| <= |db.inbox|
  {
    assert db.inbox.Keys == GapIds(db) + (db.inbox.Keys - GapIds(db));
    assert |db.inbox.Keys| == |GapIds(db)| + |db.inbox.Keys - GapIds(db)|;
  }

  lemma {:induction false} CleanRedriveEnds(c: Codec, h: History, db: Db, k: ItemKey, budget: nat, tie: TieBreak)
    requires c.Lawful() && Clean(c, h) && CleanDb(c, h, db) && k in db.items
    requires budget > 2 * |db.inbox|
    ensures Redrive(c, db, InventoryItem, k.tenant, k.item, budget, tie).ok
  {
    hide Clean, CleanDb, Redrive;
    WaitingBounded(db);
    CleanRedriveCounts(c, h, db, k, budget, tie);
  }

  lemma {:induction false} CleanRedriveCounts(c: Codec, h: History, db: Db, k: ItemKey, budget: nat, tie: TieBreak)
    requires c.Lawful() && Clean(c, h) && CleanDb(c, h, db) && k in db.items
    requires budget > 2 * |GapIds(db)|
    ensures Redrive(c, db, InventoryItem, k.tenant, k.item, budget, tie).ok
    decreases budget
  {
    hide ProcessValidated, Clean, CleanDb, InHistory, Redrive, Codec.Lawful, Codec.Hash;
    var db' := db;
    if NextWaits(h, db, k) {
      db' := NextApplies(c, h, db, k);
      CleanNextFacts(c, h, db, k);
      NextLeavesWaiting(c, h, db, k, db');
    }
    RedriveStep(c, h, db, k, budget, tie, db');
    if NextWaits(h, db, k) {
      CleanRedriveCounts(c, h, db', k, budget - 2, tie);
    }
  }

  lemma NextLeavesWaiting(c: Codec, h: History, db: Db, k: ItemKey, db': Db)
    requires k in db.items && NextWaits(h, db, k) && NextFacts(c, h, db, k) && NextStep(c, h, db, k, db')
    ensures |GapIds(db')| < |GapIds(db)|
  {
    hide ProcessValidated, InHistory, HopOf;
    var e := h.chains[k][db.items[k].version];
    assert e.eventId in GapIds(db);
    assert GapIds(db') == GapIds(db) - {e.eventId};
  }
}
