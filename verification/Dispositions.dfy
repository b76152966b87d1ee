/**
 What becomes of an event: the disposition it is given, the columns stored with it and what it does to the projection,
 first from the tables as they are, whatever they are, and then from the events applied so far.
 */
module Dispositions {
  import opened Events
  import opened Projection
  import opened ProjectionSafety
  import opened TableInvariants
  import opened Interleaving

  // --- from the tables -----------------------------------------------------------------------------------

  /** The inbox row is about the event, with this disposition and this expected version. */
  ghost predicate RowSays(c: Codec, row: InboxRow, env: Envelope, d: Disposition, expected: Option<int>) {
    && row.tenant == env.tenantId && row.kind == env.Kind() && row.aggregate == env.aggregateId && row.version == env.version
    && row.hash == c.Hash(env) && row.disposition == d
    && row.expected == expected && row.received == (if expected.Some? then Some(env.version) else None)
    && row.bytes == if d == Gap then Some(c.print_(env)) else None
  }

  /** The event's own inbox row is all that changes in the inbox, and failures do not change. */
  ghost predicate Stored(c: Codec, db: Db, env: Envelope, db': Db, d: Disposition, expected: Option<int>) {
    && db'.inbox.Keys == db.inbox.Keys + {env.eventId} && db'.failures == db.failures
    && RowSays(c, db'.inbox[env.eventId], env, d, expected)
    && forall id | id in db.inbox && id != env.eventId :: db'.inbox[id] == db.inbox[id]
  }

  /** Unknown to the inbox, or waiting there with the same content. */
  ghost predicate Undecided(c: Codec, db: Db, env: Envelope) {
    env.eventId in db.inbox ==> db.inbox[env.eventId].disposition == Gap && db.inbox[env.eventId].hash == c.Hash(env)
  }

  lemma RecordStores(c: Codec, db: Db, env: Envelope, d: Disposition, expected: Option<int>)
    requires c.Lawful() && c.valid(env) && d != Conflict
    ensures Stored(c, db, env, Record(c, db, env, d, expected), d, expected)
    ensures Record(c, db, env, d, expected).items == db.items && Record(c, db, env, d, expected).hops == db.hops
  {
    hide Codec.Hash;
  }

  /** An inventory event that is still undecided, against any tables at all. */
  ghost predicate InventoryDecision(c: Codec, db: Db, env: Envelope, db': Db, d: Disposition)
    requires env.payload.QuantityDecremented?
  {
    var k := ItemKeyOf(env);
    var v := if k in db.items then db.items[k].version else 0;
    && (d == Applied <==> env.version == v + 1 && (k in db.items ==> env.payload.before == db.items[k].quantity))
    && (d == Transition <==> env.version == v + 1 && k in db.items && env.payload.before != db.items[k].quantity)
    && (d == Gap <==> env.version > v + 1)
    && (d == Stale <==> env.version <= v)
    && Stored(c, db, env, db', d, if d == Gap || d == Stale then Some(v + 1) else None)
    && db'.items == (if d == Applied then db.items[k := ItemRow(env.payload.after, env.version)] else db.items)
    && db'.hops == db.hops
  }

  lemma InventoryDecided(c: Codec, db: Db, env: Envelope)
    requires c.Lawful() && c.valid(env) && env.payload.QuantityDecremented? && Undecided(c, db, env)
    ensures InventoryDecision(c, db, env, ProcessValidated(c, db, env).0, ProcessValidated(c, db, env).1)
  {
    hide Record, Codec.Hash, Stored;
    assert Sound(env);
    var k := ItemKeyOf(env);
    var v := if k in db.items then db.items[k].version else 0;
    RecordStores(c, db, env, Gap, Some(v + 1));
    RecordStores(c, db, env, Stale, Some(v + 1));
    RecordStores(c, db, env, Transition, None);
    var applied := db.(items := db.items[k := ItemRow(env.payload.after, env.version)]);
    RecordStores(c, applied, env, Applied, None);
    StoredElsewhere(c, db, applied, env, Record(c, applied, env, Applied, None), Applied, None);
  }

  lemma StoredElsewhere(c: Codec, a: Db, b: Db, env: Envelope, db': Db, d: Disposition, expected: Option<int>)
    requires Stored(c, b, env, db', d, expected) && a.inbox == b.inbox && a.failures == b.failures
    ensures Stored(c, a, env, db', d, expected)
  {
  }

  /** A hop of the same kind and tenant already has the event's parent, or its order. */
  ghost predicate HasSibling(db: Db, env: Envelope) {
    exists k :: k in db.hops && k.kind == env.Kind() && k.tenant == env.tenantId
                && ((env.Kind() != Supplier && db.hops[k].parent == env.payload.ParentId())
                    || (env.payload.ShipmentDispatched? && db.hops[k].order == env.payload.orderId))
  }

  /** A lineage event that is still undecided, against any tables at all. */
  ghost predicate LineageDecision(c: Codec, db: Db, env: Envelope, db': Db, d: Disposition) {
    var k := HopKeyOf(env);
    var v := if k in db.hops then db.hops[k].version else 0;
    && (d == Applied <==> k !in db.hops && env.version == 1 && !HasSibling(db, env))
    && (d == DuplicateNoop <==> k in db.hops && env.version <= v && db.hops[k].source == env.eventId)
    && (d == Stale <==> k in db.hops && env.version <= v && db.hops[k].source != env.eventId)
    && (d == Gap <==> env.version > v + 1)
    && (d == Invalid <==> env.version == v + 1 && (k in db.hops || HasSibling(db, env)))
    && Stored(c, db, env, db', d, if d == Gap || d == Stale || (d == Invalid && k in db.hops) then Some(v + 1) else None)
    && db'.items == db.items
    && db'.hops == if d == Applied then db.hops[k := HopOf(env)] else db.hops
  }

  lemma LineageDecided(c: Codec, db: Db, env: Envelope)
    requires c.Lawful() && c.valid(env) && !env.payload.QuantityDecremented? && Undecided(c, db, env)
    ensures LineageDecision(c, db, env, ProcessValidated(c, db, env).0, ProcessValidated(c, db, env).1)
  {
    hide Record, Codec.Hash, Stored, HopCollides, HasSibling;
    assert Sound(env);
    var k := HopKeyOf(env);
    var v := if k in db.hops then db.hops[k].version else 0;
    SiblingCollides(db, env);
    RecordStores(c, db, env, Gap, Some(v + 1));
    RecordStores(c, db, env, Stale, Some(v + 1));
    RecordStores(c, db, env, Invalid, Some(v + 1));
    RecordStores(c, db, env, Invalid, None);
    RecordStores(c, db, env, DuplicateNoop, None);
    var applied := db.(hops := db.hops[k := HopOf(env)]);
    RecordStores(c, applied, env, Applied, None);
    StoredElsewhere(c, db, applied, env, Record(c, applied, env, Applied, None), Applied, None);
  }

  lemma SiblingCollides(db: Db, env: Envelope)
    requires !env.payload.QuantityDecremented?
    ensures HopCollides(db.hops, HopKeyOf(env), HopOf(env)) <==> HopKeyOf(env) in db.hops || HasSibling(db, env)
  {
  }

  /** An event whose id the inbox has decided already: other content conflicts, done content is a duplicate. */
  lemma KnownDecided(c: Codec, db: Db, env: Envelope)
    requires c.Lawful() && c.valid(env) && !Undecided(c, db, env)
    ensures var row := db.inbox[env.eventId];
            var (db', d) := ProcessValidated(c, db, env);
            && (d == Conflict <==> row.hash != c.Hash(env) || row.disposition == Conflict)
            && (d == DuplicateNoop <==> row.hash == c.Hash(env) && (row.disposition == Applied || row.disposition == DuplicateNoop))
            && (row.hash == c.Hash(env) && d != DuplicateNoop ==> d == row.disposition && db' == db)
            && (row.hash != c.Hash(env) ==>
                  && db'.inbox == db.inbox[env.eventId := db'.inbox[env.eventId]]
                  && RowSays(c, db'.inbox[env.eventId].(hash := c.Hash(env)), env, Conflict, None)
                  && db'.inbox[env.eventId].hash == row.hash)
            && (d == DuplicateNoop ==> Stored(c, db, env, db', DuplicateNoop, None))
            && db'.items == db.items && db'.hops == db.hops && db'.failures == db.failures
  {
    hide Codec.Hash, ApplyEvent;
  }

  // --- one delivery --------------------------------------------------------------------------------------

  /** A record that reaches the database in time, parses, and carries its own key. */
  predicate Delivers(c: Codec, d: Delivery, env: Envelope) {
    d.budget > 0 && c.parse(d.value) == Ok(env) && !Misaddressed(c, d)
  }

  /**
   What a delivery reports: nothing, unacknowledged, if its transaction did not commit; invalid for text that does not
   parse; mismatch for a wrong key; otherwise what its transaction decided. Every refusal is acknowledged and applies nothing.
   */
  lemma DeliveryReports(c: Codec, db: Db, d: Delivery)
    requires c.Lawful()
    ensures var o := ProcessRecord(c, db, d);
            && (o.disposition == None <==> d.budget == 0)
            && (d.budget == 0 ==> !o.ack && o.db == db && o.applied == [])
            && (d.budget > 0 && c.parse(d.value).Err? ==>
                  && o.disposition == Some(Invalid) && o.ack && o.applied == []
                  && o.db == db.(failures := db.failures[d.pos := if d.pos in db.failures then db.failures[d.pos] else d.probe]))
            && (d.budget > 0 && Misaddressed(c, d) ==>
                  && o.disposition == Some(Mismatch) && o.ack && o.applied == [] && o.db.items == db.items && o.db.hops == db.hops
                  && Stored(c, db, c.parse(d.value).value, o.db, Mismatch, None))
            && (forall env | Delivers(c, d, env) ::
                  var (db', disp) := ProcessValidated(c, db, env);
                  && o.disposition == Some(disp)
                  && (disp != Applied && disp != DuplicateNoop ==> o == Outcome(db', Some(disp), true, []))
                  && (disp == Applied ==> o.applied != [] && o.applied[0] == env))
  {
    hide ProcessValidated, Redrive, Record, AggregateKey, Stored;
    if c.parse(d.value).Ok? {
      RecordStores(c, db, c.parse(d.value).value, Mismatch, None);
    }
  }

  // --- from the events applied -----------------------------------------------------------------------------

  /** The disposition of an event with an unknown id, by the events of its item applied before it. */
  ghost predicate ByItemHistory(es: seq<Envelope>, env: Envelope, d: Disposition)
    requires env.payload.QuantityDecremented?
    requires es != [] ==> es[|es| - 1].payload.QuantityDecremented?
  {
    var n := |es|;
    && (d == Applied <==> env.version == n + 1 && (n > 0 ==> env.payload.before == es[n - 1].payload.after))
    && (d == Transition <==> env.version == n + 1 && n > 0 && env.payload.before != es[n - 1].payload.after)
    && (d == Gap <==> env.version > n + 1)
    && (d == Stale <==> env.version <= n)
  }

  lemma ItemHistoryDecides(c: Codec, db: Db, log: seq<Envelope>, env: Envelope)
    requires c.Lawful() && c.valid(env) && Inv(c, db, log) && env.payload.QuantityDecremented? && env.eventId !in db.inbox
    ensures var es := Of(log, ItemKeyOf(env));
            && (es != [] ==> es[|es| - 1].payload.QuantityDecremented?)
            && ByItemHistory(es, env, ProcessValidated(c, db, env).1)
  {
    hide ProcessValidated, GapsSound, HopsAtOne, AppliedOnce, Stored, Of;
    assert ItemSound(db, log, ItemKeyOf(env));
    InventoryDecided(c, db, env);
  }

  /** A lineage event of the log has the key. */
  ghost predicate Taken(log: seq<Envelope>, k: HopKey) {
    exists i | 0 <= i < |log| :: !log[i].payload.QuantityDecremented? && HopKeyOf(log[i]) == k
  }

  /** A lineage event of the log, of the same kind and tenant, names the same parent or the same order. */
  ghost predicate ParentTaken(log: seq<Envelope>, env: Envelope) {
    exists i | 0 <= i < |log| :: SharesWith(log[i], env)
  }

  predicate SharesWith(a: Envelope, env: Envelope) {
    && !a.payload.QuantityDecremented? && a.Kind() == env.Kind() && a.tenantId == env.tenantId
    && ((env.Kind() != Supplier && a.payload.ParentId() == env.payload.ParentId())
        || (env.payload.ShipmentDispatched? && a.payload.ShipmentDispatched? && a.payload.orderId == env.payload.orderId))
  }

  /** The disposition of a lineage event with an unknown id, by the lineage events applied before it. */
  ghost predicate ByLineageHistory(log: seq<Envelope>, env: Envelope, d: Disposition) {
    var taken := Taken(log, HopKeyOf(env));
    && (d == Applied <==> env.version == 1 && !taken && !ParentTaken(log, env))
    && (d == Stale <==> env.version == 1 && taken)
    && (d == Gap <==> env.version > if taken then 2 else 1)
    && (d == Invalid <==> (env.version == 2 && taken) || (env.version == 1 && !taken && ParentTaken(log, env)))
  }

  lemma LineageHistoryDecides(c: Codec, db: Db, log: seq<Envelope>, env: Envelope)
    requires c.Lawful() && c.valid(env) && Inv(c, db, log) && DoneIsLogged(db, log)
    requires !env.payload.QuantityDecremented? && env.eventId !in db.inbox
    ensures ByLineageHistory(log, env, ProcessValidated(c, db, env).1)
  {
    hide ProcessValidated, GapsSound, ItemsSound, Stored, HopOf, HasSibling, ParentTaken;
    LineageDecided(c, db, env);
    HopsAreTaken(db, log, env);
    SiblingsAreTaken(db, log, env);
    var k := HopKeyOf(env);
    if k in db.hops {
      assert LogsHop(log, k, db.hops[k]);
      HopSourceIsLogged(log, k, db.hops[k]);
    }
  }

  lemma HopsAreTaken(db: Db, log: seq<Envelope>, env: Envelope)
    requires DoneIsLogged(db, log)
    ensures HopKeyOf(env) in db.hops <==> Taken(log, HopKeyOf(env))
  {
    var k := HopKeyOf(env);
    if k in db.hops {
      assert LogsHop(log, k, db.hops[k]);
    }
  }

  lemma SiblingsAreTaken(db: Db, log: seq<Envelope>, env: Envelope)
    requires DoneIsLogged(db, log) && !env.payload.QuantityDecremented?
    ensures HasSibling(db, env) <==> ParentTaken(log, env)
  {
    if HasSibling(db, env) {
      SiblingInLog(db, log, env);
    }
    if ParentTaken(log, env) {
      var i :| 0 <= i < |log| && SharesWith(log[i], env);
      var k := HopKeyOf(log[i]);
      assert k in db.hops && db.hops[k] == HopOf(log[i]);
    }
  }

  lemma SiblingInLog(db: Db, log: seq<Envelope>, env: Envelope)
    requires DoneIsLogged(db, log) && !env.payload.QuantityDecremented? && HasSibling(db, env)
    ensures ParentTaken(log, env)
  {
    var k :| k in db.hops && k.kind == env.Kind() && k.tenant == env.tenantId
             && ((env.Kind() != Supplier && db.hops[k].parent == env.payload.ParentId())
                 || (env.payload.ShipmentDispatched? && db.hops[k].order == env.payload.orderId));
    assert LogsHop(log, k, db.hops[k]);
    var i :| 0 <= i < |log| && !log[i].payload.QuantityDecremented? && HopKeyOf(log[i]) == k && HopOf(log[i]) == db.hops[k];
    assert SharesWith(log[i], env);
  }

  /** By its history: of the item for an inventory event, of the tenant's lineage for any other. */
  ghost predicate ByHistory(log: seq<Envelope>, env: Envelope, d: Disposition) {
    if env.payload.QuantityDecremented? then
      var es := Of(log, ItemKeyOf(env));
      (es != [] ==> es[|es| - 1].payload.QuantityDecremented?) && ByItemHistory(es, env, d)
    else ByLineageHistory(log, env, d)
  }

  /**
   After any run, the report on a correctly addressed event with an id not seen before is a function of the events
   applied so far and of nothing else: its version against the number applied to its item and its quantity-before
   against the last quantity-after, or its key, parent and order against the lineage events applied.
   */
  lemma HistoryDecides(c: Codec, ds: seq<Delivery>, d: Delivery, env: Envelope)
    requires c.Lawful() && Delivers(c, d, env)
    requires env.eventId !in Run(c, Trace(EMPTY_DB, []), ds).db.inbox
    ensures var t := Run(c, Trace(EMPTY_DB, []), ds);
            var o := ProcessRecord(c, t.db, d);
            o.disposition.Some? && ByHistory(t.log, env, o.disposition.value)
  {
    hide Run, ProcessRecord, ProcessValidated, Inv, ByItemHistory, ByLineageHistory, DoneIsLogged;
    var t := Run(c, Trace(EMPTY_DB, []), ds);
    EmptyInv(c);
    RunKeepsInv(c, Trace(EMPTY_DB, []), ds);
    DoneMeansApplied(c, ds, []);
    DeliveryReports(c, t.db, d);
    if env.payload.QuantityDecremented? {
      ItemHistoryDecides(c, t.db, t.log, env);
    } else {
      LineageHistoryDecides(c, t.db, t.log, env);
    }
  }

  /** The same for the transaction of a delivery among others, interleaved in any way. */
  lemma HistoryDecidesAmong(c: Codec, steps: seq<DeskStep>, env: Envelope)
    requires c.Lawful() && c.valid(env) && env.eventId !in RunDesk(c, EMPTY_DESK, steps).db.inbox
    ensures var s := RunDesk(c, EMPTY_DESK, steps);
            ByHistory(s.log, env, ProcessValidated(c, s.db, env).1)
  {
    hide RunDesk, ProcessValidated, Inv, ByItemHistory, ByLineageHistory, DoneIsLogged;
    var s := RunDesk(c, EMPTY_DESK, steps);
    EmptyDeskInv(c);
    RunKeepsDesk(c, EMPTY_DESK, steps);
    DoneMeansApplied(c, [], steps);
    if env.payload.QuantityDecremented? {
      ItemHistoryDecides(c, s.db, s.log, env);
    } else {
      LineageHistoryDecides(c, s.db, s.log, env);
    }
  }
}
