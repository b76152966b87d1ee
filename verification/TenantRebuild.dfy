/**
 Rebuilding one tenant from its retained outbox: delete the tenant's derived rows, load its history in order,
 replay it, and judge the result.
 */
module TenantRebuild {
  import opened Events
  import opened Projection
  import opened Convergence

  datatype Status = Complete | Incomplete

  /** Why a replay loop returned early: a record did not parse, was another tenant's, or could not be acknowledged. */
  datatype Stop = Running | Unparsed | ForeignTenant | Unacknowledged

  /** The running result. */
  datatype Replay = Replay(db: Db, status: Status, applied: nat, duplicates: nat, quarantined: nat, failures: nat, stop: Stop)

  /** ResetDerivedStateForTenant. */
  function ResetTenant(db: Db, t: string): Db {
    Db(map id | id in db.inbox && db.inbox[id].tenant != t :: db.inbox[id],
       map k | k in db.items && k.tenant != t :: db.items[k],
       map k | k in db.hops && k.tenant != t :: db.hops[k],
       map p | p in db.failures && db.failures[p] != Some(t) :: db.failures[p])
  }

  /** The counters and status after one processed record. */
  function Tally(r: Replay, db: Db, d: Option<Disposition>): Replay {
    match d
    case None => r.(db := db, failures := r.failures + 1, status := Incomplete)
    case Some(Applied) => r.(db := db, applied := r.applied + 1)
    case Some(DuplicateNoop) => r.(db := db, duplicates := r.duplicates + 1)
    case Some(Gap) => r.(db := db, quarantined := r.quarantined + 1)
    case Some(_) => r.(db := db, quarantined := r.quarantined + 1, status := Incomplete)
  }

  function ReplayOne(c: Codec, t: string, r: Replay, d: Delivery): Replay {
    if r.stop != Running then r
    else
      match c.parse(d.value)
      case Err(_) => r.(status := Incomplete, stop := Unparsed)
      case Ok(env) =>
        if env.tenantId != t then r.(status := Incomplete, stop := ForeignTenant)
        else
          var o := ProcessRecord(c, r.db, d);
          if !o.ack then r.(db := o.db, status := Incomplete, stop := Unacknowledged)
          else Tally(r, o.db, o.disposition)
  }

  function ReplayRecords(c: Codec, t: string, start: Replay, ds: seq<Delivery>): Replay {
    if ds == [] then start
    else ReplayOne(c, t, ReplayRecords(c, t, start, ds[..|ds| - 1]), ds[|ds| - 1])
  }

  function TenantGaps(db: Db, t: string): set<string> {
    set id | id in db.inbox && db.inbox[id].tenant == t && db.inbox[id].disposition == Gap
  }

  function TenantFailures(db: Db, t: string): set<Position> {
    set p | p in db.failures && db.failures[p] == Some(t)
  }

  /** The counts taken when every record has been replayed. */
  function Judge(r: Replay, t: string): Replay {
    var r' := if TenantGaps(r.db, t) != {} then r.(status := Incomplete) else r;
    var n := |TenantFailures(r.db, t)|;
    if n > 0 then r'.(failures := n, status := Incomplete) else r'
  }

  /** replayTenantRecords. */
  function ReplayTenant(c: Codec, db: Db, t: string, ds: seq<Delivery>): Replay {
    if ds == [] then Replay(db, Incomplete, 0, 0, 0, 0, Running)
    else
      var r := ReplayRecords(c, t, Replay(db, Complete, 0, 0, 0, 0, Running), ds);
      if r.stop != Running then r else Judge(r, t)
  }

  // --- what a history must be ----------------------------------------------------------------------

  ghost predicate SameAggregate(a: Envelope, b: Envelope) {
    a.Kind() == b.Kind() && a.aggregateId == b.aggregateId
  }

  /**
   What the outbox's constraints and the ORDER BY give: valid events of the tenant, distinct ids, one event per
   aggregate and version, versions ascending within an aggregate.
   */
  ghost predicate Retained(c: Codec, t: string, es: seq<Envelope>) {
    && (forall i | 0 <= i < |es| :: c.valid(es[i]) && Sound(es[i]) && es[i].tenantId == t)
    && (forall i, j | 0 <= i < j < |es| :: es[i].eventId != es[j].eventId)
    && (forall i, j | 0 <= i < j < |es| && SameAggregate(es[i], es[j]) :: es[i].version < es[j].version)
  }

  /** The last event of the item. */
  function LastOf(es: seq<Envelope>, k: ItemKey): (r: Option<Envelope>)
    ensures r.Some? ==> r.value.payload.QuantityDecremented? && ItemKeyOf(r.value) == k
  {
    if es == [] then None
    else
      var e := es[|es| - 1];
      if e.payload.QuantityDecremented? && ItemKeyOf(e) == k then Some(e) else LastOf(es[..|es| - 1], k)
  }

  /** Event `e` continues what `before` holds: the next version of its item, or a first hop with unused parents. */
  ghost predicate Continues(before: seq<Envelope>, e: Envelope) {
    if e.payload.QuantityDecremented? then
      var last := LastOf(before, ItemKeyOf(e));
      if last.None? then e.version == 1
      else e.version == last.value.version + 1 && e.payload.before == last.value.payload.after
    else
      && e.version == 1
      && (forall j | 0 <= j < |before| && before[j].Kind() == e.Kind() :: !SharesParent(e.Kind(), HopOf(before[j]), HopOf(e)))
  }

  ghost predicate ContinuesAt(es: seq<Envelope>, i: nat)
    requires i < |es|
  {
    Continues(es[..i], es[i])
  }

  ghost predicate Continuous(es: seq<Envelope>) {
    forall i | 0 <= i < |es| :: ContinuesAt(es, i)
  }

  ghost predicate ReadsAs(c: Codec, d: Delivery, e: Envelope) {
    c.parse(d.value) == Ok(e) && d.key == AggregateKey(e.tenantId, e.aggregateType, e.aggregateId)
  }

  ghost predicate ReadAs(c: Codec, ds: seq<Delivery>, es: seq<Envelope>) {
    |ds| == |es| && forall i | 0 <= i < |es| :: ReadsAs(c, ds[i], es[i])
  }

  // --- states during the replay ----------------------------------------------------------------------

  /** The row was written for one of the events. */
  ghost predicate Wrote(es: seq<Envelope>, id: string, row: InboxRow) {
    exists j | 0 <= j < |es| ::
      es[j].eventId == id && es[j].Kind() == row.kind && es[j].aggregateId == row.aggregate && es[j].version == row.version
  }

  /** A gap row of an item is more than one version ahead of the projection. */
  ghost predicate Stuck(db: Db, row: InboxRow) {
    row.disposition == Gap && row.kind == InventoryItem ==>
      row.version > VersionOf(db.items, ItemKey(row.tenant, row.aggregate)) + 1
  }

  /** The event is newer than what the projection holds of its aggregate. */
  ghost predicate Newer(db: Db, e: Envelope) {
    if e.payload.QuantityDecremented? then VersionOf(db.items, ItemKeyOf(e)) < e.version
    else HopKeyOf(e) in db.hops ==> db.hops[HopKeyOf(e)].version == 1 && e.version > 1
  }

  ghost predicate During(t: string, es: seq<Envelope>, i: nat, db: Db)
    requires i <= |es|
  {
    && (forall id | id in db.inbox && db.inbox[id].tenant == t :: Wrote(es[..i], id, db.inbox[id]) && Stuck(db, db.inbox[id]))
    && (forall j | i <= j < |es| :: es[j].eventId !in db.inbox && Newer(db, es[j]))
    && (forall k | k in db.items && k.tenant == t :: db.items[k].version >= 1)
    && TenantFailures(db, t) == {}
  }

  /** Everything that is not the tenant's is as it was. */
  ghost predicate OthersKept(t: string, db: Db, db': Db) {
    && (forall id | id in db.inbox && db.inbox[id].tenant != t :: id in db'.inbox && db'.inbox[id] == db.inbox[id])
    && (forall id | id in db'.inbox && db'.inbox[id].tenant != t :: id in db.inbox && db'.inbox[id] == db.inbox[id])
    && (forall k: ItemKey | k.tenant != t ::
          (k in db.items <==> k in db'.items) && (k in db.items ==> db'.items[k] == db.items[k]))
    && (forall k: HopKey | k.tenant != t :: (k in db.hops <==> k in db'.hops) && (k in db.hops ==> db'.hops[k] == db.hops[k]))
    && (forall p :: (p in db.failures && db.failures[p] != Some(t)) <==> (p in db'.failures && db'.failures[p] != Some(t)))
    && (forall p | p in db.failures && db.failures[p] != Some(t) :: db'.failures[p] == db.failures[p])
  }

  /** As long as every event applied, the projection is the last event of each item and the hops seen. */
  ghost predicate Tracks(t: string, es: seq<Envelope>, db: Db) {
    && (forall k: ItemKey | k.tenant == t ::
          var last := LastOf(es, k);
          if last.None? then k !in db.items
          else k in db.items && db.items[k] == ItemRow(last.value.payload.after, last.value.version))
    && (forall k | k in db.hops && k.tenant == t :: HopFrom(es, k))
    && (forall j | 0 <= j < |es| && !es[j].payload.QuantityDecremented? ::
          HopKeyOf(es[j]) in db.hops && db.hops[HopKeyOf(es[j])] == HopOf(es[j]))
    && (forall id | id in db.inbox && db.inbox[id].tenant == t :: db.inbox[id].disposition == Applied)
  }

  ghost predicate HopFrom(es: seq<Envelope>, k: HopKey) {
    exists j | 0 <= j < |es| :: !es[j].payload.QuantityDecremented? && HopKeyOf(es[j]) == k
  }

  // --- one record ----------------------------------------------------------------------------------

  /** What the transaction of a new, newer event can do. */
  ghost predicate StepEffect(c: Codec, db: Db, e: Envelope, db': Db, d: Disposition) {
    && d in {Applied, Gap, Transition, Invalid}
    && db'.inbox.Keys == db.inbox.Keys + {e.eventId}
    && (forall id | id in db.inbox && id != e.eventId :: db'.inbox[id] == db.inbox[id])
    && db'.failures == db.failures
    && var row := db'.inbox[e.eventId];
    && row.tenant == e.tenantId && row.kind == e.Kind() && row.aggregate == e.aggregateId && row.version == e.version
    && row.disposition == d
    && if e.payload.QuantityDecremented? then
         var k := ItemKeyOf(e);
         var v := VersionOf(db.items, k);
         && db'.hops == db.hops
         && (d == Gap <==> e.version > v + 1)
         && (d == Applied <==> e.version == v + 1 && (k in db.items ==> e.payload.before == db.items[k].quantity))
         && db'.items == (if d == Applied then db.items[k := ItemRow(e.payload.after, e.version)] else db.items)
       else
         && db'.items == db.items
         && (d == Applied <==> e.version == 1 && !HopCollides(db.hops, HopKeyOf(e), HopOf(e)))
         && db'.hops == (if d == Applied then db.hops[HopKeyOf(e) := HopOf(e)] else db.hops)
  }

  lemma ItemStep(c: Codec, db: Db, e: Envelope)
    requires Sound(e) && e.payload.QuantityDecremented? && e.eventId !in db.inbox && Newer(db, e)
    requires ItemKeyOf(e) in db.items ==> db.items[ItemKeyOf(e)].version >= 1
    ensures var (db', d) := ProcessValidated(c, db, e);
            StepEffect(c, db, e, db', d)
  {
    hide Record, Codec.Hash;
    var k := ItemKeyOf(e);
    var v := VersionOf(db.items, k);
    RecordShape(c, db, e, Gap, Some(v + 1));
    RecordShape(c, db, e, Transition, None);
    RecordShape(c, db.(items := db.items[k := ItemRow(e.payload.after, e.version)]), e, Applied, None);
  }

  lemma FirstHopStep(c: Codec, db: Db, e: Envelope)
    requires !e.payload.QuantityDecremented? && HopKeyOf(e) !in db.hops
    ensures var (db', d) := ApplyLineage(c, db, e);
            StepEffect(c, db, e, db', d)
  {
    hide Record, HopOf, SharesParent;
    RecordShape(c, db, e, Gap, Some(1));
    RecordShape(c, db, e, Invalid, None);
    RecordShape(c, db.(hops := db.hops[HopKeyOf(e) := HopOf(e)]), e, Applied, None);
  }

  lemma LaterHopStep(c: Codec, db: Db, e: Envelope)
    requires !e.payload.QuantityDecremented? && HopKeyOf(e) in db.hops && Newer(db, e)
    ensures var (db', d) := ApplyLineage(c, db, e);
            StepEffect(c, db, e, db', d)
  {
    hide Record, HopOf, SharesParent;
    RecordShape(c, db, e, Invalid, Some(2));
    RecordShape(c, db, e, Gap, Some(2));
  }

  lemma HopStep(c: Codec, db: Db, e: Envelope)
    requires !e.payload.QuantityDecremented? && e.eventId !in db.inbox && Newer(db, e)
    ensures var (db', d) := ProcessValidated(c, db, e);
            StepEffect(c, db, e, db', d)
  {
    hide ApplyLineage, StepEffect;
    if HopKeyOf(e) in db.hops {
      LaterHopStep(c, db, e);
    } else {
      FirstHopStep(c, db, e);
    }
  }

  /** The rows an aggregate already has are of earlier versions. */
  lemma EarlierRow(c: Codec, t: string, es: seq<Envelope>, i: nat, db: Db, id: string)
    requires Retained(c, t, es) && i < |es| && During(t, es, i, db)
    requires id in db.inbox && db.inbox[id].tenant == t
    requires db.inbox[id].kind == es[i].Kind() && db.inbox[id].aggregate == es[i].aggregateId
    ensures 1 <= db.inbox[id].version < es[i].version
  {
    var row := db.inbox[id];
    assert Wrote(es[..i], id, row);
    var j :| 0 <= j < i && es[..i][j].eventId == id && es[..i][j].Kind() == row.kind
             && es[..i][j].aggregateId == row.aggregate && es[..i][j].version == row.version;
    assert SameAggregate(es[j], es[i]) && Sound(es[j]);
  }

  /** An event that applies in order leaves nothing to re-drive. */
  lemma NothingWaits(c: Codec, t: string, es: seq<Envelope>, i: nat, db: Db, db': Db, d: Disposition)
    requires Retained(c, t, es) && i < |es| && During(t, es, i, db)
    requires StepEffect(c, db, es[i], db', d) && d == Applied
    ensures GapCandidates(db', es[i].Kind(), t, es[i].aggregateId) == {}
  {
    var e := es[i];
    assert e.tenantId == t;
    hide HopOf, HopCollides, Retained;
    forall id | id in db'.inbox && db'.inbox[id].tenant == t && db'.inbox[id].kind == e.Kind()
                && db'.inbox[id].aggregate == e.aggregateId
      ensures db'.inbox[id].disposition != Gap || db'.inbox[id].version < e.version
    {
      if id != e.eventId {
        EarlierRow(c, t, es, i, db, id);
        assert Stuck(db, db.inbox[id]);
      }
    }
    WaitsNone(db', e);
  }

  lemma WaitsNone(db: Db, e: Envelope)
    requires e.payload.QuantityDecremented? ==> VersionOf(db.items, ItemKeyOf(e)) == e.version
    requires !e.payload.QuantityDecremented? ==>
               e.version == 1 && forall k | k in db.items && k.tenant == e.tenantId :: db.items[k].version >= 1
    requires forall id | id in db.inbox && db.inbox[id].tenant == e.tenantId && db.inbox[id].kind == e.Kind()
                         && db.inbox[id].aggregate == e.aggregateId ::
               db.inbox[id].disposition != Gap || db.inbox[id].version < e.version
    ensures GapCandidates(db, e.Kind(), e.tenantId, e.aggregateId) == {}
  {
  }

  /** Replaying one record: its transaction and no re-drive. */
  lemma RecordStep(c: Codec, t: string, es: seq<Envelope>, i: nat, db: Db, d: Delivery)
    requires c.Lawful() && Retained(c, t, es) && i < |es| && During(t, es, i, db)
    requires ReadsAs(c, d, es[i]) && d.budget > 0
    ensures var (db', disp) := ProcessValidated(c, db, es[i]);
            && StepEffect(c, db, es[i], db', disp)
            && ProcessRecord(c, db, d).db == db'
            && ProcessRecord(c, db, d).disposition == Some(disp)
            && (ProcessRecord(c, db, d).ack <==> disp != Applied || d.budget >= 2)
  {
    hide ProcessValidated, GapCandidates, StepEffect;
    var e := es[i];
    assert Newer(db, e);
    if e.payload.QuantityDecremented? {
      ItemStep(c, db, e);
    } else {
      HopStep(c, db, e);
    }
    var (db', disp) := ProcessValidated(c, db, e);
    StepDispositions(c, db, e, db', disp);
    if disp == Applied {
      NothingWaits(c, t, es, i, db, db', disp);
      assert e.tenantId == t;
    }
  }

  lemma StepDispositions(c: Codec, db: Db, e: Envelope, db': Db, d: Disposition)
    requires StepEffect(c, db, e, db', d)
    ensures d in {Applied, Gap, Transition, Invalid}
  {
  }

  // --- the invariant is kept -------------------------------------------------------------------------

  lemma StepKeepsRow(c: Codec, t: string, es: seq<Envelope>, i: nat, db: Db, db': Db, d: Disposition, id: string)
    requires Retained(c, t, es) && i < |es| && During(t, es, i, db)
    requires StepEffect(c, db, es[i], db', d)
    requires id in db'.inbox && db'.inbox[id].tenant == t
    ensures Wrote(es[..i + 1], id, db'.inbox[id]) && Stuck(db', db'.inbox[id])
  {
    hide HopOf, HopCollides;
    var e := es[i];
    var row := db'.inbox[id];
    if id == e.eventId {
      assert es[..i + 1][i] == e;
    } else {
      assert row == db.inbox[id];
      WroteMore(es, i, id, row);
      assert Stuck(db, row);
      if row.kind == e.Kind() && row.aggregate == e.aggregateId {
        EarlierRow(c, t, es, i, db, id);
      }
    }
  }

  lemma WroteMore(es: seq<Envelope>, i: nat, id: string, row: InboxRow)
    requires i < |es| && Wrote(es[..i], id, row)
    ensures Wrote(es[..i + 1], id, row)
  {
    var j :| 0 <= j < i && es[..i][j].eventId == id && es[..i][j].Kind() == row.kind
             && es[..i][j].aggregateId == row.aggregate && es[..i][j].version == row.version;
    assert es[..i + 1][j] == es[..i][j];
  }

  lemma StepKeepsNewer(c: Codec, t: string, es: seq<Envelope>, i: nat, db: Db, db': Db, d: Disposition, j: nat)
    requires Retained(c, t, es) && i < j < |es| && During(t, es, i, db)
    requires StepEffect(c, db, es[i], db', d)
    ensures es[j].eventId !in db'.inbox && Newer(db', es[j])
  {
    hide HopCollides;
    assert Newer(db, es[j]);
    if d == Applied && SameAggregate(es[i], es[j]) {
      assert es[i].version < es[j].version;
    }
  }

  lemma StepKeepsDuring(c: Codec, t: string, es: seq<Envelope>, i: nat, db: Db, db': Db, d: Disposition)
    requires Retained(c, t, es) && i < |es| && During(t, es, i, db)
    requires StepEffect(c, db, es[i], db', d)
    ensures During(t, es, i + 1, db')
  {
    hide Wrote, Stuck, Newer, HopOf, HopCollides;
    forall id | id in db'.inbox && db'.inbox[id].tenant == t
      ensures Wrote(es[..i + 1], id, db'.inbox[id]) && Stuck(db', db'.inbox[id])
    {
      StepKeepsRow(c, t, es, i, db, db', d, id);
    }
    forall j | i + 1 <= j < |es| ensures es[j].eventId !in db'.inbox && Newer(db', es[j]) {
      StepKeepsNewer(c, t, es, i, db, db', d, j);
    }
    assert Sound(es[i]);
  }

  lemma StepKeepsOthers(c: Codec, t: string, db: Db, e: Envelope, db': Db, d: Disposition)
    requires StepEffect(c, db, e, db', d) && e.tenantId == t && e.eventId !in db.inbox
    ensures OthersKept(t, db, db')
  {
    hide HopOf, HopCollides;
  }

  lemma OthersKeptCompose(t: string, a: Db, b: Db, d: Db)
    requires OthersKept(t, a, b) && OthersKept(t, b, d)
    ensures OthersKept(t, a, d)
  {
  }

  // --- the projection tracks the history ---------------------------------------------------------------

  lemma LastOfAppend(es: seq<Envelope>, i: nat, k: ItemKey)
    requires i < |es|
    ensures LastOf(es[..i + 1], k) ==
            if es[i].payload.QuantityDecremented? && ItemKeyOf(es[i]) == k then Some(es[i]) else LastOf(es[..i], k)
  {
    assert es[..i + 1][..i] == es[..i];
  }

  /** While the projection tracks the history, an event applies exactly when it continues it. */
  lemma AppliesIfContinues(c: Codec, t: string, es: seq<Envelope>, i: nat, db: Db, db': Db, d: Disposition)
    requires Retained(c, t, es) && i < |es| && During(t, es, i, db) && Tracks(t, es[..i], db)
    requires StepEffect(c, db, es[i], db', d)
    ensures d == Applied <==> Continues(es[..i], es[i])
  {
    var e := es[i];
    assert e.tenantId == t;
    if e.payload.QuantityDecremented? {
      hide HopOf, HopCollides, During, Retained;
      var last := LastOf(es[..i], ItemKeyOf(e));
    } else if e.version == 1 {
      CollidesIffShares(c, t, es, i, db);
    }
  }

  lemma CollidesIffShares(c: Codec, t: string, es: seq<Envelope>, i: nat, db: Db)
    requires Retained(c, t, es) && i < |es| && During(t, es, i, db) && Tracks(t, es[..i], db)
    requires !es[i].payload.QuantityDecremented? && es[i].version == 1
    ensures !HopCollides(db.hops, HopKeyOf(es[i]), HopOf(es[i])) <==> Continues(es[..i], es[i])
  {
    hide HopOf, SharesParent, LastOf;
    var e := es[i];
    var k := HopKeyOf(e);
    assert Newer(db, e);
    assert k !in db.hops;
    if Continues(es[..i], e) {
      forall k' | k' in db.hops && k'.kind == k.kind && k'.tenant == k.tenant
        ensures !SharesParent(k.kind, db.hops[k'], HopOf(e))
      {
        assert HopFrom(es[..i], k');
        var j :| 0 <= j < i && !es[..i][j].payload.QuantityDecremented? && HopKeyOf(es[..i][j]) == k';
        assert db.hops[k'] == HopOf(es[..i][j]);
      }
    } else {
      var j :| 0 <= j < |es[..i]| && es[..i][j].Kind() == e.Kind()
               && SharesParent(e.Kind(), HopOf(es[..i][j]), HopOf(e));
      var k' := HopKeyOf(es[..i][j]);
      assert es[..i][j] == es[j] && es[j].tenantId == t;
      assert k' in db.hops && db.hops[k'] == HopOf(es[..i][j]);
    }
  }

  lemma StepTracks(c: Codec, t: string, es: seq<Envelope>, i: nat, db: Db, db': Db, d: Disposition)
    requires Retained(c, t, es) && i < |es| && During(t, es, i, db) && Tracks(t, es[..i], db)
    requires StepEffect(c, db, es[i], db', d) && d == Applied
    ensures Tracks(t, es[..i + 1], db')
  {
    StepTracksItems(t, es, i, db, db', c);
    StepTracksHops(c, t, es, i, db, db');
    hide LastOf, HopFrom, HopOf, HopCollides, During, Retained;
  }

  lemma StepTracksItems(t: string, es: seq<Envelope>, i: nat, db: Db, db': Db, c: Codec)
    requires i < |es| && Tracks(t, es[..i], db)
    requires StepEffect(c, db, es[i], db', Applied)
    ensures forall k: ItemKey | k.tenant == t ::
              var last := LastOf(es[..i + 1], k);
              if last.None? then k !in db'.items
              else k in db'.items && db'.items[k] == ItemRow(last.value.payload.after, last.value.version)
  {
    hide HopOf, HopCollides, LastOf, HopFrom;
    forall k: ItemKey | k.tenant == t
      ensures var last := LastOf(es[..i + 1], k);
              if last.None? then k !in db'.items
              else k in db'.items && db'.items[k] == ItemRow(last.value.payload.after, last.value.version)
    {
      LastOfAppend(es, i, k);
    }
  }

  lemma NotFirst(c: Codec, t: string, es: seq<Envelope>, j: nat, i: nat)
    requires Retained(c, t, es) && j < i < |es| && SameAggregate(es[j], es[i])
    ensures es[i].version > 1
  {
    assert Sound(es[j]);
  }

  lemma StepTracksHops(c: Codec, t: string, es: seq<Envelope>, i: nat, db: Db, db': Db)
    requires Retained(c, t, es) && i < |es| && Tracks(t, es[..i], db)
    requires StepEffect(c, db, es[i], db', Applied)
    ensures forall k | k in db'.hops && k.tenant == t :: HopFrom(es[..i + 1], k)
    ensures forall j | 0 <= j < i + 1 && !es[j].payload.QuantityDecremented? ::
              HopKeyOf(es[j]) in db'.hops && db'.hops[HopKeyOf(es[j])] == HopOf(es[j])
  {
    hide HopOf, LastOf, HopCollides, Retained;
    var e := es[i];
    forall k | k in db'.hops && k.tenant == t ensures HopFrom(es[..i + 1], k) {
      if k in db.hops {
        assert HopFrom(es[..i], k);
        var j :| 0 <= j < i && !es[..i][j].payload.QuantityDecremented? && HopKeyOf(es[..i][j]) == k;
        assert es[..i + 1][j] == es[..i][j];
      } else {
        assert es[..i + 1][i] == e;
      }
    }
    forall j | 0 <= j < i + 1 && !es[j].payload.QuantityDecremented?
      ensures HopKeyOf(es[j]) in db'.hops && db'.hops[HopKeyOf(es[j])] == HopOf(es[j])
    {
      if j < i {
        assert es[..i][j] == es[j];
        if HopKeyOf(es[j]) == HopKeyOf(e) {
          NotFirst(c, t, es, j, i);
        }
      }
    }
  }

  // --- the whole replay ------------------------------------------------------------------------------

  /** Once something went wrong it shows at the end: the status, an early return, or a gap row. */
  ghost predicate Tainted(t: string, r: Replay) {
    r.status == Incomplete || TenantGaps(r.db, t) != {}
  }

  ghost predicate Funded(ds: seq<Delivery>) {
    forall i | 0 <= i < |ds| :: ds[i].budget >= 2
  }

  ghost predicate ReplayInv(t: string, es: seq<Envelope>, ds: seq<Delivery>, i: nat, db: Db, r: Replay)
    requires i <= |es| && i <= |ds|
  {
    && OthersKept(t, db, r.db)
    && (r.stop != Running ==> r.status == Incomplete)
    && (r.stop == Running ==> During(t, es, i, r.db))
    && (Continuous(es[..i]) && Funded(ds[..i]) ==>
          r.stop == Running && r.status == Complete && Tracks(t, es[..i], r.db)
          && r.applied == i && r.duplicates == r.quarantined == r.failures == 0)
    && (!(Continuous(es[..i]) && Funded(ds[..i])) ==> Tainted(t, r))
  }

  lemma ContinuousAppend(es: seq<Envelope>, i: nat)
    requires i < |es|
    ensures Continuous(es[..i + 1]) <==> Continuous(es[..i]) && Continues(es[..i], es[i])
  {
    hide Continues;
    var less, more := es[..i], es[..i + 1];
    forall j | 0 <= j <= i ensures ContinuesAt(more, j) == ContinuesAt(es, j) {
      assert more[..j] == es[..j];
    }
    forall j | 0 <= j < i ensures ContinuesAt(less, j) == ContinuesAt(es, j) {
      assert less[..j] == es[..j];
    }
    ContinuesIs(es, i);
    hide ContinuesAt;
    assert Continuous(more) ==> ContinuesAt(more, i);
    assert Continuous(more) ==> forall j | 0 <= j < i :: ContinuesAt(more, j);
  }

  lemma ContinuesIs(es: seq<Envelope>, i: nat)
    requires i < |es|
    ensures Continues(es[..i], es[i]) == ContinuesAt(es, i)
  {
    hide Continues;
  }

  lemma FundedAppend(ds: seq<Delivery>, i: nat)
    requires i < |ds|
    ensures Funded(ds[..i + 1]) <==> Funded(ds[..i]) && ds[i].budget >= 2
  {
    assert ds[..i + 1] == ds[..i] + [ds[i]];
    if Funded(ds[..i + 1]) {
      forall j | 0 <= j < i ensures ds[..i][j].budget >= 2 {
        assert ds[..i][j] == ds[..i + 1][j];
      }
      assert ds[..i + 1][i] == ds[i];
    }
  }

  /** A gap row stays: later events have other ids and nothing is re-driven. */
  lemma GapsStay(c: Codec, t: string, db: Db, e: Envelope, db': Db, d: Disposition)
    requires StepEffect(c, db, e, db', d) && e.tenantId == t && e.eventId !in db.inbox
    ensures TenantGaps(db, t) != {} || d == Gap ==> TenantGaps(db', t) != {}
  {
    hide HopOf, HopCollides;
    if d == Gap {
      assert e.eventId in TenantGaps(db', t);
    } else if TenantGaps(db, t) != {} {
      var id :| id in TenantGaps(db, t);
      assert id in TenantGaps(db', t);
    }
  }

  lemma ReplayOneKeepsInv(c: Codec, t: string, es: seq<Envelope>, ds: seq<Delivery>, i: nat, db: Db, r: Replay)
    requires c.Lawful() && Retained(c, t, es) && ReadAs(c, ds, es) && i < |es|
    requires ReplayInv(t, es, ds, i, db, r)
    ensures ReplayInv(t, es, ds, i + 1, db, ReplayOne(c, t, r, ds[i]))
  {
    hide StepEffect, ProcessRecord, ProcessValidated, Tracks, OthersKept, During, Continuous, Continues, Funded;
    ContinuousAppend(es, i);
    FundedAppend(ds, i);
    assert ReadsAs(c, ds[i], es[i]);
    var e := es[i];
    var r' := ReplayOne(c, t, r, ds[i]);
    if r.stop == Running {
      assert e.tenantId == t;
      if ds[i].budget == 0 {
        NoBudget(c, r.db, ds[i]);
      } else {
        RecordStep(c, t, es, i, r.db, ds[i]);
        var (db', d) := ProcessValidated(c, r.db, e);
        StepDispositions(c, r.db, e, db', d);
        DuringFresh(t, es, i, r.db);
        StepKeepsDuring(c, t, es, i, r.db, db', d);
        StepKeepsOthers(c, t, r.db, e, db', d);
        OthersKeptCompose(t, db, r.db, db');
        GapsStay(c, t, r.db, e, db', d);
        if Continuous(es[..i]) && Funded(ds[..i]) {
          AppliesIfContinues(c, t, es, i, r.db, db', d);
          if d == Applied {
            StepTracks(c, t, es, i, r.db, db', d);
          }
        }
      }
    }
  }

  lemma DuringFresh(t: string, es: seq<Envelope>, i: nat, db: Db)
    requires i < |es| && During(t, es, i, db)
    ensures es[i].eventId !in db.inbox
  {
  }

  lemma NoBudget(c: Codec, db: Db, d: Delivery)
    requires d.budget == 0
    ensures ProcessRecord(c, db, d) == Outcome(db, None, false, [])
  {
  }

  lemma {:induction false} ReplayKeepsInv(c: Codec, t: string, es: seq<Envelope>, ds: seq<Delivery>, i: nat, db: Db, r: Replay)
    requires c.Lawful() && Retained(c, t, es) && ReadAs(c, ds, es) && i <= |es|
    requires ReplayInv(t, es, ds, 0, db, r)
    ensures ReplayInv(t, es, ds, i, db, ReplayRecords(c, t, r, ds[..i]))
  {
    hide ReplayInv, ReplayOne, Retained;
    if i > 0 {
      ReplayKeepsInv(c, t, es, ds, i - 1, db, r);
      ReplayOneKeepsInv(c, t, es, ds, i - 1, db, ReplayRecords(c, t, r, ds[..i - 1]));
      assert ds[..i][..i - 1] == ds[..i - 1];
    }
  }

  // --- the result --------------------------------------------------------------------------------------

  /** No event id of the history is in the inbox of another tenant. */
  ghost predicate IdsNotShared(db: Db, t: string, es: seq<Envelope>) {
    forall i | 0 <= i < |es| && es[i].eventId in db.inbox :: db.inbox[es[i].eventId].tenant == t
  }

  lemma ResetInv(c: Codec, db: Db, t: string, es: seq<Envelope>, ds: seq<Delivery>)
    requires Retained(c, t, es) && IdsNotShared(db, t, es)
    ensures ReplayInv(t, es, ds, 0, db, Replay(ResetTenant(db, t), Complete, 0, 0, 0, 0, Running))
  {
    var reset := ResetTenant(db, t);
    assert OthersKept(t, db, reset) by {
      hide Retained;
    }
    assert During(t, es, 0, reset) by {
      forall j | 0 <= j < |es| ensures es[j].eventId !in reset.inbox && Newer(reset, es[j]) {
        assert es[j].tenantId == t && Sound(es[j]);
      }
    }
    assert Tracks(t, es[..0], reset);
  }

  lemma JudgeIs(r: Replay, t: string)
    requires TenantFailures(r.db, t) == {}
    ensures Judge(r, t).db == r.db && Judge(r, t).stop == r.stop && Judge(r, t).applied == r.applied
    ensures Judge(r, t).status == Complete <==> r.status == Complete && TenantGaps(r.db, t) == {}
  {
  }

  /**
   The rebuild reports complete exactly when there is history, every item's versions run from 1 without a break
   and link up, every lineage event is a first version with unused parents, and no database operation failed.
   The projection is then each item's last event and the hops of the history. Other tenants are never touched.
   */
  lemma RebuildIsExact(c: Codec, db: Db, t: string, es: seq<Envelope>, ds: seq<Delivery>)
    requires c.Lawful() && Retained(c, t, es) && ReadAs(c, ds, es)
    requires IdsNotShared(db, t, es)
    ensures var r := ReplayTenant(c, ResetTenant(db, t), t, ds);
            && (r.status == Complete <==> es != [] && Continuous(es) && Funded(ds))
            && (r.status == Complete ==> Tracks(t, es, r.db) && r.applied == |es|)
            && OthersKept(t, db, r.db)
  {
    hide Continuous, Funded, Retained, ReplayRecords, ResetTenant, OthersKept, Tracks, TenantGaps, TenantFailures, Judge;
    var start := Replay(ResetTenant(db, t), Complete, 0, 0, 0, 0, Running);
    ResetInv(c, db, t, es, ds);
    ReplayKeepsInv(c, t, es, ds, |es|, db, start);
    assert es[..|es|] == es && ds[..|es|] == ds;
    var r := ReplayRecords(c, t, start, ds);
    if ds != [] && r.stop == Running {
      JudgeIs(r, t);
      if Continuous(es) && Funded(ds) {
        TrackedHasNoGaps(t, es, r.db);
      }
    }
  }

  lemma TrackedHasNoGaps(t: string, es: seq<Envelope>, db: Db)
    requires Tracks(t, es, db)
    ensures TenantGaps(db, t) == {}
  {
    hide LastOf, HopOf, HopFrom;
  }

  // --- the condition without the order -------------------------------------------------------------------

  ghost predicate Precedes(p: Envelope, e: Envelope) {
    && p.payload.QuantityDecremented? && e.payload.QuantityDecremented?
    && ItemKeyOf(p) == ItemKeyOf(e) && p.version + 1 == e.version && p.payload.after == e.payload.before
  }

  ghost predicate HasPrevious(es: seq<Envelope>, e: Envelope) {
    exists i | 0 <= i < |es| :: Precedes(es[i], e)
  }

  ghost predicate ParentsDiffer(a: Envelope, b: Envelope) {
    a.Kind() == b.Kind() && !a.payload.QuantityDecremented? ==> !SharesParent(a.Kind(), HopOf(a), HopOf(b))
  }

  /** Every item's versions are 1..n and link up; lineage events are first versions with unshared parents. */
  ghost predicate Contiguous(es: seq<Envelope>) {
    && (forall i | 0 <= i < |es| :: es[i].version == 1 || HasPrevious(es, es[i]))
    && (forall i, j | 0 <= i < j < |es| :: ParentsDiffer(es[i], es[j]))
  }

  lemma {:induction false} LastOfIndex(es: seq<Envelope>, k: ItemKey) returns (j: nat)
    requires LastOf(es, k).Some?
    ensures j < |es| && es[j] == LastOf(es, k).value
    ensures forall m | j < m < |es| :: !(es[m].payload.QuantityDecremented? && ItemKeyOf(es[m]) == k)
  {
    var e := es[|es| - 1];
    if e.payload.QuantityDecremented? && ItemKeyOf(e) == k {
      j := |es| - 1;
    } else {
      j := LastOfIndex(es[..|es| - 1], k);
    }
  }

  lemma {:induction false} LastOfExists(es: seq<Envelope>, m: nat)
    requires m < |es| && es[m].payload.QuantityDecremented?
    ensures LastOf(es, ItemKeyOf(es[m])).Some?
  {
    if m < |es| - 1 {
      LastOfExists(es[..|es| - 1], m);
    }
  }

  lemma ContinuesForward(c: Codec, t: string, es: seq<Envelope>, i: nat)
    requires Retained(c, t, es) && i < |es| && ContinuesAt(es, i)
    ensures es[i].version == 1 || HasPrevious(es, es[i])
    ensures forall j | 0 <= j < i :: ParentsDiffer(es[j], es[i])
  {
    hide HopOf, SharesParent, LastOf;
    var e := es[i];
    if e.payload.QuantityDecremented? && e.version != 1 {
      var j := LastOfIndex(es[..i], ItemKeyOf(e));
      assert Precedes(es[j], e);
    }
    forall j | 0 <= j < i ensures ParentsDiffer(es[j], e) {
      assert es[..i][j] == es[j];
    }
  }

  lemma ContinuesBackward(c: Codec, t: string, es: seq<Envelope>, i: nat)
    requires Retained(c, t, es) && i < |es| && Contiguous(es)
    ensures ContinuesAt(es, i)
  {
    hide HopOf, SharesParent, LastOf;
    var e := es[i];
    if e.payload.QuantityDecremented? {
      ItemContinues(c, t, es, i);
    } else {
      forall j | 0 <= j < |es[..i]| && es[..i][j].Kind() == e.Kind()
        ensures !SharesParent(e.Kind(), HopOf(es[..i][j]), HopOf(e))
      {
        assert ParentsDiffer(es[j], es[i]);
      }
    }
  }

  lemma ItemContinues(c: Codec, t: string, es: seq<Envelope>, i: nat)
    requires Retained(c, t, es) && i < |es| && es[i].payload.QuantityDecremented?
    requires es[i].version == 1 || HasPrevious(es, es[i])
    ensures ContinuesAt(es, i)
  {
    hide LastOf;
    var e := es[i];
    var k := ItemKeyOf(e);
    if e.version == 1 {
      if LastOf(es[..i], k).Some? {
        var j := LastOfIndex(es[..i], k);
        NotFirst(c, t, es, j, i);
      }
    } else {
      var m :| 0 <= m < |es| && Precedes(es[m], e);
      BeforeByVersion(c, t, es, m, i);
      assert es[..i][m] == es[m];
      LastOfExists(es[..i], m);
      var j := LastOfIndex(es[..i], k);
      Adjacent(c, t, es, m, j, i);
    }
  }

  lemma Adjacent(c: Codec, t: string, es: seq<Envelope>, m: nat, j: nat, i: nat)
    requires Retained(c, t, es) && m <= j < i < |es|
    requires SameAggregate(es[m], es[j]) && SameAggregate(es[j], es[i]) && es[i].version == es[m].version + 1
    ensures j == m
  {
  }

  lemma BeforeByVersion(c: Codec, t: string, es: seq<Envelope>, m: nat, i: nat)
    requires Retained(c, t, es) && m < |es| && i < |es| && SameAggregate(es[m], es[i]) && es[m].version < es[i].version
    ensures m < i
  {
    if i < m {
      assert SameAggregate(es[i], es[m]);
    }
  }

  lemma ContinuousIffContiguous(c: Codec, t: string, es: seq<Envelope>)
    requires Retained(c, t, es)
    ensures Continuous(es) <==> Contiguous(es)
  {
    hide ContinuesAt, HasPrevious, ParentsDiffer, Retained;
    if Continuous(es) {
      forall i | 0 <= i < |es|
        ensures es[i].version == 1 || HasPrevious(es, es[i])
        ensures forall j | 0 <= j < i :: ParentsDiffer(es[j], es[i])
      {
        assert ContinuesAt(es, i);
        ContinuesForward(c, t, es, i);
      }
    }
    if Contiguous(es) {
      forall i | 0 <= i < |es| ensures ContinuesAt(es, i) {
        ContinuesBackward(c, t, es, i);
      }
    }
  }

  /**
   Versions alone do not make a history complete: two first events of lots from one supplier, each a single
   version 1 of its own aggregate, leave the rebuild incomplete.
   */
  lemma SharedSupplierIsIncomplete(c: Codec, db: Db, t: string, a: Envelope, b: Envelope, ds: seq<Delivery>)
    requires c.Lawful() && Retained(c, t, [a, b]) && ReadAs(c, ds, [a, b]) && IdsNotShared(db, t, [a, b])
    requires a.payload.IngredientLotReceived? && b.payload.IngredientLotReceived?
    requires a.version == 1 && b.version == 1 && a.payload.supplierId == b.payload.supplierId
    ensures ReplayTenant(c, ResetTenant(db, t), t, ds).status == Incomplete
  {
    hide ReplayTenant, ResetTenant;
    var es := [a, b];
    RebuildIsExact(c, db, t, es, ds);
    ContinuousIffContiguous(c, t, es);
    assert !ParentsDiffer(es[0], es[1]);
  }
}
