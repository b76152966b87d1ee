/**
 The forecast source: a tenant's retained inventory events replayed beside the projection, and the status that says
 whether the two can be trusted together.
 */
module ForecastSource {
  import opened Events
  import opened Families
  import opened Projection
  import opened Convergence
  import opened Source
  import opened SourceInvariant
  import E = EndToEnd
  import A = AtRest
  import R = Relay

  datatype SnapshotStatus = SnapshotComplete | SnapshotStale | SnapshotIncomplete

  datatype Problem =
    | MalformedEvent | IdentityMismatch | OutboxHashMismatch | RecordedAtMismatch | NoDisposition
    | InboxIdentityMismatch | InboxHashMismatch | BadDisposition | RepeatedEvent
    | MissingOutbox | InboxGap
    | ReplayBroken
    | NoHistory | QuantityDiffers | VersionDiffers | NoProjection

  /** A status reason: an event not applied yet, or something wrong with an event or item. */
  datatype Reason = NotApplied(id: string) | Wrong(subject: string, problem: Problem)

  // --- loading -------------------------------------------------------------------------------------

  datatype Verdict = Use(event: Envelope) | Skip | Flag(reason: Reason)

  /** One row of the join of the outbox with the tenant's inbox. */
  function Classify(o: Outside, t: string, db: Db, id: string, row: OutboxRow): Verdict {
    match o.codec.parse(row.bytes)
    case Err(_) => Flag(Wrong(id, MalformedEvent))
    case Ok(env) =>
      if !env.payload.QuantityDecremented? then Skip
      else if env.eventId != id || env.tenantId != t || row.tenant != t || env.aggregateType != row.aggregateType
              || env.aggregateId != row.aggregate || env.version != row.version
      then Flag(Wrong(id, IdentityMismatch))
      else if o.codec.Hash(env) != row.hash then Flag(Wrong(id, OutboxHashMismatch))
      else if o.instant(env.recordedAt) != row.recordedAt then Flag(Wrong(id, RecordedAtMismatch))
      else if id !in db.inbox || db.inbox[id].tenant != t then
        Flag(if row.status == Quarantined then Wrong(id, NoDisposition) else NotApplied(id))
      else
        var seen := db.inbox[id];
        if seen.kind != row.kind || seen.aggregate != row.aggregate || seen.version != row.version
        then Flag(Wrong(id, InboxIdentityMismatch))
        else if seen.hash != row.hash then Flag(Wrong(id, InboxHashMismatch))
        else if IsDone(seen.disposition) then Use(env)
        else Flag(Wrong(id, BadDisposition))
  }

  datatype Loaded = Loaded(events: seq<Envelope>, reasons: set<Reason>)

  function Ids(events: seq<Envelope>): set<string> { set i | 0 <= i < |events| :: events[i].eventId }

  function Take(l: Loaded, v: Verdict): Loaded {
    match v
    case Skip => l
    case Flag(reason) => l.(reasons := l.reasons + {reason})
    case Use(env) =>
      if env.eventId in Ids(l.events) then l.(reasons := l.reasons + {Wrong(env.eventId, RepeatedEvent)})
      else l.(events := l.events + [env])
  }

  /** loadForecastEvents over the rows the query returned. */
  function LoadEvents(o: Outside, t: string, db: Db, outbox: map<string, OutboxRow>, order: seq<string>): Loaded
    requires forall id | id in order :: id in outbox
  {
    if order == [] then Loaded([], {})
    else
      var n := |order| - 1;
      assert order[n] in order;
      Take(LoadEvents(o, t, db, outbox, order[..n]), Classify(o, t, db, order[n], outbox[order[n]]))
  }

  method LoadForecastEvents(o: Outside, t: string, db: Db, outbox: map<string, OutboxRow>, order: seq<string>)
    returns (out: Loaded)
    requires forall id | id in order :: id in outbox
    ensures out == LoadEvents(o, t, db, outbox, order)
  {
    hide Classify;
    var events: seq<Envelope> := [];
    var reasons: set<Reason> := {};
    var seen: set<string> := {};
    var i := 0;
    while i < |order|
      invariant 0 <= i <= |order|
      invariant Loaded(events, reasons) == LoadEvents(o, t, db, outbox, order[..i])
      invariant seen == Ids(events)
    {
      assert order[i] in order;
      assert order[..i + 1][..i] == order[..i];
      var verdict := Classify(o, t, db, order[i], outbox[order[i]]);
      match verdict {
        case Skip =>
        case Flag(reason) => reasons := reasons + {reason};
        case Use(env) =>
          if env.eventId in seen {
            reasons := reasons + {Wrong(env.eventId, RepeatedEvent)};
          } else {
            IdsAppend(events, env);
            seen := seen + {env.eventId};
            events := events + [env];
          }
      }
      i := i + 1;
    }
    assert order[..i] == order;
    return Loaded(events, reasons);
  }

  lemma IdsAppend(events: seq<Envelope>, e: Envelope)
    ensures Ids(events + [e]) == Ids(events) + {e.eventId}
  {
    var more := events + [e];
    assert more[|events|] == e;
    assert forall i | 0 <= i < |events| :: more[i] == events[i];
  }

  /** The inbox rows detectForecastInboxHistoryGaps looks at. */
  predicate InScope(t: string, db: Db, outbox: map<string, OutboxRow>, cutoff: int, id: string) {
    && id in db.inbox && db.inbox[id].tenant == t && db.inbox[id].kind == InventoryItem
    && (id in outbox && outbox[id].tenant == t ==> outbox[id].recordedAt <= cutoff)
  }

  function InboxReasons(t: string, db: Db, outbox: map<string, OutboxRow>, cutoff: int, known: set<string>): set<Reason> {
    (set id | id in db.inbox && InScope(t, db, outbox, cutoff, id) && id !in known :: Wrong(id, MissingOutbox))
    + (set id | id in db.inbox && InScope(t, db, outbox, cutoff, id)
                && (db.inbox[id].disposition == Gap || db.inbox[id].disposition == Stale) :: Wrong(id, InboxGap))
  }

  // --- replay --------------------------------------------------------------------------------------

  /** The variables of the replay loop of one item. */
  datatype Replayed = Replayed(current: int, expected: int, last: Option<ItemRow>, broken: bool)

  function ReplayStep(r: Replayed, e: Envelope): Replayed {
    if !e.payload.QuantityDecremented? || e.version != r.expected then r.(broken := true)
    else if e.version != 1 && e.payload.before != r.current then r.(broken := true)
    else if e.payload.before - e.payload.decremented != e.payload.after || e.payload.after < 0 then
      Replayed(if e.version == 1 then e.payload.before else r.current, r.expected, r.last, true)
    else Replayed(e.payload.after, r.expected + 1, Some(ItemRow(e.payload.after, e.version)), r.broken)
  }

  function ReplaySeries(es: seq<Envelope>): Replayed {
    if es == [] then Replayed(0, 1, None, false)
    else ReplayStep(ReplaySeries(es[..|es| - 1]), es[|es| - 1])
  }

  method ReplayItem(es: seq<Envelope>) returns (last: Option<ItemRow>, broken: bool)
    ensures last == ReplaySeries(es).last && broken == ReplaySeries(es).broken
  {
    var current, expected := 0, 1;
    last, broken := None, false;
    var i := 0;
    while i < |es|
      invariant 0 <= i <= |es|
      invariant Replayed(current, expected, last, broken) == ReplaySeries(es[..i])
    {
      assert es[..i + 1][..i] == es[..i];
      var e := es[i];
      i := i + 1;
      if !e.payload.QuantityDecremented? || e.version != expected {
        broken := true;
        continue;
      }
      if e.version == 1 {
        current := e.payload.before;
      } else if e.payload.before != current {
        broken := true;
        continue;
      }
      if e.payload.before - e.payload.decremented != e.payload.after || e.payload.after < 0 {
        broken := true;
        continue;
      }
      current := e.payload.after;
      last := Some(ItemRow(current, e.version));
      expected := expected + 1;
    }
    assert es[..i] == es;
  }

  /** The item's events in the order they were loaded, which is the order of their versions. */
  function Series(events: seq<Envelope>, item: string): seq<Envelope> {
    if events == [] then []
    else
      var e := events[|events| - 1];
      Series(events[..|events| - 1], item) + if e.aggregateId == item then [e] else []
  }

  function Items(events: seq<Envelope>): set<string> { set i | 0 <= i < |events| :: events[i].aggregateId }

  /** replayForecastEvents: where each item's replay ended. */
  function ReplayState(events: seq<Envelope>): map<string, ItemRow> {
    map item | item in Items(events) && ReplaySeries(Series(events, item)).last.Some? ::
      ReplaySeries(Series(events, item)).last.value
  }

  function ReplayReasons(events: seq<Envelope>): set<Reason> {
    set item | item in Items(events) && ReplaySeries(Series(events, item)).broken :: Wrong(item, ReplayBroken)
  }

  // --- comparison and status -------------------------------------------------------------------------

  function TenantItems(db: Db, t: string): map<string, ItemRow> {
    map k | k in db.items && k.tenant == t :: k.item := db.items[k]
  }

  /** compareForecastProjection. */
  function CompareReasons(projection: map<string, ItemRow>, replay: map<string, ItemRow>): set<Reason> {
    (set item | item in projection && item !in replay :: Wrong(item, NoHistory))
    + (set item | item in projection && item in replay && replay[item].quantity != projection[item].quantity
         :: Wrong(item, QuantityDiffers))
    + (set item | item in projection && item in replay && replay[item].version != projection[item].version
         :: Wrong(item, VersionDiffers))
    + (set item | item in replay && item !in projection :: Wrong(item, NoProjection))
  }

  function Reasons(o: Outside, t: string, db: Db, outbox: map<string, OutboxRow>, cutoff: int, order: seq<string>): set<Reason>
    requires forall id | id in order :: id in outbox
  {
    var l := LoadEvents(o, t, db, outbox, order);
    l.reasons + InboxReasons(t, db, outbox, cutoff, Ids(l.events)) + ReplayReasons(l.events)
    + CompareReasons(TenantItems(db, t), ReplayState(l.events))
  }

  function StatusOf(reasons: set<Reason>): SnapshotStatus {
    if reasons == {} then SnapshotComplete
    else if forall r | r in reasons :: r.NotApplied? then SnapshotStale
    else SnapshotIncomplete
  }

  // --- clean states ----------------------------------------------------------------------------------

  /** The rows the event query selects, by aggregate and version. */
  ghost predicate Selected(outbox: map<string, OutboxRow>, t: string, cutoff: int, order: seq<string>) {
    && (forall id :: id in order <==>
          id in outbox && outbox[id].tenant == t && outbox[id].kind == InventoryItem && outbox[id].recordedAt <= cutoff)
    && (forall i, j | 0 <= i < j < |order| :: order[i] != order[j])
    && (forall i, j | 0 <= i < j < |order| && outbox[order[i]].aggregate == outbox[order[j]].aggregate ::
          outbox[order[i]].version <= outbox[order[j]].version)
  }

  /** The tenant's inventory events, all of them recorded by the cutoff. */
  ghost predicate CutoffAfterAll(outbox: map<string, OutboxRow>, t: string, cutoff: int) {
    forall id | id in outbox && outbox[id].tenant == t && outbox[id].kind == InventoryItem :: outbox[id].recordedAt <= cutoff
  }

  ghost predicate NoneQuarantined(outbox: map<string, OutboxRow>) {
    forall id | id in outbox :: outbox[id].status != Quarantined
  }

  predicate Ours(h: History, t: string, e: Envelope) {
    InHistory(h, e) && e.payload.QuantityDecremented? && e.tenantId == t
  }

  /** The database keeps the event's timestamp exactly: it is a whole number of microseconds. */
  predicate Exact(o: Outside, e: Envelope) { o.instant(e.recordedAt) % 1000 == 0 }

  ghost predicate AllExact(o: Outside, h: History, t: string) {
    forall e :: Ours(h, t, e) ==> Exact(o, e)
  }

  predicate IsApplied(db: Db, e: Envelope) { e.version <= VersionOf(db.items, ItemKeyOf(e)) }

  ghost predicate AllApplied(h: History, db: Db, t: string) {
    forall e :: Ours(h, t, e) ==> IsApplied(db, e)
  }

  ghost predicate HasGap(db: Db, t: string) {
    exists id :: id in db.inbox && db.inbox[id].tenant == t && db.inbox[id].kind == InventoryItem
                 && db.inbox[id].disposition == Gap
  }

  /** A state of the clean system, and a query over it whose cutoff leaves nothing out. */
  ghost predicate CleanState(o: Outside, l: Ledger, db: Db, t: string, cutoff: int, order: seq<string>) {
    && o.codec.Lawful() && LedgerInv(o, l) && CleanDb(o.codec, l.history, db) && NoneQuarantined(l.source.outbox)
    && Selected(l.source.outbox, t, cutoff, order) && CutoffAfterAll(l.source.outbox, t, cutoff)
  }

  /** What the row of an event is judged to be. */
  function Expected(o: Outside, db: Db, e: Envelope): Verdict {
    if !Exact(o, e) then Flag(Wrong(e.eventId, RecordedAtMismatch))
    else if e.eventId !in db.inbox then Flag(NotApplied(e.eventId))
    else if IsApplied(db, e) then Use(e)
    else Flag(Wrong(e.eventId, BadDisposition))
  }

  lemma RowVerdict(o: Outside, l: Ledger, db: Db, t: string, e: Envelope)
    requires o.codec.Lawful() && LedgerInv(o, l) && CleanDb(o.codec, l.history, db) && NoneQuarantined(l.source.outbox)
    requires Ours(l.history, t, e)
    ensures e.eventId in l.source.outbox
    ensures Classify(o, t, db, e.eventId, l.source.outbox[e.eventId]) == Expected(o, db, e)
    ensures e.eventId in db.inbox ==>
              db.inbox[e.eventId].tenant == t && db.inbox[e.eventId].kind == InventoryItem
              && (if IsApplied(db, e) then IsDone(db.inbox[e.eventId].disposition) else db.inbox[e.eventId].disposition == Gap)
  {
    hide UniqueIds, UniqueParents, ItemsBalanced, OrdersMatch, HopsMatch, Caused, ItemClean, HopClean, RowClean;
    EventRow(o, l.history, l.source.outbox, e);
    InHistoryValid(o.codec, l.history, e);
    if e.eventId in db.inbox {
      RowOfEvent(o.codec, l.history, db, e);
      SettledRow(o.codec, l.history, Session(db, {}, {}), e);
    }
  }

  /** The event of each selected row. */
  ghost predicate Rows(o: Outside, l: Ledger, t: string, order: seq<string>, es: seq<Envelope>) {
    && |es| == |order|
    && (forall i | 0 <= i < |es| :: Ours(l.history, t, es[i]) && es[i].eventId == order[i])
    && (forall i, j | 0 <= i < j < |es| && es[i].aggregateId == es[j].aggregateId :: es[i].version < es[j].version)
  }

  lemma RowsExist(o: Outside, l: Ledger, db: Db, t: string, cutoff: int, order: seq<string>) returns (es: seq<Envelope>)
    requires CleanState(o, l, db, t, cutoff, order)
    ensures Rows(o, l, t, order, es)
    ensures forall e | Ours(l.history, t, e) :: e.eventId in order
  {
    hide CleanDb, ItemsBalanced, OrdersMatch, HopsMatch, Caused, UniqueParents, UniqueIds;
    var h := l.history;
    es := seq(|order|, i requires 0 <= i < |order| =>
      assert order[i] in order;
      var row := l.source.outbox[order[i]];
      assert OutboxRowClean(o, h, order[i], row);
      EventAt(h, row.kind, row.tenant, row.aggregate, row.version).value);
    forall i | 0 <= i < |es|
      ensures Ours(h, t, es[i]) && es[i].eventId == order[i]
      ensures es[i].aggregateId == l.source.outbox[order[i]].aggregate && es[i].version == l.source.outbox[order[i]].version
    {
      assert order[i] in order;
      var row := l.source.outbox[order[i]];
      assert OutboxRowClean(o, h, order[i], row);
      EventAtInHistory(o.codec, h, row.kind, row.tenant, row.aggregate, row.version);
    }
    forall i, j | 0 <= i < j < |es| && es[i].aggregateId == es[j].aggregateId ensures es[i].version < es[j].version {
      SameItemOtherVersion(h, t, es[i], es[j]);
    }
    forall e | Ours(h, t, e) ensures e.eventId in order {
      EventRow(o, h, l.source.outbox, e);
      RowColumns(o, l.source.outbox[e.eventId], e);
    }
  }

  lemma SameItemOtherVersion(h: History, t: string, a: Envelope, b: Envelope)
    requires Ours(h, t, a) && Ours(h, t, b) && a.aggregateId == b.aggregateId && a.eventId != b.eventId
    ensures a.version != b.version
  {
  }

  /** The events that the load keeps: exact and applied, in order. */
  function Kept(o: Outside, db: Db, es: seq<Envelope>): seq<Envelope> {
    if es == [] then []
    else
      var e := es[|es| - 1];
      Kept(o, db, es[..|es| - 1]) + if Exact(o, e) && e.eventId in db.inbox && IsApplied(db, e) then [e] else []
  }

  function Flags(o: Outside, db: Db, es: seq<Envelope>): set<Reason> {
    set i | 0 <= i < |es| && Expected(o, db, es[i]).Flag? :: Expected(o, db, es[i]).reason
  }

  lemma {:induction false} KeptIds(o: Outside, db: Db, es: seq<Envelope>)
    ensures forall e :: e in Kept(o, db, es) <==> e in es && Exact(o, e) && e.eventId in db.inbox && IsApplied(db, e)
  {
    if es != [] {
      KeptIds(o, db, es[..|es| - 1]);
      assert es == es[..|es| - 1] + [es[|es| - 1]];
    }
  }

  lemma TakeStep(o: Outside, db: Db, es: seq<Envelope>, n: nat)
    requires n < |es| && es[n].eventId !in Ids(Kept(o, db, es[..n]))
    ensures Take(Loaded(Kept(o, db, es[..n]), Flags(o, db, es[..n])), Expected(o, db, es[n]))
         == Loaded(Kept(o, db, es[..n + 1]), Flags(o, db, es[..n + 1]))
  {
    hide Exact, IsApplied, Ids, Flags;
    FlagsAppend(o, db, es, n);
    assert es[..n + 1][..n] == es[..n];
  }

  lemma {:induction false} LoadIsKept(o: Outside, l: Ledger, db: Db, t: string, cutoff: int, order: seq<string>,
                                      es: seq<Envelope>, n: nat)
    requires CleanState(o, l, db, t, cutoff, order) && Rows(o, l, t, order, es) && n <= |order|
    ensures (forall id | id in order[..n] :: id in l.source.outbox)
    ensures LoadEvents(o, t, db, l.source.outbox, order[..n]) == Loaded(Kept(o, db, es[..n]), Flags(o, db, es[..n]))
  {
    hide LedgerInv, CleanDb, Classify, Take, Expected, Exact, IsApplied, Codec.Lawful, Ids, NoneQuarantined, CutoffAfterAll,
         Flags, Kept, LoadEvents;
    SelectedIn(l.source.outbox, t, cutoff, order, n);
    if n == 0 {
      NothingLoaded(o, t, db, l.source.outbox);
      assert order[..0] == [] && es[..0] == [];
    } else {
      LoadIsKept(o, l, db, t, cutoff, order, es, n - 1);
      var e := es[n - 1];
      assert Ours(l.history, t, e) && e.eventId == order[n - 1];
      RowVerdict(o, l, db, t, e);
      FreshAmongKept(o, l, t, db, order, es, n - 1);
      TakeStep(o, db, es, n - 1);
      LoadUnfolds(o, t, db, l.source.outbox, order, n);
    }
  }

  lemma NothingLoaded(o: Outside, t: string, db: Db, outbox: map<string, OutboxRow>)
    ensures LoadEvents(o, t, db, outbox, []) == Loaded(Kept(o, db, []), Flags(o, db, []))
  {
    hide Expected;
    assert Flags(o, db, []) == {};
  }

  lemma SelectedIn(outbox: map<string, OutboxRow>, t: string, cutoff: int, order: seq<string>, n: nat)
    requires Selected(outbox, t, cutoff, order) && n <= |order|
    ensures forall id | id in order[..n] :: id in outbox
  {
    assert forall id | id in order[..n] :: id in order;
  }

  lemma LoadUnfolds(o: Outside, t: string, db: Db, outbox: map<string, OutboxRow>, order: seq<string>, n: nat)
    requires 0 < n <= |order| && forall id | id in order[..n] :: id in outbox
    requires order[n - 1] in outbox && forall id | id in order[..n - 1] :: id in outbox
    ensures LoadEvents(o, t, db, outbox, order[..n])
         == Take(LoadEvents(o, t, db, outbox, order[..n - 1]), Classify(o, t, db, order[n - 1], outbox[order[n - 1]]))
  {
    hide Take, Classify;
    assert order[..n][..n - 1] == order[..n - 1];
  }

  lemma FlagsAppend(o: Outside, db: Db, es: seq<Envelope>, n: nat)
    requires n < |es|
    ensures Flags(o, db, es[..n + 1])
         == Flags(o, db, es[..n]) + if Expected(o, db, es[n]).Flag? then {Expected(o, db, es[n]).reason} else {}
  {
    hide Expected;
    var more := es[..n + 1];
    assert more[n] == es[n];
    assert forall i | 0 <= i < n :: more[i] == es[..n][i];
  }

  lemma FreshAmongKept(o: Outside, l: Ledger, t: string, db: Db, order: seq<string>, es: seq<Envelope>, n: nat)
    requires Rows(o, l, t, order, es) && n < |es| && forall i, j | 0 <= i < j < |order| :: order[i] != order[j]
    ensures es[n].eventId !in Ids(Kept(o, db, es[..n]))
  {
    hide Exact, IsApplied;
    KeptIds(o, db, es[..n]);
    var kept := Kept(o, db, es[..n]);
    forall i | 0 <= i < |kept| ensures kept[i].eventId != es[n].eventId {
      assert kept[i] in kept;
      var j :| 0 <= j < n && es[..n][j] == kept[i];
      assert es[j].eventId == order[j];
    }
  }

  // --- replaying what was kept -------------------------------------------------------------------------

  lemma {:induction false} SeriesMembers(events: seq<Envelope>, item: string)
    ensures forall e :: e in Series(events, item) <==> e in events && e.aggregateId == item
  {
    if events != [] {
      SeriesMembers(events[..|events| - 1], item);
      assert events == events[..|events| - 1] + [events[|events| - 1]];
    }
  }

  /** Loading keeps events independently of their item. */
  lemma {:induction false} SeriesOfKept(o: Outside, db: Db, es: seq<Envelope>, item: string)
    ensures Series(Kept(o, db, es), item) == Kept(o, db, Series(es, item))
  {
    hide Exact, IsApplied;
    if es != [] {
      var init, e := es[..|es| - 1], es[|es| - 1];
      SeriesOfKept(o, db, init, item);
      if Exact(o, e) && e.eventId in db.inbox && IsApplied(db, e) {
        assert Kept(o, db, es)[..|Kept(o, db, es)| - 1] == Kept(o, db, init);
      } else {
        assert Kept(o, db, es) == Kept(o, db, init);
      }
      if e.aggregateId == item {
        assert Series(es, item)[..|Series(es, item)| - 1] == Series(init, item);
      } else {
        assert Series(es, item) == Series(init, item);
      }
    }
  }

  ghost predicate AllRows(l: Ledger, t: string, es: seq<Envelope>) {
    forall e | Ours(l.history, t, e) :: e in es
  }

  /** In version order the item's rows are its chain. */
  lemma {:induction false} SeriesIsChainPrefix(o: Outside, l: Ledger, t: string, order: seq<string>, es: seq<Envelope>,
                                               item: string, n: nat)
    requires LedgerInv(o, l) && Rows(o, l, t, order, es) && AllRows(l, t, es) && n <= |es|
    requires forall i, j | 0 <= i < j < |order| :: order[i] != order[j]
    ensures var s := Series(es[..n], item);
            |s| <= |ChainOf(l.history, ItemKey(t, item))| && s == ChainOf(l.history, ItemKey(t, item))[..|s|]
  {
    hide LedgerInv, ChainOf;
    if n > 0 {
      SeriesIsChainPrefix(o, l, t, order, es, item, n - 1);
      assert es[..n][..n - 1] == es[..n - 1];
      var s := Series(es[..n - 1], item);
      var e := es[n - 1];
      if e.aggregateId == item {
        SeriesMembers(es[..n - 1], item);
        NextInChain(o, l, t, order, es, item, n - 1, s);
        var chain := ChainOf(l.history, ItemKey(t, item));
        assert chain[..|s| + 1] == chain[..|s|] + [chain[|s|]];
      }
    }
  }

  lemma NextInChain(o: Outside, l: Ledger, t: string, order: seq<string>, es: seq<Envelope>, item: string, n: nat,
                    s: seq<Envelope>)
    requires LedgerInv(o, l) && Rows(o, l, t, order, es) && AllRows(l, t, es) && n < |es| && es[n].aggregateId == item
    requires forall i, j | 0 <= i < j < |order| :: order[i] != order[j]
    requires |s| <= |ChainOf(l.history, ItemKey(t, item))| && s == ChainOf(l.history, ItemKey(t, item))[..|s|]
    requires forall e :: e in s <==> e in es[..n] && e.aggregateId == item
    ensures |s| < |ChainOf(l.history, ItemKey(t, item))| && es[n] == ChainOf(l.history, ItemKey(t, item))[|s|]
  {
    hide LedgerInv;
    var chain := ChainOf(l.history, ItemKey(t, item));
    var e := es[n];
    assert Ours(l.history, t, e);
    assert 1 <= e.version <= |chain| && chain[e.version - 1] == e;
    assert e.version > |s| by {
      if e.version <= |s| {
        assert s[e.version - 1] == e;
        NotEarlier(o, l, t, order, es, n);
      }
    }
    if |s| + 1 < e.version {
      ChainEvent(o, l, t, item, |s|);
      EarlierSeen(o, l, t, order, es, item, n, |s|);
      PrefixVersion(o, l, t, item, |s|, chain[|s|]);
    }
  }

  /** The rows of an item's earlier versions come earlier. */
  lemma EarlierSeen(o: Outside, l: Ledger, t: string, order: seq<string>, es: seq<Envelope>, item: string, n: nat, i: nat)
    requires LedgerInv(o, l) && Rows(o, l, t, order, es) && AllRows(l, t, es) && n < |es| && es[n].aggregateId == item
    requires i < |ChainOf(l.history, ItemKey(t, item))| && i + 1 < es[n].version
    ensures ChainOf(l.history, ItemKey(t, item))[i] in es[..n]
  {
    hide LedgerInv;
    ChainEvent(o, l, t, item, i);
    var p := ChainOf(l.history, ItemKey(t, item))[i];
    assert p in es;
    var j :| 0 <= j < |es| && es[j] == p;
    EarlierVersion(o, l, t, order, es, j, n);
    assert es[..n][j] == p;
  }

  lemma PrefixVersion(o: Outside, l: Ledger, t: string, item: string, m: nat, p: Envelope)
    requires LedgerInv(o, l) && m <= |ChainOf(l.history, ItemKey(t, item))|
    requires p in ChainOf(l.history, ItemKey(t, item))[..m]
    ensures p.version <= m
  {
    hide LedgerInv;
    var s := ChainOf(l.history, ItemKey(t, item))[..m];
    var i :| 0 <= i < |s| && s[i] == p;
    ChainEvent(o, l, t, item, i);
  }

  lemma NotEarlier(o: Outside, l: Ledger, t: string, order: seq<string>, es: seq<Envelope>, n: nat)
    requires Rows(o, l, t, order, es) && n < |es| && forall i, j | 0 <= i < j < |order| :: order[i] != order[j]
    ensures es[n] !in es[..n]
  {
    forall j | 0 <= j < n ensures es[j] != es[n] {
      assert es[j].eventId == order[j] && es[n].eventId == order[n];
    }
  }

  lemma EarlierVersion(o: Outside, l: Ledger, t: string, order: seq<string>, es: seq<Envelope>, j: nat, n: nat)
    requires Rows(o, l, t, order, es) && j < |es| && n < |es|
    requires es[j].aggregateId == es[n].aggregateId && es[j].version < es[n].version
    ensures j < n
  {
  }

  lemma ChainEvent(o: Outside, l: Ledger, t: string, item: string, i: nat)
    requires LedgerInv(o, l) && i < |ChainOf(l.history, ItemKey(t, item))|
    ensures var e := ChainOf(l.history, ItemKey(t, item))[i];
            Ours(l.history, t, e) && e.aggregateId == item && e.version == i + 1
    ensures var e := ChainOf(l.history, ItemKey(t, item))[i];
            o.codec.valid(e)
            && (i > 0 ==> var p := ChainOf(l.history, ItemKey(t, item))[i - 1];
                          p.payload.QuantityDecremented? && p.payload.after == e.payload.before)
  {
    hide UniqueIds, UniqueParents, OutboxMatches, ItemsBalanced, OrdersMatch, HopsMatch, Caused;
    assert CleanChain(o.codec, ItemKey(t, item), l.history.chains[ItemKey(t, item)]);
  }

  lemma SeriesIsChain(o: Outside, l: Ledger, t: string, order: seq<string>, es: seq<Envelope>, item: string)
    requires LedgerInv(o, l) && Rows(o, l, t, order, es) && AllRows(l, t, es)
    requires forall i, j | 0 <= i < j < |order| :: order[i] != order[j]
    ensures Series(es, item) == ChainOf(l.history, ItemKey(t, item))
  {
    hide LedgerInv, ChainOf, Series, Rows;
    SeriesIsChainPrefix(o, l, t, order, es, item, |es|);
    assert es[..|es|] == es;
    SeriesMembers(es, item);
    var s, chain := Series(es, item), ChainOf(l.history, ItemKey(t, item));
    assert |s| == |chain| by {
      if |s| < |chain| {
        ChainEvent(o, l, t, item, |s|);
        assert chain[|s|] in s;
        var i :| 0 <= i < |s| && s[i] == chain[|s|];
        ChainEvent(o, l, t, item, i);
      }
    }
  }

  /** Of an item's chain the load keeps the projected part. */
  lemma {:induction false} KeptChain(o: Outside, l: Ledger, db: Db, t: string, item: string, n: nat)
    requires o.codec.Lawful() && LedgerInv(o, l) && CleanDb(o.codec, l.history, db) && AllExact(o, l.history, t)
    requires n <= |ChainOf(l.history, ItemKey(t, item))|
    ensures var v := VersionOf(db.items, ItemKey(t, item));
            0 <= v && Kept(o, db, ChainOf(l.history, ItemKey(t, item))[..n])
                      == ChainOf(l.history, ItemKey(t, item))[..if n <= v then n else v]
  {
    hide LedgerInv, CleanDb, ChainOf, Codec.Lawful, Exact;
    var k := ItemKey(t, item);
    var v := VersionOf(db.items, k);
    var chain := ChainOf(l.history, k);
    if k in db.items {
      ItemCleanFacts(o.codec, l.history, db, k);
    }
    if n > 0 {
      KeptChain(o, l, db, t, item, n - 1);
      ChainEvent(o, l, t, item, n - 1);
      var e := chain[n - 1];
      assert chain[..n][..n - 1] == chain[..n - 1] && chain[..n] == chain[..n - 1] + [e];
      assert Exact(o, e);
      if n <= v {
        AppliedIsSeen(o, l, db, t, item, n - 1);
      }
    }
  }

  lemma AppliedIsSeen(o: Outside, l: Ledger, db: Db, t: string, item: string, i: nat)
    requires LedgerInv(o, l) && CleanDb(o.codec, l.history, db) && i < VersionOf(db.items, ItemKey(t, item))
    requires i < |ChainOf(l.history, ItemKey(t, item))|
    ensures ChainOf(l.history, ItemKey(t, item))[i].eventId in db.inbox
  {
    hide LedgerInv, RowClean, HopClean;
    assert ItemClean(l.history, db, ItemKey(t, item));
  }

  /** Replaying a prefix of a chain ends at its last event. */
  lemma {:induction false} ReplayChain(o: Outside, l: Ledger, t: string, item: string, n: nat)
    requires o.codec.Lawful() && LedgerInv(o, l) && n <= |ChainOf(l.history, ItemKey(t, item))|
    ensures var chain := ChainOf(l.history, ItemKey(t, item));
            var r := ReplaySeries(chain[..n]);
            && !r.broken && r.expected == n + 1
            && (n == 0 ==> r.last == None)
            && (n > 0 ==> chain[n - 1].payload.QuantityDecremented?
                          && r.last == Some(ItemRow(chain[n - 1].payload.after, n))
                          && r.current == chain[n - 1].payload.after)
  {
    hide LedgerInv, ChainOf;
    if n > 0 {
      var chain := ChainOf(l.history, ItemKey(t, item));
      ReplayChain(o, l, t, item, n - 1);
      ChainEvent(o, l, t, item, n - 1);
      assert chain[..n][..n - 1] == chain[..n - 1];
      assert Sound(chain[n - 1]);
    }
  }

  /** The kept events of an item replay to its projection row. */
  lemma ItemReplays(o: Outside, l: Ledger, db: Db, t: string, order: seq<string>, es: seq<Envelope>, item: string)
    requires o.codec.Lawful() && LedgerInv(o, l) && CleanDb(o.codec, l.history, db) && AllExact(o, l.history, t)
    requires Rows(o, l, t, order, es) && AllRows(l, t, es) && forall i, j | 0 <= i < j < |order| :: order[i] != order[j]
    ensures var s := Series(Kept(o, db, es), item);
            var k := ItemKey(t, item);
            && (s != [] <==> k in db.items)
            && !ReplaySeries(s).broken
            && (k in db.items ==> ReplaySeries(s).last == Some(db.items[k]))
  {
    hide LedgerInv, CleanDb, ChainOf, AllExact, Rows, AllRows, Codec.Lawful, ReplaySeries, Kept, Series;
    var k := ItemKey(t, item);
    var chain := ChainOf(l.history, k);
    SeriesOfKept(o, db, es, item);
    SeriesIsChain(o, l, t, order, es, item);
    KeptChain(o, l, db, t, item, |chain|);
    assert chain[..|chain|] == chain;
    if k in db.items {
      ItemCleanFacts(o.codec, l.history, db, k);
      ChainIs(l.history, k);
    }
    ReplayChain(o, l, t, item, VersionOf(db.items, k));
  }

  lemma ChainIs(h: History, k: ItemKey)
    requires k in h.chains
    ensures ChainOf(h, k) == h.chains[k]
  {
  }

  /** The independent replay ends at the incremental projection. */
  lemma ReplayMeetsProjection(o: Outside, l: Ledger, db: Db, t: string, order: seq<string>, es: seq<Envelope>)
    requires o.codec.Lawful() && LedgerInv(o, l) && CleanDb(o.codec, l.history, db) && AllExact(o, l.history, t)
    requires Rows(o, l, t, order, es) && AllRows(l, t, es) && forall i, j | 0 <= i < j < |order| :: order[i] != order[j]
    ensures ReplayState(Kept(o, db, es)) == TenantItems(db, t)
    ensures ReplayReasons(Kept(o, db, es)) == {}
    ensures CompareReasons(TenantItems(db, t), ReplayState(Kept(o, db, es))) == {}
  {
    hide LedgerInv, CleanDb, AllExact, Rows, AllRows, Codec.Lawful, ReplaySeries, Kept, Series;
    var kept := Kept(o, db, es);
    forall item
      ensures item in Items(kept) <==> ItemKey(t, item) in db.items
      ensures !ReplaySeries(Series(kept, item)).broken
      ensures ItemKey(t, item) in db.items ==> ReplaySeries(Series(kept, item)).last == Some(db.items[ItemKey(t, item)])
    {
      ItemReplays(o, l, db, t, order, es, item);
      ItemsOfSeries(kept, item);
    }
    hide Items;
    TenantItemsIs(db, t);
    assert ReplayState(kept) == TenantItems(db, t);
  }

  lemma ItemsOfSeries(events: seq<Envelope>, item: string)
    ensures item in Items(events) <==> Series(events, item) != []
  {
    SeriesMembers(events, item);
    if item in Items(events) {
      var i :| 0 <= i < |events| && events[i].aggregateId == item;
      assert events[i] in Series(events, item);
    }
    if Series(events, item) != [] {
      var e := Series(events, item)[0];
      assert e in Series(events, item);
      var i :| 0 <= i < |events| && events[i] == e;
    }
  }

  lemma TenantItemsIs(db: Db, t: string)
    ensures forall item :: item in TenantItems(db, t) <==> ItemKey(t, item) in db.items
    ensures forall item | item in TenantItems(db, t) :: TenantItems(db, t)[item] == db.items[ItemKey(t, item)]
  {
    forall item ensures item in TenantItems(db, t) <==> ItemKey(t, item) in db.items {
      if ItemKey(t, item) in db.items {
        assert ItemKey(t, item).item in TenantItems(db, t);
      }
    }
  }

  // --- the status ------------------------------------------------------------------------------------

  /** The rows the inbox scan reports are exactly the gap rows, once timestamps are exact. */
  lemma ScanFindsGaps(o: Outside, l: Ledger, db: Db, t: string, cutoff: int, es: seq<Envelope>)
    requires o.codec.Lawful() && LedgerInv(o, l) && CleanDb(o.codec, l.history, db) && NoneQuarantined(l.source.outbox)
    requires CutoffAfterAll(l.source.outbox, t, cutoff) && AllExact(o, l.history, t) && AllRows(l, t, es)
    ensures InboxReasons(t, db, l.source.outbox, cutoff, Ids(Kept(o, db, es))) == {} <==> !HasGap(db, t)
    ensures forall r | r in InboxReasons(t, db, l.source.outbox, cutoff, Ids(Kept(o, db, es))) :: r.Wrong?
  {
    hide LedgerInv, CleanDb, Kept, AllExact, AllRows, NoneQuarantined, Codec.Lawful, CutoffAfterAll, Ids;
    var kept := Kept(o, db, es);
    var reasons := InboxReasons(t, db, l.source.outbox, cutoff, Ids(kept));
    if HasGap(db, t) {
      var id :| id in db.inbox && db.inbox[id].tenant == t && db.inbox[id].kind == InventoryItem
                && db.inbox[id].disposition == Gap;
      GapInScope(o, l, db, t, cutoff, id);
      assert Wrong(id, InboxGap) in reasons;
    } else {
      forall id | id in db.inbox && db.inbox[id].tenant == t && db.inbox[id].kind == InventoryItem
        ensures id in Ids(kept) && IsDone(db.inbox[id].disposition)
      {
        SeenIsKept(o, l, db, t, es, id);
      }
    }
  }

  lemma InboxEvent(o: Outside, l: Ledger, db: Db, t: string, id: string) returns (e: Envelope)
    requires LedgerInv(o, l) && CleanDb(o.codec, l.history, db)
    requires id in db.inbox && db.inbox[id].tenant == t && db.inbox[id].kind == InventoryItem
    ensures Ours(l.history, t, e) && e.eventId == id
  {
    hide OutboxMatches, ItemsBalanced, OrdersMatch, HopsMatch, Caused, UniqueIds, UniqueParents, ItemClean, HopClean;
    assert RowClean(o.codec, l.history, db, id);
    var row := db.inbox[id];
    EventAtInHistory(o.codec, l.history, row.kind, row.tenant, row.aggregate, row.version);
    e := EventAt(l.history, row.kind, row.tenant, row.aggregate, row.version).value;
  }

  lemma GapInScope(o: Outside, l: Ledger, db: Db, t: string, cutoff: int, id: string)
    requires LedgerInv(o, l) && CleanDb(o.codec, l.history, db) && CutoffAfterAll(l.source.outbox, t, cutoff)
    requires id in db.inbox && db.inbox[id].tenant == t && db.inbox[id].kind == InventoryItem
    ensures InScope(t, db, l.source.outbox, cutoff, id)
  {
    hide CleanDb, ItemsBalanced, OrdersMatch, HopsMatch, Caused, UniqueParents, UniqueIds;
    var e := InboxEvent(o, l, db, t, id);
    EventRow(o, l.history, l.source.outbox, e);
    RowColumns(o, l.source.outbox[id], e);
  }

  lemma SeenIsKept(o: Outside, l: Ledger, db: Db, t: string, es: seq<Envelope>, id: string)
    requires o.codec.Lawful() && LedgerInv(o, l) && CleanDb(o.codec, l.history, db) && NoneQuarantined(l.source.outbox)
    requires AllExact(o, l.history, t) && AllRows(l, t, es)
    requires id in db.inbox && db.inbox[id].tenant == t && db.inbox[id].kind == InventoryItem
    requires db.inbox[id].disposition != Gap
    ensures id in Ids(Kept(o, db, es)) && IsDone(db.inbox[id].disposition)
  {
    hide LedgerInv, CleanDb, Kept, Exact, IsApplied;
    var e := InboxEvent(o, l, db, t, id);
    RowVerdict(o, l, db, t, e);
    KeptIds(o, db, es);
    assert e in Kept(o, db, es);
    var i :| 0 <= i < |Kept(o, db, es)| && Kept(o, db, es)[i] == e;
  }

  /** An event that is not applied and not a gap is the only kind of row that makes the source merely stale. */
  lemma FlagKinds(o: Outside, l: Ledger, db: Db, t: string, order: seq<string>, es: seq<Envelope>)
    requires o.codec.Lawful() && LedgerInv(o, l) && CleanDb(o.codec, l.history, db) && NoneQuarantined(l.source.outbox)
    requires Rows(o, l, t, order, es) && AllRows(l, t, es) && AllExact(o, l.history, t) && !HasGap(db, t)
    ensures forall r | r in Flags(o, db, es) :: r.NotApplied?
    ensures Flags(o, db, es) == {} <==> AllApplied(l.history, db, t)
  {
    hide LedgerInv, CleanDb, Exact;
    forall e | Ours(l.history, t, e)
      ensures Expected(o, db, e) == if e.eventId in db.inbox then Use(e) else Flag(NotApplied(e.eventId))
      ensures e.eventId in db.inbox <==> IsApplied(db, e)
    {
      assert Exact(o, e);
      RowVerdict(o, l, db, t, e);
      AppliedInInbox(o, l, db, t, e);
    }
    forall i | 0 <= i < |es| ensures Ours(l.history, t, es[i]) {
    }
    if !AllApplied(l.history, db, t) {
      var e :| Ours(l.history, t, e) && !IsApplied(db, e);
      assert e in es;
      var i :| 0 <= i < |es| && es[i] == e;
      assert NotApplied(e.eventId) in Flags(o, db, es);
    }
  }

  lemma AppliedInInbox(o: Outside, l: Ledger, db: Db, t: string, e: Envelope)
    requires LedgerInv(o, l) && CleanDb(o.codec, l.history, db) && Ours(l.history, t, e)
    ensures IsApplied(db, e) ==> e.eventId in db.inbox
  {
    hide CleanDb;
    CleanInventoryFacts(o.codec, l.history, db, e);
  }

  lemma InexactIsFlagged(o: Outside, l: Ledger, db: Db, t: string, es: seq<Envelope>)
    requires AllRows(l, t, es) && !AllExact(o, l.history, t)
    ensures exists r :: r in Flags(o, db, es) && r.Wrong?
  {
    hide Ours;
    var e :| Ours(l.history, t, e) && !Exact(o, e);
    assert e in es;
    var i :| 0 <= i < |es| && es[i] == e;
    assert Wrong(e.eventId, RecordedAtMismatch) in Flags(o, db, es);
  }

  /**
   Forecast source status on every state of the clean system, for a cutoff after all events: complete exactly when
   every inventory event of the tenant is applied, stale exactly when some are not and none waits as a gap,
   incomplete exactly when one does - provided every recorded_at is a whole number of microseconds. One that is
   not makes the source incomplete whatever has been applied.
   */
  lemma StatusIsExact(o: Outside, l: Ledger, db: Db, t: string, cutoff: int, order: seq<string>)
    requires CleanState(o, l, db, t, cutoff, order)
    ensures forall id | id in order :: id in l.source.outbox
    ensures var status := StatusOf(Reasons(o, t, db, l.source.outbox, cutoff, order));
            var exact := AllExact(o, l.history, t);
            && (status == SnapshotComplete <==> exact && AllApplied(l.history, db, t))
            && (status == SnapshotStale <==> exact && !AllApplied(l.history, db, t) && !HasGap(db, t))
            && (status == SnapshotIncomplete <==> !exact || HasGap(db, t))
    ensures AllExact(o, l.history, t) ==>
              ReplayState(LoadEvents(o, t, db, l.source.outbox, order).events) == TenantItems(db, t)
  {
    hide LedgerInv, CleanDb, AllExact, AllApplied, HasGap, LoadEvents, InboxReasons, ReplayReasons, CompareReasons,
      ReplayState, TenantItems, Flags, Kept, Codec.Lawful, NoneQuarantined, CutoffAfterAll;
    var es := RowsExist(o, l, db, t, cutoff, order);
    RowsAreAll(o, l, t, order, es);
    LoadIsKept(o, l, db, t, cutoff, order, es, |order|);
    assert order[..|order|] == order && es[..|order|] == es;
    hide Selected, Rows, AllRows;
    if AllExact(o, l.history, t) {
      ReplayMeetsProjection(o, l, db, t, order, es);
      ScanFindsGaps(o, l, db, t, cutoff, es);
      if HasGap(db, t) {
        GapIsUnapplied(o, l, db, t);
        var r :| r in InboxReasons(t, db, l.source.outbox, cutoff, Ids(Kept(o, db, es)));
        assert r in Reasons(o, t, db, l.source.outbox, cutoff, order);
      } else {
        FlagKinds(o, l, db, t, order, es);
      }
    } else {
      InexactIsFlagged(o, l, db, t, es);
      var r :| r in Flags(o, db, es) && r.Wrong?;
      assert r in Reasons(o, t, db, l.source.outbox, cutoff, order);
    }
  }

  lemma RowsAreAll(o: Outside, l: Ledger, t: string, order: seq<string>, es: seq<Envelope>)
    requires LedgerInv(o, l) && Rows(o, l, t, order, es) && forall e | Ours(l.history, t, e) :: e.eventId in order
    ensures AllRows(l, t, es)
  {
    hide OutboxMatches, ItemsBalanced, OrdersMatch, HopsMatch, Caused, UniqueParents;
    forall e | Ours(l.history, t, e) ensures e in es {
      var i :| 0 <= i < |order| && order[i] == e.eventId;
      assert Ours(l.history, t, es[i]);
      assert es[i] == e;
    }
  }

  lemma GapIsUnapplied(o: Outside, l: Ledger, db: Db, t: string)
    requires o.codec.Lawful() && LedgerInv(o, l) && CleanDb(o.codec, l.history, db) && NoneQuarantined(l.source.outbox)
    requires HasGap(db, t)
    ensures !AllApplied(l.history, db, t)
  {
    hide LedgerInv, CleanDb;
    var id :| id in db.inbox && db.inbox[id].tenant == t && db.inbox[id].kind == InventoryItem
              && db.inbox[id].disposition == Gap;
    var e := InboxEvent(o, l, db, t, id);
    RowVerdict(o, l, db, t, e);
  }

  /** The same over every run of the whole system. */
  lemma StatusInEveryRun(o: Outside, steps: seq<E.SystemStep>, t: string, cutoff: int, order: seq<string>)
    requires o.codec.Lawful() && E.Steps(steps)
    requires Selected(E.RunSystem(o, steps).ledger.source.outbox, t, cutoff, order)
    requires CutoffAfterAll(E.RunSystem(o, steps).ledger.source.outbox, t, cutoff)
    ensures var s := E.RunSystem(o, steps);
            && (forall id | id in order :: id in s.ledger.source.outbox)
            && var status := StatusOf(Reasons(o, t, s.desk.db, s.ledger.source.outbox, cutoff, order));
               var exact := AllExact(o, s.ledger.history, t);
            && (status == SnapshotComplete <==> exact && AllApplied(s.ledger.history, s.desk.db, t))
            && (status == SnapshotStale <==> exact && !AllApplied(s.ledger.history, s.desk.db, t) && !HasGap(s.desk.db, t))
            && (status == SnapshotIncomplete <==> !exact || HasGap(s.desk.db, t))
            && (exact ==> ReplayState(LoadEvents(o, t, s.desk.db, s.ledger.source.outbox, order).events)
                          == TenantItems(s.desk.db, t))
  {
    hide E.RunSystem, E.Steps, LedgerInv, CleanDb, E.LogClean, Selected, CutoffAfterAll, Reasons, StatusOf, AllExact,
         AllApplied, HasGap, ReplayState, LoadEvents, TenantItems;
    E.RunKeepsInv(o, steps);
    var s := E.RunSystem(o, steps);
    StatusIsExact(o, s.ledger, s.desk.db, t, cutoff, order);
  }

  /** At rest the source is complete, if every recorded_at is a whole number of microseconds. */
  lemma RestIsComplete(o: Outside, steps: seq<E.SystemStep>, t: string, cutoff: int, order: seq<string>)
    requires o.codec.Lawful() && E.Steps(steps) && A.QuietResets(o, steps) && A.Quiescent(o.codec, E.RunSystem(o, steps))
    requires Selected(E.RunSystem(o, steps).ledger.source.outbox, t, cutoff, order)
    requires CutoffAfterAll(E.RunSystem(o, steps).ledger.source.outbox, t, cutoff)
    ensures var s := E.RunSystem(o, steps);
            && (forall id | id in order :: id in s.ledger.source.outbox)
            && (StatusOf(Reasons(o, t, s.desk.db, s.ledger.source.outbox, cutoff, order)) == SnapshotComplete
                <==> AllExact(o, s.ledger.history, t))
  {
    hide E.RunSystem, E.Steps, E.SystemInv, A.QuietResets, A.Quiescent, A.BooksInv, Selected, CutoffAfterAll, Reasons, StatusOf,
         AllExact, HasGap, ReplayState, LoadEvents, TenantItems;
    StatusInEveryRun(o, steps, t, cutoff, order);
    E.RunKeepsInv(o, steps);
    A.RunKeepsBooks(o, steps);
    var s := E.RunSystem(o, steps);
    forall e | Ours(s.ledger.history, t, e) ensures IsApplied(s.desk.db, e) {
      RestApplies(o, s, t, e);
    }
  }

  lemma RestApplies(o: Outside, s: E.System, t: string, e: Envelope)
    requires o.codec.Lawful() && E.SystemInv(o, s) && A.BooksInv(o, s) && A.Quiescent(o.codec, s) && Ours(s.ledger.history, t, e)
    ensures IsApplied(s.desk.db, e)
  {
    hide LedgerInv, CleanDb, E.LogClean, A.BooksInv, A.Quiescent;
    A.RestOfItem(o, s, ItemKeyOf(e));
    SourceVersion(o, s.ledger, t, e);
  }

  /** The source's item is at least at the version of each of its events. */
  lemma SourceVersion(o: Outside, l: Ledger, t: string, e: Envelope)
    requires LedgerInv(o, l) && Ours(l.history, t, e)
    ensures ItemKeyOf(e) in l.source.items && 0 < e.version <= l.source.items[ItemKeyOf(e)].version
  {
    hide UniqueIds, UniqueParents, OutboxMatches, OrdersMatch, HopsMatch, Caused;
    assert ItemBalanced(l, ItemKeyOf(e));
  }
}
