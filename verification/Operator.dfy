/**
 Tenant controls: loading a tenant's retained outbox and rebuilding its derived state from it.
 */
module Operator {
  import opened Events
  import opened Projection
  import opened Convergence
  import opened TenantRebuild
  import Consumer
  import S = Source
  import SI = SourceInvariant

  // --- the retained history ------------------------------------------------------------------------

  /** The result of SELECT ... WHERE tenant_id = $1 ORDER BY aggregate_id, aggregate_version, recorded_at, event_id. */
  ghost predicate Selected(outbox: map<string, S.OutboxRow>, t: string, order: seq<string>) {
    && (forall id :: id in order <==> id in outbox && outbox[id].tenant == t)
    && (forall i, j | 0 <= i < j < |order| :: order[i] != order[j])
    && (forall i, j | 0 <= i < j < |order| && outbox[order[i]].aggregate == outbox[order[j]].aggregate ::
          outbox[order[i]].version <= outbox[order[j]].version)
  }

  /** The row's columns are those of the envelope in its bytes. */
  ghost predicate Agrees(c: Codec, id: string, row: S.OutboxRow) {
    && c.parse(row.bytes).Ok?
    && var e := c.parse(row.bytes).value;
    && e.eventId == id && e.tenantId == row.tenant && e.Kind() == row.kind
    && e.aggregateId == row.aggregate && e.version == row.version
  }

  ghost predicate AllAgree(c: Codec, outbox: map<string, S.OutboxRow>, order: seq<string>) {
    forall i | 0 <= i < |order| :: order[i] in outbox && Agrees(c, order[i], outbox[order[i]])
  }

  const OPERATOR_PARTITION := 1

  /** The replay input for a retained row; `budget` says how many database operations succeed while it is processed. */
  function RecordFor(row: S.OutboxRow, env: Envelope, offset: int, budget: nat, tie: TieBreak): Delivery {
    Delivery(AggregateKey(env.tenantId, env.aggregateType, env.aggregateId), row.bytes,
             Position(OPERATOR_PARTITION, offset), None, budget, tie)
  }

  /** A load fails at its first row that does not parse or holds another tenant's event. */
  datatype Loaded = Records(records: seq<Delivery>) | BadRow | ForeignRow

  /** LoadTenantOutboxHistory over the rows selected. */
  function LoadedHistory(c: Codec, t: string, outbox: map<string, S.OutboxRow>, order: seq<string>,
                         budgets: seq<nat>, tie: TieBreak): Loaded
    requires |budgets| == |order| && forall id | id in order :: id in outbox
  {
    if order == [] then Records([])
    else
      var n := |order| - 1;
      assert order[n] in order;
      var before := LoadedHistory(c, t, outbox, order[..n], budgets[..n], tie);
      var row := outbox[order[n]];
      var parsed := c.parse(row.bytes);
      if !before.Records? then before
      else if parsed.Err? then BadRow
      else if parsed.value.tenantId != t then ForeignRow
      else Records(before.records + [RecordFor(row, parsed.value, |order|, budgets[n], tie)])
  }

  ghost function Decoded(c: Codec, outbox: map<string, S.OutboxRow>, order: seq<string>): (es: seq<Envelope>)
    requires AllAgree(c, outbox, order)
    ensures |es| == |order|
    ensures forall i | 0 <= i < |es| :: es[i] == c.parse(outbox[order[i]].bytes).value
  {
    seq(|order|, i requires 0 <= i < |order| && order[i] in outbox && Agrees(c, order[i], outbox[order[i]]) =>
      c.parse(outbox[order[i]].bytes).value)
  }

  lemma {:induction false} HistoryReads(c: Codec, t: string, outbox: map<string, S.OutboxRow>, order: seq<string>,
                                        budgets: seq<nat>, tie: TieBreak)
    requires |budgets| == |order| && (forall id | id in order :: id in outbox && outbox[id].tenant == t)
    requires AllAgree(c, outbox, order)
    ensures var ds := LoadedHistory(c, t, outbox, order, budgets, tie);
            && ds.Records? && ReadAs(c, ds.records, Decoded(c, outbox, order))
            && (forall i | 0 <= i < |order| :: ds.records[i].budget == budgets[i])
  {
    hide AggregateKey;
    if order != [] {
      var n := |order| - 1;
      HistoryReads(c, t, outbox, order[..n], budgets[..n], tie);
      assert order[n] in order;
      assert Agrees(c, order[n], outbox[order[n]]);
    }
  }

  lemma DecodedIsRetained(c: Codec, t: string, outbox: map<string, S.OutboxRow>, order: seq<string>)
    requires c.Lawful() && Selected(outbox, t, order) && S.VersionsUnique(outbox) && AllAgree(c, outbox, order)
    ensures Retained(c, t, Decoded(c, outbox, order))
  {
    var es := Decoded(c, outbox, order);
    forall i | 0 <= i < |es|
      ensures c.valid(es[i]) && Sound(es[i]) && es[i].tenantId == t && es[i].eventId == order[i]
    {
      assert order[i] in order;
      assert Agrees(c, order[i], outbox[order[i]]);
    }
    forall i, j | 0 <= i < j < |es| && SameAggregate(es[i], es[j]) ensures es[i].version < es[j].version {
      assert order[i] in order && order[j] in order;
      assert Agrees(c, order[i], outbox[order[i]]) && Agrees(c, order[j], outbox[order[j]]);
      assert !S.SameVersion(outbox[order[i]], outbox[order[j]]);
    }
  }

  ghost predicate Unshared(db: Db, t: string, order: seq<string>) {
    forall id | id in order && id in db.inbox :: db.inbox[id].tenant == t
  }

  /**
   RebuildTenantFromHistory over any outbox whose rows agree with their envelopes and whose ids no other tenant's
   inbox holds: it reports complete exactly when there is history, the history is contiguous and the database
   did not fail; the projection is then what the history ends in, and no other tenant's rows change.
   */
  lemma TenantRebuildIsExact(c: Codec, db: Db, t: string, outbox: map<string, S.OutboxRow>, order: seq<string>,
                             budgets: seq<nat>, tie: TieBreak)
    requires c.Lawful() && Selected(outbox, t, order) && S.VersionsUnique(outbox) && AllAgree(c, outbox, order)
    requires |budgets| == |order| && Unshared(db, t, order)
    ensures LoadedHistory(c, t, outbox, order, budgets, tie).Records?
    ensures var es := Decoded(c, outbox, order);
            var r := ReplayTenant(c, ResetTenant(db, t), t, LoadedHistory(c, t, outbox, order, budgets, tie).records);
            && (r.status == Complete <==> order != [] && Contiguous(es) && forall i | 0 <= i < |budgets| :: budgets[i] >= 2)
            && (r.status == Complete ==> Tracks(t, es, r.db) && r.applied == |order|)
            && OthersKept(t, db, r.db)
  {
    hide ReplayTenant, ResetTenant, Retained, Contiguous, Continuous, Tracks, OthersKept, LoadedHistory, ReadAs;
    HistoryReads(c, t, outbox, order, budgets, tie);
    DecodedIsRetained(c, t, outbox, order);
    var es := Decoded(c, outbox, order);
    var ds := LoadedHistory(c, t, outbox, order, budgets, tie).records;
    assert IdsNotShared(db, t, es) by {
      forall i | 0 <= i < |es| && es[i].eventId in db.inbox ensures db.inbox[es[i].eventId].tenant == t {
        assert Agrees(c, order[i], outbox[order[i]]);
        assert order[i] in order;
      }
    }
    RebuildIsExact(c, db, t, es, ds);
    ContinuousIffContiguous(c, t, es);
    assert Funded(ds) <==> forall i | 0 <= i < |budgets| :: budgets[i] >= 2 by {
      ReadAsLength(c, ds, es);
    }
  }

  lemma ReadAsLength(c: Codec, ds: seq<Delivery>, es: seq<Envelope>)
    requires ReadAs(c, ds, es)
    ensures |ds| == |es|
  {
  }

  // --- the history of a source ------------------------------------------------------------------------

  lemma SourceRow(o: S.Outside, l: S.Ledger, id: string)
    requires o.codec.Lawful() && SI.LedgerInv(o, l) && id in l.source.outbox
    ensures Agrees(o.codec, id, l.source.outbox[id])
    ensures InHistory(l.history, o.codec.parse(l.source.outbox[id].bytes).value)
    ensures o.codec.valid(o.codec.parse(l.source.outbox[id].bytes).value)
  {
    hide UniqueIds, UniqueParents, SI.ItemsBalanced, SI.OrdersMatch, SI.HopsMatch, SI.Caused;
    var row := l.source.outbox[id];
    assert SI.OutboxRowClean(o, l.history, id, row);
    EventAtInHistory(o.codec, l.history, row.kind, row.tenant, row.aggregate, row.version);
  }

  /** What a source's outbox gives a rebuild, for every event of the tenant. */
  lemma SourceOutbox(o: S.Outside, l: S.Ledger, t: string, order: seq<string>)
    requires o.codec.Lawful() && SI.LedgerInv(o, l) && Selected(l.source.outbox, t, order)
    ensures S.VersionsUnique(l.source.outbox) && AllAgree(o.codec, l.source.outbox, order)
    ensures forall i | 0 <= i < |order| :: InHistory(l.history, Decoded(o.codec, l.source.outbox, order)[i])
  {
    hide SI.LedgerInv, InHistory;
    forall id, id' | id in l.source.outbox && id' in l.source.outbox && id != id'
      ensures !S.SameVersion(l.source.outbox[id], l.source.outbox[id'])
    {
      SourceVersions(o, l, id, id');
    }
    forall i | 0 <= i < |order|
      ensures order[i] in l.source.outbox && Agrees(o.codec, order[i], l.source.outbox[order[i]])
      ensures InHistory(l.history, o.codec.parse(l.source.outbox[order[i]].bytes).value)
    {
      assert order[i] in order;
      SourceRow(o, l, order[i]);
    }
  }

  lemma SourceVersions(o: S.Outside, l: S.Ledger, id: string, id': string)
    requires SI.LedgerInv(o, l) && id in l.source.outbox && id' in l.source.outbox && id != id'
    ensures !S.SameVersion(l.source.outbox[id], l.source.outbox[id'])
  {
    hide Clean, SI.ItemsBalanced, SI.OrdersMatch, SI.HopsMatch, SI.Caused, SI.IsRowOf;
    assert SI.OutboxRowClean(o, l.history, id, l.source.outbox[id]);
    assert SI.OutboxRowClean(o, l.history, id', l.source.outbox[id']);
  }

  /** Every event of the tenant is in the loaded history. */
  lemma SourceEventAt(o: S.Outside, l: S.Ledger, t: string, order: seq<string>, e: Envelope) returns (i: nat)
    requires o.codec.Lawful() && SI.LedgerInv(o, l) && Selected(l.source.outbox, t, order)
    requires AllAgree(o.codec, l.source.outbox, order)
    requires InHistory(l.history, e) && e.tenantId == t
    ensures i < |order| && Decoded(o.codec, l.source.outbox, order)[i] == e
  {
    hide AllAgree, SI.ItemsBalanced, SI.OrdersMatch, SI.HopsMatch, SI.Caused, UniqueParents;
    SI.EventRow(o, l.history, l.source.outbox, e);
    InHistoryValid(o.codec, l.history, e);
    assert e.eventId in order;
    i :| 0 <= i < |order| && order[i] == e.eventId;
  }

  lemma SourceIsContiguous(o: S.Outside, l: S.Ledger, t: string, order: seq<string>)
    requires o.codec.Lawful() && SI.LedgerInv(o, l) && Selected(l.source.outbox, t, order)
    requires AllAgree(o.codec, l.source.outbox, order)
    requires Retained(o.codec, t, Decoded(o.codec, l.source.outbox, order))
    requires forall i | 0 <= i < |order| :: InHistory(l.history, Decoded(o.codec, l.source.outbox, order)[i])
    ensures Contiguous(Decoded(o.codec, l.source.outbox, order))
  {
    hide SI.LedgerInv, HasPrevious, ParentsDiffer, AllAgree, Selected, InHistory;
    var es := Decoded(o.codec, l.source.outbox, order);
    forall i | 0 <= i < |es| ensures es[i].version == 1 || HasPrevious(es, es[i]) {
      assert Sound(es[i]) && es[i].tenantId == t;
      if es[i].version > 1 {
        var p := Predecessor(o, l, es[i]);
        var j := SourceEventAt(o, l, t, order, p);
        PreviousAt(es, j, es[i]);
      }
    }
    forall i, j | 0 <= i < j < |es| ensures ParentsDiffer(es[i], es[j]) {
      assert es[i].tenantId == t && es[j].tenantId == t;
      SourceParents(o, l, es[i], es[j]);
    }
  }

  lemma PreviousAt(es: seq<Envelope>, j: nat, e: Envelope)
    requires j < |es| && Precedes(es[j], e)
    ensures HasPrevious(es, e)
  {
  }

  lemma Predecessor(o: S.Outside, l: S.Ledger, e: Envelope) returns (p: Envelope)
    requires SI.LedgerInv(o, l) && InHistory(l.history, e) && e.version > 1
    ensures Precedes(p, e) && InHistory(l.history, p) && p.tenantId == e.tenantId
  {
    hide UniqueIds, UniqueParents, SI.OutboxMatches, SI.ItemsBalanced, SI.OrdersMatch, SI.HopsMatch, SI.Caused;
    var k := ItemKeyOf(e);
    var es := l.history.chains[k];
    assert CleanChain(o.codec, k, es);
    p := es[e.version - 2];
    assert es[e.version - 1].payload.before == p.payload.after;
  }

  lemma SourceParents(o: S.Outside, l: S.Ledger, a: Envelope, b: Envelope)
    requires SI.LedgerInv(o, l) && InHistory(l.history, a) && InHistory(l.history, b)
    requires a.eventId != b.eventId && a.tenantId == b.tenantId
    ensures ParentsDiffer(a, b)
  {
    hide UniqueIds, SI.OutboxMatches, SI.ItemsBalanced, SI.OrdersMatch, SI.HopsMatch, SI.Caused, HopOf, SharesParent;
    if a.Kind() == b.Kind() && !a.payload.QuantityDecremented? {
      assert HopKeyOf(a) in l.history.hops && HopKeyOf(b) in l.history.hops;
    }
  }

  lemma LastIsLast(o: S.Outside, l: S.Ledger, t: string, order: seq<string>, k: ItemKey)
    requires o.codec.Lawful() && SI.LedgerInv(o, l) && Selected(l.source.outbox, t, order)
    requires AllAgree(o.codec, l.source.outbox, order)
    requires Retained(o.codec, t, Decoded(o.codec, l.source.outbox, order)) && k.tenant == t
    requires forall i | 0 <= i < |order| :: InHistory(l.history, Decoded(o.codec, l.source.outbox, order)[i])
    ensures LastOf(Decoded(o.codec, l.source.outbox, order), k) ==
            var chain := S.ChainOf(l.history, k);
            if chain == [] then None else Some(chain[|chain| - 1])
  {
    hide AllAgree, Selected, SI.LedgerInv, LastOf, Retained;
    var es := Decoded(o.codec, l.source.outbox, order);
    var chain := S.ChainOf(l.history, k);
    if chain != [] {
      var last := chain[|chain| - 1];
      ChainEnd(o, l, k);
      var m := SourceEventAt(o, l, t, order, last);
      LastOfExists(es, m);
      var j := LastOfIndex(es, k);
      assert InHistory(l.history, es[j]);
      NoLaterThan(o.codec, t, es, m, j);
    } else if LastOf(es, k).Some? {
      var j := LastOfIndex(es, k);
      assert InHistory(l.history, es[j]);
    }
  }

  lemma ChainEnd(o: S.Outside, l: S.Ledger, k: ItemKey)
    requires SI.LedgerInv(o, l) && S.ChainOf(l.history, k) != []
    ensures var chain := S.ChainOf(l.history, k);
            var last := chain[|chain| - 1];
            last.payload.QuantityDecremented? && ItemKeyOf(last) == k && last.version == |chain| && InHistory(l.history, last)
  {
    hide UniqueIds, UniqueParents, SI.OutboxMatches, SI.ItemsBalanced, SI.OrdersMatch, SI.HopsMatch, SI.Caused;
    assert CleanChain(o.codec, k, l.history.chains[k]);
  }

  lemma NoLaterThan(c: Codec, t: string, es: seq<Envelope>, m: nat, j: nat)
    requires Retained(c, t, es) && m <= j < |es| && SameAggregate(es[m], es[j]) && es[j].version <= es[m].version
    ensures j == m
  {
  }

  /** The tenant's projection is erp.inventory_items for every item that has been ordered, and the source's hops. */
  ghost predicate MatchesSource(l: S.Ledger, t: string, db: Db) {
    && (forall k: ItemKey | k.tenant == t :: k in db.items <==> S.ChainOf(l.history, k) != [])
    && (forall k: ItemKey | k.tenant == t && k in db.items :: k in l.source.items && db.items[k] == l.source.items[k])
    && (forall k: HopKey | k.tenant == t :: k in db.hops <==> k in l.source.hops)
  }

  lemma TracksIsSource(o: S.Outside, l: S.Ledger, t: string, order: seq<string>, db: Db)
    requires o.codec.Lawful() && SI.LedgerInv(o, l) && Selected(l.source.outbox, t, order)
    requires AllAgree(o.codec, l.source.outbox, order)
    requires Retained(o.codec, t, Decoded(o.codec, l.source.outbox, order))
    requires forall i | 0 <= i < |order| :: InHistory(l.history, Decoded(o.codec, l.source.outbox, order)[i])
    requires Tracks(t, Decoded(o.codec, l.source.outbox, order), db)
    ensures MatchesSource(l, t, db)
  {
    hide Selected, AllAgree, InHistory, Retained, SI.LedgerInv, LastOf, HopFrom, HopOf, S.ChainOf;
    forall k: ItemKey | k.tenant == t
      ensures k in db.items <==> S.ChainOf(l.history, k) != []
      ensures k in db.items ==> k in l.source.items && db.items[k] == l.source.items[k]
    {
      LastIsLast(o, l, t, order, k);
      if S.ChainOf(l.history, k) != [] {
        SourceItemRow(o, l, k);
      }
    }
    forall k: HopKey | k.tenant == t ensures k in db.hops <==> k in l.source.hops {
      SourceHopKeys(o, l, t, order, db, k);
    }
  }

  /** Rebuilding a tenant of the source is complete as soon as the tenant has an event, and then matches the source. */
  lemma SourceRebuilds(o: S.Outside, l: S.Ledger, db: Db, t: string, order: seq<string>, budgets: seq<nat>, tie: TieBreak)
    requires o.codec.Lawful() && SI.LedgerInv(o, l) && Selected(l.source.outbox, t, order)
    requires |budgets| == |order| && (forall i | 0 <= i < |budgets| :: budgets[i] >= 2) && Unshared(db, t, order)
    ensures LoadedHistory(o.codec, t, l.source.outbox, order, budgets, tie).Records?
    ensures var r := ReplayTenant(o.codec, ResetTenant(db, t), t,
                                  LoadedHistory(o.codec, t, l.source.outbox, order, budgets, tie).records);
            && (r.status == Complete <==> order != [])
            && (r.status == Complete ==> MatchesSource(l, t, r.db))
            && OthersKept(t, db, r.db)
  {
    hide ReplayTenant, ResetTenant, AllAgree, Contiguous, LoadedHistory, Unshared, OthersKept, InHistory,
      Retained, SI.LedgerInv, Tracks, MatchesSource, S.VersionsUnique, Codec.Lawful;
    SourceOutbox(o, l, t, order);
    DecodedIsRetained(o.codec, t, l.source.outbox, order);
    SourceIsContiguous(o, l, t, order);
    TenantRebuildIsExact(o.codec, db, t, l.source.outbox, order, budgets, tie);
    var r := ReplayTenant(o.codec, ResetTenant(db, t), t,
                          LoadedHistory(o.codec, t, l.source.outbox, order, budgets, tie).records);
    if r.status == Complete {
      TracksIsSource(o, l, t, order, r.db);
    }
  }

  lemma SourceItemRow(o: S.Outside, l: S.Ledger, k: ItemKey)
    requires SI.LedgerInv(o, l) && S.ChainOf(l.history, k) != []
    ensures var chain := S.ChainOf(l.history, k);
            var last := chain[|chain| - 1];
            && k in l.source.items && last.payload.QuantityDecremented?
            && l.source.items[k] == ItemRow(last.payload.after, last.version)
  {
    ChainEnd(o, l, k);
    hide Clean, SI.OutboxMatches, SI.OrdersMatch, SI.HopsMatch, SI.Caused, SI.Total;
    assert SI.ItemBalanced(l, k);
  }

  lemma SourceHopKeys(o: S.Outside, l: S.Ledger, t: string, order: seq<string>, db: Db, k: HopKey)
    requires o.codec.Lawful() && SI.LedgerInv(o, l) && Selected(l.source.outbox, t, order)
    requires AllAgree(o.codec, l.source.outbox, order) && k.tenant == t
    requires forall i | 0 <= i < |order| :: InHistory(l.history, Decoded(o.codec, l.source.outbox, order)[i])
    requires Tracks(t, Decoded(o.codec, l.source.outbox, order), db)
    ensures k in db.hops <==> k in l.source.hops
  {
    hide Selected, AllAgree, UniqueIds, UniqueParents, SI.OutboxMatches, SI.ItemsBalanced, SI.OrdersMatch, SI.Caused,
      LastOf, HopOf;
    var es := Decoded(o.codec, l.source.outbox, order);
    if k in db.hops {
      assert HopFrom(es, k);
      var j :| 0 <= j < |es| && !es[j].payload.QuantityDecremented? && HopKeyOf(es[j]) == k;
      assert InHistory(l.history, es[j]);
    }
    if k in l.source.hops {
      HopInHistory(o.codec, l.history, k);
      var i := SourceEventAt(o, l, t, order, l.history.hops[k]);
    }
  }

  // --- the operations ------------------------------------------------------------------------------

  datatype Rebuilt = Rebuilt(status: Status, applied: nat, duplicates: nat, quarantined: nat, failures: nat)

  datatype ControlError = TenantRequired | UnreadableHistory | TenantMismatch | ControlNotFound

  /** The result, also when the replay could not go on, or an error and an empty result. */
  datatype ControlOutcome = Done(result: Rebuilt) | NotAcknowledged(result: Rebuilt) | Failed(error: ControlError)

  /** What replayTenantRecords returns for a replay: another tenant's record discards the result. */
  function ResultOf(r: Replay): ControlOutcome {
    var result := Rebuilt(r.status, r.applied, r.duplicates, r.quarantined, r.failures);
    match r.stop
    case ForeignTenant => Failed(TenantMismatch)
    case Unacknowledged => NotAcknowledged(result)
    case _ => Done(result)
  }

  function LoadError(l: Loaded): ControlError
    requires !l.Records?
  {
    if l.BadRow? then UnreadableHistory else TenantMismatch
  }

  /** The rows the query selects: all of the tenant's in order, or the one named if it is the tenant's. */
  ghost predicate SelectedFor(outbox: map<string, S.OutboxRow>, t: string, event: string, order: seq<string>) {
    if event == "" then Selected(outbox, t, order)
    else order == if event in outbox && outbox[event].tenant == t then [event] else []
  }

  /** Four deletes in one transaction; no tenant, no deletes. */
  method ResetDerivedStateForTenant(store: Consumer.Store, t: string) returns (ok: bool)
    modifies store
    ensures ok <==> t != ""
    ensures store.db == if ok then ResetTenant(old(store.db), t) else old(store.db)
  {
    if t == "" {
      return false;
    }
    var tx := store.db;
    tx := tx.(failures := map p | p in tx.failures && tx.failures[p] != Some(t) :: tx.failures[p]);
    tx := tx.(inbox := map id | id in tx.inbox && tx.inbox[id].tenant != t :: tx.inbox[id]);
    tx := tx.(items := map k | k in tx.items && k.tenant != t :: tx.items[k]);
    tx := tx.(hops := map k | k in tx.hops && k.tenant != t :: tx.hops[k]);
    store.db := tx;
    return true;
  }

  method LoadTenantOutboxHistory(c: Codec, t: string, outbox: map<string, S.OutboxRow>, order: seq<string>,
                                 budgets: seq<nat>, tie: TieBreak)
    returns (out: Loaded)
    requires |budgets| == |order| && forall id | id in order :: id in outbox
    ensures out == LoadedHistory(c, t, outbox, order, budgets, tie)
  {
    var records: seq<Delivery> := [];
    var i := 0;
    while i < |order|
      invariant 0 <= i <= |order|
      invariant Records(records) == LoadedHistory(c, t, outbox, order[..i], budgets[..i], tie)
    {
      assert order[i] in order;
      assert order[..i + 1][..i] == order[..i] && budgets[..i + 1][..i] == budgets[..i];
      var row := outbox[order[i]];
      var parsed := c.parse(row.bytes);
      if parsed.Err? {
        LoadStops(c, t, outbox, order, budgets, tie, i + 1);
        return BadRow;
      }
      if parsed.value.tenantId != t {
        LoadStops(c, t, outbox, order, budgets, tie, i + 1);
        return ForeignRow;
      }
      records := records + [RecordFor(row, parsed.value, i + 1, budgets[i], tie)];
      i := i + 1;
    }
    assert order[..i] == order && budgets[..i] == budgets;
    return Records(records);
  }

  /** A row that cannot be loaded decides the load, whatever follows it. */
  lemma {:induction false} LoadStops(c: Codec, t: string, outbox: map<string, S.OutboxRow>, order: seq<string>,
                                     budgets: seq<nat>, tie: TieBreak, i: nat)
    requires |budgets| == |order| && (forall id | id in order :: id in outbox) && i <= |order|
    requires !LoadedHistory(c, t, outbox, order[..i], budgets[..i], tie).Records?
    ensures LoadedHistory(c, t, outbox, order, budgets, tie) == LoadedHistory(c, t, outbox, order[..i], budgets[..i], tie)
  {
    if i == |order| {
      assert order[..i] == order && budgets[..i] == budgets;
    } else {
      var n := |order| - 1;
      assert order[..n][..i] == order[..i] && budgets[..n][..i] == budgets[..i];
      LoadStops(c, t, outbox, order[..n], budgets[..n], tie, i);
    }
  }

  /** replayTenantRecords: the loop over the records, then the residual counts. */
  method ReplayTenantRecords(store: Consumer.Store, c: Codec, t: string, ds: seq<Delivery>) returns (out: ControlOutcome)
    modifies store
    ensures var r := ReplayTenant(c, old(store.db), t, ds);
            store.db == r.db && out == ResultOf(r)
  {
    hide ProcessRecord, ReplayRecords, TenantGaps, TenantFailures;
    var result := Rebuilt(Complete, 0, 0, 0, 0);
    if ds == [] {
      return Done(result.(status := Incomplete));
    }
    ghost var start := Replay(store.db, Complete, 0, 0, 0, 0, Running);
    NothingReplayed(c, t, start, ds);
    var i := 0;
    while i < |ds|
      invariant 0 <= i <= |ds|
      invariant ReplayRecords(c, t, start, ds[..i])
             == Replay(store.db, result.status, result.applied, result.duplicates, result.quarantined, result.failures, Running)
    {
      NextReplayed(c, t, start, ds, i);
      var parsed := c.parse(ds[i].value);
      if parsed.Err? {
        StoppedStays(c, t, start, ds, i + 1);
        return Done(result.(status := Incomplete));
      }
      if parsed.value.tenantId != t {
        StoppedStays(c, t, start, ds, i + 1);
        return Failed(TenantMismatch);
      }
      var res, _ := store.ProcessRecord(c, ds[i]);
      if !res.ack {
        StoppedStays(c, t, start, ds, i + 1);
        return NotAcknowledged(result.(status := Incomplete));
      }
      match res.disposition {
        case None => result := result.(failures := result.failures + 1, status := Incomplete);
        case Some(Applied) => result := result.(applied := result.applied + 1);
        case Some(DuplicateNoop) => result := result.(duplicates := result.duplicates + 1);
        case Some(Gap) => result := result.(quarantined := result.quarantined + 1);
        case Some(_) => result := result.(quarantined := result.quarantined + 1, status := Incomplete);
      }
      i := i + 1;
    }
    assert ds[..i] == ds;
    if TenantGaps(store.db, t) != {} {
      result := result.(status := Incomplete);
    }
    var n := |TenantFailures(store.db, t)|;
    if n > 0 {
      result := result.(failures := n, status := Incomplete);
    }
    return Done(result);
  }

  lemma NothingReplayed(c: Codec, t: string, start: Replay, ds: seq<Delivery>)
    ensures ReplayRecords(c, t, start, ds[..0]) == start
  {
  }

  lemma NextReplayed(c: Codec, t: string, start: Replay, ds: seq<Delivery>, i: nat)
    requires i < |ds|
    ensures ReplayRecords(c, t, start, ds[..i + 1]) == ReplayOne(c, t, ReplayRecords(c, t, start, ds[..i]), ds[i])
  {
    hide ReplayOne;
    assert ds[..i + 1][..i] == ds[..i];
  }

  lemma {:induction false} StoppedStays(c: Codec, t: string, start: Replay, ds: seq<Delivery>, i: nat)
    requires i <= |ds| && ReplayRecords(c, t, start, ds[..i]).stop != Running
    ensures ReplayRecords(c, t, start, ds) == ReplayRecords(c, t, start, ds[..i])
  {
    if i == |ds| {
      assert ds[..i] == ds;
    } else {
      assert ds[..|ds| - 1][..i] == ds[..i];
      StoppedStays(c, t, start, ds[..|ds| - 1], i);
    }
  }

  /** RebuildTenantFromHistory: a failed load leaves the tenant reset. */
  method RebuildTenantFromHistory(store: Consumer.Store, c: Codec, t: string, outbox: map<string, S.OutboxRow>,
                                  order: seq<string>, budgets: seq<nat>, tie: TieBreak)
    returns (out: ControlOutcome)
    requires |budgets| == |order| && forall id | id in order :: id in outbox
    modifies store
    ensures t == "" ==> out == Failed(TenantRequired) && store.db == old(store.db)
    ensures t != "" ==>
              var ds := LoadedHistory(c, t, outbox, order, budgets, tie);
              if !ds.Records? then out == Failed(LoadError(ds)) && store.db == ResetTenant(old(store.db), t)
              else
                var r := ReplayTenant(c, ResetTenant(old(store.db), t), t, ds.records);
                out == ResultOf(r) && store.db == r.db
  {
    hide ResetTenant, ReplayTenant;
    var ok := ResetDerivedStateForTenant(store, t);
    if !ok {
      return Failed(TenantRequired);
    }
    var loaded := LoadTenantOutboxHistory(c, t, outbox, order, budgets, tie);
    if !loaded.Records? {
      return Failed(LoadError(loaded));
    }
    out := ReplayTenantRecords(store, c, t, loaded.records);
  }

  /** ReplayTenantHistory: the same without the reset, and for one event if it is named. */
  method ReplayTenantHistory(store: Consumer.Store, c: Codec, t: string, event: string, outbox: map<string, S.OutboxRow>,
                             order: seq<string>, budgets: seq<nat>, tie: TieBreak)
    returns (out: ControlOutcome)
    requires |budgets| == |order| && SelectedFor(outbox, t, event, order)
    requires forall id | id in order :: id in outbox
    modifies store
    ensures t == "" ==> out == Failed(TenantRequired) && store.db == old(store.db)
    ensures t != "" && event != "" && !(event in outbox && outbox[event].tenant == t) ==>
              out == Failed(ControlNotFound) && store.db == old(store.db)
    ensures t != "" && (event == "" || (event in outbox && outbox[event].tenant == t)) ==>
              var ds := LoadedHistory(c, t, outbox, order, budgets, tie);
              if !ds.Records? then out == Failed(LoadError(ds)) && store.db == old(store.db)
              else
                var r := ReplayTenant(c, old(store.db), t, ds.records);
                out == ResultOf(r) && store.db == r.db
  {
    hide ReplayTenant;
    if t == "" {
      return Failed(TenantRequired);
    }
    var loaded := LoadTenantOutboxHistory(c, t, outbox, order, budgets, tie);
    if !loaded.Records? {
      return Failed(LoadError(loaded));
    }
    LoadedLength(c, t, outbox, order, budgets, tie);
    if event != "" && loaded.records == [] {
      return Failed(ControlNotFound);
    }
    out := ReplayTenantRecords(store, c, t, loaded.records);
  }

  lemma {:induction false} LoadedLength(c: Codec, t: string, outbox: map<string, S.OutboxRow>, order: seq<string>,
                                        budgets: seq<nat>, tie: TieBreak)
    requires |budgets| == |order| && forall id | id in order :: id in outbox
    ensures var ds := LoadedHistory(c, t, outbox, order, budgets, tie);
            ds.Records? ==> |ds.records| == |order|
  {
    if order != [] {
      LoadedLength(c, t, outbox, order[..|order| - 1], budgets[..|budgets| - 1], tie);
    }
  }
}
