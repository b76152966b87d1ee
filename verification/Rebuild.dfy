/**
 Rebuilding every tenant from captured broker history, in whatever order it was captured.
 */
module Rebuild {
  import opened Events
  import opened Projection
  import opened Convergence
  import T = TenantRebuild
  import Consumer

  function RebuildOne(c: Codec, r: T.Replay, d: Delivery): T.Replay {
    if r.stop != T.Running then r
    else
      var o := ProcessRecord(c, r.db, d);
      if !o.ack then r.(db := o.db, status := T.Incomplete, stop := T.Unacknowledged)
      else T.Tally(r, o.db, o.disposition)
  }

  function RebuildRecords(c: Codec, start: T.Replay, ds: seq<Delivery>): T.Replay {
    if ds == [] then start
    else RebuildOne(c, RebuildRecords(c, start, ds[..|ds| - 1]), ds[|ds| - 1])
  }

  /** The residual counts over all tenants, and the tenant id the checksum needs. */
  function Judge(r: T.Replay, tenantBlank: bool): T.Replay {
    var gaps := if GapIds(r.db) != {} then r.(status := T.Incomplete) else r;
    var failed := if |r.db.failures| > 0 then gaps.(failures := |r.db.failures|, status := T.Incomplete) else gaps;
    if tenantBlank then failed.(status := T.Incomplete) else failed
  }

  function RebuildFrom(c: Codec, db: Db, ds: seq<Delivery>, resetFirst: bool, tenantBlank: bool): T.Replay {
    var start := if resetFirst then EMPTY_DB else db;
    if ds == [] then T.Replay(start, T.Incomplete, 0, 0, 0, 0, T.Running)
    else
      var r := RebuildRecords(c, T.Replay(start, T.Complete, 0, 0, 0, 0, T.Running), ds);
      if r.stop != T.Running then r else Judge(r, tenantBlank)
  }

  /** RebuildFromHistory. */
  method RebuildFromHistory(store: Consumer.Store, c: Codec, ds: seq<Delivery>, resetFirst: bool, tenantBlank: bool)
    returns (status: T.Status, applied: nat, duplicates: nat, quarantined: nat, failures: nat, stop: T.Stop)
    modifies store
    ensures T.Replay(store.db, status, applied, duplicates, quarantined, failures, stop)
         == RebuildFrom(c, old(store.db), ds, resetFirst, tenantBlank)
  {
    hide ProcessRecord;
    status, applied, duplicates, quarantined, failures, stop := T.Complete, 0, 0, 0, 0, T.Running;
    if resetFirst {
      store.db := EMPTY_DB;
    }
    if ds == [] {
      status := T.Incomplete;
      return;
    }
    ghost var start := T.Replay(store.db, T.Complete, 0, 0, 0, 0, T.Running);
    var i := 0;
    while i < |ds|
      invariant 0 <= i <= |ds|
      invariant stop == T.Running
      invariant T.Replay(store.db, status, applied, duplicates, quarantined, failures, stop)
             == RebuildRecords(c, start, ds[..i])
    {
      assert ds[..i + 1][..i] == ds[..i];
      var res, _ := store.ProcessRecord(c, ds[i]);
      if !res.ack {
        status, stop := T.Incomplete, T.Unacknowledged;
        StoppedStays(c, start, ds, i + 1);
        return;
      }
      match res.disposition {
        case None =>
          failures := failures + 1;
          status := T.Incomplete;
        case Some(Applied) => applied := applied + 1;
        case Some(DuplicateNoop) => duplicates := duplicates + 1;
        case Some(Gap) => quarantined := quarantined + 1;
        case Some(_) =>
          quarantined := quarantined + 1;
          status := T.Incomplete;
      }
      i := i + 1;
    }
    assert ds[..i] == ds;
    if GapIds(store.db) != {} {
      status := T.Incomplete;
    }
    if |store.db.failures| > 0 {
      failures := |store.db.failures|;
      status := T.Incomplete;
    }
    if tenantBlank {
      status := T.Incomplete;
    }
  }

  lemma {:induction false} StoppedStays(c: Codec, start: T.Replay, ds: seq<Delivery>, i: nat)
    requires i <= |ds| && RebuildRecords(c, start, ds[..i]).stop != T.Running
    ensures RebuildRecords(c, start, ds) == RebuildRecords(c, start, ds[..i])
  {
    if i == |ds| {
      assert ds[..i] == ds;
    } else {
      assert ds[..|ds| - 1][..i] == ds[..i];
      StoppedStays(c, start, ds[..|ds| - 1], i);
    }
  }

  // --- any order over a clean history ------------------------------------------------------------------

  function Deliveries(c: Codec, xs: seq<Arrival>): (ds: seq<Delivery>)
    ensures |ds| == |xs|
    ensures forall i | 0 <= i < |xs| :: ds[i] == DeliveryOf(c, xs[i])
  {
    seq(|xs|, i requires 0 <= i < |xs| => DeliveryOf(c, xs[i]))
  }

  /** No database operation fails: each delivery can re-drive every row there could be. */
  ghost predicate Ample(xs: seq<Arrival>) {
    forall i | 0 <= i < |xs| :: xs[i].budget >= 2 * |xs| + 4
  }

  lemma ArrivalDisposition(c: Codec, h: History, db: Db, a: Arrival)
    requires c.Lawful() && Clean(c, h) && CleanDb(c, h, db) && InHistory(h, a.event) && a.budget > 0
    ensures ProcessRecord(c, db, DeliveryOf(c, a)).disposition in {Some(Applied), Some(DuplicateNoop), Some(Gap)}
  {
    hide ProcessValidated, Clean, CleanDb, Redrive, AggregateKey, InHistory;
    InHistoryValid(c, h, a.event);
    CleanTransaction(c, h, db, a.event);
  }

  ghost predicate Follows(c: Codec, h: History, r: T.Replay, s: Session, n: nat) {
    && r.stop == T.Running && r.status == T.Complete && r.db == s.db && s.unacked == {}
    && r.applied + r.duplicates + r.quarantined == n && r.failures == 0
    && SessionInv(c, h, s) && |s.db.inbox| <= n
  }

  lemma FollowsStep(c: Codec, h: History, r: T.Replay, s: Session, n: nat, a: Arrival)
    requires c.Lawful() && Clean(c, h) && Follows(c, h, r, s, n) && InHistory(h, a.event) && a.budget >= 2 * n + 4
    ensures Follows(c, h, RebuildOne(c, r, DeliveryOf(c, a)), Arrive(c, s, a), n + 1)
  {
    hide Clean, CleanDb, AckInv, ProcessRecord, InHistory, DeliveryOf;
    EnoughBudgetAcks(c, h, s.db, a);
    ArrivalDisposition(c, h, s.db, a);
    ArriveKeepsInv(c, h, s, a);
    InboxGrowsByOne(c, h, s.db, a);
  }

  lemma {:induction false} RebuildFollows(c: Codec, h: History, xs: seq<Arrival>, i: nat)
    requires c.Lawful() && Clean(c, h) && AllFrom(h, xs) && Ample(xs) && i <= |xs|
    ensures Follows(c, h, RebuildRecords(c, T.Replay(EMPTY_DB, T.Complete, 0, 0, 0, 0, T.Running), Deliveries(c, xs)[..i]),
                    Consume(c, FRESH, xs[..i]), i)
  {
    hide Clean, SessionInv, InHistory, DeliveryOf, Deliveries, RebuildOne, Arrive, Follows, Codec.Lawful;
    var ds := Deliveries(c, xs);
    if i == 0 {
      FollowsStart(c, h);
      assert ds[..0] == [] && xs[..0] == [];
    } else {
      RebuildFollows(c, h, xs, i - 1);
      assert ds[..i][..i - 1] == ds[..i - 1] && xs[..i][..i - 1] == xs[..i - 1];
      assert xs[..i][i - 1] == xs[i - 1] && ds[..i][i - 1] == DeliveryOf(c, xs[i - 1]);
      FollowsStep(c, h, RebuildRecords(c, T.Replay(EMPTY_DB, T.Complete, 0, 0, 0, 0, T.Running), ds[..i - 1]),
                  Consume(c, FRESH, xs[..i - 1]), i - 1, xs[i - 1]);
    }
  }

  lemma FollowsStart(c: Codec, h: History)
    ensures Follows(c, h, T.Replay(EMPTY_DB, T.Complete, 0, 0, 0, 0, T.Running), FRESH, 0)
  {
    hide SessionInv;
    FreshInv(c, h);
  }

  lemma InboxGrowsByOne(c: Codec, h: History, db: Db, a: Arrival)
    requires c.Lawful() && Clean(c, h) && CleanDb(c, h, db) && InHistory(h, a.event)
    ensures |ProcessRecord(c, db, DeliveryOf(c, a)).db.inbox| <= |db.inbox| + 1
  {
    hide Clean, CleanDb, ProcessRecord, ProcessValidated, InHistory, CleanEffect, Redrove, NextWaits;
    ArrivalEffect(c, h, db, a);
    var db' := ProcessRecord(c, db, DeliveryOf(c, a)).db;
    assert |db'.inbox| == |db'.inbox.Keys| && |db.inbox| == |db.inbox.Keys|;
  }

  /** Of every item, the delivered events are the first ones. */
  ghost predicate PrefixClosed(h: History, delivered: set<string>) {
    forall k, i | k in h.chains && 0 <= i < |h.chains[k]| && h.chains[k][i].eventId in delivered ::
      i < Prefix(h.chains[k], delivered)
  }

  lemma GapsIffOpen(c: Codec, h: History, s: Session)
    requires c.Lawful() && Clean(c, h) && SessionInv(c, h, s) && s.unacked == {}
    ensures GapIds(s.db) == {} <==> PrefixClosed(h, s.delivered)
  {
    hide Clean, CleanDb, Prefix, NextWaits, Owed;
    AckedIsSettled(c, h, s);
    if PrefixClosed(h, s.delivered) {
      forall id | id in s.db.inbox ensures s.db.inbox[id].disposition != Gap {
        var e := RowEvent(c, h, s.db, id);
        SettledRow(c, h, s, e);
        if e.payload.QuantityDecremented? {
          var k := ItemKeyOf(e);
          assert h.chains[k][e.version - 1] == e;
          SettledItem(c, h, s, k);
        }
      }
    } else {
      var k, i :| k in h.chains && 0 <= i < |h.chains[k]| && h.chains[k][i].eventId in s.delivered
                  && i >= Prefix(h.chains[k], s.delivered);
      assert SettledChain(c, h, s, k);
      assert SettledEvent(c, h, s, k, i);
      assert h.chains[k][i].eventId in GapIds(s.db);
    }
  }

  /**
   A rebuild without database failures, over deliveries of a clean history in any order and with any repetition:
   every record is counted once, the tables are the settled state of what was delivered, and the status is
   complete exactly when there were records, a tenant id, and no item with a hole in its delivered versions.
   */
  lemma AnyOrderRebuild(c: Codec, h: History, db: Db, xs: seq<Arrival>, tenantBlank: bool)
    requires c.Lawful() && Clean(c, h) && AllFrom(h, xs) && Ample(xs)
    ensures var r := RebuildFrom(c, db, Deliveries(c, xs), true, tenantBlank);
            var s := Consume(c, FRESH, xs);
            && r.db == s.db && Settled(c, h, s)
            && r.applied + r.duplicates + r.quarantined == |xs| && r.failures == 0
            && (r.status == T.Complete <==> xs != [] && !tenantBlank && PrefixClosed(h, s.delivered))
  {
    hide Clean, CleanDb, AckInv, Consume, RebuildRecords, PrefixClosed, Settled, GapIds;
    var ds := Deliveries(c, xs);
    RebuildFollows(c, h, xs, |xs|);
    assert ds[..|xs|] == ds && xs[..|xs|] == xs;
    var s := Consume(c, FRESH, xs);
    AckedIsSettled(c, h, s);
    GapsIffOpen(c, h, s);
    assert s.db.failures == map[] by {
      NoFailures(c, h, s.db);
    }
    if xs == [] {
      assert s.db == EMPTY_DB by {
        NothingConsumed(c);
      }
    }
  }

  lemma NothingConsumed(c: Codec)
    ensures Consume(c, FRESH, []) == FRESH
  {
  }

  lemma NoFailures(c: Codec, h: History, db: Db)
    requires CleanDb(c, h, db)
    ensures db.failures == map[]
  {
  }

  ghost predicate DeliversAll(c: Codec, h: History, xs: seq<Arrival>) {
    forall e :: InHistory(h, e) ==> e.eventId in Consume(c, FRESH, xs).delivered
  }

  /** Every item at the end of its chain, every hop present, and nothing else. */
  ghost predicate WholeHistory(h: History, db: Db) {
    && (forall k :: k in db.items <==> k in h.chains && h.chains[k] != [])
    && (forall k | k in db.items ::
          var last := h.chains[k][|h.chains[k]| - 1];
          last.payload.QuantityDecremented? && db.items[k] == ItemRow(last.payload.after, |h.chains[k]|))
    && db.hops.Keys == h.hops.Keys
    && (forall k | k in db.hops :: db.hops[k] == HopOf(h.hops[k]))
  }

  lemma AllDelivered(c: Codec, h: History, s: Session)
    requires c.Lawful() && Clean(c, h) && Settled(c, h, s) && forall e :: InHistory(h, e) ==> e.eventId in s.delivered
    ensures PrefixClosed(h, s.delivered) && WholeHistory(h, s.db)
  {
    hide Clean, Prefix, HopOf, SettledEvent;
    forall k | k in h.chains ensures Prefix(h.chains[k], s.delivered) == |h.chains[k]| && SettledChain(c, h, s, k) {
      forall i | 0 <= i < |h.chains[k]| ensures h.chains[k][i].eventId in s.delivered {
        EventAtInHistory(c, h, InventoryItem, k.tenant, k.item, i + 1);
        assert EventAt(h, InventoryItem, k.tenant, k.item, i + 1).value == h.chains[k][i];
      }
      PrefixIs(h.chains[k], s.delivered, |h.chains[k]|);
    }
    forall k | k in h.hops ensures k in s.db.hops && s.db.hops[k] == HopOf(h.hops[k]) {
      HopInHistory(c, h, k);
      assert SettledHop(h, s, k);
    }
    hide SettledHop;
  }

  /** A complete clean history rebuilds completely from any permutation of it, repetitions included. */
  lemma CompleteHistoryRebuilds(c: Codec, h: History, db: Db, xs: seq<Arrival>)
    requires c.Lawful() && Clean(c, h) && AllFrom(h, xs) && Ample(xs) && xs != [] && DeliversAll(c, h, xs)
    ensures var r := RebuildFrom(c, db, Deliveries(c, xs), true, false);
            r.status == T.Complete && WholeHistory(h, r.db) && r.applied + r.duplicates + r.quarantined == |xs|
  {
    hide Clean, RebuildFrom, Consume, Settled, PrefixClosed, WholeHistory, InHistory, Deliveries;
    AnyOrderRebuild(c, h, db, xs, false);
    AllDelivered(c, h, Consume(c, FRESH, xs));
  }
}
