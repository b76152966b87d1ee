/**
 What the forecast source's status means on any outbox and any platform tables, written by hand, damaged or honest:
 the events it trusts, the chains they must form and the projection they must end in.
 */
module ForecastStatus {
  import opened Events
  import opened Projection
  import opened Source
  import opened ForecastSource

  // --- chains of events --------------------------------------------------------------------------------------

  /** A set of events. */
  type Among = Envelope -> bool

  /** The one right before `e` in its item's history. */
  predicate Follows(p: Envelope, e: Envelope) {
    && p.payload.QuantityDecremented? && e.payload.QuantityDecremented? && p.aggregateId == e.aggregateId
    && p.version == e.version - 1 && p.payload.after == e.payload.before
  }

  /** The item's events have different versions, and each but the first follows one that it links up with. */
  ghost predicate Chained(trusted: Among, item: string) {
    && (forall a, b | trusted(a) && trusted(b) && a.aggregateId == b.aggregateId == item && a != b :: a.version != b.version)
    && (forall e | trusted(e) && e.aggregateId == item :: e.version == 1 || exists p :: trusted(p) && Follows(p, e))
  }

  /** The item's event of the greatest version. */
  ghost predicate IsLast(trusted: Among, item: string, e: Envelope) {
    && trusted(e) && e.aggregateId == item
    && forall other | trusted(other) && other.aggregateId == item :: other.version <= e.version
  }

  // --- what is trusted ---------------------------------------------------------------------------------------

  /** What the forecast source looks at. */
  datatype View = View(o: Outside, t: string, db: Db, outbox: map<string, OutboxRow>, cutoff: int) {
    /** An inventory row of the tenant recorded by the cutoff. */
    predicate Given(id: string) {
      id in outbox && outbox[id].tenant == t && outbox[id].kind == InventoryItem && outbox[id].recordedAt <= cutoff
    }

    predicate Other(id: string) {
      Given(id) && o.codec.parse(outbox[id].bytes).Ok? && !o.codec.parse(outbox[id].bytes).value.payload.QuantityDecremented?
    }

    /** The row of the event's id holds the event, and its columns, hash and timestamp are the event's. */
    predicate WellFormed(e: Envelope) {
      && Given(e.eventId)
      && var row := outbox[e.eventId];
      && o.codec.parse(row.bytes) == Ok(e) && e.payload.QuantityDecremented? && e.tenantId == t
      && e.aggregateType == row.aggregateType && e.aggregateId == row.aggregate && e.version == row.version
      && o.codec.Hash(e) == row.hash && o.instant(e.recordedAt) == row.recordedAt
    }

    /** Well formed, and the platform has applied exactly this content or seen it again. */
    predicate Trusted(e: Envelope) {
      && WellFormed(e) && e.eventId in db.inbox
      && var row, seen := outbox[e.eventId], db.inbox[e.eventId];
      && seen.tenant == t && seen.kind == row.kind && seen.aggregate == row.aggregate && seen.version == row.version
      && seen.hash == row.hash && seen.disposition in {Applied, DuplicateNoop}
    }

    /** Well formed and on its way: the platform has no decision of the tenant for it. */
    predicate Awaited(e: Envelope) {
      WellFormed(e) && (e.eventId in db.inbox ==> db.inbox[e.eventId].tenant != t) && outbox[e.eventId].status != Quarantined
    }

    predicate TrustedRow(id: string) {
      Given(id) && o.codec.parse(outbox[id].bytes).Ok? && o.codec.parse(outbox[id].bytes).value.eventId == id
      && Trusted(o.codec.parse(outbox[id].bytes).value)
    }

    predicate AwaitedRow(id: string) {
      Given(id) && o.codec.parse(outbox[id].bytes).Ok? && o.codec.parse(outbox[id].bytes).value.eventId == id
      && Awaited(o.codec.parse(outbox[id].bytes).value)
    }

    /** Every row is another kind's, trusted, or awaited. */
    ghost predicate RowsSane() {
      forall id | Given(id) :: Other(id) || TrustedRow(id) || AwaitedRow(id)
    }

    /** Every inventory decision of the tenant, not of a row after the cutoff, is that of a trusted row. */
    ghost predicate InboxSane() {
      forall id | id in db.inbox && db.inbox[id].tenant == t && db.inbox[id].kind == InventoryItem
                  && (id in outbox && outbox[id].tenant == t ==> outbox[id].recordedAt <= cutoff) :: TrustedRow(id)
    }

    ghost predicate ChainsSane() { forall item :: Chained(Trusted, item) }

    /** The projection has the items with a trusted event, each as its last one left it. */
    ghost predicate ProjectionSane() {
      && (forall item :: ItemKey(t, item) in db.items <==> exists e :: Trusted(e) && e.aggregateId == item)
      && (forall item, e | IsLast(Trusted, item, e) && ItemKey(t, item) in db.items && e.payload.QuantityDecremented? ::
            db.items[ItemKey(t, item)] == ItemRow(e.payload.after, e.version))
    }

    ghost predicate Sane() { RowsSane() && InboxSane() && ChainsSane() && ProjectionSane() }

    ghost predicate SomeAwaited() { exists id :: AwaitedRow(id) }
  }

  // --- one item's replay -------------------------------------------------------------------------------------

  ghost predicate AllSound(es: seq<Envelope>) {
    forall k | 0 <= k < |es| :: es[k].payload.QuantityDecremented? && Sound(es[k])
  }

  ghost predicate InStep(es: seq<Envelope>, i: nat)
    requires i < |es|
  {
    es[i].version == i + 1 && (i > 0 ==> Follows(es[i - 1], es[i]))
  }

  /** A series of one item's sound events replays unbroken iff its versions are 1, 2, 3... and its quantities link up. */
  lemma {:induction false} UnbrokenIff(es: seq<Envelope>, item: string)
    requires AllSound(es) && forall k | 0 <= k < |es| :: es[k].aggregateId == item
    ensures !ReplaySeries(es).broken <==> forall i | 0 <= i < |es| :: InStep(es, i)
    ensures !ReplaySeries(es).broken ==>
              var r := ReplaySeries(es);
              if es == [] then r == Replayed(0, 1, None, false)
              else
                var last := es[|es| - 1].payload.after;
                r == Replayed(last, |es| + 1, Some(ItemRow(last, |es|)), false)
  {
    if es != [] {
      var n := |es| - 1;
      var init := es[..n];
      UnbrokenIff(init, item);
      forall i | 0 <= i < n ensures InStep(init, i) <==> InStep(es, i) {
      }
      assert Sound(es[n]);
      assert (forall i | 0 <= i < |es| :: InStep(es, i)) <==> (forall i | 0 <= i < n :: InStep(init, i)) && InStep(es, n);
    }
  }

  /** The item's trusted events, in order of their versions. */
  ghost predicate SeriesOf(trusted: Among, item: string, es: seq<Envelope>) {
    && (forall k | 0 <= k < |es| :: trusted(es[k]) && es[k].aggregateId == item)
    && (forall e | trusted(e) && e.aggregateId == item :: e in es)
    && (forall i, j | 0 <= i < j < |es| :: es[i] != es[j] && es[i].version <= es[j].version)
  }

  lemma IndexOf(es: seq<Envelope>, e: Envelope) returns (i: nat)
    requires e in es
    ensures i < |es| && es[i] == e
  {
    i :| 0 <= i < |es| && es[i] == e;
  }

  /** The event right before a chained one is right before it in the series. */
  lemma {:induction false} ChainedInStep(trusted: Among, item: string, es: seq<Envelope>, i: nat)
    requires SeriesOf(trusted, item, es) && Chained(trusted, item) && AllSound(es) && i < |es|
    ensures InStep(es, i)
  {
    if i > 0 {
      ChainedInStep(trusted, item, es, i - 1);
    }
    Strict(trusted, item, es);
    assert es[i].version >= 1;
    if es[i].version != 1 {
      var p :| trusted(p) && Follows(p, es[i]);
      var j := IndexOf(es, p);
      Adjacent(es, i, j);
    }
  }

  lemma Strict(trusted: Among, item: string, es: seq<Envelope>)
    requires SeriesOf(trusted, item, es) && Chained(trusted, item)
    ensures forall i, j | 0 <= i < j < |es| :: es[i].version < es[j].version
  {
    hide Follows;
  }

  lemma Adjacent(es: seq<Envelope>, i: nat, j: nat)
    requires forall i, j | 0 <= i < j < |es| :: es[i].version < es[j].version
    requires i < |es| && j < |es| && es[j].version == es[i].version - 1
    ensures j == i - 1
  {
    assert j < i;
    assert es[j].version < es[j + 1].version;
  }

  lemma SeriesVersion(trusted: Among, item: string, es: seq<Envelope>, e: Envelope) returns (i: nat)
    requires SeriesOf(trusted, item, es) && (forall i | 0 <= i < |es| :: InStep(es, i)) && trusted(e) && e.aggregateId == item
    ensures i < |es| && es[i] == e && e.version == i + 1
  {
    i := IndexOf(es, e);
    assert InStep(es, i);
  }

  lemma InStepChained(trusted: Among, item: string, es: seq<Envelope>)
    requires SeriesOf(trusted, item, es) && forall i | 0 <= i < |es| :: InStep(es, i)
    ensures Chained(trusted, item)
  {
    forall a, b | trusted(a) && trusted(b) && a.aggregateId == b.aggregateId == item && a != b ensures a.version != b.version {
      var i := SeriesVersion(trusted, item, es, a);
      var j := SeriesVersion(trusted, item, es, b);
    }
    forall e | trusted(e) && e.aggregateId == item ensures e.version == 1 || exists p :: trusted(p) && Follows(p, e) {
      var i := SeriesVersion(trusted, item, es, e);
      assert InStep(es, i);
      if i > 0 {
        assert trusted(es[i - 1]) && Follows(es[i - 1], e);
      }
    }
  }

  lemma ChainedIff(trusted: Among, item: string, es: seq<Envelope>)
    requires SeriesOf(trusted, item, es) && AllSound(es)
    ensures Chained(trusted, item) <==> !ReplaySeries(es).broken
  {
    UnbrokenIff(es, item);
    hide ReplaySeries, InStep, SeriesOf, AllSound;
    if Chained(trusted, item) {
      forall i | 0 <= i < |es| ensures InStep(es, i) {
        ChainedInStep(trusted, item, es, i);
      }
    } else if !ReplaySeries(es).broken {
      InStepChained(trusted, item, es);
    }
  }

  /** An unbroken replay ends at the item's last trusted event. */
  lemma ReplayEnds(trusted: Among, item: string, es: seq<Envelope>)
    requires SeriesOf(trusted, item, es) && AllSound(es) && !ReplaySeries(es).broken
    ensures ReplaySeries(es).last.Some? <==> exists e :: trusted(e) && e.aggregateId == item
    ensures ReplaySeries(es).last.Some? <==> exists e :: IsLast(trusted, item, e)
    ensures forall e | IsLast(trusted, item, e) ::
              e.payload.QuantityDecremented? && ReplaySeries(es).last == Some(ItemRow(e.payload.after, e.version))
  {
    UnbrokenIff(es, item);
    hide ReplaySeries;
    forall e | trusted(e) && e.aggregateId == item ensures e.version <= |es| {
      var i := SeriesVersion(trusted, item, es, e);
    }
    if es != [] {
      var n := |es| - 1;
      assert InStep(es, n);
      assert IsLast(trusted, item, es[n]);
      forall e | IsLast(trusted, item, e) ensures e == es[n] {
        var i := SeriesVersion(trusted, item, es, e);
        assert es[n].version <= e.version;
      }
    }
  }

  // --- what loading keeps ------------------------------------------------------------------------------------

  lemma ClassifyIs(v: View, id: string)
    requires v.Given(id)
    ensures var verdict := Classify(v.o, v.t, v.db, id, v.outbox[id]);
            && (verdict.Use? <==> v.TrustedRow(id))
            && (verdict.Use? ==> verdict.event.eventId == id && v.Trusted(verdict.event))
            && (verdict.Skip? <==> v.Other(id))
            && (verdict == Flag(NotApplied(id)) <==> v.AwaitedRow(id))
            && (verdict.Flag? && verdict.reason.NotApplied? ==> verdict.reason.id == id)
  {
  }

  /** The trusted events of the rows `order`, each once, an item's in order of their versions. */
  ghost predicate Kept(v: View, order: seq<string>, events: seq<Envelope>) {
    && (forall k | 0 <= k < |events| :: KeptFrom(v, order, events[k]))
    && (forall e | v.Trusted(e) && e.eventId in order :: e in events)
    && (forall i, j | 0 <= i < j < |events| :: events[i].eventId != events[j].eventId)
    && (forall i, j | 0 <= i < j < |events| && events[i].aggregateId == events[j].aggregateId ::
          events[i].version <= events[j].version)
  }

  ghost predicate KeptFrom(v: View, order: seq<string>, e: Envelope) { e.eventId in order && v.Trusted(e) }

  lemma TrustedIs(v: View, e: Envelope)
    requires v.Trusted(e)
    ensures v.TrustedRow(e.eventId) && v.Given(e.eventId) && e.payload.QuantityDecremented?
    ensures e.aggregateId == v.outbox[e.eventId].aggregate && e.version == v.outbox[e.eventId].version
    ensures v.o.codec.parse(v.outbox[e.eventId].bytes) == Ok(e)
    ensures v.o.codec.Lawful() ==> Sound(e)
  {
  }

  ghost predicate FlaggedBy(v: View, order: seq<string>, r: Reason, id: string) {
    id in order && v.Given(id) && Classify(v.o, v.t, v.db, id, v.outbox[id]) == Flag(r)
  }

  ghost predicate Flagged(v: View, order: seq<string>, r: Reason) { exists id :: FlaggedBy(v, order, r, id) }

  ghost predicate Listing(v: View, order: seq<string>) {
    && (forall i | 0 <= i < |order| :: v.Given(order[i]))
    && (forall i, j | 0 <= i < j < |order| :: order[i] != order[j])
    && (forall i, j | 0 <= i < j < |order| && v.outbox[order[i]].aggregate == v.outbox[order[j]].aggregate ::
          v.outbox[order[i]].version <= v.outbox[order[j]].version)
  }

  lemma {:induction false} LoadingKeeps(v: View, order: seq<string>)
    requires Listing(v, order)
    ensures forall id | id in order :: id in v.outbox
    ensures var l := LoadEvents(v.o, v.t, v.db, v.outbox, order);
            Kept(v, order, l.events) && forall r :: r in l.reasons <==> Flagged(v, order, r)
  {
    if order != [] {
      var n := |order| - 1;
      LoadingKeeps(v, order[..n]);
      hide Kept, LoadEvents, Take, Classify;
      LoadUnfolds(v.o, v.t, v.db, v.outbox, order, |order|);
      assert order[..|order|] == order;
      KeepOne(v, order, LoadEvents(v.o, v.t, v.db, v.outbox, order[..n]));
    }
  }

  lemma KeepOne(v: View, order: seq<string>, l: Loaded)
    requires order != [] && Listing(v, order) && Kept(v, order[..|order| - 1], l.events)
    requires forall r :: r in l.reasons <==> Flagged(v, order[..|order| - 1], r)
    ensures v.Given(order[|order| - 1])
    ensures var id := order[|order| - 1];
            var l' := Take(l, Classify(v.o, v.t, v.db, id, v.outbox[id]));
            Kept(v, order, l'.events) && forall r :: r in l'.reasons <==> Flagged(v, order, r)
  {
    var n := |order| - 1;
    var id := order[n];
    assert v.Given(id);
    ClassifyIs(v, id);
    var verdict := Classify(v.o, v.t, v.db, id, v.outbox[id]);
    hide Classify, View.Given, View.Other, View.Trusted, View.TrustedRow, View.AwaitedRow, Kept, FlaggedBy, Listing;
    if verdict.Use? {
      NewAmongKept(v, order, l.events);
      KeptNext(v, order, l.events, verdict.event);
    } else {
      KeptSame(v, order, l.events);
    }
    FlagsNext(v, order, l.reasons, verdict);
  }

  lemma FlagsNext(v: View, order: seq<string>, reasons: set<Reason>, verdict: Verdict)
    requires order != [] && v.Given(order[|order| - 1])
    requires verdict == Classify(v.o, v.t, v.db, order[|order| - 1], v.outbox[order[|order| - 1]])
    requires forall r :: r in reasons <==> Flagged(v, order[..|order| - 1], r)
    ensures var more := if verdict.Flag? then reasons + {verdict.reason} else reasons;
            forall r :: r in more <==> Flagged(v, order, r)
  {
    hide Classify, View.Given;
    var n := |order| - 1;
    var more := if verdict.Flag? then reasons + {verdict.reason} else reasons;
    forall r: Reason, id: string
      ensures FlaggedBy(v, order, r, id) <==> FlaggedBy(v, order[..n], r, id) || (id == order[n] && verdict == Flag(r))
    {
      assert id in order <==> id in order[..n] || id == order[n];
    }
    forall r ensures r in more <==> Flagged(v, order, r) {
      if r in reasons {
        var id :| FlaggedBy(v, order[..n], r, id);
        assert FlaggedBy(v, order, r, id);
      }
      if verdict == Flag(r) {
        assert FlaggedBy(v, order, r, order[n]);
      }
      if id :| FlaggedBy(v, order, r, id) {
        assert FlaggedBy(v, order[..n], r, id) || verdict == Flag(r);
      }
    }
  }

  lemma NewAmongKept(v: View, order: seq<string>, events: seq<Envelope>)
    requires order != [] && Listing(v, order) && Kept(v, order[..|order| - 1], events)
    ensures order[|order| - 1] !in Ids(events)
  {
    hide View.Given, View.Trusted;
    var n := |order| - 1;
    forall k | 0 <= k < |events| ensures events[k].eventId != order[n] {
      assert KeptFrom(v, order[..n], events[k]);
    }
  }

  lemma KeptNext(v: View, order: seq<string>, events: seq<Envelope>, e: Envelope)
    requires order != [] && Listing(v, order) && Kept(v, order[..|order| - 1], events)
    requires v.Trusted(e) && e.eventId == order[|order| - 1] && e.eventId !in Ids(events)
    ensures Kept(v, order, events + [e])
  {
    TrustedIs(v, e);
    hide View.Given, View.Trusted;
    var n := |order| - 1;
    var more := events + [e];
    forall k | 0 <= k < |more| ensures KeptFrom(v, order, more[k]) {
      if k < |events| {
        assert KeptFrom(v, order[..n], events[k]);
      }
    }
    forall x | v.Trusted(x) && x.eventId in order ensures x in more {
      if x.eventId in order[..n] {
        assert x in events;
      } else {
        TrustedIs(v, x);
        assert more[|events|] == e;
      }
    }
    forall i | 0 <= i < |events| ensures events[i].eventId != e.eventId {
      assert events[i].eventId in Ids(events);
    }
    forall i | 0 <= i < |events| && events[i].aggregateId == e.aggregateId ensures events[i].version <= e.version {
      assert KeptFrom(v, order[..n], events[i]);
      TrustedIs(v, events[i]);
      var j :| 0 <= j < n && order[j] == events[i].eventId;
    }
  }

  lemma KeptSame(v: View, order: seq<string>, events: seq<Envelope>)
    requires order != [] && Kept(v, order[..|order| - 1], events) && !v.TrustedRow(order[|order| - 1])
    ensures Kept(v, order, events)
  {
    hide View.Trusted, View.TrustedRow;
    var n := |order| - 1;
    forall k | 0 <= k < |events| ensures KeptFrom(v, order, events[k]) {
      assert KeptFrom(v, order[..n], events[k]);
    }
    forall e | v.Trusted(e) && e.eventId in order ensures e in events {
      TrustedIs(v, e);
      assert e.eventId in order[..n];
    }
  }

  ghost predicate InOrder(es: seq<Envelope>) {
    forall i, j | 0 <= i < j < |es| :: es[i] != es[j] && es[i].version <= es[j].version
  }

  lemma {:induction false} SeriesOrder(events: seq<Envelope>, item: string)
    requires forall i, j | 0 <= i < j < |events| :: events[i].eventId != events[j].eventId
    requires forall i, j | 0 <= i < j < |events| && events[i].aggregateId == events[j].aggregateId ::
               events[i].version <= events[j].version
    ensures InOrder(Series(events, item))
  {
    if events != [] {
      var n := |events| - 1;
      SeriesOrder(events[..n], item);
      SeriesMembers(events[..n], item);
      var es := Series(events[..n], item);
      forall i | 0 <= i < |es| && events[n].aggregateId == item ensures es[i] != events[n] && es[i].version <= events[n].version {
        assert es[i] in es;
        var k := IndexOf(events[..n], es[i]);
        assert events[k] == es[i] && events[k].aggregateId == item;
      }
      assert InOrder(es);
    }
  }

  lemma SeriesIs(v: View, order: seq<string>, events: seq<Envelope>, item: string)
    requires v.o.codec.Lawful() && Kept(v, order, events) && (forall id :: id in order <==> v.Given(id))
    ensures SeriesOf(v.Trusted, item, Series(events, item)) && AllSound(Series(events, item))
  {
    hide View.Given, View.Trusted, Codec.Lawful;
    SeriesOrder(events, item);
    SeriesMembers(events, item);
    var es := Series(events, item);
    forall k | 0 <= k < |es|
      ensures v.Trusted(es[k]) && es[k].aggregateId == item && es[k].payload.QuantityDecremented? && Sound(es[k])
    {
      assert es[k] in es;
      var j := IndexOf(events, es[k]);
      assert KeptFrom(v, order, events[j]);
      TrustedIs(v, es[k]);
    }
    forall e | v.Trusted(e) && e.aggregateId == item ensures e in es {
      TrustedIs(v, e);
      assert e in events;
    }
  }

  // --- the reasons -------------------------------------------------------------------------------------------

  predicate OnlyWaiting(reasons: set<Reason>) { forall r | r in reasons :: r.NotApplied? }

  ghost predicate SomeWaiting(reasons: set<Reason>) { exists r :: r in reasons && r.NotApplied? }

  lemma RowReason(v: View, order: seq<string>, id: string)
    requires v.Given(id) && id in order
    ensures v.Other(id) || v.TrustedRow(id) || v.AwaitedRow(id) || exists r: Reason :: FlaggedBy(v, order, r, id) && r.Wrong?
    ensures v.AwaitedRow(id) ==> FlaggedBy(v, order, NotApplied(id), id)
  {
    ClassifyIs(v, id);
    var verdict := Classify(v.o, v.t, v.db, id, v.outbox[id]);
    if verdict.Flag? {
      assert FlaggedBy(v, order, verdict.reason, id);
    }
  }

  lemma ReasonRow(v: View, order: seq<string>, r: Reason, id: string)
    requires FlaggedBy(v, order, r, id)
    ensures v.Given(id) && !v.Other(id) && !v.TrustedRow(id)
    ensures v.AwaitedRow(id) <==> r.NotApplied?
  {
    ClassifyIs(v, id);
  }

  lemma RowReasons(v: View, order: seq<string>, reasons: set<Reason>)
    requires forall id :: id in order <==> v.Given(id)
    requires forall r :: r in reasons <==> Flagged(v, order, r)
    ensures OnlyWaiting(reasons) <==> v.RowsSane()
    ensures SomeWaiting(reasons) <==> v.SomeAwaited()
  {
    hide FlaggedBy, View.Given, View.Other, View.TrustedRow, View.AwaitedRow;
    if OnlyWaiting(reasons) {
      forall id | v.Given(id) ensures v.Other(id) || v.TrustedRow(id) || v.AwaitedRow(id) {
        RowReason(v, order, id);
        if r: Reason :| FlaggedBy(v, order, r, id) && r.Wrong? {
          assert r in reasons;
        }
      }
    }
    if v.RowsSane() {
      forall r | r in reasons ensures r.NotApplied? {
        var id :| FlaggedBy(v, order, r, id);
        ReasonRow(v, order, r, id);
      }
    }
    if r :| r in reasons && r.NotApplied? {
      var id :| FlaggedBy(v, order, r, id);
      ReasonRow(v, order, r, id);
    }
    if id :| v.AwaitedRow(id) {
      AwaitedIsGiven(v, id);
      RowReason(v, order, id);
      assert NotApplied(id) in reasons;
    }
  }

  lemma AwaitedIsGiven(v: View, id: string)
    requires v.AwaitedRow(id)
    ensures v.Given(id)
  {
  }

  lemma TrustedRowIs(v: View, id: string)
    requires v.TrustedRow(id)
    ensures v.Given(id) && exists e :: v.Trusted(e) && e.eventId == id
    ensures id in v.db.inbox && v.db.inbox[id].disposition in {Applied, DuplicateNoop}
  {
    var e := v.o.codec.parse(v.outbox[id].bytes).value;
    assert v.Trusted(e) && e.eventId == id;
  }

  lemma KnownIs(v: View, order: seq<string>, events: seq<Envelope>, id: string)
    requires Kept(v, order, events) && (forall id :: id in order <==> v.Given(id))
    ensures id in Ids(events) <==> v.TrustedRow(id)
  {
    hide View.Given, View.Trusted, View.TrustedRow;
    if id in Ids(events) {
      var i :| 0 <= i < |events| && events[i].eventId == id;
      assert KeptFrom(v, order, events[i]);
      TrustedIs(v, events[i]);
    }
    if v.TrustedRow(id) {
      TrustedRowIs(v, id);
      var e :| v.Trusted(e) && e.eventId == id;
      var i := IndexOf(events, e);
    }
  }

  lemma InboxReasonsIff(v: View, known: set<string>)
    requires forall id :: id in known <==> v.TrustedRow(id)
    ensures InboxReasons(v.t, v.db, v.outbox, v.cutoff, known) == {} <==> v.InboxSane()
    ensures forall r | r in InboxReasons(v.t, v.db, v.outbox, v.cutoff, known) :: r.Wrong?
  {
    var reasons := InboxReasons(v.t, v.db, v.outbox, v.cutoff, known);
    forall id | v.TrustedRow(id) ensures id in v.db.inbox && v.db.inbox[id].disposition in {Applied, DuplicateNoop} {
      TrustedRowIs(v, id);
    }
    hide View.TrustedRow;
    forall id | id in v.db.inbox && InScope(v.t, v.db, v.outbox, v.cutoff, id) && !v.TrustedRow(id)
      ensures Wrong(id, MissingOutbox) in reasons
    {
    }
  }

  lemma ReplayReasonsIff(v: View, order: seq<string>, events: seq<Envelope>)
    requires v.o.codec.Lawful() && Kept(v, order, events) && (forall id :: id in order <==> v.Given(id))
    ensures ReplayReasons(events) == {} <==> v.ChainsSane()
    ensures ReplayReasons(events) == {} ==> forall item :: !ReplaySeries(Series(events, item)).broken
    ensures forall r | r in ReplayReasons(events) :: r.Wrong?
  {
    hide View.Given, View.Trusted, Kept, SeriesOf, ReplaySeries, Series, Chained, Codec.Lawful, AllSound;
    forall item ensures Chained(v.Trusted, item) <==> !ReplaySeries(Series(events, item)).broken {
      SeriesIs(v, order, events, item);
      ChainedIff(v.Trusted, item, Series(events, item));
    }
    var reasons := ReplayReasons(events);
    forall item ensures Wrong(item, ReplayBroken) in reasons <==> ReplaySeries(Series(events, item)).broken {
      ItemsOfSeries(events, item);
      if Series(events, item) == [] {
        EmptyReplay(Series(events, item));
      }
    }
  }

  lemma EmptyReplay(es: seq<Envelope>)
    requires es == []
    ensures !ReplaySeries(es).broken
  {
  }

  /** The comparison finds nothing exactly when the maps are equal. */
  lemma CompareIff(projection: map<string, ItemRow>, replay: map<string, ItemRow>)
    ensures CompareReasons(projection, replay) == {} <==> projection == replay
    ensures forall r | r in CompareReasons(projection, replay) :: r.Wrong?
  {
    var reasons := CompareReasons(projection, replay);
    if reasons == {} {
      forall item ensures item in projection <==> item in replay {
        assert item in projection && item !in replay ==> Wrong(item, NoHistory) in reasons;
        assert item in replay && item !in projection ==> Wrong(item, NoProjection) in reasons;
      }
      forall item | item in projection ensures replay[item] == projection[item] {
        assert replay[item].quantity != projection[item].quantity ==> Wrong(item, QuantityDiffers) in reasons;
        assert replay[item].version != projection[item].version ==> Wrong(item, VersionDiffers) in reasons;
      }
    }
  }

  /** Where an item's replay ended, as far as it is unbroken. */
  ghost predicate StateIs(trusted: Among, item: string, replay: map<string, ItemRow>) {
    && (item in replay <==> exists e :: trusted(e) && e.aggregateId == item)
    && (item in replay <==> exists e :: IsLast(trusted, item, e))
    && (forall e | IsLast(trusted, item, e) && item in replay ::
          e.payload.QuantityDecremented? && replay[item] == ItemRow(e.payload.after, e.version))
  }

  lemma StateOf(v: View, order: seq<string>, events: seq<Envelope>, item: string)
    requires v.o.codec.Lawful() && Kept(v, order, events) && (forall id :: id in order <==> v.Given(id))
    requires !ReplaySeries(Series(events, item)).broken
    ensures StateIs(v.Trusted, item, ReplayState(events))
  {
    hide View.Given, View.Trusted, Kept, Series, ReplaySeries, Codec.Lawful, SeriesOf, IsLast, AllSound;
    SeriesIs(v, order, events, item);
    ReplayEnds(v.Trusted, item, Series(events, item));
    ItemsOfSeries(events, item);
    if Series(events, item) == [] {
      EmptyLast(Series(events, item));
    }
  }

  lemma EmptyLast(es: seq<Envelope>)
    requires es == []
    ensures ReplaySeries(es).last == None
  {
  }

  lemma ProjectionIff(v: View, replay: map<string, ItemRow>)
    requires forall item :: StateIs(v.Trusted, item, replay)
    ensures TenantItems(v.db, v.t) == replay <==> v.ProjectionSane()
  {
    var projection := TenantItems(v.db, v.t);
    TenantItemsIs(v.db, v.t);
    hide View.Trusted, TenantItems, IsLast;
    forall item ensures StateIs(v.Trusted, item, replay) {
    }
    if v.ProjectionSane() {
      forall item ensures item in projection <==> item in replay {
        assert StateIs(v.Trusted, item, replay);
        assert item in projection <==> ItemKey(v.t, item) in v.db.items;
      }
      forall item | item in projection ensures replay[item] == projection[item] {
        assert StateIs(v.Trusted, item, replay);
        var e :| IsLast(v.Trusted, item, e);
      }
    }
    if projection == replay {
      forall item ensures ItemKey(v.t, item) in v.db.items <==> exists e :: v.Trusted(e) && e.aggregateId == item {
        assert StateIs(v.Trusted, item, replay);
        assert item in projection <==> ItemKey(v.t, item) in v.db.items;
      }
      forall item, e | IsLast(v.Trusted, item, e) && ItemKey(v.t, item) in v.db.items && e.payload.QuantityDecremented?
        ensures v.db.items[ItemKey(v.t, item)] == ItemRow(e.payload.after, e.version)
      {
        assert StateIs(v.Trusted, item, replay);
        assert item in projection;
      }
    }
  }

  // --- the status --------------------------------------------------------------------------------------------

  lemma StatusSplits(rows: set<Reason>, inbox: set<Reason>, replay: set<Reason>, compare: set<Reason>)
    requires forall r | r in inbox + replay + compare :: r.Wrong?
    ensures var status := StatusOf(rows + inbox + replay + compare);
            var sane := OnlyWaiting(rows) && inbox == {} && replay == {} && compare == {};
            && (status == SnapshotComplete <==> sane && !SomeWaiting(rows))
            && (status == SnapshotStale <==> sane && SomeWaiting(rows))
  {
    var all := rows + inbox + replay + compare;
    var sane := OnlyWaiting(rows) && inbox == {} && replay == {} && compare == {};
    assert sane <==> OnlyWaiting(all) by {
      assert forall r | r in inbox + replay + compare :: r in all && !r.NotApplied?;
    }
    if sane && rows != {} {
      var r :| r in rows;
      assert SomeWaiting(rows);
    }
    assert StatusOf(all) == if all == {} then SnapshotComplete else if OnlyWaiting(all) then SnapshotStale else SnapshotIncomplete;
  }

  /**
   On any tables: complete or stale means sane, complete that nothing is awaited and stale that something is; in every
   other case the status is incomplete.
   */
  lemma StatusOnAnyTables(v: View, order: seq<string>)
    requires v.o.codec.Lawful() && Selected(v.outbox, v.t, v.cutoff, order)
    ensures forall id | id in order :: id in v.outbox
    ensures var status := StatusOf(Reasons(v.o, v.t, v.db, v.outbox, v.cutoff, order));
            && (status == SnapshotComplete <==> v.Sane() && !v.SomeAwaited())
            && (status == SnapshotStale <==> v.Sane() && v.SomeAwaited())
  {
    ListingIs(v, order);
    hide Listing, View.Given, View.Trusted, View.TrustedRow, Codec.Lawful, Kept, Selected, FlaggedBy, View.SomeAwaited,
         View.RowsSane, View.InboxSane, View.ChainsSane, View.ProjectionSane, LoadEvents, InboxReasons, ReplayReasons,
         CompareReasons, ReplaySeries, Series, ReplayState, TenantItems, StateIs, OnlyWaiting, SomeWaiting, StatusOf, Ids;
    LoadingKeeps(v, order);
    var l := LoadEvents(v.o, v.t, v.db, v.outbox, order);
    RowReasons(v, order, l.reasons);
    forall id ensures id in Ids(l.events) <==> v.TrustedRow(id) {
      KnownIs(v, order, l.events, id);
    }
    InboxReasonsIff(v, Ids(l.events));
    ReplayReasonsIff(v, order, l.events);
    CompareIff(TenantItems(v.db, v.t), ReplayState(l.events));
    if ReplayReasons(l.events) == {} {
      forall item ensures StateIs(v.Trusted, item, ReplayState(l.events)) {
        StateOf(v, order, l.events, item);
      }
      ProjectionIff(v, ReplayState(l.events));
    }
    StatusSplits(l.reasons, InboxReasons(v.t, v.db, v.outbox, v.cutoff, Ids(l.events)), ReplayReasons(l.events),
                 CompareReasons(TenantItems(v.db, v.t), ReplayState(l.events)));
  }

  lemma ListingIs(v: View, order: seq<string>)
    requires Selected(v.outbox, v.t, v.cutoff, order)
    ensures Listing(v, order) && forall id :: id in order <==> v.Given(id)
  {
    forall i | 0 <= i < |order| ensures v.Given(order[i]) {
      assert order[i] in order;
    }
  }
}
