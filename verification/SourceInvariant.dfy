/**
 What every accepted, rejected or rolled-back command keeps: the outbox holds exactly the version chain of each
 item and one event per lineage aggregate, orders match events one to one, quantities balance, and every
 causation id names the event of the parent hop.
 */
module SourceInvariant {
  import opened Events
  import opened Families
  import opened Projection
  import opened Convergence
  import opened Source

  // --- growing a history ---------------------------------------------------------------------------

  ghost predicate Extends(h: History, h': History) {
    && (forall k | k in h.chains :: k in h'.chains && h.chains[k] <= h'.chains[k])
    && (forall k | k in h.hops :: k in h'.hops && h'.hops[k] == h.hops[k])
  }

  ghost predicate FreshId(h: History, id: string) {
    forall a :: InHistory(h, a) ==> a.eventId != id
  }

  lemma ExtendsEventAt(h: History, h': History, kind: Kind, tenant: string, aggregate: string, version: int)
    requires Extends(h, h') && EventAt(h, kind, tenant, aggregate, version).Some?
    ensures EventAt(h', kind, tenant, aggregate, version) == EventAt(h, kind, tenant, aggregate, version)
  {
  }

  /** The event is the next one of its item's chain, or the first of its lineage aggregate. */
  ghost predicate Next(c: Codec, h: History, e: Envelope) {
    && c.valid(e)
    && FreshId(h, e.eventId)
    && if e.payload.QuantityDecremented? then
         var es := ChainOf(h, ItemKeyOf(e));
         && e.version == |es| + 1
         && (es != [] ==> es[|es| - 1].payload.QuantityDecremented? && e.payload.before == es[|es| - 1].payload.after)
       else
         && e.version == 1
         && HopKeyOf(e) !in h.hops
         && (forall k | k in h.hops && k.kind == e.Kind() && k.tenant == e.tenantId ::
               !SharesParent(k.kind, HopOf(h.hops[k]), HopOf(e)))
  }

  lemma ExtendMembers(c: Codec, h: History, e: Envelope, a: Envelope)
    requires Next(c, h, e)
    ensures InHistory(Extend(h, e), a) <==> InHistory(h, a) || a == e
  {
    hide HopOf, SharesParent, FreshId;
    if a == e {
    } else if a.payload.QuantityDecremented? && e.payload.QuantityDecremented? && ItemKeyOf(a) == ItemKeyOf(e) {
      var es := ChainOf(h, ItemKeyOf(e));
      assert Extend(h, e).chains[ItemKeyOf(e)] == es + [e];
    }
  }

  lemma ExtendChains(c: Codec, h: History, e: Envelope)
    requires Clean(c, h) && Next(c, h, e)
    ensures var h' := Extend(h, e);
            && (forall k | k in h'.chains :: CleanChain(c, k, h'.chains[k]))
            && (forall k | k in h'.hops :: CleanHop(c, k, h'.hops[k]))
            && Extends(h, h')
  {
    hide HopOf, SharesParent, FreshId, UniqueIds, UniqueParents;
    var h' := Extend(h, e);
    forall k | k in h'.chains ensures CleanChain(c, k, h'.chains[k]) {
      if k in h.chains {
        assert CleanChain(c, k, h.chains[k]);
      }
    }
    forall k | k in h'.hops ensures CleanHop(c, k, h'.hops[k]) {
      if k in h.hops {
        assert CleanHop(c, k, h.hops[k]);
      }
    }
  }

  lemma ExtendIds(c: Codec, h: History, e: Envelope)
    requires Clean(c, h) && Next(c, h, e)
    ensures UniqueIds(Extend(h, e))
  {
    hide HopOf, SharesParent, UniqueParents, InHistory;
    var h' := Extend(h, e);
    forall a, b | InHistory(h', a) && InHistory(h', b) && a.eventId == b.eventId ensures a == b {
      ExtendMembers(c, h, e, a);
      ExtendMembers(c, h, e, b);
    }
  }

  lemma ExtendParents(c: Codec, h: History, e: Envelope)
    requires Clean(c, h) && Next(c, h, e)
    ensures UniqueParents(Extend(h, e))
  {
    hide HopOf, FreshId, UniqueIds, CleanChain, CleanHop;
    var h' := Extend(h, e);
    forall k, k' | k in h'.hops && k' in h'.hops && k != k' && k.kind == k'.kind && k.tenant == k'.tenant
      ensures !SharesParent(k.kind, HopOf(h'.hops[k]), HopOf(h'.hops[k']))
    {
    }
  }

  lemma ExtendClean(c: Codec, h: History, e: Envelope)
    requires Clean(c, h) && Next(c, h, e)
    ensures Clean(c, Extend(h, e)) && Extends(h, Extend(h, e)) && InHistory(Extend(h, e), e)
  {
    hide Next, CleanChain, CleanHop, UniqueIds, UniqueParents, Extends, InHistory;
    ExtendChains(c, h, e);
    ExtendIds(c, h, e);
    ExtendParents(c, h, e);
    ExtendMembers(c, h, e, e);
  }

  // --- the invariant -------------------------------------------------------------------------------

  /** The row's immutable columns are those written for the event. */
  ghost predicate IsRowOf(o: Outside, row: OutboxRow, e: Envelope) {
    var p := PendingRow(o, e);
    && row.tenant == p.tenant && row.kind == p.kind && row.aggregateType == p.aggregateType
    && row.aggregate == p.aggregate && row.version == p.version
    && row.hash == p.hash && row.bytes == p.bytes && row.recordedAt == p.recordedAt
  }

  ghost predicate OutboxRowClean(o: Outside, h: History, id: string, row: OutboxRow) {
    var at := EventAt(h, row.kind, row.tenant, row.aggregate, row.version);
    at.Some? && at.value.eventId == id && IsRowOf(o, row, at.value)
  }

  /** Outbox rows and events of the history correspond one to one. */
  ghost predicate OutboxMatches(o: Outside, h: History, outbox: map<string, OutboxRow>) {
    && (forall id | id in outbox :: OutboxRowClean(o, h, id, outbox[id]))
    && (forall e :: InHistory(h, e) ==> e.eventId in outbox)
  }

  /** The authoritative row is the end of the item's chain, and the chain starts from the seed. */
  ghost predicate ItemBalanced(l: Ledger, k: ItemKey)
    requires k in l.source.items && k in l.seeds
  {
    var es := ChainOf(l.history, k);
    var row := l.source.items[k];
    && row.version == |es|
    && row.quantity >= 0
    && (es == [] ==> row.quantity == l.seeds[k])
    && (es != [] ==>
          && es[0].payload.QuantityDecremented? && es[0].payload.before == l.seeds[k]
          && es[|es| - 1].payload.QuantityDecremented? && es[|es| - 1].payload.after == row.quantity)
    && l.seeds[k] == row.quantity + Total(l.source.orders, k)
  }

  ghost predicate ItemsBalanced(l: Ledger) {
    && l.seeds.Keys == l.source.items.Keys
    && l.history.chains.Keys <= l.source.items.Keys
    && (forall k | k in l.source.items :: ItemBalanced(l, k))
  }

  /** The i-th event of an item is the event of that accepted order. */
  ghost predicate OrdersAt(h: History, k: ItemKey, i: int, id: string, order: Order) {
    && k in h.chains && 0 <= i < |h.chains[k]|
    && var p := h.chains[k][i].payload;
    p.QuantityDecremented? && p.orderId == id && order == Order(k.tenant, k.item, p.decremented)
  }

  /** Events and orders correspond one to one. */
  ghost predicate OrdersMatch(h: History, orders: map<string, Order>) {
    && (forall k, i | k in h.chains && 0 <= i < |h.chains[k]| ::
          var p := h.chains[k][i].payload;
          p.QuantityDecremented? && p.orderId in orders && OrdersAt(h, k, i, p.orderId, orders[p.orderId]))
    && (forall id | id in orders ::
          exists i :: OrdersAt(h, ItemKey(orders[id].tenant, orders[id].item), i, id, orders[id]))
    && (forall k, i, k', i', id, order :: OrdersAt(h, k, i, id, order) && OrdersAt(h, k', i', id, order) ==> i == i')
  }

  ghost predicate HopsMatch(h: History, hops: map<HopKey, SourceHop>) {
    && hops.Keys == h.hops.Keys
    && (forall k | k in hops :: hops[k] == SourceHopOf(h.hops[k].payload))
  }

  /** A hop event names its parent hop's event as its cause; a supplier event names none. */
  ghost predicate HopCaused(h: History, k: HopKey)
    requires k in h.hops
  {
    var e := h.hops[k];
    if k.kind == Supplier then e.causationId == None
    else
      var parent := ParentKey(k.tenant, e.payload);
      parent in h.hops && e.causationId == Some(h.hops[parent].eventId)
  }

  ghost predicate Caused(h: History) {
    forall k | k in h.hops :: HopCaused(h, k)
  }

  ghost predicate LedgerInv(o: Outside, l: Ledger) {
    && Clean(o.codec, l.history)
    && OutboxMatches(o, l.history, l.source.outbox)
    && ItemsBalanced(l)
    && OrdersMatch(l.history, l.source.orders)
    && HopsMatch(l.history, l.source.hops)
    && Caused(l.history)
  }

  // --- order totals --------------------------------------------------------------------------------

  function Share(order: Order, k: ItemKey): int {
    if ItemKey(order.tenant, order.item) == k then order.quantity else 0
  }

  /** Sum of the quantities ordered of one item. */
  ghost function Total(orders: map<string, Order>, k: ItemKey): int
    decreases |orders|
  {
    if orders == map[] then 0
    else
      var id :| id in orders;
      RemoveShrinks(orders, id);
      Share(orders[id], k) + Total(orders - {id}, k)
  }

  lemma RemoveShrinks(orders: map<string, Order>, id: string)
    requires id in orders
    ensures |orders - {id}| == |orders| - 1
  {
    assert (orders - {id}).Keys == orders.Keys - {id};
    assert |(orders - {id}).Keys| == |orders - {id}| && |orders.Keys| == |orders|;
  }

  lemma TotalUnfolds(orders: map<string, Order>, k: ItemKey) returns (id: string)
    requires orders != map[]
    ensures id in orders && Total(orders, k) == Share(orders[id], k) + Total(orders - {id}, k)
  {
    id :| id in orders && Total(orders, k) == Share(orders[id], k) + Total(orders - {id}, k);
  }

  lemma {:induction false} TotalInsert(orders: map<string, Order>, id: string, order: Order, k: ItemKey)
    requires id !in orders
    ensures Total(orders[id := order], k) == Total(orders, k) + Share(order, k)
    decreases |orders|
  {
    hide Total, Share;
    var all := orders[id := order];
    assert id in all;
    var first := TotalUnfolds(all, k);
    if first == id {
      assert all - {id} == orders;
    } else {
      var rest := orders - {first};
      RemoveShrinks(orders, first);
      assert all - {first} == rest[id := order];
      TotalInsert(rest, id, order, k);
      TotalInsert(rest, first, orders[first], k);
      assert rest[first := orders[first]] == orders;
    }
  }

  // --- one step ------------------------------------------------------------------------------------

  lemma OutboxIsFresh(o: Outside, h: History, outbox: map<string, OutboxRow>, id: string)
    requires OutboxMatches(o, h, outbox) && id !in outbox
    ensures FreshId(h, id)
  {
  }

  lemma OutboxGrows(o: Outside, h: History, outbox: map<string, OutboxRow>, e: Envelope)
    requires Clean(o.codec, h) && OutboxMatches(o, h, outbox) && Next(o.codec, h, e)
    ensures OutboxMatches(o, Extend(h, e), outbox[e.eventId := PendingRow(o, e)])
  {
    hide Clean, Next, Extend, InHistory, PendingRow, IsRowOf, EventAt;
    var h' := Extend(h, e);
    ExtendClean(o.codec, h, e);
    var outbox' := outbox[e.eventId := PendingRow(o, e)];
    forall id | id in outbox' ensures OutboxRowClean(o, h', id, outbox'[id]) {
      if id == e.eventId {
        OwnRowClean(o, h', e);
      } else {
        var row := outbox[id];
        assert OutboxRowClean(o, h, id, row);
        ExtendsEventAt(h, h', row.kind, row.tenant, row.aggregate, row.version);
      }
    }
    forall a | InHistory(h', a) ensures a.eventId in outbox' {
      ExtendMembers(o.codec, h, e, a);
    }
  }

  lemma OwnRowClean(o: Outside, h: History, e: Envelope)
    requires InHistory(h, e)
    ensures OutboxRowClean(o, h, e.eventId, PendingRow(o, e))
  {
  }

  /** What an accepted order is, in terms of the item's row. */
  ghost predicate OrderEffect(o: Outside, s: Source, cmd: Command, s': Source, e: Envelope)
    requires cmd.OrderCommand?
  {
    var k := ItemKey(cmd.tenant, cmd.item);
    && k in s.items
    && e.eventId == cmd.eventId && e.eventId !in s.outbox
    && e.payload == QuantityDecremented(cmd.orderId, cmd.item, cmd.quantity, s.items[k].quantity,
                                        s.items[k].quantity - cmd.quantity)
    && ItemKeyOf(e) == k
    && e.version == s.items[k].version + 1
    && o.codec.valid(e)
    && cmd.quantity >= 1 && s.items[k].quantity >= cmd.quantity
    && cmd.orderId !in s.orders
    && s' == s.(items := s.items[k := ItemRow(e.payload.after, e.version)],
                orders := s.orders[cmd.orderId := Order(cmd.tenant, cmd.item, cmd.quantity)],
                outbox := s.outbox[e.eventId := PendingRow(o, e)])
  }

  lemma OrderEffectOf(o: Outside, s: Source, cmd: Command, commits: bool)
    requires cmd.OrderCommand?
    ensures var (s', r) := AcceptOrder(o, s, cmd, commits);
            if r.Accepted? then OrderEffect(o, s, cmd, s', r.event) else s' == s
  {
    hide OrderCausationError, PendingRow, EventTypeName, AggregateTypeName;
  }

  lemma OrderIsNext(o: Outside, l: Ledger, cmd: Command, s': Source, e: Envelope)
    requires cmd.OrderCommand? && LedgerInv(o, l) && OrderEffect(o, l.source, cmd, s', e)
    ensures Next(o.codec, l.history, e)
  {
    hide Clean, OrdersMatch, HopsMatch, Caused, PendingRow, OutboxMatches, Total;
    OutboxIsFresh(o, l.history, l.source.outbox, e.eventId);
    assert ItemBalanced(l, ItemKeyOf(e));
  }

  lemma ExtendedChains(h: History, e: Envelope)
    requires e.payload.QuantityDecremented?
    ensures var h' := Extend(h, e);
            && h'.chains.Keys == h.chains.Keys + {ItemKeyOf(e)}
            && h'.hops == h.hops
            && (forall k :: ChainOf(h', k) == if k == ItemKeyOf(e) then ChainOf(h, k) + [e] else ChainOf(h, k))
  {
  }

  lemma OrderKeepsItem(o: Outside, l: Ledger, cmd: Command, s': Source, e: Envelope, k: ItemKey)
    requires cmd.OrderCommand? && OrderEffect(o, l.source, cmd, s', e)
    requires k in l.source.items && k in l.seeds && ItemBalanced(l, k)
    ensures ItemBalanced(l.(source := s', history := Extend(l.history, e)), k)
  {
    hide Total, PendingRow, Extend, ChainOf;
    ExtendedChains(l.history, e);
    TotalInsert(l.source.orders, cmd.orderId, Order(cmd.tenant, cmd.item, cmd.quantity), k);
  }

  lemma OrderKeepsItems(o: Outside, l: Ledger, cmd: Command, s': Source, e: Envelope)
    requires cmd.OrderCommand? && ItemsBalanced(l) && OrderEffect(o, l.source, cmd, s', e)
    ensures ItemsBalanced(l.(source := s', history := Extend(l.history, e)))
  {
    hide Total, PendingRow, ItemBalanced, Extend;
    var l' := l.(source := s', history := Extend(l.history, e));
    ExtendedChains(l.history, e);
    forall k | k in l'.source.items ensures ItemBalanced(l', k) {
      OrderKeepsItem(o, l, cmd, s', e, k);
    }
  }

  lemma OrderKeepsOrders(o: Outside, l: Ledger, cmd: Command, s': Source, e: Envelope)
    requires cmd.OrderCommand? && OrdersMatch(l.history, l.source.orders) && OrderEffect(o, l.source, cmd, s', e)
    ensures OrdersMatch(Extend(l.history, e), s'.orders)
  {
    hide PendingRow;
    var h := l.history;
    var h' := Extend(h, e);
    var own := ItemKeyOf(e);
    var n := |ChainOf(h, own)|;
    var order := Order(cmd.tenant, cmd.item, cmd.quantity);
    forall k, i, id, row | OrdersAt(h', k, i, id, row)
      ensures (OrdersAt(h, k, i, id, row) && id in l.source.orders && id != cmd.orderId)
              || (k == own && i == n && id == cmd.orderId && row == order)
    {
      if !(k == own && i == n) {
        assert h'.chains[k][i] == h.chains[k][i];
      }
    }
    forall k, i | k in h'.chains && 0 <= i < |h'.chains[k]|
      ensures var p := h'.chains[k][i].payload;
              p.QuantityDecremented? && p.orderId in s'.orders && OrdersAt(h', k, i, p.orderId, s'.orders[p.orderId])
    {
      if !(k == own && i == n) {
        assert h'.chains[k][i] == h.chains[k][i];
        assert OrdersAt(h, k, i, h.chains[k][i].payload.orderId, l.source.orders[h.chains[k][i].payload.orderId]);
      }
    }
    forall id | id in s'.orders
      ensures exists i :: OrdersAt(h', ItemKey(s'.orders[id].tenant, s'.orders[id].item), i, id, s'.orders[id])
    {
      if id == cmd.orderId {
        assert OrdersAt(h', own, n, id, s'.orders[id]);
      } else {
        var k := ItemKey(s'.orders[id].tenant, s'.orders[id].item);
        var i :| OrdersAt(h, k, i, id, l.source.orders[id]);
        assert OrdersAt(h', k, i, id, s'.orders[id]);
      }
    }
  }

  lemma OrderKeepsInv(o: Outside, l: Ledger, cmd: Command, s': Source, e: Envelope)
    requires cmd.OrderCommand? && LedgerInv(o, l) && OrderEffect(o, l.source, cmd, s', e)
    ensures LedgerInv(o, l.(source := s', history := Extend(l.history, e)))
  {
    hide Clean, OutboxMatches, ItemsBalanced, OrdersMatch, HopsMatch, Caused, Next, PendingRow;
    OrderIsNext(o, l, cmd, s', e);
    ExtendClean(o.codec, l.history, e);
    OutboxGrows(o, l.history, l.source.outbox, e);
    OrderKeepsItems(o, l, cmd, s', e);
    OrderKeepsOrders(o, l, cmd, s', e);
    assert Extend(l.history, e).hops == l.history.hops;
    SameHops(l.history, Extend(l.history, e), l.source.hops);
  }

  lemma SameHops(h: History, h': History, hops: map<HopKey, SourceHop>)
    requires h'.hops == h.hops && HopsMatch(h, hops) && Caused(h)
    ensures HopsMatch(h', hops) && Caused(h')
  {
    forall k | k in h'.hops ensures HopCaused(h', k) {
      assert HopCaused(h, k);
    }
  }

  /** What an accepted hop command is. */
  ghost predicate HopEffect(o: Outside, s: Source, cmd: Command, s': Source, e: Envelope)
    requires cmd.HopCommand?
  {
    && !cmd.hop.QuantityDecremented?
    && e.eventId == cmd.eventId && e.eventId !in s.outbox
    && e.payload == cmd.hop && e.tenantId == cmd.tenant && e.aggregateId == cmd.hop.SelfId()
    && e.version == 1
    && o.codec.valid(e)
    && e.causationId == (if cmd.hop.SupplierRegistered? then None else cmd.causation)
    && HopError(s, cmd) == None
    && !SourceHopCollides(s.hops, HopKeyOf(e), SourceHopOf(cmd.hop))
    && s' == s.(hops := s.hops[HopKeyOf(e) := SourceHopOf(cmd.hop)],
                outbox := s.outbox[e.eventId := PendingRow(o, e)])
  }

  lemma HopEffectOf(o: Outside, s: Source, cmd: Command, commits: bool)
    requires cmd.HopCommand? && !cmd.hop.QuantityDecremented?
    ensures var (s', r) := AcceptHop(o, s, cmd, commits);
            if r.Accepted? then HopEffect(o, s, cmd, s', r.event) else s' == s
  {
    hide HopError, PendingRow, EventTypeName, AggregateTypeName, SourceHopOf, SourceHopCollides;
  }

  lemma SharesAgree(a: Envelope, b: Envelope)
    requires a.Kind() == b.Kind() && !a.payload.QuantityDecremented?
    ensures SharesParent(a.Kind(), HopOf(a), HopOf(b)) <==>
            SharesSourceParent(a.Kind(), SourceHopOf(a.payload), SourceHopOf(b.payload))
  {
  }

  lemma HopIsNext(o: Outside, l: Ledger, cmd: Command, s': Source, e: Envelope)
    requires cmd.HopCommand? && LedgerInv(o, l) && HopEffect(o, l.source, cmd, s', e)
    ensures Next(o.codec, l.history, e)
  {
    hide OrdersMatch, Caused, PendingRow, ItemsBalanced, SharesParent, SharesSourceParent, HopOf, SourceHopOf, OutboxMatches,
         UniqueIds, UniqueParents, HopError;
    OutboxIsFresh(o, l.history, l.source.outbox, e.eventId);
    var h := l.history;
    forall k | k in h.hops && k.kind == e.Kind() && k.tenant == e.tenantId
      ensures !SharesParent(k.kind, HopOf(h.hops[k]), HopOf(e))
    {
      assert CleanHop(o.codec, k, h.hops[k]);
      SharesAgree(h.hops[k], e);
      assert l.source.hops[k] == SourceHopOf(h.hops[k].payload);
    }
  }

  /** The first outbox event of a lineage aggregate is its only event. */
  lemma ParentIsHop(o: Outside, l: Ledger, k: HopKey)
    requires LedgerInv(o, l) && k in l.history.hops
    ensures ParentEvent(l.source.outbox, k.kind, k.tenant, k.id) == Some(l.history.hops[k].eventId)
  {
    hide OrdersMatch, Caused, ItemsBalanced, HopsMatch, UniqueIds, UniqueParents;
    var outbox := l.source.outbox;
    HopInHistory(o.codec, l.history, k);
    var e := l.history.hops[k];
    assert OutboxRowClean(o, l.history, e.eventId, outbox[e.eventId]);
    forall id | id in outbox && outbox[id].tenant == k.tenant && outbox[id].kind == k.kind && outbox[id].aggregate == k.id
      ensures id == e.eventId && outbox[id].version == 1
    {
      assert OutboxRowClean(o, l.history, id, outbox[id]);
    }
    RowOfHop(o, l, k);
    assert IsFirst(outbox, k.kind, k.tenant, k.id, e.eventId);
  }

  /** The outbox row of a hop event carries that hop's aggregate. */
  lemma RowOfHop(o: Outside, l: Ledger, k: HopKey)
    requires LedgerInv(o, l) && k in l.history.hops
    ensures var id := l.history.hops[k].eventId;
            && id in l.source.outbox
            && IsRowOf(o, l.source.outbox[id], l.history.hops[k])
            && l.source.outbox[id].tenant == k.tenant && l.source.outbox[id].kind == k.kind
            && l.source.outbox[id].aggregate == k.id
  {
    hide OrdersMatch, Caused, ItemsBalanced, HopsMatch, UniqueParents, IsRowOf;
    HopInHistory(o.codec, l.history, k);
    EventRow(o, l.history, l.source.outbox, l.history.hops[k]);
    RowColumns(o, l.source.outbox[l.history.hops[k].eventId], l.history.hops[k]);
  }

  lemma RowColumns(o: Outside, row: OutboxRow, e: Envelope)
    requires IsRowOf(o, row, e)
    ensures row.tenant == e.tenantId && row.kind == e.Kind() && row.aggregate == e.aggregateId && row.version == e.version
  {
  }

  lemma EventRow(o: Outside, h: History, outbox: map<string, OutboxRow>, e: Envelope)
    requires Clean(o.codec, h) && OutboxMatches(o, h, outbox) && InHistory(h, e)
    ensures e.eventId in outbox && IsRowOf(o, outbox[e.eventId], e)
  {
    hide UniqueParents, IsRowOf;
    var row := outbox[e.eventId];
    assert OutboxRowClean(o, h, e.eventId, row);
    EventAtInHistory(o.codec, h, row.kind, row.tenant, row.aggregate, row.version);
  }

  lemma HopKeepsCauses(o: Outside, l: Ledger, cmd: Command, s': Source, e: Envelope)
    requires cmd.HopCommand? && LedgerInv(o, l) && HopEffect(o, l.source, cmd, s', e)
    ensures Caused(Extend(l.history, e)) && HopsMatch(Extend(l.history, e), s'.hops)
  {
    hide OrdersMatch, ItemsBalanced, OutboxMatches, Clean, PendingRow, ParentEvent, SourceHopCollides, SourceHopOf, Caused,
         HopsMatch;
    assert SourceHopCollides(l.source.hops, HopKeyOf(e), SourceHopOf(cmd.hop)) || HopKeyOf(e) !in l.source.hops by {
      CollidesKey(l.source.hops, HopKeyOf(e), SourceHopOf(cmd.hop));
    }
    MatchedKey(l.history, l.source.hops, HopKeyOf(e));
    HopRowsGrow(l.history, l.source.hops, e);
    if !cmd.hop.SupplierRegistered? {
      var parent := ParentKey(cmd.tenant, cmd.hop);
      MatchedKey(l.history, l.source.hops, parent);
      ParentIsHop(o, l, parent);
      assert e.causationId == Some(l.history.hops[parent].eventId);
    }
    CausesGrow(l.history, e);
  }

  lemma CollidesKey(hops: map<HopKey, SourceHop>, k: HopKey, row: SourceHop)
    ensures k in hops ==> SourceHopCollides(hops, k, row)
  {
  }

  lemma MatchedKey(h: History, hops: map<HopKey, SourceHop>, k: HopKey)
    requires HopsMatch(h, hops)
    ensures k in hops <==> k in h.hops
  {
  }

  lemma HopRowsGrow(h: History, hops: map<HopKey, SourceHop>, e: Envelope)
    requires HopsMatch(h, hops) && !e.payload.QuantityDecremented?
    ensures HopsMatch(Extend(h, e), hops[HopKeyOf(e) := SourceHopOf(e.payload)])
  {
  }

  lemma CausesGrow(h: History, e: Envelope)
    requires Caused(h) && !e.payload.QuantityDecremented? && HopKeyOf(e) !in h.hops
    requires if e.payload.SupplierRegistered? then e.causationId == None
             else
               var parent := ParentKey(e.tenantId, e.payload);
               parent in h.hops && e.causationId == Some(h.hops[parent].eventId)
    ensures Caused(Extend(h, e))
  {
    var h' := Extend(h, e);
    forall k | k in h'.hops ensures HopCaused(h', k) {
      if k in h.hops {
        assert HopCaused(h, k);
      }
    }
  }

  lemma HopKeepsRest(o: Outside, l: Ledger, cmd: Command, s': Source, e: Envelope)
    requires cmd.HopCommand? && ItemsBalanced(l) && OrdersMatch(l.history, l.source.orders)
    requires HopEffect(o, l.source, cmd, s', e)
    ensures ItemsBalanced(l.(source := s', history := Extend(l.history, e)))
    ensures OrdersMatch(Extend(l.history, e), s'.orders)
  {
    hide Total, PendingRow, HopError, SourceHopCollides, SourceHopOf;
    var l' := l.(source := s', history := Extend(l.history, e));
    forall k | k in l'.source.items ensures ItemBalanced(l', k) {
      assert ItemBalanced(l, k);
    }
    SameChains(l.history, l'.history, l.source.orders);
  }

  lemma SameChains(h: History, h': History, orders: map<string, Order>)
    requires h'.chains == h.chains && OrdersMatch(h, orders)
    ensures OrdersMatch(h', orders)
  {
    forall k, i, id, order ensures OrdersAt(h', k, i, id, order) <==> OrdersAt(h, k, i, id, order) {
    }
    forall id | id in orders
      ensures exists i :: OrdersAt(h', ItemKey(orders[id].tenant, orders[id].item), i, id, orders[id])
    {
      var i :| OrdersAt(h, ItemKey(orders[id].tenant, orders[id].item), i, id, orders[id]);
      assert OrdersAt(h', ItemKey(orders[id].tenant, orders[id].item), i, id, orders[id]);
    }
  }

  lemma HopKeepsInv(o: Outside, l: Ledger, cmd: Command, s': Source, e: Envelope)
    requires cmd.HopCommand? && LedgerInv(o, l) && HopEffect(o, l.source, cmd, s', e)
    ensures LedgerInv(o, l.(source := s', history := Extend(l.history, e)))
  {
    hide Clean, OutboxMatches, ItemsBalanced, OrdersMatch, HopsMatch, Caused, Next, PendingRow, HopError, SourceHopCollides,
         SourceHopOf;
    HopIsNext(o, l, cmd, s', e);
    ExtendClean(o.codec, l.history, e);
    OutboxGrows(o, l.history, l.source.outbox, e);
    HopKeepsCauses(o, l, cmd, s', e);
    HopKeepsRest(o, l, cmd, s', e);
  }

  lemma SeedKeepsInv(o: Outside, l: Ledger, k: ItemKey, q: nat)
    requires LedgerInv(o, l) && k !in l.source.items
    ensures LedgerInv(o, l.(source := l.source.(items := l.source.items[k := ItemRow(q, 0)]), seeds := l.seeds[k := q]))
  {
    hide Clean, OutboxMatches, HopsMatch, Caused, OrdersMatch, ItemsBalanced;
    NoOrders(l, k);
    SeedItems(l, k, q);
  }

  lemma SeedItems(l: Ledger, k: ItemKey, q: nat)
    requires ItemsBalanced(l) && k !in l.source.items && Total(l.source.orders, k) == 0
    ensures ItemsBalanced(l.(source := l.source.(items := l.source.items[k := ItemRow(q, 0)]), seeds := l.seeds[k := q]))
  {
    hide Total;
    var l' := l.(source := l.source.(items := l.source.items[k := ItemRow(q, 0)]), seeds := l.seeds[k := q]);
    forall k' | k' in l'.source.items ensures ItemBalanced(l', k') {
      if k' != k {
        assert ItemBalanced(l, k');
      }
    }
  }

  lemma NoOrders(l: Ledger, k: ItemKey)
    requires ItemsBalanced(l) && OrdersMatch(l.history, l.source.orders) && k !in l.source.items
    ensures Total(l.source.orders, k) == 0
  {
    hide Total;
    forall id | id in l.source.orders ensures Share(l.source.orders[id], k) == 0 {
      var order := l.source.orders[id];
      var i :| OrdersAt(l.history, ItemKey(order.tenant, order.item), i, id, order);
    }
    ZeroShares(l.source.orders, k);
  }

  lemma {:induction false} ZeroShares(orders: map<string, Order>, k: ItemKey)
    requires forall id | id in orders :: Share(orders[id], k) == 0
    ensures Total(orders, k) == 0
    decreases |orders|
  {
    if orders != map[] {
      var id := TotalUnfolds(orders, k);
      RemoveShrinks(orders, id);
      ZeroShares(orders - {id}, k);
    }
  }

  /** Every step of the source keeps the invariant; the history only grows, by at most the emitted event. */
  lemma AdvanceKeepsInv(o: Outside, l: Ledger, step: SourceStep)
    requires LedgerInv(o, l) && StepOk(step)
    ensures LedgerInv(o, Advance(o, l, step))
    ensures Extends(l.history, Advance(o, l, step).history)
  {
    hide LedgerInv, AcceptOrder, AcceptHop, OrderEffect, HopEffect, Extends;
    ExtendsRefl(l.history);
    match step
    case Seed(k, q) =>
      if k !in l.source.items {
        SeedKeepsInv(o, l, k, q);
      }
    case Command(cmd, commits) =>
      if cmd.OrderCommand? {
        OrderEffectOf(o, l.source, cmd, commits);
        var (s', r) := AcceptOrder(o, l.source, cmd, commits);
        if r.Accepted? {
          OrderKeepsInv(o, l, cmd, s', r.event);
          OrderIsNext(o, l, cmd, s', r.event);
          InvClean(o, l);
          ExtendClean(o.codec, l.history, r.event);
        }
      } else {
        HopEffectOf(o, l.source, cmd, commits);
        var (s', r) := AcceptHop(o, l.source, cmd, commits);
        if r.Accepted? {
          HopKeepsInv(o, l, cmd, s', r.event);
          HopIsNext(o, l, cmd, s', r.event);
          InvClean(o, l);
          ExtendClean(o.codec, l.history, r.event);
        }
      }
  }

  lemma InvClean(o: Outside, l: Ledger)
    requires LedgerInv(o, l)
    ensures Clean(o.codec, l.history)
  {
  }

  lemma ExtendsRefl(h: History)
    ensures Extends(h, h)
  {
  }

  ghost function RunSource(o: Outside, steps: seq<SourceStep>): Ledger
    requires forall i | 0 <= i < |steps| :: StepOk(steps[i])
  {
    if steps == [] then EMPTY_LEDGER
    else Advance(o, RunSource(o, steps[..|steps| - 1]), steps[|steps| - 1])
  }

  /**
   Source invariant, over every sequence of seeds, accepted, rejected and rolled-back commands: each item's
   outbox events are exactly versions 1..v, each quantity-after the next quantity-before, the last one the
   quantity on hand; events and orders correspond one to one; seed = on hand + ordered; and each lineage
   aggregate has one event, caused by its parent's event.
   */
  lemma {:induction false} RunSourceKeepsInv(o: Outside, steps: seq<SourceStep>)
    requires forall i | 0 <= i < |steps| :: StepOk(steps[i])
    ensures LedgerInv(o, RunSource(o, steps))
  {
    hide Advance, LedgerInv, StepOk;
    if steps == [] {
      EmptyLedgerInv(o);
    } else {
      RunSourceKeepsInv(o, steps[..|steps| - 1]);
      AdvanceKeepsInv(o, RunSource(o, steps[..|steps| - 1]), steps[|steps| - 1]);
    }
  }

  lemma EmptyLedgerInv(o: Outside)
    ensures LedgerInv(o, EMPTY_LEDGER)
  {
  }
}
