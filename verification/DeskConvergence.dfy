/**
 Interleaved deliveries of a clean history: what every single operation keeps, and what is owed while an event waits.
 */
module DeskConvergence {
  import opened Events
  import opened Projection
  import opened Convergence
  import opened Interleaving

  // --- clean desks -----------------------------------------------------------------------------------

  /** The delivery carries an event of the history under its own key; a selected row carries the event it is about. */
  ghost predicate TaskClean(c: Codec, h: History, task: Task) {
    match task
    case Fetched(key, value, _, _) =>
      && c.parse(value).Ok?
      && var e := c.parse(value).value;
      InHistory(h, e) && key == AggregateKey(e.tenantId, e.aggregateType, e.aggregateId)
    case Selecting(e) => InHistory(h, e)
    case Chosen(e, next, hash) =>
      && InHistory(h, e) && InHistory(h, next) && hash == c.Hash(next)
      && e.payload.QuantityDecremented? && next.payload.QuantityDecremented? && ItemKeyOf(next) == ItemKeyOf(e)
  }

  ghost predicate DeskClean(c: Codec, h: History, s: Desk) {
    CleanDb(c, h, s.db) && forall t | t in s.tasks :: TaskClean(c, h, s.tasks[t])
  }

  /** The step delivers nothing but events of the history. */
  ghost predicate StepClean(c: Codec, h: History, step: DeskStep) {
    step.Fetch? ==> TaskClean(c, h, Fetched(step.key, step.value, step.pos, step.probe))
  }

  /** The transaction of an event of the history that the delivery carries. */
  lemma CleanCommit(c: Codec, h: History, s: Desk, t: nat)
    requires c.Lawful() && Clean(c, h) && DeskClean(c, h, s) && t in s.tasks && s.tasks[t].Fetched?
    ensures var e := c.parse(s.tasks[t].value).value;
            var (db', d) := ProcessValidated(c, s.db, e);
            && InHistory(h, e) && e.version >= 1 && CleanEffect(c, s.db, e, db', d) && CleanDb(c, h, db')
            && Commit(c, s, t).db == db'
            && Commit(c, s, t).tasks == (if IsDone(d) then s.tasks[t := Selecting(e)] else s.tasks - {t})
            && Commit(c, s, t).delivered == s.delivered && Commit(c, s, t).failed == s.failed
  {
    hide ProcessValidated, Clean, CleanDb, Record, AggregateKey, CleanEffect, InHistory;
    assert TaskClean(c, h, s.tasks[t]);
    var e := c.parse(s.tasks[t].value).value;
    InHistoryValid(c, h, e);
    CleanTransaction(c, h, s.db, e);
  }

  /** A row re-drive may select is the next event of an item, with its own bytes and hash. */
  lemma CandidateIsNext(c: Codec, h: History, db: Db, kind: Kind, tenant: string, aggregate: string, id: string)
    requires c.Lawful() && Clean(c, h) && CleanDb(c, h, db) && id in GapCandidates(db, kind, tenant, aggregate)
    ensures kind == InventoryItem && id in db.inbox && db.inbox[id].bytes.Some?
    ensures var parsed := c.parse(db.inbox[id].bytes.value);
            && parsed.Ok?
            && var next := parsed.value;
            && InHistory(h, next) && next.eventId == id && db.inbox[id].hash == c.Hash(next)
            && next.payload.QuantityDecremented? && ItemKeyOf(next) == ItemKey(tenant, aggregate)
            && next.version == VersionOf(db.items, ItemKey(tenant, aggregate)) + 1
  {
    hide UniqueIds, UniqueParents, ItemClean, HopClean, Codec.Hash;
    assert RowClean(c, h, db, id);
    var row := db.inbox[id];
    EventAtInHistory(c, h, row.kind, row.tenant, row.aggregate, row.version);
  }

  lemma CleanSelect(c: Codec, h: History, s: Desk, t: nat, tie: TieBreak)
    requires c.Lawful() && Clean(c, h) && DeskClean(c, h, s) && t in s.tasks && s.tasks[t].Selecting?
    ensures var e := s.tasks[t].event;
            var k := ItemKeyOf(e);
            var s' := Select(c, s, t, tie);
            && s'.db == s.db && s'.delivered == s.delivered && s'.failed == s.failed
            && (s'.tasks == s.tasks - {t}
                || (&& t in s'.tasks && s'.tasks[t].Chosen? && s'.tasks == s.tasks[t := s'.tasks[t]]
                    && TaskClean(c, h, s'.tasks[t]) && s'.tasks[t].event == e
                    && s'.tasks[t].next.version == VersionOf(s.db.items, k) + 1
                    && s'.tasks[t].next.eventId in s.db.inbox))
            && (e.payload.QuantityDecremented? && k in s.db.items && NextWaits(h, s.db, k) ==> t in s'.tasks)
  {
    hide Clean, CleanDb, GapCandidates, InHistory, Codec.Hash, NextWaits, AggregateKey;
    assert TaskClean(c, h, s.tasks[t]);
    var e := s.tasks[t].event;
    var k := ItemKeyOf(e);
    var cs := GapCandidates(s.db, e.Kind(), e.tenantId, e.aggregateId);
    if cs != {} {
      CandidateIsNext(c, h, s.db, e.Kind(), e.tenantId, e.aggregateId, tie(cs));
    }
    if e.payload.QuantityDecremented? && k in s.db.items && NextWaits(h, s.db, k) {
      CleanNextFacts(c, h, s.db, k);
      Candidates(c, h, s.db, k);
    }
  }

  lemma CleanApply(c: Codec, h: History, s: Desk, t: nat)
    requires c.Lawful() && Clean(c, h) && DeskClean(c, h, s) && t in s.tasks && s.tasks[t].Chosen?
    ensures var x := s.tasks[t];
            var (db', d) := ProcessValidated(c, s.db, x.next);
            && InHistory(h, x.next) && CleanEffect(c, s.db, x.next, db', d) && CleanDb(c, h, db')
            && Apply(c, s, t).db == db'
            && Apply(c, s, t).tasks == (if d == Applied then s.tasks[t := Selecting(x.event)] else s.tasks - {t})
            && Apply(c, s, t).delivered == s.delivered && Apply(c, s, t).failed == s.failed
  {
    hide ProcessValidated, Clean, CleanDb, Record, CleanEffect, InHistory, Codec.Hash;
    assert TaskClean(c, h, s.tasks[t]);
    CleanTransaction(c, h, s.db, s.tasks[t].next);
  }

  /** Whatever is interleaved, the tables stay those of a consumer that has only seen the history. */
  lemma StepKeepsClean(c: Codec, h: History, s: Desk, step: DeskStep)
    requires c.Lawful() && Clean(c, h) && DeskClean(c, h, s) && StepClean(c, h, step)
    ensures DeskClean(c, h, Step(c, s, step))
  {
    hide ProcessValidated, Clean, CleanDb, Commit, Select, Apply, CleanEffect, InHistory, Codec.Hash, NextWaits, AggregateKey;
    if step.Work? && step.ok && step.task in s.tasks {
      assert TaskClean(c, h, s.tasks[step.task]);
      match s.tasks[step.task]
      case Fetched(_, _, _, _) => CleanCommit(c, h, s, step.task);
      case Selecting(_) => CleanSelect(c, h, s, step.task, step.tie);
      case Chosen(_, _, _) => CleanApply(c, h, s, step.task);
    }
  }

  // --- obligations -----------------------------------------------------------------------------------

  /** The event is one of the item's applied ones. */
  predicate AppliedOf(db: Db, k: ItemKey, e: Envelope) {
    e.payload.QuantityDecremented? && ItemKeyOf(e) == k && e.version <= VersionOf(db.items, k)
  }

  /** The delivery will see to the item's next event, or fail: it delivers or re-drives from an applied event. */
  ghost predicate Responsible(c: Codec, s: Desk, k: ItemKey, t: nat) {
    && t in s.tasks
    && match s.tasks[t]
       case Fetched(_, value, _, _) => c.parse(value).Ok? && AppliedOf(s.db, k, c.parse(value).value)
       case Selecting(e) => AppliedOf(s.db, k, e)
       case Chosen(e, next, _) => AppliedOf(s.db, k, e) && next.version == VersionOf(s.db.items, k) + 1
  }

  ghost predicate FailedOf(h: History, s: Desk, k: ItemKey) {
    exists e :: InHistory(h, e) && AppliedOf(s.db, k, e) && e.eventId in s.failed
  }

  /** The latest delivery of an applied event of the item failed, or one such delivery is still under way. */
  ghost predicate Outstanding(c: Codec, h: History, s: Desk, k: ItemKey) {
    FailedOf(h, s, k) || exists t :: Responsible(c, s, k, t)
  }

  /** A delivery that re-drives has its event applied; the row it selected is at most one version ahead. */
  ghost predicate TaskDone(s: Desk, task: Task) {
    match task
    case Fetched(_, _, _, _) => true
    case Selecting(e) =>
      e.eventId in s.db.inbox && (e.payload.QuantityDecremented? ==> AppliedOf(s.db, ItemKeyOf(e), e))
    case Chosen(e, next, _) =>
      && e.eventId in s.db.inbox && next.eventId in s.db.inbox && AppliedOf(s.db, ItemKeyOf(e), e)
      && next.version <= VersionOf(s.db.items, ItemKeyOf(e)) + 1
  }

  /** The ids of deliveries under way. */
  ghost predicate UnderWay(c: Codec, s: Desk, id: string) {
    exists t :: t in s.tasks && EventId(c, s.tasks[t]) == Some(id)
  }

  ghost predicate DeskAck(c: Codec, h: History, s: Desk) {
    && s.db.inbox.Keys <= s.delivered
    && (forall id | id in s.delivered :: id in s.db.inbox || id in s.failed || UnderWay(c, s, id))
    && (forall t | t in s.tasks :: TaskDone(s, s.tasks[t]))
    && (forall k | k in h.chains && NextWaits(h, s.db, k) :: Outstanding(c, h, s, k))
  }

  // --- one operation, one item -----------------------------------------------------------------------

  /** An operation that leaves the item's version alone leaves the other deliveries' responsibility alone. */
  lemma OthersResponsible(c: Codec, s: Desk, s': Desk, k: ItemKey, t: nat, u: nat)
    requires u != t && Responsible(c, s, k, u) && u in s'.tasks && s'.tasks[u] == s.tasks[u]
    requires VersionOf(s'.db.items, k) == VersionOf(s.db.items, k)
    ensures Responsible(c, s', k, u)
  {
  }

  lemma FailedStays(h: History, s: Desk, s': Desk, k: ItemKey)
    requires FailedOf(h, s, k) && s.failed <= s'.failed && VersionOf(s.db.items, k) <= VersionOf(s'.db.items, k)
    ensures FailedOf(h, s', k)
  {
    var e :| InHistory(h, e) && AppliedOf(s.db, k, e) && e.eventId in s.failed;
    assert AppliedOf(s'.db, k, e);
  }

  /** If the delivery was not responsible, the obligation does not depend on it. */
  lemma OutstandingStays(c: Codec, h: History, s: Desk, s': Desk, k: ItemKey, t: nat)
    requires Outstanding(c, h, s, k) && !Responsible(c, s, k, t)
    requires forall u | u in s.tasks && u != t :: u in s'.tasks && s'.tasks[u] == s.tasks[u]
    requires s.failed <= s'.failed && VersionOf(s'.db.items, k) == VersionOf(s.db.items, k)
    ensures Outstanding(c, h, s', k)
  {
    hide Responsible, AppliedOf, InHistory, FailedOf;
    if FailedOf(h, s, k) {
      FailedStays(h, s, s', k);
    } else {
      var u :| Responsible(c, s, k, u);
      assert u in s.tasks by {
        ResponsibleIsTask(c, s, k, u);
      }
      OthersResponsible(c, s, s', k, t, u);
    }
  }

  lemma ResponsibleIsTask(c: Codec, s: Desk, k: ItemKey, t: nat)
    requires Responsible(c, s, k, t)
    ensures t in s.tasks
  {
  }

  /** Growth of the item's version in one transaction over an event of the history. */
  lemma VersionAfter(c: Codec, h: History, db: Db, e: Envelope, db': Db, d: Disposition, k: ItemKey)
    requires Clean(c, h) && InHistory(h, e) && CleanEffect(c, db, e, db', d)
    ensures var v, v' := VersionOf(db.items, k), VersionOf(db'.items, k);
            && (e.payload.QuantityDecremented? && ItemKeyOf(e) == k && d == Applied ==> v' == v + 1 == e.version)
            && (!(e.payload.QuantityDecremented? && ItemKeyOf(e) == k && d == Applied) ==> v' == v)
            && (e.payload.QuantityDecremented? && ItemKeyOf(e) == k && d == DuplicateNoop ==> e.version <= v)
            && (e.payload.QuantityDecremented? && ItemKeyOf(e) == k && d == Gap ==> e.version > v + 1)
    ensures d == Applied || d == DuplicateNoop || d == Gap
  {
    hide Clean, InHistory, HopOf, Codec.Hash;
  }

  lemma CommitKeepsItem(c: Codec, h: History, s: Desk, t: nat, k: ItemKey)
    requires c.Lawful() && Clean(c, h) && DeskClean(c, h, s) && DeskAck(c, h, s)
    requires t in s.tasks && s.tasks[t].Fetched? && k in h.chains
    requires NextWaits(h, Commit(c, s, t).db, k)
    ensures Outstanding(c, h, Commit(c, s, t), k)
  {
    hide ProcessValidated, Clean, CleanDb, Commit, InHistory, CleanEffect, NextWaits, Outstanding, AggregateKey, TaskDone,
      UnderWay;
    CleanCommit(c, h, s, t);
    var e := c.parse(s.tasks[t].value).value;
    var (db', d) := ProcessValidated(c, s.db, e);
    var s' := Commit(c, s, t);
    VersionAfter(c, h, s.db, e, db', d, k);
    if e.payload.QuantityDecremented? && ItemKeyOf(e) == k && IsDone(d) {
      assert s'.tasks[t] == Selecting(e);
      assert Responsible(c, s', k, t);
      IsOutstanding(c, h, s', k, t);
    } else {
      EffectKeys(c, s.db, e, db', d);
      WaitsElsewhere(c, h, s.db, db', k, e);
      OutstandingStays(c, h, s, s', k, t);
    }
  }

  lemma IsOutstanding(c: Codec, h: History, s: Desk, k: ItemKey, t: nat)
    requires Responsible(c, s, k, t)
    ensures Outstanding(c, h, s, k)
  {
  }

  lemma EffectKeys(c: Codec, db: Db, e: Envelope, db': Db, d: Disposition)
    requires CleanEffect(c, db, e, db', d)
    ensures db'.inbox.Keys == db.inbox.Keys + {e.eventId}
  {
  }

  lemma SelectKeepsItem(c: Codec, h: History, s: Desk, t: nat, tie: TieBreak, k: ItemKey)
    requires c.Lawful() && Clean(c, h) && DeskClean(c, h, s) && DeskAck(c, h, s)
    requires t in s.tasks && s.tasks[t].Selecting? && k in h.chains
    requires NextWaits(h, Select(c, s, t, tie).db, k)
    ensures Outstanding(c, h, Select(c, s, t, tie), k)
  {
    hide Clean, CleanDb, Select, InHistory, NextWaits, Outstanding, AggregateKey, UnderWay;
    CleanSelect(c, h, s, t, tie);
    var s' := Select(c, s, t, tie);
    var e := s.tasks[t].event;
    if Responsible(c, s, k, t) {
      assert TaskDone(s, s.tasks[t]);
      AppliedHasItem(c, h, s, k, e);
      assert Responsible(c, s', k, t);
      IsOutstanding(c, h, s', k, t);
    } else {
      OutstandingStays(c, h, s, s', k, t);
    }
  }

  lemma AppliedHasItem(c: Codec, h: History, s: Desk, k: ItemKey, e: Envelope)
    requires c.Lawful() && Clean(c, h) && InHistory(h, e) && AppliedOf(s.db, k, e)
    ensures k in s.db.items
  {
    hide Clean;
    InHistoryValid(c, h, e);
  }

  lemma ApplyKeepsItem(c: Codec, h: History, s: Desk, t: nat, k: ItemKey)
    requires c.Lawful() && Clean(c, h) && DeskClean(c, h, s) && DeskAck(c, h, s)
    requires t in s.tasks && s.tasks[t].Chosen? && k in h.chains
    requires NextWaits(h, Apply(c, s, t).db, k)
    ensures Outstanding(c, h, Apply(c, s, t), k)
  {
    hide ProcessValidated, Clean, CleanDb, Apply, InHistory, CleanEffect, NextWaits, Outstanding, AggregateKey, UnderWay;
    CleanApply(c, h, s, t);
    var x := s.tasks[t];
    assert TaskClean(c, h, x) && TaskDone(s, x);
    var (db', d) := ProcessValidated(c, s.db, x.next);
    var s' := Apply(c, s, t);
    VersionAfter(c, h, s.db, x.next, db', d, k);
    if ItemKeyOf(x.next) == k && d == Applied {
      assert s'.tasks[t] == Selecting(x.event);
      assert Responsible(c, s', k, t);
      IsOutstanding(c, h, s', k, t);
    } else {
      VersionAfter(c, h, s.db, x.next, db', d, ItemKeyOf(x.next));
      EffectKeys(c, s.db, x.next, db', d);
      WaitsElsewhere(c, h, s.db, db', k, x.next);
      OutstandingStays(c, h, s, s', k, t);
    }
  }

  lemma FailKeepsItem(c: Codec, h: History, s: Desk, t: nat, k: ItemKey)
    requires DeskClean(c, h, s) && DeskAck(c, h, s) && t in s.tasks && k in h.chains && NextWaits(h, s.db, k)
    ensures Outstanding(c, h, Fail(c, s, t), k)
  {
    hide CleanDb, InHistory, NextWaits, Outstanding, AggregateKey, UnderWay, FailedOf;
    var s' := Fail(c, s, t);
    if Responsible(c, s, k, t) {
      assert TaskClean(c, h, s.tasks[t]);
      var e := match s.tasks[t]
        case Fetched(_, value, _, _) => c.parse(value).value
        case Selecting(e) => e
        case Chosen(e, _, _) => e;
      IsFailed(c, h, s', k, e);
    } else {
      OutstandingStays(c, h, s, s', k, t);
    }
  }

  lemma IsFailed(c: Codec, h: History, s: Desk, k: ItemKey, e: Envelope)
    requires InHistory(h, e) && AppliedOf(s.db, k, e) && e.eventId in s.failed
    ensures Outstanding(c, h, s, k)
  {
  }

  lemma FetchKeepsItem(c: Codec, h: History, s: Desk, step: DeskStep, k: ItemKey)
    requires Clean(c, h) && DeskClean(c, h, s) && DeskAck(c, h, s) && StepClean(c, h, step)
    requires step.Fetch? && step.task !in s.tasks && k in h.chains && NextWaits(h, s.db, k)
    ensures Outstanding(c, h, Step(c, s, step), k)
  {
    hide Clean, CleanDb, InHistory, NextWaits, AggregateKey, UnderWay, Commit, Select, Apply, AppliedOf;
    var s' := Step(c, s, step);
    var e := c.parse(step.value).value;
    if FailedOf(h, s, k) {
      var f :| InHistory(h, f) && AppliedOf(s.db, k, f) && f.eventId in s.failed;
      if f.eventId == e.eventId {
        SameId(c, h, e, f);
        assert Responsible(c, s', k, step.task);
      } else {
        assert f.eventId in s'.failed;
      }
    } else {
      var u :| Responsible(c, s, k, u);
      OthersResponsible(c, s, s', k, step.task, u);
    }
  }

  lemma SameId(c: Codec, h: History, a: Envelope, b: Envelope)
    requires Clean(c, h) && InHistory(h, a) && InHistory(h, b) && a.eventId == b.eventId
    ensures a == b
  {
  }

  // --- the rest of the invariant ---------------------------------------------------------------------

  /** Transactions over events of the history keep what re-driving deliveries rely on. */
  lemma EffectKeepsTask(c: Codec, h: History, s: Desk, e: Envelope, db': Db, d: Disposition, s': Desk, task: Task)
    requires Clean(c, h) && InHistory(h, e) && CleanEffect(c, s.db, e, db', d) && s'.db == db'
    requires TaskDone(s, task)
    ensures TaskDone(s', task)
  {
    hide Clean, InHistory, CleanEffect;
    EffectKeys(c, s.db, e, db', d);
    if task.Selecting? || task.Chosen? {
      VersionAfter(c, h, s.db, e, db', d, ItemKeyOf(task.event));
    }
  }

  lemma EffectKeepsBooks(c: Codec, h: History, s: Desk, t: nat, e: Envelope, db': Db, d: Disposition, s': Desk)
    requires Clean(c, h) && DeskAck(c, h, s) && InHistory(h, e) && CleanEffect(c, s.db, e, db', d)
    requires t in s.tasks && e.eventId in s.delivered
    requires s'.db == db' && s'.delivered == s.delivered && s'.failed == s.failed
    requires s'.tasks == s.tasks - {t} || (t in s'.tasks && s'.tasks == s.tasks[t := s'.tasks[t]] && TaskDone(s', s'.tasks[t]))
    requires EventId(c, s.tasks[t]).Some? && EventId(c, s.tasks[t]).value in db'.inbox
    ensures s'.db.inbox.Keys <= s'.delivered
    ensures forall id | id in s'.delivered :: id in s'.db.inbox || id in s'.failed || UnderWay(c, s', id)
    ensures forall u | u in s'.tasks :: TaskDone(s', s'.tasks[u])
  {
    hide Clean, InHistory, CleanEffect, NextWaits, Outstanding, TaskDone, EventId;
    EffectKeys(c, s.db, e, db', d);
    forall id | id in s'.delivered ensures id in s'.db.inbox || id in s'.failed || UnderWay(c, s', id) {
      if id !in s.db.inbox && id !in s.failed {
        var u :| u in s.tasks && EventId(c, s.tasks[u]) == Some(id);
        if u != t {
          assert u in s'.tasks && s'.tasks[u] == s.tasks[u];
        }
      }
    }
    forall u | u in s'.tasks ensures TaskDone(s', s'.tasks[u]) {
      if u != t {
        assert u in s.tasks && s'.tasks[u] == s.tasks[u];
        EffectKeepsTask(c, h, s, e, db', d, s', s.tasks[u]);
      }
    }
  }

  lemma TaskIdDelivered(c: Codec, h: History, s: Desk, t: nat)
    requires DeskClean(c, h, s) && t in s.tasks
    ensures EventId(c, s.tasks[t]).Some?
  {
    assert TaskClean(c, h, s.tasks[t]);
  }

  /** Every id under way has been delivered. */
  ghost predicate Booked(c: Codec, s: Desk) {
    && (forall t | t in s.tasks :: IdSet(EventId(c, s.tasks[t])) <= s.delivered)
    && s.failed <= s.delivered
  }

  lemma CommitKeepsAck(c: Codec, h: History, s: Desk, t: nat)
    requires c.Lawful() && Clean(c, h) && DeskClean(c, h, s) && DeskAck(c, h, s) && Booked(c, s)
    requires t in s.tasks && s.tasks[t].Fetched?
    ensures DeskAck(c, h, Commit(c, s, t))
  {
    hide ProcessValidated, Clean, CleanDb, Commit, InHistory, CleanEffect, NextWaits, Outstanding, AggregateKey, UnderWay;
    var s' := Commit(c, s, t);
    CleanCommit(c, h, s, t);
    var e := c.parse(s.tasks[t].value).value;
    var (db', d) := ProcessValidated(c, s.db, e);
    TaskIdDelivered(c, h, s, t);
    EffectKeys(c, s.db, e, db', d);
    VersionAfter(c, h, s.db, e, db', d, ItemKeyOf(e));
    assert e.eventId in IdSet(EventId(c, s.tasks[t]));
    EffectKeepsBooks(c, h, s, t, e, db', d, s');
    forall k | k in h.chains && NextWaits(h, s'.db, k) ensures Outstanding(c, h, s', k) {
      CommitKeepsItem(c, h, s, t, k);
    }
  }

  lemma SelectKeepsAck(c: Codec, h: History, s: Desk, t: nat, tie: TieBreak)
    requires c.Lawful() && Clean(c, h) && DeskClean(c, h, s) && DeskAck(c, h, s)
    requires t in s.tasks && s.tasks[t].Selecting?
    ensures DeskAck(c, h, Select(c, s, t, tie))
  {
    hide Clean, CleanDb, Select, InHistory, NextWaits, Outstanding, AggregateKey, TaskClean;
    var s' := Select(c, s, t, tie);
    CleanSelect(c, h, s, t, tie);
    assert TaskDone(s, s.tasks[t]);
    forall id | id in s'.delivered ensures id in s'.db.inbox || id in s'.failed || UnderWay(c, s', id) {
      if id !in s.db.inbox && id !in s.failed {
        var u :| u in s.tasks && EventId(c, s.tasks[u]) == Some(id);
        assert u != t && u in s'.tasks && s'.tasks[u] == s.tasks[u];
      }
    }
    forall u | u in s'.tasks ensures TaskDone(s', s'.tasks[u]) {
      if u != t {
        assert TaskDone(s, s.tasks[u]);
      } else {
        ChosenIsDone(c, h, s, s', t);
      }
    }
    forall k | k in h.chains && NextWaits(h, s'.db, k) ensures Outstanding(c, h, s', k) {
      SelectKeepsItem(c, h, s, t, tie, k);
    }
  }

  lemma ChosenIsDone(c: Codec, h: History, s: Desk, s': Desk, t: nat)
    requires t in s.tasks && s.tasks[t].Selecting? && TaskDone(s, s.tasks[t]) && s'.db == s.db
    requires t in s'.tasks && s'.tasks[t].Chosen? && TaskClean(c, h, s'.tasks[t]) && s'.tasks[t].event == s.tasks[t].event
    requires s'.tasks[t].next.version == VersionOf(s.db.items, ItemKeyOf(s.tasks[t].event)) + 1
    requires s'.tasks[t].next.eventId in s.db.inbox
    ensures TaskDone(s', s'.tasks[t])
  {
    hide InHistory;
  }

  lemma ApplyKeepsAck(c: Codec, h: History, s: Desk, t: nat)
    requires c.Lawful() && Clean(c, h) && DeskClean(c, h, s) && DeskAck(c, h, s)
    requires t in s.tasks && s.tasks[t].Chosen?
    ensures DeskAck(c, h, Apply(c, s, t))
  {
    hide ProcessValidated, Clean, CleanDb, Apply, InHistory, CleanEffect, NextWaits, Outstanding, AggregateKey, UnderWay;
    var s' := Apply(c, s, t);
    CleanApply(c, h, s, t);
    var x := s.tasks[t];
    assert TaskClean(c, h, x) && TaskDone(s, x);
    var (db', d) := ProcessValidated(c, s.db, x.next);
    EffectKeys(c, s.db, x.next, db', d);
    VersionAfter(c, h, s.db, x.next, db', d, ItemKeyOf(x.next));
    assert x.next.eventId in s.delivered;
    EffectKeepsBooks(c, h, s, t, x.next, db', d, s');
    forall k | k in h.chains && NextWaits(h, s'.db, k) ensures Outstanding(c, h, s', k) {
      ApplyKeepsItem(c, h, s, t, k);
    }
  }

  lemma FailKeepsAck(c: Codec, h: History, s: Desk, t: nat)
    requires DeskClean(c, h, s) && DeskAck(c, h, s) && t in s.tasks
    ensures DeskAck(c, h, Fail(c, s, t))
  {
    hide CleanDb, InHistory, NextWaits, Outstanding, AggregateKey, TaskClean;
    var s' := Fail(c, s, t);
    TaskIdDelivered(c, h, s, t);
    forall id | id in s'.delivered ensures id in s'.db.inbox || id in s'.failed || UnderWay(c, s', id) {
      if id !in s.db.inbox && id !in s'.failed {
        var u :| u in s.tasks && EventId(c, s.tasks[u]) == Some(id);
        assert u != t && u in s'.tasks && s'.tasks[u] == s.tasks[u];
      }
    }
    forall u | u in s'.tasks ensures TaskDone(s', s'.tasks[u]) {
      assert TaskDone(s, s.tasks[u]);
    }
    forall k | k in h.chains && NextWaits(h, s'.db, k) ensures Outstanding(c, h, s', k) {
      FailKeepsItem(c, h, s, t, k);
    }
  }

  lemma FetchKeepsAck(c: Codec, h: History, s: Desk, step: DeskStep)
    requires Clean(c, h) && DeskClean(c, h, s) && DeskAck(c, h, s) && StepClean(c, h, step)
    requires step.Fetch? && step.task !in s.tasks
    ensures DeskAck(c, h, Step(c, s, step))
  {
    hide CleanDb, InHistory, NextWaits, Outstanding, AggregateKey, TaskClean, Commit, Select, Apply;
    var s' := Step(c, s, step);
    forall id | id in s'.delivered ensures id in s'.db.inbox || id in s'.failed || UnderWay(c, s', id) {
      if EventId(c, s'.tasks[step.task]) == Some(id) {
        assert UnderWay(c, s', id);
      } else if id !in s.db.inbox && id !in s.failed {
        var u :| u in s.tasks && EventId(c, s.tasks[u]) == Some(id);
        assert u in s'.tasks && s'.tasks[u] == s.tasks[u];
      }
    }
    forall u | u in s'.tasks ensures TaskDone(s', s'.tasks[u]) {
      if u != step.task {
        assert TaskDone(s, s.tasks[u]);
      }
    }
    forall k | k in h.chains && NextWaits(h, s'.db, k) ensures Outstanding(c, h, s', k) {
      FetchKeepsItem(c, h, s, step, k);
    }
  }

  /** One operation of one delivery keeps every obligation. */
  lemma StepKeepsAck(c: Codec, h: History, s: Desk, step: DeskStep)
    requires c.Lawful() && Clean(c, h) && DeskClean(c, h, s) && DeskAck(c, h, s) && Booked(c, s) && StepClean(c, h, step)
    ensures DeskAck(c, h, Step(c, s, step))
  {
    hide Clean, DeskClean, DeskAck, Commit, Select, Apply, Booked, StepClean;
    match step
    case Fetch(t, _, _, _, _) =>
      if t !in s.tasks {
        FetchKeepsAck(c, h, s, step);
      }
    case Crash(t) =>
      if t in s.tasks {
        FailKeepsAck(c, h, s, t);
      }
    case Work(t, ok, tie) =>
      if t in s.tasks {
        if !ok {
          FailKeepsAck(c, h, s, t);
        } else {
          match s.tasks[t]
          case Fetched(_, _, _, _) => CommitKeepsAck(c, h, s, t);
          case Selecting(_) => SelectKeepsAck(c, h, s, t, tie);
          case Chosen(_, _, _) => ApplyKeepsAck(c, h, s, t);
        }
      }
  }

  lemma StepKeepsBooked(c: Codec, h: History, s: Desk, step: DeskStep)
    requires c.Lawful() && Clean(c, h) && DeskClean(c, h, s) && Booked(c, s)
    ensures Booked(c, Step(c, s, step))
  {
    hide ProcessValidated, Clean, CleanDb, InHistory, AggregateKey, GapCandidates, Record, Codec.Hash, Codec.Lawful, TaskClean;
  }

  // --- runs --------------------------------------------------------------------------------------------

  ghost predicate StepsClean(c: Codec, h: History, steps: seq<DeskStep>) {
    forall i | 0 <= i < |steps| :: StepClean(c, h, steps[i])
  }

  ghost predicate DeskGood(c: Codec, h: History, s: Desk) {
    DeskClean(c, h, s) && DeskAck(c, h, s) && Booked(c, s)
  }

  lemma {:induction false} RunKeepsGood(c: Codec, h: History, s: Desk, steps: seq<DeskStep>)
    requires c.Lawful() && Clean(c, h) && DeskGood(c, h, s) && StepsClean(c, h, steps)
    ensures DeskGood(c, h, RunDesk(c, s, steps))
  {
    hide Step, Clean, DeskClean, DeskAck, Booked, StepClean;
    if steps != [] {
      RunKeepsGood(c, h, s, steps[..|steps| - 1]);
      var before := RunDesk(c, s, steps[..|steps| - 1]);
      var step := steps[|steps| - 1];
      StepKeepsClean(c, h, before, step);
      StepKeepsAck(c, h, before, step);
      StepKeepsBooked(c, h, before, step);
    }
  }

  lemma EmptyGood(c: Codec, h: History)
    ensures DeskGood(c, h, EMPTY_DESK)
  {
  }

  /**
   Acknowledgement obligation over every interleaving of single database operations: whenever the event after an
   item's projected version waits, the latest delivery of an applied event of that item has failed or is under way.
   */
  lemma InterleavedAckObligation(c: Codec, h: History, steps: seq<DeskStep>, k: ItemKey)
    requires c.Lawful() && Clean(c, h) && StepsClean(c, h, steps) && k in h.chains
    ensures var s := RunDesk(c, EMPTY_DESK, steps);
            NextWaits(h, s.db, k) ==> Outstanding(c, h, s, k)
  {
    hide RunDesk, DeskClean, Booked, NextWaits, Outstanding, Clean;
    EmptyGood(c, h);
    RunKeepsGood(c, h, EMPTY_DESK, steps);
  }

  /** With nothing failed and nothing under way the tables are settled. */
  lemma QuietDeskIsSettled(c: Codec, h: History, s: Desk)
    requires c.Lawful() && Clean(c, h) && DeskClean(c, h, s) && DeskAck(c, h, s) && s.tasks == map[] && s.failed == {}
    ensures SessionInv(c, h, Session(s.db, s.delivered, {})) && Settled(c, h, Session(s.db, s.delivered, {}))
  {
    hide Clean, CleanDb, NextWaits, Owed, Settled, InHistory, Outstanding;
    forall k | k in h.chains ensures !NextWaits(h, s.db, k) {
      NothingWaits(c, h, s, k);
    }
    AckedIsSettled(c, h, Session(s.db, s.delivered, {}));
  }

  lemma NothingWaits(c: Codec, h: History, s: Desk, k: ItemKey)
    requires DeskAck(c, h, s) && s.tasks == map[] && s.failed == {} && k in h.chains
    ensures !NextWaits(h, s.db, k)
  {
    hide NextWaits, InHistory;
    assert !Outstanding(c, h, s, k);
  }
}
