/**
 Safety of the consumer under arbitrary deliveries: reused ids with other content, wrong keys,
 unparseable values, skipped and stale versions, failed transactions and interrupted re-drives.
 */
module ProjectionSafety {
  import opened Events
  import opened Projection

  /** The row's stored bytes re-parse to the event the row is about, which came ahead of the version it names. */
  ghost predicate GapRowSound(c: Codec, id: string, row: InboxRow) {
    && row.bytes.Some?
    && var parsed := c.parse(row.bytes.value);
    && parsed.Ok?
    && var env := parsed.value;
    && env.eventId == id
    && env.tenantId == row.tenant
    && env.Kind() == row.kind
    && env.aggregateId == row.aggregate
    && env.version == row.version
    && row.received == Some(env.version)
    && row.expected.Some? && 1 <= row.expected.value < env.version
    && c.Hash(env) == row.hash
  }

  ghost predicate GapsSound(c: Codec, db: Db) {
    forall id | id in db.inbox && db.inbox[id].disposition == Gap :: GapRowSound(c, id, db.inbox[id])
  }

  /** Lineage tables hold version-1 rows only. */
  ghost predicate HopsAtOne(db: Db) {
    forall k | k in db.hops :: db.hops[k].version == 1
  }

  /** The inventory events of one item, in order of application. */
  function Of(log: seq<Envelope>, k: ItemKey): seq<Envelope> {
    if log == [] then []
    else
      var e := log[|log| - 1];
      var rest := Of(log[..|log| - 1], k);
      if e.payload.QuantityDecremented? && ItemKeyOf(e) == k then rest + [e] else rest
  }

  /** Versions 1, 2, 3, ... with each quantity following from the one before. */
  ghost predicate Chained(es: seq<Envelope>) {
    && (forall i | 0 <= i < |es| ::
          && es[i].payload.QuantityDecremented?
          && Sound(es[i])
          && es[i].version == i + 1)
    && (forall i | 1 <= i < |es| :: es[i].payload.before == es[i - 1].payload.after)
  }

  /** No event id occurs twice, and each id in the log has left the states from which it could be applied. */
  ghost predicate AppliedOnce(db: Db, log: seq<Envelope>) {
    && (forall i, j | 0 <= i < j < |log| :: log[i].eventId != log[j].eventId)
    && (forall i | 0 <= i < |log| ::
          log[i].eventId in db.inbox && db.inbox[log[i].eventId].disposition != Gap)
  }

  /** The item's row is the end of the chain of events applied to it. */
  ghost predicate ItemSound(db: Db, log: seq<Envelope>, k: ItemKey) {
    var es := Of(log, k);
    && Chained(es)
    && (k in db.items <==> es != [])
    && (es != [] ==> db.items[k] == ItemRow(es[|es| - 1].payload.after, |es|))
  }

  ghost predicate ItemsSound(db: Db, log: seq<Envelope>) {
    forall k :: ItemSound(db, log, k)
  }

  ghost predicate Inv(c: Codec, db: Db, log: seq<Envelope>) {
    && GapsSound(c, db)
    && HopsAtOne(db)
    && AppliedOnce(db, log)
    && ItemsSound(db, log)
  }

  // --- one transaction ---------------------------------------------------------------------------

  /** All rows but the event's own are as they were. */
  ghost predicate OthersUnchanged(inbox: map<string, InboxRow>, inbox': map<string, InboxRow>, own: string) {
    && own in inbox'
    && inbox'.Keys == inbox.Keys + {own}
    && forall id | id in inbox && id != own :: inbox'[id] == inbox[id]
  }

  /** What a transaction that applied its event did. */
  ghost predicate AppliedEffect(db: Db, env: Envelope, db': Db) {
    && (env.eventId in db.inbox ==> db.inbox[env.eventId].disposition == Gap)
    && OthersUnchanged(db.inbox, db'.inbox, env.eventId)
    && db'.inbox[env.eventId].disposition == Applied
    && db'.failures == db.failures
    && if env.payload.QuantityDecremented? then
         && db'.hops == db.hops
         && db'.items == db.items[ItemKeyOf(env) := ItemRow(env.payload.after, env.version)]
         && env.version == VersionOf(db.items, ItemKeyOf(env)) + 1
         && (ItemKeyOf(env) in db.items ==> env.payload.before == db.items[ItemKeyOf(env)].quantity)
       else
         && db'.items == db.items
         && env.version == 1
         && HopKeyOf(env) !in db.hops
         && db'.hops == db.hops[HopKeyOf(env) := HopOf(env)]
  }

  /** What any other transaction did: at most the event's own inbox row changed. */
  ghost predicate QuietEffect(c: Codec, db: Db, env: Envelope, db': Db) {
    && db'.items == db.items
    && db'.hops == db.hops
    && db'.failures == db.failures
    && OthersUnchanged(db.inbox, db'.inbox, env.eventId)
    && var row := db'.inbox[env.eventId];
    && (row.disposition == Gap ==>
          && row.received == Some(env.version)
          && row.expected.Some? && 1 <= row.expected.value < env.version
          && row.bytes == NullBytes(c.print_(env))
          && row.hash == c.Hash(env)
          && row.tenant == env.tenantId && row.kind == env.Kind()
          && row.aggregate == env.aggregateId && row.version == env.version
          && (env.eventId in db.inbox ==> db.inbox[env.eventId].disposition == Gap))
  }

  ghost predicate Effect(c: Codec, db: Db, env: Envelope, db': Db, d: Disposition) {
    if d == Applied then AppliedEffect(db, env, db') else QuietEffect(c, db, env, db')
  }

  ghost predicate Positive(db: Db) {
    && (forall k | k in db.items :: db.items[k].version >= 1)
    && (forall k | k in db.hops :: db.hops[k].version == 1)
  }

  /** The row written is the event's own; no other row and no other table changes. */
  lemma RecordEffect(c: Codec, db: Db, env: Envelope, d: Disposition, expected: Option<int>)
    ensures var db' := Record(c, db, env, d, expected);
            && OthersUnchanged(db.inbox, db'.inbox, env.eventId)
            && db'.inbox[env.eventId].disposition == d
            && db'.items == db.items && db'.hops == db.hops && db'.failures == db.failures
            && (d != Applied
                && (d == Gap ==> expected.Some? && 1 <= expected.value < env.version
                                 && (env.eventId in db.inbox ==> db.inbox[env.eventId].disposition == Gap))
                ==> QuietEffect(c, db, env, db'))
  {
    hide Codec.Hash;
  }

  lemma ProjectionEffect(c: Codec, db: Db, env: Envelope)
    requires env.payload.QuantityDecremented? && Positive(db) && env.version >= 1
    requires env.eventId in db.inbox ==> db.inbox[env.eventId].disposition == Gap
    ensures var (db', d) := ApplyProjection(c, db, env);
            Effect(c, db, env, db', d)
  {
    hide Record, QuietEffect, HopOf;
    var k := ItemKeyOf(env);
    if env.version == VersionOf(db.items, k) + 1 {
      RecordEffect(c, db.(items := db.items[k := ItemRow(env.payload.after, env.version)]), env, Applied, None);
      RecordEffect(c, db, env, Transition, None);
      RecordEffect(c, db, env, Invalid, None);
    } else {
      RecordEffect(c, db, env, Stale, Some(VersionOf(db.items, k) + 1));
      RecordEffect(c, db, env, Gap, Some(VersionOf(db.items, k) + 1));
    }
  }

  lemma LineageEffect(c: Codec, db: Db, env: Envelope)
    requires !env.payload.QuantityDecremented? && Positive(db) && env.version >= 1
    requires env.eventId in db.inbox ==> db.inbox[env.eventId].disposition == Gap
    ensures var (db', d) := ApplyLineage(c, db, env);
            Effect(c, db, env, db', d)
  {
    hide Record, QuietEffect, HopOf, HopCollides;
    var k := HopKeyOf(env);
    if k in db.hops {
      var d := LineageExistingDisposition(db.hops[k].version, env.version);
      RecordEffect(c, db, env, DuplicateNoop, None);
      RecordEffect(c, db, env, d, Some(db.hops[k].version + 1));
    } else {
      RecordEffect(c, db, env, Gap, Some(1));
      RecordEffect(c, db, env, Invalid, None);
      RecordEffect(c, db.(hops := db.hops[k := HopOf(env)]), env, Applied, None);
      assert HopCollides(db.hops, k, HopOf(env)) || k !in db.hops;
    }
  }

  /** Every committed transaction has one of the two effects. */
  lemma TransactionEffect(c: Codec, db: Db, env: Envelope)
    requires Positive(db) && env.version >= 1
    ensures var (db', d) := ProcessValidated(c, db, env);
            Effect(c, db, env, db', d)
  {
    hide ApplyProjection, ApplyLineage;
    if env.eventId in db.inbox ==> db.inbox[env.eventId].disposition == Gap {
      if env.payload.QuantityDecremented? {
        ProjectionEffect(c, db, env);
      } else {
        LineageEffect(c, db, env);
      }
    }
  }

  lemma OfAppend(log: seq<Envelope>, e: Envelope, k: ItemKey)
    ensures Of(log + [e], k) ==
            if e.payload.QuantityDecremented? && ItemKeyOf(e) == k then Of(log, k) + [e] else Of(log, k)
  {
    assert (log + [e])[..|log + [e]| - 1] == log;
  }

  lemma ItemsPositive(db: Db, log: seq<Envelope>)
    requires ItemsSound(db, log) && HopsAtOne(db)
    ensures Positive(db)
  {
    forall k | k in db.items ensures db.items[k].version >= 1 {
      assert ItemSound(db, log, k);
    }
  }

  function Logged(d: Disposition, env: Envelope): seq<Envelope> {
    if d == Applied then [env] else []
  }

  lemma ChainedAppend(es: seq<Envelope>, e: Envelope)
    requires Chained(es) && Sound(e) && e.payload.QuantityDecremented? && e.version == |es| + 1
    requires es != [] ==> e.payload.before == es[|es| - 1].payload.after
    ensures Chained(es + [e])
  {
  }

  lemma AppliedKeepsItem(db: Db, env: Envelope, db': Db, log: seq<Envelope>, k: ItemKey)
    requires Sound(env) && ItemSound(db, log, k) && AppliedEffect(db, env, db')
    ensures ItemSound(db', log + [env], k)
  {
    hide Of, Chained;
    OfAppend(log, env, k);
    if env.payload.QuantityDecremented? && ItemKeyOf(env) == k {
      LastAfter(db, log, k);
      ChainedAppend(Of(log, k), env);
    }
  }

  lemma LastAfter(db: Db, log: seq<Envelope>, k: ItemKey)
    requires ItemSound(db, log, k)
    ensures var es := Of(log, k);
            es != [] ==> es[|es| - 1].payload.QuantityDecremented?
  {
  }

  lemma AppliedKeepsItems(db: Db, env: Envelope, db': Db, log: seq<Envelope>)
    requires Sound(env) && ItemsSound(db, log) && AppliedEffect(db, env, db')
    ensures ItemsSound(db', log + [env])
  {
    hide ItemSound, AppliedEffect;
    forall k ensures ItemSound(db', log + [env], k) {
      assert ItemSound(db, log, k);
      AppliedKeepsItem(db, env, db', log, k);
    }
  }

  lemma AppliedKeepsOnce(db: Db, env: Envelope, db': Db, log: seq<Envelope>)
    requires AppliedOnce(db, log) && AppliedEffect(db, env, db')
    ensures AppliedOnce(db', log + [env])
  {
  }

  lemma QuietKeepsItems(c: Codec, db: Db, env: Envelope, db': Db, log: seq<Envelope>)
    requires ItemsSound(db, log) && db'.items == db.items
    ensures ItemsSound(db', log)
  {
    forall k ensures ItemSound(db', log, k) {
      assert ItemSound(db, log, k);
    }
  }

  lemma QuietKeepsOnce(c: Codec, db: Db, env: Envelope, db': Db, log: seq<Envelope>)
    requires AppliedOnce(db, log) && QuietEffect(c, db, env, db')
    ensures AppliedOnce(db', log)
  {
  }

  lemma EffectKeepsGaps(c: Codec, db: Db, env: Envelope, db': Db, d: Disposition)
    requires c.Lawful() && c.valid(env) && GapsSound(c, db) && HopsAtOne(db)
    requires Effect(c, db, env, db', d)
    ensures GapsSound(c, db') && HopsAtOne(db')
  {
    forall id | id in db'.inbox && db'.inbox[id].disposition == Gap
      ensures GapRowSound(c, id, db'.inbox[id])
    {
      if id != env.eventId {
        assert id in db.inbox && GapRowSound(c, id, db.inbox[id]);
      }
    }
  }

  lemma QuietKeepsInv(c: Codec, db: Db, env: Envelope, db': Db, log: seq<Envelope>)
    requires c.Lawful() && c.valid(env) && Inv(c, db, log) && QuietEffect(c, db, env, db')
    ensures Inv(c, db', log)
  {
    QuietKeepsItems(c, db, env, db', log);
    QuietKeepsOnce(c, db, env, db', log);
    EffectKeepsGaps(c, db, env, db', Stale);
  }

  lemma AppliedKeepsInv(c: Codec, db: Db, env: Envelope, db': Db, log: seq<Envelope>)
    requires c.Lawful() && c.valid(env) && Inv(c, db, log) && AppliedEffect(db, env, db')
    ensures Inv(c, db', log + [env])
  {
    AppliedKeepsItems(db, env, db', log);
    AppliedKeepsOnce(db, env, db', log);
    EffectKeepsGaps(c, db, env, db', Applied);
  }

  /** Every committed transaction keeps the invariant, whatever the event. */
  lemma TransactionKeepsInv(c: Codec, db: Db, env: Envelope, log: seq<Envelope>)
    requires c.Lawful() && c.valid(env) && Inv(c, db, log)
    ensures var (db', d) := ProcessValidated(c, db, env);
            Inv(c, db', log + Logged(d, env)) && Effect(c, db, env, db', d)
  {
    hide ProcessValidated, Inv, AppliedEffect, QuietEffect;
    var (db', d) := ProcessValidated(c, db, env);
    InvIsPositive(c, db, log);
    TransactionEffect(c, db, env);
    if d == Applied {
      AppliedKeepsInv(c, db, env, db', log);
    } else {
      QuietKeepsInv(c, db, env, db', log);
      assert log + [] == log;
    }
  }

  lemma InvIsPositive(c: Codec, db: Db, log: seq<Envelope>)
    requires Inv(c, db, log)
    ensures Positive(db)
  {
    ItemsPositive(db, log);
  }

  // --- re-drive ----------------------------------------------------------------------------------

  /** The row's bytes re-parse to a valid event with that id and that hash. */
  ghost predicate Reparses(c: Codec, db: Db, id: string) {
    && id in db.inbox
    && db.inbox[id].disposition == Gap
    && db.inbox[id].bytes.Some?
    && var parsed := c.parse(db.inbox[id].bytes.value);
    && parsed.Ok?
    && parsed.value.eventId == id
    && c.valid(parsed.value)
    && c.Hash(parsed.value) == db.inbox[id].hash
  }

  lemma CandidateReparses(c: Codec, db: Db, kind: Kind, tenant: string, aggregate: string, id: string)
    requires c.Lawful() && GapsSound(c, db)
    requires id in GapCandidates(db, kind, tenant, aggregate)
    ensures Reparses(c, db, id)
  {
    assert GapRowSound(c, id, db.inbox[id]);
  }

  lemma AppliedLeavesGaps(db: Db, env: Envelope, db': Db)
    requires AppliedEffect(db, env, db')
    ensures GapIds(db') == GapIds(db) - {env.eventId}
  {
  }

  /** One iteration of re-drive over a row that re-parses never takes the error or the hash-mismatch branch. */
  lemma RedriveUnfolds(c: Codec, db: Db, kind: Kind, tenant: string, aggregate: string, budget: nat, tie: TieBreak)
    requires budget > 1 && GapCandidates(db, kind, tenant, aggregate) != {}
    requires Reparses(c, db, tie(GapCandidates(db, kind, tenant, aggregate)))
    ensures var id := tie(GapCandidates(db, kind, tenant, aggregate));
            var env := c.parse(db.inbox[id].bytes.value).value;
            var (db', d) := ProcessValidated(c, db, env);
            Redrive(c, db, kind, tenant, aggregate, budget, tie) ==
            if d != Applied then Redriven(db', true, [])
            else
              var rest := Redrive(c, db', kind, tenant, aggregate, budget - 2, tie);
              Redriven(rest.db, rest.ok, [env] + rest.applied)
  {
    hide ProcessValidated, GapCandidates, Redrive, Record;
    RedriveIs(c, db, kind, tenant, aggregate, budget, tie);
  }

  lemma RedriveNothing(c: Codec, db: Db, kind: Kind, tenant: string, aggregate: string, budget: nat, tie: TieBreak)
    requires budget > 0 && GapCandidates(db, kind, tenant, aggregate) == {}
    ensures Redrive(c, db, kind, tenant, aggregate, budget, tie) == Redriven(db, true, [])
  {
    hide ProcessValidated, GapCandidates, Redrive, Record;
    RedriveIs(c, db, kind, tenant, aggregate, budget, tie);
  }

  /** Re-drive keeps the invariant at every interruption point. */
  lemma {:induction false} RedriveKeepsInv(c: Codec, db: Db, log: seq<Envelope>,
                                           kind: Kind, tenant: string, aggregate: string, budget: nat, tie: TieBreak)
    requires c.Lawful() && Inv(c, db, log)
    ensures var r := Redrive(c, db, kind, tenant, aggregate, budget, tie);
            Inv(c, r.db, log + r.applied)
    decreases budget
  {
    hide ProcessValidated, Inv, Effect, GapCandidates, Redrive, Record, Codec.Hash;
    assert log + [] == log;
    var candidates := GapCandidates(db, kind, tenant, aggregate);
    RedriveIs(c, db, kind, tenant, aggregate, budget, tie);
    if budget > 0 && candidates != {} {
      var id := tie(candidates);
      InvGaps(c, db, log);
      CandidateReparses(c, db, kind, tenant, aggregate, id);
      if budget > 1 {
        var env := c.parse(db.inbox[id].bytes.value).value;
        TransactionKeepsInv(c, db, env, log);
        var (db', d) := ProcessValidated(c, db, env);
        if d == Applied {
          RedriveKeepsInv(c, db', log + [env], kind, tenant, aggregate, budget - 2, tie);
          var rest := Redrive(c, db', kind, tenant, aggregate, budget - 2, tie);
          assert log + ([env] + rest.applied) == log + [env] + rest.applied;
        }
      }
    }
  }

  lemma InvGaps(c: Codec, db: Db, log: seq<Envelope>)
    requires Inv(c, db, log)
    ensures GapsSound(c, db)
  {
  }

  /**
   The loop is well founded: if the database does not fail, it ends within one iteration more than there
   are gap rows, without error.
   */
  lemma {:induction false} RedriveTerminates(c: Codec, db: Db, log: seq<Envelope>,
                                             kind: Kind, tenant: string, aggregate: string, budget: nat, tie: TieBreak)
    requires c.Lawful() && Inv(c, db, log)
    requires budget > 2 * |GapIds(db)|
    ensures Redrive(c, db, kind, tenant, aggregate, budget, tie).ok
    decreases budget
  {
    hide ProcessValidated, Inv, AppliedEffect, QuietEffect, GapCandidates, Redrive;
    var candidates := GapCandidates(db, kind, tenant, aggregate);
    if candidates == {} {
      RedriveNothing(c, db, kind, tenant, aggregate, budget, tie);
    } else {
      var id := tie(candidates);
      InvGaps(c, db, log);
      CandidateReparses(c, db, kind, tenant, aggregate, id);
      assert id in GapIds(db);
      RedriveUnfolds(c, db, kind, tenant, aggregate, budget, tie);
      var env := c.parse(db.inbox[id].bytes.value).value;
      TransactionKeepsInv(c, db, env, log);
      var (db', d) := ProcessValidated(c, db, env);
      if d == Applied {
        AppliedLeavesGaps(db, env, db');
        RedriveTerminates(c, db', log + [env], kind, tenant, aggregate, budget - 2, tie);
      }
    }
  }

  // --- runs --------------------------------------------------------------------------------------

  lemma MismatchEffect(c: Codec, db: Db, env: Envelope)
    ensures QuietEffect(c, db, env, Record(c, db, env, Mismatch, None))
  {
  }

  lemma FailureKeepsInv(c: Codec, db: Db, log: seq<Envelope>, failures: map<Position, Option<string>>)
    requires Inv(c, db, log)
    ensures Inv(c, db.(failures := failures), log)
  {
    var db' := db.(failures := failures);
    forall k ensures ItemSound(db', log, k) {
      assert ItemSound(db, log, k);
    }
  }

  lemma DeliveryKeepsInv(c: Codec, db: Db, log: seq<Envelope>, d: Delivery)
    requires c.Lawful() && Inv(c, db, log)
    ensures var o := ProcessRecord(c, db, d);
            Inv(c, o.db, log + o.applied)
  {
    hide ProcessValidated, Inv, Redrive, Record, Effect, QuietEffect, AggregateKey;
    assert log + [] == log;
    if d.budget > 0 {
      match c.parse(d.value)
      case Err(_) =>
        FailureKeepsInv(c, db, log, ProcessRecord(c, db, d).db.failures);
      case Ok(env) =>
        if d.key != AggregateKey(env.tenantId, env.aggregateType, env.aggregateId)
           || env.payload.SelfId() != env.aggregateId {
          MismatchEffect(c, db, env);
          QuietKeepsInv(c, db, env, Record(c, db, env, Mismatch, None), log);
        } else {
          TransactionKeepsInv(c, db, env, log);
          var (db', disp) := ProcessValidated(c, db, env);
          if disp == Applied || disp == DuplicateNoop {
            var log' := log + Logged(disp, env);
            RedriveKeepsInv(c, db', log', env.Kind(), env.tenantId, env.aggregateId, d.budget - 1, d.tie);
            var r := Redrive(c, db', env.Kind(), env.tenantId, env.aggregateId, d.budget - 1, d.tie);
            assert log' + r.applied == log + (Logged(disp, env) + r.applied);
          }
        }
    }
  }

  lemma {:induction false} RunKeepsInv(c: Codec, start: Trace, ds: seq<Delivery>)
    requires c.Lawful() && Inv(c, start.db, start.log)
    ensures var t := Run(c, start, ds);
            Inv(c, t.db, t.log)
  {
    hide ProcessRecord, Inv;
    if ds != [] {
      RunKeepsInv(c, start, ds[..|ds| - 1]);
      var before := Run(c, start, ds[..|ds| - 1]);
      DeliveryKeepsInv(c, before.db, before.log, ds[|ds| - 1]);
    }
  }

  function Decrements(es: seq<Envelope>): int {
    if es == [] then 0
    else
      var e := es[|es| - 1];
      Decrements(es[..|es| - 1]) + if e.payload.QuantityDecremented? then e.payload.decremented else 0
  }

  lemma {:induction false} ChainBalance(es: seq<Envelope>)
    requires Chained(es) && es != []
    ensures es[|es| - 1].payload.after == es[0].payload.before - Decrements(es)
  {
    var init := es[..|es| - 1];
    if init == [] {
      assert Decrements(init) == 0;
    } else {
      ChainBalance(init);
    }
  }

  /**
   Safety of whole runs. From the empty tables, after any deliveries with any database failures: no event id
   was applied twice; the events applied to an item carry versions 1, 2, ..., n; its row shows version n and
   a non-negative quantity that is the first quantity-before less everything decremented; and items without an
   applied event have no row.
   */
  lemma SafetyOfRuns(c: Codec, ds: seq<Delivery>, k: ItemKey)
    requires c.Lawful()
    ensures var t := Run(c, Trace(EMPTY_DB, []), ds);
            var es := Of(t.log, k);
            && (forall i, j | 0 <= i < j < |t.log| :: t.log[i].eventId != t.log[j].eventId)
            && (forall i | 0 <= i < |es| :: es[i].version == i + 1 && es[i].payload.QuantityDecremented?)
            && (k in t.db.items <==> es != [])
            && (k in t.db.items ==>
                  && t.db.items[k].version == |es|
                  && t.db.items[k].quantity == es[0].payload.before - Decrements(es)
                  && t.db.items[k].quantity >= 0)
  {
    hide ProcessRecord;
    EmptyInv(c);
    RunKeepsInv(c, Trace(EMPTY_DB, []), ds);
    var t := Run(c, Trace(EMPTY_DB, []), ds);
    assert ItemSound(t.db, t.log, k);
    var es := Of(t.log, k);
    if es != [] {
      ChainBalance(es);
      assert Sound(es[|es| - 1]);
    }
  }

  /**
   In every reachable state each gap row's stored bytes re-parse to an event with that row's id, aggregate,
   version and content hash, so re-drive never meets a hash mismatch, and a delivery whose database operations
   all succeed is acknowledged.
   */
  lemma RedriveIsWellFounded(c: Codec, ds: seq<Delivery>, d: Delivery)
    requires c.Lawful()
    ensures var db := Run(c, Trace(EMPTY_DB, []), ds).db;
            && GapsSound(c, db)
            && (d.budget > 2 * |db.inbox| + 3 ==> ProcessRecord(c, db, d).ack)
  {
    hide ProcessValidated, Run, Inv, Redrive, Record, Effect, QuietEffect, AggregateKey;
    EmptyInv(c);
    RunKeepsInv(c, Trace(EMPTY_DB, []), ds);
    var t := Run(c, Trace(EMPTY_DB, []), ds);
    InvGaps(c, t.db, t.log);
    if d.budget > 2 * |t.db.inbox| + 3 && c.parse(d.value).Ok? {
      var env := c.parse(d.value).value;
      TransactionKeepsInv(c, t.db, env, t.log);
      var (db', disp) := ProcessValidated(c, t.db, env);
      if disp == Applied || disp == DuplicateNoop {
        GapIdsBounded(c, t.db, env, db', disp);
        RedriveTerminates(c, db', t.log + Logged(disp, env), env.Kind(), env.tenantId, env.aggregateId,
                          d.budget - 1, d.tie);
      }
    }
  }

  lemma EmptyInv(c: Codec)
    ensures Inv(c, EMPTY_DB, [])
  {
    forall k ensures ItemSound(EMPTY_DB, [], k) {
    }
  }

  lemma SubsetCardinality<T>(a: set<T>, b: set<T>)
    requires a <= b
    ensures |a| <= |b|
  {
    assert b == a + (b - a);
  }

  lemma GapIdsBounded(c: Codec, db: Db, env: Envelope, db': Db, d: Disposition)
    requires Effect(c, db, env, db', d)
    ensures |GapIds(db')| <= |db.inbox| + 1
  {
    SubsetCardinality(GapIds(db'), db.inbox.Keys + {env.eventId});
    assert |db.inbox.Keys + {env.eventId}| <= |db.inbox.Keys| + 1;
  }
}
