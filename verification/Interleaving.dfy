/**
 Deliveries as the database sees them. ProcessRecord is not one transaction: it commits the event's own transaction
 and then, one by one, selections and transactions of re-drive. Here any number of deliveries are under way at once
 and every step is a single database operation of one of them, so operations of other deliveries, of the same or of
 other aggregates, may come in between; a delivery may fail at each operation or crash between any two.
 */
module Interleaving {
  import opened Events
  import opened Projection
  import opened ProjectionSafety
  import C = Convergence

  /** How far a delivery is: before its own transaction, before a selection of re-drive, or with a row selected. */
  datatype Task =
    | Fetched(key: string, value: string, pos: Position, probe: Option<string>)
    | Selecting(event: Envelope)
    | Chosen(event: Envelope, next: Envelope, hash: string)

  /**
   The tables, the events applied so far, the deliveries under way, the ids delivered, and the ids whose latest
   delivery ended without acknowledgement.
   */
  datatype Desk = Desk(db: Db, log: seq<Envelope>, tasks: map<nat, Task>, delivered: set<string>, failed: set<string>)

  const EMPTY_DESK: Desk := Desk(EMPTY_DB, [], map[], {}, {})

  datatype DeskStep =
    | Fetch(task: nat, key: string, value: string, pos: Position, probe: Option<string>)
    | Work(task: nat, ok: bool, tie: TieBreak)
    | Crash(task: nat)

  function EventId(c: Codec, task: Task): Option<string> {
    match task
    case Fetched(_, value, _, _) => if c.parse(value).Ok? then Some(c.parse(value).value.eventId) else None
    case Selecting(e) => Some(e.eventId)
    case Chosen(e, _, _) => Some(e.eventId)
  }

  function IdSet(id: Option<string>): set<string> { if id.Some? then {id.value} else {} }

  /** The delivery ends and its record is acknowledged. */
  function Ack(s: Desk, t: nat, db: Db): Desk { s.(db := db, tasks := s.tasks - {t}) }

  /** The delivery ends without acknowledgement. */
  function Fail(c: Codec, s: Desk, t: nat): Desk
    requires t in s.tasks
  {
    s.(tasks := s.tasks - {t}, failed := s.failed + IdSet(EventId(c, s.tasks[t])))
  }

  /** The event's own transaction, or the write that stands for it when the record is refused. */
  function Commit(c: Codec, s: Desk, t: nat): Desk
    requires t in s.tasks && s.tasks[t].Fetched?
  {
    var f := s.tasks[t];
    match c.parse(f.value)
    case Err(_) =>
      var row := if f.pos in s.db.failures then s.db.failures[f.pos] else f.probe;
      Ack(s, t, s.db.(failures := s.db.failures[f.pos := row]))
    case Ok(env) =>
      if f.key != AggregateKey(env.tenantId, env.aggregateType, env.aggregateId)
         || env.payload.SelfId() != env.aggregateId
      then Ack(s, t, Record(c, s.db, env, Mismatch, None))
      else
        var (db', d) := ProcessValidated(c, s.db, env);
        if C.IsDone(d) then s.(db := db', log := s.log + Logged(d, env), tasks := s.tasks[t := Selecting(env)])
        else Ack(s, t, db')
  }

  /** The SELECT of re-drive. */
  function Select(c: Codec, s: Desk, t: nat, tie: TieBreak): Desk
    requires t in s.tasks && s.tasks[t].Selecting?
  {
    var e := s.tasks[t].event;
    var candidates := GapCandidates(s.db, e.Kind(), e.tenantId, e.aggregateId);
    if candidates == {} then Ack(s, t, s.db)
    else
      var row := s.db.inbox[tie(candidates)];
      match c.parse(row.bytes.value)
      case Err(_) => Fail(c, s, t)
      case Ok(next) => s.(tasks := s.tasks[t := Chosen(e, next, row.hash)])
  }

  /** The transaction over the selected row, which may have changed since. */
  function Apply(c: Codec, s: Desk, t: nat): Desk
    requires t in s.tasks && s.tasks[t].Chosen?
  {
    var x := s.tasks[t];
    if c.Hash(x.next) != x.hash then
      s.(db := Record(c, s.db, x.next, Conflict, None), tasks := s.tasks[t := Selecting(x.event)])
    else
      var (db', d) := ProcessValidated(c, s.db, x.next);
      if d == Applied then s.(db := db', log := s.log + [x.next], tasks := s.tasks[t := Selecting(x.event)])
      else Ack(s, t, db')
  }

  function Step(c: Codec, s: Desk, step: DeskStep): Desk {
    match step
    case Fetch(t, key, value, pos, probe) =>
      if t in s.tasks then s
      else
        var task := Fetched(key, value, pos, probe);
        s.(tasks := s.tasks[t := task],
           delivered := s.delivered + IdSet(EventId(c, task)),
           failed := s.failed - IdSet(EventId(c, task)))
    case Crash(t) => if t in s.tasks then Fail(c, s, t) else s
    case Work(t, ok, tie) =>
      if t !in s.tasks then s
      else if !ok then Fail(c, s, t)
      else
        match s.tasks[t]
        case Fetched(_, _, _, _) => Commit(c, s, t)
        case Selecting(_) => Select(c, s, t, tie)
        case Chosen(_, _, _) => Apply(c, s, t)
  }

  function RunDesk(c: Codec, s: Desk, steps: seq<DeskStep>): Desk {
    if steps == [] then s else Step(c, RunDesk(c, s, steps[..|steps| - 1]), steps[|steps| - 1])
  }

  lemma {:induction false} RunDeskAppend(c: Codec, s: Desk, a: seq<DeskStep>, b: seq<DeskStep>)
    ensures RunDesk(c, s, a + b) == RunDesk(c, RunDesk(c, s, a), b)
  {
    hide Step;
    if b == [] {
      assert a + b == a;
    } else {
      assert (a + b)[..|a + b| - 1] == a + b[..|b| - 1];
      RunDeskAppend(c, s, a, b[..|b| - 1]);
    }
  }

  // --- safety for any interleaving -------------------------------------------------------------------

  /** The safety invariant, and what a selected row carries. */
  ghost predicate DeskInv(c: Codec, s: Desk) {
    && Inv(c, s.db, s.log)
    && (forall t | t in s.tasks && s.tasks[t].Chosen? ::
          c.valid(s.tasks[t].next) && c.Hash(s.tasks[t].next) == s.tasks[t].hash)
  }

  lemma CommitKeepsDesk(c: Codec, s: Desk, t: nat)
    requires c.Lawful() && DeskInv(c, s) && t in s.tasks && s.tasks[t].Fetched?
    ensures DeskInv(c, Commit(c, s, t))
  {
    hide ProcessValidated, Inv, Record, Effect, QuietEffect, AggregateKey, Codec.Hash;
    var f := s.tasks[t];
    match c.parse(f.value)
    case Err(_) => FailureKeepsInv(c, s.db, s.log, Commit(c, s, t).db.failures);
    case Ok(env) =>
      MismatchEffect(c, s.db, env);
      QuietKeepsInv(c, s.db, env, Record(c, s.db, env, Mismatch, None), s.log);
      TransactionKeepsInv(c, s.db, env, s.log);
      assert s.log + [] == s.log;
  }

  lemma SelectKeepsDesk(c: Codec, s: Desk, t: nat, tie: TieBreak)
    requires c.Lawful() && DeskInv(c, s) && t in s.tasks && s.tasks[t].Selecting?
    ensures DeskInv(c, Select(c, s, t, tie))
  {
    hide Inv, GapCandidates, Codec.Hash;
    var e := s.tasks[t].event;
    var candidates := GapCandidates(s.db, e.Kind(), e.tenantId, e.aggregateId);
    if candidates != {} {
      InvGaps(c, s.db, s.log);
      CandidateReparses(c, s.db, e.Kind(), e.tenantId, e.aggregateId, tie(candidates));
    }
  }

  lemma ApplyKeepsDesk(c: Codec, s: Desk, t: nat)
    requires c.Lawful() && DeskInv(c, s) && t in s.tasks && s.tasks[t].Chosen?
    ensures DeskInv(c, Apply(c, s, t))
  {
    hide ProcessValidated, Inv, Record, Effect, Codec.Hash;
    TransactionKeepsInv(c, s.db, s.tasks[t].next, s.log);
    assert s.log + [] == s.log;
  }

  lemma StepKeepsDesk(c: Codec, s: Desk, step: DeskStep)
    requires c.Lawful() && DeskInv(c, s)
    ensures DeskInv(c, Step(c, s, step))
  {
    hide Inv, Commit, Select, Apply, Codec.Hash;
    if step.Work? && step.ok && step.task in s.tasks {
      match s.tasks[step.task]
      case Fetched(_, _, _, _) => CommitKeepsDesk(c, s, step.task);
      case Selecting(_) => SelectKeepsDesk(c, s, step.task, step.tie);
      case Chosen(_, _, _) => ApplyKeepsDesk(c, s, step.task);
    }
  }

  lemma {:induction false} RunKeepsDesk(c: Codec, s: Desk, steps: seq<DeskStep>)
    requires c.Lawful() && DeskInv(c, s)
    ensures DeskInv(c, RunDesk(c, s, steps))
  {
    hide Step, DeskInv;
    if steps != [] {
      RunKeepsDesk(c, s, steps[..|steps| - 1]);
      StepKeepsDesk(c, RunDesk(c, s, steps[..|steps| - 1]), steps[|steps| - 1]);
    }
  }

  /** What the safety invariant says of one item, given the events applied. */
  ghost predicate SafeItem(db: Db, log: seq<Envelope>, k: ItemKey) {
    var es := Of(log, k);
    && (forall i | 0 <= i < |es| :: es[i].version == i + 1 && es[i].payload.QuantityDecremented?)
    && (k in db.items <==> es != [])
    && (k in db.items ==>
          && db.items[k].version == |es|
          && db.items[k].quantity == es[0].payload.before - Decrements(es)
          && db.items[k].quantity >= 0)
  }

  /**
   Safety over every interleaving of single database operations of any deliveries, with any failures and crashes:
   no event id is applied twice, each item's applied versions are 1, 2, ..., n, and its row shows version n and the
   first quantity-before less everything decremented.
   */
  lemma SafetyOfInterleavings(c: Codec, steps: seq<DeskStep>, k: ItemKey)
    requires c.Lawful()
    ensures var s := RunDesk(c, EMPTY_DESK, steps);
            && (forall i, j | 0 <= i < j < |s.log| :: s.log[i].eventId != s.log[j].eventId)
            && SafeItem(s.db, s.log, k)
            && GapsSound(c, s.db)
  {
    hide Step, RunDesk;
    EmptyInv(c);
    RunKeepsDesk(c, EMPTY_DESK, steps);
    var s := RunDesk(c, EMPTY_DESK, steps);
    assert ItemSound(s.db, s.log, k);
    var es := Of(s.log, k);
    if es != [] {
      ChainBalance(es);
      assert Sound(es[|es| - 1]);
    }
  }

  // --- a delivery on its own is ProcessRecord ----------------------------------------------------------

  /** The next `n` operations of the delivery succeed and the one after them fails. */
  function Alone(t: nat, n: nat, tie: TieBreak): seq<DeskStep> {
    if n == 0 then [Work(t, false, tie)] else [Work(t, true, tie)] + Alone(t, n - 1, tie)
  }

  lemma RunFirst(c: Codec, s: Desk, step: DeskStep, rest: seq<DeskStep>)
    ensures RunDesk(c, s, [step] + rest) == RunDesk(c, Step(c, s, step), rest)
  {
    hide Step;
    assert [step][..0] == [];
    RunDeskAppend(c, s, [step], rest);
  }

  lemma {:induction false} AloneEnded(c: Codec, s: Desk, t: nat, n: nat, tie: TieBreak)
    requires t !in s.tasks
    ensures RunDesk(c, s, Alone(t, n, tie)) == s
  {
    if n == 0 {
      RunFirst(c, s, Work(t, false, tie), []);
      assert [Work(t, false, tie)] + [] == [Work(t, false, tie)];
    } else {
      RunFirst(c, s, Work(t, true, tie), Alone(t, n - 1, tie));
      AloneEnded(c, s, t, n - 1, tie);
    }
  }

  lemma AloneFails(c: Codec, s: Desk, t: nat, tie: TieBreak)
    requires t in s.tasks
    ensures RunDesk(c, s, Alone(t, 0, tie)) == Fail(c, s, t)
  {
    RunFirst(c, s, Work(t, false, tie), []);
    assert [Work(t, false, tie)] + [] == [Work(t, false, tie)];
  }

  /** Where a delivery that has nothing between its operations leaves the desk. */
  ghost predicate Ended(c: Codec, s: Desk, t: nat, id: string, db: Db, applied: seq<Envelope>, ack: bool, s': Desk) {
    && s'.db == db && s'.log == s.log + applied && s'.tasks == s.tasks - {t} && s'.delivered == s.delivered
    && s'.failed == if ack then s.failed else s.failed + {id}
  }

  /** A re-drive that starts here, with `n` operations that succeed, does this to the desk. */
  ghost predicate Redrives(c: Codec, s: Desk, t: nat, e: Envelope, n: nat, tie: TieBreak, s': Desk) {
    var r := Redrive(c, s.db, e.Kind(), e.tenantId, e.aggregateId, n, tie);
    Ended(c, s, t, e.eventId, r.db, r.applied, r.ok, s')
  }

  lemma {:induction false} AloneRedrives(c: Codec, s: Desk, t: nat, n: nat, tie: TieBreak)
    requires t in s.tasks && s.tasks[t].Selecting?
    ensures Redrives(c, s, t, s.tasks[t].event, n, tie, RunDesk(c, s, Alone(t, n, tie)))
    decreases n
  {
    hide ProcessValidated, Record, GapCandidates, Codec.Hash, RunDesk, Redrive, Apply;
    var e := s.tasks[t].event;
    RedriveIs(c, s.db, e.Kind(), e.tenantId, e.aggregateId, n, tie);
    assert s.log + [] == s.log;
    if n == 0 {
      AloneFails(c, s, t, tie);
    } else {
      var s1 := Step(c, s, Work(t, true, tie));
      RunFirst(c, s, Work(t, true, tie), Alone(t, n - 1, tie));
      if t !in s1.tasks {
        AloneEnded(c, s1, t, n - 1, tie);
      } else if n == 1 {
        AloneFails(c, s1, t, tie);
      } else {
        RunFirst(c, s1, Work(t, true, tie), Alone(t, n - 2, tie));
        AloneApplies(c, s, s1, t, n, tie);
      }
    }
  }

  lemma SelectedRow(c: Codec, s: Desk, t: nat, tie: TieBreak)
    requires t in s.tasks && s.tasks[t].Selecting? && t in Select(c, s, t, tie).tasks
    ensures var e := s.tasks[t].event;
            var cs := GapCandidates(s.db, e.Kind(), e.tenantId, e.aggregateId);
            && cs != {} && tie(cs) in s.db.inbox && s.db.inbox[tie(cs)].bytes.Some?
            && var row := s.db.inbox[tie(cs)];
            && c.parse(row.bytes.value).Ok?
            && Select(c, s, t, tie) == s.(tasks := s.tasks[t := Chosen(e, c.parse(row.bytes.value).value, row.hash)])
  {
    hide Codec.Hash;
    var e := s.tasks[t].event;
    var cs := GapCandidates(s.db, e.Kind(), e.tenantId, e.aggregateId);
    if cs != {} {
      CandidateHasBytes(s.db, e.Kind(), e.tenantId, e.aggregateId, tie(cs));
    }
  }

  /** What an operation did before the delivery ended is part of what the delivery did. */
  lemma EndedAfter(c: Codec, s: Desk, s1: Desk, t: nat, id: string, more: seq<Envelope>, db: Db, applied: seq<Envelope>,
                   ack: bool, s': Desk)
    requires s1.tasks - {t} == s.tasks - {t} && s1.log == s.log + more
    requires s1.delivered == s.delivered && s1.failed == s.failed
    requires Ended(c, s1, t, id, db, applied, ack, s')
    ensures Ended(c, s, t, id, db, more + applied, ack, s')
  {
    assert s.log + more + applied == s.log + (more + applied);
  }

  lemma EndedHere(c: Codec, s: Desk, t: nat, id: string, db: Db)
    ensures Ended(c, s, t, id, db, [], true, Ack(s, t, db))
  {
    assert s.log + [] == s.log;
  }

  /** The transaction after a selection, and the re-drive after that. */
  lemma AloneApplies(c: Codec, s: Desk, s1: Desk, t: nat, n: nat, tie: TieBreak)
    requires n >= 2 && t in s.tasks && s.tasks[t].Selecting?
    requires s1 == Select(c, s, t, tie) && t in s1.tasks
    ensures Redrives(c, s, t, s.tasks[t].event, n, tie, RunDesk(c, Apply(c, s1, t), Alone(t, n - 2, tie)))
    decreases n, 0
  {
    hide ProcessValidated, Record, GapCandidates, Codec.Hash, RunDesk, Redrive, Select, Ended;
    var e := s.tasks[t].event;
    SelectedRow(c, s, t, tie);
    RedriveIs(c, s.db, e.Kind(), e.tenantId, e.aggregateId, n, tie);
    var s2 := Apply(c, s1, t);
    var s' := RunDesk(c, s2, Alone(t, n - 2, tie));
    var next := s1.tasks[t].next;
    if t !in s2.tasks {
      AloneEnded(c, s2, t, n - 2, tie);
      EndedHere(c, s, t, e.eventId, s2.db);
      assert s2 == Ack(s, t, s2.db);
    } else {
      AloneRedrives(c, s2, t, n - 2, tie);
      var r := Redrive(c, s2.db, e.Kind(), e.tenantId, e.aggregateId, n - 2, tie);
      assert s.log + [] == s.log && [] + r.applied == r.applied;
      var more := if c.Hash(next) != s1.tasks[t].hash then [] else [next];
      EndedAfter(c, s, s2, t, e.eventId, more, r.db, r.applied, r.ok, s');
    }
  }

  /** Fetching a record and running its operations with nothing in between is ProcessRecord. */
  lemma AloneIsProcessRecord(c: Codec, s: Desk, t: nat, d: Delivery)
    requires t !in s.tasks && c.parse(d.value).Ok?
    ensures var id := c.parse(d.value).value.eventId;
            var o := ProcessRecord(c, s.db, d);
            var s' := RunDesk(c, s, [Fetch(t, d.key, d.value, d.pos, d.probe)] + Alone(t, d.budget, d.tie));
            && s'.db == o.db && s'.log == s.log + o.applied && s'.tasks == s.tasks
            && s'.delivered == s.delivered + {id}
            && s'.failed == if o.ack then s.failed - {id} else s.failed - {id} + {id}
  {
    hide ProcessValidated, Record, RunDesk, Redrive, AggregateKey, Commit, ProcessRecord;
    var fetch := Fetch(t, d.key, d.value, d.pos, d.probe);
    var s1 := Step(c, s, fetch);
    RunFirst(c, s, fetch, Alone(t, d.budget, d.tie));
    assert s1.tasks - {t} == s.tasks;
    if d.budget == 0 {
      AloneFails(c, s1, t, d.tie);
      NoOperation(c, s.db, d);
      assert s.log + [] == s.log;
    } else {
      RunFirst(c, s1, Work(t, true, d.tie), Alone(t, d.budget - 1, d.tie));
      AloneCommits(c, s1, t, d);
    }
  }

  lemma NoOperation(c: Codec, db: Db, d: Delivery)
    requires d.budget == 0
    ensures ProcessRecord(c, db, d) == Outcome(db, None, false, [])
  {
  }

  lemma AloneCommits(c: Codec, s: Desk, t: nat, d: Delivery)
    requires t in s.tasks && s.tasks[t] == Fetched(d.key, d.value, d.pos, d.probe) && c.parse(d.value).Ok? && d.budget > 0
    ensures var o := ProcessRecord(c, s.db, d);
            Ended(c, s, t, c.parse(d.value).value.eventId, o.db, o.applied, o.ack,
                  RunDesk(c, Commit(c, s, t), Alone(t, d.budget - 1, d.tie)))
  {
    hide ProcessValidated, Record, RunDesk, Redrive, AggregateKey, Ended;
    var env := c.parse(d.value).value;
    var s1 := Commit(c, s, t);
    if t !in s1.tasks {
      AloneEnded(c, s1, t, d.budget - 1, d.tie);
      EndedHere(c, s, t, env.eventId, s1.db);
    } else {
      AloneRedrives(c, s1, t, d.budget - 1, d.tie);
      var (db', disp) := ProcessValidated(c, s.db, env);
      var r := Redrive(c, db', env.Kind(), env.tenantId, env.aggregateId, d.budget - 1, d.tie);
      EndedAfter(c, s, s1, t, env.eventId, Logged(disp, env), r.db, r.applied, r.ok,
                 RunDesk(c, s1, Alone(t, d.budget - 1, d.tie)));
    }
  }
}
