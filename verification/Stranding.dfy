/**
 Why resets have to be quiet. A delivery that is still re-driving when its tenant is reset can take an event over from
 the delivery responsible for it and then die: the event after it waits although nothing is under way and nothing failed.
 */
module Stranding {
  import opened Events
  import opened Projection
  import opened Convergence
  import opened Source
  import opened SourceInvariant
  import opened Interleaving
  import opened DeskConvergence
  import opened EndToEnd
  import opened AtRest
  import opened Progress
  import R = Relay
  import T = TenantRebuild

  // --- one delivery at a time ----------------------------------------------------------------------------

  const POS: Position := Position(1, 1)

  ghost function Event(s: System, k: ItemKey, n: nat): Envelope
    requires k in s.ledger.history.chains && 1 <= n <= |s.ledger.history.chains[k]|
  {
    s.ledger.history.chains[k][n - 1]
  }

  /** The item is in the source's books with at least `n` events. */
  ghost predicate Long(s: System, k: ItemKey, n: nat) {
    k in s.ledger.history.chains && |s.ledger.history.chains[k]| >= n
  }

  ghost function Version(s: System, k: ItemKey): int { VersionOf(s.desk.db.items, k) }

  lemma EventFacts(o: Outside, s: System, k: ItemKey, n: nat)
    requires o.codec.Lawful() && SystemInv(o, s) && Long(s, k, n) && n >= 1
    ensures var e := Event(s, k, n);
            && InHistory(s.ledger.history, e) && e.payload.QuantityDecremented? && ItemKeyOf(e) == k && e.version == n
            && e.eventId in s.ledger.source.outbox
            && o.codec.parse(s.ledger.source.outbox[e.eventId].bytes) == Ok(e)
            && RecordClean(o.codec, s.ledger.history, R.RecordOf(s.ledger.source.outbox[e.eventId]))
            && R.RecordOf(s.ledger.source.outbox[e.eventId]).value == s.ledger.source.outbox[e.eventId].bytes
  {
    hide LedgerInv, LogClean, R.RelayInv, R.NoneQuarantined, DeskClean, R.Refusal, InHistory, RecordClean, R.SameEvent;
    InvClean(o, s.ledger);
    var e := Event(s, k, n);
    ChainEvent(o.codec, s.ledger.history, k, n);
    OutboxTenant(o, s.ledger, e);
    var row := s.ledger.source.outbox[e.eventId];
    SameAsItself(row);
    RowRecord(o, s.ledger, row, e.eventId);
    RecordCarries(o.codec, s.ledger.history, row);
    UniqueOf(o.codec, s.ledger.history, e, o.codec.parse(row.bytes).value);
  }

  lemma ChainEvent(c: Codec, h: History, k: ItemKey, n: nat)
    requires Clean(c, h) && k in h.chains && 1 <= n <= |h.chains[k]|
    ensures var e := h.chains[k][n - 1];
            InHistory(h, e) && e.payload.QuantityDecremented? && ItemKeyOf(e) == k && e.version == n
  {
    hide UniqueIds, UniqueParents;
    EventAtInHistory(c, h, InventoryItem, k.tenant, k.item, n);
    assert CleanChain(c, k, h.chains[k]);
  }

  lemma SameAsItself(row: OutboxRow)
    ensures R.SameEvent(row, row)
  {
  }

  lemma RecordCarries(c: Codec, h: History, row: OutboxRow)
    requires RecordClean(c, h, R.RecordOf(row))
    ensures R.RecordOf(row).value == row.bytes && InHistory(h, c.parse(row.bytes).value)
  {
  }

  /** The source side, which none of these steps touches. */
  ghost predicate SameSource(a: System, b: System) { a.ledger == b.ledger && a.log == b.log }

  // --- single operations ---------------------------------------------------------------------------------

  /** The system with the desk after an operation of a delivery. */
  function Worked(o: Outside, s: System, task: nat, tie: TieBreak): System {
    s.(desk := Interleaving.Step(o.codec, s.desk, Work(task, true, tie)))
  }

  lemma WorkRuns(o: Outside, s: System, task: nat, tie: TieBreak) returns (more: seq<SystemStep>)
    requires o.codec.Lawful() && SystemInv(o, s)
    ensures NoCommands(more) && RunFrom(o, s, more) == Worked(o, s, task, tie) && SystemInv(o, Worked(o, s, task, tie))
  {
    hide SystemInv, Interleaving.Step, RunFrom;
    var work := Consume(Work(task, true, tie));
    more := [work];
    FirstStep(o, s, work);
    StepKeepsInv(o, s, work);
  }

  /** Fetching the item's n-th event and its own transaction. */
  lemma DeskReplay(c: Codec, h: History, d: Desk, fetch: DeskStep, e: Envelope, k: ItemKey, tie: TieBreak)
    requires c.Lawful() && Clean(c, h) && DeskClean(c, h, d)
    requires fetch.Fetch? && fetch.task !in d.tasks && c.parse(fetch.value) == Ok(e) && InHistory(h, e)
    requires fetch.key == AggregateKey(e.tenantId, e.aggregateType, e.aggregateId)
    requires e.payload.QuantityDecremented? && ItemKeyOf(e) == k
    ensures var d' := Interleaving.Step(c, Interleaving.Step(c, d, fetch), Work(fetch.task, true, tie));
            var v := VersionOf(d.db.items, k);
            && d'.failed == d.failed - {e.eventId} && d'.db.inbox.Keys == d.db.inbox.Keys + {e.eventId}
            && VersionOf(d'.db.items, k) == (if e.version == v + 1 then e.version else v)
            && d'.tasks == if e.version <= v + 1 then d.tasks[fetch.task := Selecting(e)] else d.tasks
  {
    hide Commit, ProcessValidated, CleanEffect, InHistory, AggregateKey, Clean, CleanDb;
    var d1 := Interleaving.Step(c, d, fetch);
    assert DeskClean(c, h, d1);
    CleanCommit(c, h, d1, fetch.task);
    CommitSays(c, h, d1.db, e, k);
    assert d1.tasks[fetch.task := Selecting(e)] == d.tasks[fetch.task := Selecting(e)];
    assert d1.tasks - {fetch.task} == d.tasks;
  }

  lemma CommitSays(c: Codec, h: History, db: Db, e: Envelope, k: ItemKey)
    requires InHistory(h, e) && e.payload.QuantityDecremented? && ItemKeyOf(e) == k
    requires CleanEffect(c, db, e, ProcessValidated(c, db, e).0, ProcessValidated(c, db, e).1)
    ensures var (db', d) := ProcessValidated(c, db, e);
            && db'.inbox.Keys == db.inbox.Keys + {e.eventId}
            && (IsDone(d) <==> e.version <= VersionOf(db.items, k) + 1)
            && (d == Applied <==> e.version == VersionOf(db.items, k) + 1)
            && VersionOf(db'.items, k) == if d == Applied then e.version else VersionOf(db.items, k)
  {
    hide ProcessValidated, InHistory, Codec.Hash;
  }

  /** A re-drive that finds the item's next event waiting selects it. */
  lemma DeskSelect(c: Codec, h: History, d: Desk, k: ItemKey, task: nat, e: Envelope, tie: TieBreak)
    requires c.Lawful() && Clean(c, h) && DeskClean(c, h, d) && task in d.tasks && d.tasks[task] == Selecting(e)
    requires e.payload.QuantityDecremented? && ItemKeyOf(e) == k && k in d.db.items && NextWaits(h, d.db, k)
    ensures var d' := Interleaving.Step(c, d, Work(task, true, tie));
            var next := h.chains[k][VersionOf(d.db.items, k)];
            d' == d.(tasks := d.tasks[task := Chosen(e, next, c.Hash(next))])
  {
    hide GapCandidates, Clean, CleanDb, InHistory, AggregateKey, Codec.Hash;
    var cs := GapCandidates(d.db, e.Kind(), e.tenantId, e.aggregateId);
    CleanNextFacts(c, h, d.db, k);
    Candidates(c, h, d.db, k);
    CandidateIsNext(c, h, d.db, e.Kind(), e.tenantId, e.aggregateId, tie(cs));
    NextIs(c, h, d.db, k, c.parse(d.db.inbox[tie(cs)].bytes.value).value);
  }

  lemma NextIs(c: Codec, h: History, db: Db, k: ItemKey, next: Envelope)
    requires InHistory(h, next) && next.payload.QuantityDecremented? && ItemKeyOf(next) == k
    requires NextWaits(h, db, k) && next.version == VersionOf(db.items, k) + 1
    ensures next == h.chains[k][VersionOf(db.items, k)]
  {
  }

  /** The transaction over the selected event: applied if it is still next, a duplicate if it no longer is. */
  lemma DeskApply(c: Codec, h: History, d: Desk, k: ItemKey, task: nat, e: Envelope, next: Envelope, tie: TieBreak)
    requires c.Lawful() && Clean(c, h) && DeskClean(c, h, d)
    requires task in d.tasks && d.tasks[task] == Chosen(e, next, c.Hash(next))
    requires next.payload.QuantityDecremented? && ItemKeyOf(next) == k && next.version <= VersionOf(d.db.items, k) + 1
    requires next.eventId in d.db.inbox
    ensures var d' := Interleaving.Step(c, d, Work(task, true, tie));
            var v := VersionOf(d.db.items, k);
            && d'.failed == d.failed && d'.db.inbox.Keys == d.db.inbox.Keys
            && if next.version == v + 1
               then VersionOf(d'.db.items, k) == v + 1 && d'.tasks == d.tasks[task := Selecting(e)]
               else VersionOf(d'.db.items, k) == v && d'.tasks == d.tasks - {task}
  {
    hide Apply, ProcessValidated, CleanEffect, InHistory, Clean, CleanDb, Codec.Hash;
    CleanApply(c, h, d, task);
    CommitSays(c, h, d.db, next, k);
    assert d.db.inbox.Keys + {next.eventId} == d.db.inbox.Keys;
  }

  // --- the schedule ----------------------------------------------------------------------------------------

  /** Nothing has failed, the item is at version `v`, and these deliveries are under way. */
  ghost predicate Now(o: Outside, s0: System, s: System, k: ItemKey, v: int, tasks: map<nat, Task>) {
    SystemInv(o, s) && SameSource(s0, s) && Version(s, k) == v && s.desk.tasks == tasks && s.desk.failed == {}
  }

  /** Replaying the item's n-th event as `task`, up to and including its own transaction. */
  lemma ReplayEvent(o: Outside, s: System, k: ItemKey, n: nat, task: nat, tie: TieBreak) returns (more: seq<SystemStep>)
    requires o.codec.Lawful() && SystemInv(o, s) && Long(s, k, n) && n >= 1 && task !in s.desk.tasks
    ensures NoCommands(more)
    ensures var s' := RunFrom(o, s, more);
            var e := Event(s, k, n);
            && SystemInv(o, s') && SameSource(s, s')
            && s'.desk.failed == s.desk.failed - {e.eventId}
            && s'.desk.db.inbox.Keys == s.desk.db.inbox.Keys + {e.eventId}
            && Version(s', k) == (if n == Version(s, k) + 1 then n else Version(s, k))
            && s'.desk.tasks == if n <= Version(s, k) + 1 then s.desk.tasks[task := Selecting(e)] else s.desk.tasks
  {
    hide LedgerInv, LogClean, R.RelayInv, R.NoneQuarantined, Interleaving.Step, R.RecordOf, RunFrom, DeskClean, InHistory,
         AggregateKey;
    var e := Event(s, k, n);
    EventFacts(o, s, k, n);
    var record := R.RecordOf(s.ledger.source.outbox[e.eventId]);
    var replay, fetch := Replay(task, e.eventId, POS), FetchOf(task, record, POS);
    FirstStep(o, s, replay);
    StepKeepsInv(o, s, replay);
    var s1 := s.(desk := Interleaving.Step(o.codec, s.desk, fetch));
    assert EndToEnd.Step(o, s, replay) == s1;
    var rest := WorkRuns(o, s1, task, tie);
    RunFromAppend(o, s, [replay], rest);
    more := [replay] + rest;
    InvClean(o, s.ledger);
    DeskReplay(o.codec, s.ledger.history, s.desk, fetch, e, k, tie);
  }

  /** A delivery of the item's fourth event has its transaction behind it when the tenant is reset. */
  lemma ResetDuringDelivery(o: Outside, s: System, k: ItemKey, tie: TieBreak) returns (more: seq<SystemStep>)
    requires o.codec.Lawful() && Long(s, k, 4) && Version(s, k) >= 4 && Now(o, s, s, k, Version(s, k), map[])
    ensures NoCommands(more)
    ensures Now(o, s, RunFrom(o, s, more), k, 0, map[0 := Selecting(Event(s, k, 4))])
  {
    hide SystemInv, RunFrom, T.ResetTenant;
    var first := ReplayEvent(o, s, k, 4, 0, tie);
    var s1 := RunFrom(o, s, first);
    var reset := Reset(k.tenant);
    FirstStep(o, s1, reset);
    StepKeepsInv(o, s1, reset);
    RunFromAppend(o, s, first, [reset]);
    more := first + [reset];
    ResetVersion(s1.desk.db, k.tenant, k);
  }

  /** The second and third event wait as gaps, and the first is applied by another delivery. */
  lemma GapsThenFirst(o: Outside, s: System, k: ItemKey, stale: Task, tie: TieBreak) returns (more: seq<SystemStep>)
    requires o.codec.Lawful() && Long(s, k, 4) && Now(o, s, s, k, 0, map[0 := stale])
    ensures NoCommands(more)
    ensures var s' := RunFrom(o, s, more);
            && Now(o, s, s', k, 1, map[0 := stale, 1 := Selecting(Event(s, k, 1))])
            && Event(s, k, 2).eventId in s'.desk.db.inbox && Event(s, k, 3).eventId in s'.desk.db.inbox
  {
    hide SystemInv, RunFrom;
    var second := ReplayEvent(o, s, k, 2, 1, tie);
    var s2 := RunFrom(o, s, second);
    var third := ReplayEvent(o, s2, k, 3, 1, tie);
    var s3 := RunFrom(o, s2, third);
    var first := ReplayEvent(o, s3, k, 1, 1, tie);
    RunFromAppend(o, s, second, third);
    RunFromAppend(o, s, second + third, first);
    more := second + third + first;
  }

  ghost predicate Waiting(s: System, k: ItemKey) {
    && Long(s, k, 4)
    && Event(s, k, 2).eventId in s.desk.db.inbox && Event(s, k, 3).eventId in s.desk.db.inbox
  }

  lemma SelectWork(o: Outside, s: System, k: ItemKey, task: nat, e: Envelope, tie: TieBreak) returns (more: seq<SystemStep>)
    requires o.codec.Lawful() && SystemInv(o, s) && task in s.desk.tasks && s.desk.tasks[task] == Selecting(e)
    requires e.payload.QuantityDecremented? && ItemKeyOf(e) == k
    requires k in s.desk.db.items && NextWaits(s.ledger.history, s.desk.db, k)
    ensures NoCommands(more)
    ensures var s' := RunFrom(o, s, more);
            var next := s.ledger.history.chains[k][Version(s, k)];
            && SystemInv(o, s')
            && s' == s.(desk := s.desk.(tasks := s.desk.tasks[task := Chosen(e, next, o.codec.Hash(next))]))
  {
    hide LedgerInv, LogClean, R.RelayInv, R.NoneQuarantined, DeskClean, RunFrom, Interleaving.Step, Codec.Hash, NextWaits;
    InvClean(o, s.ledger);
    more := WorkRuns(o, s, task, tie);
    DeskSelect(o.codec, s.ledger.history, s.desk, k, task, e, tie);
  }

  lemma ApplyWork(o: Outside, s: System, k: ItemKey, task: nat, e: Envelope, next: Envelope, tie: TieBreak)
    returns (more: seq<SystemStep>)
    requires o.codec.Lawful() && SystemInv(o, s)
    requires task in s.desk.tasks && s.desk.tasks[task] == Chosen(e, next, o.codec.Hash(next))
    requires next.payload.QuantityDecremented? && ItemKeyOf(next) == k && next.version <= Version(s, k) + 1
    requires next.eventId in s.desk.db.inbox
    ensures NoCommands(more)
    ensures var s' := RunFrom(o, s, more);
            && SystemInv(o, s') && SameSource(s, s') && s'.desk.failed == s.desk.failed
            && s'.desk.db.inbox.Keys == s.desk.db.inbox.Keys
            && if next.version == Version(s, k) + 1
               then Version(s', k) == Version(s, k) + 1 && s'.desk.tasks == s.desk.tasks[task := Selecting(e)]
               else Version(s', k) == Version(s, k) && s'.desk.tasks == s.desk.tasks - {task}
  {
    hide LedgerInv, LogClean, R.RelayInv, R.NoneQuarantined, DeskClean, RunFrom, Interleaving.Step, Codec.Hash;
    InvClean(o, s.ledger);
    more := WorkRuns(o, s, task, tie);
    DeskApply(o.codec, s.ledger.history, s.desk, k, task, e, next, tie);
  }

  /** Both deliveries select the second event before either applies it. */
  lemma BothSelect(o: Outside, s: System, k: ItemKey, tie: TieBreak) returns (more: seq<SystemStep>)
    requires o.codec.Lawful() && Waiting(s, k)
    requires Now(o, s, s, k, 1, map[0 := Selecting(Event(s, k, 4)), 1 := Selecting(Event(s, k, 1))])
    ensures NoCommands(more)
    ensures var s' := RunFrom(o, s, more);
            var next := Event(s, k, 2);
            && s'.desk.db == s.desk.db
            && Now(o, s, s', k, 1, map[0 := Chosen(Event(s, k, 4), next, o.codec.Hash(next)),
                                       1 := Chosen(Event(s, k, 1), next, o.codec.Hash(next))])
  {
    hide SystemInv, RunFrom, Codec.Hash, InHistory, RecordClean, R.RecordOf;
    EventFacts(o, s, k, 1);
    EventFacts(o, s, k, 4);
    var m1 := SelectWork(o, s, k, 1, Event(s, k, 1), tie);
    var m2 := SelectWork(o, RunFrom(o, s, m1), k, 0, Event(s, k, 4), tie);
    RunFromAppend(o, s, m1, m2);
    more := m1 + m2;
  }

  /** The stale delivery applies it; for the one responsible it is then a duplicate, and that one ends. */
  lemma StaleWins(o: Outside, s: System, k: ItemKey, stale: Envelope, other: Envelope, tie: TieBreak)
    returns (more: seq<SystemStep>)
    requires o.codec.Lawful() && Waiting(s, k)
    requires var next := Event(s, k, 2);
             Now(o, s, s, k, 1, map[0 := Chosen(stale, next, o.codec.Hash(next)), 1 := Chosen(other, next, o.codec.Hash(next))])
    ensures NoCommands(more)
    ensures var s' := RunFrom(o, s, more);
            Now(o, s, s', k, 2, map[0 := Selecting(stale)]) && Waiting(s', k)
  {
    hide SystemInv, RunFrom, Codec.Hash, InHistory, RecordClean, R.RecordOf;
    var next := Event(s, k, 2);
    EventFacts(o, s, k, 2);
    var m1 := ApplyWork(o, s, k, 0, stale, next, tie);
    var s1 := RunFrom(o, s, m1);
    assert s1.desk.tasks == map[0 := Selecting(stale), 1 := Chosen(other, next, o.codec.Hash(next))];
    var m2 := OtherEnds(o, s1, k, Selecting(stale), other, tie);
    RunFromAppend(o, s, m1, m2);
    more := m1 + m2;
  }

  lemma OtherEnds(o: Outside, s: System, k: ItemKey, stale: Task, other: Envelope, tie: TieBreak) returns (more: seq<SystemStep>)
    requires o.codec.Lawful() && Waiting(s, k)
    requires var next := Event(s, k, 2);
             Now(o, s, s, k, 2, map[0 := stale, 1 := Chosen(other, next, o.codec.Hash(next))])
    ensures NoCommands(more)
    ensures Now(o, s, RunFrom(o, s, more), k, 2, map[0 := stale]) && Waiting(RunFrom(o, s, more), k)
  {
    hide SystemInv, RunFrom, Codec.Hash, InHistory, RecordClean, R.RecordOf;
    EventFacts(o, s, k, 2);
    more := ApplyWork(o, s, k, 1, other, Event(s, k, 2), tie);
    assert s.desk.tasks - {1} == map[0 := stale];
  }

  /** The stale delivery dies; delivering its event again only records another gap. */
  lemma StaleDies(o: Outside, s: System, k: ItemKey, tie: TieBreak) returns (more: seq<SystemStep>)
    requires o.codec.Lawful() && Waiting(s, k) && Now(o, s, s, k, 2, map[0 := Selecting(Event(s, k, 4))])
    ensures NoCommands(more)
    ensures Now(o, s, RunFrom(o, s, more), k, 2, map[]) && Waiting(RunFrom(o, s, more), k)
  {
    hide SystemInv, RunFrom, Commit, Select, Apply;
    var crash := Consume(DeskStep.Crash(0));
    FirstStep(o, s, crash);
    StepKeepsInv(o, s, crash);
    var s1 := EndToEnd.Step(o, s, crash);
    assert s1.desk.tasks == map[] && s1.desk.failed == {Event(s, k, 4).eventId} && s1.desk.db == s.desk.db;
    var again := ReplayEvent(o, s1, k, 4, 0, tie);
    RunFromAppend(o, s, [crash], again);
    more := [crash] + again;
  }

  /**
   From every state of the composed system in which nothing is under way, nothing has failed and an item is projected
   at its fourth event or later, a reset during a delivery of that event leads to a state in which again nothing is
   under way and nothing has failed, yet the item stays at its second event with the third one waiting.
   */
  lemma LoudResetStrands(o: Outside, steps: seq<SystemStep>, k: ItemKey, tie: TieBreak) returns (more: seq<SystemStep>)
    requires o.codec.Lawful() && Steps(steps)
    requires RunSystem(o, steps).desk.tasks == map[] && RunSystem(o, steps).desk.failed == {}
    requires Version(RunSystem(o, steps), k) >= 4
    ensures NoCommands(more) && Steps(steps + more)
    ensures var s := RunSystem(o, steps + more);
            && s.ledger == RunSystem(o, steps).ledger
            && s.desk.tasks == map[] && s.desk.failed == {} && Version(s, k) == 2
            && NextWaits(s.ledger.history, s.desk.db, k) && !Outstanding(o.codec, s.ledger.history, s.desk, k)
  {
    hide RunSystem, RunFrom, SystemInv, Responsible;
    RunKeepsInv(o, steps);
    var s := RunSystem(o, steps);
    ProjectedIsLong(o, s, k);
    var m1 := ResetDuringDelivery(o, s, k, tie);
    var s1 := RunFrom(o, s, m1);
    var m2 := GapsThenFirst(o, s1, k, Selecting(Event(s, k, 4)), tie);
    var s2 := RunFrom(o, s1, m2);
    var m3 := BothSelect(o, s2, k, tie);
    var s3 := RunFrom(o, s2, m3);
    var m4 := StaleWins(o, s3, k, Event(s, k, 4), Event(s, k, 1), tie);
    var s4 := RunFrom(o, s3, m4);
    var m5 := StaleDies(o, s4, k, tie);
    RunFromAppend(o, s, m1, m2);
    RunFromAppend(o, s, m1 + m2, m3);
    RunFromAppend(o, s, m1 + m2 + m3, m4);
    RunFromAppend(o, s, m1 + m2 + m3 + m4, m5);
    more := m1 + m2 + m3 + m4 + m5;
    RunSystemFrom(o, steps, more);
    NobodyResponsible(o.codec, RunFrom(o, s4, m5).desk, k);
  }

  lemma ProjectedIsLong(o: Outside, s: System, k: ItemKey)
    requires SystemInv(o, s) && Version(s, k) >= 4
    ensures Long(s, k, 4)
  {
    hide LedgerInv, LogClean, R.RelayInv, R.NoneQuarantined, RowClean, HopClean;
    assert ItemClean(s.ledger.history, s.desk.db, k);
  }

  lemma NobodyResponsible(c: Codec, d: Desk, k: ItemKey)
    requires d.tasks == map[]
    ensures forall t :: !Responsible(c, d, k, t)
  {
  }
}
