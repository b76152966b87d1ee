/**
 Rest can be reached: from every state of the composed system some relay and delivery steps lead to a state in which
 everything is published, delivered and acknowledged.
 */
module Progress {
  import opened Events
  import opened Projection
  import opened Convergence
  import opened Source
  import opened SourceInvariant
  import opened Interleaving
  import opened DeskConvergence
  import opened EndToEnd
  import opened AtRest
  import R = Relay

  // --- continuing a run ------------------------------------------------------------------------------

  /** Relay steps, deliveries and operations of deliveries under way: no command, no reset. */
  predicate Forward(step: SystemStep) { step.Relay? || step.Deliver? || step.Consume? }

  predicate NoCommands(more: seq<SystemStep>) { forall i | 0 <= i < |more| :: !more[i].Erp? }

  predicate AllForward(more: seq<SystemStep>) { NoCommands(more) && forall i | 0 <= i < |more| :: Forward(more[i]) }

  ghost function RunFrom(o: Outside, s: System, more: seq<SystemStep>): System
    requires NoCommands(more)
  {
    if more == [] then s else EndToEnd.Step(o, RunFrom(o, s, more[..|more| - 1]), more[|more| - 1])
  }

  lemma {:induction false} RunFromAppend(o: Outside, s: System, a: seq<SystemStep>, b: seq<SystemStep>)
    requires NoCommands(a) && NoCommands(b)
    ensures NoCommands(a + b) && RunFrom(o, s, a + b) == RunFrom(o, RunFrom(o, s, a), b)
  {
    hide EndToEnd.Step;
    if b == [] {
      assert a + b == a;
    } else {
      assert (a + b)[..|a + b| - 1] == a + b[..|b| - 1];
      RunFromAppend(o, s, a, b[..|b| - 1]);
    }
  }

  lemma {:induction false} RunSystemFrom(o: Outside, steps: seq<SystemStep>, more: seq<SystemStep>)
    requires Steps(steps) && NoCommands(more)
    ensures Steps(steps + more) && RunSystem(o, steps + more) == RunFrom(o, RunSystem(o, steps), more)
  {
    hide EndToEnd.Step;
    assert Steps(steps + more) by {
      forall i | 0 <= i < |steps + more| ensures (steps + more)[i].Erp? ==> StepOk((steps + more)[i].source) {
        if i >= |steps| {
          assert (steps + more)[i] == more[i - |steps|];
        } else {
          assert (steps + more)[i] == steps[i];
        }
      }
    }
    if more == [] {
      assert steps + more == steps;
    } else {
      assert (steps + more)[..|steps + more| - 1] == steps + more[..|more| - 1];
      RunSystemFrom(o, steps, more[..|more| - 1]);
    }
  }

  lemma {:induction false} RunFromKeepsInv(o: Outside, s: System, more: seq<SystemStep>)
    requires o.codec.Lawful() && SystemInv(o, s) && NoCommands(more)
    ensures SystemInv(o, RunFrom(o, s, more))
  {
    hide EndToEnd.Step, SystemInv;
    if more != [] {
      RunFromKeepsInv(o, s, more[..|more| - 1]);
      StepKeepsInv(o, RunFrom(o, s, more[..|more| - 1]), more[|more| - 1]);
    }
  }

  lemma QuietForward(o: Outside, steps: seq<SystemStep>, more: seq<SystemStep>)
    requires Steps(steps) && QuietResets(o, steps) && AllForward(more) && Steps(steps + more)
    ensures QuietResets(o, steps + more)
  {
    hide RunSystem, Quiet;
    var all := steps + more;
    forall i | 0 <= i < |all| ensures QuietAt(o, all, i) {
      if i < |steps| {
        assert QuietAt(o, steps, i);
        assert all[..i] == steps[..i];
      } else {
        assert Forward(more[i - |steps|]);
      }
    }
  }

  // --- publishing ------------------------------------------------------------------------------------

  function RelaySteps(steps: seq<R.RelayStep>): (more: seq<SystemStep>)
    ensures |more| == |steps| && AllForward(more)
    ensures forall i | 0 <= i < |steps| :: more[i] == Relay(steps[i])
  {
    seq(|steps|, i requires 0 <= i < |steps| => Relay(steps[i]))
  }

  lemma {:induction false} RelayRuns(o: Outside, s: System, steps: seq<R.RelayStep>)
    ensures RunFrom(o, s, RelaySteps(steps)) == WithRelay(s, R.RunRelay(o.codec, RelayOf(s), steps))
  {
    hide R.Next;
    if steps != [] {
      var init := steps[..|steps| - 1];
      RelayRuns(o, s, init);
      assert RelaySteps(steps)[..|steps| - 1] == RelaySteps(init);
      var r := R.RunRelay(o.codec, RelayOf(s), init);
      assert RelayOf(WithRelay(s, r)) == r;
    }
  }

  function Unpublished(outbox: map<string, OutboxRow>): set<string> {
    set id | id in outbox && outbox[id].status != Published
  }

  /** One more row published, everything else but the relay's own state as it was. */
  lemma PublishRow(o: Outside, s: System, id: string) returns (more: seq<SystemStep>)
    requires o.codec.Lawful() && SystemInv(o, s) && id in Unpublished(s.ledger.source.outbox)
    ensures AllForward(more)
    ensures var s' := RunFrom(o, s, more);
            && s'.desk == s.desk
            && Unpublished(s'.ledger.source.outbox) == Unpublished(s.ledger.source.outbox) - {id}
  {
    hide LedgerInv, LogClean, DeskClean, R.RelayInv, R.RunRelay, R.Refusal;
    var r := RelayOf(s);
    OutboxPublishable(o, s.ledger);
    assert r.outbox[id].status != Quarantined;
    var steps := R.PublishAlone(o.codec, r, id);
    more := RelaySteps(steps);
    RelayRuns(o, s, steps);
  }

  lemma {:induction false} PublishAll(o: Outside, s: System) returns (more: seq<SystemStep>)
    requires o.codec.Lawful() && SystemInv(o, s)
    ensures AllForward(more)
    ensures RunFrom(o, s, more).desk == s.desk && Unpublished(RunFrom(o, s, more).ledger.source.outbox) == {}
    decreases |Unpublished(s.ledger.source.outbox)|
  {
    hide SystemInv, RunFrom;
    if Unpublished(s.ledger.source.outbox) == {} {
      more := [];
      RunNothing(o, s);
    } else {
      var id :| id in Unpublished(s.ledger.source.outbox);
      var first := PublishRow(o, s, id);
      RunFromKeepsInv(o, s, first);
      var rest := PublishAll(o, RunFrom(o, s, first));
      RunFromAppend(o, s, first, rest);
      more := first + rest;
    }
  }

  lemma RunNothing(o: Outside, s: System)
    ensures RunFrom(o, s, []) == s
  {
  }

  // --- leases ------------------------------------------------------------------------------------------

  /** No claim of the run asked for a longer lease. */
  predicate LeasesUpTo(steps: seq<SystemStep>, bound: int) {
    forall i | 0 <= i < |steps| && steps[i].Relay? && steps[i].relay.Claim? :: steps[i].relay.ttl <= bound
  }

  lemma {:induction false} RunKeepsLeases(o: Outside, steps: seq<SystemStep>, bound: int)
    requires Steps(steps) && LeasesUpTo(steps, bound) && bound >= 60 * R.MILLIS_PER_SECOND
    ensures R.LeasesBounded(RelayOf(RunSystem(o, steps)), bound)
  {
    hide R.Next, Advance, Interleaving.Step, ResetDesk;
    if steps != [] {
      RunKeepsLeases(o, steps[..|steps| - 1], bound);
      var s := RunSystem(o, steps[..|steps| - 1]);
      match steps[|steps| - 1]
      case Erp(source) =>
        AdvanceOutbox(o, s.ledger, source);
      case Relay(relay) =>
        R.NextKeepsBound(o.codec, RelayOf(s), relay, bound);
        assert RelayOf(WithRelay(s, R.Next(o.codec, RelayOf(s), relay))) == R.Next(o.codec, RelayOf(s), relay);
      case _ =>
    }
  }

  /**
   In every state of the composed system, every outbox row, whenever it was written, is published with its exact bytes
   in the log under its key, or can be leased by any owner once the longest lease has passed.
   */
  lemma EveryRowGetsItsTurn(o: Outside, steps: seq<SystemStep>, bound: int, id: string, worker: nat, owner: string)
    requires o.codec.Lawful() && Steps(steps) && LeasesUpTo(steps, bound) && bound >= 60 * R.MILLIS_PER_SECOND
    requires id in RunSystem(o, steps).ledger.source.outbox && worker !in RunSystem(o, steps).workers && owner != ""
    ensures var s := RunSystem(o, steps);
            if s.ledger.source.outbox[id].status == Published then R.RecordOf(s.ledger.source.outbox[id]) in s.log
            else
              var later := R.Next(o.codec, R.Next(o.codec, RelayOf(s), R.Tick(bound)), R.Claim(worker, owner, [id], 1));
              R.Holds(later.outbox, id, owner)
  {
    hide RunSystem, LedgerInv, LogClean, DeskClean, R.Next, R.RecordOf, R.LeasesBounded, R.Holds, R.WorkerSound;
    RunKeepsInv(o, steps);
    RunKeepsLeases(o, steps, bound);
    var s := RunSystem(o, steps);
    if s.ledger.source.outbox[id].status != Published {
      assert s.ledger.source.outbox[id].status != Quarantined;
      R.ClaimedLater(o.codec, RelayOf(s), bound, id, worker, owner);
    }
  }

  // --- deliveries ------------------------------------------------------------------------------------

  function DeskSteps(steps: seq<DeskStep>): (more: seq<SystemStep>)
    ensures |more| == |steps| && AllForward(more)
    ensures forall i | 0 <= i < |steps| :: more[i] == Consume(steps[i])
  {
    seq(|steps|, i requires 0 <= i < |steps| => Consume(steps[i]))
  }

  lemma {:induction false} DeskRuns(o: Outside, s: System, steps: seq<DeskStep>)
    requires forall i | 0 <= i < |steps| :: !steps[i].Fetch?
    ensures RunFrom(o, s, DeskSteps(steps)) == s.(desk := RunDesk(o.codec, s.desk, steps))
  {
    hide Interleaving.Step;
    if steps != [] {
      var init := steps[..|steps| - 1];
      DeskRuns(o, s, init);
      assert DeskSteps(steps)[..|steps| - 1] == DeskSteps(init);
    }
  }

  /** Every delivery under way can be dropped. */
  lemma {:induction false} DropAll(o: Outside, s: System) returns (more: seq<SystemStep>)
    requires o.codec.Lawful() && SystemInv(o, s)
    ensures AllForward(more)
    ensures var s' := RunFrom(o, s, more);
            s'.ledger == s.ledger && s'.log == s.log && s'.desk.tasks == map[]
    decreases |s.desk.tasks|
  {
    hide SystemInv, RunDesk, ProcessValidated;
    if s.desk.tasks == map[] {
      more := [];
      RunNothing(o, s);
    } else {
      assert s.desk.tasks.Keys != {};
      var t :| t in s.desk.tasks;
      var drop := [Crash(t)];
      DeskRuns(o, s, drop);
      DropOne(o.codec, s.desk, t);
      var s1 := RunFrom(o, s, DeskSteps(drop));
      RunFromKeepsInv(o, s, DeskSteps(drop));
      TasksShrink(s.desk.tasks, t);
      var rest := DropAll(o, s1);
      RunFromAppend(o, s, DeskSteps(drop), rest);
      more := DeskSteps(drop) + rest;
    }
  }

  lemma DropOne(c: Codec, d: Desk, t: nat)
    requires t in d.tasks
    ensures RunDesk(c, d, [Crash(t)]).tasks == d.tasks - {t}
  {
    hide ProcessValidated;
    RunFirst(c, d, Crash(t), []);
    assert [Crash(t)] + [] == [Crash(t)];
  }

  lemma TasksShrink(tasks: map<nat, Task>, t: nat)
    requires t in tasks
    ensures |tasks - {t}| < |tasks|
  {
    assert (tasks - {t}).Keys == tasks.Keys - {t};
    assert |tasks - {t}| == |(tasks - {t}).Keys| && |tasks| == |tasks.Keys|;
  }

  lemma {:induction false} AloneOnlyWorks(t: nat, n: nat, tie: TieBreak)
    ensures forall i | 0 <= i < |Alone(t, n, tie)| :: !Alone(t, n, tie)[i].Fetch?
  {
    if n > 0 {
      AloneOnlyWorks(t, n - 1, tie);
    }
  }

  function IdOf(c: Codec, r: R.Record): string { if c.parse(r.value).Ok? then c.parse(r.value).value.eventId else "" }

  /** Delivering one record, with every database operation succeeding, takes its id off the failed ones. */
  lemma DeliverRecord(o: Outside, s: System, i: nat, tie: TieBreak) returns (more: seq<SystemStep>)
    requires o.codec.Lawful() && SystemInv(o, s) && i < |s.log| && s.desk.tasks == map[]
    ensures AllForward(more)
    ensures var s' := RunFrom(o, s, more);
            && s'.ledger == s.ledger && s'.log == s.log && s'.desk.tasks == map[]
            && s'.desk.delivered == s.desk.delivered + {IdOf(o.codec, s.log[i])}
            && s'.desk.failed == s.desk.failed - {IdOf(o.codec, s.log[i])}
  {
    hide LedgerInv, R.RelayInv, R.NoneQuarantined, ProcessRecord, RunDesk, Alone, CleanDb, InHistory, AggregateKey, LogClean;
    var c := o.codec;
    LogRecord(o, s, i);
    InvClean(o, s.ledger);
    var r := s.log[i];
    var e := c.parse(r.value).value;
    var pos := Position(0, i);
    var budget := 2 * |s.desk.db.inbox| + 4;
    var d := DeliveryOf(c, Arrival(e, pos, budget, tie));
    EnoughBudgetAcks(c, s.ledger.history, s.desk.db, Arrival(e, pos, budget, tie));
    AloneIsProcessRecord(c, s.desk, 0, d);
    var fetch, work := Fetch(0, d.key, d.value, d.pos, d.probe), Alone(0, budget, tie);
    more := [Deliver(0, i, pos)] + DeskSteps(work);
    var s1 := s.(desk := Interleaving.Step(c, s.desk, fetch));
    FirstStep(o, s, Deliver(0, i, pos));
    assert EndToEnd.Step(o, s, Deliver(0, i, pos)) == s1;
    RunFromAppend(o, s, [Deliver(0, i, pos)], DeskSteps(work));
    AloneOnlyWorks(0, budget, tie);
    DeskRuns(o, s1, work);
    RunFirst(c, s.desk, fetch, work);
  }

  lemma FirstStep(o: Outside, s: System, step: SystemStep)
    requires !step.Erp?
    ensures NoCommands([step]) && RunFrom(o, s, [step]) == EndToEnd.Step(o, s, step)
  {
    hide EndToEnd.Step;
    assert [step][..0] == [];
  }

  function LogIds(c: Codec, log: seq<R.Record>, n: nat): set<string>
    requires n <= |log|
  {
    set i | 0 <= i < n :: IdOf(c, log[i])
  }

  /** Delivering the first `n` records of the log one after another. */
  lemma {:induction false} DeliverLog(o: Outside, s: System, n: nat, tie: TieBreak) returns (more: seq<SystemStep>)
    requires o.codec.Lawful() && SystemInv(o, s) && n <= |s.log| && s.desk.tasks == map[]
    ensures AllForward(more)
    ensures var s' := RunFrom(o, s, more);
            && s'.ledger == s.ledger && s'.log == s.log && s'.desk.tasks == map[]
            && LogIds(o.codec, s.log, n) <= s'.desk.delivered
            && s'.desk.failed == s.desk.failed - LogIds(o.codec, s.log, n)
  {
    hide SystemInv, RunFrom, IdOf;
    if n == 0 {
      more := [];
      RunNothing(o, s);
    } else {
      var first := DeliverLog(o, s, n - 1, tie);
      var s1 := RunFrom(o, s, first);
      RunFromKeepsInv(o, s, first);
      var last := DeliverRecord(o, s1, n - 1, tie);
      RunFromAppend(o, s, first, last);
      more := first + last;
      LogIdsNext(o.codec, s.log, n - 1);
    }
  }

  lemma LogIdsNext(c: Codec, log: seq<R.Record>, n: nat)
    requires n < |log|
    ensures LogIds(c, log, n + 1) == LogIds(c, log, n) + {IdOf(c, log[n])}
  {
    hide IdOf;
  }

  // --- rest ------------------------------------------------------------------------------------------

  /** With everything published, every id in the books is in the log. */
  lemma BooksInLog(o: Outside, s: System, id: string)
    requires o.codec.Lawful() && SystemInv(o, s) && Unpublished(s.ledger.source.outbox) == {} && id in s.ledger.source.outbox
    ensures id in LogIds(o.codec, s.log, |s.log|)
  {
    hide LedgerInv, LogClean, DeskClean, R.NoneQuarantined, R.RecordOf, R.WorkerSound;
    var row := s.ledger.source.outbox[id];
    assert row.status == Published by {
      assert id !in Unpublished(s.ledger.source.outbox);
    }
    RowRecord(o, s.ledger, row, id);
    RecordBytes(row);
    var i :| 0 <= i < |s.log| && s.log[i] == R.RecordOf(row);
    assert IdOf(o.codec, s.log[i]) == id;
  }

  /**
   From every state of the composed system there are relay and delivery steps after which everything is published, every
   record delivered, no delivery failed and none under way.
   */
  lemma ComesToRest(o: Outside, steps: seq<SystemStep>, tie: TieBreak) returns (more: seq<SystemStep>)
    requires o.codec.Lawful() && Steps(steps)
    ensures AllForward(more) && Steps(steps + more)
    ensures Quiescent(o.codec, RunSystem(o, steps + more))
    ensures QuietResets(o, steps) ==> QuietResets(o, steps + more)
  {
    hide RunSystem, RunFrom, SystemInv, QuietResets, LogIds;
    RunKeepsInv(o, steps);
    var s := RunSystem(o, steps);
    var publish := PublishAll(o, s);
    RunFromKeepsInv(o, s, publish);
    var s1 := RunFrom(o, s, publish);
    var drop := DropAll(o, s1);
    RunFromKeepsInv(o, s1, drop);
    var s2 := RunFrom(o, s1, drop);
    var deliver := DeliverLog(o, s2, |s2.log|, tie);
    RunFromKeepsInv(o, s2, deliver);
    var s3 := RunFrom(o, s2, deliver);
    RunFromAppend(o, s, publish, drop);
    RunFromAppend(o, s, publish + drop, deliver);
    more := publish + drop + deliver;
    RunSystemFrom(o, steps, more);
    DeliveredIsRest(o, s2, s3);
    if QuietResets(o, steps) {
      QuietForward(o, steps, more);
    }
  }

  lemma DeliveredIsRest(o: Outside, s: System, s': System)
    requires o.codec.Lawful() && SystemInv(o, s) && SystemInv(o, s')
    requires s'.ledger == s.ledger && s'.log == s.log && s'.desk.tasks == map[]
    requires Unpublished(s.ledger.source.outbox) == {}
    requires LogIds(o.codec, s.log, |s.log|) <= s'.desk.delivered
    requires s'.desk.failed == s.desk.failed - LogIds(o.codec, s.log, |s.log|)
    ensures Quiescent(o.codec, s')
  {
    hide LedgerInv, LogClean, DeskClean, R.NoneQuarantined, R.RelayInv;
    forall id | id in s'.ledger.source.outbox ensures s'.ledger.source.outbox[id].status == Published {
      assert id !in Unpublished(s.ledger.source.outbox);
    }
    forall id | id in s.desk.failed ensures id in LogIds(o.codec, s.log, |s.log|) {
      BooksInLog(o, s, id);
    }
    forall i | 0 <= i < |s'.log| && o.codec.parse(s'.log[i].value).Ok?
      ensures o.codec.parse(s'.log[i].value).value.eventId in s'.desk.delivered
    {
      assert IdOf(o.codec, s.log[i]) in LogIds(o.codec, s.log, |s.log|);
    }
  }
}
