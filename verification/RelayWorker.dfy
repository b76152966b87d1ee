/**
 One relay worker as it runs among others: select and lease the due rows, then publish and settle them row by row,
 counting outcomes. Between any two of its operations the other workers and the clock may take any steps. A drain is
 a run of the lease protocol's steps, so everything proved of the protocol holds of it.
 */
module RelayWorker {
  import opened Events
  import opened Source
  import R = Relay

  const NANOS_PER_MILLI: int := 1000000
  const DEFAULT_LEASE_NANOS: int := 30000 * NANOS_PER_MILLI

  datatype PublishOutcome = WasPublished | WasTransient | WasQuarantined | WasAmbiguous | Failed

  datatype DrainResult = DrainResult(claimed: nat, published: nat, transient: nat, quarantined: nat, ambiguous: nat)

  datatype DrainEnd = Drained | UpdateFailed | NoOwner

  /**
   One turn of the loop: what the others do before the publish, what the broker does with it (append it or not, and
   answer or fail), and what the others do before the status update.
   */
  datatype Turn = Turn(before: seq<R.RelayStep>, appended: bool, acked: bool, between: seq<R.RelayStep>)

  // --- selection -------------------------------------------------------------------------------------

  /** The lease in whole milliseconds; a missing one is the default. */
  function LeaseMillis(nanos: int): nat {
    (if nanos <= 0 then DEFAULT_LEASE_NANOS else nanos) / NANOS_PER_MILLI
  }

  function AtLeastOne(limit: int): nat { if limit < 1 then 1 else limit }

  /** Not published, not quarantined, and no lease or backoff runs. */
  predicate Free(row: OutboxRow, now: int) {
    && row.status != Published && row.status != Quarantined
    && (row.expires.Some? ==> now >= row.expires.value)
  }

  /** The row as the owner's lease leaves it, one attempt more. */
  predicate LeasedTo(row: OutboxRow, leased: OutboxRow, owner: string, expires: int) {
    && leased.status == Publishing && leased.owner == Some(owner) && leased.expires == Some(expires)
    && leased.attempts == row.attempts + 1 && leased.error == row.error && R.SameEvent(row, leased)
  }

  /** What a claim hands out: free rows, each under the owner's lease, and every free row unless the limit is reached. */
  ghost predicate ClaimedRows(outbox: map<string, OutboxRow>, order: seq<string>, now: int, owner: string, lease: int, limit: int,
                              ids: seq<string>, copies: seq<R.Copy>)
  {
    && |copies| == |ids| <= (if limit < 1 then 1 else limit)
    && (forall i | 0 <= i < |ids| ::
          && ids[i] in outbox && Free(outbox[ids[i]], now) && copies[i].id == ids[i]
          && LeasedTo(outbox[ids[i]], copies[i].row, owner, now + if lease <= 0 then 30000 else lease / 1000000))
    && (|ids| < limit ==> forall id | id in order && id in outbox && Free(outbox[id], now) :: id in ids)
  }

  /** A listing of outbox rows: each at most once. */
  ghost predicate Listing(outbox: map<string, OutboxRow>, order: seq<string>) {
    && (forall i | 0 <= i < |order| :: order[i] in outbox)
    && (forall i, j | 0 <= i < j < |order| :: order[i] != order[j])
  }

  /** The rows of a listing that are due, in its order. */
  function DueRows(outbox: map<string, OutboxRow>, order: seq<string>, now: int): seq<string> {
    if order == [] then []
    else
      var id := order[|order| - 1];
      DueRows(outbox, order[..|order| - 1], now) + if id in outbox && R.Due(outbox[id], now) then [id] else []
  }

  /** The selection is the due rows of a prefix of the listing, and stops only at the limit or at the end. */
  ghost predicate FirstDue(outbox: map<string, OutboxRow>, order: seq<string>, now: int, limit: nat, ids: seq<string>) {
    && |ids| <= limit
    && (exists k | 0 <= k <= |order| :: ids == DueRows(outbox, order[..k], now) && (|ids| == limit || k == |order|))
  }

  lemma {:induction false} DueRowsAre(outbox: map<string, OutboxRow>, order: seq<string>, now: int)
    requires Listing(outbox, order)
    ensures Listing(outbox, DueRows(outbox, order, now))
    ensures forall id :: id in DueRows(outbox, order, now) <==> id in order && id in outbox && R.Due(outbox[id], now)
  {
    if order != [] {
      var init, last := order[..|order| - 1], order[|order| - 1];
      DueRowsAre(outbox, init, now);
      assert order == init + [last];
      assert last !in init;
    }
  }

  lemma {:induction false} ClaimsTheSelected(outbox: map<string, OutboxRow>, ids: seq<string>, owner: string, now: int, ttl: nat)
    requires Listing(outbox, ids) && (forall i | 0 <= i < |ids| :: R.Due(outbox[ids[i]], now))
    ensures var copies := R.ClaimAll(outbox, ids, owner, now, ttl).copies;
            && |copies| == |ids|
            && (forall i | 0 <= i < |ids| :: copies[i] == R.Copy(ids[i], R.Leased(outbox[ids[i]], owner, now + ttl)))
  {
    if ids != [] {
      var init, last := ids[..|ids| - 1], ids[|ids| - 1];
      assert last !in init;
      ClaimsTheSelected(outbox, init, owner, now, ttl);
      R.ClaimAttempts(outbox, init, owner, now, ttl, last);
    }
  }

  lemma ClaimNothing(outbox: map<string, OutboxRow>, owner: string, now: int, ttl: nat)
    ensures R.ClaimAll(outbox, [], owner, now, ttl) == R.Claims(outbox, [])
  {
  }

  lemma ClaimNext(outbox: map<string, OutboxRow>, ids: seq<string>, i: nat, owner: string, now: int, ttl: nat)
    requires Listing(outbox, ids) && i < |ids| && R.Due(outbox[ids[i]], now)
    ensures var claims := R.ClaimAll(outbox, ids[..i], owner, now, ttl);
            && ids[i] in claims.outbox
            && var leased := R.ClaimOne(claims.outbox, ids[i], owner, now + ttl);
               R.ClaimAll(outbox, ids[..i + 1], owner, now, ttl)
               == R.Claims(leased, claims.copies + [R.Copy(ids[i], leased[ids[i]])])
  {
    hide R.Due;
    assert ids[..i + 1][..i] == ids[..i];
    assert ids[i] !in ids[..i];
    R.ClaimAttempts(outbox, ids[..i], owner, now, ttl, ids[i]);
  }

  // --- the steps of a drain ----------------------------------------------------------------------------

  predicate Names(step: R.RelayStep, worker: nat) {
    match step
    case Claim(w, _, _, _) => w == worker
    case Publish(w, _, _) => w == worker
    case Settle(w) => w == worker
    case Crash(w) => w == worker
    case _ => false
  }

  /** None of the steps is this worker's. */
  predicate Others(steps: seq<R.RelayStep>, worker: nat) {
    forall i | 0 <= i < |steps| :: !Names(steps[i], worker)
  }

  predicate TurnOfOthers(t: Turn, worker: nat) { Others(t.before, worker) && Others(t.between, worker) }

  function TurnSteps(worker: nat, t: Turn): seq<R.RelayStep> {
    t.before + [R.Publish(worker, t.appended, t.acked)] + t.between
  }

  function DrainSteps(worker: nat, turns: seq<Turn>): seq<R.RelayStep> {
    if turns == [] then []
    else DrainSteps(worker, turns[..|turns| - 1]) + TurnSteps(worker, turns[|turns| - 1]) + [R.Settle(worker)]
  }

  lemma {:induction false} RunAppend(c: Codec, s: R.Relay, a: seq<R.RelayStep>, b: seq<R.RelayStep>)
    ensures R.RunRelay(c, s, a + b) == R.RunRelay(c, R.RunRelay(c, s, a), b)
  {
    hide R.Next;
    if b == [] {
      assert a + b == a;
    } else {
      assert (a + b)[..|a + b| - 1] == a + b[..|b| - 1];
      RunAppend(c, s, a, b[..|b| - 1]);
    }
  }

  lemma RunOne(c: Codec, s: R.Relay, step: R.RelayStep)
    ensures R.RunRelay(c, s, [step]) == R.Next(c, s, step)
  {
    hide R.Next;
    assert [step][..0] == [];
  }

  function With(s: R.Relay, worker: nat, w: R.Worker): R.Relay {
    s.(workers := s.workers[worker := w])
  }

  /** What the others do is the same whether or not this worker is at work. */
  lemma OtherStep(c: Codec, s: R.Relay, step: R.RelayStep, worker: nat, w: R.Worker)
    requires !Names(step, worker) && worker !in s.workers
    ensures R.Next(c, With(s, worker, w), step) == With(R.Next(c, s, step), worker, w) && worker !in R.Next(c, s, step).workers
  {
    hide R.PublishStep, R.SettleStep, R.ClaimAll, R.ReleaseQuarantined;
    match step
    case Publish(other, appended, acked) =>
      OtherPublish(c, s, other, appended, acked, worker, w);
    case Settle(other) =>
      OtherSettle(s, other, worker, w);
    case Claim(other, owner, ids, ttl) =>
      assert other in With(s, worker, w).workers <==> other in s.workers;
      TwoWorkers(s.workers, other, R.Worker(owner, R.ClaimAll(s.outbox, ids, owner, s.now, ttl).copies, R.Claimed), worker, w);
    case Crash(other) =>
      assert s.workers[worker := w] - {other} == (s.workers - {other})[worker := w];
    case _ =>
  }

  lemma TwoWorkers(workers: map<nat, R.Worker>, a: nat, x: R.Worker, b: nat, y: R.Worker)
    requires a != b
    ensures workers[a := x][b := y] == workers[b := y][a := x]
  {
  }

  lemma OtherPublish(c: Codec, s: R.Relay, other: nat, appended: bool, acked: bool, worker: nat, w: R.Worker)
    requires other != worker && worker !in s.workers
    ensures R.PublishStep(c, With(s, worker, w), other, appended, acked)
         == With(R.PublishStep(c, s, other, appended, acked), worker, w)
    ensures worker !in R.PublishStep(c, s, other, appended, acked).workers
  {
    hide R.Refusal, R.RecordOf;
    if other in s.workers {
      TwoWorkers(s.workers, other, R.PublishStep(c, s, other, appended, acked).workers[other], worker, w);
    }
  }

  lemma OtherSettle(s: R.Relay, other: nat, worker: nat, w: R.Worker)
    requires other != worker && worker !in s.workers
    ensures R.SettleStep(With(s, worker, w), other) == With(R.SettleStep(s, other), worker, w)
    ensures worker !in R.SettleStep(s, other).workers
  {
    hide R.MarkPublished, R.ReleaseTransient, R.Quarantine;
    assert s.workers[worker := w] - {other} == (s.workers - {other})[worker := w];
    if other in s.workers && s.workers[other].queue != [] {
      TwoWorkers(s.workers, other, R.Pop(s.workers[other]), worker, w);
    }
  }

  lemma {:induction false} OthersRun(c: Codec, s: R.Relay, steps: seq<R.RelayStep>, worker: nat, w: R.Worker)
    requires Others(steps, worker) && worker !in s.workers
    ensures R.RunRelay(c, With(s, worker, w), steps) == With(R.RunRelay(c, s, steps), worker, w)
    ensures worker !in R.RunRelay(c, s, steps).workers
  {
    hide R.Next, With;
    if steps != [] {
      var init := steps[..|steps| - 1];
      OthersRun(c, s, init, worker, w);
      OtherStep(c, R.RunRelay(c, s, init), steps[|steps| - 1], worker, w);
    }
  }

  // --- outcomes ----------------------------------------------------------------------------------------

  /** The status update moved just this row, and to this status. */
  ghost predicate Moved(mid: map<string, OutboxRow>, after: map<string, OutboxRow>, id: string, status: Status,
                        error: Option<string>)
  {
    && id in mid && mid[id].status == Publishing && after.Keys == mid.Keys
    && R.SameEvent(mid[id], after[id]) && after[id].attempts == mid[id].attempts
    && after[id].status == status && after[id].owner == None && after[id].error == error
    && (forall other | other in mid && other != id :: after[other] == mid[other])
  }

  /** The lease is gone, or the release can no longer be computed. */
  predicate CannotRelease(mid: map<string, OutboxRow>, id: string, owner: string) {
    R.Holds(mid, id, owner) ==> mid[id].attempts >= 64
  }

  /**
   What an outcome says happened to the claimed row: `mid` is the outbox just before the status update and `after`
   just after it.
   */
  ghost predicate Happened(c: Codec, owner: string, copy: R.Copy, acked: bool, mid: map<string, OutboxRow>,
                           after: map<string, OutboxRow>, outcome: PublishOutcome)
  {
    var refusal := R.Refusal(c, copy.row);
    match outcome
    case WasQuarantined =>
      refusal.Some? && R.Holds(mid, copy.id, owner) && Moved(mid, after, copy.id, Quarantined, refusal)
    case WasTransient =>
      && refusal == None && !acked && R.Holds(mid, copy.id, owner)
      && Moved(mid, after, copy.id, Pending, Some("broker_publish_failed"))
    case WasPublished =>
      refusal == None && acked && R.Holds(mid, copy.id, owner) && Moved(mid, after, copy.id, Published, None)
    case WasAmbiguous =>
      refusal == None && acked && !R.Holds(mid, copy.id, owner) && after == mid
    case Failed =>
      && after == mid
      && if refusal.Some? then !R.Holds(mid, copy.id, owner) else !acked && CannotRelease(mid, copy.id, owner)
  }

  function Count(outcomes: seq<PublishOutcome>, outcome: PublishOutcome): nat {
    if outcomes == [] then 0
    else
      Count(outcomes[..|outcomes| - 1], outcome) + if outcomes[|outcomes| - 1] == outcome then 1 else 0
  }

  // --- one turn ----------------------------------------------------------------------------------------

  function StageAfter(c: Codec, copy: R.Copy, acked: bool): R.Stage {
    match R.Refusal(c, copy.row)
    case Some(code) => R.Refused(code)
    case None => if acked then R.BrokerAcked else R.BrokerFailed
  }

  function LogAfter(c: Codec, log: seq<R.Record>, copy: R.Copy, t: Turn): seq<R.Record> {
    if R.Refusal(c, copy.row) == None && (t.appended || t.acked) then log + [R.RecordOf(copy.row)] else log
  }

  /** The worker after the status update: on to its next row, or gone. */
  function Resumed(after: R.Relay, worker: nat, owner: string, rest: seq<R.Copy>, outcome: PublishOutcome): R.Relay {
    if outcome == Failed then after else With(after, worker, R.Worker(owner, rest, R.Claimed))
  }

  /** The status update is the protocol's settle step, whichever worker takes it and whatever it still has to do. */
  ghost predicate SettledAs(c: Codec, owner: string, copy: R.Copy, acked: bool, mid: R.Relay, after: R.Relay,
                            outcome: PublishOutcome)
  {
    forall worker: nat, rest: seq<R.Copy> | worker !in mid.workers ::
      R.SettleStep(With(mid, worker, R.Worker(owner, [copy] + rest, StageAfter(c, copy, acked))), worker)
      == Resumed(after, worker, owner, rest, outcome)
  }

  lemma TurnRuns(c: Codec, s: R.Relay, worker: nat, owner: string, copy: R.Copy, rest: seq<R.Copy>, t: Turn, after: R.Relay,
                 outcome: PublishOutcome)
    requires worker !in s.workers && TurnOfOthers(t, worker)
    requires var before := R.RunRelay(c, s, t.before);
             var mid := R.RunRelay(c, before.(log := LogAfter(c, before.log, copy, t)), t.between);
             SettledAs(c, owner, copy, t.acked, mid, after, outcome)
    ensures var start := With(s, worker, R.Worker(owner, [copy] + rest, R.Claimed));
            var before := R.RunRelay(c, s, t.before);
            var mid := R.RunRelay(c, before.(log := LogAfter(c, before.log, copy, t)), t.between);
            && R.RunRelay(c, start, TurnSteps(worker, t)).outbox == mid.outbox
            && R.RunRelay(c, start, TurnSteps(worker, t) + [R.Settle(worker)]) == Resumed(after, worker, owner, rest, outcome)
            && worker !in mid.workers
  {
    hide R.RunRelay, R.Next, R.PublishStep, R.SettleStep, R.Refusal, R.RecordOf;
    var w := R.Worker(owner, [copy] + rest, R.Claimed);
    var w' := R.Worker(owner, [copy] + rest, StageAfter(c, copy, t.acked));
    var publish := R.Publish(worker, t.appended, t.acked);
    var before := R.RunRelay(c, s, t.before);
    var sent := before.(log := LogAfter(c, before.log, copy, t));
    var mid := R.RunRelay(c, sent, t.between);
    OthersRun(c, s, t.before, worker, w);
    OthersRun(c, sent, t.between, worker, w');
    RunAppend(c, With(s, worker, w), t.before, [publish]);
    RunOne(c, With(before, worker, w), publish);
    PublishIs(c, before, worker, owner, copy, rest, t);
    RunAppend(c, With(s, worker, w), t.before + [publish], t.between);
    RunAppend(c, With(s, worker, w), TurnSteps(worker, t), [R.Settle(worker)]);
    RunOne(c, With(mid, worker, w'), R.Settle(worker));
    SettleIs(c, With(mid, worker, w'), worker);
  }

  lemma PublishIs(c: Codec, s: R.Relay, worker: nat, owner: string, copy: R.Copy, rest: seq<R.Copy>, t: Turn)
    ensures R.Next(c, With(s, worker, R.Worker(owner, [copy] + rest, R.Claimed)), R.Publish(worker, t.appended, t.acked))
         == With(s.(log := LogAfter(c, s.log, copy, t)), worker, R.Worker(owner, [copy] + rest, StageAfter(c, copy, t.acked)))
  {
    hide R.Refusal, R.RecordOf;
  }

  lemma SettleIs(c: Codec, s: R.Relay, worker: nat)
    ensures R.Next(c, s, R.Settle(worker)) == R.SettleStep(s, worker)
  {
    hide R.SettleStep;
  }

  /** At the i-th turn of the run, the outcome says what happened to the i-th claimed row. */
  ghost predicate HappenedAt(c: Codec, start: R.Relay, claim: R.RelayStep, turns: seq<Turn>, i: nat, outcome: PublishOutcome)
    requires claim.Claim? && i < |turns|
  {
    var copies := R.ClaimAll(start.outbox, claim.ids, claim.owner, start.now, claim.ttl).copies;
    var steps := [claim] + DrainSteps(claim.worker, turns[..i]) + TurnSteps(claim.worker, turns[i]);
    && i < |copies|
    && Happened(c, claim.owner, copies[i], turns[i].acked, R.RunRelay(c, start, steps).outbox,
                R.RunRelay(c, start, steps + [R.Settle(claim.worker)]).outbox, outcome)
  }

  lemma NextTurn(worker: nat, claim: R.RelayStep, turns: seq<Turn>, i: nat)
    requires i < |turns|
    ensures [claim] + DrainSteps(worker, turns[..i + 1])
         == [claim] + DrainSteps(worker, turns[..i]) + TurnSteps(worker, turns[i]) + [R.Settle(worker)]
    ensures [claim] + DrainSteps(worker, turns[..i + 1])
         == [claim] + DrainSteps(worker, turns[..i]) + (TurnSteps(worker, turns[i]) + [R.Settle(worker)])
  {
    assert turns[..i + 1][..i] == turns[..i];
  }

  /** The others take the steps before the publish, the record is sent, and they take the steps after it. */
  function Middle(c: Codec, s: R.Relay, copy: R.Copy, t: Turn): R.Relay {
    var before := R.RunRelay(c, s, t.before);
    R.RunRelay(c, before.(log := LogAfter(c, before.log, copy, t)), t.between)
  }

  /** One turn carries the run of the drain one turn on. */
  lemma TurnOfRun(c: Codec, start: R.Relay, claim: R.RelayStep, turns: seq<Turn>, i: nat, s: R.Relay, queue: seq<R.Copy>,
                  after: R.Relay, outcome: PublishOutcome)
    requires claim.Claim? && i < |turns| && TurnOfOthers(turns[i], claim.worker) && claim.worker !in s.workers && queue != []
    requires var copies := R.ClaimAll(start.outbox, claim.ids, claim.owner, start.now, claim.ttl).copies;
             i < |copies| && queue[0] == copies[i]
    requires R.RunRelay(c, start, [claim] + DrainSteps(claim.worker, turns[..i]))
          == With(s, claim.worker, R.Worker(claim.owner, queue, R.Claimed))
    requires SettledAs(c, claim.owner, queue[0], turns[i].acked, Middle(c, s, queue[0], turns[i]), after, outcome)
    requires Happened(c, claim.owner, queue[0], turns[i].acked, Middle(c, s, queue[0], turns[i]).outbox, after.outbox, outcome)
    ensures R.RunRelay(c, start, [claim] + DrainSteps(claim.worker, turns[..i + 1]))
         == Resumed(after, claim.worker, claim.owner, queue[1..], outcome)
    ensures HappenedAt(c, start, claim, turns, i, outcome)
    ensures claim.worker !in Middle(c, s, queue[0], turns[i]).workers
  {
    hide R.RunRelay, R.ClaimAll, Happened, SettledAs, LogAfter, TurnSteps, DrainSteps, TurnOfOthers, With, Resumed;
    var worker, done := claim.worker, [claim] + DrainSteps(claim.worker, turns[..i]);
    assert queue == [queue[0]] + queue[1..];
    TurnRuns(c, s, worker, claim.owner, queue[0], queue[1..], turns[i], after, outcome);
    ResumedTables(after, worker, claim.owner, queue[1..], outcome);
    RunAppend(c, start, done, TurnSteps(worker, turns[i]));
    RunAppend(c, start, done, TurnSteps(worker, turns[i]) + [R.Settle(worker)]);
    NextTurn(worker, claim, turns, i);
  }

  lemma ResumedTables(after: R.Relay, worker: nat, owner: string, rest: seq<R.Copy>, outcome: PublishOutcome)
    ensures Resumed(after, worker, owner, rest, outcome).outbox == after.outbox
  {
  }

  class Drainer {
    var outbox: map<string, OutboxRow>
    var log: seq<R.Record>
    var now: int
    var others: map<nat, R.Worker>

    constructor (outbox: map<string, OutboxRow>, now: int)
      ensures Tables() == R.Relay(outbox, [], now, map[])
    {
      this.outbox, this.log, this.now, this.others := outbox, [], now, map[];
    }

    /** The protocol state without this worker. */
    function Tables(): R.Relay
      reads this
    {
      R.Relay(outbox, log, now, others)
    }

    /** The others take their steps. */
    method Elsewhere(c: Codec, steps: seq<R.RelayStep>)
      modifies this
      ensures Tables() == R.RunRelay(c, old(Tables()), steps)
    {
      var s := R.RunRelay(c, Tables(), steps);
      outbox, log, now, others := s.outbox, s.log, s.now, s.workers;
    }

    /** The due rows of the listing, up to the limit. */
    method SelectDue(order: seq<string>, limit: nat) returns (ids: seq<string>)
      ensures FirstDue(outbox, order, now, limit, ids)
      ensures forall id | id in ids :: id in order && id in outbox && Free(outbox[id], now)
      ensures |ids| < limit ==> forall id | id in order && id in outbox && Free(outbox[id], now) :: id in ids
    {
      ids := [];
      var k := 0;
      while k < |order| && |ids| < limit
        invariant 0 <= k <= |order| && |ids| <= limit
        invariant ids == DueRows(outbox, order[..k], now)
        invariant forall id :: id in ids <==> id in order[..k] && id in outbox && Free(outbox[id], now)
      {
        assert order[..k + 1][..k] == order[..k] && order[..k + 1] == order[..k] + [order[k]];
        if order[k] in outbox && R.Due(outbox[order[k]], now) {
          ids := ids + [order[k]];
        }
        k := k + 1;
      }
      assert ids == DueRows(outbox, order[..k], now) && (|ids| == limit || k == |order|);
      assert k == |order| ==> order[..k] == order;
    }

    /**
     ClaimDue: lease the first due rows of `order`, the rows no other transaction has locked in created_at order.
     An empty owner is refused.
     */
    method ClaimDue(owner: string, lease: int, limit: int, order: seq<string>)
      returns (copies: seq<R.Copy>, ok: bool, ghost ids: seq<string>)
      requires Listing(outbox, order)
      modifies this`outbox
      ensures ok <==> owner != ""
      ensures !ok ==> outbox == old(outbox) && copies == []
      ensures ok ==> FirstDue(old(outbox), order, now, AtLeastOne(limit), ids)
      ensures ok ==> R.Claims(outbox, copies) == R.ClaimAll(old(outbox), ids, owner, now, LeaseMillis(lease))
      ensures ok ==> |copies| == |ids|
      ensures ok ==> ClaimedRows(old(outbox), order, now, owner, lease, limit, ids, copies)
    {
      hide R.Due, R.ClaimAll, R.Leased, FirstDue, Free, ClaimedRows, LeaseMillis, AtLeastOne, Listing;
      copies, ids, ok := [], [], owner != "";
      if !ok {
        return;
      }
      var selected := SelectDue(order, AtLeastOne(limit));
      ids := selected;
      SelectedIsListing(outbox, order, now, AtLeastOne(limit), ids);
      copies := LeaseAll(selected, owner, LeaseMillis(lease));
      ClaimsTheSelected(old(outbox), ids, owner, now, LeaseMillis(lease));
      SelectedAreClaimed(old(outbox), order, now, owner, lease, limit, ids, copies);
    }

    /** Lease the rows selected, one update each. */
    method LeaseAll(ids: seq<string>, owner: string, ttl: nat) returns (copies: seq<R.Copy>)
      requires Listing(outbox, ids) && (forall i | 0 <= i < |ids| :: R.Due(outbox[ids[i]], now))
      modifies this`outbox
      ensures R.Claims(outbox, copies) == R.ClaimAll(old(outbox), ids, owner, now, ttl)
    {
      hide R.ClaimAll, R.Due;
      copies := [];
      var i := 0;
      ClaimNothing(outbox, owner, now, ttl);
      while i < |ids|
        invariant 0 <= i <= |ids|
        invariant R.Claims(outbox, copies) == R.ClaimAll(old(outbox), ids[..i], owner, now, ttl)
      {
        var id := ids[i];
        ClaimNext(old(outbox), ids, i, owner, now, ttl);
        outbox := R.ClaimOne(outbox, id, owner, now + ttl);
        copies := copies + [R.Copy(id, outbox[id])];
        i := i + 1;
      }
      assert ids[..i] == ids;
    }

    method Update(next: Option<map<string, OutboxRow>>) returns (ok: bool)
      modifies this`outbox
      ensures ok == next.Some? && outbox == if next.Some? then next.value else old(outbox)
    {
      ok := next.Some?;
      if ok {
        outbox := next.value;
      }
    }

    /** publishOne: refuse or publish, then record the outcome under the lease, if it still is this owner's. */
    method PublishOne(c: Codec, owner: string, copy: R.Copy, t: Turn) returns (outcome: PublishOutcome, ghost mid: R.Relay)
      modifies this
      ensures mid == R.RunRelay(c, old(Tables()).(log := LogAfter(c, old(log), copy, t)), t.between)
      ensures Tables() == mid.(outbox := outbox)
      ensures Happened(c, owner, copy, t.acked, mid.outbox, outbox, outcome)
      ensures SettledAs(c, owner, copy, t.acked, mid, Tables(), outcome)
    {
      hide R.RunRelay, R.Refusal, R.RecordOf, R.MarkPublished, R.ReleaseTransient, R.Quarantine, Happened, SettledAs;
      var refusal := R.Refusal(c, copy.row);
      if refusal == None && (t.appended || t.acked) {
        log := log + [R.RecordOf(copy.row)];
      }
      Elsewhere(c, t.between);
      mid := Tables();
      UpdatesHappen(c, owner, copy, t.acked, mid);
      UpdatesSettle(c, owner, copy, t.acked, mid);
      if refusal.Some? {
        var ok := Update(R.Quarantine(outbox, copy.id, owner, refusal.value));
        outcome := if ok then WasQuarantined else Failed;
      } else if !t.acked {
        var ok := Update(R.ReleaseTransient(outbox, copy.id, owner, "broker_publish_failed", now));
        outcome := if ok then WasTransient else Failed;
      } else {
        var ok := Update(R.MarkPublished(outbox, copy.id, owner));
        outcome := if ok then WasPublished else WasAmbiguous;
      }
    }

    /**
     DrainOnce. An empty owner is refused. Otherwise the worker claims and then takes one turn per claimed row until
     a status update fails. The tables are those of the protocol after these steps and everything the others did, the
     counters count the outcomes, and each outcome says what happened to its row.
     */
    method DrainOnce(c: Codec, owner: string, lease: int, limit: int, order: seq<string>, turns: seq<Turn>, ghost worker: nat)
      returns (out: DrainResult, end: DrainEnd, ghost claim: R.RelayStep, ghost outcomes: seq<PublishOutcome>)
      requires Listing(outbox, order) && |turns| >= |order| && worker !in others
      requires forall i | 0 <= i < |turns| :: TurnOfOthers(turns[i], worker)
      modifies this
      ensures end == NoOwner <==> owner == ""
      ensures end == NoOwner ==> Tables() == old(Tables()) && out == DrainResult(0, 0, 0, 0, 0)
      ensures claim.Claim? && claim == R.Claim(worker, owner, claim.ids, LeaseMillis(lease))
      ensures end != NoOwner ==>
                && FirstDue(old(outbox), order, old(now), AtLeastOne(limit), claim.ids) && out.claimed == |claim.ids|
                && ClaimedRows(old(outbox), order, old(now), owner, lease, limit, claim.ids,
                               R.ClaimAll(old(outbox), claim.ids, owner, old(now), claim.ttl).copies)
      ensures |outcomes| <= out.claimed <= |turns|
      ensures out == DrainResult(out.claimed, Count(outcomes, WasPublished), Count(outcomes, WasTransient),
                                 Count(outcomes, WasQuarantined), Count(outcomes, WasAmbiguous))
      ensures forall i | 0 <= i < |outcomes| :: HappenedAt(c, old(Tables()), claim, turns, i, outcomes[i])
      ensures forall i | 0 <= i < |outcomes| :: outcomes[i] == Failed <==> end == UpdateFailed && i == |outcomes| - 1
      ensures end == Drained ==> |outcomes| == out.claimed
      ensures end == UpdateFailed ==> outcomes != []
      ensures end != NoOwner ==>
                var s := R.RunRelay(c, old(Tables()), [claim] + DrainSteps(worker, turns[..|outcomes|]));
                s == if end == Drained then With(Tables(), worker, R.Worker(owner, [], R.Claimed)) else Tables()
    {
      hide R.ClaimAll, R.RunRelay, Happened, HappenedAt, SettledAs, LogAfter, TurnSteps, DrainSteps, FirstDue, LeaseMillis,
           AtLeastOne, ClaimedRows, Listing, Count;
      ghost var start := Tables();
      CountNone();
      out, end, outcomes := DrainResult(0, 0, 0, 0, 0), Drained, [];
      var recs, ok, ids := ClaimDue(owner, lease, limit, order);
      claim := R.Claim(worker, owner, ids, LeaseMillis(lease));
      if !ok {
        end := NoOwner;
        return;
      }
      SelectedFits(old(outbox), order, now, AtLeastOne(limit), ids);
      out := DrainResult(|recs|, 0, 0, 0, 0);
      ClaimRuns(c, start, claim);
      var i := 0;
      assert turns[..0] == [] && recs[0..] == recs;
      while i < |recs|
        invariant 0 <= i <= |recs| == |ids| <= |turns| && |outcomes| == i && out.claimed == |recs|
        invariant end == Drained && worker !in others
        invariant out == DrainResult(|recs|, Count(outcomes, WasPublished), Count(outcomes, WasTransient),
                                     Count(outcomes, WasQuarantined), Count(outcomes, WasAmbiguous))
        invariant forall j | 0 <= j < i :: outcomes[j] != Failed && HappenedAt(c, start, claim, turns, j, outcomes[j])
        invariant R.RunRelay(c, start, [claim] + DrainSteps(worker, turns[..i]))
               == With(Tables(), worker, R.Worker(owner, recs[i..], R.Claimed))
      {
        ghost var s := Tables();
        Elsewhere(c, turns[i].before);
        var outcome, mid := PublishOne(c, owner, recs[i], turns[i]);
        assert mid == Middle(c, s, recs[i], turns[i]);
        TurnOfRun(c, start, claim, turns, i, s, recs[i..], Tables(), outcome);
        assert recs[i..][1..] == recs[i + 1..];
        CountsNext(outcomes, outcome);
        outcomes := outcomes + [outcome];
        match outcome {
          case WasPublished => out := out.(published := out.published + 1);
          case WasTransient => out := out.(transient := out.transient + 1);
          case WasQuarantined => out := out.(quarantined := out.quarantined + 1);
          case WasAmbiguous => out := out.(ambiguous := out.ambiguous + 1);
          case Failed =>
            end := UpdateFailed;
            return;
        }
        i := i + 1;
      }
      assert recs[i..] == [];
    }
  }

  lemma CountNone()
    ensures forall outcome :: Count([], outcome) == 0
  {
  }

  lemma CountsNext(outcomes: seq<PublishOutcome>, last: PublishOutcome)
    ensures forall outcome :: Count(outcomes + [last], outcome) == Count(outcomes, outcome) + if last == outcome then 1 else 0
  {
    assert (outcomes + [last])[..|outcomes|] == outcomes;
  }

  lemma ClaimRuns(c: Codec, start: R.Relay, claim: R.RelayStep)
    requires claim.Claim? && claim.worker !in start.workers && claim.owner != ""
    ensures var claims := R.ClaimAll(start.outbox, claim.ids, claim.owner, start.now, claim.ttl);
            R.RunRelay(c, start, [claim] + DrainSteps(claim.worker, []))
            == With(start.(outbox := claims.outbox), claim.worker, R.Worker(claim.owner, claims.copies, R.Claimed))
  {
    hide R.ClaimAll, R.RunRelay;
    assert [claim] + DrainSteps(claim.worker, []) == [claim];
    RunOne(c, start, claim);
  }

  lemma {:induction false} DueRowsFit(outbox: map<string, OutboxRow>, order: seq<string>, now: int)
    ensures |DueRows(outbox, order, now)| <= |order|
  {
    if order != [] {
      DueRowsFit(outbox, order[..|order| - 1], now);
    }
  }

  lemma SelectedFits(outbox: map<string, OutboxRow>, order: seq<string>, now: int, limit: nat, ids: seq<string>)
    requires FirstDue(outbox, order, now, limit, ids)
    ensures |ids| <= |order|
  {
    hide DueRows;
    var k :| 0 <= k <= |order| && ids == DueRows(outbox, order[..k], now);
    DueRowsFit(outbox, order[..k], now);
  }

  lemma SelectedIsListing(outbox: map<string, OutboxRow>, order: seq<string>, now: int, limit: nat, ids: seq<string>)
    requires Listing(outbox, order) && FirstDue(outbox, order, now, limit, ids)
    ensures Listing(outbox, ids) && (forall i | 0 <= i < |ids| :: R.Due(outbox[ids[i]], now))
  {
    hide R.Due, DueRows;
    var k :| 0 <= k <= |order| && ids == DueRows(outbox, order[..k], now);
    DueRowsAre(outbox, order[..k], now);
    forall i | 0 <= i < |ids| ensures R.Due(outbox[ids[i]], now) {
      assert ids[i] in ids;
    }
  }

  lemma SelectedAreClaimed(outbox: map<string, OutboxRow>, order: seq<string>, now: int, owner: string, lease: int, limit: int,
                           ids: seq<string>, copies: seq<R.Copy>)
    requires |copies| == |ids| <= AtLeastOne(limit)
    requires forall id | id in ids :: id in outbox && Free(outbox[id], now)
    requires |ids| < AtLeastOne(limit) ==> forall id | id in order && id in outbox && Free(outbox[id], now) :: id in ids
    requires forall i | 0 <= i < |ids| ::
               ids[i] in outbox && copies[i] == R.Copy(ids[i], R.Leased(outbox[ids[i]], owner, now + LeaseMillis(lease)))
    ensures ClaimedRows(outbox, order, now, owner, lease, limit, ids, copies)
  {
    hide Free;
    forall i | 0 <= i < |ids| ensures Free(outbox[ids[i]], now) {
      assert ids[i] in ids;
    }
  }

  /** What each guarded update does when it matches, and when it does not. */
  lemma UpdatesHappen(c: Codec, owner: string, copy: R.Copy, acked: bool, mid: R.Relay)
    ensures var refusal := R.Refusal(c, copy.row);
            var quarantine := R.Quarantine(mid.outbox, copy.id, owner, if refusal.Some? then refusal.value else "");
            refusal.Some? ==>
              Happened(c, owner, copy, acked, mid.outbox, if quarantine.Some? then quarantine.value else mid.outbox,
                       if quarantine.Some? then WasQuarantined else Failed)
    ensures var release := R.ReleaseTransient(mid.outbox, copy.id, owner, "broker_publish_failed", mid.now);
            R.Refusal(c, copy.row) == None && !acked ==>
              Happened(c, owner, copy, acked, mid.outbox, if release.Some? then release.value else mid.outbox,
                       if release.Some? then WasTransient else Failed)
    ensures var mark := R.MarkPublished(mid.outbox, copy.id, owner);
            R.Refusal(c, copy.row) == None && acked ==>
              Happened(c, owner, copy, acked, mid.outbox, if mark.Some? then mark.value else mid.outbox,
                       if mark.Some? then WasPublished else WasAmbiguous)
  {
    hide R.Refusal, R.SqlBackoff;
    if copy.id in mid.outbox {
      R.BackoffAgrees(mid.outbox[copy.id].attempts);
    }
  }

  /** Each guarded update is the settle step of the stage it follows. */
  lemma UpdatesSettle(c: Codec, owner: string, copy: R.Copy, acked: bool, mid: R.Relay)
    ensures var refusal := R.Refusal(c, copy.row);
            var quarantine := R.Quarantine(mid.outbox, copy.id, owner, if refusal.Some? then refusal.value else "");
            refusal.Some? ==>
              SettledAs(c, owner, copy, acked, mid, mid.(outbox := if quarantine.Some? then quarantine.value else mid.outbox),
                        if quarantine.Some? then WasQuarantined else Failed)
    ensures var release := R.ReleaseTransient(mid.outbox, copy.id, owner, "broker_publish_failed", mid.now);
            R.Refusal(c, copy.row) == None && !acked ==>
              SettledAs(c, owner, copy, acked, mid, mid.(outbox := if release.Some? then release.value else mid.outbox),
                        if release.Some? then WasTransient else Failed)
    ensures var mark := R.MarkPublished(mid.outbox, copy.id, owner);
            R.Refusal(c, copy.row) == None && acked ==>
              SettledAs(c, owner, copy, acked, mid, mid.(outbox := if mark.Some? then mark.value else mid.outbox),
                        if mark.Some? then WasPublished else WasAmbiguous)
  {
    hide R.Refusal, R.MarkPublished, R.ReleaseTransient, R.Quarantine;
    forall worker: nat, rest: seq<R.Copy> | worker !in mid.workers
      ensures var w := R.Worker(owner, [copy] + rest, StageAfter(c, copy, acked));
              R.Pop(w) == R.Worker(owner, rest, R.Claimed) && mid.workers[worker := w] - {worker} == mid.workers
    {
      assert ([copy] + rest)[1..] == rest;
    }
  }
}
