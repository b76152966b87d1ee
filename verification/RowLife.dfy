/**
 The life of one outbox row and of the broker log, step by step: how a relay step changes a row, what it appends, and
 what the error of a quarantined row says.
 */
module RowLife {
  import opened Events
  import opened Source
  import opened Relay

  /** Seconds to wait after a failed publish: 1, 2, 4, 8, 16, 32 and then always 60. */
  function Wait(attempts: int): int {
    if attempts <= 1 then 1
    else if attempts == 2 then 2
    else if attempts == 3 then 4
    else if attempts == 4 then 8
    else if attempts == 5 then 16
    else if attempts == 6 then 32
    else 60
  }

  lemma BackoffIs(attempts: int)
    ensures BackoffAfterAttempts(attempts) == Wait(attempts)
  {
    assert Pow2(2) == 4;
    assert Pow2(4) == 16;
    assert Pow2(6) == 64;
  }

  /** A claim that takes the row: by a worker not at work, of a named owner, over a row free at this time. */
  predicate Takes(s: Relay, step: RelayStep, id: string)
    requires id in s.outbox
  {
    && step.Claim? && step.worker !in s.workers && step.owner != "" && id in step.ids
    && s.outbox[id].status in {Pending, Publishing}
    && (s.outbox[id].expires.Some? ==> s.outbox[id].expires.value <= s.now)
  }

  /** The status update of a worker for the row it is at, while the row is leased to its owner. */
  predicate Settles(s: Relay, step: RelayStep, id: string)
    requires id in s.outbox
  {
    && step.Settle? && step.worker in s.workers
    && var w := s.workers[step.worker];
    && w.queue != [] && w.queue[0].id == id
    && s.outbox[id].status == Publishing && s.outbox[id].owner == Some(w.owner)
  }

  function RowAfter(s: Relay, step: RelayStep, id: string): OutboxRow
    requires id in s.outbox
  {
    var row := s.outbox[id];
    if Takes(s, step, id) then
      row.(status := Publishing, owner := Some(step.owner), expires := Some(s.now + step.ttl), attempts := row.attempts + 1)
    else if Settles(s, step, id) then
      match s.workers[step.worker].stage
      case Claimed => row
      case BrokerAcked => row.(status := Published, owner := None, expires := None, error := None)
      case BrokerFailed =>
        if row.attempts >= 64 then row
        else row.(status := Pending, owner := None, expires := Some(s.now + 1000 * Wait(row.attempts)),
                  error := Some("broker_publish_failed"))
      case Refused(code) => row.(status := Quarantined, owner := None, expires := None, error := Some(code))
    else if step.Unquarantine? && step.id == id && id != "" && step.tenant == row.tenant != "" && row.status == Quarantined then
      row.(status := Pending, owner := None, expires := None)
    else row
  }

  lemma {:induction false} ClaimedRow(outbox: map<string, OutboxRow>, ids: seq<string>, owner: string, now: int, ttl: nat,
                                      id: string)
    requires id in outbox
    ensures var row := outbox[id];
            var after := ClaimAll(outbox, ids, owner, now, ttl).outbox;
            && after.Keys == outbox.Keys
            && after[id] ==
               if id in ids && row.status in {Pending, Publishing} && (row.expires.Some? ==> row.expires.value <= now) then
                 row.(status := Publishing, owner := Some(owner), expires := Some(now + ttl), attempts := row.attempts + 1)
               else row
  {
    if ids != [] {
      ClaimedRow(outbox, ids[..|ids| - 1], owner, now, ttl, id);
      assert id in ids <==> id in ids[..|ids| - 1] || id == ids[|ids| - 1];
    }
  }

  /** What any step does to any row: nothing, or one of these five changes. */
  lemma RowMoves(c: Codec, s: Relay, step: RelayStep, id: string)
    requires id in s.outbox
    ensures id in Next(c, s, step).outbox && Next(c, s, step).outbox[id] == RowAfter(s, step, id)
  {
    hide Refusal, RecordOf, SqlBackoff, ClaimAll, BackoffAfterAttempts, Wait;
    match step
    case Claim(worker, owner, ids, ttl) =>
      ClaimedRow(s.outbox, ids, owner, s.now, ttl, id);
    case Settle(worker) =>
      BackoffAgrees(s.outbox[id].attempts);
      BackoffIs(s.outbox[id].attempts);
    case _ =>
  }

  // --- the log -----------------------------------------------------------------------------------------

  /** The row's bytes are an event of its own tenant, aggregate type and aggregate. */
  predicate Agrees(c: Codec, row: OutboxRow) {
    && c.parse(row.bytes).Ok?
    && var e := c.parse(row.bytes).value;
    e.tenantId == row.tenant && e.aggregateType == row.aggregateType && e.aggregateId == row.aggregate
  }

  /** A publish attempt of a worker for the row it is at. */
  predicate Sends(s: Relay, step: RelayStep) {
    && step.Publish? && step.worker in s.workers
    && s.workers[step.worker].queue != [] && s.workers[step.worker].stage == Claimed
  }

  /**
   The log only changes by a publish attempt that reaches the broker, and then by the bytes of the worker's row under its
   partition key. A row that disagrees with its bytes is never sent.
   */
  lemma LogMoves(c: Codec, s: Relay, step: RelayStep)
    ensures var log := Next(c, s, step).log;
            if Sends(s, step) && Agrees(c, s.workers[step.worker].queue[0].row) && (step.appended || step.acked) then
              var row := s.workers[step.worker].queue[0].row;
              log == s.log + [Record(row.tenant + "/" + row.aggregateType + "/" + row.aggregate, row.bytes)]
            else log == s.log
  {
    hide SqlBackoff, ClaimAll, MarkPublished, ReleaseTransient, Quarantine, ReleaseQuarantined;
  }

  // --- why rows are quarantined --------------------------------------------------------------------------

  /** The code says why the row cannot be published. */
  predicate Explains(c: Codec, row: OutboxRow, code: string) {
    || (c.parse(row.bytes) == Err(Malformed) && code == "malformed_envelope")
    || (c.parse(row.bytes) == Err(Unsupported) && code == "unsupported_contract")
    || (c.parse(row.bytes).Ok? && !Agrees(c, row) && code == "aggregate_key_mismatch")
  }

  /** Every quarantined row, and every row about to be, has a code that explains it. */
  ghost predicate Explained(c: Codec, s: Relay) {
    && (forall id | id in s.outbox && s.outbox[id].status == Quarantined ::
          s.outbox[id].error.Some? && Explains(c, s.outbox[id], s.outbox[id].error.value))
    && (forall w | w in s.workers && s.workers[w].stage.Refused? && s.workers[w].queue != [] ::
          Explains(c, s.workers[w].queue[0].row, s.workers[w].stage.code))
  }

  lemma RefusalExplains(c: Codec, row: OutboxRow)
    ensures Refusal(c, row) == None <==> Agrees(c, row)
    ensures forall code :: Refusal(c, row) == Some(code) <==> Explains(c, row, code)
  {
  }

  lemma SameExplains(c: Codec, a: OutboxRow, b: OutboxRow, code: string)
    requires SameEvent(a, b)
    ensures Explains(c, a, code) <==> Explains(c, b, code)
  {
  }

  lemma NextExplains(c: Codec, s: Relay, step: RelayStep)
    requires RelayInv(s) && Explained(c, s)
    ensures Explained(c, Next(c, s, step))
  {
    var s' := Next(c, s, step);
    NextPreserves(c, s, step);
    forall id | id in s'.outbox && s'.outbox[id].status == Quarantined
      ensures s'.outbox[id].error.Some? && Explains(c, s'.outbox[id], s'.outbox[id].error.value)
    {
      hide Next, Explains, Wait, Takes;
      RowMoves(c, s, step, id);
      if s.outbox[id].status != Quarantined {
        assert Settles(s, step, id) && s.workers[step.worker].stage.Refused?;
        var w := s.workers[step.worker];
        assert WorkerSound(s, w);
        SameExplains(c, w.queue[0].row, s.outbox[id], w.stage.code);
      }
      SameExplains(c, s.outbox[id], s'.outbox[id], s'.outbox[id].error.value);
    }
    forall w | w in s'.workers && s'.workers[w].stage.Refused? && s'.workers[w].queue != []
      ensures Explains(c, s'.workers[w].queue[0].row, s'.workers[w].stage.code)
    {
      StageExplains(c, s, step, w);
    }
  }

  lemma StageExplains(c: Codec, s: Relay, step: RelayStep, w: nat)
    requires Explained(c, s)
    requires w in Next(c, s, step).workers && Next(c, s, step).workers[w].stage.Refused?
    requires Next(c, s, step).workers[w].queue != []
    ensures Explains(c, Next(c, s, step).workers[w].queue[0].row, Next(c, s, step).workers[w].stage.code)
  {
    hide Refusal, RecordOf, SqlBackoff, ClaimAll, MarkPublished, ReleaseTransient, Quarantine, ReleaseQuarantined, Explains;
    if w in s.workers && s.workers[w].queue != [] {
      RefusalExplains(c, s.workers[w].queue[0].row);
    }
  }

  /** Over any steps a quarantined row's error says why its bytes cannot be published, as they are now. */
  lemma {:induction false} QuarantineSaysWhy(c: Codec, start: Relay, steps: seq<RelayStep>)
    requires RelayInv(start) && Explained(c, start)
    ensures RelayInv(RunRelay(c, start, steps)) && Explained(c, RunRelay(c, start, steps))
  {
    hide Next, RelayInv, Explained;
    if steps != [] {
      var init := steps[..|steps| - 1];
      QuarantineSaysWhy(c, start, init);
      NextKeepsInv(c, RunRelay(c, start, init), steps[|steps| - 1]);
      NextExplains(c, RunRelay(c, start, init), steps[|steps| - 1]);
    }
  }
}
