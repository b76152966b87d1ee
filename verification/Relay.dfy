/**
 The leased relay: several workers claim outbox rows, publish them to an at-least-once broker and record the
 outcome, with leases that expire, workers that crash and acknowledgements that get lost.
 */
module Relay {
  import opened Events
  import opened Source

  /** One broker record. */
  datatype Record = Record(key: string, value: string)

  const MILLIS_PER_SECOND: int := 1000

  // --- backoff -----------------------------------------------------------------------------------

  function Pow2(n: nat): nat {
    if n == 0 then 1 else 2 * Pow2(n - 1)
  }

  /** BackoffAfterAttempts, in seconds. */
  function BackoffAfterAttempts(attempts: int): int {
    var shift := if attempts < 1 then 0 else if attempts - 1 > 6 then 6 else attempts - 1;
    var d := Pow2(shift);
    if d > 60 then 60 else d
  }

  const MAX_BIGINT: int := 9223372036854775807

  /** The SQL expression of ReleaseTransient: the power is cast to bigint before LEAST caps it. */
  function SqlBackoff(attempts: nat): Option<int> {
    var power := Pow2((if attempts < 1 then 1 else attempts) - 1);
    if power > MAX_BIGINT then None else Some(if power > 60 then 60 else power)
  }

  // --- row updates -------------------------------------------------------------------------------

  /** Claimable at `now`: unfinished, and without a lease that is still running. */
  predicate Due(row: OutboxRow, now: int) {
    (row.status == Pending || row.status == Publishing) && (row.expires == None || row.expires.value <= now)
  }

  function Leased(row: OutboxRow, owner: string, expires: int): OutboxRow {
    row.(status := Publishing, owner := Some(owner), expires := Some(expires), attempts := row.attempts + 1)
  }

  /** The UPDATE of ClaimDue for one selected row. */
  function ClaimOne(outbox: map<string, OutboxRow>, id: string, owner: string, expires: int): map<string, OutboxRow>
    requires id in outbox
  {
    outbox[id := Leased(outbox[id], owner, expires)]
  }

  /** The row is being published under this owner's lease. */
  predicate Holds(outbox: map<string, OutboxRow>, id: string, owner: string) {
    id in outbox && outbox[id].status == Publishing && outbox[id].owner == Some(owner)
  }

  /** Each guarded UPDATE yields None when it matched no row or the database refused it. */
  function MarkPublished(outbox: map<string, OutboxRow>, id: string, owner: string): Option<map<string, OutboxRow>> {
    if !Holds(outbox, id, owner) then None
    else Some(outbox[id := outbox[id].(status := Published, owner := None, expires := None, error := None)])
  }

  function ReleaseTransient(outbox: map<string, OutboxRow>, id: string, owner: string, code: string, now: int):
    Option<map<string, OutboxRow>>
  {
    if !Holds(outbox, id, owner) then None
    else
      match SqlBackoff(outbox[id].attempts)
      case None => None
      case Some(seconds) =>
        Some(outbox[id := outbox[id].(status := Pending, owner := None,
                                      expires := Some(now + seconds * MILLIS_PER_SECOND), error := Some(code))])
  }

  function Quarantine(outbox: map<string, OutboxRow>, id: string, owner: string, code: string): Option<map<string, OutboxRow>> {
    if !Holds(outbox, id, owner) then None
    else Some(outbox[id := outbox[id].(status := Quarantined, owner := None, expires := None, error := Some(code))])
  }

  function ReleaseQuarantined(outbox: map<string, OutboxRow>, tenant: string, id: string): Option<map<string, OutboxRow>> {
    if tenant == "" || id == "" || id !in outbox || outbox[id].tenant != tenant || outbox[id].status != Quarantined then None
    else Some(outbox[id := outbox[id].(status := Pending, owner := None, expires := None)])
  }

  /**
   Releasing a quarantined row takes its own tenant: for any other tenant, for no tenant and for a row that is not
   quarantined nothing is released; otherwise the row is pending and free at once, and only its status changes.
   */
  lemma ReleaseNeedsItsTenant(outbox: map<string, OutboxRow>, tenant: string, id: string)
    ensures var next := ReleaseQuarantined(outbox, tenant, id);
            && (next.Some? <==> id in outbox && id != "" && tenant != "" && outbox[id].tenant == tenant
                                && outbox[id].status == Quarantined)
            && (next.Some? ==>
                  && next.value.Keys == outbox.Keys && SameEvent(next.value[id], outbox[id])
                  && next.value[id].status == Pending && next.value[id].owner == None && next.value[id].expires == None
                  && next.value[id].attempts == outbox[id].attempts && next.value[id].error == outbox[id].error
                  && forall other | other in outbox && other != id :: next.value[other] == outbox[other])
  {
  }

  // --- publication -------------------------------------------------------------------------------

  /** Why a claimed row must not be published, if so: its bytes do not parse, or disagree with its columns. */
  function Refusal(c: Codec, row: OutboxRow): Option<string> {
    match c.parse(row.bytes)
    case Err(Malformed) => Some("malformed_envelope")
    case Err(Unsupported) => Some("unsupported_contract")
    case Ok(env) =>
      if env.tenantId != row.tenant || env.aggregateType != row.aggregateType || env.aggregateId != row.aggregate
      then Some("aggregate_key_mismatch") else None
  }

  function RecordOf(row: OutboxRow): Record {
    Record(AggregateKey(row.tenant, row.aggregateType, row.aggregate), row.bytes)
  }

  /** How far a worker is with the row at the head of its queue. */
  datatype Stage = Claimed | BrokerAcked | BrokerFailed | Refused(code: string)

  /** A row as it was when the worker claimed it. */
  datatype Copy = Copy(id: string, row: OutboxRow)

  datatype Worker = Worker(owner: string, queue: seq<Copy>, stage: Stage)

  /** The shared outbox, the broker log, the database clock in milliseconds, and the workers at work. */
  datatype Relay = Relay(outbox: map<string, OutboxRow>, log: seq<Record>, now: int, workers: map<nat, Worker>)

  datatype RelayStep =
    | Tick(millis: nat)
    | Claim(worker: nat, owner: string, ids: seq<string>, ttl: nat)
    | Publish(worker: nat, appended: bool, acked: bool)
    | Settle(worker: nat)
    | Crash(worker: nat)
    | Unquarantine(tenant: string, id: string)

  /** The outbox after a claim, and the rows claimed. */
  datatype Claims = Claims(outbox: map<string, OutboxRow>, copies: seq<Copy>)

  /** One claim: the rows named that are due when it starts, each leased once. A lease of zero milliseconds ends at once. */
  function ClaimAll(outbox: map<string, OutboxRow>, ids: seq<string>, owner: string, now: int, ttl: nat): Claims {
    if ids == [] then Claims(outbox, [])
    else
      var rest := ClaimAll(outbox, ids[..|ids| - 1], owner, now, ttl);
      var id := ids[|ids| - 1];
      if id in rest.outbox && id !in ids[..|ids| - 1] && Due(rest.outbox[id], now) then
        var claimed := ClaimOne(rest.outbox, id, owner, now + ttl);
        Claims(claimed, rest.copies + [Copy(id, claimed[id])])
      else rest
  }

  function Pop(w: Worker): Worker
    requires w.queue != []
  {
    Worker(w.owner, w.queue[1..], Claimed)
  }

  /** Up to the broker's answer: publishOne before its status update. A failed publish may still have been appended. */
  function PublishStep(c: Codec, s: Relay, id: nat, appended: bool, acked: bool): Relay {
    if id !in s.workers || s.workers[id].queue == [] || s.workers[id].stage != Claimed then s
    else
      var w := s.workers[id];
      var row := w.queue[0].row;
      match Refusal(c, row)
      case Some(code) => s.(workers := s.workers[id := w.(stage := Refused(code))])
      case None =>
        s.(log := if appended || acked then s.log + [RecordOf(row)] else s.log,
           workers := s.workers[id := w.(stage := if acked then BrokerAcked else BrokerFailed)])
  }

  /** The status update that follows. An update that matches no row ends the drain, except after an acknowledgement. */
  function SettleStep(s: Relay, id: nat): Relay {
    if id !in s.workers || s.workers[id].queue == [] then s
    else
      var w := s.workers[id];
      var row := w.queue[0].id;
      match w.stage
      case Claimed => s
      case BrokerAcked =>
        var next := MarkPublished(s.outbox, row, w.owner);
        s.(outbox := if next.Some? then next.value else s.outbox, workers := s.workers[id := Pop(w)])
      case BrokerFailed =>
        Finish(s, id, w, ReleaseTransient(s.outbox, row, w.owner, "broker_publish_failed", s.now))
      case Refused(code) =>
        Finish(s, id, w, Quarantine(s.outbox, row, w.owner, code))
  }

  function Finish(s: Relay, id: nat, w: Worker, next: Option<map<string, OutboxRow>>): Relay
    requires w.queue != []
  {
    match next
    case None => s.(workers := s.workers - {id})
    case Some(outbox) => s.(outbox := outbox, workers := s.workers[id := Pop(w)])
  }

  function Next(c: Codec, s: Relay, step: RelayStep): Relay {
    match step
    case Tick(millis) => s.(now := s.now + millis)
    case Claim(worker, owner, ids, ttl) =>
      if worker in s.workers || owner == "" then s
      else
        var claims := ClaimAll(s.outbox, ids, owner, s.now, ttl);
        s.(outbox := claims.outbox, workers := s.workers[worker := Worker(owner, claims.copies, Claimed)])
    case Publish(worker, appended, acked) => PublishStep(c, s, worker, appended, acked)
    case Settle(worker) => SettleStep(s, worker)
    case Crash(worker) => s.(workers := s.workers - {worker})
    case Unquarantine(tenant, id) =>
      var next := ReleaseQuarantined(s.outbox, tenant, id);
      if next.Some? then s.(outbox := next.value) else s
  }

  // --- what every step keeps ---------------------------------------------------------------------

  /** Identity, bytes and hash of a row: everything but its publication state. */
  predicate SameEvent(a: OutboxRow, b: OutboxRow) {
    && a.tenant == b.tenant && a.kind == b.kind && a.aggregateType == b.aggregateType
    && a.aggregate == b.aggregate && a.version == b.version
    && a.hash == b.hash && a.bytes == b.bytes && a.recordedAt == b.recordedAt
  }

  /** Rows are never deleted, keep their event, and once published stay published. */
  ghost predicate Preserves(a: map<string, OutboxRow>, b: map<string, OutboxRow>) {
    && b.Keys == a.Keys
    && (forall id | id in a :: SameEvent(a[id], b[id]) && (a[id].status == Published ==> b[id] == a[id]))
  }

  ghost predicate WorkerSound(s: Relay, w: Worker) {
    && (forall i | 0 <= i < |w.queue| ::
          w.queue[i].id in s.outbox && SameEvent(w.queue[i].row, s.outbox[w.queue[i].id]))
    && (w.stage == BrokerAcked && w.queue != [] ==> RecordOf(w.queue[0].row) in s.log)
  }

  /** Published means in the log; a worker's copies are the rows; an acknowledged record is in the log. */
  ghost predicate RelayInv(s: Relay) {
    && (forall id | id in s.outbox && s.outbox[id].status == Published :: RecordOf(s.outbox[id]) in s.log)
    && (forall w | w in s.workers :: WorkerSound(s, s.workers[w]))
  }

  lemma PreservesRefl(a: map<string, OutboxRow>)
    ensures Preserves(a, a)
  {
  }

  lemma {:induction false} ClaimPreserves(outbox: map<string, OutboxRow>, ids: seq<string>, owner: string, now: int, ttl: nat)
    ensures var Claims(after, copies) := ClaimAll(outbox, ids, owner, now, ttl);
            && Preserves(outbox, after)
            && (forall id | id in outbox && after[id].status == Published :: outbox[id] == after[id])
            && (forall i | 0 <= i < |copies| :: copies[i].id in after && SameEvent(copies[i].row, after[copies[i].id]))
  {
    if ids != [] {
      ClaimPreserves(outbox, ids[..|ids| - 1], owner, now, ttl);
    }
  }

  /** Each step preserves the outbox, only appends to the log, and keeps the invariant. */
  lemma NextPreserves(c: Codec, s: Relay, step: RelayStep)
    ensures Preserves(s.outbox, Next(c, s, step).outbox)
    ensures s.log <= Next(c, s, step).log
  {
    hide Refusal, RecordOf, SqlBackoff, Preserves, MarkPublished, ReleaseTransient, Quarantine, ReleaseQuarantined, ClaimAll;
    PreservesRefl(s.outbox);
    match step
    case Claim(worker, owner, ids, ttl) =>
      ClaimPreserves(s.outbox, ids, owner, s.now, ttl);
    case Settle(worker) =>
      if worker in s.workers && s.workers[worker].queue != [] {
        UpdatesPreserve(s, s.workers[worker].queue[0].id, s.workers[worker].owner, s.workers[worker].stage);
      }
    case Unquarantine(tenant, id) =>
      UnquarantinePreserves(s.outbox, tenant, id);
    case _ =>
  }

  lemma UpdatesPreserve(s: Relay, id: string, owner: string, stage: Stage)
    ensures MarkPublished(s.outbox, id, owner).Some? ==> Preserves(s.outbox, MarkPublished(s.outbox, id, owner).value)
    ensures var next := ReleaseTransient(s.outbox, id, owner, "broker_publish_failed", s.now);
            next.Some? ==> Preserves(s.outbox, next.value)
    ensures stage.Refused? && Quarantine(s.outbox, id, owner, stage.code).Some? ==>
              Preserves(s.outbox, Quarantine(s.outbox, id, owner, stage.code).value)
  {
    hide SqlBackoff;
  }

  lemma UnquarantinePreserves(outbox: map<string, OutboxRow>, tenant: string, id: string)
    ensures ReleaseQuarantined(outbox, tenant, id).Some? ==>
              Preserves(outbox, ReleaseQuarantined(outbox, tenant, id).value)
  {
  }

  lemma WorkersCarryOver(s: Relay, s': Relay, w: Worker)
    requires WorkerSound(s, w) && Preserves(s.outbox, s'.outbox) && s.log <= s'.log
    ensures WorkerSound(s', w)
  {
    hide RecordOf;
    forall r | r in s.log ensures r in s'.log {
      assert exists i :: 0 <= i < |s.log| && s.log[i] == r;
    }
  }

  lemma PopSound(s: Relay, w: Worker)
    requires WorkerSound(s, w) && w.queue != []
    ensures WorkerSound(s, Pop(w))
  {
    hide RecordOf;
  }

  /** A row newly published by a step was acknowledged by the broker first. */
  lemma NewlyPublished(c: Codec, s: Relay, step: RelayStep, id: string)
    requires RelayInv(s) && id in s.outbox
    requires s.outbox[id].status != Published
    requires id in Next(c, s, step).outbox && Next(c, s, step).outbox[id].status == Published
    ensures step.Settle? && step.worker in s.workers
    ensures var w := s.workers[step.worker];
            w.queue != [] && w.stage == BrokerAcked && w.queue[0].id == id && WorkerSound(s, w)
  {
    hide Refusal, RecordOf, SqlBackoff, WorkerSound;
    match step
    case Claim(worker, owner, ids, ttl) =>
      ClaimPreserves(s.outbox, ids, owner, s.now, ttl);
    case _ =>
  }

  lemma RecordOfSame(a: OutboxRow, b: OutboxRow)
    requires SameEvent(a, b)
    ensures RecordOf(a) == RecordOf(b)
  {
  }

  lemma NextKeepsPublished(c: Codec, s: Relay, step: RelayStep)
    requires RelayInv(s)
    ensures var s' := Next(c, s, step);
            forall id | id in s'.outbox && s'.outbox[id].status == Published :: RecordOf(s'.outbox[id]) in s'.log
  {
    hide Next, RecordOf, WorkerSound;
    var s' := Next(c, s, step);
    NextPreserves(c, s, step);
    forall id | id in s'.outbox && s'.outbox[id].status == Published ensures RecordOf(s'.outbox[id]) in s'.log {
      RecordOfSame(s.outbox[id], s'.outbox[id]);
      if s.outbox[id].status != Published {
        NewlyPublished(c, s, step, id);
        AckedInLog(s, s.workers[step.worker]);
        RecordOfSame(s.workers[step.worker].queue[0].row, s.outbox[id]);
      }
      assert RecordOf(s.outbox[id]) in s.log;
      var i :| 0 <= i < |s.log| && s.log[i] == RecordOf(s.outbox[id]);
      assert s'.log[i] == s.log[i];
    }
  }

  lemma AckedInLog(s: Relay, w: Worker)
    requires WorkerSound(s, w) && w.queue != [] && w.stage == BrokerAcked
    ensures RecordOf(w.queue[0].row) in s.log
    ensures w.queue[0].id in s.outbox && SameEvent(w.queue[0].row, s.outbox[w.queue[0].id])
  {
  }

  lemma NextKeepsWorkers(c: Codec, s: Relay, step: RelayStep)
    requires RelayInv(s)
    ensures forall w | w in Next(c, s, step).workers :: WorkerSound(Next(c, s, step), Next(c, s, step).workers[w])
  {
    hide RecordOf, Refusal, SqlBackoff, WorkerSound, Preserves, ClaimAll, MarkPublished, ReleaseTransient, Quarantine,
         ReleaseQuarantined;
    var s' := Next(c, s, step);
    NextPreserves(c, s, step);
    forall w | w in s'.workers ensures WorkerSound(s', s'.workers[w]) {
      if w in s.workers {
        WorkersCarryOver(s, s', s.workers[w]);
        if s.workers[w].queue != [] {
          PopSound(s', s.workers[w]);
          if step.Publish? && step.worker == w {
            StagedSound(s, s', s.workers[w], s'.workers[w]);
          }
        }
      } else {
        assert step.Claim?;
        ClaimPreserves(s.outbox, step.ids, step.owner, s.now, step.ttl);
        NewWorkerSound(s', s'.workers[w]);
      }
    }
  }

  lemma StagedSound(s: Relay, s': Relay, w: Worker, w': Worker)
    requires WorkerSound(s', w) && w.queue != []
    requires w'.queue == w.queue
    requires w'.stage == BrokerAcked ==> w'.stage == w.stage || RecordOf(w.queue[0].row) in s'.log
    ensures WorkerSound(s', w')
  {
  }

  lemma NewWorkerSound(s: Relay, w: Worker)
    requires w.stage == Claimed
    requires forall i | 0 <= i < |w.queue| :: w.queue[i].id in s.outbox && SameEvent(w.queue[i].row, s.outbox[w.queue[i].id])
    ensures WorkerSound(s, w)
  {
  }

  lemma NextKeepsInv(c: Codec, s: Relay, step: RelayStep)
    requires RelayInv(s)
    ensures RelayInv(Next(c, s, step))
  {
    hide Next, RecordOf, WorkerSound;
    NextKeepsPublished(c, s, step);
    NextKeepsWorkers(c, s, step);
  }

  // --- rows written by the source are never quarantined ----------------------------------------------

  /** Every row's bytes parse to an event that agrees with its columns. */
  ghost predicate Publishable(c: Codec, outbox: map<string, OutboxRow>) {
    forall id | id in outbox :: Refusal(c, outbox[id]) == None
  }

  ghost predicate RowsNotQuarantined(outbox: map<string, OutboxRow>) {
    forall id | id in outbox :: outbox[id].status != Quarantined
  }

  ghost predicate NoneQuarantined(s: Relay) {
    && RowsNotQuarantined(s.outbox)
    && (forall w | w in s.workers :: !s.workers[w].stage.Refused?)
  }

  lemma RefusalOfSame(c: Codec, a: OutboxRow, b: OutboxRow)
    requires SameEvent(a, b)
    ensures Refusal(c, a) == Refusal(c, b)
  {
  }

  lemma PreservesPublishable(c: Codec, a: map<string, OutboxRow>, b: map<string, OutboxRow>)
    requires Publishable(c, a) && Preserves(a, b)
    ensures Publishable(c, b)
  {
    hide Refusal;
    forall id | id in b ensures Refusal(c, b[id]) == None {
      RefusalOfSame(c, a[id], b[id]);
    }
  }

  lemma {:induction false} ClaimKeepsStatus(outbox: map<string, OutboxRow>, ids: seq<string>, owner: string, now: int, ttl: nat)
    requires RowsNotQuarantined(outbox)
    ensures RowsNotQuarantined(ClaimAll(outbox, ids, owner, now, ttl).outbox)
  {
    if ids != [] {
      ClaimKeepsStatus(outbox, ids[..|ids| - 1], owner, now, ttl);
    }
  }

  lemma NeverQuarantined(c: Codec, s: Relay, step: RelayStep)
    requires RelayInv(s) && Publishable(c, s.outbox) && NoneQuarantined(s)
    ensures NoneQuarantined(Next(c, s, step)) && Publishable(c, Next(c, s, step).outbox)
  {
    hide Refusal, RecordOf, SqlBackoff, Preserves, Publishable, ClaimAll;
    NextPreserves(c, s, step);
    PreservesPublishable(c, s.outbox, Next(c, s, step).outbox);
    match step
    case Claim(worker, owner, ids, ttl) =>
      ClaimKeepsStatus(s.outbox, ids, owner, s.now, ttl);
    case Publish(worker, appended, acked) =>
      if worker in s.workers && s.workers[worker].queue != [] {
        assert WorkerSound(s, s.workers[worker]);
        HeadPublishable(c, s, s.workers[worker]);
      }
    case _ =>
  }

  lemma HeadPublishable(c: Codec, s: Relay, w: Worker)
    requires Publishable(c, s.outbox) && WorkerSound(s, w) && w.queue != []
    ensures Refusal(c, w.queue[0].row) == None
  {
    hide Refusal, RecordOf;
    RefusalOfSame(c, w.queue[0].row, s.outbox[w.queue[0].id]);
  }

  // --- leases end ------------------------------------------------------------------------------------

  /** No unfinished row is leased, or backed off, for longer than `bound` from now. */
  ghost predicate LeasesBounded(s: Relay, bound: int) {
    ExpireBy(s.outbox, s.now + bound)
  }

  ghost predicate ExpireBy(outbox: map<string, OutboxRow>, time: int) {
    forall id | id in outbox && outbox[id].expires.Some? :: outbox[id].expires.value <= time
  }

  lemma BackoffBounded(attempts: nat)
    ensures SqlBackoff(attempts).Some? ==> SqlBackoff(attempts).value <= 60
  {
    hide Pow2;
  }

  lemma {:induction false} ClaimBounded(outbox: map<string, OutboxRow>, ids: seq<string>, owner: string, now: int, ttl: nat,
                                        bound: int)
    requires ttl <= bound && ExpireBy(outbox, now + bound)
    ensures ExpireBy(ClaimAll(outbox, ids, owner, now, ttl).outbox, now + bound)
  {
    if ids != [] {
      ClaimBounded(outbox, ids[..|ids| - 1], owner, now, ttl, bound);
    }
  }

  lemma NextKeepsBound(c: Codec, s: Relay, step: RelayStep, bound: int)
    requires LeasesBounded(s, bound) && bound >= 60 * MILLIS_PER_SECOND
    requires step.Claim? ==> step.ttl <= bound
    ensures LeasesBounded(Next(c, s, step), bound)
  {
    hide Refusal, RecordOf, SqlBackoff, ClaimAll;
    match step
    case Claim(worker, owner, ids, ttl) =>
      ClaimBounded(s.outbox, ids, owner, s.now, ttl, bound);
    case Settle(worker) =>
      if worker in s.workers && s.workers[worker].queue != [] && s.workers[worker].queue[0].id in s.outbox {
        BackoffBounded(s.outbox[s.workers[worker].queue[0].id].attempts);
      }
    case _ =>
  }

  // --- runs ------------------------------------------------------------------------------------------

  function RunRelay(c: Codec, s: Relay, steps: seq<RelayStep>): Relay {
    if steps == [] then s
    else Next(c, RunRelay(c, s, steps[..|steps| - 1]), steps[|steps| - 1])
  }

  /** A freshly written outbox: nothing published, nobody at work. */
  ghost predicate Initial(s: Relay) {
    && s.workers == map[]
    && (forall id | id in s.outbox :: s.outbox[id].status == Pending && s.outbox[id].expires == None)
  }

  ghost predicate RunInv(c: Codec, start: Relay, s: Relay, bound: int) {
    && RelayInv(s)
    && Preserves(start.outbox, s.outbox)
    && LeasesBounded(s, bound)
    && (Publishable(c, start.outbox) ==> NoneQuarantined(s) && Publishable(c, s.outbox))
  }

  lemma PreservesTransitive(a: map<string, OutboxRow>, b: map<string, OutboxRow>, d: map<string, OutboxRow>)
    requires Preserves(a, b) && Preserves(b, d)
    ensures Preserves(a, d)
  {
  }

  lemma {:induction false} RunKeepsInv(c: Codec, start: Relay, steps: seq<RelayStep>, bound: int)
    requires Initial(start) && bound >= 60 * MILLIS_PER_SECOND
    requires forall i | 0 <= i < |steps| && steps[i].Claim? :: steps[i].ttl <= bound
    ensures RunInv(c, start, RunRelay(c, start, steps), bound)
  {
    hide Next, RelayInv, Preserves, LeasesBounded, Publishable, NoneQuarantined;
    if steps == [] {
      InitialInv(c, start, bound);
    } else {
      RunKeepsInv(c, start, steps[..|steps| - 1], bound);
      var s := RunRelay(c, start, steps[..|steps| - 1]);
      var step := steps[|steps| - 1];
      NextKeepsInv(c, s, step);
      NextPreserves(c, s, step);
      PreservesTransitive(start.outbox, s.outbox, Next(c, s, step).outbox);
      NextKeepsBound(c, s, step, bound);
      if Publishable(c, start.outbox) {
        NeverQuarantined(c, s, step);
      }
    }
  }

  lemma InitialInv(c: Codec, start: Relay, bound: int)
    requires Initial(start)
    ensures RunInv(c, start, start, bound)
  {
    hide Refusal, RecordOf;
  }

  /**
   The lease protocol, for any number of owners and any interleaving of claims, publishes, lost answers, expiries
   and crashes: a published row has its exact bytes in the log under its aggregate key; every row keeps its event;
   every unfinished row can be claimed again once the longest lease has passed; and rows whose bytes agree with
   their columns are never quarantined.
   */
  lemma LeaseProtocol(c: Codec, start: Relay, steps: seq<RelayStep>, bound: int, id: string, worker: nat, owner: string)
    requires Initial(start) && bound >= 60 * MILLIS_PER_SECOND
    requires forall i | 0 <= i < |steps| && steps[i].Claim? :: steps[i].ttl <= bound
    requires id in start.outbox && worker !in RunRelay(c, start, steps).workers && owner != ""
    ensures var s := RunRelay(c, start, steps);
            && id in s.outbox && SameEvent(start.outbox[id], s.outbox[id])
            && (s.outbox[id].status == Published ==> RecordOf(start.outbox[id]) in s.log)
            && (Publishable(c, start.outbox) ==> s.outbox[id].status != Quarantined)
            && (s.outbox[id].status == Pending || s.outbox[id].status == Publishing ==>
                  var later := Next(c, Next(c, s, Tick(bound)), Claim(worker, owner, [id], 1));
                  id in later.outbox && Holds(later.outbox, id, owner))
  {
    hide RunRelay, RecordOf, Publishable, Next, WorkerSound;
    RunKeepsInv(c, start, steps, bound);
    var s := RunRelay(c, start, steps);
    RecordOfSame(start.outbox[id], s.outbox[id]);
    if s.outbox[id].status == Pending || s.outbox[id].status == Publishing {
      ClaimedLater(c, s, bound, id, worker, owner);
    }
  }

  lemma ClaimedLater(c: Codec, s: Relay, bound: nat, id: string, worker: nat, owner: string)
    requires LeasesBounded(s, bound) && id in s.outbox && worker !in s.workers && owner != ""
    requires s.outbox[id].status == Pending || s.outbox[id].status == Publishing
    ensures var later := Next(c, Next(c, s, Tick(bound)), Claim(worker, owner, [id], 1));
            id in later.outbox && Holds(later.outbox, id, owner)
  {
    hide ClaimAll, Holds;
    var ticked := Next(c, s, Tick(bound));
    assert ticked == s.(now := s.now + bound);
    ClaimDueRow(s.outbox, id, owner, s.now + bound);
    HoldsKey(ClaimAll(s.outbox, [id], owner, s.now + bound, 1).outbox, id, owner);
  }

  lemma HoldsKey(outbox: map<string, OutboxRow>, id: string, owner: string)
    requires Holds(outbox, id, owner)
    ensures id in outbox
  {
  }

  lemma ClaimDueRow(outbox: map<string, OutboxRow>, id: string, owner: string, now: int)
    requires id in outbox && Due(outbox[id], now)
    ensures Holds(ClaimAll(outbox, [id], owner, now, 1).outbox, id, owner)
  {
    assert [id][..0] == [];
    assert ClaimAll(outbox, [], owner, now, 1) == Claims(outbox, []);
  }

  /** Once published, a row never changes again, whatever steps follow. */
  lemma {:induction false} PublishedIsFinal(c: Codec, s: Relay, steps: seq<RelayStep>, id: string)
    requires id in s.outbox && s.outbox[id].status == Published
    ensures id in RunRelay(c, s, steps).outbox && RunRelay(c, s, steps).outbox[id] == s.outbox[id]
  {
    hide Next;
    if steps != [] {
      PublishedIsFinal(c, s, steps[..|steps| - 1], id);
      NextPreserves(c, RunRelay(c, s, steps[..|steps| - 1]), steps[|steps| - 1]);
    }
  }

  // --- exclusion -------------------------------------------------------------------------------------

  /** A lease, or a backoff, that has not ended. */
  predicate Barred(s: Relay, id: string) {
    id in s.outbox && s.outbox[id].expires.Some? && s.now < s.outbox[id].expires.value
  }

  lemma {:induction false} ClaimLeavesBarred(outbox: map<string, OutboxRow>, ids: seq<string>, owner: string, now: int, ttl: nat,
                                             id: string)
    requires id in outbox && outbox[id].expires.Some? && now < outbox[id].expires.value
    ensures var claims := ClaimAll(outbox, ids, owner, now, ttl);
            && id in claims.outbox && claims.outbox[id] == outbox[id]
            && forall i | 0 <= i < |claims.copies| :: claims.copies[i].id != id
  {
    if ids != [] {
      ClaimLeavesBarred(outbox, ids[..|ids| - 1], owner, now, ttl, id);
    }
  }

  /** The worker holds a copy of the row. */
  ghost predicate Queued(s: Relay, worker: nat, id: string) {
    worker in s.workers && exists i | 0 <= i < |s.workers[worker].queue| :: s.workers[worker].queue[i].id == id
  }

  /** A claim by any worker, for any owner and any time, leaves a row with a running lease alone and hands out no copy of it. */
  lemma ClaimRespectsLease(c: Codec, s: Relay, claim: RelayStep, id: string)
    requires claim.Claim? && Barred(s, id)
    ensures Barred(Next(c, s, claim), id) && Next(c, s, claim).outbox[id] == s.outbox[id]
    ensures forall w :: Queued(Next(c, s, claim), w, id) ==> Queued(s, w, id)
  {
    hide ClaimAll;
    ClaimLeavesBarred(s.outbox, claim.ids, claim.owner, s.now, claim.ttl, id);
  }

  /** The step is the status update, by a worker of this owner, of the row at the head of its queue. */
  predicate SettlesFor(s: Relay, step: RelayStep, id: string, owner: string) {
    && step.Settle? && step.worker in s.workers && s.workers[step.worker].owner == owner
    && s.workers[step.worker].queue != [] && s.workers[step.worker].queue[0].id == id
  }

  /** While a lease runs, only a worker of its owner changes the row. */
  lemma OnlyOwnerSettles(c: Codec, s: Relay, step: RelayStep, id: string, owner: string)
    requires Barred(s, id) && Holds(s.outbox, id, owner) && !SettlesFor(s, step, id, owner)
    ensures id in Next(c, s, step).outbox && Next(c, s, step).outbox[id] == s.outbox[id]
  {
    hide Refusal, RecordOf, SqlBackoff, ClaimAll;
    if step.Claim? {
      ClaimLeavesBarred(s.outbox, step.ids, step.owner, s.now, step.ttl, id);
    }
  }

  /** Some step of the run is a status update of the row by a worker of the owner. */
  ghost predicate SettledDuring(c: Codec, s: Relay, steps: seq<RelayStep>, id: string, owner: string) {
    exists n | 0 <= n < |steps| :: SettlesFor(RunRelay(c, s, steps[..n]), steps[n], id, owner)
  }

  lemma TimeAdvances(c: Codec, s: Relay, step: RelayStep)
    ensures s.now <= Next(c, s, step).now
  {
    hide Refusal, RecordOf, ClaimAll, MarkPublished, ReleaseTransient, Quarantine, ReleaseQuarantined;
  }

  lemma SettledLater(c: Codec, s: Relay, steps: seq<RelayStep>, id: string, owner: string)
    requires steps != [] && SettledDuring(c, s, steps[..|steps| - 1], id, owner)
    ensures SettledDuring(c, s, steps, id, owner)
  {
    hide Next;
    var init := steps[..|steps| - 1];
    var n :| 0 <= n < |init| && SettlesFor(RunRelay(c, s, init[..n]), init[n], id, owner);
    assert init[..n] == steps[..n] && init[n] == steps[n];
  }

  /** A lease is exclusive until it ends: whatever the others do, the row stays as leased unless its owner settles it. */
  lemma {:induction false} LeaseIsExclusive(c: Codec, s: Relay, steps: seq<RelayStep>, id: string, owner: string)
    requires id in s.outbox && s.outbox[id].expires.Some? && Holds(s.outbox, id, owner)
    requires RunRelay(c, s, steps).now < s.outbox[id].expires.value
    ensures id in RunRelay(c, s, steps).outbox
    ensures RunRelay(c, s, steps).outbox[id] == s.outbox[id] || SettledDuring(c, s, steps, id, owner)
  {
    hide Next, SettledDuring, SettlesFor;
    if steps != [] {
      var init, last := steps[..|steps| - 1], steps[|steps| - 1];
      var before := RunRelay(c, s, init);
      TimeAdvances(c, before, last);
      LeaseIsExclusive(c, s, init, id, owner);
      NextAttempts(c, before, last, id);
      if SettledDuring(c, s, init, id, owner) {
        SettledLater(c, s, steps, id, owner);
      } else if SettlesFor(before, last, id, owner) {
        SettledNow(c, s, steps, id, owner);
      } else {
        OnlyOwnerSettles(c, before, last, id, owner);
      }
    }
  }

  lemma SettledNow(c: Codec, s: Relay, steps: seq<RelayStep>, id: string, owner: string)
    requires steps != [] && SettlesFor(RunRelay(c, s, steps[..|steps| - 1]), steps[|steps| - 1], id, owner)
    ensures SettledDuring(c, s, steps, id, owner)
  {
    hide Next;
  }

  /**
   Two leases of one row never overlap in time: if a step leases a row and a later step leases it again, the first lease
   had run out by then or a worker of its owner had settled the row.
   */
  lemma LeasesDoNotOverlap(c: Codec, s: Relay, first: RelayStep, steps: seq<RelayStep>, second: RelayStep, id: string)
    requires id in s.outbox && id in Next(c, s, first).outbox
    requires var leased := Next(c, s, first);
             var later := RunRelay(c, leased, steps);
             && id in later.outbox && id in Next(c, later, second).outbox
             && leased.outbox[id].attempts > s.outbox[id].attempts
             && Next(c, later, second).outbox[id].attempts > later.outbox[id].attempts
    ensures var leased := Next(c, s, first);
            var later := RunRelay(c, leased, steps);
            && first.Claim? && leased.outbox[id].expires == Some(s.now + first.ttl)
            && (later.now >= s.now + first.ttl || SettledDuring(c, leased, steps, id, first.owner))
  {
    hide RunRelay, SettledDuring, ClaimAll, Refusal, RecordOf, SqlBackoff;
    NextAttempts(c, s, first, id);
    ClaimAttempts(s.outbox, first.ids, first.owner, s.now, first.ttl, id);
    var leased := Next(c, s, first);
    assert Holds(leased.outbox, id, first.owner) && leased.outbox[id].expires == Some(s.now + first.ttl);
    var later := RunRelay(c, leased, steps);
    if later.now < s.now + first.ttl {
      LeaseIsExclusive(c, leased, steps, id, first.owner);
      NextAttempts(c, later, second, id);
      if later.outbox[id] == leased.outbox[id] {
        ClaimRespectsLease(c, later, second, id);
      }
    }
  }

  // --- quarantine --------------------------------------------------------------------------------------

  /** Some step of the run releases the row for its own tenant. */
  ghost predicate ReleasedDuring(steps: seq<RelayStep>, tenant: string, id: string) {
    exists n | 0 <= n < |steps| :: steps[n] == Unquarantine(tenant, id)
  }

  lemma QuarantineStep(c: Codec, s: Relay, step: RelayStep, id: string)
    requires id in s.outbox && s.outbox[id].status == Quarantined && step != Unquarantine(s.outbox[id].tenant, id)
    ensures id in Next(c, s, step).outbox && Next(c, s, step).outbox[id] == s.outbox[id]
  {
    hide Refusal, RecordOf, SqlBackoff, ClaimAll, BackoffAfterAttempts;
    if step.Claim? {
      ClaimAttempts(s.outbox, step.ids, step.owner, s.now, step.ttl, id);
    }
  }

  /** A quarantined row stays as it is, over any steps, unless an operator of its own tenant releases it. */
  lemma {:induction false} QuarantineEndsByTenant(c: Codec, s: Relay, steps: seq<RelayStep>, id: string)
    requires id in s.outbox && s.outbox[id].status == Quarantined && !ReleasedDuring(steps, s.outbox[id].tenant, id)
    ensures id in RunRelay(c, s, steps).outbox && RunRelay(c, s, steps).outbox[id] == s.outbox[id]
  {
    hide Next;
    if steps != [] {
      var init, last := steps[..|steps| - 1], steps[|steps| - 1];
      assert last != Unquarantine(s.outbox[id].tenant, id);
      assert forall n | 0 <= n < |init| :: init[n] == steps[n];
      QuarantineEndsByTenant(c, s, init, id);
      QuarantineStep(c, RunRelay(c, s, init), last, id);
    }
  }

  // --- progress ----------------------------------------------------------------------------------------

  /** What a worker on its own does to publish one row: wait for its lease, claim it, publish it, settle it. */
  function SoloSteps(s: Relay, id: string): seq<RelayStep>
    requires id in s.outbox
  {
    var expires := s.outbox[id].expires;
    var wait := if expires.Some? && expires.value > s.now then expires.value - s.now else 0;
    [Crash(0), Tick(wait), Claim(0, "relay", [id], 1), Publish(0, true, true), Settle(0), Crash(0)]
  }

  lemma ClaimOneId(outbox: map<string, OutboxRow>, id: string, owner: string, now: int, ttl: nat)
    requires id in outbox && Due(outbox[id], now)
    ensures ClaimAll(outbox, [id], owner, now, ttl)
         == Claims(ClaimOne(outbox, id, owner, now + ttl), [Copy(id, Leased(outbox[id], owner, now + ttl))])
  {
    assert [id][..0] == [];
    assert ClaimAll(outbox, [], owner, now, ttl) == Claims(outbox, []);
  }

  /** A row that is not quarantined can be published by one worker, whatever the others were doing. */
  lemma PublishAlone(c: Codec, s: Relay, id: string) returns (steps: seq<RelayStep>)
    requires id in s.outbox && (s.outbox[id].status == Pending || s.outbox[id].status == Publishing)
    requires Refusal(c, s.outbox[id]) == None
    ensures var s' := RunRelay(c, s, steps);
            && s'.outbox.Keys == s.outbox.Keys && s'.outbox[id].status == Published
            && (forall id' | id' in s.outbox && id' != id :: s'.outbox[id'] == s.outbox[id'])
  {
    hide Refusal, RecordOf, ClaimAll;
    steps := SoloSteps(s, id);
    var s1 := Next(c, s, Crash(0));
    var s2 := Next(c, s1, steps[1]);
    assert s2.outbox == s.outbox && 0 !in s2.workers && Due(s2.outbox[id], s2.now);
    ClaimOneId(s2.outbox, id, "relay", s2.now, 1);
    var s3 := Next(c, s2, steps[2]);
    var row := Leased(s.outbox[id], "relay", s2.now + 1);
    assert s3.workers[0] == Worker("relay", [Copy(id, row)], Claimed) && s3.outbox[id] == row;
    RefusalOfSame(c, s.outbox[id], row);
    var s4 := Next(c, s3, steps[3]);
    assert s4.workers[0].stage == BrokerAcked && s4.outbox == s3.outbox;
    var s5 := Next(c, s4, steps[4]);
    assert s5.outbox[id].status == Published;
    var s6 := Next(c, s5, steps[5]);
    RunSix(c, s, steps);
  }

  lemma RunSix(c: Codec, s: Relay, steps: seq<RelayStep>)
    requires |steps| == 6
    ensures RunRelay(c, s, steps)
         == Next(c, Next(c, Next(c, Next(c, Next(c, Next(c, s, steps[0]), steps[1]), steps[2]), steps[3]), steps[4]), steps[5])
  {
    hide Next;
    assert steps[..5][..4] == steps[..4] && steps[..4][..3] == steps[..3] && steps[..3][..2] == steps[..2];
    assert steps[..2][..1] == steps[..1] && steps[..1][..0] == [];
    assert RunRelay(c, s, steps[..1]) == Next(c, s, steps[0]);
    assert RunRelay(c, s, steps[..2]) == Next(c, Next(c, s, steps[0]), steps[1]);
    assert RunRelay(c, s, steps[..3]) == Next(c, RunRelay(c, s, steps[..2]), steps[2]);
    assert RunRelay(c, s, steps[..4]) == Next(c, RunRelay(c, s, steps[..3]), steps[3]);
    assert RunRelay(c, s, steps[..5]) == Next(c, RunRelay(c, s, steps[..4]), steps[4]);
  }

  // --- attempts and backoff --------------------------------------------------------------------------

  /** The step leases the row. */
  predicate Leases(s: Relay, step: RelayStep, id: string) {
    && step.Claim? && step.worker !in s.workers && step.owner != ""
    && id in step.ids && id in s.outbox && Due(s.outbox[id], s.now)
  }

  lemma {:induction false} ClaimAttempts(outbox: map<string, OutboxRow>, ids: seq<string>, owner: string, now: int, ttl: nat,
                                         id: string)
    requires id in outbox
    ensures var after := ClaimAll(outbox, ids, owner, now, ttl).outbox;
            && id in after
            && if id in ids && Due(outbox[id], now) then after[id] == Leased(outbox[id], owner, now + ttl)
               else after[id] == outbox[id]
  {
    if ids != [] {
      var init, last := ids[..|ids| - 1], ids[|ids| - 1];
      ClaimAttempts(outbox, init, owner, now, ttl, id);
      assert ids == init + [last];
      assert id in ids <==> id in init || id == last;
    }
  }

  /** Only a lease counts as an attempt, and it counts once. */
  lemma NextAttempts(c: Codec, s: Relay, step: RelayStep, id: string)
    requires id in s.outbox
    ensures id in Next(c, s, step).outbox
    ensures Next(c, s, step).outbox[id].attempts == s.outbox[id].attempts + if Leases(s, step, id) then 1 else 0
  {
    hide Refusal, RecordOf, SqlBackoff, ClaimAll;
    if step.Claim? {
      ClaimAttempts(s.outbox, step.ids, step.owner, s.now, step.ttl, id);
    }
  }

  function CountLeases(c: Codec, s: Relay, steps: seq<RelayStep>, id: string): nat {
    if steps == [] then 0
    else
      var init := steps[..|steps| - 1];
      CountLeases(c, s, init, id) + if Leases(RunRelay(c, s, init), steps[|steps| - 1], id) then 1 else 0
  }

  /** publish_attempts is the number of times the row has been leased. */
  lemma {:induction false} AttemptsCountLeases(c: Codec, s: Relay, steps: seq<RelayStep>, id: string)
    requires id in s.outbox
    ensures id in RunRelay(c, s, steps).outbox
    ensures RunRelay(c, s, steps).outbox[id].attempts == s.outbox[id].attempts + CountLeases(c, s, steps, id)
  {
    hide Next, Leases;
    if steps != [] {
      var init := steps[..|steps| - 1];
      AttemptsCountLeases(c, s, init, id);
      NextAttempts(c, RunRelay(c, s, init), steps[|steps| - 1], id);
    }
  }

  /** A row released after a failed publish can be claimed again exactly when its documented backoff has passed. */
  lemma TransientWaits(outbox: map<string, OutboxRow>, id: string, owner: string, code: string, now: int, later: int)
    requires Holds(outbox, id, owner) && outbox[id].attempts <= 63
    ensures var next := ReleaseTransient(outbox, id, owner, code, now);
            && next.Some? && next.value.Keys == outbox.Keys
            && next.value[id].error == Some(code) && next.value[id].owner == None
            && (Due(next.value[id], later) <==>
                later >= now + BackoffAfterAttempts(outbox[id].attempts) * MILLIS_PER_SECOND)
  {
    hide SqlBackoff, BackoffAfterAttempts;
    BackoffAgrees(outbox[id].attempts);
  }

  lemma {:induction false} Pow2Grows(m: nat, n: nat)
    requires m <= n
    ensures Pow2(m) <= Pow2(n)
  {
    if m < n {
      Pow2Grows(m, n - 1);
    }
  }

  lemma Pow2At63()
    ensures Pow2(62) == 4611686018427387904 && Pow2(63) == 9223372036854775808
  {
    assert Pow2(10) == 1024;
    assert Pow2(20) == 1048576;
    assert Pow2(30) == 1073741824;
    assert Pow2(40) == 1099511627776;
    assert Pow2(50) == 1125899906842624;
    assert Pow2(60) == 1152921504606846976;
  }

  /**
   The backoff stored by the database is the documented one exactly up to 63 attempts. From the 64th on the power
   no longer fits a bigint, the update fails, and the row waits for its lease to expire instead.
   */
  lemma BackoffAgrees(attempts: nat)
    ensures SqlBackoff(attempts) == Some(BackoffAfterAttempts(attempts)) <==> attempts <= 63
    ensures SqlBackoff(attempts) == None <==> attempts >= 64
  {
    hide Pow2;
    Pow2At63();
    var n := (if attempts < 1 then 1 else attempts) - 1;
    if n >= 63 {
      Pow2Grows(63, n);
    } else {
      Pow2Grows(n, 62);
      if n >= 6 {
        Pow2Grows(6, n);
        Pow2At6();
      }
    }
  }

  lemma Pow2At6()
    ensures Pow2(6) == 64
  {
  }
}
