/**
 The consumer as it runs: transactions that write through a `Tx`, the re-drive loop and the polling loop,
 each proved to do what the functions of `Projection` say.
 */
module Consumer {
  import opened Events
  import P = Projection

  /** One open transaction: the tables as it sees them. Nothing is durable until the owner commits. */
  class Tx {
    var inbox: map<string, P.InboxRow>
    var items: map<P.ItemKey, P.ItemRow>
    var hops: map<P.HopKey, P.HopRow>
    var failures: map<P.Position, Option<string>>

    ghost function Tables(): P.Db
      reads this
    {
      P.Db(inbox, items, hops, failures)
    }

    constructor (db: P.Db)
      ensures Tables() == db
    {
      inbox, items, hops, failures := db.inbox, db.items, db.hops, db.failures;
    }

    method UpsertInbox(id: string, row: P.InboxRow)
      modifies this`inbox
      ensures inbox == P.Upsert(old(inbox), id, row)
    {
      if id in inbox && row.disposition == P.Conflict {
        inbox := inbox[id := row.(hash := inbox[id].hash)];
      } else {
        inbox := inbox[id := row];
      }
    }

    method Write(c: Codec, env: Envelope, d: P.Disposition, expected: Option<int>)
      modifies this`inbox
      ensures Tables() == P.Record(c, old(Tables()), env, d, expected)
    {
      var received := if expected.Some? then Some(env.version) else None;
      var bytes := if d == P.Gap then P.NullBytes(c.print_(env)) else None;
      UpsertInbox(env.eventId,
                  P.InboxRow(env.tenantId, c.Hash(env), env.Kind(), env.aggregateId, env.version, d,
                             expected, received, bytes));
    }

    method ApplyProjection(c: Codec, env: Envelope) returns (d: P.Disposition)
      requires env.payload.QuantityDecremented?
      modifies this`inbox, this`items
      ensures (Tables(), d) == P.ApplyProjection(c, old(Tables()), env)
    {
      hide P.Record;
      var k := P.ItemKeyOf(env);
      if k !in items {
        if env.version != 1 {
          d := P.Gap;
          Write(c, env, d, Some(1));
          return;
        }
        items := items[k := P.ItemRow(env.payload.after, 1)];
        d := P.Applied;
        Write(c, env, d, None);
        return;
      }
      var row := items[k];
      if env.version <= row.version {
        d := P.Stale;
        Write(c, env, d, Some(row.version + 1));
      } else if env.version > row.version + 1 {
        d := P.Gap;
        Write(c, env, d, Some(row.version + 1));
      } else if env.payload.before != row.quantity {
        d := P.Transition;
        Write(c, env, d, None);
      } else if env.payload.before - env.payload.decremented != env.payload.after {
        d := P.Invalid;
        Write(c, env, d, None);
      } else {
        items := items[k := P.ItemRow(env.payload.after, env.version)];
        d := P.Applied;
        Write(c, env, d, None);
      }
    }

    /** INSERT ... ON CONFLICT DO NOTHING. */
    method InsertLineageHop(env: Envelope) returns (inserted: bool)
      modifies this`hops
      ensures inserted == !P.HopCollides(old(hops), P.HopKeyOf(env), P.HopOf(env))
      ensures hops == if inserted then old(hops)[P.HopKeyOf(env) := P.HopOf(env)] else old(hops)
    {
      inserted := !P.HopCollides(hops, P.HopKeyOf(env), P.HopOf(env));
      if inserted {
        hops := hops[P.HopKeyOf(env) := P.HopOf(env)];
      }
    }

    method ApplyLineage(c: Codec, env: Envelope) returns (d: P.Disposition)
      modifies this`inbox, this`hops
      ensures (Tables(), d) == P.ApplyLineage(c, old(Tables()), env)
    {
      hide P.Record, P.HopCollides, P.HopOf;
      var k := P.HopKeyOf(env);
      if k in hops {
        var current := hops[k].version;
        d := P.LineageExistingDisposition(current, env.version);
        if d == P.Stale && hops[k].source == env.eventId {
          d := P.DuplicateNoop;
          Write(c, env, d, None);
        } else {
          Write(c, env, d, Some(current + 1));
        }
        return;
      }
      if env.version != 1 {
        d := P.Gap;
        Write(c, env, d, Some(1));
        return;
      }
      var inserted := InsertLineageHop(env);
      // A hop with this key was looked for above, so a refused insert collides on a parent or order.
      d := if inserted then P.Applied else P.Invalid;
      Write(c, env, d, None);
    }

    /** The body of processValidated between begin and commit. */
    method ProcessValidated(c: Codec, env: Envelope) returns (d: P.Disposition)
      modifies this
      ensures (Tables(), d) == P.ProcessValidated(c, old(Tables()), env)
    {
      hide P.Record, P.ApplyProjection, P.ApplyLineage, Codec.Hash;
      if env.eventId in inbox {
        var existing := inbox[env.eventId];
        if existing.hash != c.Hash(env) {
          d := P.Conflict;
          Write(c, env, d, None);
          return;
        }
        match existing.disposition {
          case Applied | DuplicateNoop =>
            d := P.DuplicateNoop;
            Write(c, env, d, None);
            return;
          case Gap =>
          case _ =>
            d := existing.disposition;
            return;
        }
      }
      if env.payload.QuantityDecremented? {
        d := ApplyProjection(c, env);
      } else {
        d := ApplyLineage(c, env);
      }
    }
  }

  datatype Result = Result(disposition: Option<P.Disposition>, ack: bool)

  /** The records of one partition in a poll, and the broker's high watermark; negative when it is not known. */
  datatype Fetched = Fetched(highWatermark: int, records: seq<P.Delivery>)

  datatype Polled = Polled(fetched: nat, processed: nat, acked: nat, skipped: nat, withheld: nat, commitFailed: bool,
                           lag: int, lagKnown: bool)

  datatype PollError = FetchFailed | NotDurable | CommitFailed

  predicate Measured(f: Fetched) { f.records != [] && f.highWatermark >= 0 }

  /** How far the first record of the partition is behind the high watermark. */
  function PartitionLag(f: Fetched): nat {
    if !Measured(f) || f.highWatermark < f.records[0].pos.offset then 0 else f.highWatermark - f.records[0].pos.offset
  }

  function Lag(fetches: seq<Fetched>): nat {
    if fetches == [] then 0 else Lag(fetches[..|fetches| - 1]) + PartitionLag(fetches[|fetches| - 1])
  }

  function Records(fetches: seq<Fetched>): seq<P.Delivery> {
    if fetches == [] then [] else Records(fetches[..|fetches| - 1]) + fetches[|fetches| - 1].records
  }

  /** The records of a poll are processed partition by partition, each in the order it was fetched. */
  lemma {:induction false} PollOrder(fetches: seq<Fetched>, i: nat, j: nat)
    requires i < |fetches| && j < |fetches[i].records|
    ensures var at := |Records(fetches[..i])| + j;
            at < |Records(fetches)| && Records(fetches)[at] == fetches[i].records[j]
  {
    var n := |fetches| - 1;
    if i < n {
      assert fetches[..n][..i] == fetches[..i];
      PollOrder(fetches[..n], i, j);
    }
  }

  /** Offsets ascend by at least one and stay below the high watermark. */
  ghost predicate FromLog(f: Fetched) {
    && f.highWatermark >= 0
    && (forall i | 0 <= i < |f.records| :: f.records[i].pos.offset < f.highWatermark)
    && (forall i, j | 0 <= i < j < |f.records| :: f.records[i].pos.offset < f.records[j].pos.offset)
  }

  lemma {:induction false} OffsetsSpread(f: Fetched, i: nat)
    requires FromLog(f) && i < |f.records|
    ensures f.records[i].pos.offset >= f.records[0].pos.offset + i
  {
    if i > 0 {
      OffsetsSpread(f, i - 1);
    }
  }

  /** The offsets of a measured partition from its first returned record up to the high watermark. */
  predicate Behind(fetches: seq<Fetched>, i: int, offset: int) {
    && 0 <= i < |fetches| && fetches[i].records != [] && fetches[i].highWatermark >= 0
    && fetches[i].records[0].pos.offset <= offset < fetches[i].highWatermark
  }

  ghost predicate AllBehind(fetches: seq<Fetched>, places: set<(int, int)>) {
    forall i, offset :: (i, offset) in places <==> Behind(fetches, i, offset)
  }

  /** The set of `n` offsets of partition `i` from `first`. */
  lemma {:induction false} OffsetsFrom(i: int, first: int, n: nat) returns (places: set<(int, int)>)
    ensures |places| == n && forall j, offset :: (j, offset) in places <==> j == i && first <= offset < first + n
  {
    places := {};
    if n > 0 {
      var before := OffsetsFrom(i, first, n - 1);
      places := before + {(i, first + n - 1)};
    }
  }

  /** The observed lag is the number of places in the log that the poll found behind. */
  lemma {:induction false} LagCountsPlaces(fetches: seq<Fetched>) returns (places: set<(int, int)>)
    ensures AllBehind(fetches, places) && Lag(fetches) == |places|
  {
    places := {};
    if fetches != [] {
      var n := |fetches| - 1;
      var before := LagCountsPlaces(fetches[..n]);
      var f := fetches[n];
      var last := OffsetsFrom(n, if f.records == [] then 0 else f.records[0].pos.offset, PartitionLag(f));
      places := before + last;
      forall i, offset ensures (i, offset) in before ==> i < n && Behind(fetches, i, offset) {
        assert (i, offset) in before <==> Behind(fetches[..n], i, offset);
      }
      assert before !! last by {
        forall p | p in last ensures p !in before {
          var (i, offset) := p;
          assert (i, offset) in last;
        }
      }
      forall i, offset ensures (i, offset) in places <==> Behind(fetches, i, offset) {
        assert (i, offset) in before <==> Behind(fetches[..n], i, offset);
      }
    }
  }

  /** The observed lag counts at least the records of the poll itself. */
  lemma {:induction false} LagCoversPoll(fetches: seq<Fetched>)
    requires forall i | 0 <= i < |fetches| :: FromLog(fetches[i])
    ensures Lag(fetches) >= |Records(fetches)|
  {
    hide FromLog;
    if fetches != [] {
      LagCoversPoll(fetches[..|fetches| - 1]);
      LagCoversPartition(fetches[|fetches| - 1]);
    }
  }

  lemma LagCoversPartition(f: Fetched)
    requires FromLog(f)
    ensures PartitionLag(f) >= |f.records|
  {
    if f.records != [] {
      OffsetsSpread(f, |f.records| - 1);
    }
  }

  /** The platform database and the handlers that change it. */
  class Store {
    var db: P.Db

    constructor ()
      ensures db == P.EMPTY_DB
    {
      db := P.EMPTY_DB;
    }

    /** One transaction; `commits` says whether the database lets it commit. */
    method ProcessValidated(c: Codec, env: Envelope, commits: bool) returns (d: Option<P.Disposition>)
      modifies this
      ensures !commits ==> d == None && db == old(db)
      ensures commits ==> d.Some? && (db, d.value) == P.ProcessValidated(c, old(db), env)
    {
      hide P.ProcessValidated;
      var tx := new Tx(db);
      var disposition := tx.ProcessValidated(c, env);
      if commits {
        db := P.Db(tx.inbox, tx.items, tx.hops, tx.failures);
        d := Some(disposition);
      } else {
        d := None;
      }
    }

    /** quarantineInbox: overwrite the event's inbox row in a transaction of its own. */
    method QuarantineInbox(c: Codec, env: Envelope, d: P.Disposition, commits: bool)
      modifies this
      ensures db == if commits then P.Record(c, old(db), env, d, None) else old(db)
    {
      hide P.Record;
      var tx := new Tx(db);
      tx.Write(c, env, d, None);
      if commits {
        db := P.Db(tx.inbox, tx.items, tx.hops, tx.failures);
      }
    }

    /** The re-drive loop ends at a failed operation, an empty selection or an event that did not apply. */
    method RedriveGaps(c: Codec, kind: Kind, tenant: string, aggregate: string, budget: nat, tie: P.TieBreak)
      returns (ok: bool, applied: seq<Envelope>)
      modifies this
      ensures P.Redriven(db, ok, applied) == P.Redrive(c, old(db), kind, tenant, aggregate, budget, tie)
    {
      hide P.Record, P.ProcessValidated, P.GapCandidates, P.Redrive, Codec.Hash;
      var left := budget;
      applied := [];
      while true
        invariant P.Redrive(c, old(db), kind, tenant, aggregate, budget, tie) ==
                  P.Prepend(applied, P.Redrive(c, db, kind, tenant, aggregate, left, tie))
        decreases left
      {
        P.RedriveIs(c, db, kind, tenant, aggregate, left, tie);
        if left == 0 {
          return false, applied;
        }
        var candidates := P.GapCandidates(db, kind, tenant, aggregate);
        if candidates == {} {
          return true, applied;
        }
        P.CandidateHasBytes(db, kind, tenant, aggregate, tie(candidates));
        var row := db.inbox[tie(candidates)];
        var parsed := c.parse(row.bytes.value);
        if parsed.Err? || left == 1 {
          return false, applied;
        }
        var env := parsed.value;
        if c.Hash(env) != row.hash {
          QuarantineInbox(c, env, P.Conflict, true);
          left := left - 2;
        } else {
          var d := ProcessValidated(c, env, true);
          if d != Some(P.Applied) {
            return true, applied;
          }
          AppliedAssociates(applied, env, P.Redrive(c, db, kind, tenant, aggregate, left - 2, tie));
          applied := applied + [env];
          left := left - 2;
        }
      }
    }

    /** ProcessRecord: one delivery, its durable decision and whether it may be acknowledged. */
    method ProcessRecord(c: Codec, d: P.Delivery) returns (res: Result, applied: seq<Envelope>)
      modifies this
      ensures P.Outcome(db, res.disposition, res.ack, applied) == P.ProcessRecord(c, old(db), d)
    {
      hide P.Record, P.ProcessValidated, P.Redrive, AggregateKey;
      var parsed := c.parse(d.value);
      if parsed.Err? {
        if d.budget == 0 {
          return Result(None, false), [];
        }
        var row := if d.pos in db.failures then db.failures[d.pos] else d.probe;
        db := db.(failures := db.failures[d.pos := row]);
        return Result(Some(P.Invalid), true), [];
      }
      var env := parsed.value;
      if d.key != AggregateKey(env.tenantId, env.aggregateType, env.aggregateId)
         || env.payload.SelfId() != env.aggregateId
      {
        QuarantineInbox(c, env, P.Mismatch, d.budget > 0);
        return (if d.budget > 0 then Result(Some(P.Mismatch), true) else Result(None, false)), [];
      }
      var disposition := ProcessValidated(c, env, d.budget > 0);
      if disposition == None {
        return Result(None, false), [];
      }
      if disposition == Some(P.Applied) || disposition == Some(P.DuplicateNoop) {
        var ok, more := RedriveGaps(c, env.Kind(), env.tenantId, env.aggregateId, d.budget - 1, d.tie);
        applied := (if disposition == Some(P.Applied) then [env] else []) + more;
        return Result(disposition, ok), applied;
      }
      return Result(disposition, true), [];
    }

    /**
     ConsumeOnce over the records of one poll. It stops at the first record whose decision may not be acknowledged; the
     records to commit are exactly the `done` before it, and the tables are what processing those and that one record
     left. They count as acknowledged only if their offsets could be committed.
     */
    method ConsumeOnce(c: Codec, fetchOk: bool, fetches: seq<Fetched>, commitOk: bool)
      returns (out: Polled, error: Option<PollError>, ghost done: nat, ghost log: seq<Envelope>)
      modifies this
      ensures !fetchOk ==> error == Some(FetchFailed) && db == old(db) && out == Polled(0, 0, 0, 0, 0, false, 0, false)
      ensures fetchOk ==>
                var records := Records(fetches);
                && done <= |records|
                && (forall i | 0 <= i < done :: Acks(c, old(db), records, i))
                && (done < |records| ==> !Acks(c, old(db), records, done))
                && P.Trace(db, log) == P.Run(c, P.Trace(old(db), []), records[..if done < |records| then done + 1 else done])
                && out.processed == done && out.fetched == (if done < |records| then done + 1 else done)
                && out.skipped == out.withheld == out.fetched - done
                && out.acked == (if commitOk then done else 0) && (out.commitFailed <==> done > 0 && !commitOk)
                && error == (if out.commitFailed then Some(CommitFailed) else if done < |records| then Some(NotDurable) else None)
      ensures fetchOk ==> out.lag == Lag(fetches) && (out.lagKnown <==> exists i | 0 <= i < |fetches| :: Measured(fetches[i]))
    {
      hide P.ProcessRecord, P.Run, Records, Lag, Measured;
      out, error, done, log := Polled(0, 0, 0, 0, 0, false, 0, false), None, 0, [];
      if !fetchOk {
        error := Some(FetchFailed);
        return;
      }
      var lag, known := ObservedLag(fetches);
      var toCommit, fetched, stopped, applied := ProcessAll(c, Records(fetches));
      done, log := toCommit, applied;
      out := Polled(fetched, toCommit, 0, fetched - toCommit, fetched - toCommit, false, lag, known);
      if stopped {
        error := Some(NotDurable);
      }
      if toCommit > 0 {
        if !commitOk {
          out, error := out.(commitFailed := true), Some(CommitFailed);
          return;
        }
        out := out.(acked := toCommit);
      }
    }

    /** The loop over the records of a poll. */
    method ProcessAll(c: Codec, records: seq<P.Delivery>)
      returns (toCommit: nat, fetched: nat, stopped: bool, ghost log: seq<Envelope>)
      modifies this
      ensures toCommit <= |records| && (stopped <==> toCommit < |records|)
      ensures fetched == if stopped then toCommit + 1 else toCommit
      ensures forall i | 0 <= i < toCommit :: Acks(c, old(db), records, i)
      ensures stopped ==> !Acks(c, old(db), records, toCommit)
      ensures P.Trace(db, log) == P.Run(c, P.Trace(old(db), []), records[..fetched])
    {
      hide P.ProcessRecord;
      toCommit, fetched, stopped, log := 0, 0, false, [];
      while toCommit < |records|
        invariant toCommit <= |records| && fetched == toCommit
        invariant forall j | 0 <= j < toCommit :: Acks(c, old(db), records, j)
        invariant P.Trace(db, log) == P.Run(c, P.Trace(old(db), []), records[..toCommit])
      {
        assert records[..toCommit + 1][..toCommit] == records[..toCommit];
        fetched := fetched + 1;
        var res, applied := ProcessRecord(c, records[toCommit]);
        log := log + applied;
        if !res.ack {
          stopped := true;
          return;
        }
        toCommit := toCommit + 1;
      }
    }
  }

  /** The loop over the partitions of a poll. */
  method ObservedLag(fetches: seq<Fetched>) returns (lag: int, known: bool)
    ensures lag == Lag(fetches)
    ensures known <==> exists i | 0 <= i < |fetches| :: Measured(fetches[i])
  {
    lag, known := 0, false;
    var i := 0;
    while i < |fetches|
      invariant 0 <= i <= |fetches|
      invariant lag == Lag(fetches[..i])
      invariant known <==> exists j | 0 <= j < i :: Measured(fetches[j])
    {
      assert fetches[..i + 1][..i] == fetches[..i];
      var f := fetches[i];
      if f.records != [] && f.highWatermark >= 0 {
        var behind := f.highWatermark - f.records[0].pos.offset;
        lag := lag + if behind < 0 then 0 else behind;
        known := true;
        assert Measured(f);
      }
      i := i + 1;
    }
    assert fetches[..i] == fetches;
  }

  /** The i-th record of a poll is acknowledged when the ones before it have been processed. */
  ghost predicate Acks(c: Codec, db: P.Db, records: seq<P.Delivery>, i: nat)
    requires i < |records|
  {
    P.ProcessRecord(c, P.Run(c, P.Trace(db, []), records[..i]).db, records[i]).ack
  }

  lemma AppliedAssociates(applied: seq<Envelope>, env: Envelope, r: P.Redriven)
    ensures P.Prepend(applied, P.Redriven(r.db, r.ok, [env] + r.applied)) == P.Prepend(applied + [env], r)
  {
    assert applied + ([env] + r.applied) == applied + [env] + r.applied;
  }
}
