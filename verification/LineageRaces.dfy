/**
 Transactions that carry the same lineage event, interleaved statement by statement, over tables in which the event is
 not applied: a gap, a stale or invalid version, a sibling, a conflict, or an event decided before. Whatever the tables,
 each reports what one of them alone would, and they leave what it would leave.
 */
module LineageRaces {
  import opened Events
  import opened Projection
  import opened Convergence
  import opened LineageConcurrency
  import L = LineageConcurrency

  /** A lineage event that these tables do not let through. */
  ghost predicate NotApplied(c: Codec, e: Envelope, db: Db) {
    !e.payload.QuantityDecremented? && ProcessValidated(c, db, e).1 != Applied
  }

  /** The inbox leaves the decision to the lineage table. */
  predicate Open(c: Codec, e: Envelope, db: Db) {
    e.eventId in db.inbox ==> db.inbox[e.eventId].hash == c.Hash(e) && db.inbox[e.eventId].disposition == Gap
  }

  /** Recording this decision is what a transaction alone does. */
  ghost predicate Leads(c: Codec, e: Envelope, db: Db, d: Disposition, expected: Option<int>) {
    ProcessValidated(c, db, e) == (Record(c, db, e, d, expected), d)
  }

  ghost predicate OnPath(c: Codec, e: Envelope, db: Db, now: Db, tx: Tx) {
    && !tx.inserted
    && match tx.phase
       case Begun => true
       case Missed => Open(c, e, db)
       case Absent => Open(c, e, db) && HopKeyOf(e) !in db.hops && e.version == 1
       case Refused => Open(c, e, db) && HopKeyOf(e) !in db.hops && e.version == 1
       case Deciding(d, expected) => Leads(c, e, db, d, expected)
       case Written(row) =>
         exists expected :: Leads(c, e, db, row.disposition, expected) && row == RowOf(c, e, row.disposition, expected)
       case Finished(d) => ProcessValidated(c, db, e) == (now, d)
       case RolledBack => true
  }

  ghost predicate RaceInv(c: Codec, e: Envelope, db: Db, m: Machine) {
    && (m.db == db || m.db == ProcessValidated(c, db, e).0)
    && forall i | 0 <= i < |m.txs| :: OnPath(c, e, db, m.db, m.txs[i])
  }

  lemma DecidedBefore(c: Codec, e: Envelope, db: Db)
    requires e.eventId in db.inbox && !Open(c, e, db)
    ensures var row := db.inbox[e.eventId];
            && (row.hash != c.Hash(e) ==> Leads(c, e, db, Conflict, None))
            && (row.hash == c.Hash(e) && IsDone(row.disposition) ==> Leads(c, e, db, DuplicateNoop, None))
            && (row.hash == c.Hash(e) && !IsDone(row.disposition) ==> ProcessValidated(c, db, e) == (db, row.disposition))
  {
    hide Codec.Hash, Record;
  }

  lemma OpenIsLineage(c: Codec, e: Envelope, db: Db)
    requires !e.payload.QuantityDecremented? && Open(c, e, db)
    ensures ProcessValidated(c, db, e) == ApplyLineage(c, db, e)
  {
    hide Codec.Hash, Record, ApplyLineage;
  }

  lemma Recorded(c: Codec, e: Envelope, db: Db, d: Disposition, expected: Option<int>)
    ensures var after := Record(c, db, e, d, expected);
            && after.hops == db.hops && e.eventId in after.inbox && after.inbox[e.eventId].disposition == d
            && after.inbox[e.eventId].hash
               == if d == Conflict && e.eventId in db.inbox then db.inbox[e.eventId].hash else c.Hash(e)
  {
    hide Codec.Hash;
  }

  lemma LineageRecords(c: Codec, e: Envelope, db: Db) returns (expected: Option<int>)
    requires ApplyLineage(c, db, e).1 != Applied
    ensures var d := ApplyLineage(c, db, e).1;
            d != Conflict && ApplyLineage(c, db, e).0 == Record(c, db, e, d, expected) && (d == DuplicateNoop ==> expected == None)
  {
    hide Record, HopCollides, HopOf;
    var k := HopKeyOf(e);
    var d := ApplyLineage(c, db, e).1;
    expected := if k in db.hops && d != DuplicateNoop then Some(db.hops[k].version + 1) else if d == Gap then Some(1) else None;
  }

  /** What a transaction alone leaves: the same hops, and the event's row with its disposition. */
  lemma Alone(c: Codec, e: Envelope, db: Db)
    requires NotApplied(c, e, db)
    ensures var (serial, d) := ProcessValidated(c, db, e);
            && serial.hops == db.hops && e.eventId in serial.inbox
            && (Open(c, e, db) ==> serial.inbox[e.eventId].hash == c.Hash(e) && serial.inbox[e.eventId].disposition == d)
            && (!Open(c, e, db) && db.inbox[e.eventId].hash != c.Hash(e) ==>
                  d == Conflict && serial.inbox[e.eventId].hash == db.inbox[e.eventId].hash && Leads(c, e, db, Conflict, None))
            && (!Open(c, e, db) && db.inbox[e.eventId].hash == c.Hash(e) ==>
                  d != Gap && serial.inbox[e.eventId].hash == c.Hash(e) && serial.inbox[e.eventId].disposition == d)
            && (d == DuplicateNoop ==> Leads(c, e, db, DuplicateNoop, None))
  {
    hide Codec.Hash, ProcessValidated, Record, ApplyLineage;
    if Open(c, e, db) {
      OpenIsLineage(c, e, db);
      var expected := LineageRecords(c, e, db);
      Recorded(c, e, db, ApplyLineage(c, db, e).1, expected);
    } else {
      DecidedBefore(c, e, db);
      Recorded(c, e, db, Conflict, None);
      Recorded(c, e, db, DuplicateNoop, None);
    }
  }

  /** Recording the decision once more changes nothing. */
  lemma Again(c: Codec, e: Envelope, db: Db, d: Disposition, expected: Option<int>)
    requires Leads(c, e, db, d, expected)
    ensures var serial := ProcessValidated(c, db, e).0;
            Record(c, serial, e, d, expected) == serial
  {
    hide Codec.Hash, ProcessValidated;
    var serial := Record(c, db, e, d, expected);
    assert Record(c, serial, e, d, expected).inbox == serial.inbox;
  }

  lemma LockInboxOnPath(c: Codec, e: Envelope, db: Db, m: Machine, i: nat)
    requires NotApplied(c, e, db) && RaceInv(c, e, db, m) && i < |m.txs| && m.txs[i].phase.Begun?
    ensures LockInbox(c, e, m, i).db == m.db && OnPath(c, e, db, m.db, LockInbox(c, e, m, i).txs[i])
  {
    Alone(c, e, db);
    hide Codec.Hash, Record;
    assert OnPath(c, e, db, m.db, m.txs[i]);
    if m.db == db && e.eventId in db.inbox && !Open(c, e, db) {
      DecidedBefore(c, e, db);
    }
    hide ProcessValidated;
  }

  lemma LockHopOnPath(c: Codec, e: Envelope, db: Db, m: Machine, i: nat)
    requires NotApplied(c, e, db) && RaceInv(c, e, db, m) && i < |m.txs| && m.txs[i].phase.Missed?
    ensures LockHop(e, m, i).db == m.db && OnPath(c, e, db, m.db, LockHop(e, m, i).txs[i])
  {
    Alone(c, e, db);
    hide Codec.Hash, Record, HopOf, HopCollides, ProcessValidated;
    assert OnPath(c, e, db, m.db, m.txs[i]);
    OpenIsLineage(c, e, db);
  }

  lemma InsertOnPath(c: Codec, e: Envelope, db: Db, m: Machine, i: nat)
    requires NotApplied(c, e, db) && RaceInv(c, e, db, m) && i < |m.txs|
    requires m.txs[i].phase.Absent? || m.txs[i].phase.Refused?
    ensures m.txs[i].phase.Absent? ==> InsertHop(e, m, i).db == m.db && OnPath(c, e, db, m.db, InsertHop(e, m, i).txs[i])
    ensures m.txs[i].phase.Refused? ==> CheckSource(e, m, i).db == m.db && OnPath(c, e, db, m.db, CheckSource(e, m, i).txs[i])
  {
    Alone(c, e, db);
    hide Codec.Hash, Record, HopOf, HopCollides, ProcessValidated;
    assert OnPath(c, e, db, m.db, m.txs[i]);
    OpenIsLineage(c, e, db);
  }

  lemma CommitOnPath(c: Codec, e: Envelope, db: Db, m: Machine, i: nat)
    requires NotApplied(c, e, db) && RaceInv(c, e, db, m) && i < |m.txs| && m.txs[i].phase.Written?
    ensures var m' := Commit(e, m, i);
            m'.db == ProcessValidated(c, db, e).0 && OnPath(c, e, db, m'.db, m'.txs[i])
  {
    hide Codec.Hash, ProcessValidated, RowOf, HopOf;
    assert OnPath(c, e, db, m.db, m.txs[i]);
    var row := m.txs[i].phase.row;
    var expected :| Leads(c, e, db, row.disposition, expected) && row == RowOf(c, e, row.disposition, expected);
    Again(c, e, db, row.disposition, expected);
    assert Commit(e, m, i).db == Record(c, m.db, e, row.disposition, expected);
    RowSays(c, e, row.disposition, expected);
  }

  lemma RowSays(c: Codec, e: Envelope, d: Disposition, expected: Option<int>)
    ensures RowOf(c, e, d, expected).disposition == d
  {
  }

  /** When the tables have come to be those of a transaction alone, every other is still on its way to them. */
  lemma StaysOnPath(c: Codec, e: Envelope, db: Db, now: Db, now': Db, tx: Tx)
    requires OnPath(c, e, db, now, tx) && (now' == now || now' == ProcessValidated(c, db, e).0)
    ensures OnPath(c, e, db, now', tx)
  {
    hide Codec.Hash, ProcessValidated, Record, RowOf;
  }

  lemma ActOnPath(c: Codec, e: Envelope, db: Db, m: Machine, i: nat, action: Action)
    requires NotApplied(c, e, db) && RaceInv(c, e, db, m) && i < |m.txs|
    ensures RaceInv(c, e, db, Act(c, e, m, i, action))
  {
    var m' := Act(c, e, m, i, action);
    assert OnPath(c, e, db, m.db, m.txs[i]);
    assert (m'.db == m.db || m'.db == ProcessValidated(c, db, e).0) && OnPath(c, e, db, m'.db, m'.txs[i]) by {
      hide Codec.Hash, ProcessValidated, Record, RowOf, LockInbox, LockHop, InsertHop, CheckSource, Commit, NotApplied;
      if !Ended(m.txs[i]) && action == Statement {
        match m.txs[i].phase
        case Begun => LockInboxOnPath(c, e, db, m, i);
        case Missed => LockHopOnPath(c, e, db, m, i);
        case Absent => InsertOnPath(c, e, db, m, i);
        case Refused => InsertOnPath(c, e, db, m, i);
        case Deciding(d, expected) => RowSays(c, e, d, expected);
        case Written(_) => CommitOnPath(c, e, db, m, i);
      }
    }
    assert |m'.txs| == |m.txs| && forall j | 0 <= j < |m.txs| && j != i :: m'.txs[j] == m.txs[j] by {
      hide Codec.Hash, ProcessValidated, Record, RowOf, HopCollides, HopOf, OnPath;
    }
    hide OnPath, Act, ProcessValidated, NotApplied;
    forall j | 0 <= j < |m'.txs| ensures OnPath(c, e, db, m'.db, m'.txs[j]) {
      if j != i {
        StaysOnPath(c, e, db, m.db, m'.db, m.txs[j]);
      }
    }
  }

  lemma {:induction false} RunOnPath(c: Codec, e: Envelope, db: Db, n: nat, steps: seq<Step>)
    requires NotApplied(c, e, db)
    ensures |L.Run(c, e, Start(db, n), steps).txs| == n && RaceInv(c, e, db, L.Run(c, e, Start(db, n), steps))
  {
    hide NotApplied, Act, ProcessValidated;
    if steps != [] {
      var init, s := steps[..|steps| - 1], steps[|steps| - 1];
      RunOnPath(c, e, db, n, init);
      var m := L.Run(c, e, Start(db, n), init);
      if s.tx < |m.txs| {
        hide RaceInv;
        ActOnPath(c, e, db, m, s.tx, s.action);
        ActKeepsCount(c, e, m, s.tx, s.action);
      }
    }
  }

  lemma ActKeepsCount(c: Codec, e: Envelope, m: Machine, i: nat, action: Action)
    requires i < |m.txs|
    ensures |Act(c, e, m, i, action).txs| == |m.txs|
  {
    hide Codec.Hash, RowOf, HopCollides, HopOf, Upsert;
  }

  /**
   Whatever the tables, if they do not let a lineage event through: however any number of transactions with it interleave
   or roll back, every one that finishes reports the disposition of one alone, and the tables are those before, or, as
   soon as one has finished, those that one alone leaves.
   */
  lemma RaceIsSerial(c: Codec, e: Envelope, db: Db, n: nat, steps: seq<Step>)
    requires NotApplied(c, e, db)
    ensures var m := L.Run(c, e, Start(db, n), steps);
            var (serial, d) := ProcessValidated(c, db, e);
            && |m.txs| == n && (m.db == db || m.db == serial)
            && (forall i | 0 <= i < n && m.txs[i].phase.Finished? :: m.txs[i].phase == Finished(d) && m.db == serial)
  {
    hide L.Run, ProcessValidated;
    RunOnPath(c, e, db, n, steps);
    var m := L.Run(c, e, Start(db, n), steps);
    forall i | 0 <= i < n && m.txs[i].phase.Finished?
      ensures m.txs[i].phase == Finished(ProcessValidated(c, db, e).1) && m.db == ProcessValidated(c, db, e).0
    {
      assert OnPath(c, e, db, m.db, m.txs[i]);
    }
  }
}
