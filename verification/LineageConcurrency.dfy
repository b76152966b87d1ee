/**
 Any number of transactions that carry the same traceability event, interleaved statement by statement under
 READ COMMITTED: a statement sees what has committed, a row lock or an uncommitted conflicting insert makes it wait,
 and nothing a transaction wrote is visible before it commits.
 */
module LineageConcurrency {
  import opened Events
  import opened Projection
  import opened Convergence

  /** Where a transaction stands in processValidated and applyLineage. */
  datatype Phase =
    | Begun                                                   // before lockInbox
    | Missed                                                  // no decision from the inbox; before lockLineageVersion
    | Absent                                                  // no hop seen; before insertLineageHop
    | Refused                                                 // the insert did nothing; before lineageSourceEventID
    | Deciding(disposition: Disposition, expected: Option<int>) // before upsertInbox
    | Written(row: InboxRow)                                  // before the commit
    | Finished(result: Disposition)
    | RolledBack

  /** `inserted`: holds an uncommitted hop row. `ownsRow`: has locked or written the event's inbox row. */
  datatype Tx = Tx(phase: Phase, inserted: bool, ownsRow: bool, locksHop: bool)

  datatype Machine = Machine(db: Db, txs: seq<Tx>)

  datatype Action = Statement | Abort

  predicate Ended(tx: Tx) { tx.phase.Finished? || tx.phase.RolledBack? }

  function End(phase: Phase): Tx { Tx(phase, false, false, false) }

  predicate OtherOwnsRow(m: Machine, i: nat) {
    exists j | 0 <= j < |m.txs| && j != i :: m.txs[j].ownsRow
  }

  predicate OtherLocksHop(m: Machine, i: nat) {
    exists j | 0 <= j < |m.txs| && j != i :: m.txs[j].locksHop
  }

  predicate OtherInserted(m: Machine, i: nat) {
    exists j | 0 <= j < |m.txs| && j != i :: m.txs[j].inserted
  }

  function With(m: Machine, i: nat, tx: Tx): Machine
    requires i < |m.txs|
  {
    m.(txs := m.txs[i := tx])
  }

  /** lockInbox and the switch on what it returned. */
  function LockInbox(c: Codec, e: Envelope, m: Machine, i: nat): Machine
    requires i < |m.txs|
  {
    var tx := m.txs[i];
    if e.eventId !in m.db.inbox then With(m, i, tx.(phase := Missed))
    else if OtherOwnsRow(m, i) then m
    else
      var row := m.db.inbox[e.eventId];
      var phase :=
        if row.hash != c.Hash(e) then Deciding(Conflict, None)
        else if IsDone(row.disposition) then Deciding(DuplicateNoop, None)
        else if row.disposition == Gap then Missed
        else Finished(row.disposition);
      With(m, i, if phase.Finished? then End(phase) else tx.(phase := phase, ownsRow := true))
  }

  /** lockLineageVersion and the decision about an existing hop. */
  function LockHop(e: Envelope, m: Machine, i: nat): Machine
    requires i < |m.txs|
  {
    var tx := m.txs[i];
    var k := HopKeyOf(e);
    if k !in m.db.hops then
      With(m, i, tx.(phase := if e.version != 1 then Deciding(Gap, Some(1)) else Absent))
    else if OtherLocksHop(m, i) then m
    else
      var current := m.db.hops[k].version;
      var d := LineageExistingDisposition(current, e.version);
      var phase :=
        if d == Stale && m.db.hops[k].source == e.eventId then Deciding(DuplicateNoop, None)
        else Deciding(d, Some(current + 1));
      With(m, i, tx.(phase := phase, locksHop := true))
  }

  /** INSERT ... ON CONFLICT DO NOTHING waits for an uncommitted conflicting row. */
  function InsertHop(e: Envelope, m: Machine, i: nat): Machine
    requires i < |m.txs|
  {
    var tx := m.txs[i];
    if OtherInserted(m, i) then m
    else if HopCollides(m.db.hops, HopKeyOf(e), HopOf(e)) then With(m, i, tx.(phase := Refused))
    else With(m, i, tx.(phase := Deciding(Applied, None), inserted := true))
  }

  /** lineageSourceEventID after an insert that did nothing. */
  function CheckSource(e: Envelope, m: Machine, i: nat): Machine
    requires i < |m.txs|
  {
    var k := HopKeyOf(e);
    var same := k in m.db.hops && m.db.hops[k].source == e.eventId;
    With(m, i, m.txs[i].(phase := Deciding(if same then DuplicateNoop else Invalid, None)))
  }

  function UpsertRow(c: Codec, e: Envelope, m: Machine, i: nat): Machine
    requires i < |m.txs| && m.txs[i].phase.Deciding?
  {
    var tx := m.txs[i];
    if OtherOwnsRow(m, i) then m
    else With(m, i, tx.(phase := Written(RowOf(c, e, tx.phase.disposition, tx.phase.expected)), ownsRow := true))
  }

  function Commit(e: Envelope, m: Machine, i: nat): Machine
    requires i < |m.txs| && m.txs[i].phase.Written?
  {
    var tx := m.txs[i];
    var hops := if tx.inserted then m.db.hops[HopKeyOf(e) := HopOf(e)] else m.db.hops;
    var db := m.db.(inbox := Upsert(m.db.inbox, e.eventId, tx.phase.row), hops := hops);
    Machine(db, m.txs[i := End(Finished(tx.phase.row.disposition))])
  }

  /** One statement of transaction `i`, or its rollback. A statement that has to wait changes nothing. */
  function Act(c: Codec, e: Envelope, m: Machine, i: nat, action: Action): Machine
    requires i < |m.txs|
  {
    if Ended(m.txs[i]) then m
    else if action == Abort then With(m, i, End(RolledBack))
    else
      match m.txs[i].phase
      case Begun => LockInbox(c, e, m, i)
      case Missed => LockHop(e, m, i)
      case Absent => InsertHop(e, m, i)
      case Refused => CheckSource(e, m, i)
      case Deciding(_, _) => UpsertRow(c, e, m, i)
      case Written(_) => Commit(e, m, i)
      case _ => m
  }

  datatype Step = Step(tx: nat, action: Action)

  function Run(c: Codec, e: Envelope, m: Machine, steps: seq<Step>): Machine {
    if steps == [] then m
    else
      var before := Run(c, e, m, steps[..|steps| - 1]);
      var s := steps[|steps| - 1];
      if s.tx < |before.txs| then Act(c, e, before, s.tx, s.action) else before
  }

  function Start(db: Db, n: nat): Machine {
    Machine(db, seq(n, _ => Tx(Begun, false, false, false)))
  }

  // --- the invariant -------------------------------------------------------------------------------

  /** The event is new to the tables and its hop can be inserted. */
  ghost predicate New(db: Db, e: Envelope) {
    && !e.payload.QuantityDecremented? && e.version == 1
    && e.eventId !in db.inbox && !HopCollides(db.hops, HopKeyOf(e), HopOf(e))
  }

  /** The tables before or after the one application of the event. */
  ghost predicate Tables(c: Codec, e: Envelope, db: Db, db': Db, applied: bool) {
    if !applied then db' == db
    else
      && db'.items == db.items && db'.failures == db.failures
      && db'.hops == db.hops[HopKeyOf(e) := HopOf(e)]
      && (exists d | d == Applied || d == DuplicateNoop :: db'.inbox == db.inbox[e.eventId := RowOf(c, e, d, None)])
  }

  /** The transaction that applies, or will apply, the event. */
  predicate Wins(tx: Tx) { tx.inserted || tx.phase == Finished(Applied) }

  ghost predicate TxInv(c: Codec, e: Envelope, tx: Tx, applied: bool) {
    match tx.phase
    case Begun => !tx.inserted && !tx.ownsRow && !tx.locksHop
    case Missed => !tx.inserted && !tx.ownsRow && !tx.locksHop
    case Absent => !tx.inserted && !tx.ownsRow && !tx.locksHop
    case Refused => applied && !tx.inserted && !tx.ownsRow && !tx.locksHop
    case Deciding(d, expected) =>
      && expected == None
      && if tx.inserted then d == Applied && !tx.ownsRow && !tx.locksHop else d == DuplicateNoop && applied
    case Written(row) =>
      && row == RowOf(c, e, if tx.inserted then Applied else DuplicateNoop, None)
      && tx.ownsRow
      && if tx.inserted then !tx.locksHop else applied
    case Finished(d) => !tx.inserted && !tx.ownsRow && !tx.locksHop && applied && (d == Applied || d == DuplicateNoop)
    case RolledBack => !tx.inserted && !tx.ownsRow && !tx.locksHop
  }

  /** `db` is without the event; `early` says that it was applied before any of these transactions began. */
  ghost predicate Inv(c: Codec, e: Envelope, db: Db, m: Machine, early: bool, applied: bool) {
    && Tables(c, e, db, m.db, applied)
    && (early ==> applied && forall i | 0 <= i < |m.txs| :: !Wins(m.txs[i]))
    && (forall i | 0 <= i < |m.txs| :: TxInv(c, e, m.txs[i], applied))
    && (forall i | 0 <= i < |m.txs| && m.txs[i].inserted :: !applied)
    && (forall i, j | 0 <= i < |m.txs| && 0 <= j < |m.txs| && Wins(m.txs[i]) && Wins(m.txs[j]) :: i == j)
    && (applied && !early ==> exists i | 0 <= i < |m.txs| :: m.txs[i].phase == Finished(Applied))
    && (forall i, j | 0 <= i < |m.txs| && 0 <= j < |m.txs| && m.txs[i].ownsRow && m.txs[j].ownsRow :: i == j)
    && (forall i, j | 0 <= i < |m.txs| && 0 <= j < |m.txs| && m.txs[i].locksHop && m.txs[j].locksHop :: i == j)
  }

  /** Whether the event has been applied is told by the hop. */
  predicate HopSeen(m: Machine, e: Envelope) { HopKeyOf(e) in m.db.hops }

  /** What the committed tables show a statement. */
  lemma Seen(c: Codec, e: Envelope, db: Db, db': Db, applied: bool)
    requires New(db, e) && Tables(c, e, db, db', applied)
    ensures applied <==> HopKeyOf(e) in db'.hops
    ensures applied <==> e.eventId in db'.inbox
    ensures applied ==> db'.hops[HopKeyOf(e)] == HopOf(e) && HopCollides(db'.hops, HopKeyOf(e), HopOf(e))
    ensures applied ==> db'.inbox[e.eventId].hash == c.Hash(e) && IsDone(db'.inbox[e.eventId].disposition)
    ensures !applied ==> !HopCollides(db'.hops, HopKeyOf(e), HopOf(e))
  {
    hide SharesParent, Codec.Hash;
  }

  /** Replacing one transaction by another that wins and owns no more than it may keeps the invariant. */
  lemma WithKeepsInv(c: Codec, e: Envelope, db: Db, m: Machine, i: nat, tx: Tx, early: bool, applied: bool)
    requires Inv(c, e, db, m, early, applied) && i < |m.txs| && TxInv(c, e, tx, applied)
    requires m.txs[i].phase != Finished(Applied)
    requires Wins(tx) ==> tx.inserted && !applied && (m.txs[i].inserted || !OtherInserted(m, i))
    requires tx.ownsRow ==> m.txs[i].ownsRow || !OtherOwnsRow(m, i)
    requires tx.locksHop ==> m.txs[i].locksHop || !OtherLocksHop(m, i)
    ensures Inv(c, e, db, With(m, i, tx), early, applied)
  {
    hide Tables, RowOf;
    var m' := With(m, i, tx);
    if applied && !early {
      var w :| 0 <= w < |m.txs| && m.txs[w].phase == Finished(Applied);
      assert m'.txs[w].phase == Finished(Applied);
    }
  }

  lemma CommitKeepsInv(c: Codec, e: Envelope, db: Db, m: Machine, i: nat, early: bool, applied: bool)
    requires New(db, e) && Inv(c, e, db, m, early, applied) && i < |m.txs| && m.txs[i].phase.Written?
    ensures Inv(c, e, db, Commit(e, m, i), early, true)
  {
    hide HopOf, HopCollides, Codec.Hash;
    var tx := m.txs[i];
    var m' := Commit(e, m, i);
    assert TxInv(c, e, tx, applied);
    CommitTables(c, e, db, m, i, early, applied);
    forall j | 0 <= j < |m'.txs| ensures TxInv(c, e, m'.txs[j], true) && !m'.txs[j].inserted {
      assert TxInv(c, e, m.txs[j], applied);
      assert Wins(m.txs[j]) && Wins(tx) ==> i == j;
    }
    if tx.inserted {
      assert m'.txs[i].phase == Finished(Applied);
      forall j | 0 <= j < |m'.txs| && j != i ensures !Wins(m'.txs[j]) {
        assert Wins(m.txs[j]) && Wins(tx) ==> i == j;
      }
    } else if !early {
      var w :| 0 <= w < |m.txs| && m.txs[w].phase == Finished(Applied);
      assert m'.txs[w].phase == Finished(Applied);
    }
  }

  lemma CommitTables(c: Codec, e: Envelope, db: Db, m: Machine, i: nat, early: bool, applied: bool)
    requires New(db, e) && Inv(c, e, db, m, early, applied) && i < |m.txs| && m.txs[i].phase.Written?
    ensures Tables(c, e, db, Commit(e, m, i).db, true)
  {
    hide HopOf, HopCollides, Codec.Hash, RowOf;
    var tx := m.txs[i];
    assert TxInv(c, e, tx, applied);
    var d := if tx.inserted then Applied else DuplicateNoop;
    RowDisposition(c, e, d);
    assert Commit(e, m, i).db.inbox == db.inbox[e.eventId := RowOf(c, e, d, None)];
  }

  lemma RowDisposition(c: Codec, e: Envelope, d: Disposition)
    ensures RowOf(c, e, d, None).disposition == d
  {
  }

  lemma ActKeepsInv(c: Codec, e: Envelope, db: Db, m: Machine, i: nat, action: Action, early: bool, applied: bool)
    requires New(db, e) && Inv(c, e, db, m, early, applied) && i < |m.txs|
    ensures Inv(c, e, db, Act(c, e, m, i, action), early, HopSeen(Act(c, e, m, i, action), e))
    ensures HopSeen(m, e) == applied
  {
    Seen(c, e, db, m.db, applied);
    var tx := m.txs[i];
    var m' := Act(c, e, m, i, action);
    assert TxInv(c, e, tx, applied);
    if !Ended(tx) && action == Statement && tx.phase.Written? {
      CommitKeepsInv(c, e, db, m, i, early, applied);
      Seen(c, e, db, m'.db, true);
    } else if m' != m {
      StatementShape(c, e, db, m, i, action, early, applied);
      WithKeepsInv(c, e, db, m, i, m'.txs[i], early, applied);
    }
  }

  /** A statement other than a commit changes its own transaction only, within what `WithKeepsInv` allows. */
  lemma StatementShape(c: Codec, e: Envelope, db: Db, m: Machine, i: nat, action: Action, early: bool, applied: bool)
    requires New(db, e) && Inv(c, e, db, m, early, applied) && i < |m.txs|
    requires !Ended(m.txs[i]) && (action == Statement ==> !m.txs[i].phase.Written?)
    requires Act(c, e, m, i, action) != m
    ensures var m' := Act(c, e, m, i, action);
            && m' == With(m, i, m'.txs[i])
            && TxInv(c, e, m'.txs[i], applied)
            && (Wins(m'.txs[i]) ==> m'.txs[i].inserted && !applied && (m.txs[i].inserted || !OtherInserted(m, i)))
            && (m'.txs[i].ownsRow ==> m.txs[i].ownsRow || !OtherOwnsRow(m, i))
            && (m'.txs[i].locksHop ==> m.txs[i].locksHop || !OtherLocksHop(m, i))
  {
    hide Tables, HopOf, HopCollides, Codec.Hash, RowOf, OtherOwnsRow, OtherInserted, OtherLocksHop;
    Seen(c, e, db, m.db, applied);
    HopFields(e);
    assert TxInv(c, e, m.txs[i], applied);
  }

  lemma HopFields(e: Envelope)
    ensures HopOf(e).version == e.version && HopOf(e).source == e.eventId
  {
  }

  lemma {:induction false} RunKeepsInv(c: Codec, e: Envelope, db: Db, early: bool, start: Db, n: nat, steps: seq<Step>)
    requires New(db, e) && Tables(c, e, db, start, early)
    ensures var m := Run(c, e, Start(start, n), steps);
            Inv(c, e, db, m, early, HopSeen(m, e)) && |m.txs| == n
  {
    hide Act, HopOf, HopCollides, New;
    if steps == [] {
      StartInv(c, e, db, early, start, n);
    } else {
      RunKeepsInv(c, e, db, early, start, n, steps[..|steps| - 1]);
      hide Inv;
      var before := Run(c, e, Start(start, n), steps[..|steps| - 1]);
      var s := steps[|steps| - 1];
      if s.tx < |before.txs| {
        ActKeepsInv(c, e, db, before, s.tx, s.action, early, HopSeen(before, e));
        ActKeepsCount(c, e, before, s.tx, s.action);
      }
    }
  }

  lemma StartInv(c: Codec, e: Envelope, db: Db, early: bool, start: Db, n: nat)
    requires New(db, e) && Tables(c, e, db, start, early)
    ensures Inv(c, e, db, Start(start, n), early, HopSeen(Start(start, n), e))
  {
    hide Tables, HopCollides, New;
    Seen(c, e, db, start, early);
  }

  lemma ActKeepsCount(c: Codec, e: Envelope, m: Machine, i: nat, action: Action)
    requires i < |m.txs|
    ensures |Act(c, e, m, i, action).txs| == |m.txs|
  {
    hide HopCollides, HopOf, RowOf;
  }

  // --- the results -----------------------------------------------------------------------------------

  /**
   However the transactions interleave and whichever of them roll back: at most one reports applied; every other
   one that finishes reports duplicate_noop; the hop exists once exactly when one has applied it; and the event's
   inbox row is then applied or duplicate_noop. If every transaction finishes, exactly one applied.
   */
  lemma ExactlyOneApplies(c: Codec, e: Envelope, db: Db, n: nat, steps: seq<Step>)
    requires New(db, e)
    ensures var m := Run(c, e, Start(db, n), steps);
            && |m.txs| == n
            && (forall i, j | 0 <= i < n && 0 <= j < n
                              && m.txs[i].phase == Finished(Applied) && m.txs[j].phase == Finished(Applied) :: i == j)
            && (forall i | 0 <= i < n && m.txs[i].phase.Finished? && m.txs[i].phase != Finished(Applied) ::
                  m.txs[i].phase == Finished(DuplicateNoop))
            && ((exists i | 0 <= i < n :: m.txs[i].phase.Finished?) <==>
                exists i | 0 <= i < n :: m.txs[i].phase == Finished(Applied))
            && Tables(c, e, db, m.db, exists i | 0 <= i < n :: m.txs[i].phase == Finished(Applied))
  {
    assert Tables(c, e, db, db, false);
    hide HopOf, HopCollides, Run, Tables, New, RowOf;
    RunKeepsInv(c, e, db, false, db, n, steps);
    var m := Run(c, e, Start(db, n), steps);
    forall i | 0 <= i < n && m.txs[i].phase.Finished?
      ensures HopSeen(m, e) && (m.txs[i].phase == Finished(Applied) || m.txs[i].phase == Finished(DuplicateNoop))
    {
      assert TxInv(c, e, m.txs[i], HopSeen(m, e));
    }
    forall i, j | 0 <= i < n && 0 <= j < n && m.txs[i].phase == Finished(Applied) && m.txs[j].phase == Finished(Applied)
      ensures i == j
    {
      assert Wins(m.txs[i]) && Wins(m.txs[j]);
    }
  }

  /** If the event had been applied before, every transaction that finishes reports duplicate_noop and applies nothing. */
  lemma AlreadyApplied(c: Codec, e: Envelope, db: Db, start: Db, n: nat, steps: seq<Step>)
    requires New(db, e) && Tables(c, e, db, start, true)
    ensures var m := Run(c, e, Start(start, n), steps);
            && |m.txs| == n
            && (forall i | 0 <= i < n && m.txs[i].phase.Finished? :: m.txs[i].phase == Finished(DuplicateNoop))
            && Tables(c, e, db, m.db, true)
  {
    hide HopOf, HopCollides, Run, Tables, New, RowOf;
    RunKeepsInv(c, e, db, true, start, n, steps);
    var m := Run(c, e, Start(start, n), steps);
    forall i | 0 <= i < n && m.txs[i].phase.Finished? ensures m.txs[i].phase == Finished(DuplicateNoop) {
      assert TxInv(c, e, m.txs[i], HopSeen(m, e)) && !Wins(m.txs[i]);
    }
  }

  /** The interleaving ends in the tables that running the event once serially ends in, up to the row's two done states. */
  lemma SameAsSerial(c: Codec, e: Envelope, db: Db, n: nat, steps: seq<Step>)
    requires New(db, e)
    requires exists i | 0 <= i < |Run(c, e, Start(db, n), steps).txs| :: Run(c, e, Start(db, n), steps).txs[i].phase.Finished?
    ensures var m := Run(c, e, Start(db, n), steps);
            var (serial, d) := ProcessValidated(c, db, e);
            && d == Applied
            && m.db.hops == serial.hops && m.db.items == serial.items && m.db.failures == serial.failures
            && (exists done | IsDone(done) ::
                  m.db.inbox == serial.inbox[e.eventId := serial.inbox[e.eventId].(disposition := done)])
  {
    ExactlyOneApplies(c, e, db, n, steps);
    hide HopOf, Run, SharesParent, Codec.Hash;
    var m := Run(c, e, Start(db, n), steps);
    var (serial, d) := ProcessValidated(c, db, e);
    var done :| (done == Applied || done == DuplicateNoop) && m.db.inbox == db.inbox[e.eventId := RowOf(c, e, done, None)];
    assert serial.inbox[e.eventId].(disposition := done) == RowOf(c, e, done, None);
    assert m.db.inbox == serial.inbox[e.eventId := serial.inbox[e.eventId].(disposition := done)];
  }

  /** No interleaving gets stuck: while a transaction is unfinished, some statement does not have to wait. */
  lemma NoDeadlock(c: Codec, e: Envelope, db: Db, n: nat, steps: seq<Step>) returns (i: nat)
    requires New(db, e)
    requires exists j | 0 <= j < |Run(c, e, Start(db, n), steps).txs| :: !Ended(Run(c, e, Start(db, n), steps).txs[j])
    ensures var m := Run(c, e, Start(db, n), steps);
            i < |m.txs| && !Ended(m.txs[i]) && Act(c, e, m, i, Statement) != m
  {
    assert Tables(c, e, db, db, false);
    hide HopOf, HopCollides, Run, RowOf, Tables, New;
    RunKeepsInv(c, e, db, false, db, n, steps);
    var m := Run(c, e, Start(db, n), steps);
    var applied := HopSeen(m, e);
    var j :| 0 <= j < |m.txs| && !Ended(m.txs[j]);
    i := Mover(c, e, db, m, false, applied, j);
  }

  lemma Mover(c: Codec, e: Envelope, db: Db, m: Machine, early: bool, applied: bool, j: nat) returns (i: nat)
    requires Inv(c, e, db, m, early, applied) && New(db, e) && j < |m.txs| && !Ended(m.txs[j])
    ensures i < |m.txs| && !Ended(m.txs[i]) && Act(c, e, m, i, Statement) != m
  {
    hide HopOf, HopCollides, RowOf, Tables, New, Codec.Hash;
    if w :| 0 <= w < |m.txs| && m.txs[w].ownsRow {
      i := w;
    } else if w :| 0 <= w < |m.txs| && m.txs[w].inserted {
      i := w;
    } else if w :| 0 <= w < |m.txs| && m.txs[w].locksHop {
      i := w;
    } else {
      i := j;
    }
    assert TxInv(c, e, m.txs[i], applied);
    assert !OtherOwnsRow(m, i);
    MovesUnlessWaiting(c, e, m, i);
  }

  lemma MovesUnlessWaiting(c: Codec, e: Envelope, m: Machine, i: nat)
    requires i < |m.txs| && !Ended(m.txs[i])
    requires !OtherOwnsRow(m, i)
    requires m.txs[i].phase.Missed? ==> !OtherLocksHop(m, i)
    requires m.txs[i].phase.Absent? ==> !OtherInserted(m, i)
    ensures Act(c, e, m, i, Statement) != m
  {
    hide HopOf, HopCollides, RowOf, Codec.Hash, OtherOwnsRow, OtherLocksHop, OtherInserted;
    var m' := Act(c, e, m, i, Statement);
    assert m'.txs[i].phase != m.txs[i].phase;
  }
}
