/**
 What a replay does and counts, in terms of what the consumer does with the same records: the tables are those of the
 consumer's run and each counter is the number of records that it reports so.
 */
module Replays {
  import opened Events
  import opened Projection
  import opened TenantRebuild
  import R = Rebuild
  import O = Operator
  import S = Source

  /** The tables after the first `n` records were delivered to the consumer. */
  function After(c: Codec, db: Db, ds: seq<Delivery>, n: nat): Db
    requires n <= |ds|
  {
    Run(c, Trace(db, []), ds[..n]).db
  }

  /** What the consumer says of record `i`. */
  function Report(c: Codec, db: Db, ds: seq<Delivery>, i: nat): Outcome
    requires i < |ds|
  {
    ProcessRecord(c, After(c, db, ds, i), ds[i])
  }

  function Verdict(c: Codec, db: Db, ds: seq<Delivery>, i: nat): Option<Disposition>
    requires i < |ds|
  {
    Report(c, db, ds, i).disposition
  }

  /** The records among the first `n` of which the consumer says `v`. */
  function Reported(c: Codec, db: Db, ds: seq<Delivery>, n: nat, v: Option<Disposition>): set<nat>
    requires n <= |ds|
  {
    set i: nat | 0 <= i < n && Verdict(c, db, ds, i) == v
  }

  /** Decided, but neither applied nor a duplicate. */
  predicate Withheld(v: Option<Disposition>) { v.Some? && v != Some(Applied) && v != Some(DuplicateNoop) }

  function HeldBack(c: Codec, db: Db, ds: seq<Delivery>, n: nat): set<nat>
    requires n <= |ds|
  {
    set i: nat | 0 <= i < n && Withheld(Verdict(c, db, ds, i))
  }

  /** Among the first `n` records there is only applied, duplicate and gap. */
  ghost predicate Untroubled(c: Codec, db: Db, ds: seq<Delivery>, n: nat)
    requires n <= |ds|
  {
    forall i | 0 <= i < n :: Verdict(c, db, ds, i) in {Some(Applied), Some(DuplicateNoop), Some(Gap)}
  }

  /** The running result over the first `n` records. */
  ghost predicate Counts(c: Codec, db: Db, ds: seq<Delivery>, n: nat, r: Replay)
    requires n <= |ds|
  {
    && r.applied == |Reported(c, db, ds, n, Some(Applied))|
    && r.duplicates == |Reported(c, db, ds, n, Some(DuplicateNoop))|
    && r.quarantined == |HeldBack(c, db, ds, n)|
  }

  ghost predicate SoFar(c: Codec, db: Db, ds: seq<Delivery>, n: nat, r: Replay)
    requires n <= |ds|
  {
    && r.stop == Running && r.db == After(c, db, ds, n) && Counts(c, db, ds, n, r)
    && r.failures == |Reported(c, db, ds, n, None)|
    && (r.status == Complete <==> Untroubled(c, db, ds, n))
  }

  lemma AfterNext(c: Codec, db: Db, ds: seq<Delivery>, n: nat)
    requires n < |ds|
    ensures After(c, db, ds, n + 1) == Report(c, db, ds, n).db
  {
    hide ProcessRecord;
    assert ds[..n + 1][..n] == ds[..n];
  }

  lemma ReportedNext(c: Codec, db: Db, ds: seq<Delivery>, n: nat, v: Option<Disposition>)
    requires n < |ds|
    ensures |Reported(c, db, ds, n + 1, v)| == |Reported(c, db, ds, n, v)| + if Verdict(c, db, ds, n) == v then 1 else 0
  {
    hide Verdict;
    var less, more := Reported(c, db, ds, n, v), Reported(c, db, ds, n + 1, v);
    assert more == if Verdict(c, db, ds, n) == v then less + {n} else less;
  }

  lemma HeldBackNext(c: Codec, db: Db, ds: seq<Delivery>, n: nat)
    requires n < |ds|
    ensures |HeldBack(c, db, ds, n + 1)| == |HeldBack(c, db, ds, n)| + if Withheld(Verdict(c, db, ds, n)) then 1 else 0
  {
    hide Verdict, Withheld;
    var less, more := HeldBack(c, db, ds, n), HeldBack(c, db, ds, n + 1);
    assert more == if Withheld(Verdict(c, db, ds, n)) then less + {n} else less;
  }

  lemma UntroubledNext(c: Codec, db: Db, ds: seq<Delivery>, n: nat)
    requires n < |ds|
    ensures Untroubled(c, db, ds, n + 1) <==>
            Untroubled(c, db, ds, n) && Verdict(c, db, ds, n) in {Some(Applied), Some(DuplicateNoop), Some(Gap)}
  {
    hide Verdict;
  }

  lemma TallyCounts(c: Codec, db: Db, ds: seq<Delivery>, n: nat, r: Replay)
    requires n < |ds| && SoFar(c, db, ds, n, r)
    ensures SoFar(c, db, ds, n + 1, Tally(r, Report(c, db, ds, n).db, Report(c, db, ds, n).disposition))
  {
    hide Report, After, Reported, HeldBack, Untroubled;
    AfterNext(c, db, ds, n);
    ReportedNext(c, db, ds, n, Some(Applied));
    ReportedNext(c, db, ds, n, Some(DuplicateNoop));
    ReportedNext(c, db, ds, n, None);
    HeldBackNext(c, db, ds, n);
    UntroubledNext(c, db, ds, n);
  }

  lemma NothingCounted(c: Codec, db: Db, ds: seq<Delivery>)
    ensures SoFar(c, db, ds, 0, Replay(db, Complete, 0, 0, 0, 0, Running))
  {
    hide Verdict;
    assert ds[..0] == [];
    assert Reported(c, db, ds, 0, Some(Applied)) == {} && Reported(c, db, ds, 0, Some(DuplicateNoop)) == {};
    assert Reported(c, db, ds, 0, None) == {} && HeldBack(c, db, ds, 0) == {};
  }

  // --- one tenant's replay -------------------------------------------------------------------------------

  /** Why record `i` ends a tenant's replay, if it does. */
  function StopAt(c: Codec, db: Db, t: string, ds: seq<Delivery>, i: nat): Stop
    requires i < |ds|
  {
    match c.parse(ds[i].value)
    case Err(_) => Unparsed
    case Ok(env) =>
      if env.tenantId != t then ForeignTenant else if Report(c, db, ds, i).ack then Running else Unacknowledged
  }

  ghost predicate NoStop(c: Codec, db: Db, t: string, ds: seq<Delivery>, n: nat)
    requires n <= |ds|
  {
    forall i | 0 <= i < n :: StopAt(c, db, t, ds, i) == Running
  }

  lemma {:induction false} ReplaySoFar(c: Codec, db: Db, t: string, ds: seq<Delivery>, n: nat)
    requires n <= |ds| && NoStop(c, db, t, ds, n)
    ensures SoFar(c, db, ds, n, ReplayRecords(c, t, Replay(db, Complete, 0, 0, 0, 0, Running), ds[..n]))
  {
    var start := Replay(db, Complete, 0, 0, 0, 0, Running);
    if n == 0 {
      NothingCounted(c, db, ds);
      assert ds[..0] == [];
    } else {
      ReplaySoFar(c, db, t, ds, n - 1);
      O.NextReplayed(c, t, start, ds, n - 1);
      hide ReplayRecords, Counts, After, ProcessRecord;
      TallyCounts(c, db, ds, n - 1, ReplayRecords(c, t, start, ds[..n - 1]));
      assert StopAt(c, db, t, ds, n - 1) == Running;
    }
  }

  /** A replay that reads every record: tables, counters and status. */
  ghost predicate ReadAll(c: Codec, db: Db, t: string, ds: seq<Delivery>, r: Replay) {
    var rest := TenantFailures(r.db, t);
    && r.stop == Running && r.db == After(c, db, ds, |ds|) && Counts(c, db, ds, |ds|, r)
    && r.failures == (if ds != [] && rest != {} then |rest| else |Reported(c, db, ds, |ds|, None)|)
    && (r.status == Complete <==> ds != [] && Untroubled(c, db, ds, |ds|) && TenantGaps(r.db, t) == {} && rest == {})
  }

  /** A replay that ends at record `n`: the records before it are counted, and it is incomplete. */
  ghost predicate EndsAt(c: Codec, db: Db, t: string, ds: seq<Delivery>, n: nat, r: Replay)
    requires n < |ds|
  {
    && r.stop == StopAt(c, db, t, ds, n) && r.status == Incomplete && Counts(c, db, ds, n, r)
    && r.failures == |Reported(c, db, ds, n, None)|
    && r.db == After(c, db, ds, if r.stop == Unacknowledged then n + 1 else n)
  }

  lemma EndingStep(c: Codec, db: Db, t: string, ds: seq<Delivery>, n: nat, r: Replay)
    requires n < |ds| && SoFar(c, db, ds, n, r) && StopAt(c, db, t, ds, n) != Running
    ensures EndsAt(c, db, t, ds, n, ReplayOne(c, t, r, ds[n]))
  {
    hide Reported, HeldBack, Untroubled, After, ProcessRecord;
    AfterNext(c, db, ds, n);
  }

  /** Replaying a tenant's records over any tables. */
  lemma ReplayIsTheRun(c: Codec, db: Db, t: string, ds: seq<Delivery>)
    ensures NoStop(c, db, t, ds, |ds|) ==> ReadAll(c, db, t, ds, ReplayTenant(c, db, t, ds))
    ensures forall n | 0 <= n < |ds| && NoStop(c, db, t, ds, n) && StopAt(c, db, t, ds, n) != Running ::
              EndsAt(c, db, t, ds, n, ReplayTenant(c, db, t, ds))
  {
    hide ReplayRecords, Reported, HeldBack, Untroubled, After, StopAt, ReplayOne, TenantGaps, TenantFailures;
    var start := Replay(db, Complete, 0, 0, 0, 0, Running);
    if NoStop(c, db, t, ds, |ds|) {
      ReplaySoFar(c, db, t, ds, |ds|);
      assert ds[..|ds|] == ds;
      NoneReplayed(c, db, ds);
    }
    forall n | 0 <= n < |ds| && NoStop(c, db, t, ds, n) && StopAt(c, db, t, ds, n) != Running
      ensures EndsAt(c, db, t, ds, n, ReplayTenant(c, db, t, ds))
    {
      ReplaySoFar(c, db, t, ds, n);
      O.NextReplayed(c, t, start, ds, n);
      EndingStep(c, db, t, ds, n, ReplayRecords(c, t, start, ds[..n]));
      O.StoppedStays(c, t, start, ds, n + 1);
    }
  }

  lemma NoneReplayed(c: Codec, db: Db, ds: seq<Delivery>)
    ensures ds == [] ==> SoFar(c, db, ds, 0, Replay(db, Complete, 0, 0, 0, 0, Running))
  {
    hide SoFar;
    NothingCounted(c, db, ds);
  }

  /** The result carries the counters of the replay. */
  predicate Carries(out: O.ControlOutcome, r: Replay) {
    !out.Failed? && out.result == O.Rebuilt(r.status, r.applied, r.duplicates, r.quarantined, r.failures)
  }

  /**
   What the operator is told: the counters if every record was replayed or one did not parse, the counters with an error
   if one could not be acknowledged, and only an error if one was another tenant's.
   */
  lemma OutcomeTells(c: Codec, db: Db, t: string, ds: seq<Delivery>)
    ensures var r := ReplayTenant(c, db, t, ds);
            var out := O.ResultOf(r);
            && (NoStop(c, db, t, ds, |ds|) ==> out.Done? && Carries(out, r))
            && (forall n | 0 <= n < |ds| && NoStop(c, db, t, ds, n) ::
                  var parsed := c.parse(ds[n].value);
                  && (parsed.Err? ==> out.Done? && Carries(out, r) && r.status == Incomplete)
                  && (parsed.Ok? && parsed.value.tenantId != t ==> out == O.Failed(O.TenantMismatch))
                  && (parsed.Ok? && parsed.value.tenantId == t && !Report(c, db, ds, n).ack ==>
                        out.NotAcknowledged? && Carries(out, r) && r.status == Incomplete))
  {
    hide ReplayTenant, NoStop, Counts, After, Report, TenantGaps, TenantFailures;
    ReplayIsTheRun(c, db, t, ds);
  }

  // --- the rebuild from captured history -----------------------------------------------------------------

  ghost predicate AllAcked(c: Codec, db: Db, ds: seq<Delivery>, n: nat)
    requires n <= |ds|
  {
    forall i | 0 <= i < n :: Report(c, db, ds, i).ack
  }

  lemma NextRebuilt(c: Codec, start: Replay, ds: seq<Delivery>, n: nat)
    requires n < |ds|
    ensures R.RebuildRecords(c, start, ds[..n + 1]) == R.RebuildOne(c, R.RebuildRecords(c, start, ds[..n]), ds[n])
  {
    hide R.RebuildOne;
    assert ds[..n + 1][..n] == ds[..n];
  }

  lemma {:induction false} RebuildSoFar(c: Codec, db: Db, ds: seq<Delivery>, n: nat)
    requires n <= |ds| && AllAcked(c, db, ds, n)
    ensures SoFar(c, db, ds, n, R.RebuildRecords(c, Replay(db, Complete, 0, 0, 0, 0, Running), ds[..n]))
  {
    var start := Replay(db, Complete, 0, 0, 0, 0, Running);
    if n == 0 {
      NothingCounted(c, db, ds);
      assert ds[..0] == [];
    } else {
      RebuildSoFar(c, db, ds, n - 1);
      NextRebuilt(c, start, ds, n - 1);
      hide R.RebuildRecords, Counts, After, ProcessRecord;
      TallyCounts(c, db, ds, n - 1, R.RebuildRecords(c, start, ds[..n - 1]));
      assert Report(c, db, ds, n - 1).ack;
    }
  }

  ghost predicate Rebuilt(c: Codec, db: Db, ds: seq<Delivery>, tenantBlank: bool, r: Replay) {
    var rest := r.db.failures;
    && r.stop == Running && r.db == After(c, db, ds, |ds|) && Counts(c, db, ds, |ds|, r)
    && r.failures == (if ds != [] && rest != map[] then |rest| else |Reported(c, db, ds, |ds|, None)|)
    && (r.status == Complete <==>
          ds != [] && !tenantBlank && Untroubled(c, db, ds, |ds|) && GapIds(r.db) == {} && rest == map[])
  }

  ghost predicate CutShort(c: Codec, db: Db, ds: seq<Delivery>, n: nat, r: Replay)
    requires n < |ds|
  {
    && r.stop == Unacknowledged && r.status == Incomplete && Counts(c, db, ds, n, r)
    && r.failures == |Reported(c, db, ds, n, None)| && r.db == After(c, db, ds, n + 1)
  }

  lemma CutStep(c: Codec, db: Db, ds: seq<Delivery>, n: nat, r: Replay)
    requires n < |ds| && SoFar(c, db, ds, n, r) && !Report(c, db, ds, n).ack
    ensures CutShort(c, db, ds, n, R.RebuildOne(c, r, ds[n]))
  {
    hide Reported, HeldBack, Untroubled, After, ProcessRecord;
    AfterNext(c, db, ds, n);
  }

  /** Rebuilding from captured records over any tables, with or without a reset first. */
  lemma RebuildIsTheRun(c: Codec, was: Db, ds: seq<Delivery>, resetFirst: bool, tenantBlank: bool)
    ensures var db := if resetFirst then EMPTY_DB else was;
            var r := R.RebuildFrom(c, was, ds, resetFirst, tenantBlank);
            && (AllAcked(c, db, ds, |ds|) ==> Rebuilt(c, db, ds, tenantBlank, r))
            && (forall n | 0 <= n < |ds| && AllAcked(c, db, ds, n) && !Report(c, db, ds, n).ack :: CutShort(c, db, ds, n, r))
  {
    hide R.RebuildRecords, Reported, HeldBack, Untroubled, After, Report, R.RebuildOne, GapIds;
    var db := if resetFirst then EMPTY_DB else was;
    var start := Replay(db, Complete, 0, 0, 0, 0, Running);
    var r := R.RebuildFrom(c, was, ds, resetFirst, tenantBlank);
    if AllAcked(c, db, ds, |ds|) {
      RebuildSoFar(c, db, ds, |ds|);
      assert ds[..|ds|] == ds;
      NoneReplayed(c, db, ds);
    }
    forall n | 0 <= n < |ds| && AllAcked(c, db, ds, n) && !Report(c, db, ds, n).ack ensures CutShort(c, db, ds, n, r) {
      RebuildSoFar(c, db, ds, n);
      NextRebuilt(c, start, ds, n);
      CutStep(c, db, ds, n, R.RebuildRecords(c, start, ds[..n]));
      R.StoppedStays(c, start, ds, n + 1);
    }
  }

  // --- loading the history -------------------------------------------------------------------------------

  ghost predicate Loads(c: Codec, t: string, row: S.OutboxRow) {
    c.parse(row.bytes).Ok? && c.parse(row.bytes).value.tenantId == t
  }

  /** The record of row `i`: its bytes, keyed by its aggregate, at operator partition 1 and the next offset from 1. */
  ghost predicate RecordOf(c: Codec, row: S.OutboxRow, i: nat, d: Delivery) {
    && c.parse(row.bytes).Ok? && d.value == row.bytes && d.pos == Position(1, i + 1) && d.probe == None
    && var e := c.parse(row.bytes).value;
    d.key == e.tenantId + "/" + e.aggregateType + "/" + e.aggregateId
  }

  /** Row `i` is the first that cannot be loaded. */
  ghost predicate FailsAt(c: Codec, t: string, outbox: map<string, S.OutboxRow>, order: seq<string>, i: nat)
    requires i < |order| && forall id | id in order :: id in outbox
  {
    !Loads(c, t, outbox[order[i]]) && forall j | 0 <= j < i :: Loads(c, t, outbox[order[j]])
  }

  /** The first `n` rows give one record each, in order. */
  lemma {:induction false} LoadSoFar(c: Codec, t: string, outbox: map<string, S.OutboxRow>, order: seq<string>,
                                     budgets: seq<nat>, tie: TieBreak, n: nat)
    requires |budgets| == |order| && (forall id | id in order :: id in outbox) && n <= |order|
    requires forall i | 0 <= i < n :: Loads(c, t, outbox[order[i]])
    ensures var out := O.LoadedHistory(c, t, outbox, order[..n], budgets[..n], tie);
            && out.Records? && |out.records| == n
            && forall i | 0 <= i < n :: RecordOf(c, outbox[order[i]], i, out.records[i])
  {
    if n > 0 {
      LoadSoFar(c, t, outbox, order, budgets, tie, n - 1);
      assert order[..n][..n - 1] == order[..n - 1] && budgets[..n][..n - 1] == budgets[..n - 1];
      assert Loads(c, t, outbox[order[n - 1]]);
    }
  }

  /** A load gives one record a row, in order, or fails at the first row that is not readable or not the tenant's. */
  lemma LoadIsRowByRow(c: Codec, t: string, outbox: map<string, S.OutboxRow>, order: seq<string>, budgets: seq<nat>,
                       tie: TieBreak)
    requires |budgets| == |order| && forall id | id in order :: id in outbox
    ensures var out := O.LoadedHistory(c, t, outbox, order, budgets, tie);
            && ((forall i | 0 <= i < |order| :: Loads(c, t, outbox[order[i]])) ==>
                  out.Records? && |out.records| == |order|
                  && forall i | 0 <= i < |order| :: RecordOf(c, outbox[order[i]], i, out.records[i]))
            && (forall i | 0 <= i < |order| && FailsAt(c, t, outbox, order, i) ::
                  !out.Records? && O.LoadError(out) == if c.parse(outbox[order[i]].bytes).Err? then O.UnreadableHistory
                                                       else O.TenantMismatch)
  {
    hide RecordOf;
    if forall i | 0 <= i < |order| :: Loads(c, t, outbox[order[i]]) {
      LoadSoFar(c, t, outbox, order, budgets, tie, |order|);
      assert order[..|order|] == order && budgets[..|order|] == budgets;
    }
    forall i | 0 <= i < |order| && FailsAt(c, t, outbox, order, i)
      ensures O.LoadedHistory(c, t, outbox, order, budgets, tie)
           == if c.parse(outbox[order[i]].bytes).Err? then O.BadRow else O.ForeignRow
    {
      LoadSoFar(c, t, outbox, order, budgets, tie, i);
      LoadFails(c, t, outbox, order, budgets, tie, i);
      O.LoadStops(c, t, outbox, order, budgets, tie, i + 1);
    }
  }

  lemma LoadFails(c: Codec, t: string, outbox: map<string, S.OutboxRow>, order: seq<string>, budgets: seq<nat>,
                  tie: TieBreak, i: nat)
    requires |budgets| == |order| && (forall id | id in order :: id in outbox) && i < |order|
    requires O.LoadedHistory(c, t, outbox, order[..i], budgets[..i], tie).Records? && !Loads(c, t, outbox[order[i]])
    ensures O.LoadedHistory(c, t, outbox, order[..i + 1], budgets[..i + 1], tie)
         == if c.parse(outbox[order[i]].bytes).Err? then O.BadRow else O.ForeignRow
  {
    assert order[..i + 1][..i] == order[..i] && budgets[..i + 1][..i] == budgets[..i];
  }
}
