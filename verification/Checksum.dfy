/**
 Projection checksums: the rows of a tenant, sorted, written one per line with tabs between the fields, and hashed.
 */
module Checksum {
  import opened Events
  import opened Projection
  import opened Families
  import opened Utf16
  import opened Json
  import opened JsonRoundTrip
  import EC = EnvelopeCodec
  import I = TableInvariants
  import N = Interleaving

  /** A row is the sequence of its printed fields. */
  type Row = seq<string>

  // --- order ---------------------------------------------------------------------------------------

  function Points(s: string): seq<int> { seq(|s|, i requires 0 <= i < |s| => s[i] as int) }

  /** Go compares strings by their UTF-8 bytes, which is the order of their code points. */
  predicate LessText(a: string, b: string) { Before(Points(a), Points(b)) }

  lemma LessTextIsTotal(a: string, b: string)
    ensures !LessText(a, a)
    ensures a != b ==> LessText(a, b) != LessText(b, a)
  {
    BeforeIrreflexive(Points(a));
    if a != b {
      assert Points(a) != Points(b) by {
        if |a| == |b| {
          var i :| 0 <= i < |a| && a[i] != b[i];
          assert Points(a)[i] != Points(b)[i];
        }
      }
      BeforeTotal(Points(a), Points(b));
      if LessText(a, b) && LessText(b, a) {
        BeforeTransitive(Points(a), Points(b), Points(a));
      }
    }
  }

  /** The sort's comparison: the first of the `n` key fields that differs decides. */
  predicate LessRow(a: Row, b: Row, n: nat)
    requires n <= |a| && n <= |b|
  {
    if n == 0 then false
    else if a[0] != b[0] then LessText(a[0], b[0])
    else LessRow(a[1..], b[1..], n - 1)
  }

  lemma {:induction false} LessRowIsTotal(a: Row, b: Row, n: nat)
    requires n <= |a| && n <= |b|
    ensures !LessRow(a, a, n)
    ensures a[..n] != b[..n] ==> LessRow(a, b, n) != LessRow(b, a, n)
  {
    if n > 0 {
      LessTextIsTotal(a[0], b[0]);
      LessRowIsTotal(a[1..], b[1..], n - 1);
      assert a[..n] == [a[0]] + a[1..][..n - 1] && b[..n] == [b[0]] + b[1..][..n - 1];
    }
  }

  lemma {:induction false} LessRowIsTransitive(a: Row, b: Row, d: Row, n: nat)
    requires n <= |a| && n <= |b| && n <= |d| && LessRow(a, b, n) && LessRow(b, d, n)
    ensures LessRow(a, d, n)
  {
    if a[0] == b[0] && b[0] == d[0] {
      LessRowIsTransitive(a[1..], b[1..], d[1..], n - 1);
    } else if a[0] != b[0] && b[0] != d[0] {
      BeforeTransitive(Points(a[0]), Points(b[0]), Points(d[0]));
      BeforeIrreflexive(Points(a[0]));
    }
  }

  /** Rows of `m` fields that are in ascending order of their first `n`. */
  ghost predicate Ascending(rows: seq<Row>, n: nat, m: nat) {
    && n <= m
    && (forall i | 0 <= i < |rows| :: |rows[i]| == m)
    && (forall i, j | 0 <= i < j < |rows| :: LessRow(rows[i], rows[j], n))
  }

  ghost predicate IsTable(rows: seq<Row>, all: set<Row>, n: nat, m: nat) {
    Ascending(rows, n, m) && forall r :: r in rows <==> r in all
  }

  /** A set of rows has only one sorted table. */
  lemma {:induction false} TableUnique(a: seq<Row>, b: seq<Row>, all: set<Row>, n: nat, m: nat)
    requires IsTable(a, all, n, m) && IsTable(b, all, n, m)
    ensures a == b
    decreases |a|
  {
    assert a != [] ==> a[0] in a;
    assert b != [] ==> b[0] in b;
    if a != [] && b != [] {
      HeadsAgree(a, b, all, n, m);
      TailIsTable(a, all, n, m);
      TailIsTable(b, all, n, m);
      TableUnique(a[1..], b[1..], all - {a[0]}, n, m);
      assert a == [a[0]] + a[1..] && b == [b[0]] + b[1..];
    }
  }

  lemma HeadsAgree(a: seq<Row>, b: seq<Row>, all: set<Row>, n: nat, m: nat)
    requires IsTable(a, all, n, m) && IsTable(b, all, n, m) && a != [] && b != []
    ensures a[0] == b[0]
  {
    hide LessRow;
    assert a[0] in a && b[0] in b;
    assert a[0] in b && b[0] in a;
    var i :| 0 <= i < |b| && b[i] == a[0];
    var j :| 0 <= j < |a| && a[j] == b[0];
    if i > 0 && j > 0 {
      LessRowIsTransitive(a[0], b[0], a[0], n);
      LessRowIsTotal(a[0], a[0], n);
    }
  }

  lemma TailIsTable(a: seq<Row>, all: set<Row>, n: nat, m: nat)
    requires IsTable(a, all, n, m) && a != []
    ensures IsTable(a[1..], all - {a[0]}, n, m)
  {
    hide LessRow;
    assert a == [a[0]] + a[1..];
    LessRowIsTotal(a[0], a[0], n);
    forall r | r in a[1..] ensures r != a[0] {
      var i :| 0 <= i < |a[1..]| && a[1..][i] == r;
      assert LessRow(a[0], a[i + 1], n);
    }
  }

  // --- text ----------------------------------------------------------------------------------------

  function Line(r: Row): string {
    if r == [] then "" else if |r| == 1 then r[0] + ['\n'] else r[0] + ['\t'] + Line(r[1..])
  }

  function Lines(rows: seq<Row>): string {
    if rows == [] then "" else Line(rows[0]) + Lines(rows[1..])
  }

  predicate Plain(s: string) { '\t' !in s && '\n' !in s }

  ghost predicate PlainRow(r: Row, m: nat) { |r| == m && forall i | 0 <= i < |r| :: Plain(r[i]) }

  /** Where the first `sep` of `s` is. */
  function IndexOf(s: string, sep: char): nat {
    if s == "" || s[0] == sep then 0 else 1 + IndexOf(s[1..], sep)
  }

  lemma {:induction false} IndexOfEnd(a: string, sep: char, x: string)
    requires sep !in a
    ensures IndexOf(a + [sep] + x, sep) == |a|
  {
    if a == "" {
      assert (a + [sep] + x)[0] == sep;
    } else {
      assert (a + [sep] + x)[1..] == a[1..] + [sep] + x;
      IndexOfEnd(a[1..], sep, x);
    }
  }

  /** A separator that neither field holds ends both at the same place. */
  lemma SplitAt(a: string, b: string, sep: char, x: string, y: string)
    requires sep !in a && sep !in b && a + [sep] + x == b + [sep] + y
    ensures a == b && x == y
  {
    var s := a + [sep] + x;
    IndexOfEnd(a, sep, x);
    IndexOfEnd(b, sep, y);
    assert a == s[..|a|] && b == s[..|b|];
    assert x == s[|a| + 1..] && y == s[|b| + 1..];
  }

  lemma {:induction false} LineInjective(f: Row, g: Row, m: nat, x: string, y: string)
    requires m > 0 && PlainRow(f, m) && PlainRow(g, m) && Line(f) + x == Line(g) + y
    ensures f == g && x == y
  {
    var sep := if m == 1 then '\n' else '\t';
    var x' := if m == 1 then x else Line(f[1..]) + x;
    var y' := if m == 1 then y else Line(g[1..]) + y;
    assert Line(f) + x == f[0] + [sep] + x';
    assert Line(g) + y == g[0] + [sep] + y';
    SplitAt(f[0], g[0], sep, x', y');
    assert f == [f[0]] + f[1..] && g == [g[0]] + g[1..];
    if m > 1 {
      LineInjective(f[1..], g[1..], m - 1, x, y);
    }
  }

  /** The text determines the table. */
  lemma {:induction false} LinesInjective(a: seq<Row>, b: seq<Row>, m: nat)
    requires m > 0 && (forall r | r in a :: PlainRow(r, m)) && (forall r | r in b :: PlainRow(r, m))
    requires Lines(a) == Lines(b)
    ensures a == b
  {
    hide PlainRow;
    if a != [] {
      LineNotEmpty(a[0], m);
    }
    if b != [] {
      LineNotEmpty(b[0], m);
    }
    if a != [] && b != [] {
      LineInjective(a[0], b[0], m, Lines(a[1..]), Lines(b[1..]));
      LinesInjective(a[1..], b[1..], m);
      assert a == [a[0]] + a[1..] && b == [b[0]] + b[1..];
    }
  }

  lemma LineNotEmpty(r: Row, m: nat)
    requires m > 0 && PlainRow(r, m)
    ensures Line(r) != ""
  {
  }

  // --- numbers ---------------------------------------------------------------------------------------

  lemma PrintIntPlain(n: int)
    ensures Plain(PrintInt(n))
  {
    var d := Digits(if n < 0 then -n else n);
    DigitsAreDigits(if n < 0 then -n else n);
    forall i | 0 <= i < |d| ensures d[i] != '\t' && d[i] != '\n' {
      assert IsDigit(d[i]);
    }
  }

  lemma PrintIntInjective(a: int, b: int)
    requires PrintInt(a) == PrintInt(b)
    ensures a == b
  {
    var x, y := if a < 0 then -a else a, if b < 0 then -b else b;
    DigitsAreDigits(x);
    DigitsAreDigits(y);
    assert IsDigit(Digits(x)[0]) && IsDigit(Digits(y)[0]);
    if a < 0 {
      assert PrintInt(a)[0] == '-' && PrintInt(a)[1..] == Digits(x);
    }
    if b < 0 {
      assert PrintInt(b)[0] == '-' && PrintInt(b)[1..] == Digits(y);
    }
    DigitsReads(x);
    DigitsReads(y);
  }

  // --- tables and their text -------------------------------------------------------------------------

  /** `text` is the sorted rows of `all`, written out. */
  ghost predicate IsText(all: set<Row>, n: nat, m: nat, text: string) {
    exists rows :: IsTable(rows, all, n, m) && text == Lines(rows)
  }

  ghost predicate PlainRows(all: set<Row>, m: nat) { forall r | r in all :: PlainRow(r, m) }

  /** The text does not depend on the order the rows came in, and it is the same for two sets only if they are equal. */
  lemma TextIsFaithful(a: set<Row>, b: set<Row>, n: nat, m: nat, x: string, y: string)
    requires m > 0 && PlainRows(a, m) && PlainRows(b, m) && IsText(a, n, m, x) && IsText(b, n, m, y)
    ensures x == y <==> a == b
  {
    var p :| IsTable(p, a, n, m) && x == Lines(p);
    var q :| IsTable(q, b, n, m) && y == Lines(q);
    hide Ascending, Lines, PlainRow;
    if x == y {
      LinesInjective(p, q, m);
      assert forall r :: r in a <==> r in b;
    }
    if a == b {
      TableUnique(p, q, a, n, m);
    }
  }

  // --- the inventory checksum ------------------------------------------------------------------------

  /** The printed row; `lower` is strings.ToLower. */
  function ItemFields(lower: string -> string, k: ItemKey, row: ItemRow): Row {
    [lower(k.tenant), lower(k.item), PrintInt(row.quantity), PrintInt(row.version)]
  }

  /** The tenant's rows of inventory_projection. */
  function ItemRows(lower: string -> string, items: map<ItemKey, ItemRow>, t: string): set<Row> {
    set k | k in items && k.tenant == t :: ItemFields(lower, k, items[k])
  }

  /** Keys as validated events leave them: lower case, without tab or newline. */
  ghost predicate CanonicalItems(lower: string -> string, items: map<ItemKey, ItemRow>, t: string) {
    forall k | k in items && k.tenant == t ::
      lower(k.tenant) == k.tenant && lower(k.item) == k.item && Plain(k.tenant) && Plain(k.item)
  }

  ghost predicate SameItems(a: map<ItemKey, ItemRow>, b: map<ItemKey, ItemRow>, t: string) {
    forall k: ItemKey | k.tenant == t :: (k in a <==> k in b) && (k in a ==> a[k] == b[k])
  }

  lemma ItemRowsPlain(lower: string -> string, items: map<ItemKey, ItemRow>, t: string)
    requires CanonicalItems(lower, items, t)
    ensures PlainRows(ItemRows(lower, items, t), 4)
  {
    hide Plain, PrintInt;
    forall r | r in ItemRows(lower, items, t) ensures PlainRow(r, 4) {
      var k :| k in items && k.tenant == t && r == ItemFields(lower, k, items[k]);
      PrintIntPlain(items[k].quantity);
      PrintIntPlain(items[k].version);
    }
  }

  lemma RowsDetermineItems(lower: string -> string, a: map<ItemKey, ItemRow>, b: map<ItemKey, ItemRow>, t: string)
    requires CanonicalItems(lower, a, t) && CanonicalItems(lower, b, t)
    ensures ItemRows(lower, a, t) == ItemRows(lower, b, t) <==> SameItems(a, b, t)
  {
    if ItemRows(lower, a, t) == ItemRows(lower, b, t) {
      forall k: ItemKey | k.tenant == t
        ensures (k in a ==> k in b && a[k] == b[k]) && (k in b ==> k in a && a[k] == b[k])
      {
        if k in a {
          ItemFromRows(lower, a, b, t, k);
        }
        if k in b {
          ItemFromRows(lower, b, a, t, k);
        }
      }
    }
    hide ItemFields;
  }

  lemma ItemFromRows(lower: string -> string, a: map<ItemKey, ItemRow>, b: map<ItemKey, ItemRow>, t: string, k: ItemKey)
    requires CanonicalItems(lower, a, t) && CanonicalItems(lower, b, t)
    requires ItemRows(lower, a, t) <= ItemRows(lower, b, t) && k in a && k.tenant == t
    ensures k in b && a[k] == b[k]
  {
    hide PrintInt;
    var r := ItemFields(lower, k, a[k]);
    assert r in ItemRows(lower, a, t);
    assert r in ItemRows(lower, b, t);
    var k' :| k' in b && k'.tenant == t && r == ItemFields(lower, k', b[k']);
    assert r[1] == lower(k'.item) && r[2] == PrintInt(b[k'].quantity) && r[3] == PrintInt(b[k'].version);
    PrintIntInjective(a[k].quantity, b[k'].quantity);
    PrintIntInjective(a[k].version, b[k'].version);
  }

  /** Two projections of validated events have the same checksum exactly when the tenant's rows are the same. */
  lemma TenantChecksumIsFaithful(lower: string -> string, digest: string -> string,
                                 a: map<ItemKey, ItemRow>, b: map<ItemKey, ItemRow>, t: string, x: string, y: string)
    requires forall u, v :: digest(u) == digest(v) ==> u == v
    requires CanonicalItems(lower, a, t) && CanonicalItems(lower, b, t)
    requires IsText(ItemRows(lower, a, t), 2, 4, x) && IsText(ItemRows(lower, b, t), 2, 4, y)
    ensures digest(x) == digest(y) <==> SameItems(a, b, t)
  {
    hide ItemRows, SameItems, CanonicalItems, IsText, PlainRows;
    ItemRowsPlain(lower, a, t);
    ItemRowsPlain(lower, b, t);
    TextIsFaithful(ItemRows(lower, a, t), ItemRows(lower, b, t), 2, 4, x, y);
    RowsDetermineItems(lower, a, b, t);
  }

  // --- the lineage checksum --------------------------------------------------------------------------

  function HopFields(lower: string -> string, k: HopKey, row: HopRow): Row {
    [AggregateTypeName(k.kind), lower(k.tenant), lower(k.id), lower(row.parent), lower(row.item), lower(row.order),
     PrintInt(row.version), lower(row.source), PrintInt(row.schema)]
  }

  function HopRows(lower: string -> string, hops: map<HopKey, HopRow>, t: string): set<Row> {
    set k | k in hops && k.tenant == t :: HopFields(lower, k, hops[k])
  }

  /** Ids of hops are lower case; event and order ids may be in either case. */
  ghost predicate CanonicalHops(lower: string -> string, hops: map<HopKey, HopRow>, t: string) {
    forall k | k in hops && k.tenant == t ::
      && lower(k.tenant) == k.tenant && lower(k.id) == k.id && Plain(k.tenant) && Plain(k.id)
      && var row := hops[k];
      && lower(row.parent) == row.parent && lower(row.item) == row.item && Plain(row.parent) && Plain(row.item)
      && Plain(lower(row.order)) && Plain(lower(row.source))
  }

  /** The checksummed columns agree; event and order ids agree up to case. */
  predicate SameColumns(lower: string -> string, a: HopRow, b: HopRow) {
    && a.parent == b.parent && a.item == b.item && lower(a.order) == lower(b.order)
    && a.version == b.version && lower(a.source) == lower(b.source) && a.schema == b.schema
  }

  ghost predicate SameHops(lower: string -> string, a: map<HopKey, HopRow>, b: map<HopKey, HopRow>, t: string) {
    forall k: HopKey | k.tenant == t :: (k in a <==> k in b) && (k in a ==> SameColumns(lower, a[k], b[k]))
  }

  lemma KindNames(a: Kind, b: Kind)
    ensures Plain(AggregateTypeName(a))
    ensures AggregateTypeName(a) == AggregateTypeName(b) ==> a == b
  {
    assert AggregateTypeName(Supplier)[1] == 'u' && AggregateTypeName(Shipment)[1] == 'h';
    assert AggregateTypeName(InventoryItem)[2] == 'v' && AggregateTypeName(IngredientLot)[2] == 'g';
  }

  lemma HopRowsPlain(lower: string -> string, hops: map<HopKey, HopRow>, t: string)
    requires CanonicalHops(lower, hops, t)
    ensures PlainRows(HopRows(lower, hops, t), 9)
  {
    hide Plain, PrintInt, AggregateTypeName;
    forall r | r in HopRows(lower, hops, t) ensures PlainRow(r, 9) {
      var k :| k in hops && k.tenant == t && r == HopFields(lower, k, hops[k]);
      PrintIntPlain(hops[k].version);
      PrintIntPlain(hops[k].schema);
      KindNames(k.kind, k.kind);
    }
  }

  lemma HopFromRows(lower: string -> string, a: map<HopKey, HopRow>, b: map<HopKey, HopRow>, t: string, k: HopKey)
    requires CanonicalHops(lower, a, t) && CanonicalHops(lower, b, t)
    requires HopRows(lower, a, t) <= HopRows(lower, b, t) && k in a && k.tenant == t
    ensures k in b && SameColumns(lower, a[k], b[k])
  {
    hide PrintInt, Plain, AggregateTypeName;
    var r := HopFields(lower, k, a[k]);
    assert r in HopRows(lower, a, t);
    assert r in HopRows(lower, b, t);
    var k' :| k' in b && k'.tenant == t && r == HopFields(lower, k', b[k']);
    var s := HopFields(lower, k', b[k']);
    assert r[0] == s[0] && r[2] == s[2] && r[3] == s[3] && r[4] == s[4];
    assert r[5] == s[5] && r[6] == s[6] && r[7] == s[7] && r[8] == s[8];
    KindNames(k.kind, k'.kind);
    PrintIntInjective(a[k].version, b[k'].version);
    PrintIntInjective(a[k].schema, b[k'].schema);
  }

  lemma HopsToRows(lower: string -> string, a: map<HopKey, HopRow>, b: map<HopKey, HopRow>, t: string)
    requires SameHops(lower, a, b, t)
    ensures HopRows(lower, a, t) <= HopRows(lower, b, t)
  {
    forall r | r in HopRows(lower, a, t) ensures r in HopRows(lower, b, t) {
      var k :| k in a && k.tenant == t && r == HopFields(lower, k, a[k]);
      assert SameColumns(lower, a[k], b[k]);
      assert HopFields(lower, k, b[k]) == r;
    }
  }

  /** Two lineage projections have the same checksum exactly when their checksummed columns are the same. */
  lemma LineageChecksumIsFaithful(lower: string -> string, digest: string -> string,
                                  a: map<HopKey, HopRow>, b: map<HopKey, HopRow>, t: string, x: string, y: string)
    requires forall u, v :: digest(u) == digest(v) ==> u == v
    requires CanonicalHops(lower, a, t) && CanonicalHops(lower, b, t)
    requires IsText(HopRows(lower, a, t), 3, 9, x) && IsText(HopRows(lower, b, t), 3, 9, y)
    ensures digest(x) == digest(y) <==> SameHops(lower, a, b, t)
  {
    hide HopRows, CanonicalHops, IsText, PlainRows, SameColumns;
    HopRowsPlain(lower, a, t);
    HopRowsPlain(lower, b, t);
    TextIsFaithful(HopRows(lower, a, t), HopRows(lower, b, t), 3, 9, x, y);
    if HopRows(lower, a, t) == HopRows(lower, b, t) {
      forall k: HopKey | k.tenant == t
        ensures (k in a ==> k in b && SameColumns(lower, a[k], b[k])) && (k in b ==> k in a)
      {
        if k in a {
          HopFromRows(lower, a, b, t, k);
        }
        if k in b {
          HopFromRows(lower, b, a, t, k);
        }
      }
    }
    if SameHops(lower, a, b, t) {
      HopsToRows(lower, a, b, t);
      SameHopsSymmetric(lower, a, b, t);
      HopsToRows(lower, b, a, t);
    }
  }

  lemma SameHopsSymmetric(lower: string -> string, a: map<HopKey, HopRow>, b: map<HopKey, HopRow>, t: string)
    requires SameHops(lower, a, b, t)
    ensures SameHops(lower, b, a, t)
  {
  }

  // --- reachable projections -------------------------------------------------------------------------

  function AsciiLower(c: char): char {
    if 'A' <= c <= 'Z' then (c as int + 32) as char else c
  }

  /**
   `lower` is strings.ToLower, character by character and as usual on ASCII; lower case is what it leaves alone; tab
   and newline are white space.
   */
  ghost predicate Lowers(rules: EC.TextRules, lower: string -> string) {
    && (forall s :: rules.isLower(s) <==> lower(s) == s)
    && (forall s :: |lower(s)| == |s|)
    && (forall s, i | 0 <= i < |s| && s[i] as int < 128 :: lower(s)[i] == AsciiLower(s[i]))
    && rules.isSpace('\t') && rules.isSpace('\n')
  }

  lemma UuidLowerPlain(rules: EC.TextRules, lower: string -> string, s: string)
    requires Lowers(rules, lower) && EC.IsUuid(s)
    ensures Plain(lower(s)) && Plain(s)
  {
    forall i | 0 <= i < |s| ensures lower(s)[i] != '\t' && lower(s)[i] != '\n' && s[i] != '\t' && s[i] != '\n' {
      if i != 8 && i != 13 && i != 18 && i != 23 {
        assert EC.IsHexDigit(s[i]);
      }
      assert s[i] as int < 128;
    }
  }

  lemma IdPlain(rules: EC.TextRules, lower: string -> string, s: string)
    requires Lowers(rules, lower) && (s == "" || EC.IsCanonicalId(rules, s))
    ensures lower(s) == s && Plain(s)
  {
  }

  /** The key of a valid event, and the columns of the hop it writes, are canonical. */
  lemma ValidIsCanonical(rules: EC.TextRules, lower: string -> string, env: Envelope)
    requires Lowers(rules, lower) && EC.Validate(rules, env) == None
    ensures lower(env.tenantId) == env.tenantId && Plain(env.tenantId)
    ensures lower(env.aggregateId) == env.aggregateId && Plain(env.aggregateId)
    ensures var row := HopOf(env);
            && lower(row.parent) == row.parent && lower(row.item) == row.item && Plain(row.parent) && Plain(row.item)
            && Plain(lower(row.order)) && Plain(lower(row.source))
  {
    hide FamilyOf, EC.IsUuid, EC.IsCanonicalId, Plain, Lowers;
    assert EC.IsUuid(env.tenantId) && EC.IsUuid(env.eventId) && EC.IsCanonicalId(rules, env.aggregateId);
    assert EC.PayloadValid(rules, env) && rules.isLower(env.tenantId);
    UuidLowerPlain(rules, lower, env.tenantId);
    UuidLowerPlain(rules, lower, env.eventId);
    IsLowerMeans(rules, lower, env.tenantId);
    var row := HopOf(env);
    IdPlain(rules, lower, env.aggregateId);
    IdPlain(rules, lower, row.parent);
    IdPlain(rules, lower, row.item);
    if env.payload.ShipmentDispatched? {
      UuidLowerPlain(rules, lower, row.order);
    } else {
      IdPlain(rules, lower, row.order);
    }
  }

  lemma IsLowerMeans(rules: EC.TextRules, lower: string -> string, s: string)
    requires Lowers(rules, lower) && rules.isLower(s)
    ensures lower(s) == s
  {
  }

  /** A projection written by valid events is canonical for every tenant. */
  lemma WrittenIsCanonical(rules: EC.TextRules, lower: string -> string, digest: string -> string, db: Db, t: string)
    requires Lowers(rules, lower) && I.RowsFromEvents(EC.JsonCodec(rules, digest), db)
    ensures CanonicalItems(lower, db.items, t) && CanonicalHops(lower, db.hops, t)
  {
    hide EC.Validate, Plain, HopOf, Lowers;
    var c := EC.JsonCodec(rules, digest);
    forall k | k in db.items
      ensures lower(k.tenant) == k.tenant && lower(k.item) == k.item && Plain(k.tenant) && Plain(k.item)
    {
      assert I.ItemFromEvent(c, k);
      var e :| c.valid(e) && e.payload.QuantityDecremented? && ItemKeyOf(e) == k;
      ValidIsCanonical(rules, lower, e);
    }
    forall k | k in db.hops
      ensures lower(k.tenant) == k.tenant && lower(k.id) == k.id && Plain(k.tenant) && Plain(k.id)
      ensures var row := db.hops[k];
              && lower(row.parent) == row.parent && lower(row.item) == row.item && Plain(row.parent) && Plain(row.item)
              && Plain(lower(row.order)) && Plain(lower(row.source))
    {
      assert I.HopFromEvent(c, k, db.hops[k]);
      var e :| c.valid(e) && HopKeyOf(e) == k && HopOf(e) == db.hops[k];
      ValidIsCanonical(rules, lower, e);
    }
  }

  /** The tables after any deliveries at all, one after another. */
  ghost function After(rules: EC.TextRules, digest: string -> string, ds: seq<Delivery>): Db {
    Run(EC.JsonCodec(rules, digest), Trace(EMPTY_DB, []), ds).db
  }

  /** The tables after any interleaving of the operations of any deliveries. */
  ghost function Interleaved(rules: EC.TextRules, digest: string -> string, steps: seq<N.DeskStep>): Db {
    N.RunDesk(EC.JsonCodec(rules, digest), N.EMPTY_DESK, steps).db
  }

  /** The tables some run of deliveries ends in. */
  ghost predicate Reachable(rules: EC.TextRules, digest: string -> string, db: Db) {
    (exists ds :: db == After(rules, digest, ds)) || (exists steps :: db == Interleaved(rules, digest, steps))
  }

  /** Every reachable projection is canonical: no delivery, valid or not, writes any other key. */
  lemma ReachableIsCanonical(rules: EC.TextRules, lower: string -> string, digest: string -> string, db: Db, t: string)
    requires Lowers(rules, lower) && (forall u, v :: digest(u) == digest(v) ==> u == v) && Reachable(rules, digest, db)
    ensures CanonicalItems(lower, db.items, t) && CanonicalHops(lower, db.hops, t)
  {
    hide EC.JsonCodec, Lowers, Codec.Lawful, Run, N.RunDesk, I.RowsFromEvents, CanonicalItems, CanonicalHops;
    EC.JsonCodecIsLawful(rules, digest);
    if ds :| db == After(rules, digest, ds) {
      I.EveryRowFromEvent(EC.JsonCodec(rules, digest), ds, []);
    } else {
      var steps :| db == Interleaved(rules, digest, steps);
      I.EveryRowFromEvent(EC.JsonCodec(rules, digest), [], steps);
    }
    WrittenIsCanonical(rules, lower, digest, db, t);
  }

  /**
   Two projections, each reached by any deliveries one after another or interleaved in any way, have the same inventory
   checksum exactly when the tenant's inventory rows are the same, and the same lineage checksum exactly when the
   checksummed lineage columns are.
   */
  lemma ChecksumsAreFaithful(rules: EC.TextRules, lower: string -> string, digest: string -> string, a: Db, b: Db, t: string,
                             x: string, y: string, u: string, v: string)
    requires Lowers(rules, lower) && (forall p, q :: digest(p) == digest(q) ==> p == q)
    requires Reachable(rules, digest, a) && Reachable(rules, digest, b)
    requires IsText(ItemRows(lower, a.items, t), 2, 4, x) && IsText(ItemRows(lower, b.items, t), 2, 4, y)
    requires IsText(HopRows(lower, a.hops, t), 3, 9, u) && IsText(HopRows(lower, b.hops, t), 3, 9, v)
    ensures digest(x) == digest(y) <==> SameItems(a.items, b.items, t)
    ensures digest(u) == digest(v) <==> SameHops(lower, a.hops, b.hops, t)
  {
    hide Reachable, ItemRows, HopRows, IsText, SameItems, SameHops, CanonicalItems, CanonicalHops;
    ReachableIsCanonical(rules, lower, digest, a, t);
    ReachableIsCanonical(rules, lower, digest, b, t);
    TenantChecksumIsFaithful(lower, digest, a.items, b.items, t, x, y);
    LineageChecksumIsFaithful(lower, digest, a.hops, b.hops, t, u, v);
  }

  // --- the text, byte by byte --------------------------------------------------------------------------

  /** One key of the tenant after another, by item id. */
  ghost predicate ItemsInOrder(items: map<ItemKey, ItemRow>, t: string, ks: seq<ItemKey>) {
    && (forall k :: k in ks <==> k in items && k.tenant == t)
    && (forall i, j | 0 <= i < j < |ks| :: LessText(ks[i].item, ks[j].item))
  }

  /** Tenant, item, quantity on hand and version, tab separated, one line an item. */
  function ItemText(items: map<ItemKey, ItemRow>, ks: seq<ItemKey>): string
    requires forall k | k in ks :: k in items
  {
    if ks == [] then ""
    else
      var k := ks[0];
      k.tenant + "\t" + k.item + "\t" + PrintInt(items[k].quantity) + "\t" + PrintInt(items[k].version) + "\n"
      + ItemText(items, ks[1..])
  }

  /** One hop of the tenant after another, by kind and then by id. */
  ghost predicate HopsInOrder(hops: map<HopKey, HopRow>, t: string, ks: seq<HopKey>) {
    && (forall k :: k in ks <==> k in hops && k.tenant == t)
    && (forall i, j | 0 <= i < j < |ks| ::
          if ks[i].kind == ks[j].kind then LessText(ks[i].id, ks[j].id)
          else LessText(AggregateTypeName(ks[i].kind), AggregateTypeName(ks[j].kind)))
  }

  /** Kind, tenant, id, parent, item, order, version, source event and schema, tab separated, one line a hop. */
  function HopText(lower: string -> string, hops: map<HopKey, HopRow>, ks: seq<HopKey>): string
    requires forall k | k in ks :: k in hops
  {
    if ks == [] then ""
    else
      var k := ks[0];
      var r := hops[k];
      AggregateTypeName(k.kind) + "\t" + k.tenant + "\t" + k.id + "\t" + r.parent + "\t" + r.item + "\t" + lower(r.order) + "\t"
      + PrintInt(r.version) + "\t" + lower(r.source) + "\t" + PrintInt(r.schema) + "\n" + HopText(lower, hops, ks[1..])
  }

  lemma LineCons(a: string, r: Row)
    requires r != []
    ensures Line([a] + r) == a + "\t" + Line(r)
  {
    assert ([a] + r)[1..] == r;
  }

  lemma LineOfFour(a: string, b: string, c: string, d: string)
    ensures Line([a, b, c, d]) == a + "\t" + b + "\t" + c + "\t" + d + "\n"
  {
    LineCons(a, [b, c, d]);
    LineCons(b, [c, d]);
    LineCons(c, [d]);
    assert [a] + [b, c, d] == [a, b, c, d] && [b] + [c, d] == [b, c, d] && [c] + [d] == [c, d];
  }

  lemma LineAfterFour(a: string, b: string, c: string, d: string, r: Row)
    requires r != []
    ensures Line([a, b, c, d] + r) == a + "\t" + b + "\t" + c + "\t" + d + "\t" + Line(r)
  {
    LineCons(a, [b, c, d] + r);
    LineCons(b, [c, d] + r);
    LineCons(c, [d] + r);
    LineCons(d, r);
    assert [a] + ([b, c, d] + r) == [a, b, c, d] + r && [b] + ([c, d] + r) == [b, c, d] + r && [c] + ([d] + r) == [c, d] + r;
  }

  lemma Regroup(p: string, q: string, x: string)
    ensures p + (q + x) == p + q + x
  {
  }

  lemma LineOfNine(a: string, b: string, c: string, d: string, e: string, f: string, g: string, h: string, i: string)
    ensures Line([a, b, c, d, e, f, g, h, i])
         == a + "\t" + b + "\t" + c + "\t" + d + "\t" + e + "\t" + f + "\t" + g + "\t" + h + "\t" + i + "\n"
  {
    hide Line;
    assert [a, b, c, d] + [e, f, g, h, i] == [a, b, c, d, e, f, g, h, i] && [e] + [f, g, h, i] == [e, f, g, h, i];
    LineAfterFour(a, b, c, d, [e, f, g, h, i]);
    LineCons(e, [f, g, h, i]);
    LineOfFour(f, g, h, i);
    var p := a + "\t" + b + "\t" + c + "\t" + d + "\t";
    Regroup(p, e + "\t", f + "\t" + g + "\t" + h + "\t" + i + "\n");
    Regroup(p, e, "\t");
    AppendFour(p + e + "\t", f, g, h, i);
  }

  lemma AppendFour(p: string, a: string, b: string, c: string, d: string)
    ensures p + (a + "\t" + b + "\t" + c + "\t" + d + "\n") == p + a + "\t" + b + "\t" + c + "\t" + d + "\n"
  {
    Regroup(p, a + "\t" + b + "\t" + c + "\t" + d, "\n");
    Regroup(p, a + "\t" + b + "\t" + c + "\t", d);
    Regroup(p, a + "\t" + b + "\t" + c, "\t");
    Regroup(p, a + "\t" + b + "\t", c);
    Regroup(p, a + "\t" + b, "\t");
    Regroup(p, a + "\t", b);
    Regroup(p, a, "\t");
  }

  lemma {:induction false} ItemLines(lower: string -> string, items: map<ItemKey, ItemRow>, t: string, ks: seq<ItemKey>,
                                     rows: seq<Row>)
    requires CanonicalItems(lower, items, t) && |rows| == |ks|
    requires forall i | 0 <= i < |ks| :: ks[i] in items && ks[i].tenant == t
    requires forall i | 0 <= i < |ks| :: rows[i] == ItemFields(lower, ks[i], items[ks[i]])
    ensures (forall k | k in ks :: k in items) && Lines(rows) == ItemText(items, ks)
  {
    if ks != [] {
      hide PrintInt, Plain, Line;
      ItemLines(lower, items, t, ks[1..], rows[1..]);
      var k := ks[0];
      LineOfFour(k.tenant, k.item, PrintInt(items[k].quantity), PrintInt(items[k].version));
    }
  }

  lemma ItemsOrdered(lower: string -> string, items: map<ItemKey, ItemRow>, t: string, a: ItemKey, b: ItemKey)
    requires CanonicalItems(lower, items, t) && a in items && b in items && a.tenant == t && b.tenant == t
    requires LessText(a.item, b.item)
    ensures LessRow(ItemFields(lower, a, items[a]), ItemFields(lower, b, items[b]), 2)
  {
    hide LessText, PrintInt, Plain;
    var x, y := ItemFields(lower, a, items[a]), ItemFields(lower, b, items[b]);
    assert x[0] == y[0] && x[1..][0] == a.item && y[1..][0] == b.item;
    LessTextIsTotal(a.item, a.item);
  }

  lemma ItemTextIs(lower: string -> string, items: map<ItemKey, ItemRow>, t: string, ks: seq<ItemKey>, x: string)
    requires CanonicalItems(lower, items, t) && ItemsInOrder(items, t, ks)
    ensures (forall k | k in ks :: k in items) && (IsText(ItemRows(lower, items, t), 2, 4, x) <==> x == ItemText(items, ks))
  {
    hide CanonicalItems, LessText, LessRow, Lines, ItemText, PrintInt;
    forall i | 0 <= i < |ks| ensures ks[i] in items && ks[i].tenant == t {
      assert ks[i] in ks;
    }
    var rows := seq(|ks|, i requires 0 <= i < |ks| && ks[i] in items => ItemFields(lower, ks[i], items[ks[i]]));
    ItemLines(lower, items, t, ks, rows);
    forall i, j | 0 <= i < j < |rows| ensures LessRow(rows[i], rows[j], 2) {
      ItemsOrdered(lower, items, t, ks[i], ks[j]);
    }
    var all := ItemRows(lower, items, t);
    forall r ensures r in rows <==> r in all {
      if r in all {
        var k :| k in items && k.tenant == t && r == ItemFields(lower, k, items[k]);
        var i :| 0 <= i < |ks| && ks[i] == k;
        assert rows[i] == r;
      }
    }
    assert IsTable(rows, all, 2, 4);
    if IsText(all, 2, 4, x) {
      var p :| IsTable(p, all, 2, 4) && x == Lines(p);
      TableUnique(p, rows, all, 2, 4);
    }
  }

  lemma {:induction false} HopLines(lower: string -> string, hops: map<HopKey, HopRow>, t: string, ks: seq<HopKey>,
                                    rows: seq<Row>)
    requires CanonicalHops(lower, hops, t) && |rows| == |ks|
    requires forall i | 0 <= i < |ks| :: ks[i] in hops && ks[i].tenant == t
    requires forall i | 0 <= i < |ks| :: rows[i] == HopFields(lower, ks[i], hops[ks[i]])
    ensures (forall k | k in ks :: k in hops) && Lines(rows) == HopText(lower, hops, ks)
  {
    if ks != [] {
      hide PrintInt, Plain, Line, AggregateTypeName;
      HopLines(lower, hops, t, ks[1..], rows[1..]);
      var k := ks[0];
      var r := hops[k];
      LineOfNine(AggregateTypeName(k.kind), k.tenant, k.id, r.parent, r.item, lower(r.order), PrintInt(r.version),
                 lower(r.source), PrintInt(r.schema));
    }
  }

  lemma HopsOrdered(lower: string -> string, hops: map<HopKey, HopRow>, t: string, a: HopKey, b: HopKey)
    requires CanonicalHops(lower, hops, t) && a in hops && b in hops && a.tenant == t && b.tenant == t
    requires if a.kind == b.kind then LessText(a.id, b.id) else LessText(AggregateTypeName(a.kind), AggregateTypeName(b.kind))
    ensures LessRow(HopFields(lower, a, hops[a]), HopFields(lower, b, hops[b]), 3)
  {
    hide LessText, PrintInt, Plain, AggregateTypeName;
    var x, y := HopFields(lower, a, hops[a]), HopFields(lower, b, hops[b]);
    KindNames(a.kind, b.kind);
    assert x[1..][0] == t && y[1..][0] == t && x[1..][1..][0] == a.id && y[1..][1..][0] == b.id;
    LessTextIsTotal(a.id, a.id);
    assert a.kind == b.kind ==> LessRow(x[1..][1..], y[1..][1..], 1);
    assert a.kind == b.kind ==> LessRow(x[1..], y[1..], 2);
  }

  lemma HopTextIs(lower: string -> string, hops: map<HopKey, HopRow>, t: string, ks: seq<HopKey>, x: string)
    requires CanonicalHops(lower, hops, t) && HopsInOrder(hops, t, ks)
    ensures (forall k | k in ks :: k in hops) && (IsText(HopRows(lower, hops, t), 3, 9, x) <==> x == HopText(lower, hops, ks))
  {
    hide CanonicalHops, LessText, LessRow, Lines, HopText, PrintInt, AggregateTypeName;
    forall i | 0 <= i < |ks| ensures ks[i] in hops && ks[i].tenant == t {
      assert ks[i] in ks;
    }
    var rows := seq(|ks|, i requires 0 <= i < |ks| && ks[i] in hops => HopFields(lower, ks[i], hops[ks[i]]));
    HopLines(lower, hops, t, ks, rows);
    forall i, j | 0 <= i < j < |rows| ensures LessRow(rows[i], rows[j], 3) {
      HopsOrdered(lower, hops, t, ks[i], ks[j]);
    }
    var all := HopRows(lower, hops, t);
    forall r ensures r in rows <==> r in all {
      if r in all {
        var k :| k in hops && k.tenant == t && r == HopFields(lower, k, hops[k]);
        var i :| 0 <= i < |ks| && ks[i] == k;
        assert rows[i] == r;
      }
    }
    assert IsTable(rows, all, 3, 9);
    if IsText(all, 3, 9, x) {
      var p :| IsTable(p, all, 3, 9) && x == Lines(p);
      TableUnique(p, rows, all, 3, 9);
    }
  }

  /** What is digested of a reachable projection: one line a row, its columns in this order, the rows by their keys. */
  lemma ChecksumTextsAre(rules: EC.TextRules, lower: string -> string, digest: string -> string, db: Db, t: string,
                         items: seq<ItemKey>, hops: seq<HopKey>, x: string, u: string)
    requires Lowers(rules, lower) && (forall p, q :: digest(p) == digest(q) ==> p == q) && Reachable(rules, digest, db)
    requires ItemsInOrder(db.items, t, items) && HopsInOrder(db.hops, t, hops)
    ensures (forall k | k in items :: k in db.items) && (forall k | k in hops :: k in db.hops)
    ensures IsText(ItemRows(lower, db.items, t), 2, 4, x) <==> x == ItemText(db.items, items)
    ensures IsText(HopRows(lower, db.hops, t), 3, 9, u) <==> u == HopText(lower, db.hops, hops)
  {
    hide Reachable, ItemRows, HopRows, IsText, CanonicalItems, CanonicalHops, ItemsInOrder, HopsInOrder, ItemText, HopText;
    ReachableIsCanonical(rules, lower, digest, db, t);
    ItemTextIs(lower, db.items, t, items, x);
    HopTextIs(lower, db.hops, t, hops, u);
  }

  // --- the program -----------------------------------------------------------------------------------

  /** In order of the key fields; rows that agree on them may come in any order. */
  ghost predicate Sorted(rows: seq<Row>, n: nat, m: nat) {
    && n <= m
    && (forall i | 0 <= i < |rows| :: |rows[i]| == m)
    && (forall i, j | 0 <= i < j < |rows| :: !LessRow(rows[j], rows[i], n))
  }

  ghost predicate DistinctKeys(rows: seq<Row>, n: nat, m: nat)
  {
    && n <= m
    && (forall i | 0 <= i < |rows| :: |rows[i]| == m)
    && (forall i, j | 0 <= i < j < |rows| :: rows[i][..n] != rows[j][..n])
  }

  /** sort.Slice by the key fields, here by insertion. */
  method SortRows(list: seq<Row>, n: nat, m: nat) returns (rows: seq<Row>)
    requires n <= m && forall i | 0 <= i < |list| :: |list[i]| == m
    ensures Sorted(rows, n, m) && multiset(rows) == multiset(list)
  {
    hide LessRow;
    rows := [];
    var i := 0;
    while i < |list|
      invariant 0 <= i <= |list|
      invariant Sorted(rows, n, m)
      invariant multiset(rows) == multiset(list[..i])
    {
      var r := list[i];
      var j := Place(rows, r, n, m);
      InsertSorted(rows, r, j, n, m);
      assert rows == rows[..j] + rows[j..];
      assert list[..i + 1] == list[..i] + [r];
      rows := rows[..j] + [r] + rows[j..];
      i := i + 1;
    }
    assert list[..i] == list;
  }

  /** After every row that is not greater. */
  method Place(rows: seq<Row>, r: Row, n: nat, m: nat) returns (j: nat)
    requires Sorted(rows, n, m) && |r| == m
    ensures j <= |rows|
    ensures forall i | 0 <= i < j :: !LessRow(r, rows[i], n)
    ensures forall i | j <= i < |rows| :: !LessRow(rows[i], r, n)
  {
    hide LessRow;
    j := 0;
    while j < |rows| && !LessRow(r, rows[j], n)
      invariant j <= |rows|
      invariant forall i | 0 <= i < j :: !LessRow(r, rows[i], n)
    {
      j := j + 1;
    }
    forall i | j <= i < |rows| ensures !LessRow(rows[i], r, n) {
      if LessRow(rows[i], r, n) {
        LessRowIsTransitive(rows[i], r, rows[j], n);
        LessRowIsTotal(rows[j], rows[j], n);
      }
    }
  }

  lemma InsertSorted(rows: seq<Row>, r: Row, j: nat, n: nat, m: nat)
    requires Sorted(rows, n, m) && |r| == m && j <= |rows|
    requires forall i | 0 <= i < j :: !LessRow(r, rows[i], n)
    requires forall i | j <= i < |rows| :: !LessRow(rows[i], r, n)
    ensures Sorted(rows[..j] + [r] + rows[j..], n, m)
  {
    hide LessRow;
    var all := rows[..j] + [r] + rows[j..];
    forall i | 0 <= i < |all| ensures |all[i]| == m {
      assert all[i] == if i < j then rows[i] else if i == j then r else rows[i - 1];
    }
    forall a, b | 0 <= a < b < |all| ensures !LessRow(all[b], all[a], n) {
      assert all[a] == if a < j then rows[a] else if a == j then r else rows[a - 1];
      assert all[b] == if b < j then rows[b] else if b == j then r else rows[b - 1];
    }
  }

  lemma Twice(rows: seq<Row>, i: nat, j: nat)
    requires i < j < |rows| && rows[i] == rows[j]
    ensures multiset(rows)[rows[i]] >= 2
  {
    assert rows == rows[..j] + [rows[j]] + rows[j + 1..];
    assert rows[..j][i] == rows[i];
    assert rows[i] in multiset(rows[..j]);
  }

  lemma {:induction false} AtMostOnce(list: seq<Row>, n: nat, m: nat, r: Row)
    requires DistinctKeys(list, n, m)
    ensures multiset(list)[r] <= 1
  {
    if list != [] {
      var init, last := list[..|list| - 1], list[|list| - 1];
      assert list == init + [last];
      AtMostOnce(init, n, m, r);
      assert last !in init;
      assert multiset(init)[last] == 0;
    }
  }

  /** Sorted rows with distinct keys are the one table of those rows. */
  lemma SortedIsTable(rows: seq<Row>, list: seq<Row>, all: set<Row>, n: nat, m: nat)
    requires Sorted(rows, n, m) && multiset(rows) == multiset(list) && DistinctKeys(list, n, m)
    requires forall r :: r in list <==> r in all
    ensures IsTable(rows, all, n, m)
  {
    hide LessRow;
    forall i, j | 0 <= i < j < |rows| ensures LessRow(rows[i], rows[j], n) {
      AtMostOnce(list, n, m, rows[i]);
      assert rows[i] != rows[j] by {
        if rows[i] == rows[j] {
          Twice(rows, i, j);
        }
      }
      assert rows[i] in multiset(list) && rows[j] in multiset(list);
      var a :| 0 <= a < |list| && list[a] == rows[i];
      var b :| 0 <= b < |list| && list[b] == rows[j];
      LessRowIsTotal(rows[i], rows[j], n);
    }
    forall r ensures r in rows <==> r in all {
      assert r in rows <==> r in multiset(rows);
      assert r in list <==> r in multiset(list);
    }
  }

  /** The builder loop. */
  method WriteLines(rows: seq<Row>) returns (b: string)
    ensures b == Lines(rows)
  {
    b := "";
    var i := 0;
    while i < |rows|
      invariant 0 <= i <= |rows|
      invariant b + Lines(rows[i..]) == Lines(rows)
    {
      assert rows[i..][0] == rows[i] && rows[i..][1..] == rows[i + 1..];
      assert b + (Line(rows[i]) + Lines(rows[i + 1..])) == b + Line(rows[i]) + Lines(rows[i + 1..]);
      b := b + Line(rows[i]);
      i := i + 1;
    }
    assert b + Lines(rows[i..]) == b;
  }

  /** The rows of the tenant in the order the query yields them. */
  ghost predicate Yields(items: map<ItemKey, ItemRow>, t: string, order: seq<ItemKey>) {
    && (forall k :: k in order <==> k in items && k.tenant == t)
    && (forall i, j | 0 <= i < j < |order| :: order[i] != order[j])
  }

  function Listed(lower: string -> string, items: map<ItemKey, ItemRow>, order: seq<ItemKey>): (list: seq<Row>)
    requires forall k | k in order :: k in items
    ensures |list| == |order|
  {
    if order == [] then []
    else
      assert order[|order| - 1] in order;
      Listed(lower, items, order[..|order| - 1]) + [ItemFields(lower, order[|order| - 1], items[order[|order| - 1]])]
  }

  lemma {:induction false} ListedAt(lower: string -> string, items: map<ItemKey, ItemRow>, order: seq<ItemKey>, i: nat)
    requires (forall k | k in order :: k in items) && i < |order|
    ensures order[i] in items && Listed(lower, items, order)[i] == ItemFields(lower, order[i], items[order[i]])
  {
    hide ItemFields;
    assert order[i] in order;
    if i < |order| - 1 {
      ListedAt(lower, items, order[..|order| - 1], i);
    }
  }

  /**
   ChecksumTenant, for any projection: the digest of the tenant's rows, in lower case, sorted by their keys. On a
   canonical projection the keys are distinct and the text is that of the one sorted table.
   */
  method ChecksumTenant(lower: string -> string, digest: string -> string, items: map<ItemKey, ItemRow>, t: string,
                        order: seq<ItemKey>)
    returns (sum: string, ghost rows: seq<Row>)
    requires Yields(items, lower(t), order)
    ensures sum == digest(Lines(rows))
    ensures (forall k | k in order :: k in items) && multiset(rows) == multiset(Listed(lower, items, order))
    ensures Sorted(rows, 2, 4)
    ensures CanonicalItems(lower, items, lower(t)) ==> IsText(ItemRows(lower, items, lower(t)), 2, 4, Lines(rows))
  {
    hide ItemFields, LessRow, CanonicalItems, ItemRows;
    var list: seq<Row> := [];
    var i := 0;
    while i < |order|
      invariant 0 <= i <= |order|
      invariant list == Listed(lower, items, order[..i])
    {
      assert order[..i + 1][..i] == order[..i];
      assert order[i] in order;
      list := list + [ItemFields(lower, order[i], items[order[i]])];
      i := i + 1;
    }
    assert order[..i] == order;
    ListedWidth(lower, items, order);
    var sorted := SortRows(list, 2, 4);
    rows := sorted;
    if CanonicalItems(lower, items, lower(t)) {
      ListedIsAll(lower, items, lower(t), order);
      SortedIsTable(rows, list, ItemRows(lower, items, lower(t)), 2, 4);
    }
    var b := WriteLines(sorted);
    return digest(b), sorted;
  }

  lemma ListedWidth(lower: string -> string, items: map<ItemKey, ItemRow>, order: seq<ItemKey>)
    requires forall k | k in order :: k in items
    ensures forall i | 0 <= i < |order| :: |Listed(lower, items, order)[i]| == 4
  {
    forall i | 0 <= i < |order| ensures |Listed(lower, items, order)[i]| == 4 {
      ListedAt(lower, items, order, i);
    }
  }

  lemma ListedIsAll(lower: string -> string, items: map<ItemKey, ItemRow>, t: string, order: seq<ItemKey>)
    requires Yields(items, t, order) && CanonicalItems(lower, items, t)
    ensures DistinctKeys(Listed(lower, items, order), 2, 4)
    ensures forall r :: r in Listed(lower, items, order) <==> r in ItemRows(lower, items, t)
  {
    hide PrintInt, Plain, Listed;
    var list := Listed(lower, items, order);
    ListedWidth(lower, items, order);
    forall i, j | 0 <= i < j < |list| ensures list[i][..2] != list[j][..2] {
      ListedAt(lower, items, order, i);
      ListedAt(lower, items, order, j);
      assert order[i] in order && order[j] in order;
      assert list[i][..2][1] == order[i].item && list[j][..2][1] == order[j].item;
    }
    forall i | 0 <= i < |list| ensures list[i] in ItemRows(lower, items, t) {
      ListedAt(lower, items, order, i);
      assert order[i] in order;
    }
    forall r | r in ItemRows(lower, items, t) ensures r in list {
      var k :| k in items && k.tenant == t && r == ItemFields(lower, k, items[k]);
      assert k in order;
      var i :| 0 <= i < |order| && order[i] == k;
      ListedAt(lower, items, order, i);
      assert list[i] == r;
    }
  }
}
