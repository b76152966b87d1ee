/**
 The canonical text of a value (sections 3.2.2 and 3.2.3 of RFC 8785) as a tree of the grammar: no spaces, each character
 in its shortest form, plain digits, members in ascending order of their names. A value has exactly one, and it is what
 the program prints.
 */
module CanonicalForm {
  import opened Events
  import opened Utf16
  import opened Json
  import opened JsonRoundTrip
  import opened JsonGrammar

  /** Characters stand for themselves, but for the short escapes and, in lower case, the remaining control characters. */
  predicate PieceCanonical(p: Piece) {
    match p
    case Plain(_) => true
    case Short(letter) => letter != '/'
    case Escape(u) => LowerCase(p) && UnitCode(u) < 32 && UnitCode(u) !in {8, 9, 10, 12, 13}
    case Pair(_, _) => false
  }

  predicate TextCanonical(ps: seq<Piece>) { forall i | 0 <= i < |ps| :: PieceCanonical(ps[i]) }

  predicate Canonical(t: Tree)
    requires TreeOk(t)
  {
    match t
    case NullTree => true
    case TextTree(ps) => TextCanonical(ps)
    case NumberTree(minus, _) => !minus
    case EmptyTree(inner) => inner == ""
    case ObjectTree(ms) => MembersCanonical(ms)
  }

  predicate MemberCanonical(m: Member)
    requires MemberOk(m)
  {
    m.before == m.colon == m.lead == m.after == "" && TextCanonical(m.name) && Canonical(m.value)
  }

  function FirstName(ms: Members): string
    requires MembersOk(ms)
  {
    assert MemberOk(ms.m);
    CharsOf(ms.m.name)
  }

  predicate MembersCanonical(ms: Members)
    requires MembersOk(ms)
  {
    match ms
    case One(m) => MemberCanonical(m)
    case More(m, rest) => MemberCanonical(m) && LessUtf16(CharsOf(m.name), FirstName(rest)) && MembersCanonical(rest)
  }

  // --- canonical trees are printed ---------------------------------------------------------------------------

  lemma PieceIs(p: Piece)
    requires PieceOk(p) && PieceCanonical(p)
    ensures PieceText(p) == EscapeChar(PieceChar(p))
  {
    if p.Escape? {
      SmallUnit(p.unit);
    }
  }

  lemma {:induction false} TextIs(ps: seq<Piece>)
    requires TextOk(ps) && TextCanonical(ps)
    ensures TextOf(ps) == EscapeText(CharsOf(ps))
  {
    hide PieceText, PieceChar, EscapeChar;
    if ps != [] {
      PieceIs(ps[0]);
      TextIs(ps[1..]);
      assert CharsOf(ps)[1..] == CharsOf(ps[1..]);
    }
  }

  lemma DigitSame(d: int)
    requires 0 <= d <= 9
    ensures DigitOf(d) == DigitChar(d)
  {
  }

  lemma DigitsStep(q: nat, d: int)
    requires 0 <= d <= 9
    ensures q > 0 ==> Digits(10 * q + d) == Digits(q) + [DigitChar(d)]
    ensures Digits(d) == [DigitChar(d)]
  {
    if q > 0 {
      assert (10 * q + d) / 10 == q && (10 * q + d) % 10 == d;
    }
  }

  lemma {:induction false} DigitsAre(ds: seq<int>)
    requires DigitsOk(ds)
    ensures Decimal(ds) >= 0 && DigitText(ds) == Digits(Decimal(ds))
    ensures ds != [0] ==> Decimal(ds) > 0
  {
    hide DigitOf, Digits;
    var n := |ds| - 1;
    var init := ds[..n];
    DigitSame(ds[n]);
    if n > 0 {
      assert ds[0] == init[0];
      DigitsAre(init);
      DigitsStep(Decimal(init), ds[n]);
    } else {
      assert init == [] && Decimal(init) == 0 && DigitText(init) == "";
      DigitsStep(0, ds[n]);
    }
  }

  function NameSeq(ms: Members): seq<string>
    requires MembersOk(ms)
  {
    [FirstName(ms)] + if ms.More? then NameSeq(ms.rest) else []
  }

  lemma {:induction false} NamesAscend(ms: Members)
    requires MembersOk(ms) && MembersCanonical(ms)
    ensures Ascending(NameSeq(ms)) && NameSeq(ms)[0] == FirstName(ms) && Names(ms) == set k | k in NameSeq(ms)
  {
    hide LessUtf16, CharsOf, MemberCanonical;
    if ms.More? {
      NamesAscend(ms.rest);
      var rest, first := NameSeq(ms.rest), CharsOf(ms.m.name);
      forall j | 0 <= j < |rest| ensures LessUtf16(first, rest[j]) {
        if j > 0 {
          LessUtf16IsTransitive(first, rest[0], rest[j]);
        }
      }
    }
  }

  /** The value has these members. */
  ghost predicate HasAll(v: Value, ms: Members)
    requires MembersOk(ms)
  {
    v.Obj? && forall k | k in MembersMeaning(ms) :: k in v.members && v.members[k] == MembersMeaning(ms)[k]
  }

  lemma MeaningOfMore(ms: Members)
    requires MembersOk(ms)
    ensures TextOk(ms.m.name) && TreeOk(ms.m.value)
    ensures CharsOf(ms.m.name) in MembersMeaning(ms) && MembersMeaning(ms)[CharsOf(ms.m.name)] == Meaning(ms.m.value)
    ensures ms.More? ==> forall k | k in MembersMeaning(ms.rest) ::
                           k in MembersMeaning(ms) && MembersMeaning(ms)[k] == MembersMeaning(ms.rest)[k]
  {
    hide CharsOf, Meaning;
    assert MemberOk(ms.m);
    if ms.More? {
      NamesAreKeys(ms.rest);
    }
  }

  lemma NamesHeld(v: Value, ms: Members)
    requires MembersOk(ms) && MembersCanonical(ms) && HasAll(v, ms)
    ensures forall k | k in NameSeq(ms) :: k in v.members
  {
    hide CharsOf, LessUtf16, Meaning, NameSeq;
    NamesAscend(ms);
    NamesAreKeys(ms);
  }

  lemma {:induction false} MembersAre(v: Value, ms: Members)
    requires MembersOk(ms) && MembersCanonical(ms) && HasAll(v, ms)
    ensures forall k | k in NameSeq(ms) :: k in v.members
    ensures MembersText(ms) == PrintMembers(v, NameSeq(ms))
    decreases ms, 1
  {
    NamesHeld(v, ms);
    MeaningOfMore(ms);
    MemberIs(ms.m);
    hide CharsOf, LessUtf16, Meaning, MemberText, Print, MembersMeaning, MemberCanonical;
    if ms.More? {
      MembersAre(v, ms.rest);
      assert NameSeq(ms)[1..] == NameSeq(ms.rest);
      NameSeqNotEmpty(ms.rest);
    }
  }

  lemma NameSeqNotEmpty(ms: Members)
    requires MembersOk(ms)
    ensures NameSeq(ms) != []
  {
  }

  lemma {:induction false} MemberIs(m: Member)
    requires MemberOk(m) && MemberCanonical(m)
    ensures MemberText(m) == Quote(CharsOf(m.name)) + [':'] + Print(Meaning(m.value))
    decreases m, 0
  {
    hide TextOf, CharsOf, TreeText, Print, Meaning, Canonical, EscapeText;
    TextIs(m.name);
    TreeIs(m.value);
    var q := ['"'] + TextOf(m.name) + ['"'];
    assert "" + ['"'] == ['"'] && q + "" == q && q + "" + [':'] + "" == q + [':'];
    assert q + [':'] + TreeText(m.value) + "" == q + [':'] + TreeText(m.value);
  }

  lemma {:induction false} TreeIs(t: Tree)
    requires TreeOk(t) && Canonical(t)
    ensures TreeText(t) == Print(Meaning(t))
    decreases t
  {
    hide EscapeText, TextOf, CharsOf, MembersMeaning, MembersCanonical, DigitText, Decimal, Digits;
    match t
    case NullTree =>
    case TextTree(ps) => TextIs(ps);
    case NumberTree(_, ds) =>
      DigitsAre(ds);
      assert [] + DigitText(ds) == DigitText(ds);
    case EmptyTree(_) =>
      EmptyIs();
    case ObjectTree(ms) =>
      var v := Meaning(t);
      NamesAscend(ms);
      NamesAreKeys(ms);
      AscendingIsSorted(NameSeq(ms), v.members.Keys);
      MembersAre(v, ms);
  }

  lemma EmptyIs()
    ensures Print(Obj(map[])) == "{}"
  {
    var none: map<string, Value> := map[];
    assert none.Keys == {};
    assert Sorted(none.Keys) == [];
  }

  // --- every value has one -------------------------------------------------------------------------------------

  lemma PieceFor(c: char) returns (p: Piece)
    ensures PieceOk(p) && PieceCanonical(p) && PieceChar(p) == c
  {
    if c == '"' || c == '\\' {
      p := Short(c);
    } else if c as int >= 32 {
      p := Plain(c);
    } else if c as int == 8 {
      p := Short('b');
    } else if c as int == 9 {
      p := Short('t');
    } else if c as int == 10 {
      p := Short('n');
    } else if c as int == 12 {
      p := Short('f');
    } else if c as int == 13 {
      p := Short('r');
    } else {
      var zero := Nibble(0, false);
      p := Escape(Unit(zero, zero, Nibble(c as int / 16, false), Nibble(c as int % 16, false)));
    }
  }

  lemma {:induction false} TextFor(s: string) returns (ps: seq<Piece>)
    ensures TextOk(ps) && TextCanonical(ps) && CharsOf(ps) == s
  {
    ps := [];
    if s != "" {
      hide PieceOk, PieceCanonical, PieceChar;
      var p := PieceFor(s[0]);
      var rest := TextFor(s[1..]);
      ps := [p] + rest;
      assert ps[1..] == rest && s == [s[0]] + s[1..];
    }
  }

  lemma {:induction false} DigitsFor(n: nat) returns (ds: seq<int>)
    ensures DigitsOk(ds) && Decimal(ds) == n
  {
    if n < 10 {
      ds := [n];
      assert ds[..0] == [];
    } else {
      var init := DigitsFor(n / 10);
      ds := init + [n % 10];
      assert ds[..|ds| - 1] == init && ds[0] == init[0];
      assert init != [0];
    }
  }

  lemma {:induction false} TreeFor(v: Value) returns (t: Tree)
    requires Printable(v)
    ensures TreeOk(t) && Canonical(t) && Meaning(t) == v
    decreases v, 1, 1
  {
    hide TextOk, TextCanonical, CharsOf, MembersOk, MembersCanonical, MembersMeaning, DigitsOk, Decimal;
    match v
    case Null => t := NullTree;
    case Str(s) =>
      var ps := TextFor(s);
      t := TextTree(ps);
    case Int(n) =>
      var ds := DigitsFor(n);
      t := NumberTree(false, ds);
    case Obj(m) =>
      if m == map[] {
        t := EmptyTree("");
      } else {
        var ms := ObjectFor(v);
        t := ObjectTree(ms);
      }
  }

  lemma {:induction false} ObjectFor(v: Value) returns (ms: Members)
    requires v.Obj? && Printable(v) && v.members != map[]
    ensures MembersOk(ms) && MembersCanonical(ms) && MembersMeaning(ms) == v.members
    decreases v, 1, 0
  {
    hide Printable, MembersOk, MembersCanonical, MembersMeaning, Ascending;
    var m := v.members;
    SortedHolds(m.Keys);
    SortedIsAscending(m.Keys);
    assert Sorted(m.Keys) != [] by {
      var k :| k in m.Keys;
      assert k in Sorted(m.Keys);
    }
    hide Sorted;
    ms := MembersFor(v, Sorted(m.Keys));
    assert MembersMeaning(ms).Keys == m.Keys;
  }

  ghost predicate Means(v: Value, ks: seq<string>, ms: Members)
    requires v.Obj? && MembersOk(ms)
  {
    && MembersMeaning(ms).Keys == set k | k in ks
    && forall k | k in MembersMeaning(ms) :: k in v.members && MembersMeaning(ms)[k] == v.members[k]
  }

  lemma {:induction false} MembersFor(v: Value, ks: seq<string>) returns (ms: Members)
    requires v.Obj? && Printable(v) && ks != [] && Ascending(ks) && forall k | k in ks :: k in v.members
    ensures MembersOk(ms) && MembersCanonical(ms) && FirstName(ms) == ks[0] && Means(v, ks, ms)
    decreases v, 0, |ks|
  {
    hide CharsOf, Meaning, LessUtf16, TreeOk, Printable, MemberCanonical;
    assert ks[0] in ks;
    var m := MemberFor(v, ks[0]);
    if |ks| == 1 {
      ms := One(m);
      assert ks == [ks[0]];
    } else {
      var rest := MembersFor(v, ks[1..]);
      NamesAreKeys(rest);
      assert LessUtf16(ks[0], ks[1]);
      assert ks[0] !in ks[1..] by {
        LessIrreflexive(ks);
      }
      ms := More(m, rest);
      assert ks == [ks[0]] + ks[1..];
    }
  }

  lemma LessIrreflexive(ks: seq<string>)
    requires Ascending(ks) && ks != []
    ensures ks[0] !in ks[1..]
  {
    hide LessUtf16;
    forall j | 1 <= j < |ks| ensures ks[j] != ks[0] {
      LessUtf16IsTotal(ks[0], ks[0]);
      assert LessUtf16(ks[0], ks[j]);
    }
  }

  lemma {:induction false} MemberFor(v: Value, k: string) returns (m: Member)
    requires v.Obj? && Printable(v) && k in v.members
    ensures MemberOk(m) && MemberCanonical(m) && CharsOf(m.name) == k && Meaning(m.value) == v.members[k]
    decreases v, 0, 0
  {
    hide CharsOf, Meaning, TreeOk, Canonical;
    var name := TextFor(k);
    var value := TreeFor(v.members[k]);
    m := Member("", name, "", "", value, "");
  }

  // --- the canonical text ------------------------------------------------------------------------------------

  /** The text is that of a canonical tree of the value. */
  ghost predicate IsCanonicalText(s: string, v: Value) {
    exists t :: TreeOk(t) && Canonical(t) && Meaning(t) == v && s == TreeText(t)
  }

  /** The program prints the canonical text of a value, and there is no other. */
  lemma PrintsCanonically(v: Value, s: string)
    requires Printable(v)
    ensures s == Print(v) <==> IsCanonicalText(s, v)
  {
    hide Print, TreeText, Meaning, Canonical, TreeOk, Printable;
    if s == Print(v) {
      var t := TreeFor(v);
      TreeIs(t);
      assert IsCanonicalText(s, v);
    }
    if IsCanonicalText(s, v) {
      var t :| TreeOk(t) && Canonical(t) && Meaning(t) == v && s == TreeText(t);
      TreeIs(t);
    }
  }
}
