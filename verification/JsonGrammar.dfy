/**
 The texts the strict decoder takes, written down as a grammar of their own (sections 2 to 7 of RFC 8259, cut down to
 the event contract): a tree is a way to write a value, with its spaces and escapes. The decoder accepts exactly the
 texts of trees, and returns what the tree means.
 */
module JsonGrammar {
  import opened Events
  import opened Json
  import opened JsonRoundTrip
  import opened Surrogates

  // --- characters ----------------------------------------------------------------------------------------

  /** One hexadecimal digit, in either case. */
  datatype Nibble = Nibble(value: int, upper: bool)

  predicate NibbleOk(n: Nibble) { 0 <= n.value < 16 }

  function NibbleChar(n: Nibble): char
    requires NibbleOk(n)
  {
    if n.upper then "0123456789ABCDEF"[n.value] else "0123456789abcdef"[n.value]
  }

  datatype Unit = Unit(a: Nibble, b: Nibble, c: Nibble, d: Nibble)

  predicate UnitOk(u: Unit) { NibbleOk(u.a) && NibbleOk(u.b) && NibbleOk(u.c) && NibbleOk(u.d) }

  function UnitText(u: Unit): string
    requires UnitOk(u)
  {
    ['\\', 'u', NibbleChar(u.a), NibbleChar(u.b), NibbleChar(u.c), NibbleChar(u.d)]
  }

  function UnitCode(u: Unit): int { 4096 * u.a.value + 256 * u.b.value + 16 * u.c.value + u.d.value }

  /** The two-character escapes and what they stand for. */
  const SHORT: map<char, char> := map[
    '"' := '"', '\\' := '\\', '/' := '/', 'b' := 8 as char, 'f' := 12 as char, 'n' := 10 as char, 'r' := 13 as char,
    't' := 9 as char]

  /** A way to write one character of a string. */
  datatype Piece = Plain(c: char) | Short(letter: char) | Escape(unit: Unit) | Pair(high: Unit, low: Unit)

  predicate PieceOk(p: Piece) {
    match p
    case Plain(c) => c != '"' && c != '\\' && c as int >= 32
    case Short(letter) => letter in SHORT
    case Escape(u) => UnitOk(u) && !(0xD800 <= UnitCode(u) <= 0xDFFF)
    case Pair(h, l) => UnitOk(h) && UnitOk(l) && 0xD800 <= UnitCode(h) <= 0xDBFF && 0xDC00 <= UnitCode(l) <= 0xDFFF
  }

  function PieceText(p: Piece): string
    requires PieceOk(p)
  {
    match p
    case Plain(c) => [c]
    case Short(letter) => ['\\', letter]
    case Escape(u) => UnitText(u)
    case Pair(h, l) => UnitText(h) + UnitText(l)
  }

  /** The character meant; a pair of surrogates means one beyond the basic plane. */
  function PieceChar(p: Piece): char
    requires PieceOk(p)
  {
    match p
    case Plain(c) => c
    case Short(letter) => SHORT[letter]
    case Escape(u) => UnitCode(u) as char
    case Pair(h, l) => (0x10000 + (UnitCode(h) - 0xD800) * 0x400 + (UnitCode(l) - 0xDC00)) as char
  }

  predicate TextOk(ps: seq<Piece>) { forall i | 0 <= i < |ps| :: PieceOk(ps[i]) }

  function TextOf(ps: seq<Piece>): string
    requires TextOk(ps)
  {
    if ps == [] then "" else PieceText(ps[0]) + TextOf(ps[1..])
  }

  function CharsOf(ps: seq<Piece>): string
    requires TextOk(ps)
  {
    if ps == [] then "" else [PieceChar(ps[0])] + CharsOf(ps[1..])
  }

  // --- strings are read as written -------------------------------------------------------------------------

  lemma NibbleReads(n: Nibble)
    requires NibbleOk(n)
    ensures HexValue(NibbleChar(n)) == n.value
  {
  }

  lemma UnitReads(u: Unit, x: string)
    requires UnitOk(u)
    ensures EscapedUnit(UnitText(u) + x) == UnitCode(u) && (UnitText(u) + x)[6..] == x
  {
    NibbleReads(u.a);
    NibbleReads(u.b);
    NibbleReads(u.c);
    NibbleReads(u.d);
    hide HexValue, NibbleChar;
    var s := UnitText(u) + x;
    assert s[2..][0] == NibbleChar(u.a) && s[2..][1] == NibbleChar(u.b);
    assert s[2..][2] == NibbleChar(u.c) && s[2..][3] == NibbleChar(u.d);
  }

  /** What the decoder takes for the first character of a literal. */
  function FirstChar(s: string): Parsed<char>
    requires s != ""
  {
    if s[0] == '\\' then ParseEscape(s, true) else if s[0] < ' ' then Bad else Got(s[0], s[1..])
  }

  lemma PieceReads(p: Piece, x: string)
    requires PieceOk(p)
    ensures var s := PieceText(p) + x;
            s != "" && s[0] != '"' && FirstChar(s) == Got(PieceChar(p), x)
  {
    hide ParseEscape, UnitText, UnitOk;
    var s := PieceText(p) + x;
    match p
    case Plain(c) =>
      assert s[0] == c && s[1..] == x;
    case Short(letter) =>
      ShortReads(letter, x);
    case Escape(u) =>
      EscapeReads(u, x);
    case Pair(h, l) =>
      PairReads(h, l, x);
  }

  lemma ShortReads(letter: char, x: string)
    requires letter in SHORT
    ensures var s := ['\\', letter] + x;
            s[0] == '\\' && ParseEscape(s, true) == Got(SHORT[letter], x)
  {
    hide ParseUnit;
    var s := ['\\', letter] + x;
    assert s[1] == letter && s[2..] == x;
  }

  lemma EscapeReads(u: Unit, x: string)
    requires UnitOk(u) && !(0xD800 <= UnitCode(u) <= 0xDFFF)
    ensures var s := UnitText(u) + x;
            s[0] == '\\' && ParseEscape(s, true) == Got(UnitCode(u) as char, x)
  {
    hide EscapedUnit, NibbleChar;
    UnitReads(u, x);
    var s := UnitText(u) + x;
    assert s[0] == '\\' && s[1] == 'u';
  }

  lemma PairReads(h: Unit, l: Unit, x: string)
    requires PieceOk(Pair(h, l))
    ensures var s := UnitText(h) + UnitText(l) + x;
            s[0] == '\\' && ParseEscape(s, true) == Got(PieceChar(Pair(h, l)), x)
  {
    hide EscapedUnit, NibbleOk, NibbleChar;
    var s := UnitText(h) + UnitText(l) + x;
    assert s == UnitText(h) + (UnitText(l) + x);
    UnitReads(h, UnitText(l) + x);
    UnitReads(l, x);
    assert s[0] == '\\' && s[1] == 'u' && s[12..] == s[6..][6..];
  }

  lemma Quoted(p: string, q: string, x: string)
    ensures p + q + ['"'] + x == p + (q + ['"'] + x)
  {
  }

  lemma {:induction false} TextIsRead(ps: seq<Piece>, x: string)
    requires TextOk(ps)
    ensures ParseText(TextOf(ps) + ['"'] + x, true) == Got(CharsOf(ps), x)
  {
    hide ParseText, ParseEscape;
    var s := TextOf(ps) + ['"'] + x;
    if ps == [] {
      assert s == ['"'] + x;
      TextEnds(x, true);
    } else {
      var more := TextOf(ps[1..]) + ['"'] + x;
      TextIsRead(ps[1..], x);
      Quoted(PieceText(ps[0]), TextOf(ps[1..]), x);
      PieceReads(ps[0], more);
      ParseTextAt(s, true, PieceChar(ps[0]), more, CharsOf(ps[1..]), x);
    }
  }

  // --- and every string read was written so ------------------------------------------------------------------

  lemma NibbleOf(c: char) returns (n: Nibble)
    requires HexValue(c) >= 0
    ensures NibbleOk(n) && NibbleChar(n) == c && n.value == HexValue(c)
  {
    n := Nibble(HexValue(c), 'A' <= c <= 'F');
  }

  lemma UnitOf(s: string) returns (u: Unit)
    requires EscapedUnit(s) >= 0
    ensures UnitOk(u) && UnitCode(u) == EscapedUnit(s) && |s| >= 6 && s == UnitText(u) + s[6..]
  {
    var t := s[2..];
    assert t[0] == s[2] && t[1] == s[3] && t[2] == s[4] && t[3] == s[5];
    var a := NibbleOf(s[2]);
    var b := NibbleOf(s[3]);
    var c := NibbleOf(s[4]);
    var d := NibbleOf(s[5]);
    hide HexValue, NibbleChar;
    u := Unit(a, b, c, d);
    assert s[..6] == UnitText(u);
    assert s == s[..6] + s[6..];
  }

  lemma PieceOf(s: string) returns (p: Piece)
    requires s != "" && s[0] != '"' && FirstChar(s).Got?
    ensures PieceOk(p) && s == PieceText(p) + FirstChar(s).rest && PieceChar(p) == FirstChar(s).value
  {
    if s[0] != '\\' {
      p := Plain(s[0]);
    } else if s[1] != 'u' {
      p := Short(s[1]);
      assert s == [s[0], s[1]] + s[2..];
    } else {
      p := UnitPieceOf(s);
    }
  }

  lemma UnitPieceOf(s: string) returns (p: Piece)
    requires |s| >= 2 && s[0] == '\\' && s[1] == 'u' && ParseUnit(s, true).Got?
    ensures PieceOk(p) && s == PieceText(p) + ParseUnit(s, true).rest && PieceChar(p) == ParseUnit(s, true).value
  {
    hide NibbleOk, UnitText;
    var u := UnitOf(s);
    if IsHigh(UnitCode(u)) {
      var v := UnitOf(s[6..]);
      p := Pair(u, v);
      assert s[6..][6..] == s[12..];
      assert s == UnitText(u) + UnitText(v) + s[12..];
    } else {
      p := Escape(u);
    }
  }

  lemma {:induction false} TextWasWritten(s: string) returns (ps: seq<Piece>)
    requires ParseText(s, true).Got?
    ensures TextOk(ps) && s == TextOf(ps) + ['"'] + ParseText(s, true).rest && CharsOf(ps) == ParseText(s, true).value
    decreases |s|
  {
    hide ParseEscape, PieceText, PieceChar, PieceOk;
    if s[0] == '"' {
      ps := [];
      assert s == ['"'] + s[1..];
    } else {
      var p := PieceOf(s);
      var tail := FirstChar(s).rest;
      var rest := TextWasWritten(tail);
      ps := [p] + rest;
      assert ps[1..] == rest;
      assert s == PieceText(p) + (TextOf(rest) + ['"'] + ParseText(tail, true).rest);
      assert s == PieceText(p) + TextOf(rest) + ['"'] + ParseText(s, true).rest;
    }
  }

  /** The canonical escape of a character is the shortest way to write it, and the only one of that length in lower case. */
  lemma EscapeIsShortest(c: char, p: Piece)
    requires PieceOk(p) && PieceChar(p) == c
    ensures |EscapeChar(c)| <= |PieceText(p)|
    ensures |PieceText(p)| == |EscapeChar(c)| && LowerCase(p) ==> PieceText(p) == EscapeChar(c)
  {
    match p
    case Escape(u) =>
      UnitTextLength(u);
      if c as int < 32 && LowerCase(p) {
        SmallUnit(u);
      }
    case Pair(h, l) =>
      UnitTextLength(h);
      UnitTextLength(l);
    case _ =>
  }

  lemma UnitTextLength(u: Unit)
    requires UnitOk(u)
    ensures |UnitText(u)| == 6
  {
  }

  /** In lower case a control character has only one unit escape. */
  lemma SmallUnit(u: Unit)
    requires UnitOk(u) && UnitCode(u) < 32 && LowerCase(Escape(u))
    ensures UnitText(u) == ['\\', 'u', '0', '0', HexChar(UnitCode(u) / 16), HexChar(UnitCode(u) % 16)]
  {
    assert u.a.value == 0 && u.b.value == 0 && u.c.value == UnitCode(u) / 16 && u.d.value == UnitCode(u) % 16;
    HexIs(u.c);
    HexIs(u.d);
    HexIs(u.a);
  }

  lemma HexIs(n: Nibble)
    requires NibbleOk(n) && !n.upper
    ensures NibbleChar(n) == HexChar(n.value)
  {
  }

  predicate LowerCase(p: Piece) {
    match p
    case Escape(u) => !u.a.upper && !u.b.upper && !u.c.upper && !u.d.upper
    case Pair(h, l) => false
    case _ => true
  }

  // --- spaces and numbers ------------------------------------------------------------------------------------

  predicate SpaceOk(sp: string) {
    forall i | 0 <= i < |sp| :: sp[i] == ' ' || sp[i] == '\t' || sp[i] == '\n' || sp[i] == '\r'
  }

  lemma {:induction false} SpaceIsSkipped(sp: string, x: string)
    requires SpaceOk(sp) && (x == "" || !IsSpace(x[0]))
    ensures SkipSpace(sp + x) == x
  {
    if sp == "" {
      assert sp + x == x;
    } else {
      assert (sp + x)[1..] == sp[1..] + x;
      SpaceIsSkipped(sp[1..], x);
    }
  }

  lemma {:induction false} SpaceOf(s: string) returns (sp: string)
    ensures SpaceOk(sp) && s == sp + SkipSpace(s)
  {
    sp := "";
    if s != "" && IsSpace(s[0]) {
      var rest := SpaceOf(s[1..]);
      sp := [s[0]] + rest;
      assert s == [s[0]] + s[1..];
    }
  }

  predicate DigitsOk(ds: seq<int>) {
    ds != [] && (forall i | 0 <= i < |ds| :: 0 <= ds[i] <= 9) && (|ds| > 1 ==> ds[0] != 0)
  }

  function DigitOf(d: int): char
    requires 0 <= d <= 9
  {
    "0123456789"[d]
  }

  lemma DigitIs(d: int)
    requires 0 <= d <= 9
    ensures IsDigit(DigitOf(d)) && DigitOf(d) as int == '0' as int + d
  {
  }

  function DigitText(ds: seq<int>): string
    requires forall i | 0 <= i < |ds| :: 0 <= ds[i] <= 9
  {
    if ds == [] then "" else DigitText(ds[..|ds| - 1]) + [DigitOf(ds[|ds| - 1])]
  }

  /** The number in decimal. */
  function Decimal(ds: seq<int>): int {
    if ds == [] then 0 else 10 * Decimal(ds[..|ds| - 1]) + ds[|ds| - 1]
  }

  lemma {:induction false} DigitTextReads(ds: seq<int>)
    requires forall i | 0 <= i < |ds| :: 0 <= ds[i] <= 9
    ensures |DigitText(ds)| == |ds|
    ensures forall i | 0 <= i < |ds| :: IsDigit(DigitText(ds)[i]) && DigitText(ds)[i] as int == '0' as int + ds[i]
    ensures DigitsValue(DigitText(ds)) == Decimal(ds)
  {
    hide DigitOf;
    if ds != [] {
      var init := ds[..|ds| - 1];
      DigitTextReads(init);
      DigitIs(ds[|ds| - 1]);
      assert DigitText(ds)[..|ds| - 1] == DigitText(init);
    }
  }

  lemma {:induction false} DigitsOfText(s: string) returns (ds: seq<int>)
    requires forall i | 0 <= i < |s| :: IsDigit(s[i])
    ensures |ds| == |s| && (forall i | 0 <= i < |ds| :: 0 <= ds[i] <= 9 && s[i] as int == '0' as int + ds[i])
    ensures DigitText(ds) == s
  {
    if s == "" {
      ds := [];
    } else {
      var n := |s| - 1;
      var init := DigitsOfText(s[..n]);
      assert IsDigit(s[n]);
      ds := init + [s[n] as int - '0' as int];
      DigitIs(ds[n]);
      hide DigitOf;
      assert ds[..n] == init && s == s[..n] + [s[n]];
    }
  }

  /** A number token: an optional minus and digits without a leading zero. */
  function NumberText(minus: bool, ds: seq<int>): string
    requires DigitsOk(ds)
  {
    (if minus then ['-'] else []) + DigitText(ds)
  }

  /** The token stands for an integer of the contract: 0 to 2^53 - 1, and minus zero is zero. */
  predicate NumberOk(minus: bool, ds: seq<int>) {
    DigitsOk(ds) && Decimal(ds) <= 9007199254740991 && (minus ==> Decimal(ds) == 0)
  }

  /**
   A number token followed by what cannot continue it is read exactly when it stands for an integer of the contract,
   and then as that integer.
   */
  lemma NumberIsRead(minus: bool, ds: seq<int>, x: string)
    requires DigitsOk(ds) && EndsNumber(x)
    ensures ParseNumber(NumberText(minus, ds) + x) == if NumberOk(minus, ds) then Got(Int(Decimal(ds)), x) else Bad
  {
    hide DigitText, Decimal, CountDigits, DigitsValue;
    var d := DigitText(ds);
    var s := NumberText(minus, ds) + x;
    DigitTextReads(ds);
    CountDigitsOf(d, x);
    assert d[0] as int == '0' as int + ds[0];
    var t := if minus then s[1..] else s;
    assert t == d + x;
    assert t[0] == d[0] && t[..|d|] == d && t[|d|..] == x;
  }

  /** Every number read is such a token. */
  lemma NumberWasWritten(s: string) returns (minus: bool, ds: seq<int>)
    requires ParseNumber(s).Got?
    ensures NumberOk(minus, ds) && s == NumberText(minus, ds) + ParseNumber(s).rest
    ensures ParseNumber(s).value == Int(Decimal(ds))
  {
    hide DigitText, Decimal, ParseNumber, DigitsValue;
    var t, n := NumberParts(s);
    minus := s[0] == '-';
    ds := DigitsOfText(t[..n]);
    DigitTextReads(ds);
    FirstDigit(t, n, ds);
    assert t == t[..n] + t[n..];
  }

  lemma NumberParts(s: string) returns (t: string, n: nat)
    requires ParseNumber(s).Got?
    ensures s != "" && s == (if s[0] == '-' then ['-'] else []) + t
    ensures 0 < n <= |t| && (forall i | 0 <= i < n :: IsDigit(t[i])) && (t[0] == '0' ==> n == 1)
    ensures forall i | 0 <= i < n :: IsDigit(t[..n][i])
    ensures ParseNumber(s) == Got(Int(DigitsValue(t[..n])), t[n..])
    ensures DigitsValue(t[..n]) <= MAX_SAFE_INT && (s[0] == '-' ==> DigitsValue(t[..n]) == 0)
  {
    hide DigitsValue, CountDigits;
    t := if s[0] == '-' then s[1..] else s;
    n := if t[0] == '0' then 1 else CountDigits(t);
  }

  lemma FirstDigit(t: string, n: nat, ds: seq<int>)
    requires 0 < n <= |t| && |ds| == n && (t[0] == '0' ==> n == 1)
    requires forall i | 0 <= i < |ds| :: 0 <= ds[i] <= 9 && t[..n][i] as int == '0' as int + ds[i]
    ensures DigitsOk(ds)
  {
    assert t[..n][0] == t[0];
  }

  // --- values ---------------------------------------------------------------------------------------------------

  /** A way to write a value. */
  datatype Tree =
    | NullTree
    | TextTree(pieces: seq<Piece>)
    | NumberTree(minus: bool, digits: seq<int>)
    | EmptyTree(inner: string)
    | ObjectTree(members: Members)

  datatype Members = One(m: Member) | More(m: Member, rest: Members)

  /** A member with the spaces before its name, around the colon and after its value. */
  datatype Member = Member(before: string, name: seq<Piece>, colon: string, lead: string, value: Tree, after: string)

  predicate TreeOk(t: Tree) {
    match t
    case NullTree => true
    case TextTree(ps) => TextOk(ps)
    case NumberTree(minus, ds) => NumberOk(minus, ds)
    case EmptyTree(inner) => SpaceOk(inner)
    case ObjectTree(ms) => MembersOk(ms)
  }

  predicate MemberOk(m: Member) {
    SpaceOk(m.before) && TextOk(m.name) && SpaceOk(m.colon) && SpaceOk(m.lead) && TreeOk(m.value) && SpaceOk(m.after)
  }

  function Names(ms: Members): set<string> {
    match ms
    case One(m) => if TextOk(m.name) then {CharsOf(m.name)} else {}
    case More(m, rest) => Names(rest) + if TextOk(m.name) then {CharsOf(m.name)} else {}
  }

  /** No name is repeated. */
  predicate MembersOk(ms: Members) {
    match ms
    case One(m) => MemberOk(m)
    case More(m, rest) => MemberOk(m) && MembersOk(rest) && CharsOf(m.name) !in Names(rest)
  }

  function TreeText(t: Tree): string
    requires TreeOk(t)
  {
    match t
    case NullTree => "null"
    case TextTree(ps) => ['"'] + TextOf(ps) + ['"']
    case NumberTree(minus, ds) => NumberText(minus, ds)
    case EmptyTree(inner) => ['{'] + inner + ['}']
    case ObjectTree(ms) => ['{'] + MembersText(ms) + ['}']
  }

  function MemberText(m: Member): string
    requires MemberOk(m)
  {
    m.before + ['"'] + TextOf(m.name) + ['"'] + m.colon + [':'] + m.lead + TreeText(m.value) + m.after
  }

  function MembersText(ms: Members): string
    requires MembersOk(ms)
  {
    match ms
    case One(m) => MemberText(m)
    case More(m, rest) => MemberText(m) + [','] + MembersText(rest)
  }

  /** The value a tree means. */
  function Meaning(t: Tree): Value
    requires TreeOk(t)
  {
    match t
    case NullTree => Null
    case TextTree(ps) => Str(CharsOf(ps))
    case NumberTree(_, ds) => Int(Decimal(ds))
    case EmptyTree(_) => Obj(map[])
    case ObjectTree(ms) => Obj(MembersMeaning(ms))
  }

  function MembersMeaning(ms: Members): map<string, Value>
    requires MembersOk(ms)
  {
    match ms
    case One(m) =>
      assert MemberOk(m) && TreeOk(m.value);
      map[CharsOf(m.name) := Meaning(m.value)]
    case More(m, rest) =>
      assert MemberOk(m) && TreeOk(m.value);
      MembersMeaning(rest)[CharsOf(m.name) := Meaning(m.value)]
  }

  lemma {:induction false} NamesAreKeys(ms: Members)
    requires MembersOk(ms)
    ensures MembersMeaning(ms).Keys == Names(ms)
  {
    hide CharsOf, Meaning;
    if ms.More? {
      NamesAreKeys(ms.rest);
    }
  }

  // --- every tree is read ---------------------------------------------------------------------------------------

  lemma SpaceBeforeValue(sp: string, u: string)
    requires SpaceOk(sp) && u != "" && !IsSpace(u[0])
    ensures ParseValue(sp + u, true) == ParseValue(u, true)
  {
    hide ParseText, ParseNumber, ParseMembers;
    SpaceIsSkipped(sp, u);
    assert SkipSpace(u) == u;
  }

  lemma ObjectStarts(t: string)
    requires t != "" && t[0] == '{'
    ensures var u := SkipSpace(t[1..]);
            && (u != "" && u[0] == '}' ==> ParseValue(t, true) == Got(Obj(map[]), u[1..]))
            && (u == "" || u[0] != '}' ==>
                  var m := ParseMembers(t[1..], map[], true);
                  ParseValue(t, true) == if m.Bad? then Bad else Got(Obj(m.value), m.rest))
  {
    hide ParseText, ParseNumber, ParseMembers;
    assert SkipSpace(t) == t;
  }

  lemma KeyIsRead(before: string, name: seq<Piece>, colon: string, y: string)
    requires SpaceOk(before) && TextOk(name) && SpaceOk(colon)
    ensures ParseKey(before + ['"'] + TextOf(name) + ['"'] + colon + [':'] + y, true) == Got(CharsOf(name), y)
  {
    hide ParseText, TextOf, CharsOf;
    var tail := colon + [':'] + y;
    var quoted := ['"'] + TextOf(name) + ['"'] + tail;
    assert before + ['"'] + TextOf(name) + ['"'] + colon + [':'] + y == before + quoted;
    SpaceIsSkipped(before, quoted);
    assert quoted[1..] == TextOf(name) + ['"'] + tail;
    TextIsRead(name, tail);
    assert tail == colon + ([':'] + y);
    SpaceIsSkipped(colon, [':'] + y);
    assert ([':'] + y)[1..] == y;
  }

  lemma MemberStep(s: string, seen: map<string, Value>, k: string, v: Value, mid: string, rest: string, next: string)
    requires ParseKey(s, true) == Got(k, mid) && k !in seen
    requires ParseValue(mid, true) == Got(v, rest) && SkipSpace(rest) == next && next != ""
    ensures next[0] == '}' ==> ParseMembers(s, seen, true) == Got(seen[k := v], next[1..])
    ensures next[0] == ',' ==> ParseMembers(s, seen, true) == ParseMembers(next[1..], seen[k := v], true)
  {
    hide ParseValue, ParseKey, SkipSpace;
  }

  /** What follows a value in an object: spaces, then a comma or the closing brace. */
  lemma AfterValue(after: string, z: string)
    requires SpaceOk(after) && z != "" && (z[0] == ',' || z[0] == '}')
    ensures EndsNumber(after + z) && SkipSpace(after + z) == z
  {
    SpaceIsSkipped(after, z);
    assert after != "" ==> (after + z)[0] == after[0];
    assert after == "" ==> after + z == z;
  }

  lemma TreeStarts(t: Tree)
    requires TreeOk(t)
    ensures TreeText(t) != "" && !IsSpace(TreeText(t)[0])
  {
    if t.NumberTree? {
      DigitTextReads(t.digits);
      assert IsDigit(DigitText(t.digits)[0]);
      hide DigitText;
    }
  }

  /** A member before a comma or the closing brace. */
  lemma {:induction false} MemberIsRead(m: Member, seen: map<string, Value>, z: string)
    requires MemberOk(m) && CharsOf(m.name) !in seen && z != "" && (z[0] == ',' || z[0] == '}')
    ensures var seen' := seen[CharsOf(m.name) := Meaning(m.value)];
            && (z[0] == '}' ==> ParseMembers(MemberText(m) + z, seen, true) == Got(seen', z[1..]))
            && (z[0] == ',' ==> ParseMembers(MemberText(m) + z, seen, true) == ParseMembers(z[1..], seen', true))
    decreases m, 0
  {
    hide ParseValue, ParseKey, ParseMembers, TextOf, CharsOf, TreeText, Meaning, SkipSpace, TreeOk;
    var mid := m.lead + TreeText(m.value) + (m.after + z);
    assert MemberText(m) + z == m.before + ['"'] + TextOf(m.name) + ['"'] + m.colon + [':'] + mid;
    KeyIsRead(m.before, m.name, m.colon, mid);
    AfterValue(m.after, z);
    TreeIsRead(m.lead, m.value, m.after + z);
    MemberStep(MemberText(m) + z, seen, CharsOf(m.name), Meaning(m.value), mid, m.after + z, z);
  }

  lemma {:induction false} MembersAreRead(ms: Members, seen: map<string, Value>, x: string)
    requires MembersOk(ms) && Names(ms) !! seen.Keys
    ensures ParseMembers(MembersText(ms) + ['}'] + x, seen, true) == Got(seen + MembersMeaning(ms), x)
    decreases ms, 1
  {
    hide ParseMembers, MemberText, CharsOf, Meaning;
    match ms
    case One(m) =>
      var z := ['}'] + x;
      assert MembersText(ms) + ['}'] + x == MemberText(m) + z;
      MemberIsRead(m, seen, z);
      assert seen + MembersMeaning(ms) == seen[CharsOf(m.name) := Meaning(m.value)];
      assert z[1..] == x;
    case More(m, rest) =>
      var z := [','] + MembersText(rest) + ['}'] + x;
      assert MembersText(ms) + ['}'] + x == MemberText(m) + z;
      MemberIsRead(m, seen, z);
      assert z[1..] == MembersText(rest) + ['}'] + x;
      var seen' := seen[CharsOf(m.name) := Meaning(m.value)];
      MembersAreRead(rest, seen', x);
      NamesAreKeys(rest);
      assert seen + MembersMeaning(ms) == seen' + MembersMeaning(rest);
  }

  lemma {:induction false} TreeIsRead(sp: string, t: Tree, x: string)
    requires SpaceOk(sp) && TreeOk(t) && EndsNumber(x)
    ensures ParseValue(sp + TreeText(t) + x, true) == Got(Meaning(t), x)
    decreases t, 2
  {
    hide ParseValue, ParseMembers, ParseText, ParseNumber, TextOf, CharsOf, NumberText, MembersText, MembersMeaning, SkipSpace;
    var u := TreeText(t) + x;
    TreeStarts(t);
    assert u[0] == TreeText(t)[0] && sp + TreeText(t) + x == sp + u;
    SpaceBeforeValue(sp, u);
    match t
    case NullTree =>
      assert u[..4] == "null" && u[4..] == x;
      ParseValueAt(u, true);
    case TextTree(ps) =>
      TextIsRead(ps, x);
      assert u[1..] == TextOf(ps) + ['"'] + x;
      ParseValueAt(u, true);
    case NumberTree(minus, ds) =>
      NumberIsRead(minus, ds, x);
      NumberStarts(minus, ds, x);
    case EmptyTree(inner) =>
      assert u[1..] == inner + (['}'] + x);
      SpaceIsSkipped(inner, ['}'] + x);
      ObjectStarts(u);
      assert (['}'] + x)[1..] == x;
    case ObjectTree(ms) =>
      assert u[1..] == MembersText(ms) + ['}'] + x;
      ObjectStarts(u);
      MembersStart(ms, ['}'] + x);
      assert MembersText(ms) + (['}'] + x) == u[1..];
      MembersAreRead(ms, map[], x);
      assert map[] + MembersMeaning(ms) == MembersMeaning(ms);
  }

  lemma NumberStarts(minus: bool, ds: seq<int>, x: string)
    requires DigitsOk(ds)
    ensures ParseValue(NumberText(minus, ds) + x, true) == ParseNumber(NumberText(minus, ds) + x)
  {
    hide ParseText, ParseNumber, ParseMembers, DigitText;
    DigitTextReads(ds);
    var s := NumberText(minus, ds) + x;
    assert IsDigit(DigitText(ds)[0]);
    assert s[0] == '-' || s[0] == DigitText(ds)[0];
    assert SkipSpace(s) == s;
  }

  /** The members start, after spaces, with a quotation mark. */
  lemma MembersStart(ms: Members, x: string)
    requires MembersOk(ms)
    ensures SkipSpace(MembersText(ms) + x) != "" && SkipSpace(MembersText(ms) + x)[0] == '"'
  {
    hide TextOf, TreeText, SkipSpace, MemberText;
    var m := ms.m;
    assert MemberOk(m);
    var quoted := MemberTextStarts(m);
    var rest := quoted + (if ms.One? then "" else [','] + MembersText(ms.rest)) + x;
    assert MembersText(ms) + x == m.before + rest;
    SpaceIsSkipped(m.before, rest);
  }

  lemma MemberTextStarts(m: Member) returns (quoted: string)
    requires MemberOk(m)
    ensures MemberText(m) == m.before + quoted && quoted != "" && quoted[0] == '"'
  {
    hide TextOf, TreeText;
    quoted := ['"'] + TextOf(m.name) + ['"'] + m.colon + [':'] + m.lead + TreeText(m.value) + m.after;
  }

  // --- and everything read was a tree -----------------------------------------------------------------------------

  lemma {:induction false} TreeWasWritten(s: string) returns (sp: string, t: Tree)
    requires ParseValue(s, true).Got?
    ensures SpaceOk(sp) && TreeOk(t) && s == sp + TreeText(t) + ParseValue(s, true).rest && Meaning(t) == ParseValue(s, true).value
    decreases |s|, 2
  {
    hide ParseValue, SkipSpace;
    sp := SpaceOf(s);
    var u := SkipSpace(s);
    ValueFirst(s);
    t := UnspacedWasWritten(u);
    assert s == sp + u;
  }

  /** A value is read after its leading spaces. */
  lemma ValueFirst(s: string)
    requires ParseValue(s, true).Got?
    ensures SkipSpace(s) != "" && !IsSpace(SkipSpace(s)[0]) && |SkipSpace(s)| <= |s|
    ensures ParseValue(SkipSpace(s), true) == ParseValue(s, true)
  {
    hide ParseText, ParseNumber, ParseMembers;
    assert SkipSpace(SkipSpace(s)) == SkipSpace(s);
  }

  lemma {:induction false} UnspacedWasWritten(u: string) returns (t: Tree)
    requires u != "" && !IsSpace(u[0]) && ParseValue(u, true).Got?
    ensures TreeOk(t) && u == TreeText(t) + ParseValue(u, true).rest && Meaning(t) == ParseValue(u, true).value
    decreases |u|, 1
  {
    hide ParseMembers, ParseText, ParseNumber, TextOf, CharsOf, MembersText, MembersMeaning, MembersOk, NumberOk, NumberText,
         Decimal;
    assert SkipSpace(u) == u;
    hide SkipSpace;
    if u[0] == '{' {
      t := ObjectWasWritten(u);
    } else if u[0] == '"' {
      var ps := TextWasWritten(u[1..]);
      t := TextTree(ps);
      assert u == ['"'] + (TextOf(ps) + ['"'] + ParseText(u[1..], true).rest);
      assert u == ['"'] + TextOf(ps) + ['"'] + ParseText(u[1..], true).rest;
    } else if u[0] == 'n' {
      t := NullTree;
      assert u == "null" + u[4..];
    } else {
      var minus, ds := NumberWasWritten(u);
      t := NumberTree(minus, ds);
    }
  }

  lemma {:induction false} ObjectWasWritten(u: string) returns (t: Tree)
    requires u != "" && u[0] == '{' && ParseValue(u, true).Got?
    ensures TreeOk(t) && u == TreeText(t) + ParseValue(u, true).rest && Meaning(t) == ParseValue(u, true).value
    decreases |u|, 0
  {
    hide ParseMembers, ParseValue, MembersText, MembersMeaning, MembersOk, SkipSpace;
    ObjectStarts(u);
    var v := SkipSpace(u[1..]);
    if v != "" && v[0] == '}' {
      var inner := SpaceOf(u[1..]);
      t := EmptyTree(inner);
      assert u == ['{'] + (inner + (['}'] + v[1..]));
      assert u == ['{'] + inner + ['}'] + v[1..];
    } else {
      var ms := MembersWereWritten(u[1..], map[]);
      t := ObjectTree(ms);
      assert map[] + MembersMeaning(ms) == MembersMeaning(ms);
      var rest := ParseMembers(u[1..], map[], true).rest;
      assert u == ['{'] + (MembersText(ms) + ['}'] + rest);
      assert u == ['{'] + MembersText(ms) + ['}'] + rest;
    }
  }

  lemma KeyWasWritten(s: string) returns (before: string, name: seq<Piece>, colon: string)
    requires ParseKey(s, true).Got?
    ensures SpaceOk(before) && TextOk(name) && SpaceOk(colon) && CharsOf(name) == ParseKey(s, true).value
    ensures s == before + ['"'] + TextOf(name) + ['"'] + colon + [':'] + ParseKey(s, true).rest
  {
    hide ParseText, TextOf, CharsOf, SkipSpace, SpaceOk;
    before := SpaceOf(s);
    var t := SkipSpace(s);
    name := TextWasWritten(t[1..]);
    var x := ParseText(t[1..], true);
    colon := SpaceOf(x.rest);
    var u := SkipSpace(x.rest);
    assert t == ['"'] + t[1..];
    assert u == [':'] + u[1..];
    KeyParts(before, TextOf(name), colon, u[1..]);
  }

  lemma KeyParts(before: string, name: string, colon: string, rest: string)
    ensures before + (['"'] + (name + ['"'] + (colon + ([':'] + rest)))) == before + ['"'] + name + ['"'] + colon + [':'] + rest
  {
    assert name + ['"'] + (colon + ([':'] + rest)) == name + ['"'] + colon + [':'] + rest;
    assert ['"'] + (name + ['"'] + colon + [':'] + rest) == ['"'] + name + ['"'] + colon + [':'] + rest;
  }

  lemma {:induction false} MembersWereWritten(s: string, seen: map<string, Value>) returns (ms: Members)
    requires ParseMembers(s, seen, true).Got?
    ensures MembersOk(ms) && Names(ms) !! seen.Keys && s == MembersText(ms) + ['}'] + ParseMembers(s, seen, true).rest
    ensures ParseMembers(s, seen, true).value == seen + MembersMeaning(ms)
    decreases |s|, 1
  {
    hide ParseKey, ParseValue, CharsOf, Meaning, MemberText, SkipSpace, MemberOk;
    var key := ParseKey(s, true);
    var v := ParseValue(key.rest, true);
    var next := SkipSpace(v.rest);
    var m := MemberWasWritten(s);
    var seen' := seen[key.value := v.value];
    if next[0] == '}' {
      ms := One(m);
      assert next == ['}'] + next[1..];
      assert seen + MembersMeaning(ms) == seen';
    } else {
      var rest := MembersWereWritten(next[1..], seen');
      ms := More(m, rest);
      NamesAreKeys(rest);
      assert next == [','] + next[1..];
      assert seen + MembersMeaning(ms) == seen' + MembersMeaning(rest);
    }
  }

  /** One member, up to the comma or brace after it. */
  lemma {:induction false} MemberWasWritten(s: string) returns (m: Member)
    requires ParseKey(s, true).Got? && ParseValue(ParseKey(s, true).rest, true).Got?
    ensures MemberOk(m) && TextOk(m.name) && TreeOk(m.value)
    ensures CharsOf(m.name) == ParseKey(s, true).value && Meaning(m.value) == ParseValue(ParseKey(s, true).rest, true).value
    ensures s == MemberText(m) + SkipSpace(ParseValue(ParseKey(s, true).rest, true).rest)
    decreases |s|, 0
  {
    hide ParseKey, ParseValue, TextOf, CharsOf, TreeText, Meaning, TreeOk, SkipSpace;
    var key := ParseKey(s, true);
    var before, name, colon := KeyWasWritten(s);
    var v := ParseValue(key.rest, true);
    var lead, value := TreeWasWritten(key.rest);
    var after := SpaceOf(v.rest);
    m := Member(before, name, colon, lead, value, after);
  }

  // --- documents ----------------------------------------------------------------------------------------------------

  /** The text is a tree with spaces around it, and the tree means the value. */
  ghost predicate Writes(s: string, v: Value) {
    exists sp, t, end :: SpaceOk(sp) && TreeOk(t) && SpaceOk(end) && s == sp + TreeText(t) + end && Meaning(t) == v
  }

  /** The strict decoder accepts exactly the texts of the grammar, and reads each as what it means. */
  lemma DecodesIff(s: string, v: Value)
    ensures DecodeStrict(s) == Ok(v) <==> Writes(s, v)
  {
    hide ParseValue, TreeText, Meaning, TreeOk, SkipSpace;
    ScanMakesStrict(s);
    if DecodeStrict(s) == Ok(v) {
      var sp, t := TreeWasWritten(s);
      var end := SpaceOf(ParseValue(s, true).rest);
      assert end + "" == end;
      assert s == sp + TreeText(t) + end;
    }
    if Writes(s, v) {
      var sp, t, end :| SpaceOk(sp) && TreeOk(t) && SpaceOk(end) && s == sp + TreeText(t) + end && Meaning(t) == v;
      TreeIsRead(sp, t, end);
      SpaceIsSkipped(end, "");
      assert end + "" == end;
    }
  }
}
