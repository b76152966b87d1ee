/**
 Printing then parsing is the identity, so the canonical text determines the value.
 */
module JsonRoundTrip {
  import opened Events
  import opened Utf16
  import opened Json

  /** What the contract can hold: every integer is in 0 .. 2^53-1. */
  ghost predicate Printable(v: Value) {
    match v
    case Null => true
    case Str(_) => true
    case Int(n) => 0 <= n <= MAX_SAFE_INT
    case Obj(m) => forall k | k in m :: Printable(m[k])
  }

  // --- strings -----------------------------------------------------------------------------------

  lemma HexRoundTrip(n: int)
    requires 0 <= n < 16
    ensures HexValue(HexChar(n)) == n
  {
  }

  /** One escaped character reads back as itself, whatever follows. */
  lemma EscapeCharReads(c: char, x: string, strict: bool)
    requires c == '"' || c == '\\' || c as int < 0x20
    ensures EscapeChar(c)[0] == '\\'
    ensures ParseEscape(EscapeChar(c) + x, strict) == Got(c, x)
  {
    var e := EscapeChar(c);
    var s := e + x;
    assert s[0] == e[0] && s[1] == e[1] && s[|e|..] == x;
    if e[1] == 'u' {
      HexRoundTrip(c as int / 16);
      HexRoundTrip(c as int % 16);
      assert s[2..][0] == e[2] && s[2..][1] == e[3] && s[2..][2] == e[4] && s[2..][3] == e[5];
      assert EscapedUnit(s) == c as int;
    }
  }

  /** A literal whose first character and remainder both read back. */
  lemma ParseTextAt(s: string, strict: bool, c: char, more: string, t: string, x: string)
    requires s != "" && s[0] != '"'
    requires (if s[0] == '\\' then ParseEscape(s, strict) else if s[0] < ' ' then Bad else Got(s[0], s[1..])) == Got(c, more)
    requires ParseText(more, strict) == Got(t, x)
    ensures ParseText(s, strict) == Got([c] + t, x)
  {
    hide ParseEscape;
  }

  lemma TextEnds(x: string, strict: bool)
    ensures ParseText(['"'] + x, strict) == Got("", x)
  {
    assert (['"'] + x)[1..] == x;
  }

  lemma {:induction false} TextReads(t: string, x: string, strict: bool)
    ensures ParseText(EscapeText(t) + ['"'] + x, strict) == Got(t, x)
  {
    hide ParseText, ParseEscape;
    var s := EscapeText(t) + ['"'] + x;
    if t == "" {
      assert s == ['"'] + x;
      TextEnds(x, strict);
    } else {
      TextReads(t[1..], x, strict);
      var e := EscapeChar(t[0]);
      var more := EscapeText(t[1..]) + ['"'] + x;
      assert s == e + more;
      assert t == [t[0]] + t[1..];
      FirstCharReads(t[0], more, strict);
      ParseTextAt(s, strict, t[0], more, t[1..], x);
    }
  }

  lemma FirstCharReads(c: char, more: string, strict: bool)
    ensures var s := EscapeChar(c) + more;
            && s != "" && s[0] != '"'
            && (if s[0] == '\\' then ParseEscape(s, strict) else if s[0] < ' ' then Bad else Got(s[0], s[1..])) == Got(c, more)
  {
    hide ParseEscape;
    var s := EscapeChar(c) + more;
    if c == '"' || c == '\\' || c as int < 0x20 {
      EscapeCharReads(c, more, strict);
      assert s[0] == EscapeChar(c)[0];
    } else {
      assert s[0] == c && s[1..] == more;
    }
  }

  // --- numbers -----------------------------------------------------------------------------------

  lemma {:induction false} DigitsAreDigits(n: nat)
    ensures Digits(n) != ""
    ensures forall i | 0 <= i < |Digits(n)| :: IsDigit(Digits(n)[i])
    ensures Digits(n)[0] == '0' ==> n == 0 && Digits(n) == "0"
  {
    if n >= 10 {
      DigitsAreDigits(n / 10);
      assert Digits(n)[0] == Digits(n / 10)[0];
    }
  }

  lemma {:induction false} DigitsReads(n: nat)
    requires forall i | 0 <= i < |Digits(n)| :: IsDigit(Digits(n)[i])
    ensures DigitsValue(Digits(n)) == n
  {
    var d := Digits(n);
    if n < 10 {
      assert d[..|d| - 1] == "";
    } else {
      DigitsAreDigits(n / 10);
      DigitsReads(n / 10);
      assert d[..|d| - 1] == Digits(n / 10);
      assert d[|d| - 1] == DigitChar(n % 10);
    }
  }

  lemma {:induction false} CountDigitsOf(d: string, x: string)
    requires forall i | 0 <= i < |d| :: IsDigit(d[i])
    requires x == "" || !IsDigit(x[0])
    ensures CountDigits(d + x) == |d|
  {
    if d == "" {
      assert d + x == x;
    } else {
      assert (d + x)[1..] == d[1..] + x;
      CountDigitsOf(d[1..], x);
    }
  }

  /** What may follow a number: anything that does not continue it. */
  predicate EndsNumber(x: string) {
    x == "" || (!IsDigit(x[0]) && x[0] != '.' && x[0] != 'e' && x[0] != 'E')
  }

  lemma NumberReads(n: int, x: string)
    requires 0 <= n <= MAX_SAFE_INT && EndsNumber(x)
    ensures ParseNumber(Digits(n) + x) == Got(Int(n), x)
  {
    var d := Digits(n);
    DigitsAreDigits(n);
    DigitsReads(n);
    CountDigitsOf(d, x);
    assert IsDigit(d[0]);
    assert (d + x)[0] == d[0] && (d + x)[..|d|] == d && (d + x)[|d|..] == x;
  }

  // --- values ------------------------------------------------------------------------------------

  /** How the first character of a value selects its rule. */
  lemma ParseValueAt(t: string, strict: bool)
    requires t != "" && !IsSpace(t[0])
    ensures t[0] == '"' && ParseText(t[1..], strict).Got? ==>
              ParseValue(t, strict) == Got(Str(ParseText(t[1..], strict).value), ParseText(t[1..], strict).rest)
    ensures "null" <= t ==> ParseValue(t, strict) == Got(Null, t[4..])
    ensures IsDigit(t[0]) ==> ParseValue(t, strict) == ParseNumber(t)
  {
    hide ParseText, ParseNumber, ParseMembers;
    assert SkipSpace(t) == t;
    if "null" <= t {
      assert t[0] == "null"[0];
    }
  }

  lemma ParseObjectAt(t: string, strict: bool)
    requires |t| >= 2 && t[0] == '{' && !IsSpace(t[1])
    ensures t[1] == '}' ==> ParseValue(t, strict) == Got(Obj(map[]), t[2..])
    ensures t[1] != '}' && ParseMembers(t[1..], map[], strict).Got? ==>
              ParseValue(t, strict) == Got(Obj(ParseMembers(t[1..], map[], strict).value), ParseMembers(t[1..], map[], strict).rest)
  {
    hide ParseText, ParseNumber, ParseMembers;
    assert SkipSpace(t) == t;
    assert SkipSpace(t[1..]) == t[1..];
    assert t[1..][1..] == t[2..];
  }

  lemma {:induction false} ValueReads(v: Value, x: string, strict: bool)
    requires Printable(v) && EndsNumber(x)
    ensures ParseValue(Print(v) + x, strict) == Got(v, x)
    decreases v, 1, 0
  {
    hide ParseValue, ParseText, ParseNumber, ParseMembers, EscapeText, Digits, PrintMembers, Sorted, SkipSpace;
    var s := Print(v) + x;
    match v
    case Null =>
      assert s[..4] == "null" && s[4..] == x;
      ParseValueAt(s, strict);
    case Str(t) =>
      TextReads(t, x, strict);
      assert s[0] == '"' && s[1..] == EscapeText(t) + ['"'] + x;
      ParseValueAt(s, strict);
    case Int(n) =>
      DigitsAreDigits(n);
      assert IsDigit(Digits(n)[0]) && s[0] == Digits(n)[0];
      NumberReads(n, x);
      ParseValueAt(s, strict);
    case Obj(m) =>
      ObjectReads(v, x, strict);
  }

  lemma ObjectReads(v: Value, x: string, strict: bool)
    requires v.Obj? && Printable(v) && EndsNumber(x)
    ensures ParseValue(Print(v) + x, strict) == Got(v, x)
    decreases v, 0, |v.members| + 1
  {
    hide ParseValue, ParseText, ParseNumber, ParseMembers, Sorted, EscapeText, SkipSpace;
    var m := v.members;
    var ks := Sorted(m.Keys);
    SortedHolds(m.Keys);
    SortedDistinct(m.Keys);
    var body := PrintMembers(v, ks) + ['}'] + x;
    var s := Print(v) + x;
    assert s[0] == '{' && s[1..] == body && s[1] == body[0];
    ParseObjectAt(s, strict);
    if ks == [] {
      assert m == map[] by {
        assert forall k :: k !in m;
      }
      assert body == ['}'] + x;
      assert s[2..] == x;
    } else {
      assert |ks| == |v.members|;
      MembersRead(v, ks, map[], x, strict);
      assert map[] + Restrict(m, ks) == m;
      assert body[0] == Quote(ks[0])[0];
    }
  }

  ghost function Restrict(m: map<string, Value>, ks: seq<string>): map<string, Value> {
    map k | k in m && k in ks :: m[k]
  }

  ghost predicate Distinct(ks: seq<string>) {
    forall i, j | 0 <= i < j < |ks| :: ks[i] != ks[j]
  }

  lemma SortedDistinct(keys: set<string>)
    ensures Distinct(Sorted(keys))
  {
    SortedIsAscending(keys);
    var ks := Sorted(keys);
    forall i, j | 0 <= i < j < |ks| ensures ks[i] != ks[j] {
      LessUtf16IsTotal(ks[i], ks[i]);
    }
  }

  /** What a member that reads back leaves to be read. */
  lemma ParseMembersAt(s: string, seen: map<string, Value>, strict: bool, k: string, v: Value, mid: string, after: string)
    requires ParseKey(s, strict) == Got(k, mid) && k !in seen
    requires ParseValue(mid, strict) == Got(v, after)
    requires after != "" && !IsSpace(after[0])
    ensures after[0] == '}' ==> ParseMembers(s, seen, strict) == Got(seen[k := v], after[1..])
    ensures after[0] == ',' ==> ParseMembers(s, seen, strict) == ParseMembers(after[1..], seen[k := v], strict)
  {
    hide ParseValue, ParseText, ParseNumber, ParseKey;
    assert SkipSpace(after) == after;
  }

  lemma RestrictFirst(m: map<string, Value>, ks: seq<string>, seen: map<string, Value>)
    requires ks != [] && Distinct(ks) && forall k | k in ks :: k in m && k !in seen
    ensures forall k | k in ks[1..] :: k in m && k !in seen[ks[0] := m[ks[0]]]
    ensures Distinct(ks[1..])
    ensures seen + Restrict(m, ks) == seen[ks[0] := m[ks[0]]] + Restrict(m, ks[1..])
  {
    assert ks == [ks[0]] + ks[1..];
    forall k | k in ks[1..] ensures k != ks[0] {
      var i :| 0 <= i < |ks[1..]| && ks[1..][i] == k;
      assert ks[i + 1] == k;
    }
  }

  /** A member and its separator read back; then the rest of the members do. */
  lemma {:induction false} MembersRead(v: Value, ks: seq<string>, seen: map<string, Value>, x: string, strict: bool)
    requires v.Obj? && Printable(v) && ks != [] && Distinct(ks)
    requires forall k | k in ks :: k in v.members && k !in seen
    ensures ParseMembers(PrintMembers(v, ks) + ['}'] + x, seen, strict) == Got(seen + Restrict(v.members, ks), x)
    decreases v, 0, |ks|
  {
    hide ParseValue, ParseText, ParseNumber, ParseMembers, ParseKey, Print, Quote, Restrict, Distinct;
    var k := ks[0];
    assert k in ks;
    var val := v.members[k];
    var tail := if |ks| == 1 then "" else [','] + PrintMembers(v, ks[1..]);
    var after := tail + ['}'] + x;
    var s := PrintMembers(v, ks) + ['}'] + x;
    assert s == Quote(k) + [':'] + (Print(val) + after);
    KeyReads(k, Print(val) + after, strict);
    ValueReads(val, after, strict);
    ParseMembersAt(s, seen, strict, k, val, Print(val) + after, after);
    RestrictFirst(v.members, ks, seen);
    if |ks| == 1 {
      assert after[0] == '}' && after[1..] == x;
      assert Restrict(v.members, ks[1..]) == map[] by {
        RestrictNone(v.members, ks[1..]);
      }
      assert seen[k := val] + map[] == seen[k := val];
    } else {
      assert after[0] == ',' && after[1..] == PrintMembers(v, ks[1..]) + ['}'] + x;
      MembersRead(v, ks[1..], seen[k := val], x, strict);
    }
  }

  lemma RestrictNone(m: map<string, Value>, ks: seq<string>)
    requires ks == []
    ensures Restrict(m, ks) == map[]
  {
  }

  lemma KeyReads(k: string, x: string, strict: bool)
    ensures ParseKey(Quote(k) + [':'] + x, strict) == Got(k, x)
  {
    hide ParseText, EscapeText;
    var s := Quote(k) + [':'] + x;
    assert s[0] == '"' && s[1..] == EscapeText(k) + ['"'] + ([':'] + x);
    TextReads(k, [':'] + x, strict);
    assert SkipSpace([':'] + x) == [':'] + x && ([':'] + x)[1..] == x;
  }

  /** The round trip of a whole document. */
  lemma DocumentRoundTrip(v: Value, strict: bool)
    requires Printable(v)
    ensures ParseDocument(Print(v), strict) == Ok(v)
  {
    assert Print(v) + "" == Print(v);
    ValueReads(v, "", strict);
  }

  /** Different values have different canonical texts. */
  lemma PrintInjective(v: Value, w: Value)
    requires Printable(v) && Printable(w) && Print(v) == Print(w)
    ensures v == w
  {
    DocumentRoundTrip(v, true);
    DocumentRoundTrip(w, true);
  }

  // --- decoded values are printable ----------------------------------------------------------------

  lemma {:induction false} ValueIsPrintable(s: string, strict: bool)
    ensures ParseValue(s, strict).Got? ==> Printable(ParseValue(s, strict).value)
    decreases |s|, 1
  {
    var t := SkipSpace(s);
    if t != "" && t[0] == '{' {
      MembersArePrintable(t[1..], map[], strict);
    }
  }

  lemma {:induction false} MembersArePrintable(s: string, seen: map<string, Value>, strict: bool)
    requires forall k | k in seen :: Printable(seen[k])
    ensures ParseMembers(s, seen, strict).Got? ==>
              forall k | k in ParseMembers(s, seen, strict).value :: Printable(ParseMembers(s, seen, strict).value[k])
    decreases |s|, 0
  {
    var key := ParseKey(s, strict);
    if key.Got? {
      ValueIsPrintable(key.rest, strict);
      var v := ParseValue(key.rest, strict);
      if v.Got? {
        var next := SkipSpace(v.rest);
        if next != "" && next[0] == ',' {
          MembersArePrintable(next[1..], seen[key.value := v.value], strict);
        }
      }
    }
  }

  /** Every accepted text has a canonical form that is accepted and means the same. */
  lemma CanonicalForm(s: string, strict: bool)
    requires ParseDocument(s, strict).Ok?
    ensures ParseDocument(Print(ParseDocument(s, strict).value), strict) == ParseDocument(s, strict)
  {
    ValueIsPrintable(s, strict);
    DocumentRoundTrip(ParseDocument(s, strict).value, strict);
  }
}
