/**
 The JSON subset of the event contract: null, strings, integers 0 .. 2^53-1 and objects. `Print` is the RFC 8785
 serialization; `ParseValue` is the strict decoder (section 2 to 7 of RFC 8259, without arrays, booleans,
 non-integers and repeated member names).
 */
module Json {
  import opened Events
  import opened Utf16

  datatype Value =
    | Null
    | Str(text: string)
    | Int(number: int)
    | Obj(members: map<string, Value>)

  /** A decoded prefix and what follows it. */
  datatype Parsed<+T> = Got(value: T, rest: string) | Bad

  // --- printing ----------------------------------------------------------------------------------

  /** Lower-case hexadecimal digit. */
  function HexChar(n: int): char
    requires 0 <= n < 16
  {
    if n < 10 then '0' + n as char else 'a' + (n - 10) as char
  }

  function EscapeChar(c: char): string {
    if c == '"' then ['\\', '"']
    else if c == '\\' then ['\\', '\\']
    else if c as int == 0x08 then ['\\', 'b']
    else if c as int == 0x0C then ['\\', 'f']
    else if c == '\n' then ['\\', 'n']
    else if c == '\r' then ['\\', 'r']
    else if c == '\t' then ['\\', 't']
    else if c as int < 0x20 then ['\\', 'u', '0', '0', HexChar(c as int / 16), HexChar(c as int % 16)]
    else [c]
  }

  function EscapeText(s: string): string {
    if s == "" then "" else EscapeChar(s[0]) + EscapeText(s[1..])
  }

  function Quote(s: string): string {
    ['"'] + EscapeText(s) + ['"']
  }

  function DigitChar(n: int): char
    requires 0 <= n < 10
  {
    '0' + n as char
  }

  function Digits(n: nat): string {
    if n < 10 then [DigitChar(n)] else Digits(n / 10) + [DigitChar(n % 10)]
  }

  function PrintInt(n: int): string {
    if n < 0 then ['-'] + Digits(-n) else Digits(n)
  }

  /** RFC 8785: no whitespace, members in ascending order of their names. */
  ghost function Print(v: Value): string
    decreases v, 1, 0
  {
    match v
    case Null => "null"
    case Str(s) => Quote(s)
    case Int(n) => PrintInt(n)
    case Obj(m) =>
      SortedHolds(m.Keys);
      ['{'] + PrintMembers(v, Sorted(m.Keys)) + ['}']
  }

  ghost function PrintMembers(v: Value, ks: seq<string>): string
    requires v.Obj? && forall k | k in ks :: k in v.members
    decreases v, 0, |ks|
  {
    if ks == [] then ""
    else
      Quote(ks[0]) + [':'] + Print(v.members[ks[0]])
      + if |ks| == 1 then "" else [','] + PrintMembers(v, ks[1..])
  }

  // --- parsing -----------------------------------------------------------------------------------

  predicate IsSpace(c: char) {
    c == ' ' || c == '\t' || c == '\n' || c == '\r'
  }

  function SkipSpace(s: string): (r: string)
    ensures |r| <= |s|
    ensures r == "" || !IsSpace(r[0])
  {
    if s != "" && IsSpace(s[0]) then SkipSpace(s[1..]) else s
  }

  /** The value of a hexadecimal digit of either case, or -1. */
  function HexValue(c: char): (n: int)
    ensures -1 <= n < 16
  {
    if '0' <= c <= '9' then c as int - '0' as int
    else if 'a' <= c <= 'f' then c as int - 'a' as int + 10
    else if 'A' <= c <= 'F' then c as int - 'A' as int + 10
    else -1
  }

  /** The four hexadecimal digits at the start of `s` as a code unit, or -1. */
  function Hex4(s: string): (u: int)
    ensures -1 <= u < 0x10000
  {
    if |s| < 4 || HexValue(s[0]) < 0 || HexValue(s[1]) < 0 || HexValue(s[2]) < 0 || HexValue(s[3]) < 0 then -1
    else ((HexValue(s[0]) * 16 + HexValue(s[1])) * 16 + HexValue(s[2])) * 16 + HexValue(s[3])
  }

  predicate IsHigh(u: int) { 0xD800 <= u <= 0xDBFF }

  predicate IsLow(u: int) { 0xDC00 <= u <= 0xDFFF }

  /** The code unit of the escape at the start of `s`, or -1 where there is none. */
  function EscapedUnit(s: string): int {
    if |s| >= 6 && s[0] == '\\' && s[1] == 'u' then Hex4(s[2..]) else -1
  }

  function Combine(high: int, low: int): char
    requires IsHigh(high) && IsLow(low)
  {
    (0x10000 + (high - 0xD800) * 0x400 + (low - 0xDC00)) as char
  }

  /**
   The escape at the start of `s`. encoding/json replaces an unpaired surrogate by U+FFFD;
   with `strict` it is an error instead.
   */
  function ParseEscape(s: string, strict: bool): (r: Parsed<char>)
    requires s != ""
    ensures r.Got? ==> |r.rest| < |s|
  {
    if |s| < 2 then Bad
    else
      match s[1]
      case '"' => Got('"', s[2..])
      case '\\' => Got('\\', s[2..])
      case '/' => Got('/', s[2..])
      case 'b' => Got(0x08 as char, s[2..])
      case 'f' => Got(0x0C as char, s[2..])
      case 'n' => Got('\n', s[2..])
      case 'r' => Got('\r', s[2..])
      case 't' => Got('\t', s[2..])
      case 'u' => ParseUnit(s, strict)
      case _ => Bad
  }

  function ParseUnit(s: string, strict: bool): (r: Parsed<char>)
    ensures r.Got? ==> |r.rest| < |s|
  {
    var u := EscapedUnit(s);
    if u < 0 then Bad
    else if !IsHigh(u) && !IsLow(u) then Got(u as char, s[6..])
    else
      var v := EscapedUnit(s[6..]);
      if IsHigh(u) && IsLow(v) then Got(Combine(u, v), s[12..])
      else if strict then Bad
      else Got(0xFFFD as char, s[6..])
  }

  /** The rest of a string literal whose opening quote has been read. */
  function ParseText(s: string, strict: bool): (r: Parsed<string>)
    ensures r.Got? ==> |r.rest| < |s|
  {
    if s == "" then Bad
    else if s[0] == '"' then Got("", s[1..])
    else
      var first := if s[0] == '\\' then ParseEscape(s, strict) else if s[0] < ' ' then Bad else Got(s[0], s[1..]);
      if first.Bad? then Bad
      else
        var tail := ParseText(first.rest, strict);
        if tail.Bad? then Bad else Got([first.value] + tail.value, tail.rest)
  }

  predicate IsDigit(c: char) { '0' <= c <= '9' }

  function CountDigits(s: string): (n: nat)
    ensures n <= |s|
    ensures forall i | 0 <= i < n :: IsDigit(s[i])
  {
    if s != "" && IsDigit(s[0]) then 1 + CountDigits(s[1..]) else 0
  }

  function DigitsValue(s: string): (n: nat)
    requires forall i | 0 <= i < |s| :: IsDigit(s[i])
  {
    if s == "" then 0
    else
      assert IsDigit(s[|s| - 1]);
      DigitsValue(s[..|s| - 1]) * 10 + (s[|s| - 1] as int - '0' as int)
  }

  /**
   A number token and the integer it stands for. A fraction or an exponent is refused whether or not it is
   well formed, as is a negative value; minus zero is zero.
   */
  function ParseNumber(s: string): (r: Parsed<Value>)
    ensures r.Got? ==> |r.rest| < |s| && r.value.Int? && 0 <= r.value.number <= MAX_SAFE_INT
  {
    var negative := s != "" && s[0] == '-';
    var t := if negative then s[1..] else s;
    var n := if t != "" && t[0] == '0' then 1 else CountDigits(t);
    if n == 0 then Bad
    else
      var rest := t[n..];
      var value := DigitsValue(t[..n]);
      if rest != "" && (rest[0] == '.' || rest[0] == 'e' || rest[0] == 'E') then Bad
      else if value > MAX_SAFE_INT || (negative && value != 0) then Bad
      else Got(Int(value), rest)
  }

  function ParseValue(s: string, strict: bool): (r: Parsed<Value>)
    ensures r.Got? ==> |r.rest| < |s|
    decreases |s|, 1
  {
    var t := SkipSpace(s);
    if t == "" then Bad
    else if t[0] == '{' then
      var u := SkipSpace(t[1..]);
      if u != "" && u[0] == '}' then Got(Obj(map[]), u[1..])
      else
        var m := ParseMembers(t[1..], map[], strict);
        if m.Bad? then Bad else Got(Obj(m.value), m.rest)
    else if t[0] == '"' then
      var x := ParseText(t[1..], strict);
      if x.Bad? then Bad else Got(Str(x.value), x.rest)
    else if t[0] == 'n' then
      if "null" <= t then Got(Null, t[4..]) else Bad
    else ParseNumber(t)
  }

  /** Members up to the closing brace; `seen` holds the members already read. */
  function ParseMembers(s: string, seen: map<string, Value>, strict: bool): (r: Parsed<map<string, Value>>)
    ensures r.Got? ==> |r.rest| < |s|
    decreases |s|, 0
  {
    var key := ParseKey(s, strict);
    if key.Bad? || key.value in seen then Bad
    else
      var v := ParseValue(key.rest, strict);
      if v.Bad? then Bad
      else
        var next := SkipSpace(v.rest);
        var seen' := seen[key.value := v.value];
        if next == "" then Bad
        else if next[0] == '}' then Got(seen', next[1..])
        else if next[0] == ',' then ParseMembers(next[1..], seen', strict)
        else Bad
  }

  /** A member name and the colon after it. */
  function ParseKey(s: string, strict: bool): (r: Parsed<string>)
    ensures r.Got? ==> |r.rest| < |s|
  {
    var t := SkipSpace(s);
    if t == "" || t[0] != '"' then Bad
    else
      var x := ParseText(t[1..], strict);
      if x.Bad? then Bad
      else
        var u := SkipSpace(x.rest);
        if u == "" || u[0] != ':' then Bad else Got(x.value, u[1..])
  }

  /** A whole text: one value and nothing after it but space. */
  function ParseDocument(s: string, strict: bool): Result<Value> {
    var v := ParseValue(s, strict);
    if v.Got? && SkipSpace(v.rest) == "" then Ok(v.value) else Err(Malformed)
  }
}
