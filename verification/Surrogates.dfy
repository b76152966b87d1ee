/**
 The scan that runs before the library decoder. The decoder silently turns an unpaired surrogate escape into U+FFFD;
 scanning first makes the pair of them exactly the decoder that refuses such escapes.
 */
module Surrogates {
  import opened Events
  import opened Json

  /** The code unit of the escape at the start of `s`; unlike the decoder the scan takes \U as well. */
  function ScannedUnit(s: string): int {
    if |s| >= 6 && s[0] == '\\' && (s[1] == 'u' || s[1] == 'U') then Hex4(s[2..]) else -1
  }

  /** No string literal of `s` holds an unpaired surrogate escape; `inside` a literal or not at the start. */
  predicate Accepts(s: string, inside: bool) {
    if s == "" then true
    else if !inside then Accepts(s[1..], s[0] == '"')
    else if s[0] == '\\' then
      if |s| < 2 then false
      else if s[1] == 'u' || s[1] == 'U' then
        var u := ScannedUnit(s);
        if u < 0 then false
        else if IsHigh(u) then IsLow(ScannedUnit(s[6..])) && Accepts(s[12..], true)
        else !IsLow(u) && Accepts(s[6..], true)
      else Accepts(s[2..], true)
    else Accepts(s[1..], s[0] != '"')
  }

  /** The first `n` hexadecimal digits read as one number. */
  function Shifted(s: string, n: nat): (r: nat)
    requires n <= |s| && forall j | 0 <= j < n :: HexValue(s[j]) >= 0
  {
    if n == 0 then 0 else Shifted(s, n - 1) * 16 + HexValue(s[n - 1])
  }

  /** Three digits leave room for a fourth in sixteen bits. */
  lemma ShiftedFits(s: string, n: nat)
    requires n <= 3 && n <= |s| && forall j | 0 <= j < n :: HexValue(s[j]) >= 0
    ensures Shifted(s, n) < 0x1000
  {
    if n > 1 {
      assert Shifted(s, 1) < 16;
      if n > 2 {
        assert Shifted(s, 2) < 256;
      }
    }
  }

  lemma ShiftedIsHex4(s: string)
    requires |s| >= 4 && forall j | 0 <= j < 4 :: HexValue(s[j]) >= 0
    ensures Shifted(s, 4) == Hex4(s)
  {
    hide HexValue;
    assert Shifted(s, 1) == HexValue(s[0]);
    assert Shifted(s, 2) == HexValue(s[0]) * 16 + HexValue(s[1]);
  }

  lemma NoNibble(s: string)
    ensures Shifted(s, 0) == 0
  {
  }

  /** Shifting in one more nibble loses no bits. */
  lemma NextNibble(s: string, n: nat)
    requires n <= 3 && n < |s| && forall j | 0 <= j < n + 1 :: HexValue(s[j]) >= 0
    ensures (Shifted(s, n) * 16 + HexValue(s[n])) % 0x10000 == Shifted(s, n + 1)
  {
    ShiftedFits(s, n);
  }

  /** parseJSONUnicodeEscape: the unit shifts in one nibble at a time. */
  method ParseUnicodeEscape(raw: string, atSlash: nat) returns (unit: int)
    requires atSlash <= |raw|
    ensures unit == ScannedUnit(raw[atSlash..])
  {
    if atSlash + 6 > |raw| {
      return -1;
    }
    if raw[atSlash] != '\\' || (raw[atSlash + 1] != 'u' && raw[atSlash + 1] != 'U') {
      return -1;
    }
    hide Hex4, Shifted;
    ghost var digits := raw[atSlash..][2..];
    var v, i := 0, 0;
    NoNibble(digits);
    while i < 4
      invariant 0 <= i <= 4
      invariant forall j | 0 <= j < i :: HexValue(digits[j]) >= 0
      invariant v == Shifted(digits, i)
    {
      var c := raw[atSlash + 2 + i];
      assert c == digits[i];
      var nibble;
      if '0' <= c <= '9' {
        nibble := c as int - '0' as int;
      } else if 'a' <= c <= 'f' {
        nibble := c as int - 'a' as int + 10;
      } else if 'A' <= c <= 'F' {
        nibble := c as int - 'A' as int + 10;
      } else {
        return -1;
      }
      assert nibble == HexValue(digits[i]);
      NextNibble(digits, i);
      v := (v * 16 + nibble) % 0x10000;
      i := i + 1;
    }
    ShiftedIsHex4(digits);
    return v;
  }

  /** rejectUnpairedSurrogateEscapes. */
  method RejectUnpairedSurrogateEscapes(raw: string) returns (ok: bool)
    ensures ok == Accepts(raw, false)
  {
    var inString, i := false, 0;
    while i < |raw|
      invariant 0 <= i <= |raw|
      invariant Accepts(raw, false) == Accepts(raw[i..], inString)
    {
      ghost var s := raw[i..];
      assert s[1..] == raw[i + 1..];
      var c := raw[i];
      if !inString {
        if c == '"' {
          inString := true;
        }
        i := i + 1;
        continue;
      }
      if c == '\\' {
        if i + 1 >= |raw| {
          return false;
        }
        assert s[2..] == raw[i + 2..];
        if raw[i + 1] == 'u' || raw[i + 1] == 'U' {
          var unit := ParseUnicodeEscape(raw, i);
          if unit < 0 {
            return false;
          }
          var next := i + 6;
          assert s[6..] == raw[next..];
          if IsHigh(unit) {
            if next + 1 >= |raw| || raw[next] != '\\' || (raw[next + 1] != 'u' && raw[next + 1] != 'U') {
              return false;
            }
            var low := ParseUnicodeEscape(raw, next);
            if low < 0 || !IsLow(low) {
              return false;
            }
            assert s[12..] == raw[next + 6..];
            i := next + 6;
          } else if IsLow(unit) {
            return false;
          } else {
            i := next;
          }
          continue;
        }
        i := i + 2;
        continue;
      }
      if c == '"' {
        inString := false;
      }
      i := i + 1;
    }
    return true;
  }

  // --- the scan makes the decoder strict -----------------------------------------------------------

  /** In an accepted literal no surrogate is unpaired, and the scan leaves the literal where the decoder does. */
  lemma {:induction false} TextGuarded(s: string)
    ensures Accepts(s, true) ==> ParseText(s, false) == ParseText(s, true)
    ensures ParseText(s, true).Got? ==> Accepts(s, true) == Accepts(ParseText(s, true).rest, false)
  {
    if s != "" && s[0] != '"' {
      if s[0] == '\\' {
        EscapeGuarded(s);
        var e := ParseEscape(s, true);
        if e.Got? {
          TextGuarded(e.rest);
        }
        var l := ParseEscape(s, false);
        if l.Got? && l != e && Accepts(s, true) {
          assert ParseText(l.rest, false).Bad?;
        }
      } else {
        TextGuarded(s[1..]);
      }
    }
  }

  /**
   An escape the scan accepts is decoded the same way by both decoders, except a high surrogate followed by \U,
   on which both of them fail.
   */
  lemma EscapeGuarded(s: string)
    requires s != "" && s[0] == '\\'
    ensures Accepts(s, true) ==>
              || ParseEscape(s, false) == ParseEscape(s, true)
              || (ParseEscape(s, true).Bad? && ParseEscape(s, false).Got? && ParseText(ParseEscape(s, false).rest, false).Bad?)
    ensures ParseEscape(s, true).Got? ==> Accepts(s, true) == Accepts(ParseEscape(s, true).rest, true)
  {
    if |s| >= 2 && s[1] == 'u' {
      var u := EscapedUnit(s);
      assert u == ScannedUnit(s);
      if u >= 0 && IsHigh(u) {
        var next := s[6..];
        if IsLow(ScannedUnit(next)) && !IsLow(EscapedUnit(next)) {
          assert next[0] == '\\' && next[1] == 'U';
          assert ParseEscape(next, false).Bad?;
        }
      }
    }
  }

  lemma {:induction false} SkipPlain(s: string, n: nat)
    requires n <= |s| && forall i | 0 <= i < n :: s[i] != '"'
    ensures Accepts(s, false) == Accepts(s[n..], false)
  {
    if n > 0 {
      SkipPlain(s[1..], n - 1);
      assert s[1..][n - 1..] == s[n..];
    } else {
      assert s[n..] == s;
    }
  }

  lemma {:induction false} SpaceGuarded(s: string)
    ensures Accepts(s, false) == Accepts(SkipSpace(s), false)
  {
    if s != "" && IsSpace(s[0]) {
      SpaceGuarded(s[1..]);
    }
  }

  lemma NumberGuarded(s: string)
    requires ParseNumber(s).Got?
    ensures Accepts(s, false) == Accepts(ParseNumber(s).rest, false)
  {
    hide Accepts, DigitsValue;
    var negative := s[0] == '-';
    var t := if negative then s[1..] else s;
    var n := if t[0] == '0' then 1 else CountDigits(t);
    var k := if negative then n + 1 else n;
    forall i | 0 <= i < k ensures s[i] != '"' {
      if !negative || i > 0 {
        assert IsDigit(t[if negative then i - 1 else i]);
      }
    }
    assert s[k..] == t[n..];
    SkipPlain(s, k);
  }

  lemma KeyGuarded(s: string)
    ensures Accepts(s, false) ==> ParseKey(s, false) == ParseKey(s, true)
    ensures ParseKey(s, true).Got? ==> Accepts(s, false) == Accepts(ParseKey(s, true).rest, false)
  {
    hide ParseText;
    SpaceGuarded(s);
    var t := SkipSpace(s);
    if t != "" && t[0] == '"' {
      TextGuarded(t[1..]);
      var x := ParseText(t[1..], true);
      if x.Got? {
        SpaceGuarded(x.rest);
      }
    }
  }

  lemma {:induction false} ValueGuarded(s: string)
    ensures Accepts(s, false) ==> ParseValue(s, false) == ParseValue(s, true)
    ensures ParseValue(s, true).Got? ==> Accepts(s, false) == Accepts(ParseValue(s, true).rest, false)
    decreases |s|, 1
  {
    hide ParseText, ParseMembers, ParseNumber;
    SpaceGuarded(s);
    var t := SkipSpace(s);
    if t != "" {
      if t[0] == '{' {
        SpaceGuarded(t[1..]);
        MembersGuarded(t[1..], map[]);
      } else if t[0] == '"' {
        TextGuarded(t[1..]);
      } else if t[0] == 'n' {
        if "null" <= t {
          assert t[0] == "null"[0] && t[1] == "null"[1] && t[2] == "null"[2] && t[3] == "null"[3];
          SkipPlain(t, 4);
        }
      } else if ParseNumber(t).Got? {
        NumberGuarded(t);
      }
    }
  }

  lemma {:induction false} MembersGuarded(s: string, seen: map<string, Value>)
    ensures Accepts(s, false) ==> ParseMembers(s, seen, false) == ParseMembers(s, seen, true)
    ensures ParseMembers(s, seen, true).Got? ==> Accepts(s, false) == Accepts(ParseMembers(s, seen, true).rest, false)
    decreases |s|, 0
  {
    hide ParseKey, ParseValue;
    KeyGuarded(s);
    var key := ParseKey(s, true);
    if key.Got? && key.value !in seen {
      ValueGuarded(key.rest);
      var v := ParseValue(key.rest, true);
      if v.Got? {
        SpaceGuarded(v.rest);
        var next := SkipSpace(v.rest);
        if next != "" && next[0] == ',' {
          MembersGuarded(next[1..], seen[key.value := v.value]);
        }
      }
    }
  }

  /** decodeStrict: scan, then decode with the library decoder. */
  function DecodeStrict(raw: string): Result<Value> {
    if Accepts(raw, false) then ParseDocument(raw, false) else Err(Malformed)
  }

  /** For every text: scanning and then decoding leniently is decoding with unpaired surrogates refused. */
  lemma ScanMakesStrict(raw: string)
    ensures DecodeStrict(raw) == ParseDocument(raw, true)
  {
    ValueGuarded(raw);
    var v := ParseValue(raw, true);
    if v.Got? {
      SpaceGuarded(v.rest);
    }
  }
}
