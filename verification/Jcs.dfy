/**
 The canonical printer and the object decoder as the program runs them: builders and loops, proved against
 `Print` and `ParseValue`.
 */
module Jcs {
  import opened Events
  import opened Utf16
  import opened Json
  import opened JsonRoundTrip

  /** Writes one rune of a string literal. */
  method WriteRune(b: string, r: char) returns (b': string)
    ensures b' == b + EscapeChar(r)
  {
    if r == '"' || r == '\\' {
      b' := b + ['\\', r];
    } else if r as int == 0x08 {
      b' := b + ['\\', 'b'];
    } else if r as int == 0x0C {
      b' := b + ['\\', 'f'];
    } else if r == '\n' {
      b' := b + ['\\', 'n'];
    } else if r == '\r' {
      b' := b + ['\\', 'r'];
    } else if r == '\t' {
      b' := b + ['\\', 't'];
    } else if r as int < 0x20 {
      b' := b + ['\\', 'u', '0', '0', HexChar(r as int / 16), HexChar(r as int % 16)];
    } else {
      b' := b + [r];
    }
  }

  method JcsString(s: string) returns (b: string)
    ensures b == Quote(s)
  {
    hide EscapeChar;
    b := ['"'];
    var i := 0;
    while i < |s|
      invariant 0 <= i <= |s|
      invariant b + EscapeText(s[i..]) == ['"'] + EscapeText(s)
    {
      ghost var before := b;
      b := WriteRune(b, s[i]);
      assert s[i..][1..] == s[i + 1..];
      assert before + (EscapeChar(s[i]) + EscapeText(s[i + 1..])) == b + EscapeText(s[i + 1..]);
      i := i + 1;
    }
    assert b + EscapeText(s[i..]) == b;
    b := b + ['"'];
  }

  /** Where `k` goes in an ascending list. */
  method Position(ks: seq<string>, k: string) returns (j: nat)
    requires Ascending(ks) && k !in ks
    ensures j <= |ks|
    ensures forall i | 0 <= i < j :: LessUtf16(ks[i], k)
    ensures forall i | j <= i < |ks| :: LessUtf16(k, ks[i])
  {
    hide LessUtf16;
    j := 0;
    while j < |ks|
      invariant j <= |ks|
      invariant forall i | 0 <= i < j :: LessUtf16(ks[i], k)
    {
      var less := CompareUtf16(ks[j], k);
      if !less {
        forall i | j <= i < |ks| ensures LessUtf16(k, ks[i]) {
          assert ks[j] in ks;
          LessUtf16IsTotal(ks[j], k);
          if i > j {
            LessUtf16IsTransitive(k, ks[j], ks[i]);
          }
        }
        return;
      }
      j := j + 1;
    }
  }

  /** sort.Slice by lessUTF16, here by insertion. */
  method SortKeys(keys: seq<string>) returns (ks: seq<string>)
    requires Distinct(keys)
    ensures ks == Sorted(set k | k in keys)
  {
    hide LessUtf16;
    ks := [];
    var i := 0;
    while i < |keys|
      invariant 0 <= i <= |keys|
      invariant Ascending(ks)
      invariant forall k :: k in ks <==> k in keys[..i]
    {
      assert keys[i] !in keys[..i];
      var j := Position(ks, keys[i]);
      ghost var before := ks;
      ks := ks[..j] + [keys[i]] + ks[j..];
      assert Ascending(ks) by {
        InsertAscending(before, keys[i], j);
      }
      assert keys[..i + 1] == keys[..i] + [keys[i]];
      assert before == before[..j] + before[j..];
      i := i + 1;
    }
    assert keys[..i] == keys;
    AscendingIsSorted(ks, set k | k in keys);
  }

  lemma InsertAscending(ks: seq<string>, k: string, j: nat)
    requires Ascending(ks) && j <= |ks|
    requires forall i | 0 <= i < j :: LessUtf16(ks[i], k)
    requires forall i | j <= i < |ks| :: LessUtf16(k, ks[i])
    ensures Ascending(ks[..j] + [k] + ks[j..])
  {
    hide LessUtf16;
    var r := ks[..j] + [k] + ks[j..];
    forall a, b | 0 <= a < b < |r| ensures LessUtf16(r[a], r[b]) {
      assert r[a] == if a < j then ks[a] else if a == j then k else ks[a - 1];
      assert r[b] == if b < j then ks[b] else if b == j then k else ks[b - 1];
    }
  }

  /** The keys of a map in whatever order the iteration yields. */
  method Keys(m: map<string, Value>) returns (keys: seq<string>)
    ensures Distinct(keys) && m.Keys == set k | k in keys
  {
    keys := [];
    var todo := m.Keys;
    while todo != {}
      invariant todo <= m.Keys
      invariant Distinct(keys)
      invariant forall k :: k in keys <==> k in m.Keys - todo
      decreases |todo|
    {
      var k :| k in todo;
      assert k !in keys;
      keys := keys + [k];
      todo := todo - {k};
    }
  }

  /** What is still to be written before member `i`. */
  ghost function Unwritten(v: Value, ks: seq<string>, i: nat): string
    requires v.Obj? && i <= |ks| && forall k | k in ks :: k in v.members
  {
    if i == |ks| then "" else (if i > 0 then [','] else "") + PrintMembers(v, ks[i..])
  }

  lemma WriteMember(v: Value, ks: seq<string>, i: nat, b: string)
    requires v.Obj? && i < |ks| && forall k | k in ks :: k in v.members
    ensures b + Unwritten(v, ks, i)
         == b + (if i > 0 then [','] else "") + Quote(ks[i]) + [':'] + Print(v.members[ks[i]]) + Unwritten(v, ks, i + 1)
  {
    hide Quote, Print;
    assert ks[i..][0] == ks[i] && ks[i..][1..] == ks[i + 1..];
    var member := Quote(ks[i]) + [':'] + Print(v.members[ks[i]]);
    assert PrintMembers(v, ks[i..]) == member + Unwritten(v, ks, i + 1);
  }

  /** Whatever the iteration order, the text is the canonical one. */
  method JcsObject(v: Value) returns (b: string)
    requires v.Obj?
    ensures b == Print(v)
    decreases v, 0
  {
    hide Sorted, Quote, PrintMembers, Unwritten;
    var keys := Keys(v.members);
    var ks := SortKeys(keys);
    SortedHolds(v.members.Keys);
    WholeBody(v, ks);
    b := ['{'];
    var i := 0;
    while i < |ks|
      invariant 0 <= i <= |ks|
      invariant forall k | k in ks :: k in v.members
      invariant b + Unwritten(v, ks, i) == ['{'] + PrintMembers(v, ks)
    {
      WriteMember(v, ks, i, b);
      if i > 0 {
        b := b + [','];
      } else {
        assert b + "" == b;
      }
      var k := ks[i];
      assert k in ks;
      var name := JcsString(k);
      b := b + name;
      b := b + [':'];
      var value := JcsValue(v.members[k]);
      b := b + value;
      i := i + 1;
    }
    WholeBody(v, ks);
    assert b + "" == b;
    b := b + ['}'];
  }

  lemma WholeBody(v: Value, ks: seq<string>)
    requires v.Obj? && forall k | k in ks :: k in v.members
    ensures Unwritten(v, ks, 0) == PrintMembers(v, ks)
    ensures Unwritten(v, ks, |ks|) == ""
  {
    hide Print, Quote;
    assert ks[0..] == ks;
  }

  method JcsValue(v: Value) returns (b: string)
    ensures b == Print(v)
    decreases v, 1
  {
    match v {
      case Null => b := "null";
      case Str(s) => b := JcsString(s);
      case Int(n) => b := PrintInt(n);
      case Obj(_) => b := JcsObject(v);
    }
  }

  // --- decoding ----------------------------------------------------------------------------------

  method DecodeValue(s: string, strict: bool) returns (r: Parsed<Value>)
    ensures r == ParseValue(s, strict)
    decreases |s|, 1
  {
    hide ParseMembers, ParseText;
    var t := SkipSpace(s);
    if t == "" {
      return Bad;
    }
    if t[0] == '{' {
      var m := DecodeObject(t[1..], strict);
      r := if m.Bad? then Bad else Got(Obj(m.value), m.rest);
    } else if t[0] == '"' {
      var x := ParseText(t[1..], strict);
      r := if x.Bad? then Bad else Got(Str(x.value), x.rest);
    } else if t[0] == 'n' {
      r := if "null" <= t then Got(Null, t[4..]) else Bad;
    } else {
      r := ParseNumber(t);
    }
  }

  /** What decodeObject returns: nothing between the braces, or members. */
  function ObjectBody(s: string, strict: bool): Parsed<map<string, Value>> {
    var u := SkipSpace(s);
    if u != "" && u[0] == '}' then Got(map[], u[1..]) else ParseMembers(s, map[], strict)
  }

  /** The loop of decodeObject: name, value, separator, until the closing brace. */
  method DecodeObject(s: string, strict: bool) returns (r: Parsed<map<string, Value>>)
    ensures r == ObjectBody(s, strict)
    decreases |s|, 2
  {
    hide ParseKey, ParseValue;
    var out: map<string, Value> := map[];
    var u := SkipSpace(s);
    if u != "" && u[0] == '}' {
      return Got(out, u[1..]);
    }
    var rest := s;
    while true
      invariant |rest| <= |s|
      invariant ParseMembers(s, map[], strict) == ParseMembers(rest, out, strict)
      decreases |rest|
    {
      var key := ParseKey(rest, strict);
      if key.Bad? || key.value in out {
        return Bad;
      }
      var v := DecodeValue(key.rest, strict);
      if v.Bad? {
        return Bad;
      }
      out := out[key.value := v.value];
      var next := SkipSpace(v.rest);
      if next == "" {
        return Bad;
      }
      if next[0] == '}' {
        return Got(out, next[1..]);
      }
      if next[0] != ',' {
        return Bad;
      }
      rest := next[1..];
    }
  }
}
