/**
 Property names are ordered by their UTF-16 code units (section 3.2.3 of RFC 8785). A `char` is a Unicode scalar
 value, so a supplementary character is one `char` and two code units.
 */
module Utf16 {
  /** utf16.Encode of one scalar value. */
  function Units(c: char): (r: seq<int>)
    ensures |r| == if c as int < 0x10000 then 1 else 2
  {
    var n := c as int;
    if n < 0x10000 then [n] else [0xD800 + (n - 0x10000) / 0x400, 0xDC00 + (n - 0x10000) % 0x400]
  }

  function Encode(s: string): seq<int> {
    if s == "" then [] else Units(s[0]) + Encode(s[1..])
  }

  /** Lexicographic order with a proper prefix first. */
  predicate Before(a: seq<int>, b: seq<int>) {
    if b == [] then false
    else if a == [] then true
    else a[0] < b[0] || (a[0] == b[0] && Before(a[1..], b[1..]))
  }

  predicate LessUtf16(a: string, b: string) {
    Before(Encode(a), Encode(b))
  }

  lemma {:induction false} BeforeIrreflexive(a: seq<int>)
    ensures !Before(a, a)
  {
    if a != [] {
      BeforeIrreflexive(a[1..]);
    }
  }

  lemma {:induction false} BeforeTransitive(a: seq<int>, b: seq<int>, c: seq<int>)
    requires Before(a, b) && Before(b, c)
    ensures Before(a, c)
  {
    if a != [] && a[0] == b[0] && b[0] == c[0] {
      BeforeTransitive(a[1..], b[1..], c[1..]);
    }
  }

  lemma {:induction false} BeforeTotal(a: seq<int>, b: seq<int>)
    requires a != b
    ensures Before(a, b) || Before(b, a)
  {
    if a != [] && b != [] && a[0] == b[0] {
      assert a == [a[0]] + a[1..] && b == [b[0]] + b[1..];
      BeforeTotal(a[1..], b[1..]);
    }
  }

  /** The first code units fix the first character: no scalar value is a surrogate. */
  lemma UnitsPrefix(c: char, d: char, x: seq<int>, y: seq<int>)
    requires Units(c) + x == Units(d) + y
    ensures c == d && x == y
  {
    var l := Units(c) + x;
    assert l[0] == Units(c)[0] && l[0] == Units(d)[0];
    if |Units(c)| == 2 && |Units(d)| == 2 {
      assert l[1] == Units(c)[1] && l[1] == Units(d)[1];
      SurrogatePair(c as int - 0x10000);
      SurrogatePair(d as int - 0x10000);
    }
    assert c == d;
    assert x == l[|Units(c)|..] && y == l[|Units(d)|..];
  }

  lemma SurrogatePair(n: int)
    requires 0 <= n < 0x100000
    ensures n == (n / 0x400) * 0x400 + n % 0x400
    ensures 0 <= n / 0x400 < 0x400
  {
  }

  lemma {:induction false} EncodeInjective(a: string, b: string)
    requires Encode(a) == Encode(b)
    ensures a == b
  {
    if a != "" && b != "" {
      UnitsPrefix(a[0], b[0], Encode(a[1..]), Encode(b[1..]));
      EncodeInjective(a[1..], b[1..]);
      assert a == [a[0]] + a[1..] && b == [b[0]] + b[1..];
    }
  }

  /** LessUtf16 is a strict total order on strings, so sorting by it leaves nothing to chance. */
  lemma LessUtf16IsTotal(a: string, b: string)
    ensures !LessUtf16(a, a)
    ensures a != b ==> LessUtf16(a, b) != LessUtf16(b, a)
  {
    BeforeIrreflexive(Encode(a));
    if a != b {
      if Encode(a) == Encode(b) {
        EncodeInjective(a, b);
      }
      BeforeTotal(Encode(a), Encode(b));
      if LessUtf16(a, b) && LessUtf16(b, a) {
        BeforeTransitive(Encode(a), Encode(b), Encode(a));
      }
    }
  }

  lemma LessUtf16IsTransitive(a: string, b: string, c: string)
    requires LessUtf16(a, b) && LessUtf16(b, c)
    ensures LessUtf16(a, c)
  {
    BeforeTransitive(Encode(a), Encode(b), Encode(c));
  }

  // --- what the order means ------------------------------------------------------------------------

  /** Supplementary characters come between U+D7FF and U+E000; otherwise code points are compared. */
  predicate CharBefore(c: char, d: char) {
    var m, n := c as int, d as int;
    if m < 0x10000 && n >= 0x10000 then m < 0xD800
    else if m >= 0x10000 && n < 0x10000 then n >= 0xE000
    else m < n
  }

  /** The strings agree up to `i`, where the first ends or has the smaller character. */
  predicate DecidedAt(a: string, b: string, i: nat) {
    i <= |a| && i < |b| && a[..i] == b[..i] && (i == |a| || CharBefore(a[i], b[i]))
  }

  lemma DecidedLater(a: string, b: string, i: nat)
    requires a != "" && b != "" && a[0] == b[0]
    ensures DecidedAt(a, b, i + 1) <==> DecidedAt(a[1..], b[1..], i)
  {
    if i + 1 <= |a| && i + 1 <= |b| {
      assert a[..i + 1] == [a[0]] + a[1..][..i] && b[..i + 1] == [b[0]] + b[1..][..i];
      assert a[1..][..i] == a[..i + 1][1..] && b[1..][..i] == b[..i + 1][1..];
    }
  }

  lemma UnitsBefore(c: char, d: char, x: seq<int>, y: seq<int>)
    ensures c == d ==> Before(Units(c) + x, Units(d) + y) == Before(x, y)
    ensures c != d ==> Before(Units(c) + x, Units(d) + y) == CharBefore(c, d)
  {
    var l, r := Units(c) + x, Units(d) + y;
    assert l[0] == Units(c)[0] && r[0] == Units(d)[0];
    if |Units(c)| == 2 {
      SurrogatePair(c as int - 0x10000);
      assert l[1..][0] == Units(c)[1] && l[1..][1..] == x;
    } else {
      assert l[1..] == x;
    }
    if |Units(d)| == 2 {
      SurrogatePair(d as int - 0x10000);
      assert r[1..][0] == Units(d)[1] && r[1..][1..] == y;
    } else {
      assert r[1..] == y;
    }
  }

  /** Comparing code units is comparing characters in this order, a proper prefix first. */
  lemma {:induction false} LessUtf16Iff(a: string, b: string)
    ensures LessUtf16(a, b) <==> exists i :: DecidedAt(a, b, i)
  {
    if a == "" || b == "" {
      assert DecidedAt(a, b, 0) <==> a == "" && b != "";
    } else {
      hide Units, CharBefore;
      UnitsBefore(a[0], b[0], Encode(a[1..]), Encode(b[1..]));
      if a[0] == b[0] {
        LessUtf16Iff(a[1..], b[1..]);
        forall i: nat ensures DecidedAt(a, b, i + 1) <==> DecidedAt(a[1..], b[1..], i) {
          DecidedLater(a, b, i);
        }
        NotBeforeItself(a[0]);
        if i: nat :| DecidedAt(a, b, i) {
          assert i > 0;
          DecidedLater(a, b, i - 1);
        }
      } else {
        assert DecidedAt(a, b, 0) <==> CharBefore(a[0], b[0]);
        forall i: nat | i > 0 ensures !DecidedAt(a, b, i) {
          assert i <= |a| && i <= |b| ==> a[..i][0] == a[0] && b[..i][0] == b[0];
        }
      }
    }
  }

  lemma NotBeforeItself(c: char)
    ensures !CharBefore(c, c)
  {
  }

  /** lessUTF16: scan both encodings up to the first difference. */
  method CompareUtf16(a: string, b: string) returns (less: bool)
    ensures less == LessUtf16(a, b)
  {
    var aa := Encode(a);
    var bb := Encode(b);
    var n := if |bb| < |aa| then |bb| else |aa|;
    var i := 0;
    while i < n
      invariant 0 <= i <= n
      invariant Before(aa, bb) == Before(aa[i..], bb[i..])
    {
      if aa[i] != bb[i] {
        return aa[i] < bb[i];
      }
      assert aa[i..][1..] == aa[i + 1..] && bb[i..][1..] == bb[i + 1..];
      i := i + 1;
    }
    return |aa| < |bb|;
  }

  // --- sorting a set of keys ---------------------------------------------------------------------

  ghost predicate IsLeast(keys: set<string>, k: string) {
    k in keys && forall k' | k' in keys && k' != k :: LessUtf16(k, k')
  }

  lemma {:induction false} LeastExists(keys: set<string>) returns (k: string)
    requires keys != {}
    ensures IsLeast(keys, k)
    decreases |keys|
  {
    hide LessUtf16;
    var x :| x in keys;
    if keys == {x} {
      return x;
    }
    var rest := keys - {x};
    var y := LeastExists(rest);
    LessUtf16IsTotal(x, y);
    if LessUtf16(y, x) {
      k := y;
    } else {
      k := x;
      forall k' | k' in keys && k' != x ensures LessUtf16(x, k') {
        if k' != y {
          LessUtf16IsTransitive(x, y, k');
        }
      }
    }
  }

  lemma LeastUnique(keys: set<string>, a: string, b: string)
    requires IsLeast(keys, a) && IsLeast(keys, b)
    ensures a == b
  {
    hide LessUtf16;
    if a != b {
      LessUtf16IsTotal(a, b);
    }
  }

  ghost function Least(keys: set<string>): string
    requires keys != {}
    ensures IsLeast(keys, Least(keys))
  {
    assert exists k :: IsLeast(keys, k) by {
      var k := LeastExists(keys);
      assert IsLeast(keys, k);
    }
    var k :| IsLeast(keys, k);
    k
  }

  /** The keys in ascending order. */
  ghost function Sorted(keys: set<string>): seq<string>
    decreases |keys|
  {
    if keys == {} then [] else [Least(keys)] + Sorted(keys - {Least(keys)})
  }

  lemma {:induction false} SortedHolds(keys: set<string>)
    ensures forall k :: k in Sorted(keys) <==> k in keys
    ensures |Sorted(keys)| == |keys|
    decreases |keys|
  {
    if keys != {} {
      SortedHolds(keys - {Least(keys)});
    }
  }

  ghost predicate Ascending(ks: seq<string>) {
    forall i, j | 0 <= i < j < |ks| :: LessUtf16(ks[i], ks[j])
  }

  /** Sorting gives the one ascending list of the keys. */
  lemma {:induction false} SortedIsAscending(keys: set<string>)
    ensures Ascending(Sorted(keys))
    decreases |keys|
  {
    hide LessUtf16;
    if keys != {} {
      SortedIsAscending(keys - {Least(keys)});
      SortedHolds(keys - {Least(keys)});
      var rest := Sorted(keys - {Least(keys)});
      forall j | 0 <= j < |rest| ensures LessUtf16(Least(keys), rest[j]) {
        assert rest[j] in rest;
      }
    }
  }

  lemma {:induction false} AscendingIsSorted(ks: seq<string>, keys: set<string>)
    requires Ascending(ks) && keys == set k | k in ks
    ensures ks == Sorted(keys)
  {
    hide LessUtf16;
    if ks != [] {
      forall k' | k' in keys && k' != ks[0] ensures LessUtf16(ks[0], k') {
        var j :| 0 <= j < |ks| && ks[j] == k';
      }
      assert ks[0] in keys && IsLeast(keys, ks[0]);
      LeastUnique(keys, ks[0], Least(keys));
      forall k | k in ks[1..] ensures k != ks[0] {
        var j :| 0 <= j < |ks[1..]| && ks[1..][j] == k;
        assert LessUtf16(ks[0], ks[j + 1]);
        LessUtf16IsTotal(ks[0], ks[0]);
      }
      assert forall k | k in keys && k != ks[0] :: k in ks[1..] by {
        forall k | k in keys && k != ks[0] ensures k in ks[1..] {
          var j :| 0 <= j < |ks| && ks[j] == k;
          assert ks[1..][j - 1] == k;
        }
      }
      assert keys - {ks[0]} == set k | k in ks[1..];
      AscendingIsSorted(ks[1..], keys - {ks[0]});
    } else {
      assert keys == {};
    }
  }
}
