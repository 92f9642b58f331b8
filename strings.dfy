/** The Python `str` operations the program relies on, over `seq<char>`. Lower-casing and
    whitespace are the ASCII subset of Python's Unicode rules. */
module Strings {
  import opened Wrappers

  predicate StartsWith(s: string, prefix: string) {
    |prefix| <= |s| && s[..|prefix|] == prefix
  }

  predicate EndsWith(s: string, suffix: string) {
    |suffix| <= |s| && s[|s| - |suffix|..] == suffix
  }

  predicate NoChar(s: string, c: char) {
    forall i :: 0 <= i < |s| ==> s[i] != c
  }

  /** `k` occurs in `s` at position `i`. */
  predicate OccursAt(s: string, k: string, i: int) {
    0 <= i && i + |k| <= |s| && s[i..i + |k|] == k
  }

  /** `k` occurs somewhere in `s`. */
  predicate Occurs(s: string, k: string) {
    exists i | 0 <= i <= |s| - |k| :: OccursAt(s, k, i)
  }

  /** `s.replace(k, v)`: every non-overlapping occurrence of `k`, scanning from the left, is
      replaced by `v`; an empty `k` puts `v` before every character and at the end. */
  function ReplaceAll(s: string, k: string, v: string): string
    decreases |s|
  {
    if k == [] then
      if s == [] then v else v + [s[0]] + ReplaceAll(s[1..], k, v)
    else if |s| < |k| then s
    else if s[..|k|] == k then v + ReplaceAll(s[|k|..], k, v)
    else [s[0]] + ReplaceAll(s[1..], k, v)
  }

  /** Replacing a non-empty key that does not occur changes nothing. */
  lemma {:induction false} ReplaceAbsent(s: string, k: string, v: string)
    requires k != [] && !Occurs(s, k)
    ensures ReplaceAll(s, k, v) == s
    decreases |s|
  {
    if |s| >= |k| {
      assert !OccursAt(s, k, 0);
      assert s[0..0 + |k|] == s[..|k|];
      assert !Occurs(s[1..], k) by {
        forall i | 0 <= i
          ensures !OccursAt(s[1..], k, i)
        {
          assert !OccursAt(s, k, i + 1);
          if i + |k| <= |s[1..]| {
            assert s[1..][i..i + |k|] == s[i + 1..i + 1 + |k|];
          }
        }
      }
      ReplaceAbsent(s[1..], k, v);
    }
  }

  /** Replacing a key by itself changes nothing. */
  lemma {:induction false} ReplaceBySelf(s: string, k: string)
    ensures ReplaceAll(s, k, k) == s
    decreases |s|
  {
    if k == [] {
      if s != [] {
        ReplaceBySelf(s[1..], k);
        assert [s[0]] + s[1..] == s;
      }
    } else if |s| >= |k| {
      if s[..|k|] == k {
        ReplaceBySelf(s[|k|..], k);
        assert s[..|k|] + s[|k|..] == s;
      } else {
        ReplaceBySelf(s[1..], k);
        assert [s[0]] + s[1..] == s;
      }
    }
  }

  function LowerChar(c: char): char {
    if 'A' <= c <= 'Z' then (c as int + 32) as char else c
  }

  /** `s.lower()` restricted to ASCII letters. */
  function Lower(s: string): (r: string)
    ensures |r| == |s|
    ensures forall i :: 0 <= i < |s| ==> r[i] == LowerChar(s[i])
  {
    seq(|s|, i requires 0 <= i < |s| => LowerChar(s[i]))
  }

  /** The ASCII characters for which `str.isspace()` holds. */
  predicate IsSpace(c: char) {
    c == ' ' || 9 <= c as int <= 13 || 28 <= c as int <= 31
  }

  function TrimLeft(s: string): (r: string)
    ensures |r| <= |s| && r == s[|s| - |r|..]
    ensures r != [] ==> !IsSpace(r[0])
  {
    if s != [] && IsSpace(s[0]) then TrimLeft(s[1..]) else s
  }

  function TrimRight(s: string): (r: string)
    ensures |r| <= |s| && r == s[..|r|]
    ensures r != [] ==> !IsSpace(r[|r| - 1])
  {
    if s != [] && IsSpace(s[|s| - 1]) then TrimRight(s[..|s| - 1]) else s
  }

  /** `s.strip()`: leading and trailing whitespace removed. */
  function Strip(s: string): string {
    TrimLeft(TrimRight(s))
  }

  function DigitChar(d: nat): char
    requires d < 10
  {
    ('0' as int + d) as char
  }

  predicate IsDigit(c: char) {
    '0' <= c <= '9'
  }

  /** `str(n)` for a natural number. */
  function NatToString(n: nat): (r: string)
    ensures r != [] && forall i :: 0 <= i < |r| ==> IsDigit(r[i])
  {
    if n < 10 then [DigitChar(n)] else NatToString(n / 10) + [DigitChar(n % 10)]
  }

  function DigitsValue(s: string): nat
    requires forall i :: 0 <= i < |s| ==> IsDigit(s[i])
  {
    if s == [] then 0
    else
      assert IsDigit(s[|s| - 1]);
      10 * DigitsValue(s[..|s| - 1]) + (s[|s| - 1] as int - '0' as int)
  }

  lemma {:induction false} DigitsOfNatToString(n: nat)
    ensures DigitsValue(NatToString(n)) == n
  {
    if n >= 10 {
      var r := NatToString(n);
      assert r[..|r| - 1] == NatToString(n / 10);
      DigitsOfNatToString(n / 10);
    }
  }

  /** The digits `int()` accepts: ASCII digits, where a single underscore may separate two
      digits. */
  predicate DigitGroups(s: string) {
    s != [] && IsDigit(s[0]) && IsDigit(s[|s| - 1]) &&
    (forall i :: 0 <= i < |s| ==> IsDigit(s[i]) || s[i] == '_') &&
    (forall i :: 0 <= i < |s| - 1 ==> s[i] == '_' ==> s[i + 1] != '_')
  }

  /** The digits of `s`, its underscores left out. */
  function DropUnderscores(s: string): (r: string)
    requires forall i :: 0 <= i < |s| ==> IsDigit(s[i]) || s[i] == '_'
    ensures forall i :: 0 <= i < |r| ==> IsDigit(r[i])
  {
    if s == [] then [] else (if s[0] == '_' then [] else [s[0]]) + DropUnderscores(s[1..])
  }

  /** A string of digits has no underscore to drop. */
  lemma {:induction false} DropNoUnderscores(s: string)
    requires forall i :: 0 <= i < |s| ==> IsDigit(s[i])
    ensures DropUnderscores(s) == s
  {
    if s != [] {
      DropNoUnderscores(s[1..]);
    }
  }

  /** `int(s)` for a string: surrounding whitespace, an optional sign, then digit groups.
      `None` is the `ValueError` Python raises for anything else. */
  function ParseInt(s: string): Option<int> {
    var t := Strip(s);
    if t != [] && (t[0] == '-' || t[0] == '+') then
      (if DigitGroups(t[1..]) then
         var v: int := DigitsValue(DropUnderscores(t[1..]));
         Some(if t[0] == '-' then -v else v)
       else None)
    else if DigitGroups(t) then Some(DigitsValue(DropUnderscores(t)))
    else None
  }

  /** `int(t)` for a string with no surrounding whitespace and no sign. */
  lemma ParseIntPlain(t: string)
    requires t != [] && !IsSpace(t[0]) && !IsSpace(t[|t| - 1]) && t[0] != '-' && t[0] != '+'
    ensures ParseInt(t) == if DigitGroups(t) then Some(DigitsValue(DropUnderscores(t))) else None
  {
    assert TrimRight(t) == t;
    assert TrimLeft(t) == t;
  }

  /** Underscores between digits are skipped, as in `int("1_000")`. */
  lemma ParseIntUnderscores()
    ensures ParseInt("1_000") == Some(1000)
  {
    var s := "1_000";
    var r := DropUnderscores(s);
    assert r == "1000" by {
      assert s[1..] == "_000" && s[1..][1..] == "000";
      DropNoUnderscores("000");
    }
    assert DigitsValue(r) == 1000 by {
      var a, b, c := "1", "10", "100";
      assert a[..0] == [] && DigitsValue(a) == 1;
      assert b[..1] == a && DigitsValue(b) == 10;
      assert c[..2] == b && DigitsValue(c) == 100;
      assert r[..3] == c;
    }
    assert DigitGroups(s);
    ParseIntPlain(s);
  }

  /** A doubled underscore, or one at either end, is refused. */
  lemma ParseIntMisplacedUnderscores()
    ensures ParseInt("1__0") == None && ParseInt("_1") == None && ParseInt("1_") == None
  {
    var d, b, e := "1__0", "_1", "1_";
    assert !DigitGroups(d) by {
      assert d[1] == '_' && d[2] == '_';
    }
    ParseIntPlain(d);
    ParseIntPlain(b);
    ParseIntPlain(e);
  }

  /** What `int(str(n))` gives back. */
  lemma ParseIntOfNatToString(n: nat)
    ensures ParseInt(NatToString(n)) == Some(n)
  {
    var r := NatToString(n);
    assert DigitGroups(r);
    assert ParseInt(r) == Some(DigitsValue(DropUnderscores(r))) by {
      ParseIntPlain(r);
    }
    assert DropUnderscores(r) == r by {
      DropNoUnderscores(r);
    }
    DigitsOfNatToString(n);
  }

  /** Python's `int(x)` for a real `x`: truncation toward zero. */
  function Trunc(x: real): (r: int)
    ensures x >= 0.0 ==> r as real <= x < r as real + 1.0
    ensures x < 0.0 ==> r as real - 1.0 < x <= r as real
  {
    if x >= 0.0 then x.Floor else -((-x).Floor)
  }

  /** `int(a / b)` with Python's true division, for a positive divisor: the quotient
      truncated toward zero. */
  function TruncDiv(a: int, b: int): int
    requires b > 0
  {
    if a >= 0 then a / b else -((-a) / b)
  }

  /** `int(d / 1000)`: a duration in microseconds as whole milliseconds, stored in a
      summary as a number. */
  function WholeMilliseconds(d: int): real {
    TruncDiv(d, 1000) as real
  }

  /** The integer quotient is the truncation of the exact real quotient. */
  lemma TruncDivIsTrunc(a: int, b: int)
    requires b > 0
    ensures TruncDiv(a, b) == Trunc(a as real / b as real)
  {
    var n := if a >= 0 then a else -a;
    var q := n / b;
    assert q * b <= n < (q + 1) * b;
    var x := n as real / b as real;
    BelowQuotient(q as real, n as real, b as real);
    BelowQuotient((q + 1) as real, n as real, b as real);
    assert x.Floor == q;
    if a < 0 {
      assert a as real / b as real == -x;
    }
  }

  lemma BelowQuotient(lo: real, n: real, b: real)
    requires b > 0.0
    ensures lo <= n / b <==> lo * b <= n
  {
    var x := n / b;
    assert x * b == n;
    if lo <= x {
      assert lo * b <= x * b;
    } else {
      assert x * b < lo * b;
    }
  }

  /** Truncating division keeps the order of the dividends. */
  lemma TruncDivMonotone(a: int, b: int, d: int)
    requires a >= b && d > 0
    ensures TruncDiv(a, d) >= TruncDiv(b, d)
  {
    if b >= 0 {
      IntDivMonotone(b, a, d);
    } else if a < 0 {
      IntDivMonotone(-a, -b, d);
    } else {
      IntDivMonotone(0, a, d);
      IntDivMonotone(0, -b, d);
    }
  }

  lemma IntDivMonotone(a: int, b: int, d: int)
    requires 0 <= a <= b && d > 0
    ensures a / d <= b / d
  {
    var qa, qb := a / d, b / d;
    assert a == d * qa + a % d && b == d * qb + b % d;
    assert d * (qa - qb) == d * qa - d * qb;
    MulAtLeast(d, qa - qb);
  }

  lemma MulAtLeast(d: int, k: int)
    requires d > 0
    ensures k >= 1 ==> d * k >= d
  {
  }

  // ---- Python's ordering of strings: lexicographic on code points ----

  predicate Less(a: string, b: string) {
    if a == [] then b != []
    else if b == [] then false
    else a[0] < b[0] || (a[0] == b[0] && Less(a[1..], b[1..]))
  }

  lemma {:induction false} LessIrreflexive(a: string)
    ensures !Less(a, a)
  {
    if a != [] {
      LessIrreflexive(a[1..]);
    }
  }

  lemma {:induction false} LessTransitive(a: string, b: string, c: string)
    requires Less(a, b) && Less(b, c)
    ensures Less(a, c)
  {
    if a != [] && b != [] && c != [] && a[0] == b[0] == c[0] {
      LessTransitive(a[1..], b[1..], c[1..]);
    }
  }

  lemma {:induction false} LessTotal(a: string, b: string)
    ensures a == b || Less(a, b) || Less(b, a)
  {
    if a != [] && b != [] && a[0] == b[0] {
      LessTotal(a[1..], b[1..]);
      if a[1..] == b[1..] {
        assert a == [a[0]] + a[1..] && b == [b[0]] + b[1..];
      }
    }
  }

  lemma {:induction false} LessAsymmetric(a: string, b: string)
    requires Less(a, b)
    ensures !Less(b, a)
  {
    if a != [] && a[0] == b[0] {
      LessAsymmetric(a[1..], b[1..]);
    }
  }

  /** Ascending order without repetitions. */
  predicate StrictlySorted(s: seq<string>) {
    forall i, j :: 0 <= i < j < |s| ==> Less(s[i], s[j])
  }

  /** Ascending order, repetitions allowed. */
  predicate SortedUp(s: seq<string>) {
    forall i, j :: 0 <= i < j < |s| ==> s[i] == s[j] || Less(s[i], s[j])
  }

  function Insert(x: string, s: seq<string>): (r: seq<string>)
    ensures multiset(r) == multiset(s) + multiset{x}
  {
    if s == [] || !Less(s[0], x) then [x] + s
    else
      assert s == [s[0]] + s[1..];
      [s[0]] + Insert(x, s[1..])
  }

  /** `sorted(s)`: the ascending permutation of `s`. */
  function Sort(s: seq<string>): (r: seq<string>)
    ensures multiset(r) == multiset(s)
  {
    if s == [] then []
    else
      assert s == [s[0]] + s[1..];
      Insert(s[0], Sort(s[1..]))
  }

  lemma {:induction false} InsertSorted(x: string, s: seq<string>)
    requires SortedUp(s)
    ensures SortedUp(Insert(x, s))
  {
    if s != [] && Less(s[0], x) {
      InsertSorted(x, s[1..]);
      var r := Insert(x, s);
      forall i, j | 0 <= i < j < |r| ensures r[i] == r[j] || Less(r[i], r[j]) {
        if i == 0 {
          assert r[j] in multiset(Insert(x, s[1..]));
          assert r[j] == x || r[j] in multiset(s[1..]);
          if r[j] != x {
            var k :| 0 <= k < |s[1..]| && s[1..][k] == r[j];
            assert s[k + 1] == r[j];
          }
        }
      }
    } else {
      var r := Insert(x, s);
      forall i, j | 0 <= i < j < |r| ensures r[i] == r[j] || Less(r[i], r[j]) {
        if i == 0 && j > 1 {
          LessTotal(x, s[0]);
          if s[0] != s[j - 1] {
            assert Less(s[0], s[j - 1]);
            if x != s[0] {
              LessTransitive(x, s[0], s[j - 1]);
            }
          }
        } else if i == 0 {
          LessTotal(x, s[0]);
        }
      }
    }
  }

  lemma {:induction false} SortIsSorted(s: seq<string>)
    ensures SortedUp(Sort(s))
  {
    if s != [] {
      SortIsSorted(s[1..]);
      InsertSorted(s[0], Sort(s[1..]));
    }
  }

  /** A sorted list with distinct elements is strictly sorted. */
  lemma SortedDistinctIsStrict(s: seq<string>)
    requires SortedUp(s)
    requires forall i, j :: 0 <= i < j < |s| ==> s[i] != s[j]
    ensures StrictlySorted(s)
  {
  }

  /** A strictly ascending list has no repetitions. */
  lemma StrictlySortedDistinct(s: seq<string>)
    requires StrictlySorted(s)
    ensures forall i, j :: 0 <= i < j < |s| ==> s[i] != s[j]
  {
    forall i, j | 0 <= i < j < |s| ensures s[i] != s[j] {
      LessIrreflexive(s[i]);
      assert Less(s[i], s[j]);
    }
  }

  /** Sorting an already sorted list gives it back. */
  lemma {:induction false} SortOfSorted(s: seq<string>)
    requires SortedUp(s)
    ensures Sort(s) == s
  {
    if s != [] {
      assert SortedUp(s[1..]) by {
        forall i, j | 0 <= i < j < |s[1..]| ensures s[1..][i] == s[1..][j] || Less(s[1..][i], s[1..][j]) {
          assert s[1..][i] == s[i + 1] && s[1..][j] == s[j + 1];
        }
      }
      SortOfSorted(s[1..]);
      if |s| > 1 {
        assert s[0] == s[1] || Less(s[0], s[1]);
        if s[0] == s[1] {
          LessIrreflexive(s[0]);
        } else {
          LessAsymmetric(s[0], s[1]);
        }
      }
    }
  }

  predicate Distinct<T(==)>(s: seq<T>) {
    forall i, j :: 0 <= i < j < |s| ==> s[i] != s[j]
  }

  /** A list has no repetitions exactly when no element occurs twice in its multiset. */
  lemma {:induction false} DistinctCount<T>(s: seq<T>)
    ensures Distinct(s) <==> forall v :: multiset(s)[v] <= 1
  {
    if s != [] {
      var rest := s[1..];
      assert s == [s[0]] + rest;
      DistinctCount(rest);
      if Distinct(s) {
        assert Distinct(rest) by {
          forall i, j | 0 <= i < j < |rest| ensures rest[i] != rest[j] {
            assert rest[i] == s[i + 1] && rest[j] == s[j + 1];
          }
        }
        assert s[0] !in rest by {
          forall j | 0 <= j < |rest| ensures rest[j] != s[0] {
            assert rest[j] == s[j + 1];
          }
        }
      } else {
        var i, j :| 0 <= i < j < |s| && s[i] == s[j];
        if i == 0 {
          assert s[j] == rest[j - 1];
          assert multiset(s)[s[0]] == 1 + multiset(rest)[s[0]];
        } else {
          assert rest[i - 1] == s[i] && rest[j - 1] == s[j];
          assert !Distinct(rest);
          var v :| multiset(rest)[v] > 1;
          assert multiset(s)[v] >= multiset(rest)[v];
        }
      }
    }
  }

  function Reverse<T>(s: seq<T>): (r: seq<T>)
    ensures |r| == |s|
    ensures forall i :: 0 <= i < |s| ==> r[i] == s[|s| - 1 - i]
  {
    if s == [] then [] else Reverse(s[1..]) + [s[0]]
  }
}
