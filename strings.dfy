/** The string operations the calculators rely on: decimal spelling and
    parsing of integers, Python's `str.split` with a one-character
    separator, and Python's ordering and sorting of strings (by code
    point, a proper prefix first). */
module Strings {
  import opened Wrappers

  predicate IsDigit(c: char)
  {
    '0' <= c <= '9'
  }

  predicate AllDigits(s: string)
  {
    forall i :: 0 <= i < |s| ==> IsDigit(s[i])
  }

  function DigitValue(c: char): (d: nat)
    requires IsDigit(c)
    ensures d < 10
  {
    c as int - '0' as int
  }

  function DigitChar(d: nat): (c: char)
    requires d < 10
    ensures IsDigit(c) && DigitValue(c) == d
  {
    (('0' as int) + d) as char
  }

  /** The decimal spelling of n, without leading zeros: what Python's
      `str(n)` and a JavaScript template literal produce for an integer. */
  function NatToString(n: nat): (s: string)
    ensures |s| >= 1 && AllDigits(s)
    decreases n
  {
    if n < 10 then [DigitChar(n)] else NatToString(n / 10) + [DigitChar(n % 10)]
  }

  /** The decimal spelling of an integer, with a leading '-' when negative. */
  function IntToString(i: int): (s: string)
    ensures |s| >= 1
    ensures s[0] == '-' <==> i < 0
  {
    if i < 0 then "-" + NatToString(-i) else NatToString(i)
  }

  /** The value of a string of decimal digits. */
  function DigitsValue(s: string): nat
    requires AllDigits(s)
  {
    if s == [] then 0 else DigitsValue(s[..|s| - 1]) * 10 + DigitValue(s[|s| - 1])
  }

  /** Python's `int(s)` on the strings this model gives it: the value of a
      non-empty string of decimal digits, and a ValueError (None) otherwise. */
  function ParseDecimal(s: string): (r: Option<int>)
    ensures r.Some? <==> s != [] && AllDigits(s)
  {
    if s != [] && AllDigits(s) then Some(DigitsValue(s)) else None
  }

  /** A string of digits holds no minus sign. */
  lemma DigitsHaveNoSign(s: string)
    requires AllDigits(s)
    ensures '-' !in s
  {
  }

  /** Reading back the spelling of n gives n. */
  lemma {:induction false} DigitsValueOfNatToString(n: nat)
    ensures DigitsValue(NatToString(n)) == n
    decreases n
  {
    if n >= 10 {
      var s := NatToString(n);
      assert s[..|s| - 1] == NatToString(n / 10);
      DigitsValueOfNatToString(n / 10);
    }
  }

  lemma ParseDecimalOfNatToString(n: nat)
    ensures ParseDecimal(NatToString(n)) == Some(n)
  {
    DigitsValueOfNatToString(n);
  }

  lemma IntToStringInjective(a: int, b: int)
    requires IntToString(a) == IntToString(b)
    ensures a == b
  {
    if a < 0 {
      assert IntToString(a)[1..] == NatToString(-a);
      assert IntToString(b)[1..] == NatToString(-b);
      DigitsValueOfNatToString(-a);
      DigitsValueOfNatToString(-b);
    } else {
      DigitsValueOfNatToString(a);
      DigitsValueOfNatToString(b);
    }
  }

  /** The position of the first c in s, or |s| when there is none. */
  function IndexOf(s: string, c: char): (i: nat)
    ensures i <= |s|
    ensures i < |s| ==> s[i] == c
    ensures forall j :: 0 <= j < i ==> s[j] != c
  {
    if s == [] then 0 else if s[0] == c then 0 else 1 + IndexOf(s[1..], c)
  }

  /** Python's `s.split(sep)` for a one-character separator. */
  function Split(s: string, sep: char): (parts: seq<string>)
    ensures |parts| >= 1
    decreases |s|
  {
    var i := IndexOf(s, sep);
    if i == |s| then [s] else [s[..i]] + Split(s[i + 1..], sep)
  }

  /** Python's `sep.join(parts)`. */
  function Join(parts: seq<string>, sep: char): string
    requires |parts| >= 1
  {
    if |parts| == 1 then parts[0] else parts[0] + [sep] + Join(parts[1..], sep)
  }

  /** Joining the parts again restores the string, and no part holds the separator. */
  lemma {:induction false} SplitJoin(s: string, sep: char)
    ensures Join(Split(s, sep), sep) == s
    ensures forall k :: 0 <= k < |Split(s, sep)| ==> sep !in Split(s, sep)[k]
    decreases |s|
  {
    var i := IndexOf(s, sep);
    if i < |s| {
      SplitJoin(s[i + 1..], sep);
      assert s == s[..i] + [sep] + s[i + 1..];
      var parts := Split(s, sep);
      assert parts[1..] == Split(s[i + 1..], sep);
      forall k | 0 <= k < |parts| ensures sep !in parts[k] {
        if k > 0 {
          assert parts[k] == Split(s[i + 1..], sep)[k - 1];
        }
      }
    }
  }

  /** Splitting at a separator that the prefix does not contain. */
  lemma SplitAfterPrefix(p: string, sep: char, q: string)
    requires sep !in p
    ensures Split(p + [sep] + q, sep) == [p] + Split(q, sep)
  {
    var s := p + [sep] + q;
    var i := IndexOf(s, sep);
    assert s[|p|] == sep;
    assert forall j :: 0 <= j < |p| ==> s[j] == p[j];
    assert i == |p|;
    assert s[..i] == p;
    assert s[i + 1..] == q;
  }

  /** Python's `a < b` on strings: lexicographic by code point. */
  predicate StrLess(a: string, b: string)
    decreases |a|
  {
    if a == [] then b != []
    else if b == [] then false
    else if a[0] != b[0] then a[0] < b[0]
    else StrLess(a[1..], b[1..])
  }

  lemma {:induction false} StrLessIrreflexive(a: string)
    ensures !StrLess(a, a)
    decreases |a|
  {
    if a != [] {
      StrLessIrreflexive(a[1..]);
    }
  }

  lemma {:induction false} StrLessTransitive(a: string, b: string, c: string)
    requires StrLess(a, b) && StrLess(b, c)
    ensures StrLess(a, c)
    decreases |a|
  {
    if a != [] && b != [] && c != [] && a[0] == b[0] && b[0] == c[0] {
      StrLessTransitive(a[1..], b[1..], c[1..]);
    }
  }

  lemma {:induction false} StrLessTotal(a: string, b: string)
    ensures a == b || StrLess(a, b) || StrLess(b, a)
    decreases |a|
  {
    if a != [] && b != [] && a[0] == b[0] {
      StrLessTotal(a[1..], b[1..]);
      if a[1..] == b[1..] {
        assert a == [a[0]] + a[1..] && b == [b[0]] + b[1..];
      }
    }
  }

  predicate NoDuplicates<T(==)>(s: seq<T>)
  {
    forall i, j :: 0 <= i < j < |s| ==> s[i] != s[j]
  }

  ghost predicate StrictlyIncreasing(s: seq<string>)
  {
    forall i, j :: 0 <= i < j < |s| ==> StrLess(s[i], s[j])
  }

  function InsertString(x: string, s: seq<string>): (r: seq<string>)
    ensures |r| == |s| + 1
    ensures multiset(r) == multiset(s) + multiset{x}
  {
    if s == [] then [x]
    else if StrLess(x, s[0]) then [x] + s
    else
      assert s == [s[0]] + s[1..];
      [s[0]] + InsertString(x, s[1..])
  }

  /** Python's `sorted(strings)`, as an insertion sort. */
  function SortStrings(s: seq<string>): (r: seq<string>)
    ensures |r| == |s|
    ensures multiset(r) == multiset(s)
  {
    if s == [] then []
    else
      assert s == s[..|s| - 1] + [s[|s| - 1]];
      InsertString(s[|s| - 1], SortStrings(s[..|s| - 1]))
  }

  lemma {:induction false} InsertStringIncreasing(x: string, s: seq<string>)
    requires StrictlyIncreasing(s) && x !in s
    ensures StrictlyIncreasing(InsertString(x, s))
  {
    if s != [] && !StrLess(x, s[0]) {
      StrLessTotal(x, s[0]);
      var tail := InsertString(x, s[1..]);
      InsertStringIncreasing(x, s[1..]);
      forall j | 0 <= j < |tail| ensures StrLess(s[0], tail[j]) {
        assert tail[j] in multiset(s[1..]) + multiset{x};
        if tail[j] in multiset(s[1..]) {
          var k :| 0 <= k < |s[1..]| && s[1..][k] == tail[j];
          assert s[k + 1] == tail[j];
        }
      }
    } else if s != [] {
      forall j | 0 < j < |s| ensures StrLess(x, s[j]) {
        StrLessTransitive(x, s[0], s[j]);
      }
    }
  }

  /** Sorting distinct strings lists them in strictly increasing order. */
  lemma {:induction false} SortStringsIncreasing(s: seq<string>)
    requires NoDuplicates(s)
    ensures StrictlyIncreasing(SortStrings(s))
  {
    if s != [] {
      var init, last := s[..|s| - 1], s[|s| - 1];
      SortStringsIncreasing(init);
      assert last !in multiset(init);
      assert last !in SortStrings(init) by {
        assert multiset(SortStrings(init)) == multiset(init);
      }
      InsertStringIncreasing(last, SortStrings(init));
    }
  }

  /** The first element of a strictly increasing sequence is its least. */
  lemma HeadIsLeast(s: seq<string>, x: string)
    requires StrictlyIncreasing(s) && x in s
    ensures x == s[0] || StrLess(s[0], x)
  {
  }

  lemma SameElementsBothEmpty(a: seq<string>, b: seq<string>)
    requires forall x :: x in a <==> x in b
    ensures a == [] <==> b == []
  {
    if a != [] {
      assert a[0] in b;
    }
    if b != [] {
      assert b[0] in a;
    }
  }

  /** A strictly increasing enumeration of a set of strings is unique. */
  lemma {:induction false} IncreasingUnique(a: seq<string>, b: seq<string>)
    requires StrictlyIncreasing(a) && StrictlyIncreasing(b)
    requires forall x :: x in a <==> x in b
    ensures a == b
    decreases |a|
  {
    SameElementsBothEmpty(a, b);
    if a != [] && b != [] {
      HeadIsLeast(b, a[0]);
      HeadIsLeast(a, b[0]);
      if a[0] != b[0] {
        StrLessTransitive(a[0], b[0], a[0]);
        StrLessIrreflexive(a[0]);
        assert false;
      }
      forall x ensures x in a[1..] <==> x in b[1..] {
        if x in a[1..] {
          var k :| 0 <= k < |a[1..]| && a[1..][k] == x;
          assert StrLess(a[0], a[k + 1]);
          if x == b[0] { StrLessIrreflexive(x); }
          assert x in b;
        }
        if x in b[1..] {
          var k :| 0 <= k < |b[1..]| && b[1..][k] == x;
          assert StrLess(b[0], b[k + 1]);
          if x == a[0] { StrLessIrreflexive(x); }
          assert x in a;
        }
      }
      IncreasingUnique(a[1..], b[1..]);
      assert a == [a[0]] + a[1..] && b == [b[0]] + b[1..];
    }
  }
}
