/**
 * Python's ordering of `str` values, `str()` of an int, `str.rjust`, and the
 * stable `sorted` by a string key.
 */
module StrOrder {

  /** `a < b` on Python strings: code-point lexicographic order, a proper prefix first. */
  predicate Less(a: string, b: string)
    decreases |a|
  {
    if a == [] then b != []
    else if b == [] then false
    else if a[0] != b[0] then a[0] < b[0]
    else Less(a[1..], b[1..])
  }

  lemma {:induction false} LessIrreflexive(a: string)
    ensures !Less(a, a)
    decreases |a|
  {
    if a != [] {
      LessIrreflexive(a[1..]);
    }
  }

  lemma {:induction false} LessTransitive(a: string, b: string, c: string)
    requires Less(a, b) && Less(b, c)
    ensures Less(a, c)
    decreases |a|
  {
    if a != [] && b != [] && c != [] && a[0] == b[0] && b[0] == c[0] {
      LessTransitive(a[1..], b[1..], c[1..]);
    }
  }

  /** Python strings are totally ordered. */
  lemma {:induction false} LessTotal(a: string, b: string)
    ensures Less(a, b) || a == b || Less(b, a)
    decreases |a|
  {
    if a != [] && b != [] && a[0] == b[0] {
      LessTotal(a[1..], b[1..]);
      if a[1..] == b[1..] {
        assert a == [a[0]] + a[1..] && b == [b[0]] + b[1..];
      }
    }
  }

  /** Comparing two strings with a common prefix compares what follows it. */
  lemma {:induction false} LessCommonPrefix(p: string, a: string, b: string)
    ensures Less(p + a, p + b) <==> Less(a, b)
    decreases |p|
  {
    if p != [] {
      assert (p + a)[1..] == p[1..] + a;
      assert (p + b)[1..] == p[1..] + b;
      LessCommonPrefix(p[1..], a, b);
    } else {
      assert p + a == a && p + b == b;
    }
  }

  /** Between strings of equal length, the first differing character decides. */
  lemma {:induction false} LessSnoc(a: string, b: string, x: char, y: char)
    requires |a| == |b|
    ensures Less(a + [x], b + [y]) <==> Less(a, b) || (a == b && x < y)
    decreases |a|
  {
    if a == [] {
      assert a + [x] == [x] && b + [y] == [y];
    } else {
      assert (a + [x])[1..] == a[1..] + [x];
      assert (b + [y])[1..] == b[1..] + [y];
      LessSnoc(a[1..], b[1..], x, y);
      if a[0] == b[0] && a[1..] == b[1..] {
        assert a == b;
      }
    }
  }

  // ---------------------------------------------------------------------------
  // str() of an int, and rjust

  function DigitChar(d: nat): char
    requires d < 10
  {
    ('0' as int + d) as char
  }

  /** `str(n)` for `n >= 0`. */
  function NatStr(n: nat): (s: string)
    ensures |s| > 0 && forall i :: 0 <= i < |s| ==> '0' <= s[i] <= '9'
  {
    if n < 10 then [DigitChar(n)] else NatStr(n / 10) + [DigitChar(n % 10)]
  }

  /** `str(i)` for any int. */
  function IntStr(i: int): string {
    if i < 0 then "-" + NatStr(-i) else NatStr(i)
  }

  /** `s.rjust(width)`: left-padded with spaces to `width`, unchanged when already as long. */
  function Rjust(s: string, width: nat): (r: string)
    ensures |r| == if |s| < width then width else |s|
    ensures r == Spaces(|r| - |s|) + s
  {
    if |s| < width then Spaces(width - |s|) + s else (assert Spaces(0) == []; s)
  }

  function Spaces(n: nat): (r: string)
    ensures |r| == n && forall i :: 0 <= i < n ==> r[i] == ' '
  {
    if n == 0 then [] else [' '] + Spaces(n - 1)
  }

  /** The number of decimal digits of `n`. */
  function Digits(n: nat): nat {
    if n < 10 then 1 else 1 + Digits(n / 10)
  }

  lemma {:induction false} NatStrLength(n: nat)
    ensures |NatStr(n)| == Digits(n)
  {
    if n >= 10 {
      NatStrLength(n / 10);
    }
  }

  lemma {:induction false} DigitsMonotone(a: nat, b: nat)
    requires a <= b
    ensures Digits(a) <= Digits(b)
  {
    if a >= 10 {
      DigitsMonotone(a / 10, b / 10);
    }
  }

  function Pow10(k: nat): nat {
    if k == 0 then 1 else 10 * Pow10(k - 1)
  }

  lemma {:induction false} DigitsBelow(n: nat, k: nat)
    requires 0 < k && n < Pow10(k)
    ensures Digits(n) <= k
  {
    if n >= 10 {
      DigitsBelow(n / 10, k - 1);
    }
  }

  /** Two numbers with as many digits compare as their decimal strings do. */
  lemma {:induction false} NatStrOrder(a: nat, b: nat)
    requires Digits(a) == Digits(b)
    ensures Less(NatStr(a), NatStr(b)) <==> a < b
    ensures NatStr(a) == NatStr(b) <==> a == b
  {
    if a < 10 {
      assert [DigitChar(a)] == [DigitChar(b)] ==> a == b;
    } else {
      NatStrOrder(a / 10, b / 10);
      NatStrLength(a / 10);
      NatStrLength(b / 10);
      LessSnoc(NatStr(a / 10), NatStr(b / 10), DigitChar(a % 10), DigitChar(b % 10));
      if NatStr(a) == NatStr(b) {
        var n := |NatStr(a / 10)|;
        assert NatStr(a)[..n] == NatStr(a / 10) && NatStr(b)[..n] == NatStr(b / 10);
        assert NatStr(a)[n] == DigitChar(a % 10) && NatStr(b)[n] == DigitChar(b % 10);
      }
    }
  }

  /** The sort key of a page index: `f"{str(k):>5}"`. */
  function PadKey(k: int): string {
    Rjust(IntStr(k), 5)
  }

  /** A shorter digit string padded to width 5 sorts first: a space is below every digit. */
  lemma {:induction false} PaddedShorterFirst(s: string, t: string)
    requires 0 < |s| < |t| <= 5
    requires forall i :: 0 <= i < |t| ==> '0' <= t[i] <= '9'
    ensures Less(Rjust(s, 5), Rjust(t, 5))
  {
    var p := Spaces(5 - |t|);
    var a := Spaces(|t| - |s|) + s;
    assert Rjust(s, 5) == p + a by {
      assert Spaces(5 - |s|) == p + Spaces(|t| - |s|);
    }
    assert Rjust(t, 5) == p + t;
    LessCommonPrefix(p, a, t);
    assert a[0] == ' ' && t[0] >= '0';
  }

  /**
   * For page indices `0 <= a, b < 100000` the padded string order is the
   * numeric order.
   */
  lemma PadKeyOrder(a: nat, b: nat)
    requires a < 100000 && b < 100000
    ensures Less(PadKey(a), PadKey(b)) <==> a < b
  {
    NatStrLength(a);
    NatStrLength(b);
    assert Pow10(5) == 100000;
    DigitsBelow(a, 5);
    DigitsBelow(b, 5);
    if Digits(a) == Digits(b) {
      NatStrOrder(a, b);
      var p := Spaces(5 - Digits(a));
      LessCommonPrefix(p, NatStr(a), NatStr(b));
    } else if Digits(a) < Digits(b) {
      if b <= a {
        DigitsMonotone(b, a);
      }
      PaddedShorterFirst(NatStr(a), NatStr(b));
    } else {
      if a <= b {
        DigitsMonotone(a, b);
      }
      PaddedShorterFirst(NatStr(b), NatStr(a));
      LessIrreflexive(PadKey(a));
      if Less(PadKey(a), PadKey(b)) {
        LessTransitive(PadKey(a), PadKey(b), PadKey(a));
      }
    }
  }

  /** Past width 5 the order is textual: page 100000 sorts before page 99999. */
  lemma WideIndexSortsEarly()
    ensures Less(PadKey(100000), PadKey(99999))
  {
    assert NatStr(100000) == "100000" by {
      assert NatStr(1) == "1";
      assert NatStr(10) == "10";
      assert NatStr(100) == "100";
      assert NatStr(1000) == "1000";
      assert NatStr(10000) == "10000";
    }
    assert NatStr(99999) == "99999" by {
      assert NatStr(9) == "9";
      assert NatStr(99) == "99";
      assert NatStr(999) == "999";
      assert NatStr(9999) == "9999";
    }
    assert PadKey(100000) == "100000";
    assert PadKey(99999) == "99999";
  }

  // ---------------------------------------------------------------------------
  // sorted(xs, key=...)

  /** No element sorts strictly before an earlier one. */
  predicate SortedBy<T>(xs: seq<T>, key: T -> string) {
    forall i, j :: 0 <= i < j < |xs| ==> !Less(key(xs[j]), key(xs[i]))
  }

  /** Places `x` after every element whose key is not above its own: the step of a stable insertion sort. */
  function Insert<T>(x: T, xs: seq<T>, key: T -> string): (r: seq<T>)
    ensures multiset(r) == multiset(xs) + multiset{x}
    ensures |r| == |xs| + 1
  {
    if xs == [] then [x]
    else if Less(key(x), key(xs[0])) then [x] + xs
    else
      assert xs == [xs[0]] + xs[1..];
      [xs[0]] + Insert(x, xs[1..], key)
  }

  lemma {:induction false} InsertSorted<T>(x: T, xs: seq<T>, key: T -> string)
    requires SortedBy(xs, key)
    ensures SortedBy(Insert(x, xs, key), key)
    ensures forall y :: y in Insert(x, xs, key) ==> y == x || y in xs
  {
    if xs == [] {
    } else if Less(key(x), key(xs[0])) {
      var r := [x] + xs;
      forall i, j | 0 <= i < j < |r| ensures !Less(key(r[j]), key(r[i])) {
        if i == 0 {
          if Less(key(r[j]), key(x)) {
            if j == 1 {
              LessTransitive(key(xs[0]), key(x), key(xs[0]));
              LessIrreflexive(key(xs[0]));
            } else {
              LessTransitive(key(r[j]), key(x), key(xs[0]));
            }
          }
        }
      }
    } else {
      var rest := Insert(x, xs[1..], key);
      InsertSorted(x, xs[1..], key);
      var r := [xs[0]] + rest;
      forall i, j | 0 <= i < j < |r| ensures !Less(key(r[j]), key(r[i])) {
        if i == 0 {
          assert r[j] in rest;
          if r[j] != x {
            assert r[j] in xs[1..];
          } else {
            LessTotal(key(x), key(xs[0]));
          }
        }
      }
    }
  }

  /** Python's `sorted(xs, key=key)`, as a stable insertion sort. */
  function SortBy<T>(xs: seq<T>, key: T -> string): (r: seq<T>)
    ensures multiset(r) == multiset(xs)
    ensures |r| == |xs|
  {
    if xs == [] then []
    else
      assert xs == xs[..|xs| - 1] + [xs[|xs| - 1]];
      Insert(xs[|xs| - 1], SortBy(xs[..|xs| - 1], key), key)
  }

  /** The result is ordered by the key and is a permutation of the input. */
  lemma {:induction false} SortBySorted<T>(xs: seq<T>, key: T -> string)
    ensures SortedBy(SortBy(xs, key), key)
    ensures multiset(SortBy(xs, key)) == multiset(xs)
  {
    if xs != [] {
      SortBySorted(xs[..|xs| - 1], key);
      InsertSorted(xs[|xs| - 1], SortBy(xs[..|xs| - 1], key), key);
    }
  }

  // ---------------------------------------------------------------------------
  // stability

  /** The elements of `xs` whose key is `k`, in their order in `xs`. */
  function WithKey<T>(xs: seq<T>, key: T -> string, k: string): (r: seq<T>)
    ensures |r| <= |xs|
    ensures forall i :: 0 <= i < |r| ==> key(r[i]) == k
  {
    if xs == [] then []
    else if key(xs[0]) == k then [xs[0]] + WithKey(xs[1..], key, k)
    else WithKey(xs[1..], key, k)
  }

  lemma {:induction false} WithKeyAppend<T>(xs: seq<T>, ys: seq<T>, key: T -> string, k: string)
    ensures WithKey(xs + ys, key, k) == WithKey(xs, key, k) + WithKey(ys, key, k)
  {
    if xs != [] {
      assert (xs + ys)[0] == xs[0];
      assert (xs + ys)[1..] == xs[1..] + ys;
      WithKeyAppend(xs[1..], ys, key, k);
      if key(xs[0]) == k {
        assert WithKey(xs + ys, key, k) == [xs[0]] + (WithKey(xs[1..], key, k) + WithKey(ys, key, k));
      }
    } else {
      assert xs + ys == ys;
    }
  }

  lemma {:induction false} WithKeyNone<T>(xs: seq<T>, key: T -> string, k: string)
    requires forall i :: 0 <= i < |xs| ==> key(xs[i]) != k
    ensures WithKey(xs, key, k) == []
  {
    if xs != [] {
      WithKeyNone(xs[1..], key, k);
    }
  }

  /** A key that lies strictly below every key of a sorted sequence is none of them. */
  lemma SortedAbove<T>(x: T, xs: seq<T>, key: T -> string)
    requires SortedBy(xs, key) && xs != [] && Less(key(x), key(xs[0]))
    ensures forall i :: 0 <= i < |xs| ==> key(xs[i]) != key(x)
  {
    LessIrreflexive(key(x));
    forall i | 0 <= i < |xs| ensures Less(key(x), key(xs[i])) {
      if i > 0 {
        LessTotal(key(xs[0]), key(xs[i]));
        if Less(key(xs[0]), key(xs[i])) {
          LessTransitive(key(x), key(xs[0]), key(xs[i]));
        }
      }
    }
  }

  /** Inserting `x` puts it after every element with the same key. */
  lemma {:induction false} InsertStable<T>(x: T, xs: seq<T>, key: T -> string, k: string)
    requires SortedBy(xs, key)
    ensures WithKey(Insert(x, xs, key), key, k) == WithKey(xs, key, k) + WithKey([x], key, k)
  {
    if xs == [] {
      assert Insert(x, xs, key) == [x];
    } else if Less(key(x), key(xs[0])) {
      assert Insert(x, xs, key) == [x] + xs;
      WithKeyAppend([x], xs, key, k);
      if key(x) == k {
        SortedAbove(x, xs, key);
        WithKeyNone(xs, key, k);
      } else {
        WithKeyNone([x], key, k);
      }
    } else {
      var rest := Insert(x, xs[1..], key);
      assert Insert(x, xs, key) == [xs[0]] + rest;
      assert SortedBy(xs[1..], key);
      InsertStable(x, xs[1..], key, k);
      WithKeyAppend([xs[0]], rest, key, k);
      WithKeyAppend([xs[0]], xs[1..], key, k);
      assert [xs[0]] + xs[1..] == xs;
    }
  }

  /**
   * `sorted` is stable: the elements sharing any one key come out in the
   * order they went in.
   */
  lemma {:induction false} SortByStable<T>(xs: seq<T>, key: T -> string, k: string)
    ensures WithKey(SortBy(xs, key), key, k) == WithKey(xs, key, k)
  {
    if xs != [] {
      var init, last := xs[..|xs| - 1], xs[|xs| - 1];
      assert SortBy(xs, key) == Insert(last, SortBy(init, key), key);
      SortByStable(init, key, k);
      SortBySorted(init, key);
      InsertStable(last, SortBy(init, key), key, k);
      assert xs == init + [last];
      WithKeyAppend(init, [last], key, k);
    }
  }
}
