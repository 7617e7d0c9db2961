/** The order of strings and the sorting that the other modules rely on. */
module Ordering {

  // Lexicographic order by character, as String comparison has it.
  predicate LexLess(a: string, b: string) {
    b != [] && (a == [] || a[0] < b[0] || (a[0] == b[0] && LexLess(a[1..], b[1..])))
  }

  lemma {:induction false} LexLessTransitive(a: string, b: string, c: string)
    requires LexLess(a, b) && LexLess(b, c)
    ensures LexLess(a, c)
  {
    if a != [] && a[0] == b[0] == c[0] {
      LexLessTransitive(a[1..], b[1..], c[1..]);
    }
  }

  lemma {:induction false} LexLessTotal(a: string, b: string)
    ensures (if LexLess(a, b) then 1 else 0) + (if LexLess(b, a) then 1 else 0) + (if a == b then 1 else 0) == 1
  {
    if a != [] && b != [] && a[0] == b[0] {
      LexLessTotal(a[1..], b[1..]);
      assert a == b <==> a[1..] == b[1..] by {
        assert a == [a[0]] + a[1..] && b == [b[0]] + b[1..];
      }
    }
  }

  // One string comes before another exactly when it is a proper prefix, or has the smaller character where
  // they first differ.
  lemma {:induction false} LexLessIff(a: string, b: string)
    ensures LexLess(a, b) <==> exists n :: FirstDiffers(a, b, n)
  {
    if a != [] && b != [] && a[0] == b[0] {
      LexLessIff(a[1..], b[1..]);
      if n: nat :| FirstDiffers(a, b, n) {
        assert n > 0;
        assert a[1..][..n - 1] == a[..n][1..] && b[1..][..n - 1] == b[..n][1..];
        assert FirstDiffers(a[1..], b[1..], n - 1);
      }
      if n: nat :| FirstDiffers(a[1..], b[1..], n) {
        assert a[..n + 1] == [a[0]] + a[1..][..n] && b[..n + 1] == [b[0]] + b[1..][..n];
        assert FirstDiffers(a, b, n + 1);
      }
    } else if b != [] && (a == [] || a[0] < b[0]) {
      assert FirstDiffers(a, b, 0);
    } else {
      forall n | 0 < n <= |a| && n <= |b|
        ensures a[..n] != b[..n]
      {
        assert a[..n][0] == a[0] && b[..n][0] == b[0];
      }
    }
  }

  // The strings agree up to place `n`, where the first ends or has the smaller character.
  ghost predicate FirstDiffers(a: string, b: string, n: nat) {
    n <= |a| && n < |b| && a[..n] == b[..n] && (n == |a| || a[n] < b[n])
  }

  // Ascending without repetition.
  predicate StrictlySorted(s: seq<string>) {
    forall i, j :: 0 <= i < j < |s| ==> LexLess(s[i], s[j])
  }

  function InsertUnique(x: string, s: seq<string>): seq<string> {
    if s == [] then [x]
    else if x == s[0] then s
    else if LexLess(x, s[0]) then [x] + s
    else [s[0]] + InsertUnique(x, s[1..])
  }

  // What `sort` followed by `dedup` makes of a list.
  function SortDedup(s: seq<string>): seq<string> {
    if s == [] then [] else InsertUnique(s[0], SortDedup(s[1..]))
  }

  lemma {:induction false} InsertUniqueSorted(x: string, s: seq<string>)
    requires StrictlySorted(s)
    ensures StrictlySorted(InsertUnique(x, s))
    ensures forall y :: y in InsertUnique(x, s) <==> y == x || y in s
  {
    if s != [] && x != s[0] {
      if LexLess(x, s[0]) {
        forall k | 0 <= k < |s| ensures LexLess(x, s[k]) {
          if k > 0 { LexLessTransitive(x, s[0], s[k]); }
        }
      } else {
        LexLessTotal(x, s[0]);
        InsertUniqueSorted(x, s[1..]);
        var rest := InsertUnique(x, s[1..]);
        assert s == [s[0]] + s[1..];
        forall k | 0 <= k < |rest| ensures LexLess(s[0], rest[k]) {
          assert rest[k] in rest;
          if rest[k] != x {
            var i :| 0 <= i < |s[1..]| && s[1..][i] == rest[k];
            assert s[i + 1] == rest[k];
          }
        }
      }
    }
  }

  lemma {:induction false} SortDedupSorted(s: seq<string>)
    ensures StrictlySorted(SortDedup(s))
    ensures forall y :: y in SortDedup(s) <==> y in s
  {
    if s != [] {
      SortDedupSorted(s[1..]);
      InsertUniqueSorted(s[0], SortDedup(s[1..]));
      assert s == [s[0]] + s[1..];
    }
  }

  // ---------- Stable sorting by a strict weak order ----------

  ghost predicate WeakOrder<T(!new)>(before: (T, T) -> bool) {
    && (forall a, b :: before(a, b) ==> !before(b, a))
    && (forall a, b, c :: before(a, c) ==> before(a, b) || before(b, c))
  }

  ghost predicate Sorted<T>(before: (T, T) -> bool, s: seq<T>) {
    forall i, j :: 0 <= i < j < |s| ==> !before(s[j], s[i])
  }

  function Insert<T>(before: (T, T) -> bool, x: T, s: seq<T>): seq<T> {
    if s == [] || !before(s[0], x) then [x] + s else [s[0]] + Insert(before, x, s[1..])
  }

  function Sort<T>(before: (T, T) -> bool, s: seq<T>): seq<T> {
    if s == [] then [] else Insert(before, s[0], Sort(before, s[1..]))
  }

  lemma {:induction false} InsertElements<T>(before: (T, T) -> bool, x: T, s: seq<T>)
    ensures multiset(Insert(before, x, s)) == multiset(s) + multiset{x}
  {
    if s != [] && before(s[0], x) {
      InsertElements(before, x, s[1..]);
      assert s == [s[0]] + s[1..];
    }
  }

  lemma {:induction false} SortElements<T>(before: (T, T) -> bool, s: seq<T>)
    ensures multiset(Sort(before, s)) == multiset(s)
  {
    if s != [] {
      SortElements(before, s[1..]);
      InsertElements(before, s[0], Sort(before, s[1..]));
      assert s == [s[0]] + s[1..];
    }
  }

  lemma SameElements<T>(s: seq<T>, t: seq<T>)
    requires multiset(s) == multiset(t)
    ensures |s| == |t|
    ensures forall x :: x in s <==> x in t
    ensures forall i :: 0 <= i < |s| ==> s[i] in t
  {
    assert |multiset(s)| == |s| && |multiset(t)| == |t|;
    assert forall x :: x in s <==> x in multiset(s);
    assert forall x :: x in t <==> x in multiset(t);
    assert forall i :: 0 <= i < |s| ==> s[i] in multiset(s);
  }

  lemma {:induction false} InsertSorts<T(!new)>(before: (T, T) -> bool, x: T, s: seq<T>)
    requires WeakOrder(before) && Sorted(before, s)
    ensures Sorted(before, Insert(before, x, s))
  {
    if s != [] && before(s[0], x) {
      assert s == [s[0]] + s[1..];
      InsertSorts(before, x, s[1..]);
      InsertElements(before, x, s[1..]);
      var rest := Insert(before, x, s[1..]);
      forall k | 0 <= k < |rest|
        ensures !before(rest[k], s[0])
      {
        assert rest[k] in multiset(rest);
        assert rest[k] == x || rest[k] in s[1..];
      }
    }
  }

  lemma {:induction false} SortSorts<T(!new)>(before: (T, T) -> bool, s: seq<T>)
    requires WeakOrder(before)
    ensures Sorted(before, Sort(before, s))
  {
    if s != [] {
      SortSorts(before, s[1..]);
      InsertSorts(before, s[0], Sort(before, s[1..]));
    }
  }

  ghost predicate DistinctBy<T, K>(key: T -> K, s: seq<T>) {
    forall i, j :: 0 <= i < j < |s| ==> key(s[i]) != key(s[j])
  }

  // No element of `s` has the key of `x`.
  ghost predicate KeyUnused<T, K>(key: T -> K, x: T, s: seq<T>) {
    forall i :: 0 <= i < |s| ==> key(s[i]) != key(x)
  }

  lemma KeyUnusedPermuted<T, K>(key: T -> K, x: T, s: seq<T>, t: seq<T>)
    requires KeyUnused(key, x, s) && multiset(s) == multiset(t)
    ensures KeyUnused(key, x, t)
  {
    SameElements(t, s);
  }

  lemma {:induction false} InsertDistinct<T, K>(before: (T, T) -> bool, key: T -> K, x: T, s: seq<T>)
    requires DistinctBy(key, s) && KeyUnused(key, x, s)
    ensures DistinctBy(key, Insert(before, x, s))
  {
    if s != [] && before(s[0], x) {
      InsertDistinct(before, key, x, s[1..]);
      InsertElements(before, x, s[1..]);
      assert multiset(s[1..] + [x]) == multiset(Insert(before, x, s[1..]));
      KeyUnusedPermuted(key, s[0], s[1..] + [x], Insert(before, x, s[1..]));
    }
  }

  lemma {:induction false} SortDistinct<T, K>(before: (T, T) -> bool, key: T -> K, s: seq<T>)
    requires DistinctBy(key, s)
    ensures DistinctBy(key, Sort(before, s))
  {
    if s != [] {
      SortDistinct(before, key, s[1..]);
      SortElements(before, s[1..]);
      KeyUnusedPermuted(key, s[0], s[1..], Sort(before, s[1..]));
      InsertDistinct(before, key, s[0], Sort(before, s[1..]));
    }
  }

  // Decimal rendering of a number, as `format!` prints it.
  function Decimal(n: nat): string {
    if n < 10 then [Digit(n)] else Decimal(n / 10) + [Digit(n % 10)]
  }

  function Digit(d: nat): char
    requires d < 10
  {
    '0' + d as char
  }

  lemma {:induction false} DecimalInjective(m: nat, n: nat)
    requires Decimal(m) == Decimal(n)
    ensures m == n
  {
    if m < 10 || n < 10 {
      assert |Decimal(m)| == 1 <==> m < 10;
      assert |Decimal(n)| == 1 <==> n < 10;
      assert Decimal(m)[0] == Digit(m) && Decimal(n)[0] == Digit(n);
    } else {
      var a, b := Decimal(m / 10), Decimal(n / 10);
      assert |a| == |Decimal(m)| - 1 && |b| == |Decimal(n)| - 1;
      assert Decimal(m)[..|a|] == a && Decimal(n)[..|b|] == b;
      assert Decimal(m)[|a|] == Digit(m % 10) && Decimal(n)[|b|] == Digit(n % 10);
      DecimalInjective(m / 10, n / 10);
    }
  }

  function Number(digits: string): int {
    if digits == "" then 0
    else 10 * Number(digits[..|digits| - 1]) + (digits[|digits| - 1] as int - '0' as int)
  }

  // Read as a decimal number it is the number again, and it has no zero in front.
  lemma {:induction false} DecimalReads(n: nat)
    ensures Number(Decimal(n)) == n && Decimal(n) != ""
    ensures n > 0 ==> Decimal(n)[0] != '0'
    ensures forall c :: c in Decimal(n) ==> '0' <= c <= '9'
  {
    if n >= 10 {
      DecimalReads(n / 10);
      var front := Decimal(n / 10);
      assert Decimal(n)[..|front|] == front && Decimal(n)[0] == front[0];
    } else {
      assert Decimal(n)[..0] == "";
    }
  }
}
