/**
 * The array operations the front end composes: `filter`, the size of a
 * `Set`, `[...new Set(xs)]` (first-occurrence de-duplication) and the
 * default `sort()` of strings.
 */
module JsArray {

  /** `a` is `b` with some elements left out, the rest in their original order. */
  predicate IsSubsequence<T(==)>(a: seq<T>, b: seq<T>) {
    if a == [] then true
    else if b == [] then false
    else if a[0] == b[0] then IsSubsequence(a[1..], b[1..])
    else IsSubsequence(a, b[1..])
  }

  lemma {:induction false} SubsequenceRefl<T>(a: seq<T>)
    ensures IsSubsequence(a, a)
  {
    if a != [] {
      SubsequenceRefl(a[1..]);
    }
  }

  /** `xs.map(f)`. */
  function Map<T, U>(xs: seq<T>, f: T -> U): (r: seq<U>)
    ensures |r| == |xs| && forall i :: 0 <= i < |xs| ==> r[i] == f(xs[i])
  {
    seq(|xs|, i requires 0 <= i < |xs| => f(xs[i]))
  }

  /** `xs.filter(f)`. */
  function Filter<T(!new)>(xs: seq<T>, f: T -> bool): (r: seq<T>)
    ensures |r| <= |xs|
    ensures forall x :: x in r <==> x in xs && f(x)
    ensures IsSubsequence(r, xs)
    ensures (forall i :: 0 <= i < |xs| ==> f(xs[i])) ==> r == xs
  {
    if xs == [] then []
    else if f(xs[0]) then [xs[0]] + Filter(xs[1..], f)
    else Filter(xs[1..], f)
  }

  /** The filter keeps every occurrence of a passing value and none of a failing one. */
  lemma {:induction false} FilterMultiplicity<T(!new)>(xs: seq<T>, f: T -> bool)
    ensures forall x :: multiset(Filter(xs, f))[x] == if f(x) then multiset(xs)[x] else 0
  {
    if xs != [] {
      FilterMultiplicity(xs[1..], f);
      assert xs == [xs[0]] + xs[1..];
    }
  }

  /** `xs.filter(f).length`. */
  function Count<T(!new)>(xs: seq<T>, f: T -> bool): (n: nat)
    ensures n <= |xs|
  {
    |Filter(xs, f)|
  }

  /** What `f` accepts and what it rejects add up to the whole list. */
  lemma {:induction false} CountSplits<T(!new)>(xs: seq<T>, f: T -> bool, g: T -> bool)
    requires forall x :: g(x) == !f(x)
    ensures Count(xs, f) + Count(xs, g) == |xs|
  {
    if xs != [] {
      CountSplits(xs[1..], f, g);
    }
  }

  predicate NoDuplicates<T(==)>(s: seq<T>) {
    forall i, j :: 0 <= i < j < |s| ==> s[i] != s[j]
  }

  /** Index of the first occurrence of `x` in `xs`. */
  function FirstIndex<T(==)>(xs: seq<T>, x: T): (k: nat)
    requires x in xs
    ensures k < |xs| && xs[k] == x && x !in xs[..k]
  {
    if xs[0] == x then 0 else 1 + FirstIndex(xs[1..], x)
  }

  lemma {:induction false} FirstIndexInPrefix<T>(xs: seq<T>, n: nat, x: T)
    requires n <= |xs| && x in xs[..n]
    ensures FirstIndex(xs, x) == FirstIndex(xs[..n], x)
  {
    if xs[0] != x {
      assert xs[..n][1..] == xs[1..][..n - 1];
      FirstIndexInPrefix(xs[1..], n - 1, x);
    }
  }

  /**
   * `[...new Set(xs)]`: every element once, in the order of first occurrence.
   * Its length is `new Set(xs).size`.
   */
  function Distinct<T(==,!new)>(xs: seq<T>): (r: seq<T>)
    ensures forall x :: x in r <==> x in xs
    ensures NoDuplicates(r)
    ensures |r| <= |xs|
    ensures forall i :: 0 <= i < |r| ==> FirstIndex(xs, r[i]) < |xs|
  {
    if xs == [] then []
    else
      var init := Distinct(xs[..|xs| - 1]);
      assert forall x :: x in xs <==> x in xs[..|xs| - 1] || x == xs[|xs| - 1] by {
        assert xs == xs[..|xs| - 1] + [xs[|xs| - 1]];
      }
      if xs[|xs| - 1] in init then init else init + [xs[|xs| - 1]]
  }

  /** A list without repeats is its own de-duplication. */
  lemma {:induction false} DistinctOfNoDuplicates<T(!new)>(xs: seq<T>)
    requires NoDuplicates(xs)
    ensures Distinct(xs) == xs
  {
    if xs != [] {
      var n := |xs| - 1;
      DistinctOfNoDuplicates(xs[..n]);
      assert xs[n] !in xs[..n];
      assert xs[..n] + [xs[n]] == xs;
    }
  }

  /** A non-empty list holding one value throughout de-duplicates to that value alone. */
  lemma {:induction false} DistinctOfConstant<T(!new)>(xs: seq<T>, x: T)
    requires xs != [] && forall i :: 0 <= i < |xs| ==> xs[i] == x
    ensures Distinct(xs) == [x]
  {
    if |xs| > 1 {
      DistinctOfConstant(xs[..|xs| - 1], x);
    }
  }

  /** `Distinct` lists its elements in the order they first occur. */
  lemma {:induction false} DistinctFirstOccurrenceOrder<T(!new)>(xs: seq<T>)
    ensures forall i, j :: 0 <= i < j < |Distinct(xs)| ==>
      FirstIndex(xs, Distinct(xs)[i]) < FirstIndex(xs, Distinct(xs)[j])
  {
    if xs != [] {
      var n := |xs| - 1;
      var pre := xs[..n];
      var init := Distinct(pre);
      DistinctFirstOccurrenceOrder(pre);
      var d := Distinct(xs);
      assert d == init || (d == init + [xs[n]] && xs[n] !in pre);
      forall i, j | 0 <= i < j < |d|
        ensures FirstIndex(xs, d[i]) < FirstIndex(xs, d[j])
      {
        assert d[i] == init[i] && init[i] in pre;
        FirstIndexInPrefix(xs, n, init[i]);
        if j < |init| {
          assert d[j] == init[j] && init[j] in pre;
          FirstIndexInPrefix(xs, n, init[j]);
        } else {
          assert d[j] == xs[n] && FirstIndex(xs, xs[n]) == n;
        }
      }
    }
  }

  /**
   * The default `sort()` order of strings: compare characters left to
   * right, a prefix first. JavaScript compares UTF-16 code units; the two
   * orders agree on text without characters beyond U+FFFF.
   */
  predicate StrLess(a: string, b: string) {
    if a == [] then b != []
    else if b == [] then false
    else if a[0] != b[0] then a[0] < b[0]
    else StrLess(a[1..], b[1..])
  }

  lemma {:induction false} StrLessIrreflexive(a: string)
    ensures !StrLess(a, a)
  {
    if a != [] {
      StrLessIrreflexive(a[1..]);
    }
  }

  lemma {:induction false} StrLessTransitive(a: string, b: string, c: string)
    requires StrLess(a, b) && StrLess(b, c)
    ensures StrLess(a, c)
  {
    if a != [] && b != [] && c != [] && a[0] == b[0] && b[0] == c[0] {
      StrLessTransitive(a[1..], b[1..], c[1..]);
    }
  }

  lemma {:induction false} StrLessTotal(a: string, b: string)
    requires a != b
    ensures StrLess(a, b) || StrLess(b, a)
  {
    if a != [] && b != [] && a[0] == b[0] {
      assert a == [a[0]] + a[1..] && b == [b[0]] + b[1..];
      StrLessTotal(a[1..], b[1..]);
    }
  }

  predicate StrictlySorted(s: seq<string>) {
    forall i, j :: 0 <= i < j < |s| ==> StrLess(s[i], s[j])
  }

  /** Puts `x` into a strictly sorted list, unless it is already there. */
  function InsertSorted(x: string, s: seq<string>): (r: seq<string>)
    requires StrictlySorted(s)
    ensures StrictlySorted(r)
    ensures forall y :: y in r <==> y in s || y == x
  {
    if s == [] then [x]
    else if x == s[0] then s
    else if StrLess(x, s[0]) then
      assert forall j :: 0 < j < |s| ==> StrLess(x, s[j]) by {
        forall j | 0 < j < |s| ensures StrLess(x, s[j]) {
          StrLessTransitive(x, s[0], s[j]);
        }
      }
      [x] + s
    else
      StrLessTotal(x, s[0]);
      var tail := InsertSorted(x, s[1..]);
      assert forall y :: y in tail ==> StrLess(s[0], y);
      [s[0]] + tail
  }

  /** `[...new Set(xs.filter(Boolean))].sort()`: the non-empty values, each once, in sorted order. */
  function FilterOptions(xs: seq<string>): (r: seq<string>)
    ensures StrictlySorted(r)
    ensures forall y :: y in r <==> y in xs && y != ""
  {
    if xs == [] then []
    else
      var init := FilterOptions(xs[..|xs| - 1]);
      assert forall y :: y in xs <==> y in xs[..|xs| - 1] || y == xs[|xs| - 1] by {
        assert xs == xs[..|xs| - 1] + [xs[|xs| - 1]];
      }
      if xs[|xs| - 1] == "" then init else InsertSorted(xs[|xs| - 1], init)
  }

  /** A strictly sorted list holds no value twice. */
  lemma StrictlySortedNoDuplicates(s: seq<string>)
    requires StrictlySorted(s)
    ensures NoDuplicates(s)
  {
    forall i, j | 0 <= i < j < |s| ensures s[i] != s[j] {
      if s[i] == s[j] {
        StrLessIrreflexive(s[i]);
      }
    }
  }

  /** `$addToSet`: append `x` unless it is already present. */
  function AddToSet<T(==)>(xs: seq<T>, x: T): (r: seq<T>)
    ensures (set y | y in r) == (set y | y in xs) + {x}
    ensures NoDuplicates(xs) ==> NoDuplicates(r)
    ensures x in xs ==> r == xs
    ensures |r| <= |xs| + 1
  {
    if x in xs then xs else xs + [x]
  }
}
