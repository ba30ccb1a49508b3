/**
 Generic facts about finite sequences that the bikeshare pipeline relies on:
 counting occurrences, order-preserving selection of elements, strict total
 orders, and the "most common value" (mode) with its smallest-value tie-break.
 */
module Sequences {

  /** An optional result, used where the program may raise. */
  datatype Option<T> = None | Some(value: T)

  /** Number of occurrences of `x` in `s`: the counting specification. */
  function Count<T(==)>(s: seq<T>, x: T): nat
  {
    if |s| == 0 then 0 else (if s[0] == x then 1 else 0) + Count(s[1..], x)
  }

  lemma {:induction false} CountPositive<T>(s: seq<T>, x: T)
    ensures Count(s, x) > 0 <==> x in s
  {
    if |s| > 0 {
      CountPositive(s[1..], x);
      assert x in s <==> s[0] == x || x in s[1..];
    }
  }

  lemma CountPositiveEverywhere<T>(s: seq<T>)
    ensures forall x :: x in s <==> Count(s, x) > 0
  {
    forall x {
      CountPositive(s, x);
    }
  }

  lemma CountCons<T>(x: T, s: seq<T>, y: T)
    ensures Count([x] + s, y) == (if x == y then 1 else 0) + Count(s, y)
  {
    assert ([x] + s)[1..] == s;
  }

  /** Every element occurs at most once. */
  predicate Distinct<T(==)>(s: seq<T>)
  {
    forall i, j :: 0 <= i < j < |s| ==> s[i] != s[j]
  }

  lemma {:induction false} CountInDistinct<T>(s: seq<T>, x: T)
    requires Distinct(s)
    requires x in s
    ensures Count(s, x) == 1
  {
    if s[0] == x {
      forall k | 0 <= k < |s[1..]|
        ensures s[1..][k] != x
      {
        assert s[0] != s[k + 1];
      }
      CountPositive(s[1..], x);
    } else {
      CountInDistinct(s[1..], x);
    }
  }

  /**
   `a` is obtained from `b` by deleting elements, without reordering the
   ones that remain.
   */
  predicate IsSubsequence<T(==)>(a: seq<T>, b: seq<T>)
    decreases |b|
  {
    if |b| == 0 then |a| == 0
    else (|a| > 0 && a[0] == b[0] && IsSubsequence(a[1..], b[1..]))
         || IsSubsequence(a, b[1..])
  }

  lemma {:induction false} SubsequenceReflexive<T>(s: seq<T>)
    ensures IsSubsequence(s, s)
  {
    if |s| > 0 {
      SubsequenceReflexive(s[1..]);
    }
  }

  lemma {:induction false} SubsequenceTransitive<T>(a: seq<T>, b: seq<T>, c: seq<T>)
    requires IsSubsequence(a, b)
    requires IsSubsequence(b, c)
    ensures IsSubsequence(a, c)
    decreases |c|
  {
    if |c| == 0 {
      return;
    }
    if |b| > 0 && b[0] == c[0] && IsSubsequence(b[1..], c[1..]) {
      if |a| > 0 && a[0] == b[0] && IsSubsequence(a[1..], b[1..]) {
        SubsequenceTransitive(a[1..], b[1..], c[1..]);
      } else {
        SubsequenceTransitive(a, b[1..], c[1..]);
      }
    } else {
      SubsequenceTransitive(a, b, c[1..]);
    }
  }

  /**
   The elements of `s` satisfying `p`, in their original order (a boolean
   mask applied to a column). The result keeps exactly the occurrences that
   satisfy `p`: none is dropped and nothing else is kept.
   */
  function Keep<T(==,!new)>(s: seq<T>, p: T -> bool): (r: seq<T>)
    ensures forall x :: x in r ==> p(x)
    ensures IsSubsequence(r, s)
    ensures forall x :: Count(r, x) == (if p(x) then Count(s, x) else 0)
  {
    if |s| == 0 then []
    else
      var rest := Keep(s[1..], p);
      if p(s[0]) then
        assert ([s[0]] + rest)[1..] == rest;
        [s[0]] + rest
      else
        assert forall x :: x in rest ==> x != s[0];
        rest
  }

  lemma {:induction false} KeepAll<T(!new)>(s: seq<T>, p: T -> bool)
    requires forall x :: x in s ==> p(x)
    ensures Keep(s, p) == s
  {
    if |s| > 0 {
      assert s[0] in s;
      assert forall x :: x in s[1..] ==> x in s;
      KeepAll(s[1..], p);
    }
  }

  ghost predicate StrictTotalOrder<T(!new)>(less: (T, T) -> bool)
  {
    && (forall x :: !less(x, x))
    && (forall x, y, z :: less(x, y) && less(y, z) ==> less(x, z))
    && (forall x, y :: x != y ==> less(x, y) || less(y, x))
  }

  /**
   `m` is a most common value of the non-empty `s`, and the smallest one
   under `less` among those sharing the highest count (the value pandas
   reports as `mode()[0]`).
   */
  ghost predicate IsMode<T(!new)>(s: seq<T>, m: T, less: (T, T) -> bool)
  {
    && m in s
    && (forall x :: x in s ==> Count(s, x) <= Count(s, m))
    && (forall x :: x in s && x != m && Count(s, x) == Count(s, m) ==> less(m, x))
  }

  /** Under a strict total order a sequence has at most one mode. */
  lemma ModeIsUnique<T(!new)>(s: seq<T>, a: T, b: T, less: (T, T) -> bool)
    requires StrictTotalOrder(less)
    requires IsMode(s, a, less)
    requires IsMode(s, b, less)
    ensures a == b
  {
    assert Count(s, a) == Count(s, b);
  }

  /** Computes the mode of `s`, scanning once and keeping the best candidate. */
  method Mode<T(==,!new)>(s: seq<T>, less: (T, T) -> bool) returns (m: T)
    requires |s| > 0
    requires StrictTotalOrder(less)
    ensures IsMode(s, m, less)
  {
    m := s[0];
    var best := Count(s, m);
    var i := 1;
    while i < |s|
      invariant 1 <= i <= |s|
      invariant m in s
      invariant best == Count(s, m)
      invariant forall j :: 0 <= j < i ==>
                  Count(s, s[j]) < best || (Count(s, s[j]) == best && (s[j] == m || less(m, s[j])))
    {
      var c := Count(s, s[i]);
      if c > best || (c == best && less(s[i], m)) {
        m, best := s[i], c;
      }
      i := i + 1;
    }
    forall x | x in s
      ensures Count(s, x) <= Count(s, m)
      ensures x != m && Count(s, x) == Count(s, m) ==> less(m, x)
    {
      var j :| 0 <= j < |s| && s[j] == x;
    }
  }
}
