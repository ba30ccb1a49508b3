/**
 The user report (`user_stats`): `value_counts(sort=True, dropna=False)`
 on the user-type column, a list of (value, count) pairs, one per distinct
 value, largest count first.
 */
module UserStats {
  import opened Sequences
  import opened Trips

  datatype Tally<T> = Tally(value: T, count: nat)

  /** The distinct values of `s`, in order of first appearance. */
  function Uniques<T(==,!new)>(s: seq<T>): (d: seq<T>)
    ensures Distinct(d)
    ensures forall x :: x in d <==> x in s
  {
    if |s| == 0 then []
    else
      var d := Uniques(s[..|s| - 1]);
      assert forall x :: x in s <==> x in s[..|s| - 1] || x == s[|s| - 1];
      if s[|s| - 1] in d then d else d + [s[|s| - 1]]
  }

  /** Each value of `d` with its number of occurrences in `s`. */
  function Tallies<T(==,!new)>(s: seq<T>, d: seq<T>): (r: seq<Tally<T>>)
    ensures |r| == |d|
    ensures forall i :: 0 <= i < |d| ==> r[i] == Tally(d[i], Count(s, d[i]))
  {
    if |d| == 0 then [] else [Tally(d[0], Count(s, d[0]))] + Tallies(s, d[1..])
  }

  function SumCounts<T>(ts: seq<Tally<T>>): nat
  {
    if |ts| == 0 then 0 else ts[0].count + SumCounts(ts[1..])
  }

  predicate NonIncreasing<T>(ts: seq<Tally<T>>)
  {
    forall i, j :: 0 <= i < j < |ts| ==> ts[i].count >= ts[j].count
  }

  /** Places `e` before the first entry with a smaller count than its own. */
  function Insert<T(!new)>(e: Tally<T>, ts: seq<Tally<T>>): (r: seq<Tally<T>>)
    requires NonIncreasing(ts)
    ensures NonIncreasing(r)
    ensures multiset(r) == multiset(ts) + multiset{e}
    ensures SumCounts(r) == e.count + SumCounts(ts)
  {
    if |ts| == 0 || e.count >= ts[0].count then
      assert ([e] + ts)[1..] == ts;
      [e] + ts
    else
      var rest := Insert(e, ts[1..]);
      assert ts == [ts[0]] + ts[1..];
      assert forall x :: x in rest ==> x in multiset(ts[1..]) + multiset{e};
      assert ([ts[0]] + rest)[1..] == rest;
      [ts[0]] + rest
  }

  /** Insertion sort by decreasing count; equal counts keep their order. */
  function SortByCount<T(!new)>(ts: seq<Tally<T>>): (r: seq<Tally<T>>)
    ensures NonIncreasing(r)
    ensures multiset(r) == multiset(ts)
    ensures SumCounts(r) == SumCounts(ts)
  {
    if |ts| == 0 then []
    else
      assert ts == [ts[0]] + ts[1..];
      Insert(ts[0], SortByCount(ts[1..]))
  }

  /** `Series.value_counts(sort=True)`. */
  function ValueCounts<T(==,!new)>(s: seq<T>): (r: seq<Tally<T>>)
    ensures forall i, j :: 0 <= i < j < |r| ==> r[i].value != r[j].value
    ensures forall e :: e in r ==> e.value in s && e.count == Count(s, e.value)
    ensures forall x :: x in s ==> Tally(x, Count(s, x)) in r
    ensures NonIncreasing(r)
    ensures SumCounts(r) == |s|
  {
    var d := Uniques(s);
    var r := SortByCount(Tallies(s, d));
    SortedTalliesCorrect(s, d, r);
    r
  }

  lemma SortedTalliesCorrect<T(!new)>(s: seq<T>, d: seq<T>, r: seq<Tally<T>>)
    requires Distinct(d)
    requires forall x :: x in d <==> x in s
    requires multiset(r) == multiset(Tallies(s, d))
    requires SumCounts(r) == SumCounts(Tallies(s, d))
    ensures forall i, j :: 0 <= i < j < |r| ==> r[i].value != r[j].value
    ensures forall e :: e in r ==> e.value in s && e.count == Count(s, e.value)
    ensures forall x :: x in s ==> Tally(x, Count(s, x)) in r
    ensures SumCounts(r) == |s|
  {
    var ts := Tallies(s, d);
    SameElements(r, ts);
    TalliesMembers(s, d);
    SortedTalliesDistinct(s, d, r);
    TalliesSumToLength(s, d);
  }

  lemma SameElements<U>(a: seq<U>, b: seq<U>)
    requires multiset(a) == multiset(b)
    ensures forall x :: x in a <==> x in b
  {
    assert forall x :: x in a <==> x in multiset(a);
    assert forall x :: x in b <==> x in multiset(b);
  }

  lemma TalliesMembers<T(!new)>(s: seq<T>, d: seq<T>)
    ensures forall x :: x in d ==> Tally(x, Count(s, x)) in Tallies(s, d)
    ensures forall e :: e in Tallies(s, d) ==> e.value in d && e.count == Count(s, e.value)
  {
    var ts := Tallies(s, d);
    forall x | x in d ensures Tally(x, Count(s, x)) in ts {
      var k :| 0 <= k < |d| && d[k] == x;
      assert ts[k] == Tally(x, Count(s, x));
    }
  }

  lemma SortedTalliesDistinct<T(!new)>(s: seq<T>, d: seq<T>, r: seq<Tally<T>>)
    requires Distinct(d)
    requires multiset(r) == multiset(Tallies(s, d))
    ensures forall i, j :: 0 <= i < j < |r| ==> r[i].value != r[j].value
  {
    var ts := Tallies(s, d);
    SameElements(r, ts);
    TalliesMembers(s, d);
    forall i, j | 0 <= i < j < |r|
      ensures r[i].value != r[j].value
    {
      TallyOccursOnce(s, d, r[i]);
      MultisetTwoPositions(r, i, j);
    }
  }

  lemma {:induction false} TallyOccursOnce<T(!new)>(s: seq<T>, d: seq<T>, e: Tally<T>)
    requires Distinct(d)
    ensures multiset(Tallies(s, d))[e] <= 1
  {
    if |d| > 0 {
      var ts := Tallies(s, d);
      var rest := Tallies(s, d[1..]);
      assert ts == [ts[0]] + rest;
      TallyOccursOnce(s, d[1..], e);
      if ts[0] == e {
        forall k | 0 <= k < |rest|
          ensures rest[k] != e
        {
          assert d[0] != d[k + 1];
        }
      }
    }
  }

  lemma MultisetTwoPositions<U>(s: seq<U>, i: nat, j: nat)
    requires i < j < |s|
    ensures s[i] == s[j] ==> multiset(s)[s[i]] >= 2
  {
    assert s == s[..j] + [s[j]] + s[j + 1..];
    assert s[i] in multiset(s[..j]) by {
      assert s[..j][i] == s[i];
    }
  }

  /** The counts of the distinct values of `s` add up to the number of rows. */
  lemma {:induction false} TalliesSumToLength<T(!new)>(s: seq<T>, d: seq<T>)
    requires Distinct(d)
    requires forall x :: x in s ==> x in d
    ensures SumCounts(Tallies(s, d)) == |s|
  {
    if |s| == 0 {
      TalliesOfEmpty(d);
    } else {
      assert s == [s[0]] + s[1..];
      TalliesCons(s[0], s[1..], d);
      CountInDistinct(d, s[0]);
      TalliesSumToLength(s[1..], d);
    }
  }

  lemma {:induction false} TalliesOfEmpty<T(!new)>(d: seq<T>)
    ensures SumCounts(Tallies([], d)) == 0
  {
    if |d| > 0 {
      TalliesOfEmpty(d[1..]);
    }
  }

  lemma {:induction false} TalliesCons<T(!new)>(x: T, s: seq<T>, d: seq<T>)
    ensures SumCounts(Tallies([x] + s, d)) == Count(d, x) + SumCounts(Tallies(s, d))
  {
    if |d| > 0 {
      CountCons(x, s, d[0]);
      TalliesCons(x, s, d[1..]);
    }
  }

  /** `user_stats`' user-type counts. */
  function UserTypeCounts(trips: seq<Trip>): (r: seq<Tally<string>>)
    ensures forall i, j :: 0 <= i < j < |r| ==> r[i].value != r[j].value
    ensures NonIncreasing(r)
    ensures SumCounts(r) == |trips|
    ensures forall e :: e in r ==> e.value in Column(trips, UserTypeOf) && e.count == Count(Column(trips, UserTypeOf), e.value)
    ensures forall t :: t in trips ==> Tally(t.userType, Count(Column(trips, UserTypeOf), t.userType)) in r
  {
    var types := Column(trips, UserTypeOf);
    assert forall t :: t in trips ==> t.userType in types by {
      forall t | t in trips ensures t.userType in types {
        var i :| 0 <= i < |trips| && trips[i] == t;
        assert types[i] == t.userType;
      }
    }
    ValueCounts(types)
  }
}
