/** Order statistics: the database's PERCENTILE_CONT (section 10.9 of ISO/IEC
    9075-2) and the index-based percentile of the realtime hub. */
module Percentiles {
  import opened Sequences

  predicate RealLe(a: real, b: real) {
    a <= b
  }

  function Sorted(s: seq<real>): (r: seq<real>)
    ensures multiset(r) == multiset(s) && |r| == |s|
  {
    Arrange(RealLe, s)
  }

  lemma SortedIsSorted(s: seq<real>)
    ensures SortedBy(RealLe, Sorted(s))
  {
    ArrangeSorts(RealLe, s);
  }

  /** Any sorted arrangement of `s` is the sorted arrangement. */
  lemma SortedUnique(s: seq<real>, x: seq<real>)
    requires multiset(x) == multiset(s) && SortedBy(RealLe, x)
    ensures x == Sorted(s)
  {
    SortedIsSorted(s);
    SortedPermutationUnique(RealLe, x, Sorted(s));
  }

  // ----- Positions -----

  /** The position of the p-quantile among n sorted values, counted from 0. */
  function Position(n: nat, p: real): real {
    p * (n as real - 1.0)
  }

  function Index(n: nat, p: real): int {
    Position(n, p).Floor
  }

  lemma IndexInBounds(n: nat, p: real)
    requires n > 0 && 0.0 <= p <= 1.0
    ensures 0 <= Index(n, p) < n
    ensures Index(n, p) == n - 1 ==> Position(n, p) == (n - 1) as real
  {
    var last := n as real - 1.0;
    TimesMonotone(0.0, p, last);
    TimesMonotone(p, 1.0, last);
    assert 0.0 * last == 0.0 && 1.0 * last == last == (n - 1) as real;
    assert Position(n, p) == p * last;
    FloorWithin(Position(n, p), n - 1);
  }

  lemma FloorWithin(x: real, k: nat)
    requires 0.0 <= x <= k as real
    ensures 0 <= x.Floor <= k
    ensures x.Floor == k ==> x == k as real
  {}

  lemma TimesMonotone(a: real, b: real, c: real)
    requires a <= b && c >= 0.0
    ensures a * c <= b * c
  {}

  lemma IndexMonotone(n: nat, p: real, q: real)
    requires n > 0 && 0.0 <= p <= q <= 1.0
    ensures Position(n, p) <= Position(n, q) && Index(n, p) <= Index(n, q)
  {
    TimesMonotone(p, q, n as real - 1.0);
  }

  // ----- PERCENTILE_CONT -----

  /** Linear interpolation between the two values around the position. */
  function Interpolate(x: seq<real>, p: real): real
    requires x != [] && 0.0 <= p <= 1.0
  {
    IndexInBounds(|x|, p);
    var k := Index(|x|, p);
    if k + 1 < |x| then x[k] + (Position(|x|, p) - k as real) * (x[k + 1] - x[k]) else x[k]
  }

  function PercentileCont(values: seq<real>, p: real): real
    requires values != [] && 0.0 <= p <= 1.0
  {
    Interpolate(Sorted(values), p)
  }

  /** The interpolated value lies between its neighbours, and meets the lower
      one only if the position is exact or the neighbours are equal. */
  lemma InterpolateBracket(x: seq<real>, p: real)
    requires x != [] && 0.0 <= p <= 1.0 && SortedBy(RealLe, x)
    ensures 0 <= Index(|x|, p) < |x|
    ensures var k := Index(|x|, p);
      && x[k] <= Interpolate(x, p)
      && (k + 1 < |x| ==> Interpolate(x, p) <= x[k + 1])
      && (Interpolate(x, p) == x[k] <==> k + 1 == |x| || Position(|x|, p) == k as real || x[k] == x[k + 1])
  {
    IndexInBounds(|x|, p);
    var k := Index(|x|, p);
    if k + 1 < |x| {
      var f, d := Position(|x|, p) - k as real, x[k + 1] - x[k];
      assert RealLe(x[k], x[k + 1]);
      Fraction(f, d);
      assert Interpolate(x, p) == x[k] + f * d;
    }
  }

  lemma Fraction(f: real, d: real)
    requires 0.0 <= f < 1.0 && d >= 0.0
    ensures 0.0 <= f * d <= d
    ensures f * d == 0.0 <==> f == 0.0 || d == 0.0
  {}

  /** A higher quantile is never below a lower one. */
  lemma InterpolateMonotone(x: seq<real>, p: real, q: real)
    requires x != [] && 0.0 <= p <= q <= 1.0 && SortedBy(RealLe, x)
    ensures Interpolate(x, p) <= Interpolate(x, q)
  {
    IndexMonotone(|x|, p, q);
    InterpolateBracket(x, p);
    InterpolateBracket(x, q);
    var k, l := Index(|x|, p), Index(|x|, q);
    if k == l {
      if k + 1 < |x| {
        var d := x[k + 1] - x[k];
        assert RealLe(x[k], x[k + 1]);
        var f, g := Position(|x|, p) - k as real, Position(|x|, q) - k as real;
        assert (g - f) * d >= 0.0;
      }
    } else {
      assert k + 1 <= l;
      assert k + 1 == l || RealLe(x[k + 1], x[l]);
    }
  }

  lemma SortedMembers(values: seq<real>, v: real)
    ensures v in Sorted(values) <==> v in values
  {
    assert v in multiset(Sorted(values)) <==> v in multiset(values);
  }

  /** A percentile respects a lower bound of the values, and a strict upper one. */
  lemma PercentileWithin(values: seq<real>, p: real, lo: real, hi: real)
    requires values != [] && 0.0 <= p <= 1.0
    requires forall v :: v in values ==> lo <= v < hi
    ensures lo <= PercentileCont(values, p) < hi
  {
    var x := Sorted(values);
    SortedIsSorted(values);
    InterpolateBracket(x, p);
    forall i | 0 <= i < |x| ensures lo <= x[i] < hi { SortedMembers(values, x[i]); }
  }

  lemma {:induction false} EqualPrefixCounts(x: seq<real>, m: real, k: nat)
    requires k <= |x| && forall i :: 0 <= i < k ==> x[i] == m
    ensures multiset(x)[m] >= k
  {
    if k > 0 {
      HeadMultiset(x);
      EqualPrefixCounts(x[1..], m, k - 1);
    }
  }

  lemma UpperHalfAboveMinimum(values: seq<real>, x: seq<real>, m: real)
    requires |values| >= 2 && (forall v :: v in values ==> v >= m) && 2 * multiset(values)[m] <= |values|
    requires x == Sorted(values)
    ensures forall i :: 0 <= i < |x| ==> x[i] >= m
    ensures forall i :: |x| / 2 <= i < |x| ==> x[i] > m
  {
    var h := |values| / 2;
    SortedIsSorted(values);
    forall i | 0 <= i < |x| ensures x[i] >= m { SortedMembers(values, x[i]); }
    if x[h] == m {
      forall i | 0 <= i < h + 1 ensures x[i] == m { assert i == h || RealLe(x[i], x[h]); }
      EqualPrefixCounts(x, m, h + 1);
    }
    forall i | h <= i < |x| ensures x[i] > m { assert i == h || RealLe(x[h], x[i]); }
  }

  lemma UpperHalfPosition(n: nat, p: real)
    requires n >= 2 && 0.5 <= p <= 1.0
    ensures Index(n, p) >= n / 2 || (Index(n, p) + 1 == n / 2 && Position(n, p) != Index(n, p) as real)
  {
    TimesMonotone(0.5, p, n as real - 1.0);
    assert Position(n, p) >= 0.5 * (n as real - 1.0);
  }

  /** If at most half of the values sit at the minimum, every percentile from
      the median on exceeds it. */
  lemma PercentileAboveMinimum(values: seq<real>, p: real, m: real)
    requires |values| >= 2 && 0.5 <= p <= 1.0
    requires (forall v :: v in values ==> v >= m) && 2 * multiset(values)[m] <= |values|
    ensures PercentileCont(values, p) > m
  {
    hide Interpolate, Position;
    var x, k := Sorted(values), Index(|values|, p);
    UpperHalfAboveMinimum(values, x, m);
    SortedIsSorted(values);
    InterpolateBracket(x, p);
    UpperHalfPosition(|values|, p);
    assert PercentileCont(values, p) == Interpolate(x, p) && |x| == |values|;
  }

  lemma PercentilesOrdered(values: seq<real>, p: real, q: real)
    requires values != [] && 0.0 <= p <= q <= 1.0
    ensures PercentileCont(values, p) <= PercentileCont(values, q)
  {
    SortedIsSorted(values);
    InterpolateMonotone(Sorted(values), p, q);
  }

  // ----- The hub's percentile -----

  /** The value at the truncated position, 0 without values. */
  function HubPercentile(x: seq<real>, p: real): real
    requires 0.0 <= p <= 1.0
  {
    if x == [] then 0.0
    else
      IndexInBounds(|x|, p);
      x[Index(|x|, p)]
  }

  /** The hub's percentile is the lower neighbour of the database's on the same
      values: never above it, with no other value in between. */
  lemma HubBelowDatabase(values: seq<real>, p: real)
    requires values != [] && 0.0 <= p <= 1.0
    ensures HubPercentile(Sorted(values), p) <= PercentileCont(values, p)
    ensures forall v :: v in values ==> v <= HubPercentile(Sorted(values), p) || PercentileCont(values, p) <= v
  {
    var x := Sorted(values);
    SortedIsSorted(values);
    InterpolateBracket(x, p);
    var k := Index(|x|, p);
    forall v | v in values ensures v <= x[k] || PercentileCont(values, p) <= v {
      assert v in multiset(x);
      var i := IndexOfMember(x, v);
      if i < k { assert RealLe(x[i], x[k]); }
      if i > k + 1 { assert RealLe(x[k + 1], x[i]); }
    }
  }

  lemma HubPercentilesOrdered(x: seq<real>, p: real, q: real)
    requires SortedBy(RealLe, x) && 0.0 <= p <= q <= 1.0
    ensures HubPercentile(x, p) <= HubPercentile(x, q)
  {
    if x != [] {
      IndexMonotone(|x|, p, q);
      IndexInBounds(|x|, p);
      IndexInBounds(|x|, q);
      assert Index(|x|, p) == Index(|x|, q) || RealLe(x[Index(|x|, p)], x[Index(|x|, q)]);
    }
  }

  /** Both percentiles in numbers, on any ascending arrangement of the values: with
      the position p(n-1) between k and k+1, the hub takes the k-th value, and the
      database divides the way to the next value in the same ratio as the position. */
  lemma PercentilesAt(values: seq<real>, s: seq<real>, p: real, k: nat)
    requires 0.0 <= p <= 1.0 && multiset(s) == multiset(values) && forall i, j :: 0 <= i < j < |s| ==> s[i] <= s[j]
    requires k < |s| && k as real <= p * (|s| as real - 1.0) < k as real + 1.0
    ensures values != [] && HubPercentile(s, p) == s[k]
    ensures k + 1 == |s| ==> PercentileCont(values, p) == s[k]
    ensures k + 1 < |s| ==>
      var v, at := PercentileCont(values, p), p * (|s| as real - 1.0);
      (v - s[k]) * (k as real + 1.0 - at) == (s[k + 1] - v) * (at - k as real)
  {
    PermutationLength(s, values);
    assert SortedBy(RealLe, s);
    SortedUnique(values, s);
    assert Index(|s|, p) == k;
    if k + 1 < |s| {
      var f, d := p * (|s| as real - 1.0) - k as real, s[k + 1] - s[k];
      assert PercentileCont(values, p) == s[k] + f * d;
      assert (f * d) * (1.0 - f) == (d - f * d) * f;
    }
  }
}
