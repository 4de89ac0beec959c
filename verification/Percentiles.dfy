/** `_percentile` (decision_engine/analytics/throughput.py): linear interpolation
    between the order statistics. */
module Percentiles {
  import opened Sorting

  function AtMost(x: real, y: real): bool { x <= y }

  function Sorted(values: seq<real>): seq<real> { SortBy(values, AtMost) }

  function Min(a: int, b: int): int { if a <= b then a else b }

  function Interpolate(a: real, b: real, t: real): real {
    a + (b - a) * t
  }

  /** The interpolated element of `s` at the fractional position `k`. */
  function At(s: seq<real>, k: real): real
    requires s != [] && 0.0 <= k <= (|s| - 1) as real
  {
    var lo := k.Floor;
    Interpolate(s[lo], s[Min(lo + 1, |s| - 1)], k - lo as real)
  }

  /** The fractional position of a percentile among `n` order statistics. */
  function Position(n: nat, pct: real): (k: real)
    requires n > 0 && 0.0 <= pct <= 1.0
    ensures 0.0 <= k <= (n - 1) as real
  {
    InterpolateBetween(0.0, (n - 1) as real, pct);
    Interpolate(0.0, (n - 1) as real, pct)  // that is, (n - 1) * pct
  }

  function Percentile(values: seq<real>, pct: real): real
    requires 0.0 <= pct <= 1.0
  {
    if values == [] then 0.0 else
    SortPermutes(values, AtMost);
    At(Sorted(values), Position(|values|, pct))
  }

  lemma Scale(a: real, x: real, y: real)
    requires 0.0 <= a && x <= y
    ensures a * x <= a * y
  {
  }

  lemma InterpolateBetween(a: real, b: real, t: real)
    requires a <= b && 0.0 <= t <= 1.0
    ensures a <= Interpolate(a, b, t) <= b
  {
    Scale(b - a, 0.0, t);
    Scale(b - a, t, 1.0);
  }

  lemma InterpolateMonotone(a: real, b: real, t: real, u: real)
    requires a <= b && t <= u
    ensures Interpolate(a, b, t) <= Interpolate(a, b, u)
  {
  }

  lemma SortedOrders(values: seq<real>)
    ensures Ordered(Sorted(values), AtMost) && multiset(Sorted(values)) == multiset(values)
            && |Sorted(values)| == |values|
  {
    SortOrders(values, AtMost);
    SortPermutes(values, AtMost);
  }

  /** An interpolated element lies between its two neighbours. */
  lemma AtBetween(s: seq<real>, k: real)
    requires s != [] && 0.0 <= k <= (|s| - 1) as real && Ordered(s, AtMost)
    ensures s[k.Floor] <= At(s, k) <= s[Min(k.Floor + 1, |s| - 1)]
  {
    var lo := k.Floor;
    var hi := Min(lo + 1, |s| - 1);
    assert lo == hi || AtMost(s[lo], s[hi]);
    InterpolateBetween(s[lo], s[hi], k - lo as real);
  }

  lemma AtMonotone(s: seq<real>, j: real, k: real)
    requires s != [] && 0.0 <= j <= k <= (|s| - 1) as real && Ordered(s, AtMost)
    ensures At(s, j) <= At(s, k)
  {
    var lo := j.Floor;
    if lo == k.Floor {
      var hi := Min(lo + 1, |s| - 1);
      assert lo == hi || AtMost(s[lo], s[hi]);
      InterpolateMonotone(s[lo], s[hi], j - lo as real, k - lo as real);
    } else {
      assert lo + 1 <= k.Floor <= |s| - 1;
      AtBetween(s, j);
      AtBetween(s, k);
      assert lo + 1 == k.Floor || AtMost(s[lo + 1], s[k.Floor]);
    }
  }

  /** The result depends on the values only, not on the order they come in. */
  lemma PercentileOrderIndependent(values: seq<real>, other: seq<real>, pct: real)
    requires 0.0 <= pct <= 1.0 && multiset(values) == multiset(other)
    ensures Percentile(values, pct) == Percentile(other, pct)
  {
    assert |multiset(values)| == |values| && |multiset(other)| == |other|;
    SortedOrders(values);
    SortedOrders(other);
    OrderedUnique(Sorted(values), Sorted(other), AtMost);
  }

  /** Monotone in `pct`; in particular the median never exceeds the 90th percentile. */
  lemma PercentileMonotone(values: seq<real>, low: real, high: real)
    requires 0.0 <= low <= high <= 1.0
    ensures Percentile(values, low) <= Percentile(values, high)
  {
    if values != [] {
      SortedOrders(values);
      InterpolateMonotone(0.0, (|values| - 1) as real, low, high);
      AtMonotone(Sorted(values), Position(|values|, low), Position(|values|, high));
    }
  }

  /** Between the least and the greatest value. */
  lemma PercentileBounds(values: seq<real>, pct: real, lower: real, upper: real)
    requires values != [] && 0.0 <= pct <= 1.0
    requires forall v | v in values :: lower <= v <= upper
    ensures lower <= Percentile(values, pct) <= upper
  {
    var s := Sorted(values);
    SortedOrders(values);
    forall i | 0 <= i < |s| ensures s[i] in values { assert s[i] in multiset(s); }
    AtBetween(s, Position(|values|, pct));
  }

  lemma AtEnds(s: seq<real>)
    requires s != []
    ensures At(s, 0.0) == s[0] && At(s, (|s| - 1) as real) == s[|s| - 1]
  {
  }

  lemma PositionEnds(n: nat)
    requires n > 0
    ensures Position(n, 0.0) == 0.0 && Position(n, 1.0) == (n - 1) as real
  {
  }

  /** The extremes are order statistics: nothing lies below percentile 0 or above
      percentile 1. */
  lemma PercentileExtremes(values: seq<real>, v: real)
    requires v in values
    ensures Percentile(values, 0.0) <= v <= Percentile(values, 1.0)
  {
    var s := Sorted(values);
    SortedOrders(values);
    assert v in multiset(s);
    var i :| 0 <= i < |s| && s[i] == v;
    assert i == 0 || AtMost(s[0], s[i]);
    assert i == |s| - 1 || AtMost(s[i], s[|s| - 1]);
    PositionEnds(|values|);
    AtEnds(s);
  }

  lemma InterpolateMixes(a: real, b: real, t: real)
    ensures Interpolate(a, b, t) == (1.0 - t) * a + t * b
  {
  }

  /** Linear in between: at a fraction `t` of the way from one order statistic to the
      next the percentile is the mixture of the two in that proportion. */
  lemma PercentileMixes(values: seq<real>, pct: real, i: nat, t: real)
    requires 0.0 <= pct <= 1.0 && 0.0 <= t < 1.0 && i + 1 < |values|
    requires (|values| - 1) as real * pct == i as real + t
    ensures |Sorted(values)| == |values|
    ensures Percentile(values, pct) == (1.0 - t) * Sorted(values)[i] + t * Sorted(values)[i + 1]
  {
    SortedOrders(values);
    var k := Position(|values|, pct);
    assert k == i as real + t;
    PercentileAt(values, pct, k);
    AtParts(Sorted(values), k, i, t);
    InterpolateMixes(Sorted(values)[i], Sorted(values)[i + 1], t);
  }

  // ----- reflection -----

  /** The values mirrored at zero, in reverse order. */
  function Mirror(values: seq<real>): seq<real> {
    if values == [] then [] else Mirror(values[1..]) + [-values[0]]
  }

  lemma {:induction false} MirrorAt(values: seq<real>)
    ensures |Mirror(values)| == |values|
    ensures forall i | 0 <= i < |values| :: Mirror(values)[i] == -values[|values| - 1 - i]
  {
    if values != [] { MirrorAt(values[1..]); }
  }

  lemma CountMirrored(front: seq<real>, first: real, rest: seq<real>, x: real, y: real)
    requires y == -x && multiset(front)[x] == multiset(rest)[y]
    ensures multiset(front + [-first])[x] == multiset([first] + rest)[y]
  {
    assert first == y <==> -first == x;
  }

  lemma {:induction false} MirrorCount(values: seq<real>, x: real, y: real)
    requires y == -x
    ensures multiset(Mirror(values))[x] == multiset(values)[y]
  {
    if values != [] {
      var first, rest := values[0], values[1..];
      var front := Mirror(rest);
      assert Mirror(values) == front + [-first];
      assert values == [first] + rest;
      assert multiset(front)[x] == multiset(rest)[y] by { MirrorCount(rest, x, y); }
      assert multiset(front + [-first])[x] == multiset([first] + rest)[y] by {
        CountMirrored(front, first, rest, x, y);
      }
    }
  }

  lemma MirrorPermutesAt(values: seq<real>, other: seq<real>, x: real)
    requires multiset(values) == multiset(other)
    ensures multiset(Mirror(values))[x] == multiset(Mirror(other))[x]
  {
    var y := -x;
    assert multiset(Mirror(values))[x] == multiset(values)[y] by { MirrorCount(values, x, y); }
    assert multiset(Mirror(other))[x] == multiset(other)[y] by { MirrorCount(other, x, y); }
  }

  lemma MirrorPermutes(values: seq<real>, other: seq<real>)
    requires multiset(values) == multiset(other)
    ensures multiset(Mirror(values)) == multiset(Mirror(other))
  {
    forall x ensures multiset(Mirror(values))[x] == multiset(Mirror(other))[x] { MirrorPermutesAt(values, other, x); }
  }

  lemma MirrorOrders(s: seq<real>)
    requires Ordered(s, AtMost)
    ensures Ordered(Mirror(s), AtMost)
  {
    MirrorAt(s);
    forall i, j | 0 <= i < j < |s| ensures AtMost(Mirror(s)[i], Mirror(s)[j]) {
      assert AtMost(s[|s| - 1 - j], s[|s| - 1 - i]);
    }
  }

  lemma MirrorSorted(values: seq<real>)
    ensures Sorted(Mirror(values)) == Mirror(Sorted(values))
  {
    SortedOrders(values);
    SortedOrders(Mirror(values));
    MirrorOrders(Sorted(values));
    MirrorPermutes(Sorted(values), values);
    OrderedUnique(Sorted(Mirror(values)), Mirror(Sorted(values)), AtMost);
  }

  lemma InterpolateReflects(a: real, b: real, t: real)
    ensures Interpolate(-b, -a, 1.0 - t) == -Interpolate(a, b, t)
  {
  }

  /** The element at the position with whole part `lo` and fractional part `t`. */
  lemma AtParts(s: seq<real>, k: real, lo: int, t: real)
    requires s != [] && 0.0 <= k <= (|s| - 1) as real
    requires k == lo as real + t && 0.0 <= t < 1.0
    ensures 0 <= lo < |s|
    ensures At(s, k) == Interpolate(s[lo], s[Min(lo + 1, |s| - 1)], t)
  {
    assert k.Floor == lo;
  }

  lemma AtReflectsOn(s: seq<real>, lo: int)
    requires 0 <= lo < |s| && |Mirror(s)| == |s|
    ensures At(Mirror(s), (|s| - 1) as real - lo as real) == -At(s, lo as real)
  {
    MirrorAt(s);
    AtParts(s, lo as real, lo, 0.0);
    AtParts(Mirror(s), (|s| - 1) as real - lo as real, |s| - 1 - lo, 0.0);
  }

  lemma AtReflectsBetween(s: seq<real>, lo: int, t: real)
    requires 0 <= lo < |s| - 1 && 0.0 < t < 1.0 && |Mirror(s)| == |s|
    ensures At(Mirror(s), (|s| - 1) as real - (lo as real + t)) == -At(s, lo as real + t)
  {
    MirrorAt(s);
    var last := |s| - 1;
    AtParts(s, lo as real + t, lo, t);
    AtParts(Mirror(s), last as real - (lo as real + t), last - lo - 1, 1.0 - t);
    assert Mirror(s)[last - lo - 1] == -s[lo + 1] && Mirror(s)[last - lo] == -s[lo];
    InterpolateReflects(s[lo], s[lo + 1], t);
  }

  lemma AtReflects(s: seq<real>, k: real)
    requires s != [] && 0.0 <= k <= (|s| - 1) as real
    ensures |Mirror(s)| == |s| && At(Mirror(s), (|s| - 1) as real - k) == -At(s, k)
  {
    MirrorAt(s);
    var lo := k.Floor;
    if k == lo as real {
      AtReflectsOn(s, lo);
    } else {
      assert lo < |s| - 1;
      AtReflectsBetween(s, lo, k - lo as real);
    }
  }

  lemma PercentileAt(values: seq<real>, pct: real, k: real)
    requires values != [] && 0.0 <= pct <= 1.0 && k == Position(|values|, pct)
    ensures |Sorted(values)| == |values| && Percentile(values, pct) == At(Sorted(values), k)
  {
    SortedOrders(values);
  }

  lemma PositionReflects(n: nat, pct: real)
    requires n > 0 && 0.0 <= pct <= 1.0
    ensures Position(n, 1.0 - pct) == (n - 1) as real - Position(n, pct)
  {
  }

  lemma SortedReflects(values: seq<real>, k: real, j: real)
    requires values != [] && 0.0 <= k <= (|values| - 1) as real && k + j == (|values| - 1) as real
    ensures |Sorted(values)| == |values| == |Sorted(Mirror(values))|
    ensures At(Sorted(Mirror(values)), j) == -At(Sorted(values), k)
  {
    var s := Sorted(values);
    assert |s| == |values| by { SortedOrders(values); }
    assert Sorted(Mirror(values)) == Mirror(s) by { MirrorSorted(values); }
    assert j == (|s| - 1) as real - k;
    AtReflects(s, k);
  }

  /** The percentile treats both ends alike: mirroring the values mirrors it.  This
      fixes the interpolation, which rounding to a neighbour would not satisfy. */
  lemma {:induction false} PercentileReflects(values: seq<real>, pct: real)
    requires 0.0 <= pct <= 1.0
    ensures Percentile(Mirror(values), 1.0 - pct) == -Percentile(values, pct)
  {
    MirrorAt(values);
    if values != [] {
      var k, j := Position(|values|, pct), Position(|values|, 1.0 - pct);
      PositionReflects(|values|, pct);
      SortedReflects(values, k, j);
      PercentileAt(values, pct, k);
      PercentileAt(Mirror(values), 1.0 - pct, j);
    }
  }
}
