/** Sample statistics over integer delays: the mean, PERCENTILE_CONT (section 10.9 of
    ISO/IEC 9075-2) and Python's round-half-to-even, in exact rational arithmetic.
    A rational is written as an integer numerator over a positive denominator. */
module Statistics {

  // ---------------------------------------------------------------- sorting

  ghost predicate Sorted(s: seq<int>) {
    forall i, j :: 0 <= i < j < |s| ==> s[i] <= s[j]
  }

  function Insert(x: int, s: seq<int>): (r: seq<int>)
    ensures |r| == |s| + 1
    ensures multiset(r) == multiset(s) + multiset{x}
  {
    if s == [] || x <= s[0] then [x] + s
    else
      assert s == [s[0]] + s[1..];
      [s[0]] + Insert(x, s[1..])
  }

  lemma {:induction false} InsertSorted(x: int, s: seq<int>)
    requires Sorted(s)
    ensures Sorted(Insert(x, s))
    ensures Insert(x, s)[0] == if s == [] || x <= s[0] then x else s[0]
  {
    if s != [] && s[0] < x {
      InsertSorted(x, s[1..]);
      var r := Insert(x, s[1..]);
      assert s[0] <= r[0];
      assert forall j :: 0 <= j < |r| ==> r[0] <= r[j];
    }
  }

  /** WITHIN GROUP (ORDER BY delay_seconds ASC). */
  function Sort(xs: seq<int>): (r: seq<int>)
    ensures Sorted(r) && |r| == |xs|
    ensures multiset(r) == multiset(xs)
  {
    if xs == [] then []
    else
      assert xs == [xs[0]] + xs[1..];
      InsertSorted(xs[0], Sort(xs[1..]));
      Insert(xs[0], Sort(xs[1..]))
  }

  lemma {:induction false} SortOfSorted(s: seq<int>)
    requires Sorted(s)
    ensures Sort(s) == s
  {
    if s != [] {
      SortOfSorted(s[1..]);
      assert s == [s[0]] + s[1..];
    }
  }

  // ---------------------------------------------------------------- mean and rounding

  function Sum(xs: seq<int>): int {
    if xs == [] then 0 else xs[0] + Sum(xs[1..])
  }

  /** int(round(num / den)) for Python's round: to nearest, ties to even. */
  function RoundHalfEven(num: int, den: int): int
    requires den > 0
  {
    var q := num / den;
    var r := num % den;
    if 2 * r < den then q
    else if 2 * r > den then q + 1
    else if q % 2 == 0 then q
    else q + 1
  }

  /** What rounding means: the result is a nearest integer, and the even one of two equally near. */
  ghost predicate IsNearestEven(num: int, den: int, r: int)
    requires den > 0
  {
    -den <= 2 * (num - r * den) <= den &&
    (2 * (num - r * den) == den || 2 * (num - r * den) == -den ==> r % 2 == 0)
  }

  lemma MulMonotone(a: int, b: int, d: int)
    requires a <= b && d >= 0
    ensures a * d <= b * d
  {
    assert (b - a) * d >= 0;
    assert b * d - a * d == (b - a) * d;
  }

  lemma MulDistribute(a: int, b: int, d: int)
    ensures (a + b) * d == a * d + b * d
  {
  }

  lemma Euclid(num: int, den: int)
    requires den > 0
    ensures num == (num / den) * den + num % den && 0 <= num % den < den
  {
  }

  /** The quotient is the largest integer k with k * den <= num; it is exact when num is a multiple. */
  lemma QuotientIsFloor(num: int, den: int, k: int)
    requires den > 0
    ensures k * den <= num <==> k <= num / den
    ensures num <= k * den <==> num / den < k || (num / den == k && num % den == 0)
  {
    var q := num / den;
    Euclid(num, den);
    if k <= q {
      MulMonotone(k, q, den);
      if k < q {
        MulMonotone(k + 1, q, den);
        MulDistribute(k, 1, den);
      }
    } else {
      MulMonotone(q + 1, k, den);
      MulDistribute(q, 1, den);
    }
  }

  lemma RoundingIsNearestEven(num: int, den: int, r: int)
    requires den > 0
    ensures IsNearestEven(num, den, r) <==> r == RoundHalfEven(num, den)
  {
    var q, k := num / den, r - num / den;
    Euclid(num, den);
    MulDistribute(q, k, den);
    if k <= -1 {
      MulMonotone(k, -1, den);
    } else if k >= 2 {
      MulMonotone(2, k, den);
    } else if k == 0 {
      assert k * den == 0;
    } else {
      assert k * den == den;
    }
  }

  /** Rounding never crosses an integer. */
  lemma RoundingRespectsIntegers(num: int, den: int, k: int)
    requires den > 0
    ensures k * den <= num ==> k <= RoundHalfEven(num, den)
    ensures num <= k * den ==> RoundHalfEven(num, den) <= k
  {
    QuotientIsFloor(num, den, k);
  }

  lemma RoundingMonotone(a: int, b: int, den: int)
    requires den > 0 && a <= b
    ensures RoundHalfEven(a, den) <= RoundHalfEven(b, den)
  {
    Euclid(a, den);
    Euclid(b, den);
    QuotientIsFloor(b, den, a / den);
  }

  /** The rounded mean of a non-empty integer sample lies within any bounds of the sample. */
  lemma MeanWithinBounds(xs: seq<int>, lo: int, hi: int)
    requires xs != []
    requires forall i :: 0 <= i < |xs| ==> lo <= xs[i] <= hi
    ensures lo * |xs| <= Sum(xs) <= hi * |xs|
    ensures lo <= RoundHalfEven(Sum(xs), |xs|) <= hi
  {
    SumWithinBounds(xs, lo, hi);
    RoundingRespectsIntegers(Sum(xs), |xs|, lo);
    RoundingRespectsIntegers(Sum(xs), |xs|, hi);
  }

  lemma {:induction false} SumWithinBounds(xs: seq<int>, lo: int, hi: int)
    requires forall i :: 0 <= i < |xs| ==> lo <= xs[i] <= hi
    ensures lo * |xs| <= Sum(xs) <= hi * |xs|
  {
    if xs != [] {
      SumWithinBounds(xs[1..], lo, hi);
      assert lo * |xs| == lo * |xs[1..]| + lo;
      assert hi * |xs| == hi * |xs[1..]| + hi;
    }
  }

  // ---------------------------------------------------------------- row order does not matter

  lemma HeadIsLeast(s: seq<int>, x: int)
    requires Sorted(s) && x in multiset(s)
    ensures s != [] && s[0] <= x
  {
    assert x in s;
  }

  lemma TailMultiset(s: seq<int>)
    requires s != []
    ensures multiset(s) == multiset(s[1..]) + multiset{s[0]}
  {
    assert s == [s[0]] + s[1..];
  }

  lemma TailsAgree(a: seq<int>, b: seq<int>)
    requires Sorted(a) && Sorted(b) && multiset(a) == multiset(b) && a != [] && b != []
    ensures a[0] == b[0] && multiset(a[1..]) == multiset(b[1..])
  {
    hide Sorted;
    TailMultiset(a);
    TailMultiset(b);
    HeadIsLeast(a, b[0]);
    HeadIsLeast(b, a[0]);
    MultisetCancel(multiset(a[1..]), multiset(b[1..]), a[0]);
  }

  lemma SortedTail(s: seq<int>)
    requires Sorted(s) && s != []
    ensures Sorted(s[1..])
  {
  }

  lemma SameSize(a: seq<int>, b: seq<int>)
    requires multiset(a) == multiset(b)
    ensures |a| == |b|
  {
    assert |a| == |multiset(a)| == |multiset(b)| == |b|;
  }

  lemma {:induction false} SortedUnique(a: seq<int>, b: seq<int>)
    requires Sorted(a) && Sorted(b) && multiset(a) == multiset(b)
    ensures a == b
  {
    hide Sorted;
    SameSize(a, b);
    if a != [] {
      TailsAgree(a, b);
      SortedTail(a);
      SortedTail(b);
      SortedUnique(a[1..], b[1..]);
      assert a == [a[0]] + a[1..] && b == [b[0]] + b[1..];
    }
  }

  lemma MultisetCancel(a: multiset<int>, b: multiset<int>, x: int)
    requires a + multiset{x} == b + multiset{x}
    ensures a == b
  {
    assert a == a + multiset{x} - multiset{x};
    assert b == b + multiset{x} - multiset{x};
  }

  lemma {:induction false} SumInsert(x: int, s: seq<int>)
    ensures Sum(Insert(x, s)) == x + Sum(s)
  {
    if s != [] && s[0] < x {
      SumInsert(x, s[1..]);
    }
  }

  lemma {:induction false} SumSort(xs: seq<int>)
    ensures Sum(Sort(xs)) == Sum(xs)
  {
    if xs != [] {
      SumSort(xs[1..]);
      SumInsert(xs[0], Sort(xs[1..]));
    }
  }

  /** Sum and percentiles depend on the sample as a multiset. */
  lemma SamplesPermute(xs: seq<int>, ys: seq<int>)
    requires multiset(xs) == multiset(ys)
    ensures |xs| == |ys| && Sort(xs) == Sort(ys) && Sum(xs) == Sum(ys)
    ensures xs != [] ==> forall d: nat :: d <= 10 ==> PercentileTimes10(xs, d) == PercentileTimes10(ys, d)
  {
    SameSize(xs, ys);
    SortedUnique(Sort(xs), Sort(ys));
    SumSort(xs);
    SumSort(ys);
  }

  // ---------------------------------------------------------------- percentiles

  /** PERCENTILE_CONT(d / 10), times 10: linear interpolation at row number d/10 * (N-1). */
  function PercentileTimes10(xs: seq<int>, d: nat): int
    requires xs != [] && d <= 10
  {
    Interpolate(Sort(xs), Position(d, |xs|))
  }

  /** Ten times the row number, counted from 0. */
  function Position(d: nat, n: nat): (p: int)
    requires n > 0 && d <= 10
    ensures 0 <= p <= 10 * (n - 1)
  {
    MulMonotone(0, d, n - 1);
    MulMonotone(d, 10, n - 1);
    d * (n - 1)
  }

  /** Ten times the value found at position pos/10 of the polyline through s. */
  function Interpolate(s: seq<int>, pos: int): int
    requires s != [] && 0 <= pos <= 10 * (|s| - 1)
  {
    if pos % 10 == 0 then 10 * s[pos / 10]
    else (10 - pos % 10) * s[pos / 10] + (pos % 10) * s[pos / 10 + 1]
  }

  lemma InterpolateAt(s: seq<int>, k: nat, f: nat)
    requires s != [] && f < 10 && 10 * k + f <= 10 * (|s| - 1)
    ensures Interpolate(s, 10 * k + f) == if f == 0 then 10 * s[k] else (10 - f) * s[k] + f * s[k + 1]
  {
    assert (10 * k + f) / 10 == k && (10 * k + f) % 10 == f;
  }

  /** PERCENTILE_CONT as section 10.9 of ISO/IEC 9075-2 has it: with row number d/10 * (N-1) = k + f/10,
      the rows k and k + 1 of the sorted sample weighted by their distance. */
  lemma PercentileByRowNumber(xs: seq<int>, d: nat, k: nat, f: nat)
    requires xs != [] && d <= 10 && f < 10 && d * (|xs| - 1) == 10 * k + f
    ensures k < |xs| && (f != 0 ==> k + 1 < |xs|)
    ensures PercentileTimes10(xs, d)
         == if f == 0 then 10 * Sort(xs)[k] else (10 - f) * Sort(xs)[k] + f * Sort(xs)[k + 1]
  {
    hide Interpolate, Sort;
    assert Position(d, |xs|) == 10 * k + f;
    InterpolateAt(Sort(xs), k, f);
  }

  /** The fifth decile is the middle of the sorted sample, or the mean of its two middle values. */
  lemma MedianIsMiddle(xs: seq<int>)
    requires xs != []
    ensures var s, h := Sort(xs), |xs| / 2;
            PercentileTimes10(xs, 5) == if |xs| % 2 == 1 then 10 * s[h] else 5 * s[h - 1] + 5 * s[h]
  {
    hide PercentileTimes10, Sort;
    var h := |xs| / 2;
    if |xs| % 2 == 1 {
      PercentileByRowNumber(xs, 5, h, 0);
    } else {
      PercentileByRowNumber(xs, 5, h - 1, 5);
    }
  }

  /** The interpolated value is at least every sorted sample at or before the position, and at
      most every sample at or after it. */
  lemma InterpolateBetween(s: seq<int>, pos: int)
    requires s != [] && Sorted(s) && 0 <= pos <= 10 * (|s| - 1)
    ensures forall i :: 0 <= i < |s| && 10 * i <= pos ==> 10 * s[i] <= Interpolate(s, pos)
    ensures forall i :: 0 <= i < |s| && pos <= 10 * i ==> Interpolate(s, pos) <= 10 * s[i]
  {
    var k, f := pos / 10, pos % 10;
    if f != 0 {
      var a, b := s[k], s[k + 1];
      assert a <= b;
      assert Interpolate(s, pos) == 10 * a + f * (b - a);
      MulMonotone(0, f, b - a);
      MulMonotone(f, 10, b - a);
    }
  }

  lemma InterpolateMonotone(s: seq<int>, p: int, q: int)
    requires s != [] && Sorted(s) && 0 <= p <= q <= 10 * (|s| - 1)
    ensures Interpolate(s, p) <= Interpolate(s, q)
  {
    InterpolateBetween(s, p);
    InterpolateBetween(s, q);
    if p / 10 == q / 10 && p % 10 != 0 {
      var k, f, g := p / 10, p % 10, q % 10;
      var a, b := s[k], s[k + 1];
      assert Interpolate(s, p) == 10 * a + f * (b - a);
      assert Interpolate(s, q) == 10 * a + g * (b - a);
      MulMonotone(f, g, b - a);
    } else if p / 10 < q / 10 {
      var i := q / 10;
      assert p <= 10 * i <= q;
      assert Interpolate(s, p) <= 10 * s[i] <= Interpolate(s, q);
    } else {
      assert 10 * s[p / 10] <= Interpolate(s, q);
    }
  }

  lemma SortWithin(xs: seq<int>, lo: int, hi: int, i: nat)
    requires i < |xs|
    requires forall j :: 0 <= j < |xs| ==> lo <= xs[j] <= hi
    ensures lo <= Sort(xs)[i] <= hi
  {
    assert Sort(xs)[i] in multiset(Sort(xs));
    assert Sort(xs)[i] in multiset(xs);
    assert Sort(xs)[i] in xs;
  }

  /** p10 <= p50 <= p90, all between the smallest and the largest sample. */
  lemma PercentilesOrdered(xs: seq<int>, lo: int, hi: int)
    requires xs != []
    requires forall i :: 0 <= i < |xs| ==> lo <= xs[i] <= hi
    ensures 10 * lo <= PercentileTimes10(xs, 1) <= PercentileTimes10(xs, 5)
         <= PercentileTimes10(xs, 9) <= 10 * hi
  {
    var s, m := Sort(xs), |xs| - 1;
    SortWithin(xs, lo, hi, 0);
    SortWithin(xs, lo, hi, m);
    InterpolateMonotone(s, 1 * m, 5 * m);
    InterpolateMonotone(s, 5 * m, 9 * m);
    InterpolateBetween(s, 1 * m);
    InterpolateBetween(s, 9 * m);
  }

  // ---------------------------------------------------------------- the reported interval

  /** How many samples lie in [lo, hi]. */
  function CountIn(xs: seq<int>, lo: int, hi: int): (n: nat)
    ensures n <= |xs|
  {
    if xs == [] then 0
    else (if lo <= xs[0] <= hi then 1 else 0) + CountIn(xs[1..], lo, hi)
  }

  lemma {:induction false} CountInInsert(x: int, s: seq<int>, lo: int, hi: int)
    requires Sorted(s)
    ensures CountIn(Insert(x, s), lo, hi) == CountIn(s, lo, hi) + (if lo <= x <= hi then 1 else 0)
  {
    if s == [] || x <= s[0] {
      assert ([x] + s)[1..] == s;
    } else {
      CountInInsert(x, s[1..], lo, hi);
      assert ([s[0]] + Insert(x, s[1..]))[1..] == Insert(x, s[1..]);
    }
  }

  lemma {:induction false} CountInSort(xs: seq<int>, lo: int, hi: int)
    ensures CountIn(Sort(xs), lo, hi) == CountIn(xs, lo, hi)
  {
    if xs != [] {
      CountInSort(xs[1..], lo, hi);
      CountInInsert(xs[0], Sort(xs[1..]), lo, hi);
    }
  }

  /** A run of a..b-1 consecutive members counts b - a; nothing else counting makes it exact. */
  lemma {:induction false} CountInBlock(s: seq<int>, lo: int, hi: int, a: nat, b: nat)
    requires a <= b <= |s|
    requires forall i :: a <= i < b ==> lo <= s[i] <= hi
    ensures CountIn(s, lo, hi) >= b - a
    ensures (forall i :: 0 <= i < |s| && lo <= s[i] <= hi ==> a <= i < b) ==> CountIn(s, lo, hi) == b - a
  {
    if s != [] {
      var t := s[1..];
      if b == 0 {
        CountInBlock(t, lo, hi, 0, 0);
      } else {
        CountInBlock(t, lo, hi, if a == 0 then 0 else a - 1, b - 1);
      }
      if forall i :: 0 <= i < |s| && lo <= s[i] <= hi ==> a <= i < b {
        forall i | 0 <= i < |t| && lo <= t[i] <= hi
          ensures (if a == 0 then 0 else a - 1) <= i < (if b == 0 then 0 else b - 1)
        {
          assert t[i] == s[i + 1];
        }
      }
    }
  }

  function LowerBound(xs: seq<int>): int
    requires xs != []
  {
    RoundHalfEven(PercentileTimes10(xs, 1), 10)
  }

  function UpperBound(xs: seq<int>): int
    requires xs != []
  {
    RoundHalfEven(PercentileTimes10(xs, 9), 10)
  }

  /** How many samples the reported interval [round(p10), round(p90)] contains. */
  function Covered(xs: seq<int>): nat
    requires xs != []
  {
    CountIn(xs, LowerBound(xs), UpperBound(xs))
  }

  /** floor(9(n-1)/10) - ceil((n-1)/10) + 1: the number of sorted positions at or between the
      two percentile positions. */
  function PositionsBetween(n: nat): int
    requires n > 0
  {
    9 * (n - 1) / 10 - (n - 1 + 9) / 10 + 1
  }

  /** The reported bounds enclose the rounded median. */
  lemma MedianEnclosed(xs: seq<int>)
    requires xs != []
    ensures LowerBound(xs) <= RoundHalfEven(PercentileTimes10(xs, 5), 10) <= UpperBound(xs)
  {
    hide Interpolate, RoundHalfEven, Sort;
    var s, m := Sort(xs), |xs| - 1;
    InterpolateMonotone(s, 1 * m, 5 * m);
    InterpolateMonotone(s, 5 * m, 9 * m);
    RoundingMonotone(PercentileTimes10(xs, 1), PercentileTimes10(xs, 5), 10);
    RoundingMonotone(PercentileTimes10(xs, 5), PercentileTimes10(xs, 9), 10);
  }

  /** Rounding never loses a sample: every sample from sorted position ceil(m/10) up to
      floor(9m/10) stays inside the reported interval. */
  lemma CoverageLowerBound(xs: seq<int>)
    requires xs != []
    ensures LowerBound(xs) <= UpperBound(xs)
    ensures Covered(xs) >= PositionsBetween(|xs|)
    ensures 5 * Covered(xs) >= 4 * |xs| - 8
  {
    var s, m := Sort(xs), |xs| - 1;
    var lo, hi := LowerBound(xs), UpperBound(xs);
    var p, q := 1 * m, 9 * m;
    InterpolateMonotone(s, p, q);
    RoundingMonotone(Interpolate(s, p), Interpolate(s, q), 10);
    InterpolateBetween(s, p);
    InterpolateBetween(s, q);
    var a, b := (m + 9) / 10, q / 10 + 1;
    forall i | a <= i < b
      ensures lo <= s[i] <= hi
    {
      RoundingRespectsIntegers(Interpolate(s, p), 10, s[i]);
      RoundingRespectsIntegers(Interpolate(s, q), 10, s[i]);
    }
    CountInSort(xs, lo, hi);
    CountInBlock(s, lo, hi, a, b);
  }

  /** Samples 0, 10, 20, ...: p10 and p90 fall exactly on N-1 and 9(N-1). */
  function Spread(n: nat): seq<int> {
    seq(n, i => 10 * i)
  }

  lemma SpreadPercentile(n: nat, d: nat)
    requires n > 0 && d <= 10
    ensures PercentileTimes10(Spread(n), d) == 10 * Position(d, n)
  {
    SortOfSorted(Spread(n));
    SpreadInterpolation(n, Position(d, n));
  }

  lemma SpreadInterpolation(n: nat, pos: int)
    requires n > 0 && 0 <= pos <= 10 * (n - 1)
    ensures Interpolate(Spread(n), pos) == 10 * pos
  {
    var k, f := pos / 10, pos % 10;
    assert pos == 10 * k + f;
  }

  /** On the spread-out sample the bound of CoverageLowerBound is attained. */
  lemma SpreadCoverage(n: nat)
    requires n > 0
    ensures Covered(Spread(n)) == PositionsBetween(n)
  {
    hide PercentileTimes10, CountIn;
    var s, m := Spread(n), n - 1;
    SpreadPercentile(n, 1);
    SpreadPercentile(n, 9);
    assert LowerBound(s) == m;
    assert UpperBound(s) == 9 * m;
    SpreadBlock(n, (m + 9) / 10, 9 * m / 10 + 1);
  }

  lemma SpreadBlock(n: nat, a: nat, b: nat)
    requires n > 0 && a == (n - 1 + 9) / 10 && b == 9 * (n - 1) / 10 + 1
    ensures CountIn(Spread(n), n - 1, 9 * (n - 1)) == b - a
  {
    var s, m := Spread(n), n - 1;
    forall i | 0 <= i < n
      ensures m <= s[i] <= 9 * m <==> a <= i < b
    {
      assert s[i] == 10 * i;
    }
    CountInBlock(s, m, 9 * m, a, b);
  }

  lemma PositionsBetweenShare(n: nat)
    requires n > 0
    ensures 5 * PositionsBetween(n) >= 4 * n <==> n % 10 == 0 || n % 10 == 1
  {
    var q, r := (n - 1) / 10, (n - 1) % 10;
    assert n == 10 * q + r + 1;
    assert 9 * (n - 1) / 10 == 9 * q + 9 * r / 10;
    assert (n - 1 + 9) / 10 == q + (r + 9) / 10;
  }

  /** The reply labels the interval level 0.8.  That share of the sample is guaranteed for
      exactly the sample sizes that end in 0 or 1; for every other size some sample misses it. */
  lemma EightyPercentGuaranteedIff(n: nat)
    requires n > 0
    ensures (forall xs: seq<int> :: |xs| == n ==> 5 * Covered(xs) >= 4 * n)
            <==> (n % 10 == 0 || n % 10 == 1)
  {
    PositionsBetweenShare(n);
    if n % 10 == 0 || n % 10 == 1 {
      forall xs: seq<int> | |xs| == n
        ensures 5 * Covered(xs) >= 4 * n
      {
        CoverageLowerBound(xs);
      }
    } else {
      SpreadCoverage(n);
      assert 5 * Covered(Spread(n)) < 4 * n;
    }
  }
}
