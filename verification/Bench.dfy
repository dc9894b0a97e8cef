/**
 * The cycle-count harness: wrapped 32-bit differences, sum, order statistics and
 * spread of 3 to 200 runs. Arithmetic is over the reals; the sum is shown to stay
 * where double arithmetic is exact.
 */
module Bench {
  import opened Bytes

  const MAX_ITERATIONS: int := 200
  const TWO32: nat := 0x1_0000_0000
  const TWO53: nat := 0x20_0000_0000_0000

  type u32 = n: nat | n < TWO32

  datatype Report = Report(iterations: int, min: u32, max: u32, median: u32, mean: real, stddev: real, stackBytes: nat)

  // ---------------------------------------------------------------- specification

  /** Unsigned subtraction of two cycle counter readings. */
  function Wrapped(end: u32, start: u32): u32 { (end - start) % TWO32 }

  /** The wrapped difference is the elapsed count modulo 2^32: the true one exactly below 2^32. */
  lemma WrappedIsElapsed(start: nat, elapsed: nat)
    ensures Wrapped((start + elapsed) % TWO32, start % TWO32) == elapsed % TWO32
    ensures Wrapped((start + elapsed) % TWO32, start % TWO32) == elapsed <==> elapsed < TWO32
  {
    var a, b := (start + elapsed) % TWO32, start % TWO32;
    var k := (start + elapsed) / TWO32 - start / TWO32;
    assert a - b == elapsed - k * TWO32;
    ModShift(elapsed, -k);
  }

  lemma ModShift(n: int, k: int)
    ensures (n + k * TWO32) % TWO32 == n % TWO32
  {
    var q := (n + k * TWO32) / TWO32 - k - n / TWO32;
    assert (n + k * TWO32) % TWO32 - n % TWO32 == -q * TWO32;
  }

  function Sum(xs: seq<u32>): nat { if xs == [] then 0 else Sum(xs[..|xs| - 1]) + xs[|xs| - 1] }

  /** A real-valued term summed over the samples. */
  function Total(xs: seq<u32>, f: real -> real): real {
    if xs == [] then 0.0 else Total(xs[..|xs| - 1], f) + f(xs[|xs| - 1] as real)
  }

  /** The squared distance from mu. */
  function Squares(mu: real): real -> real { x => (x - mu) * (x - mu) }

  /** x put in its place in a sorted sequence. */
  function Insert(x: u32, t: seq<u32>): (r: seq<u32>)
    ensures |r| == |t| + 1
  {
    if t == [] || t[|t| - 1] <= x then t + [x] else Insert(x, t[..|t| - 1]) + [t[|t| - 1]]
  }

  function Sorted(s: seq<u32>): (r: seq<u32>)
    ensures |r| == |s|
  {
    if s == [] then [] else Insert(s[|s| - 1], Sorted(s[..|s| - 1]))
  }

  predicate Ascending(t: seq<u32>) { forall i, j :: 0 <= i < j < |t| ==> t[i] <= t[j] }

  function Mean(xs: seq<u32>): real
    requires xs != []
  {
    Sum(xs) as real / |xs| as real
  }

  function Variance(xs: seq<u32>): real
    requires xs != []
  {
    Total(xs, Squares(Mean(xs))) / |xs| as real
  }

  /** The report for a square root function of the C library. */
  function ReportOf(xs: seq<u32>, sqrt: real -> real): Report
    requires xs != []
  {
    var t := Sorted(xs);
    Report(|xs|, t[0], t[|xs| - 1], t[|xs| / 2], Mean(xs), sqrt(Variance(xs)), 0)
  }

  // ---------------------------------------------------------------- sorting

  predicate Within(xs: seq<u32>, lo: nat, hi: nat) { forall k :: 0 <= k < |xs| ==> lo <= xs[k] <= hi }

  lemma {:induction false} InsertWithin(x: u32, t: seq<u32>, hi: nat)
    requires x <= hi && Within(t, 0, hi)
    ensures Within(Insert(x, t), 0, hi)
  {
    if t != [] && t[|t| - 1] > x { InsertWithin(x, t[..|t| - 1], hi); }
  }

  lemma {:induction false} InsertAscends(x: u32, t: seq<u32>)
    requires Ascending(t)
    ensures Ascending(Insert(x, t))
  {
    if t != [] && t[|t| - 1] > x {
      InsertAscends(x, t[..|t| - 1]);
      InsertWithin(x, t[..|t| - 1], t[|t| - 1]);
    }
  }

  lemma {:induction false} InsertPermutes(x: u32, t: seq<u32>)
    ensures multiset(Insert(x, t)) == multiset(t) + multiset{x}
  {
    if t != [] && t[|t| - 1] > x {
      InsertPermutes(x, t[..|t| - 1]);
      assert t == t[..|t| - 1] + [t[|t| - 1]];
    }
  }

  lemma {:induction false} SortedSorts(s: seq<u32>)
    ensures Ascending(Sorted(s)) && multiset(Sorted(s)) == multiset(s)
  {
    if s != [] {
      SortedSorts(s[..|s| - 1]);
      InsertAscends(s[|s| - 1], Sorted(s[..|s| - 1]));
      InsertPermutes(s[|s| - 1], Sorted(s[..|s| - 1]));
      assert s == s[..|s| - 1] + [s[|s| - 1]];
    }
  }

  /** The last element of a sorted sequence bounds those of any permutation. */
  lemma LastBounds(s: seq<u32>, t: seq<u32>)
    requires s != [] && t != [] && Ascending(s) && multiset(s) == multiset(t)
    ensures t[|t| - 1] <= s[|s| - 1]
  {
    assert t[|t| - 1] in multiset(t);
    assert t[|t| - 1] in multiset(s);
    var k :| 0 <= k < |s| && s[k] == t[|t| - 1];
  }

  lemma WithoutLast(s: seq<u32>)
    requires s != []
    ensures multiset(s[..|s| - 1]) == multiset(s) - multiset{s[|s| - 1]}
  {
    assert s == s[..|s| - 1] + [s[|s| - 1]];
  }

  lemma SameLength(s: seq<u32>, t: seq<u32>)
    requires multiset(s) == multiset(t)
    ensures |s| == |t|
  {
    assert |s| == |multiset(s)| == |multiset(t)| == |t|;
  }

  lemma Rejoin(s: seq<u32>, t: seq<u32>)
    requires s != [] && t != [] && s[|s| - 1] == t[|t| - 1] && s[..|s| - 1] == t[..|t| - 1]
    ensures s == t
  {
    assert s == s[..|s| - 1] + [s[|s| - 1]] && t == t[..|t| - 1] + [t[|t| - 1]];
  }

  /** There is only one sorted arrangement, so it does not matter which algorithm qsort is. */
  lemma {:induction false} SortedIsUnique(s: seq<u32>, t: seq<u32>)
    requires Ascending(s) && Ascending(t) && multiset(s) == multiset(t)
    ensures s == t
    decreases |s|
  {
    SameLength(s, t);
    if s != [] {
      LastBounds(s, t);
      LastBounds(t, s);
      WithoutLast(s);
      WithoutLast(t);
      SortedIsUnique(s[..|s| - 1], t[..|t| - 1]);
      Rejoin(s, t);
    }
  }

  lemma AnySortAgrees(xs: seq<u32>, t: seq<u32>)
    requires Ascending(t) && multiset(t) == multiset(xs)
    ensures t == Sorted(xs)
  {
    SortedSorts(xs);
    SortedIsUnique(t, Sorted(xs));
  }

  // ---------------------------------------------------------------- order statistics

  function CountBelow(xs: seq<u32>, v: u32): nat {
    if xs == [] then 0 else CountBelow(xs[..|xs| - 1], v) + (if xs[|xs| - 1] < v then 1 else 0)
  }

  function CountAtMost(xs: seq<u32>, v: u32): nat {
    if xs == [] then 0 else CountAtMost(xs[..|xs| - 1], v) + (if xs[|xs| - 1] <= v then 1 else 0)
  }

  lemma {:induction false} CountsAdd(xs: seq<u32>, ys: seq<u32>, v: u32)
    ensures CountBelow(xs + ys, v) == CountBelow(xs, v) + CountBelow(ys, v)
    ensures CountAtMost(xs + ys, v) == CountAtMost(xs, v) + CountAtMost(ys, v)
  {
    if ys == [] { assert xs + ys == xs; }
    else {
      CountsAdd(xs, ys[..|ys| - 1], v);
      assert (xs + ys)[..|xs + ys| - 1] == xs + ys[..|ys| - 1];
    }
  }

  /** Counting does not see the order: sorting preserves both counts. */
  lemma {:induction false} InsertCounts(x: u32, t: seq<u32>, v: u32)
    ensures CountBelow(Insert(x, t), v) == CountBelow(t + [x], v) &&
            CountAtMost(Insert(x, t), v) == CountAtMost(t + [x], v)
  {
    assert (t + [x])[..|t|] == t;
    if t != [] && t[|t| - 1] > x {
      var s := t[..|t| - 1];
      InsertCounts(x, s, v);
      assert (s + [x])[..|s|] == s;
      var r := Insert(x, t);
      assert r[..|r| - 1] == Insert(x, s);
    }
  }

  lemma {:induction false} SortedCounts(s: seq<u32>, v: u32)
    ensures CountBelow(Sorted(s), v) == CountBelow(s, v) && CountAtMost(Sorted(s), v) == CountAtMost(s, v)
  {
    if s != [] {
      var x, t := s[|s| - 1], Sorted(s[..|s| - 1]);
      SortedCounts(s[..|s| - 1], v);
      InsertCounts(x, t, v);
      assert (t + [x])[..|t|] == t;
    }
  }

  lemma {:induction false} CountsAllOrNone(xs: seq<u32>, v: u32)
    ensures CountBelow(xs, v) <= |xs| && CountAtMost(xs, v) <= |xs|
    ensures (forall k :: 0 <= k < |xs| ==> xs[k] >= v) ==> CountBelow(xs, v) == 0
    ensures (forall k :: 0 <= k < |xs| ==> xs[k] <= v) ==> CountAtMost(xs, v) == |xs|
  {
    if xs != [] {
      var ys := xs[..|xs| - 1];
      CountsAllOrNone(ys, v);
      assert forall k :: 0 <= k < |ys| ==> ys[k] == xs[k];
    }
  }

  /** The element at index k of the sorted sequence is the k-th order statistic. */
  lemma RankOf(t: seq<u32>, k: nat)
    requires Ascending(t) && k < |t|
    ensures CountBelow(t, t[k]) <= k < CountAtMost(t, t[k])
  {
    BelowRank(t, k, t[k]);
    AtMostRank(t, k, t[k]);
  }

  lemma BelowRank(t: seq<u32>, k: nat, v: u32)
    requires k <= |t| && forall i :: k <= i < |t| ==> t[i] >= v
    ensures CountBelow(t, v) <= k
  {
    assert t == t[..k] + t[k..];
    CountsAdd(t[..k], t[k..], v);
    CountsAllOrNone(t[..k], v);
    CountsAllOrNone(t[k..], v);
  }

  lemma AtMostRank(t: seq<u32>, k: nat, v: u32)
    requires k < |t| && forall i :: 0 <= i <= k ==> t[i] <= v
    ensures k < CountAtMost(t, v)
  {
    assert t == t[..k + 1] + t[k + 1..];
    CountsAdd(t[..k + 1], t[k + 1..], v);
    CountsAllOrNone(t[..k + 1], v);
  }

  // ---------------------------------------------------------------- the report

  /**
   * In the order the runs happened, not the sorted one: min and max bound all
   * samples and occur, and the median has at most n/2 samples below it and more
   * than n/2 at or below it.
   */
  lemma OrderStatistics(xs: seq<u32>, sqrt: real -> real)
    requires xs != []
    ensures var r := ReportOf(xs, sqrt);
            r.min <= r.median <= r.max && Within(xs, r.min, r.max) && r.min in xs && r.max in xs && r.median in xs &&
            r.iterations == |xs|
    ensures var r := ReportOf(xs, sqrt);
            CountBelow(xs, r.median) <= |xs| / 2 < CountAtMost(xs, r.median)
  {
    var t := Sorted(xs);
    SortedSorts(xs);
    RankOf(t, |xs| / 2);
    SortedCounts(xs, t[|xs| / 2]);
    SortedBounds(xs, t);
    SameElements(t, xs);
  }

  lemma SameElements(s: seq<u32>, t: seq<u32>)
    requires multiset(s) == multiset(t)
    ensures forall k :: 0 <= k < |s| ==> s[k] in t
  {
    forall k | 0 <= k < |s| ensures s[k] in t {
      assert s[k] in multiset(s);
      assert s[k] in multiset(t);
    }
  }

  lemma SortedBounds(xs: seq<u32>, t: seq<u32>)
    requires t != [] && Ascending(t) && multiset(t) == multiset(xs)
    ensures Within(xs, t[0], t[|t| - 1])
  {
    SameElements(xs, t);
    forall k | 0 <= k < |xs| ensures t[0] <= xs[k] <= t[|t| - 1] {
      var i :| 0 <= i < |t| && t[i] == xs[k];
    }
  }

  lemma {:induction false} SumBetween(xs: seq<u32>, lo: nat, hi: nat)
    requires Within(xs, lo, hi)
    ensures |xs| * lo <= Sum(xs) <= |xs| * hi
  {
    if xs != [] {
      SumBetween(xs[..|xs| - 1], lo, hi);
      OneMore(|xs|, lo);
      OneMore(|xs|, hi);
    }
  }

  lemma OneMore(n: nat, x: nat)
    requires n > 0
    ensures n * x == (n - 1) * x + x
  {
  }

  /** Every partial sum is an integer below 2^53, so adding in doubles never rounds. */
  lemma PartialSumsAreExact(xs: seq<u32>, k: nat)
    requires |xs| <= MAX_ITERATIONS && k <= |xs|
    ensures Sum(xs[..k]) < TWO53
  {
    SumBetween(xs[..k], 0, TWO32 - 1);
    assert k * (TWO32 - 1) <= 200 * (TWO32 - 1);
  }

  lemma QuotientOrder(a: real, b: real, n: real)
    requires n > 0.0 && a <= b
    ensures a / n <= b / n
  {
    var d := b - a;
    assert d / n >= 0.0;
    assert b / n == a / n + d / n;
  }

  function Line(a: real, b: real): real -> real { x => a * x + b }

  ghost predicate Between(f: real -> real, g: real -> real, lo: real, hi: real) {
    forall x :: lo <= x <= hi ==> 0.0 <= f(x) <= g(x)
  }

  /** The chord through the ends of the range: above the parabola of squared distances, and at mu as high as Room. */
  lemma Chord(mu: real, lo: real, hi: real) returns (a: real, b: real)
    ensures Between(Squares(mu), Line(a, b), lo, hi) && a * mu + b == Room(lo, hi, mu)
  {
    a, b := hi + lo - 2.0 * mu, mu * mu - hi * lo;
    forall x | lo <= x <= hi ensures 0.0 <= Squares(mu)(x) <= Line(a, b)(x) { ChordAt(x, mu, lo, hi); }
    AtTheMean(mu, lo, hi);
  }

  lemma AtTheMean(mu: real, lo: real, hi: real)
    ensures (hi + lo - 2.0 * mu) * mu + (mu * mu - hi * lo) == Room(lo, hi, mu)
  {
  }

  lemma ChordAt(x: real, mu: real, lo: real, hi: real)
    requires lo <= x <= hi
    ensures 0.0 <= Squares(mu)(x) <= Line(hi + lo - 2.0 * mu, mu * mu - hi * lo)(x)
  {
    SquareNonNegative(x - mu);
    SquareBelowChord(x, mu, lo, hi);
  }

  lemma SquareBelowChord(x: real, mu: real, lo: real, hi: real)
    requires lo <= x <= hi
    ensures (x - mu) * (x - mu) <= (hi + lo - 2.0 * mu) * x + (mu * mu - hi * lo)
  {
    ProductNonNegative(hi - x, x - lo);
    assert (hi - x) * (x - lo) == (hi + lo) * x - x * x - hi * lo;
    assert (x - mu) * (x - mu) == x * x - 2.0 * mu * x + mu * mu;
    assert (hi + lo - 2.0 * mu) * x == (hi + lo) * x - 2.0 * mu * x;
  }

  lemma ProductNonNegative(x: real, y: real)
    requires x >= 0.0 && y >= 0.0
    ensures x * y >= 0.0
  {
  }

  lemma SquareNonNegative(x: real)
    ensures x * x >= 0.0
  {
  }

  lemma {:induction false} TotalBetween(xs: seq<u32>, f: real -> real, g: real -> real, lo: nat, hi: nat)
    requires Within(xs, lo, hi) && Between(f, g, lo as real, hi as real)
    ensures 0.0 <= Total(xs, f) <= Total(xs, g)
  {
    if xs != [] { TotalBetween(xs[..|xs| - 1], f, g, lo, hi); }
  }

  lemma {:induction false} LineTotal(xs: seq<u32>, a: real, b: real)
    ensures Total(xs, Line(a, b)) == a * Sum(xs) as real + b * |xs| as real
  {
    if xs != [] {
      var ys, x := xs[..|xs| - 1], xs[|xs| - 1];
      LineTotal(ys, a, b);
      AddTerm(a, b, Sum(ys) as real, x as real, |ys| as real);
    }
  }

  lemma AddTerm(a: real, b: real, s: real, x: real, n: real)
    ensures a * (s + x) + b * (n + 1.0) == (a * s + b * n) + (a * x + b)
  {
  }

  /** The mean of the samples lies between the bounds of the samples: three lines compared over the range. */
  lemma MeanBetween(xs: seq<u32>, lo: u32, hi: u32)
    requires xs != [] && Within(xs, lo, hi)
    ensures lo as real <= Mean(xs) <= hi as real
  {
    var low, id, high := Line(0.0, lo as real), Line(1.0, 0.0), Line(0.0, hi as real);
    assert Between(low, id, lo as real, hi as real) && Between(id, high, lo as real, hi as real);
    TotalBetween(xs, low, id, lo, hi);
    TotalBetween(xs, id, high, lo, hi);
    LineMean(xs, 0.0, lo as real);
    LineMean(xs, 1.0, 0.0);
    LineMean(xs, 0.0, hi as real);
    QuotientOrder(Total(xs, low), Total(xs, id), |xs| as real);
    QuotientOrder(Total(xs, id), Total(xs, high), |xs| as real);
  }

  /** (hi - mu) * (mu - lo): the largest variance a mean of mu between lo and hi leaves room for. */
  function Room(lo: real, hi: real, mu: real): real { (hi - mu) * (mu - lo) }

  /** The mean lies between min and max, and the variance is at most (max - mean) * (mean - min). */
  lemma MeanAndSpread(xs: seq<u32>, sqrt: real -> real)
    requires xs != []
    ensures var r := ReportOf(xs, sqrt);
            r.min as real <= r.mean <= r.max as real &&
            0.0 <= Variance(xs) <= Room(r.min as real, r.max as real, r.mean)
  {
    var r := ReportOf(xs, sqrt);
    OrderStatistics(xs, sqrt);
    MeanBetween(xs, r.min, r.max);
    VarianceBound(xs, r.min, r.max, r.mean);
  }

  lemma VarianceBound(xs: seq<u32>, lo: nat, hi: nat, mu: real)
    requires xs != [] && Within(xs, lo, hi) && mu == Mean(xs)
    ensures 0.0 <= Total(xs, Squares(mu)) / |xs| as real <= Room(lo as real, hi as real, mu)
  {
    var a, b := Chord(mu, lo as real, hi as real);
    TotalBetween(xs, Squares(mu), Line(a, b), lo, hi);
    QuotientOrder(0.0, Total(xs, Squares(mu)), |xs| as real);
    QuotientOrder(Total(xs, Squares(mu)), Total(xs, Line(a, b)), |xs| as real);
    LineMean(xs, a, b);
  }

  /** The mean of a line over the samples is its height at their mean. */
  lemma LineMean(xs: seq<u32>, a: real, b: real)
    requires xs != []
    ensures Total(xs, Line(a, b)) / |xs| as real == a * Mean(xs) + b
  {
    LineTotal(xs, a, b);
    DivideByCount(Total(xs, Line(a, b)), Sum(xs) as real, |xs| as real, a, b);
  }

  lemma DivideByCount(t: real, s: real, n: real, a: real, b: real)
    requires n > 0.0 && t == a * s + b * n
    ensures t / n == a * (s / n) + b
  {
    var q := s / n;
    assert s == n * q;
    assert t == n * (a * q + b);
  }

  /** f is g and h added up. */
  ghost predicate Splits(f: real -> real, g: real -> real, h: real -> real) { forall x :: f(x) == g(x) + h(x) }

  lemma {:induction false} TotalSplits(xs: seq<u32>, f: real -> real, g: real -> real, h: real -> real)
    requires Splits(f, g, h)
    ensures Total(xs, f) == Total(xs, g) + Total(xs, h)
  {
    if xs != [] { TotalSplits(xs[..|xs| - 1], f, g, h); }
  }

  lemma SquareShift(x: real, mu: real, m: real)
    ensures (x - m) * (x - m) == (x - mu) * (x - mu) + (2.0 * (mu - m) * x + (m * m - mu * mu))
  {
    assert (x - m) * (x - m) == x * x - 2.0 * m * x + m * m;
    assert (x - mu) * (x - mu) == x * x - 2.0 * mu * x + mu * mu;
    assert 2.0 * (mu - m) * x == 2.0 * mu * x - 2.0 * m * x;
  }

  lemma AtMean(mu: real, m: real)
    ensures 2.0 * (mu - m) * mu + (m * m - mu * mu) == (mu - m) * (mu - m)
  {
  }

  lemma AddQuotients(t: real, a: real, b: real, n: real)
    requires n > 0.0 && t == a + b
    ensures t / n == a / n + b / n
  {
  }

  /**
   * What the variance is: the mean squared distance of the samples from any point m
   * is the variance plus the squared distance of the mean from m. So it is the least
   * of them, taken at the mean alone.
   */
  lemma VarianceIsLeast(xs: seq<u32>, m: real)
    requires xs != []
    ensures Total(xs, Squares(m)) / |xs| as real == Variance(xs) + (Mean(xs) - m) * (Mean(xs) - m)
  {
    var a, b := ShiftLine(Mean(xs), m);
    ShiftedTotal(xs, m, Mean(xs), a, b, (Mean(xs) - m) * (Mean(xs) - m));
  }

  /** The difference of the two squared distances is a line, of height (mu - m)^2 at mu. */
  lemma ShiftLine(mu: real, m: real) returns (a: real, b: real)
    ensures Splits(Squares(m), Squares(mu), Line(a, b)) && a * mu + b == (mu - m) * (mu - m)
  {
    a, b := 2.0 * (mu - m), m * m - mu * mu;
    SplitsShifted(mu, m, a, b);
    AtMean(mu, m);
  }

  lemma SplitsShifted(mu: real, m: real, a: real, b: real)
    requires a == 2.0 * (mu - m) && b == m * m - mu * mu
    ensures Splits(Squares(m), Squares(mu), Line(a, b))
  {
    forall x ensures Squares(m)(x) == Squares(mu)(x) + Line(a, b)(x) { SplitAt(x, mu, m, a, b); }
  }

  lemma SplitAt(x: real, mu: real, m: real, a: real, b: real)
    requires a == 2.0 * (mu - m) && b == m * m - mu * mu
    ensures Squares(m)(x) == Squares(mu)(x) + Line(a, b)(x)
  {
    SquareShift(x, mu, m);
  }

  lemma ShiftedTotal(xs: seq<u32>, m: real, mu: real, a: real, b: real, d: real)
    requires xs != [] && mu == Mean(xs) && Splits(Squares(m), Squares(mu), Line(a, b)) && a * mu + b == d
    ensures Total(xs, Squares(m)) / |xs| as real == Total(xs, Squares(mu)) / |xs| as real + d
  {
    TotalSplits(xs, Squares(m), Squares(mu), Line(a, b));
    LineMean(xs, a, b);
    AddQuotients(Total(xs, Squares(m)), Total(xs, Squares(mu)), Total(xs, Line(a, b)), |xs| as real);
  }

  predicate IsRoot(d: real, v: real) { d >= 0.0 && d * d == v }

  /** stddev squared is at most (max - mean) * (mean - min), and stddev at most half the range. */
  predicate SpreadFits(r: Report) {
    r.stddev * r.stddev <= Room(r.min as real, r.max as real, r.mean) && 2.0 * r.stddev <= r.max as real - r.min as real
  }

  /** Wherever the C library's square root is exact, the reported spread fits the reported range. */
  lemma StddevBound(xs: seq<u32>, sqrt: real -> real)
    requires xs != [] && IsRoot(sqrt(Variance(xs)), Variance(xs))
    ensures SpreadFits(ReportOf(xs, sqrt)) && IsRoot(ReportOf(xs, sqrt).stddev, Variance(xs))
  {
    MeanAndSpread(xs, sqrt);
    RootFits(ReportOf(xs, sqrt), Variance(xs));
  }

  lemma RootFits(r: Report, v: real)
    requires IsRoot(r.stddev, v) && r.min as real <= r.mean <= r.max as real &&
             v <= Room(r.min as real, r.max as real, r.mean)
    ensures SpreadFits(r)
  {
    HalfRange(r.min as real, r.max as real, r.mean, r.stddev, v);
  }

  lemma HalfRange(lo: real, hi: real, mu: real, d: real, v: real)
    requires lo <= mu <= hi && d >= 0.0 && d * d == v && v <= Room(lo, hi, mu)
    ensures 2.0 * d <= hi - lo
  {
    var a, b := hi - mu, mu - lo;
    SquareNonNegative(a - b);
    assert (a + b) * (a + b) - (a - b) * (a - b) == 4.0 * (a * b);
    RootOrder(2.0 * d, a + b);
  }

  lemma RootOrder(x: real, y: real)
    requires x >= 0.0 && y >= 0.0 && x * x <= y * y
    ensures x <= y
  {
    if x > y { StrictSquares(x, y); }
  }

  lemma StrictSquares(x: real, y: real)
    requires x > y >= 0.0
    ensures x * x > y * y
  {
    PositiveProduct(x - y, x + y);
    assert x * x - y * y == (x - y) * (x + y);
  }

  lemma PositiveProduct(x: real, y: real)
    requires x > 0.0 && y > 0.0
    ensures x * y > 0.0
  {
  }

  // ---------------------------------------------------------------- bench.c

  /** What the k-th call of the operation costs in cycles, warm-up calls included. */
  type Costs = nat -> nat

  /** The samples of n consecutive calls: true cycles wherever they are below 2^32. */
  function Samples(cost: Costs, first: nat, n: nat): seq<u32> {
    seq(n, i requires 0 <= i < n => cost(first + i) % TWO32)
  }

  class Harness {
    const samples: array<u32>
    /** Cycles since power-up and calls of the operation; the counter shows the cycles modulo 2^32. */
    var cycles: nat
    var calls: nat

    constructor (cycles: nat)
      ensures samples.Length == MAX_ITERATIONS && fresh(samples) && this.cycles == cycles && calls == 0
    {
      samples := new u32[MAX_ITERATIONS];
      this.cycles, calls := cycles, 0;
    }

    method Op(cost: Costs)
      modifies this
      ensures cycles == old(cycles) + cost(old(calls)) && calls == old(calls) + 1
    {
      cycles, calls := cycles + cost(calls), calls + 1;
    }

    method CycleCount() returns (n: u32)
      ensures n == cycles % TWO32
    {
      n := cycles % TWO32;
    }

    /** bench_measure: two warm-up calls, then one sample per call. */
    method Measure(cost: Costs, iterations: int, sqrt: real -> real) returns (r: Option<Report>)
      requires samples.Length == MAX_ITERATIONS
      modifies this, samples
      ensures r.Some? <==> 3 <= iterations <= MAX_ITERATIONS
      ensures r.None? ==> calls == old(calls) && samples[..] == old(samples[..])
      ensures r.Some? ==>
                calls == old(calls) + 2 + iterations &&
                r.value == ReportOf(Samples(cost, old(calls) + 2, iterations), sqrt)
      ensures r.Some? ==>
                samples[..iterations] == Sorted(Samples(cost, old(calls) + 2, iterations)) &&
                samples[iterations..] == old(samples[iterations..])
    {
      if iterations < 3 || iterations > MAX_ITERATIONS { return None; }
      Op(cost);
      Op(cost);
      FillSamples(cost, iterations);
      var mean, variance := Moments(iterations);
      Qsort(samples, iterations);
      var min, max, median := Positions(iterations);
      return Some(Report(iterations, min, max, median, mean, sqrt(variance), 0));
    }

    /** First, last and middle of the sorted samples. */
    method Positions(iterations: nat) returns (min: u32, max: u32, median: u32)
      requires samples.Length == MAX_ITERATIONS && 0 < iterations <= MAX_ITERATIONS
      ensures var t := samples[..iterations]; min == t[0] && max == t[iterations - 1] && median == t[iterations / 2]
    {
      min, max, median := samples[0], samples[iterations - 1], samples[iterations / 2];
    }

    method FillSamples(cost: Costs, iterations: nat)
      requires samples.Length == MAX_ITERATIONS && iterations <= MAX_ITERATIONS
      modifies this, samples
      ensures calls == old(calls) + iterations
      ensures samples[..iterations] == Samples(cost, old(calls), iterations) &&
              samples[iterations..] == old(samples[iterations..])
    {
      ghost var xs := Samples(cost, calls, iterations);
      for i := 0 to iterations
        invariant calls == old(calls) + i
        invariant samples[..i] == xs[..i] && samples[i..] == old(samples[i..])
      {
        var start := CycleCount();
        ghost var before := cycles;
        Op(cost);
        var end := CycleCount();
        WrappedIsElapsed(before, cost(old(calls) + i));
        samples[i] := Wrapped(end, start);
        assert samples[..i + 1] == samples[..i] + [samples[i]];
        assert xs[..i + 1] == xs[..i] + [cost(old(calls) + i) % TWO32];
      }
    }

    /** The two accumulation loops and what is derived from them. */
    method Moments(iterations: nat) returns (mean: real, variance: real)
      requires samples.Length == MAX_ITERATIONS && 0 < iterations <= MAX_ITERATIONS
      ensures mean == Mean(samples[..iterations])
      ensures variance == Variance(samples[..iterations])
    {
      var sum := SumUp(iterations);
      mean := sum / iterations as real;
      var acc := SpreadUp(iterations, mean);
      variance := acc / iterations as real;
    }

    method SumUp(iterations: nat) returns (sum: real)
      requires samples.Length == MAX_ITERATIONS && 0 < iterations <= MAX_ITERATIONS
      ensures sum == Sum(samples[..iterations]) as real && Sum(samples[..iterations]) < TWO53
    {
      ghost var xs := samples[..iterations];
      sum := 0.0;
      for i := 0 to iterations
        invariant sum == Sum(xs[..i]) as real && Sum(xs[..i]) < TWO53
      {
        assert xs[..i + 1][..i] == xs[..i];
        sum := sum + samples[i] as real;
        PartialSumsAreExact(xs, i + 1);
      }
      assert xs[..iterations] == xs;
    }

    method SpreadUp(iterations: nat, mean: real) returns (acc: real)
      requires samples.Length == MAX_ITERATIONS && 0 < iterations <= MAX_ITERATIONS
      ensures acc == Total(samples[..iterations], Squares(mean))
    {
      ghost var xs := samples[..iterations];
      acc := 0.0;
      for i := 0 to iterations
        invariant acc == Total(xs[..i], Squares(mean))
      {
        assert xs[..i + 1][..i] == xs[..i];
        var d := samples[i] as real - mean;
        AddSquare(xs[..i + 1], mean, d);
        acc := acc + d * d;
      }
      assert xs[..iterations] == xs;
    }
  }

  lemma AddSquare(xs: seq<u32>, mu: real, d: real)
    requires xs != [] && d == xs[|xs| - 1] as real - mu
    ensures Total(xs, Squares(mu)) == Total(xs[..|xs| - 1], Squares(mu)) + d * d
  {
    TotalLast(xs, Squares(mu));
    SquareAt(xs[|xs| - 1] as real, mu, d);
  }

  lemma TotalLast(xs: seq<u32>, f: real -> real)
    requires xs != []
    ensures Total(xs, f) == Total(xs[..|xs| - 1], f) + f(xs[|xs| - 1] as real)
  {
  }

  lemma SquareAt(x: real, mu: real, d: real)
    requires d == x - mu
    ensures Squares(mu)(x) == d * d
  {
  }

  /** compare_u32. */
  function CompareU32(x: u32, y: u32): int { (if x > y then 1 else 0) - (if x < y then 1 else 0) }

  /** A consistent ordering, as qsort needs: antisymmetric, transitive and zero only on equal values. */
  lemma CompareIsOrder(x: u32, y: u32, z: u32)
    ensures CompareU32(x, y) == -CompareU32(y, x) && (CompareU32(x, y) == 0 <==> x == y)
    ensures CompareU32(x, y) <= 0 && CompareU32(y, z) <= 0 ==> CompareU32(x, z) <= 0
  {
  }

  lemma SortedNext(s: seq<u32>, i: nat)
    requires i < |s|
    ensures Sorted(s[..i + 1]) == Insert(s[i], Sorted(s[..i]))
  {
    assert s[..i + 1][..i] == s[..i];
  }

  /** qsort of the first n elements; by SortedIsUnique every correct sort leaves the same array. */
  method Qsort(a: array<u32>, n: nat)
    requires n <= a.Length
    modifies a
    ensures a[..n] == Sorted(old(a[..n])) && a[n..] == old(a[n..])
  {
    ghost var s := a[..];
    for i := 0 to n
      invariant a[..i] == Sorted(s[..i]) && a[i..] == s[i..]
    {
      InsertNext(a, i, s);
    }
  }

  method InsertNext(a: array<u32>, i: nat, ghost s: seq<u32>)
    requires i < a.Length == |s| && a[..i] == Sorted(s[..i]) && a[i..] == s[i..]
    modifies a
    ensures a[..i + 1] == Sorted(s[..i + 1]) && a[i + 1..] == s[i + 1..]
  {
    assert a[i] == a[i..][0] && a[i + 1..] == a[i..][1..] == s[i..][1..];
    SortedNext(s, i);
    InsertLast(a, i);
  }

  lemma Sink(x: u32, t: seq<u32>, j: nat)
    requires 0 < j <= |t| && t[j - 1] > x && Insert(x, t) == Insert(x, t[..j]) + t[j..]
    ensures Insert(x, t) == Insert(x, t[..j - 1]) + t[j - 1..]
  {
    assert t[..j][..j - 1] == t[..j - 1] && t[j - 1..] == [t[j - 1]] + t[j..];
    assert Insert(x, t[..j]) == Insert(x, t[..j - 1]) + [t[j - 1]];
  }

  /** Sinks a[i] into the sorted elements before it. */
  method InsertLast(a: array<u32>, i: nat)
    requires i < a.Length
    modifies a
    ensures a[..i + 1] == Insert(old(a[i]), old(a[..i])) && a[i + 1..] == old(a[i + 1..])
  {
    ghost var t := a[..i];
    var x, j := a[i], i;
    while j > 0 && CompareU32(a[j - 1], x) > 0
      invariant j <= i && a[..j] == t[..j] && a[j + 1..i + 1] == t[j..] && a[i + 1..] == old(a[i + 1..])
      invariant Insert(x, t) == Insert(x, t[..j]) + t[j..]
    {
      Sink(x, t, j);
      a[j] := a[j - 1];
      j := j - 1;
      assert a[j + 1..i + 1] == [t[j]] + t[j + 1..] == t[j..];
    }
    assert j > 0 ==> t[..j][j - 1] <= x;
    a[j] := x;
    assert a[..i + 1] == t[..j] + [x] + t[j..];
  }
}
