/**
 * Distribution statistics over exact reals: the in-memory forms and the SQL forms of percentile and
 * histogram, and the evenly spaced evidence sample (app/agent/data_tools.py).
 */
module Statistics {
  import opened Prelude

  ghost predicate Sorted(s: seq<real>) {
    forall i, j :: 0 <= i < j < |s| ==> s[i] <= s[j]
  }

  // ---------------------------------------------------------------- percentiles

  /** Weighted mean of two neighbouring values. */
  function Blend(a: real, b: real, weight: real): real {
    a * (1.0 - weight) + b * weight
  }

  function Position(count: nat, fraction: real): (position: real)
    requires count >= 1 && 0.0 <= fraction <= 1.0
    ensures 0.0 <= position <= (count - 1) as real
  {
    (count - 1) as real * fraction
  }

  function Min(a: int, b: int): int {
    if a <= b then a else b
  }

  /** Linear interpolation between the two nearest ranks; `None` is the error raised on no values. */
  function Percentile(ordered: seq<real>, fraction: real): Option<real>
    requires 0.0 <= fraction <= 1.0
  {
    if ordered == [] then None
    else if |ordered| == 1 then Some(ordered[0])
    else
      var position := Position(|ordered|, fraction);
      var lower := position.Floor;
      var upper := Min(lower + 1, |ordered| - 1);
      Some(Blend(ordered[lower], ordered[upper], position - lower as real))
  }

  /** The rows an ordered query returns under OFFSET and LIMIT. */
  function Page(ordered: seq<real>, offset: nat, limit: nat): seq<real> {
    var from := Min(offset, |ordered|);
    ordered[from..Min(from + limit, |ordered|)]
  }

  function SqlPercentile(ordered: seq<real>, count: nat, fraction: real): Option<real>
    requires count >= 1 && 0.0 <= fraction <= 1.0
  {
    var position := Position(count, fraction);
    var lower := position.Floor;
    var upper := Min(lower + 1, count - 1);
    var values := Page(ordered, lower, upper - lower + 1);
    if values == [] then None
    else Some(Blend(values[0], values[|values| - 1], position - lower as real))
  }

  lemma {:induction false} BlendEnds(a: real, b: real)
    ensures Blend(a, b, 0.0) == a && Blend(a, b, 1.0) == b && Blend(a, b, 0.5) == (a + b) / 2.0
  {
  }

  lemma Scale(a: real, b: real, w: real)
    requires a <= b && 0.0 <= w
    ensures a * w <= b * w
  {
  }

  lemma StrictScale(a: real, b: real, w: real)
    requires a < b && 0.0 < w
    ensures a * w < b * w
  {
  }

  lemma BlendMonotone(a: real, b: real, v: real, w: real)
    requires a <= b && v <= w
    ensures Blend(a, b, v) <= Blend(a, b, w)
  {
    Scale(v, w, b - a);
    assert Blend(a, b, v) == a + v * (b - a) && Blend(a, b, w) == a + w * (b - a);
  }

  /** The piecewise linear curve through the ranks, at a real position. */
  function Curve(ordered: seq<real>, position: real): real
    requires ordered != [] && 0.0 <= position <= (|ordered| - 1) as real
  {
    var lower := position.Floor;
    Blend(ordered[lower], ordered[Min(lower + 1, |ordered| - 1)], position - lower as real)
  }

  lemma PercentileIsCurve(ordered: seq<real>, fraction: real)
    requires ordered != [] && 0.0 <= fraction <= 1.0
    ensures Percentile(ordered, fraction) == Some(Curve(ordered, Position(|ordered|, fraction)))
  {
    hide Blend;
    if |ordered| == 1 {
      assert Position(1, fraction) == 0.0;
      BlendEnds(ordered[0], ordered[0]);
    }
  }

  /** The two-row query computes the same percentile as the list form. */
  lemma SqlPercentileAgrees(ordered: seq<real>, fraction: real)
    requires ordered != [] && 0.0 <= fraction <= 1.0
    ensures SqlPercentile(ordered, |ordered|, fraction) == Percentile(ordered, fraction)
  {
    hide Blend, Position;
    PercentileIsCurve(ordered, fraction);
  }

  /** Within one segment the curve lies between the two ranks. */
  lemma CurveBetween(ordered: seq<real>, p: real)
    requires Sorted(ordered) && ordered != [] && 0.0 <= p <= (|ordered| - 1) as real
    ensures ordered[p.Floor] <= Curve(ordered, p) <= ordered[Min(p.Floor + 1, |ordered| - 1)]
  {
    hide Blend;
    var a, b := ordered[p.Floor], ordered[Min(p.Floor + 1, |ordered| - 1)];
    var w := p - p.Floor as real;
    BlendEnds(a, b);
    BlendMonotone(a, b, 0.0, w);
    BlendMonotone(a, b, w, 1.0);
  }

  lemma CurveMonotone(ordered: seq<real>, p: real, q: real)
    requires Sorted(ordered) && ordered != [] && 0.0 <= p <= q <= (|ordered| - 1) as real
    ensures Curve(ordered, p) <= Curve(ordered, q)
  {
    hide Blend;
    CurveBetween(ordered, p);
    CurveBetween(ordered, q);
    if p.Floor == q.Floor {
      BlendMonotone(ordered[p.Floor], ordered[Min(p.Floor + 1, |ordered| - 1)], p - p.Floor as real,
        q - p.Floor as real);
    } else {
      assert p.Floor + 1 <= q.Floor;
    }
  }

  lemma PositionMonotone(count: nat, f: real, g: real)
    requires count >= 1 && 0.0 <= f <= g <= 1.0
    ensures Position(count, f) <= Position(count, g)
  {
    Scale(f, g, (count - 1) as real);
  }

  /** The percentile of sorted values never decreases with the fraction. */
  lemma PercentileMonotone(ordered: seq<real>, f: real, g: real)
    requires Sorted(ordered) && ordered != [] && 0.0 <= f <= g <= 1.0
    ensures Percentile(ordered, f).value <= Percentile(ordered, g).value
  {
    hide Blend, Position, Curve, Percentile;
    PercentileIsCurve(ordered, f);
    PercentileIsCurve(ordered, g);
    PositionMonotone(|ordered|, f, g);
    CurveMonotone(ordered, Position(|ordered|, f), Position(|ordered|, g));
  }

  lemma Quotient(k: nat, n: nat)
    requires k <= n && n > 0
    ensures 0.0 <= k as real / n as real <= 1.0 && n as real * (k as real / n as real) == k as real
  {
    var f := k as real / n as real;
    assert n as real * f == k as real;
    if f > 1.0 { StrictScale(1.0, f, n as real); }
    if f < 0.0 { StrictScale(f, 0.0, n as real); }
  }

  /** At the k-th of n - 1 equal steps it is exactly the k-th smallest value. */
  lemma PercentileAtRank(ordered: seq<real>, k: nat)
    requires k < |ordered| && |ordered| > 1
    ensures 0.0 <= k as real / (|ordered| - 1) as real <= 1.0
    ensures Percentile(ordered, k as real / (|ordered| - 1) as real) == Some(ordered[k])
  {
    Quotient(k, |ordered| - 1);
    var f := k as real / (|ordered| - 1) as real;
    assert Position(|ordered|, f) == k as real;
    hide Position, Blend;
    BlendEnds(ordered[k], ordered[Min(k + 1, |ordered| - 1)]);
  }

  lemma PositionOfRatio(n: nat, p: real)
    requires n > 1 && 0.0 <= p <= (n - 1) as real
    ensures 0.0 <= p / (n - 1) as real <= 1.0 && Position(n, p / (n - 1) as real) == p
  {
    var d, f := (n - 1) as real, p / (n - 1) as real;
    assert d * f == p;
    if f > 1.0 { StrictScale(1.0, f, d); }
    if f < 0.0 { StrictScale(f, 0.0, d); }
  }

  /** Between two neighbouring ranks the percentile, in the list form and in the SQL form, is the straight line from
      one value to the other. */
  lemma PercentileIsLinear(ordered: seq<real>, k: nat, p: real)
    requires k + 1 < |ordered| && k as real <= p <= (k + 1) as real
    ensures 0.0 <= p / (|ordered| - 1) as real <= 1.0
    ensures var fraction := p / (|ordered| - 1) as real;
      && SqlPercentile(ordered, |ordered|, fraction) == Percentile(ordered, fraction)
      && Percentile(ordered, fraction).Some?
      && Percentile(ordered, fraction).value - ordered[k] == (p - k as real) * (ordered[k + 1] - ordered[k])
  {
    var n := |ordered|;
    var fraction := p / (n - 1) as real;
    PositionOfRatio(n, p);
    SqlPercentileAgrees(ordered, fraction);
    PercentileIsCurve(ordered, fraction);
    hide Position, SqlPercentile, Percentile, Blend;
    if p < (k + 1) as real {
      assert p.Floor == k;
      BlendLine(ordered[k], ordered[k + 1], p - k as real);
    } else {
      assert p.Floor == k + 1 && p - (k + 1) as real == 0.0;
      BlendEnds(ordered[k + 1], ordered[Min(k + 2, n - 1)]);
    }
  }

  /** The point at fraction `w` of the way from `a` to `b`. */
  function PartWay(a: real, b: real, w: real): real {
    a + w * (b - a)
  }

  /** The q-th quartile of n values lies at rank q (n - 1) / 4: r quarters of the way from rank k to the next. */
  lemma QuartileIsLinear(ordered: seq<real>, q: nat, k: nat, r: nat)
    requires |ordered| > 1 && q <= 4 && q * (|ordered| - 1) == 4 * k + r && r < 4
    ensures 0.0 <= q as real / 4.0 <= 1.0 && k < |ordered|
    ensures var low, high := ordered[k], ordered[Min(k + 1, |ordered| - 1)];
      Percentile(ordered, q as real / 4.0) == Some(PartWay(low, high, r as real / 4.0))
  {
    QuartilePosition(|ordered|, q, k, r);
    hide Position, Percentile, Curve, PartWay;
    PercentileIsCurve(ordered, q as real / 4.0);
    CurveAt(ordered, k, r as real / 4.0);
  }

  lemma CurveAt(ordered: seq<real>, k: nat, w: real)
    requires k < |ordered| && 0.0 <= w < 1.0 && k as real + w <= (|ordered| - 1) as real
    ensures Curve(ordered, k as real + w)
         == PartWay(ordered[k], ordered[Min(k + 1, |ordered| - 1)], w)
  {
    var p := k as real + w;
    assert p.Floor == k && p - k as real == w;
    hide Blend, PartWay;
    BlendLine(ordered[k], ordered[Min(k + 1, |ordered| - 1)], w);
  }

  lemma BlendLine(a: real, b: real, w: real)
    ensures Blend(a, b, w) == PartWay(a, b, w) == a + w * (b - a)
  {
  }

  lemma QuartilePosition(n: nat, q: nat, k: nat, r: nat)
    requires n > 1 && q <= 4 && q * (n - 1) == 4 * k + r && r < 4
    ensures k < n && Position(n, q as real / 4.0) == k as real + r as real / 4.0
  {
    assert Position(n, q as real / 4.0) == (q * (n - 1)) as real / 4.0;
    assert q * (n - 1) <= 4 * (n - 1);
  }

  /** The library median: the middle value, or the mean of the two middle values. */
  function Median(ordered: seq<real>): real
    requires ordered != []
  {
    var half := |ordered| / 2;
    if |ordered| % 2 == 1 then ordered[half] else (ordered[half - 1] + ordered[half]) / 2.0
  }

  lemma MiddlePosition(n: nat)
    requires n >= 1
    ensures Position(n, 0.5) == if n % 2 == 1 then (n / 2) as real else (n / 2 - 1) as real + 0.5
  {
    assert n == 2 * (n / 2) + n % 2;
  }

  lemma MedianIsPercentile(ordered: seq<real>)
    requires ordered != []
    ensures Percentile(ordered, 0.5) == Some(Median(ordered))
  {
    var n := |ordered|;
    MiddlePosition(n);
    hide Position, Blend;
    PercentileIsCurve(ordered, 0.5);
    var lower := Position(n, 0.5).Floor;
    assert lower == if n % 2 == 1 then n / 2 else n / 2 - 1;
    BlendEnds(ordered[lower], ordered[Min(lower + 1, n - 1)]);
  }

  lemma PercentileEnds(ordered: seq<real>)
    requires ordered != []
    ensures Percentile(ordered, 0.0) == Some(ordered[0])
    ensures Percentile(ordered, 1.0) == Some(ordered[|ordered| - 1])
  {
    assert Position(|ordered|, 0.0) == 0.0 && Position(|ordered|, 1.0) == (|ordered| - 1) as real;
    hide Position, Blend;
    PercentileIsCurve(ordered, 0.0);
    PercentileIsCurve(ordered, 1.0);
    BlendEnds(ordered[0], ordered[Min(1, |ordered| - 1)]);
    BlendEnds(ordered[|ordered| - 1], ordered[|ordered| - 1]);
  }

  /** min <= q1 <= median <= q3 <= max for every non-empty distribution, in both forms. */
  lemma QuartilesAreOrdered(ordered: seq<real>)
    requires Sorted(ordered) && ordered != []
    ensures var q1, q3 := Percentile(ordered, 0.25).value, Percentile(ordered, 0.75).value;
            ordered[0] <= q1 <= Median(ordered) <= q3 <= ordered[|ordered| - 1]
    ensures var n := |ordered|;
            && SqlPercentile(ordered, n, 0.25) == Percentile(ordered, 0.25)
            && SqlPercentile(ordered, n, 0.5) == Some(Median(ordered))
            && SqlPercentile(ordered, n, 0.75) == Percentile(ordered, 0.75)
  {
    PercentileEnds(ordered);
    MedianIsPercentile(ordered);
    PercentileMonotone(ordered, 0.0, 0.25);
    PercentileMonotone(ordered, 0.25, 0.5);
    PercentileMonotone(ordered, 0.5, 0.75);
    PercentileMonotone(ordered, 0.75, 1.0);
    SqlPercentileAgrees(ordered, 0.25);
    SqlPercentileAgrees(ordered, 0.5);
    SqlPercentileAgrees(ordered, 0.75);
    hide Percentile, SqlPercentile, Median;
  }

  // ---------------------------------------------------------------- histograms

  datatype Bin = Bin(lower: real, upper: real, count: nat)

  /** Bin `i` of `bins`: half-open, except that the last one also holds everything above. */
  predicate InBin(low: real, width: real, bins: nat, i: nat, v: real) {
    low + i as real * width <= v && (i + 1 < bins ==> v < low + (i + 1) as real * width)
  }

  function CountIn(low: real, width: real, bins: nat, i: nat, values: seq<real>): nat {
    if values == [] then 0
    else
      CountIn(low, width, bins, i, values[..|values| - 1])
      + if InBin(low, width, bins, i, values[|values| - 1]) then 1 else 0
  }

  function Sum(counts: seq<nat>): nat {
    if counts == [] then 0 else Sum(counts[..|counts| - 1]) + counts[|counts| - 1]
  }

  function Width(low: real, high: real, bins: nat): real
    requires bins > 0
  {
    (high - low) / bins as real
  }

  /** The bins a histogram of `values` has to show. */
  function HistogramOf(values: seq<real>, low: real, high: real, bins: nat): seq<Bin>
    requires bins > 0
  {
    if low == high then [Bin(low, high, |values|)]
    else
      var width := Width(low, high, bins);
      seq(bins, i requires 0 <= i < bins =>
        Bin(low + i as real * width, low + (i + 1) as real * width, CountIn(low, width, bins, i, values)))
  }

  lemma WidthPositive(low: real, high: real, bins: nat)
    requires low < high && bins > 0
    ensures Width(low, high, bins) > 0.0
    ensures low + bins as real * Width(low, high, bins) == high
  {
  }

  lemma QuotientAtLeast(x: real, w: real, i: real)
    requires w > 0.0
    ensures i <= x / w <==> i * w <= x
  {
    var q := x / w;
    assert q * w == x;
    if i <= q { Scale(i, q, w); } else { StrictScale(q, i, w); }
  }

  lemma FloorAtLeast(x: real, w: real, i: int)
    requires w > 0.0
    ensures i <= (x / w).Floor <==> i as real * w <= x
  {
    QuotientAtLeast(x, w, i as real);
  }

  /** Python's `int`: truncation toward zero. */
  function Truncate(x: real): int {
    if x >= 0.0 then x.Floor else -(-x).Floor
  }

  function BinIndex(low: real, width: real, bins: nat, v: real): int
    requires width > 0.0
  {
    var index := Truncate((v - low) / width);
    if index <= bins - 1 then index else bins - 1
  }

  /** A value at or above `low` falls in the bin of its index and in no other. */
  lemma OneBinEach(low: real, width: real, bins: nat, v: real, i: nat)
    requires width > 0.0 && low <= v && bins > 0 && i < bins
    ensures 0 <= BinIndex(low, width, bins, v) < bins
    ensures InBin(low, width, bins, i, v) <==> i == BinIndex(low, width, bins, v)
  {
    var x := v - low;
    FloorAtLeast(x, width, 0);
    FloorAtLeast(x, width, i);
    FloorAtLeast(x, width, i + 1);
    assert InBin(low, width, bins, i, v) <==>
      i as real * width <= x && (i + 1 < bins ==> !((i + 1) as real * width <= x));
  }

  lemma {:induction false} SumUpdate(counts: seq<nat>, i: nat)
    requires i < |counts|
    ensures Sum(counts[i := counts[i] + 1]) == Sum(counts) + 1
  {
    var after := counts[i := counts[i] + 1];
    var last := |counts| - 1;
    if i < last {
      assert after[..last] == counts[..last][i := counts[i] + 1];
      SumUpdate(counts[..last], i);
    } else {
      assert after[..last] == counts[..last];
    }
  }

  lemma {:induction false} SumZero(counts: seq<nat>)
    requires forall i :: 0 <= i < |counts| ==> counts[i] == 0
    ensures Sum(counts) == 0
  {
    if counts != [] { SumZero(counts[..|counts| - 1]); }
  }

  /** Every value is counted once, in the bin it lies in. */
  method Histogram(values: seq<real>, bins: nat) returns (histogram: seq<Bin>)
    requires values != [] && Sorted(values) && bins > 0
    ensures histogram == HistogramOf(values, values[0], values[|values| - 1], bins)
    ensures |histogram| == (if values[0] == values[|values| - 1] then 1 else bins)
    ensures Sum(seq(|histogram|, i requires 0 <= i < |histogram| => histogram[i].count)) == |values|
  {
    hide InBin, BinIndex, Width;
    var low, high := values[0], values[|values| - 1];
    if low == high {
      histogram := [Bin(low, high, |values|)];
      assert seq(1, i requires 0 <= i < 1 => histogram[i].count) == [|values|];
      assert Sum([|values|]) == |values| by { assert [|values|][..0] == []; }
      return;
    }
    var width := Width(low, high, bins);
    WidthPositive(low, high, bins);
    var counts := seq(bins, _ => 0);
    SumZero(counts);
    for k := 0 to |values|
      invariant |counts| == bins && Sum(counts) == k
      invariant forall i :: 0 <= i < bins ==> counts[i] == CountIn(low, width, bins, i, values[..k])
    {
      var index := BinIndex(low, width, bins, values[k]);
      OneBinEach(low, width, bins, values[k], 0);
      forall i | 0 <= i < bins ensures InBin(low, width, bins, i, values[k]) <==> i == index
      {
        OneBinEach(low, width, bins, values[k], i);
      }
      SumUpdate(counts, index);
      assert values[..k + 1][..k] == values[..k];
      counts := counts[index := counts[index] + 1];
    }
    assert values[..|values|] == values;
    histogram := seq(bins, i requires 0 <= i < bins =>
      Bin(low + i as real * width, low + (i + 1) as real * width, counts[i]));
    assert seq(bins, i requires 0 <= i < bins => histogram[i].count) == counts;
  }

  /** The positions of the values between two edges; the last bin includes its upper edge and all above. */
  function Between(values: seq<real>, lower: real, upper: real, last: bool): set<nat> {
    set k | 0 <= k < |values| && lower <= values[k] && (last || values[k] < upper)
  }

  function Edge(low: real, width: real, i: nat): real {
    low + i as real * width
  }

  lemma InBinByEdges(low: real, width: real, bins: nat, i: nat, v: real)
    ensures InBin(low, width, bins, i, v)
       <==> Edge(low, width, i) <= v && (i + 1 < bins ==> v < Edge(low, width, i + 1))
  {
  }

  lemma {:induction false} CountIsBetween(low: real, width: real, bins: nat, i: nat, values: seq<real>)
    requires i < bins
    ensures CountIn(low, width, bins, i, values)
         == |Between(values, Edge(low, width, i), Edge(low, width, i + 1), i == bins - 1)|
  {
    hide Edge, InBin;
    var lower, upper, last := Edge(low, width, i), Edge(low, width, i + 1), i == bins - 1;
    if values != [] {
      var n := |values| - 1;
      CountIsBetween(low, width, bins, i, values[..n]);
      InBinByEdges(low, width, bins, i, values[n]);
      var before, all := Between(values[..n], lower, upper, last), Between(values, lower, upper, last);
      if InBin(low, width, bins, i, values[n]) {
        assert all == before + {n};
      } else {
        assert all == before;
      }
    }
  }

  /** The bins shown: they start at the minimum, touch, and end at the maximum, and each counts the values between its
      own edges. Equal values make a single bin. */
  lemma ShownBins(values: seq<real>, low: real, high: real, bins: nat)
    requires low <= high && bins > 0
    ensures var h := HistogramOf(values, low, high, bins);
      && h != [] && h[0].lower == low && h[|h| - 1].upper == high
      && |h| == (if low == high then 1 else bins)
      && (forall i :: 0 < i < |h| ==> h[i].lower == h[i - 1].upper)
      && (low < high ==> forall i :: 0 <= i < |h| ==>
            && h[i].upper - h[i].lower == (high - low) / bins as real
            && h[i].count == |Between(values, h[i].lower, h[i].upper, i == |h| - 1)|)
      && (low == high ==> h[0].count == |values|)
  {
    if low < high {
      EdgeEnds(low, high, bins);
      HistogramLength(values, low, high, bins);
      hide HistogramOf, CountIn, Between, Width, Edge;
      var h := HistogramOf(values, low, high, bins);
      BinByEdges(values, low, high, bins, 0);
      BinByEdges(values, low, high, bins, bins - 1);
      forall i | 0 <= i < bins
        ensures h[i].upper - h[i].lower == (high - low) / bins as real
        ensures h[i].count == |Between(values, h[i].lower, h[i].upper, i == bins - 1)|
        ensures i > 0 ==> h[i].lower == h[i - 1].upper
      {
        ShownBin(values, low, high, bins, i);
        BinByEdges(values, low, high, bins, i);
        if i > 0 { BinByEdges(values, low, high, bins, i - 1); }
      }
    }
  }

  lemma EdgeEnds(low: real, high: real, bins: nat)
    requires low < high && bins > 0
    ensures Edge(low, Width(low, high, bins), 0) == low && Edge(low, Width(low, high, bins), bins) == high
  {
    WidthPositive(low, high, bins);
  }

  lemma HistogramLength(values: seq<real>, low: real, high: real, bins: nat)
    requires low < high && bins > 0
    ensures |HistogramOf(values, low, high, bins)| == bins
  {
  }

  lemma ShownBin(values: seq<real>, low: real, high: real, bins: nat, i: nat)
    requires low < high && i < bins
    ensures var bin := HistogramOf(values, low, high, bins)[i];
      && bin.upper - bin.lower == (high - low) / bins as real
      && bin.count == |Between(values, bin.lower, bin.upper, i == bins - 1)|
  {
    var width := Width(low, high, bins);
    BinByEdges(values, low, high, bins, i);
    OneWidth(low, width, i);
    hide CountIn, Between, Edge, HistogramOf;
    CountIsBetween(low, width, bins, i, values);
  }

  lemma BinByEdges(values: seq<real>, low: real, high: real, bins: nat, i: nat)
    requires low < high && i < bins
    ensures var width := Width(low, high, bins);
      HistogramOf(values, low, high, bins)[i]
      == Bin(Edge(low, width, i), Edge(low, width, i + 1), CountIn(low, width, bins, i, values))
  {
    hide CountIn, Width;
  }

  lemma OneWidth(low: real, width: real, i: nat)
    ensures Edge(low, width, i + 1) - Edge(low, width, i) == width
  {
  }

  // ---------------------------------------------------------------- the SQL histogram

  function SqlBucket(low: real, width: real, bins: nat, v: real): int
    requires width > 0.0
  {
    var raw := Truncate((v - low) / width);
    if raw < 0 then 0 else if raw >= bins then bins - 1 else raw
  }

  /** How many rows the GROUP BY puts under bucket `i`, or zero when it has no such group. */
  function GroupCount(low: real, width: real, bins: nat, i: nat, rows: seq<real>): nat
    requires width > 0.0
  {
    if rows == [] then 0
    else
      GroupCount(low, width, bins, i, rows[..|rows| - 1])
      + if SqlBucket(low, width, bins, rows[|rows| - 1]) == i then 1 else 0
  }

  function SqlHistogram(rows: seq<real>, low: real, high: real, bins: nat): seq<Bin>
    requires low <= high && bins > 0
  {
    if low == high then [Bin(low, high, |rows|)]
    else
      WidthPositive(low, high, bins);
      var width := Width(low, high, bins);
      seq(bins, i requires 0 <= i < bins =>
        Bin(low + i as real * width, low + (i + 1) as real * width, GroupCount(low, width, bins, i, rows)))
  }

  lemma {:induction false} GroupCountIsCountIn(low: real, width: real, bins: nat, i: nat, rows: seq<real>)
    requires width > 0.0 && bins > 0 && i < bins && forall k :: 0 <= k < |rows| ==> low <= rows[k]
    ensures GroupCount(low, width, bins, i, rows) == CountIn(low, width, bins, i, rows)
  {
    if rows != [] {
      var v := rows[|rows| - 1];
      GroupCountIsCountIn(low, width, bins, i, rows[..|rows| - 1]);
      OneBinEach(low, width, bins, v, i);
      FloorAtLeast(v - low, width, 0);
      assert SqlBucket(low, width, bins, v) == BinIndex(low, width, bins, v);
    }
  }

  lemma {:induction false} CountInConcat(low: real, width: real, bins: nat, i: nat, a: seq<real>, b: seq<real>)
    ensures CountIn(low, width, bins, i, a + b) == CountIn(low, width, bins, i, a) + CountIn(low, width, bins, i, b)
    decreases |b|
  {
    if b == [] {
      assert a + b == a;
    } else {
      hide InBin;
      assert (a + b)[..|a + b| - 1] == a + b[..|b| - 1];
      CountInConcat(low, width, bins, i, a, b[..|b| - 1]);
    }
  }

  lemma {:induction false} CountInMultiset(low: real, width: real, bins: nat, i: nat, a: seq<real>, b: seq<real>)
    requires multiset(a) == multiset(b)
    ensures CountIn(low, width, bins, i, a) == CountIn(low, width, bins, i, b)
    decreases |a|
  {
    hide InBin;
    if a == [] {
      assert |multiset(b)| == |b|;
    } else {
      var last := [a[|a| - 1]];
      var left, right := TakeOut(a, b);
      CountInMultiset(low, width, bins, i, a[..|a| - 1], left + right);
      CountInConcat(low, width, bins, i, left, right);
      CountInConcat(low, width, bins, i, left, last + right);
      CountInConcat(low, width, bins, i, last, right);
      CountInConcat(low, width, bins, i, a[..|a| - 1], last);
      assert a == a[..|a| - 1] + last;
    }
  }

  /** The grouped query over the unordered table gives the same bins as the loop over the sorted list. */
  lemma SqlHistogramAgrees(rows: seq<real>, ordered: seq<real>, bins: nat)
    requires multiset(rows) == multiset(ordered) && Sorted(ordered) && ordered != [] && bins > 0
    ensures ordered[0] <= ordered[|ordered| - 1]
    ensures SqlHistogram(rows, ordered[0], ordered[|ordered| - 1], bins)
         == HistogramOf(ordered, ordered[0], ordered[|ordered| - 1], bins)
  {
    var low, high := ordered[0], ordered[|ordered| - 1];
    assert |rows| == |multiset(rows)| == |multiset(ordered)| == |ordered|;
    if low < high {
      WidthPositive(low, high, bins);
      var width := Width(low, high, bins);
      forall k | 0 <= k < |rows| ensures low <= rows[k] {
        assert rows[k] in multiset(rows);
        var j := PlaceOf(rows[k], ordered);
      }
      forall i | 0 <= i < bins
        ensures GroupCount(low, width, bins, i, rows) == CountIn(low, width, bins, i, ordered)
      {
        GroupCountIsCountIn(low, width, bins, i, rows);
        CountInMultiset(low, width, bins, i, rows, ordered);
      }
    }
  }

  // ---------------------------------------------------------------- the evidence sample

  function CeilDiv(a: nat, b: nat): nat
    requires b > 0
  {
    (a + b - 1) / b
  }

  function Stride(total: nat, limit: nat): (stride: nat)
    requires limit > 0
    ensures stride >= 1
  {
    if CeilDiv(total, limit) >= 1 then CeilDiv(total, limit) else 1
  }

  /** Row ordinals below `total` that the modulus keeps, in order. */
  function Kept(total: nat, stride: nat): seq<nat>
    requires stride > 0
  {
    if total == 0 then []
    else Kept(total - 1, stride) + if (total - 1) % stride == 0 then [total - 1] else []
  }

  function Sampled(total: nat, limit: nat): seq<nat>
    requires limit > 0
  {
    var kept := Kept(total, Stride(total, limit));
    kept[..Min(|kept|, limit)]
  }

  lemma CeilDivStep(n: nat, d: nat)
    requires d > 0
    ensures CeilDiv(n + 1, d) == CeilDiv(n, d) + if n % d == 0 then 1 else 0
    ensures n % d == 0 ==> CeilDiv(n, d) * d == n
  {
    var q, r := n / d, n % d;
    assert n == q * d + r;
    DivUnique(n + d, d, q + 1, r);
    if r == 0 { DivUnique(n + d - 1, d, q, d - 1); } else { DivUnique(n + d - 1, d, q + 1, r - 1); }
  }

  lemma DivUnique(n: int, d: int, q: int, r: int)
    requires d > 0 && n == q * d + r && 0 <= r < d
    ensures n / d == q
  {
    assert n == n / d * d + n % d;
    if n / d < q { MulStep(n / d, q, d); } else if q < n / d { MulStep(q, n / d, d); }
  }

  lemma TimesNat(a: nat, b: nat)
    ensures a * b >= 0
  {
  }

  lemma MulStep(a: int, b: int, d: int)
    requires a < b && d > 0
    ensures a * d + d <= b * d
  {
    TimesNat(b - a - 1, d);
    assert (b - a - 1) * d == b * d - a * d - d;
  }

  lemma {:induction false} KeptAreMultiples(total: nat, stride: nat)
    requires stride > 0
    ensures |Kept(total, stride)| == CeilDiv(total, stride)
    ensures forall j :: 0 <= j < |Kept(total, stride)| ==> Kept(total, stride)[j] == j * stride
  {
    if total == 0 {
      DivUnique(stride - 1, stride, 0, stride - 1);
    } else {
      hide CeilDiv;
      KeptAreMultiples(total - 1, stride);
      CeilDivStep(total - 1, stride);
    }
  }

  /**
   * The LIMIT never cuts the sample: it is exactly the multiples of the stride, from row 0 on, over
   * the whole table; and every row is returned when the table is no larger than the limit.
   */
  lemma SampleIsEvenlySpaced(total: nat, limit: nat)
    requires limit > 0
    ensures |Sampled(total, limit)| == CeilDiv(total, Stride(total, limit)) <= limit
    ensures forall j :: 0 <= j < |Sampled(total, limit)| ==> Sampled(total, limit)[j] == j * Stride(total, limit)
    ensures total <= limit ==> |Sampled(total, limit)| == total
    ensures Stride(total, limit) == 1 || (Stride(total, limit) - 1) * limit < total
  {
    StrideIsLeast(total, limit);
    var stride := Stride(total, limit);
    KeptAreMultiples(total, stride);
    CeilCovers(total, limit);
    CeilAtMost(total, stride, limit);
    if 0 < total <= limit { DivUnique(total + limit - 1, limit, 1, total - 1); }
  }

  /** A smaller stride would give more rows than the limit. */
  lemma StrideIsLeast(total: nat, limit: nat)
    requires limit > 0
    ensures Stride(total, limit) == 1 || (Stride(total, limit) - 1) * limit < total
  {
    var n := total + limit - 1;
    assert n == n / limit * limit + n % limit;
    assert (n / limit - 1) * limit == n / limit * limit - limit;
  }

  lemma CeilCovers(total: nat, limit: nat)
    requires limit > 0
    ensures total <= Stride(total, limit) * limit
  {
    var n := total + limit - 1;
    assert n == n / limit * limit + n % limit;
    if CeilDiv(total, limit) == 0 { assert n / limit * limit == 0; }
  }

  lemma CeilAtMost(total: nat, d: nat, limit: nat)
    requires d > 0 && total <= d * limit
    ensures CeilDiv(total, d) <= limit
  {
    var n := total + d - 1;
    assert n == n / d * d + n % d;
    if limit < n / d { MulStep(limit, n / d, d); }
  }
}
