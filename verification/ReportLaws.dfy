/** What the numbers of a report and of a measurement are, as sums and counts over the instances. */
module ReportLaws {
  import opened Prelude
  import opened Pixels
  import opened Postprocessing
  import opened AnalysisRun

  function Total(values: seq<real>): real {
    if values == [] then 0.0 else Total(values[..|values| - 1]) + values[|values| - 1]
  }

  lemma TotalStep(values: seq<real>, v: real)
    ensures Total(values + [v]) == Total(values) + v
  {
    assert (values + [v])[..|values|] == values;
  }

  /** `n / d` times `d` is `n`. */
  lemma Share(n: real, d: real)
    requires d != 0.0
    ensures n / d * d == n
  {
  }

  // ----- the quality gate

  /** The confidences that are given, in order. */
  function Given(instances: seq<Instance>): seq<real> {
    if instances == [] then []
    else
      var before, last := Given(instances[..|instances| - 1]), instances[|instances| - 1].confidence;
      if last.Some? then before + [last.value] else before
  }

  lemma {:induction false} SumOfGiven(instances: seq<Instance>)
    ensures ConfidenceSum(instances) == (Total(Given(instances)), |Given(instances)|)
  {
    if instances != [] {
      var before, last := instances[..|instances| - 1], instances[|instances| - 1].confidence;
      SumOfGiven(before);
      if last.Some? { TotalStep(Given(before), last.value); }
    }
  }

  /** The mean confidence times the number of given confidences is their sum; without any there is no mean. */
  lemma MeanIsOfGiven(instances: seq<Instance>)
    ensures MeanConfidence(instances).None? <==> Given(instances) == []
    ensures MeanConfidence(instances).Some? ==>
      MeanConfidence(instances).value * |Given(instances)| as real == Total(Given(instances))
  {
    hide ConfidenceSum, Given, Total;
    SumOfGiven(instances);
    if Given(instances) != [] { Share(Total(Given(instances)), |Given(instances)| as real); }
  }

  /** The positions of the instances smaller than `cutoff`. */
  function SmallerThan(instances: seq<Instance>, cutoff: nat): set<nat> {
    set k | 0 <= k < |instances| && instances[k].area < cutoff
  }

  lemma {:induction false} SmallerIsCount(instances: seq<Instance>, cutoff: nat)
    ensures Smaller(instances, cutoff) == |SmallerThan(instances, cutoff)|
  {
    if instances != [] {
      var before, last := instances[..|instances| - 1], |instances| - 1;
      SmallerIsCount(before, cutoff);
      SmallerLast(instances, cutoff);
      hide SmallerThan;
    }
  }

  lemma SmallerLast(instances: seq<Instance>, cutoff: nat)
    requires instances != []
    ensures var last := |instances| - 1;
      var before := SmallerThan(instances[..last], cutoff);
      && last !in before
      && SmallerThan(instances, cutoff) == before + if instances[last].area < cutoff then {last} else {}
  {
  }

  /** The fragment ratio is the share of instances below twice the minimum area, or below one pixel if that is more. */
  lemma FragmentsAreSmall(instances: seq<Instance>, minArea: nat)
    ensures FragmentRatio(instances, minArea) * |instances| as real
         == |SmallerThan(instances, if 2 * minArea >= 1 then 2 * minArea else 1)| as real
    ensures instances == [] ==> FragmentRatio(instances, minArea) == 0.0
  {
    var cutoff := if 2 * minArea >= 1 then 2 * minArea else 1;
    SmallerIsCount(instances, cutoff);
    if instances != [] { Share(Smaller(instances, cutoff) as real, |instances| as real); }
  }

  lemma EdgesAreShare(boundary: nat, candidates: nat)
    requires boundary <= candidates
    ensures EdgeRatio(boundary, candidates) * candidates as real == boundary as real
    ensures candidates == 0 ==> EdgeRatio(boundary, candidates) == 0.0
  {
    if candidates > 0 { Share(boundary as real, candidates as real); }
  }

  // ----- the measurements

  function Perimeters(geometry: Geometry, instances: seq<Instance>): seq<real> {
    seq(|instances|, i requires 0 <= i < |instances| => geometry.perimeter(instances[i].mask))
  }

  function Diameters(geometry: Geometry, instances: seq<Instance>): seq<real> {
    seq(|instances|, i requires 0 <= i < |instances| => geometry.diameter(|instances[i].mask|))
  }

  lemma {:induction false} TotalsAreSums(geometry: Geometry, instances: seq<Instance>)
    ensures TotalPerimeter(geometry, instances) == Total(Perimeters(geometry, instances))
    ensures TotalDiameter(geometry, instances) == Total(Diameters(geometry, instances))
  {
    if instances != [] {
      var n := |instances| - 1;
      TotalsAreSums(geometry, instances[..n]);
      assert Perimeters(geometry, instances)[..n] == Perimeters(geometry, instances[..n]);
      assert Diameters(geometry, instances)[..n] == Diameters(geometry, instances[..n]);
    }
  }

  /** Each number of the summary, multiplied out: coverage and densities over the region, means over the instances. */
  lemma SummaryMeans(geometry: Geometry, instances: seq<Instance>, area: nat, scale: Option<real>)
    requires area > 0 && (scale.Some? ==> scale.value > 0.0)
    ensures var s := SummaryOf(geometry, instances, area, scale);
      && s.particleCount == |instances| && s.roiArea == area
      && s.coverage * area as real == |UnionOf(instances)| as real
      && s.densityPx * area as real == |instances| as real
      && s.perimeterPx * area as real == Total(Perimeters(geometry, instances))
      && (s.meanPx.None? <==> instances == [])
      && (s.meanPx.Some? ==> s.meanPx.value * |instances| as real == Total(Diameters(geometry, instances)))
      && (s.meanNm.Some? <==> instances != [] && scale.Some?)
      && (s.densityUm.Some? <==> scale.Some?) && (s.perimeterUm.Some? <==> scale.Some?)
  {
    TotalsAreSums(geometry, instances);
    hide TotalPerimeter, TotalDiameter, Total, UnionOf, SquareMicrometres;
    var n := |instances| as real;
    Share(|UnionOf(instances)| as real, area as real);
    Share(n, area as real);
    Share(TotalPerimeter(geometry, instances), area as real);
    if instances != [] { Share(TotalDiameter(geometry, instances), n); }
  }

  /** A particle's fields are those of its mask; its circularity is 4 pi A / P squared, at most 1. */
  lemma ParticleFields(geometry: Geometry, item: Instance, scale: Option<real>)
    ensures var p := ParticleOf(geometry, item, scale);
      var square := p.perimeter * p.perimeter;
      && p.index == item.index && p.box == item.box && p.confidence == item.confidence
      && p.area == |item.mask| && p.perimeter == geometry.perimeter(item.mask)
      && p.diameterPx == geometry.diameter(|item.mask|)
      && (p.diameterNm.Some? <==> scale.Some?)
      && (scale.Some? ==> p.diameterNm.value == p.diameterPx * scale.value)
      && (p.circularity.None? <==> p.perimeter == 0.0)
      && (p.circularity.Some? ==>
            var full := 4.0 * geometry.pi * |item.mask| as real;
            && (full < square ==> p.circularity.value * square == full)
            && (full >= square ==> p.circularity.value == 1.0))
  {
    var perimeter := geometry.perimeter(item.mask);
    assert Times(perimeter, perimeter) == perimeter * perimeter;
    if perimeter != 0.0 {
      var full, square := FourPi(geometry, |item.mask|), Times(perimeter, perimeter);
      CircularityIs(geometry, item.mask);
      Share(full, square);
      QuotientBelowOne(full, square);
      assert Per(full, square) == full / square;
      hide Circularity, Times, Per;
    }
  }

  lemma CircularityIs(geometry: Geometry, mask: Mask)
    requires geometry.perimeter(mask) != 0.0
    ensures var square := Times(geometry.perimeter(mask), geometry.perimeter(mask));
      && square > 0.0
      && (var raw := Per(FourPi(geometry, |mask|), square);
          Circularity(geometry, mask) == Some(if raw < 1.0 then raw else 1.0))
  {
    hide Times, Per, FourPi;
    SquarePositive(geometry.perimeter(mask));
  }

  lemma QuotientBelowOne(n: real, d: real)
    requires d > 0.0
    ensures n / d < 1.0 <==> n < d
  {
    var q := n / d;
    assert q * d == n;
    if q < 1.0 { SmallerProduct(q, 1.0, d); }
    if q >= 1.0 { NotSmallerProduct(1.0, q, d); }
  }

  lemma SmallerProduct(a: real, b: real, d: real)
    requires a < b && d > 0.0
    ensures a * d < b * d
  {
  }

  lemma NotSmallerProduct(a: real, b: real, d: real)
    requires a <= b && d > 0.0
    ensures a * d <= b * d
  {
  }
}
