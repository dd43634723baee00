/**
 * The numeric part of an analysis run: region, postprocessing, published mask and artifact, quality gate and
 * morphometry (app/analysis/application.py, morphometry.py, quality.py), over exact rationals.
 */
module AnalysisRun {
  import opened Prelude
  import opened Pixels
  import opened Postprocessing
  import opened PostprocessingLaws
  import opened SemanticSegments
  import opened RegionOfInterest
  import opened RunLength
  import opened InstanceArtifacts

  // ----- the union of the instances

  function UnionOf(instances: seq<Instance>): Mask {
    set k, p | 0 <= k < |instances| && p in instances[k].mask :: p
  }

  lemma UnionStep(instances: seq<Instance>, k: nat)
    requires k < |instances|
    ensures UnionOf(instances[..k + 1]) == UnionOf(instances[..k]) + instances[k].mask
  {
    assert forall j :: 0 <= j < k ==> instances[..k + 1][j] == instances[..k][j] == instances[j];
    assert instances[..k + 1][k] == instances[k];
  }

  method Union(instances: seq<Instance>) returns (union: Mask)
    ensures union == UnionOf(instances)
  {
    union := {};
    if instances == [] {
      return;
    }
    for k := 0 to |instances|
      invariant union == UnionOf(instances[..k])
    {
      UnionStep(instances, k);
      union := union + instances[k].mask;
    }
    assert instances[..|instances|] == instances;
  }

  // ----- morphometry

  /** Library or irrational quantities; any functions of the mask and its area will do. */
  datatype Geometry = Geometry(perimeter: Mask -> real, diameter: nat -> real, pi: real)

  datatype Particle = Particle(
    index: nat, area: nat, perimeter: real, diameterPx: real, diameterNm: Option<real>, circularity: Option<real>,
    box: Box, confidence: Option<real>)

  /** Densities and means in pixels, and in physical units when a scale is known. */
  datatype Summary = Summary(
    particleCount: nat, roiArea: nat, coverage: real, densityPx: real, densityUm: Option<real>,
    meanPx: Option<real>, meanNm: Option<real>, perimeterPx: real, perimeterUm: Option<real>)

  datatype Measured =
    | EmptyAnalysisRoi
    | BadScale
    | Measured(particles: seq<Particle>, summary: Summary, scaleMissing: bool)

  function FourPi(geometry: Geometry, area: nat): real {
    4.0 * geometry.pi * area as real
  }

  function Circularity(geometry: Geometry, mask: Mask): (c: Option<real>)
    ensures c.Some? ==> c.value <= 1.0
  {
    var perimeter := geometry.perimeter(mask);
    if perimeter == 0.0 then None
    else
      SquarePositive(perimeter);
      var raw := Per(FourPi(geometry, |mask|), Times(perimeter, perimeter));
      Some(if raw < 1.0 then raw else 1.0)
  }

  function Scaled(value: real, scale: Option<real>): Option<real> {
    if scale.None? then None else Some(value * scale.value)
  }

  function ParticleOf(geometry: Geometry, item: Instance, scale: Option<real>): Particle {
    var diameter := geometry.diameter(|item.mask|);
    Particle(item.index, |item.mask|, geometry.perimeter(item.mask), diameter, Scaled(diameter, scale),
             Circularity(geometry, item.mask), item.box, item.confidence)
  }

  function TotalPerimeter(geometry: Geometry, instances: seq<Instance>): real {
    if instances == [] then 0.0
    else TotalPerimeter(geometry, instances[..|instances| - 1]) + geometry.perimeter(instances[|instances| - 1].mask)
  }

  function TotalDiameter(geometry: Geometry, instances: seq<Instance>): real {
    if instances == [] then 0.0
    else TotalDiameter(geometry, instances[..|instances| - 1]) + geometry.diameter(|instances[|instances| - 1].mask|)
  }

  function Ratio(n: int, d: int): real
    requires d > 0
  {
    n as real / d as real
  }

  function Micrometres(scale: real): real {
    scale / 1000.0
  }

  function Times(a: real, b: real): real {
    a * b
  }

  lemma SquarePositive(x: real)
    requires x != 0.0
    ensures Times(x, x) > 0.0
  {
    if x > 0.0 { TimesPositive(x, x); } else { TimesPositive(-x, -x); }
  }

  lemma TimesPositive(a: real, b: real)
    requires a > 0.0 && b > 0.0
    ensures Times(a, b) > 0.0
  {
  }

  function Per(a: real, b: real): real
    requires b != 0.0
  {
    a / b
  }

  /** Square micrometres of one pixel. */
  function PixelArea(scale: real): (r: real)
    requires scale > 0.0
    ensures r > 0.0
  {
    TimesPositive(Micrometres(scale), Micrometres(scale));
    Times(Micrometres(scale), Micrometres(scale))
  }

  /** Square micrometres covered by `area` pixels. */
  function SquareMicrometres(area: nat, scale: real): (r: real)
    requires area > 0 && scale > 0.0
    ensures r > 0.0
  {
    TimesPositive(area as real, PixelArea(scale));
    Times(area as real, PixelArea(scale))
  }

  /** The image summary from the collected totals. */
  function Summarize(count: nat, area: nat, covered: nat, perimeter: real, diameter: real, scale: Option<real>): Summary
    requires area > 0 && (scale.Some? ==> scale.value > 0.0)
  {
    var mean := if count == 0 then None else Some(Per(diameter, count as real));
    var physical := if scale.None? then None else Some(SquareMicrometres(area, scale.value));
    Summary(
      count, area, Ratio(covered, area), Ratio(count, area),
      if physical.None? then None else Some(Per(count as real, physical.value)),
      mean, if mean.None? then None else Scaled(mean.value, scale),
      Per(perimeter, area as real),
      if physical.None? then None else Some(Per(perimeter * Micrometres(scale.value), physical.value)))
  }

  function SummaryOf(geometry: Geometry, instances: seq<Instance>, area: nat, scale: Option<real>): Summary
    requires area > 0 && (scale.Some? ==> scale.value > 0.0)
  {
    Summarize(|instances|, area, |UnionOf(instances)|, TotalPerimeter(geometry, instances),
              TotalDiameter(geometry, instances), scale)
  }

  method Measure(geometry: Geometry, instances: seq<Instance>, roi: Mask, scale: Option<real>)
      returns (result: Measured)
    ensures result.EmptyAnalysisRoi? <==> roi == {}
    ensures result.BadScale? <==> roi != {} && scale.Some? && scale.value <= 0.0
    ensures result.Measured? ==>
      && |roi| > 0 && (scale.Some? ==> scale.value > 0.0) && |result.particles| == |instances|
      && (forall k :: 0 <= k < |instances| ==> result.particles[k] == ParticleOf(geometry, instances[k], scale))
      && result.summary == SummaryOf(geometry, instances, |roi|, scale) && result.scaleMissing == scale.None?
  {
    hide Circularity;
    if |roi| == 0 {
      return EmptyAnalysisRoi;
    }
    if scale.Some? && scale.value <= 0.0 {
      return BadScale;
    }
    var particles: seq<Particle> := [];
    var union, perimeter, diameter := {}, 0.0, 0.0;
    for k := 0 to |instances|
      invariant union == UnionOf(instances[..k]) && perimeter == TotalPerimeter(geometry, instances[..k])
      invariant diameter == TotalDiameter(geometry, instances[..k])
      invariant |particles| == k && forall j :: 0 <= j < k ==> particles[j] == ParticleOf(geometry, instances[j], scale)
    {
      UnionStep(instances, k);
      assert instances[..k + 1][..k] == instances[..k];
      perimeter := perimeter + geometry.perimeter(instances[k].mask);
      diameter := diameter + geometry.diameter(|instances[k].mask|);
      union := union + instances[k].mask;
      particles := particles + [ParticleOf(geometry, instances[k], scale)];
    }
    assert instances[..|instances|] == instances;
    assert perimeter == TotalPerimeter(geometry, instances) && diameter == TotalDiameter(geometry, instances);
    hide Summarize;
    var summary := Summarize(|particles|, |roi|, |union|, perimeter, diameter, scale);
    result := Measured(particles, summary, scale.None?);
  }

  /** The physical densities are the pixel densities in other units. */
  lemma UnitsAgree(geometry: Geometry, instances: seq<Instance>, area: nat, scale: real)
    requires area > 0 && scale > 0.0
    ensures var s := SummaryOf(geometry, instances, area, Some(scale));
      && s.densityUm.value * ((scale / 1000.0) * (scale / 1000.0)) == s.densityPx
      && s.perimeterUm.value * (scale / 1000.0) == s.perimeterPx
      && (s.meanPx.Some? ==> s.meanNm.value == s.meanPx.value * scale)
  {
    hide TotalPerimeter, TotalDiameter, UnionOf;
    var um, perimeter := Micrometres(scale), TotalPerimeter(geometry, instances);
    Cancel(|instances| as real, area as real, PixelArea(scale));
    CancelSquare(perimeter, area as real, um);
  }

  /** `n / (d * u) * u` is `n / d`. */
  lemma Cancel(n: real, d: real, u: real)
    requires d > 0.0 && u > 0.0
    ensures Times(d, u) > 0.0 && n / Times(d, u) * u == n / d
  {
    TimesPositive(d, u);
    var q := n / Times(d, u);
    assert q * (d * u) == n;
    assert (q * u) * d == n;
  }

  lemma CancelSquare(n: real, d: real, u: real)
    requires d > 0.0 && u > 0.0
    ensures Times(u, u) > 0.0 && Times(d, Times(u, u)) > 0.0 && n * u / Times(d, Times(u, u)) * u == n / d
  {
    TimesPositive(u, u);
    Cancel(n * u, d, Times(u, u));
    var q := n * u / Times(d, Times(u, u));
    assert q * (d * (u * u)) == n * u;
    assert (q * u * d - n) * u == 0.0;
    assert q * u * d == n;
  }

  // ----- the quality gate

  datatype Gate = Gate(reviewLow: real, warnHigh: real, reviewHigh: real, confidenceBelow: real,
                       fragmentAbove: real, edgeAbove: real)

  datatype Status = Pass | Warn | ReviewRequired

  datatype Reason =
    | Validation(text: string)
    | ForegroundTooLow
    | ForegroundTooHigh
    | ForegroundHigh
    | ConfidenceLow
    | Fragments
    | EdgeTruncation
    | ScaleMissing

  datatype Advice = CheckModelAndRegion | CheckThresholdOrModel | ReviewOverlay | RaiseMinimumArea | EnlargeBox

  datatype Report = Report(
    status: Status, reasons: seq<Reason>, advice: seq<Advice>, foreground: real, confidence: Option<real>,
    fragments: real, edges: real, candidates: nat, boundary: nat, excluded: int)

  datatype Quality = EmptyRoiArea | BadDiagnostics | Reported(report: Report)

  /** The confidences that are present, summed and counted. */
  function ConfidenceSum(instances: seq<Instance>): (real, nat) {
    if instances == [] then (0.0, 0)
    else
      var rest, last := ConfidenceSum(instances[..|instances| - 1]), instances[|instances| - 1].confidence;
      if last.None? then rest else (rest.0 + last.value, rest.1 + 1)
  }

  function MeanConfidence(instances: seq<Instance>): Option<real> {
    var sum := ConfidenceSum(instances);
    if sum.1 == 0 then None else Some(sum.0 / sum.1 as real)
  }

  function Smaller(instances: seq<Instance>, cutoff: nat): nat {
    if instances == [] then 0
    else Smaller(instances[..|instances| - 1], cutoff) + if instances[|instances| - 1].area < cutoff then 1 else 0
  }

  function FragmentRatio(instances: seq<Instance>, minArea: nat): real {
    if instances == [] then 0.0
    else Ratio(Smaller(instances, if minArea * 2 > 1 then minArea * 2 else 1), |instances|)
  }

  function EdgeRatio(boundary: nat, candidates: nat): real {
    if candidates == 0 then 0.0 else Ratio(boundary, candidates)
  }

  /** Python's `list(dict.fromkeys(...))`: the first occurrence of each. */
  function Distinct<T(==)>(items: seq<T>): seq<T> {
    if items == [] then []
    else
      var before := Distinct(items[..|items| - 1]);
      if items[|items| - 1] in before then before else before + [items[|items| - 1]]
  }

  /** Why a result needs a human look. */
  predicate NeedsReview(gate: Gate, foreground: real) {
    foreground <= gate.reviewLow || foreground >= gate.reviewHigh
  }

  predicate Warns(gate: Gate, foreground: real, confidence: Option<real>, fragments: real, edges: real,
      validation: seq<string>) {
    || validation != []
    || (!NeedsReview(gate, foreground) && foreground >= gate.warnHigh)
    || (confidence.Some? && confidence.value < gate.confidenceBelow)
    || fragments > gate.fragmentAbove
    || edges > gate.edgeAbove
  }

  /** When each single reason is given. */
  predicate Applies(gate: Gate, foreground: real, confidence: Option<real>, fragments: real, edges: real,
                    validation: seq<string>, reason: Reason)
  {
    match reason
    case Validation(text) => text in validation
    case ForegroundTooLow => foreground <= gate.reviewLow
    case ForegroundTooHigh => foreground > gate.reviewLow && foreground >= gate.reviewHigh
    case ForegroundHigh => !NeedsReview(gate, foreground) && foreground >= gate.warnHigh
    case ConfidenceLow => confidence.Some? && confidence.value < gate.confidenceBelow
    case Fragments => fragments > gate.fragmentAbove
    case EdgeTruncation => edges > gate.edgeAbove
    case ScaleMissing => false
  }

  function Validations(texts: seq<string>): (r: seq<Reason>)
    ensures |r| == |texts|
  {
    seq(|texts|, i requires 0 <= i < |texts| => Validation(texts[i]))
  }

  lemma {:induction false} DistinctEmpty<T>(items: seq<T>)
    ensures Distinct(items) == [] <==> items == []
  {
    if items != [] { DistinctEmpty(items[..|items| - 1]); }
  }

  lemma {:induction false} DistinctMembers<T>(items: seq<T>, x: T)
    ensures x in Distinct(items) <==> x in items
  {
    if items != [] {
      DistinctMembers(items[..|items| - 1], x);
      assert items == items[..|items| - 1] + [items[|items| - 1]];
      if x == items[|items| - 1] { DistinctMembers(items[..|items| - 1], items[|items| - 1]); }
    }
  }

  /** Each entry of the list is a first occurrence, and they keep their order. */
  lemma {:induction false} DistinctKeepsFirst<T>(items: seq<T>) returns (at: seq<nat>)
    ensures |at| == |Distinct(items)| && forall i, j :: 0 <= i < j < |at| ==> at[i] < at[j]
    ensures forall i :: 0 <= i < |at| ==>
      at[i] < |items| && Distinct(items)[i] == items[at[i]] && items[at[i]] !in items[..at[i]]
  {
    if items == [] {
      at := [];
    } else {
      var last := |items| - 1;
      at := DistinctKeepsFirst(items[..last]);
      DistinctMembers(items[..last], items[last]);
      assert forall i :: 0 <= i < |at| ==> items[..last][..at[i]] == items[..at[i]];
      if items[last] !in Distinct(items[..last]) { at := at + [last]; }
    }
  }

  lemma ValidationMembers(texts: seq<string>, reason: Reason)
    ensures reason in Validations(texts) <==> reason.Validation? && reason.text in texts
  {
    if reason.Validation? && reason.text in texts {
      var i :| 0 <= i < |texts| && texts[i] == reason.text;
      assert Validations(texts)[i] == reason;
    }
  }

  function ReviewReasons(gate: Gate, foreground: real): seq<Reason> {
    if foreground <= gate.reviewLow then [ForegroundTooLow]
    else if foreground >= gate.reviewHigh then [ForegroundTooHigh]
    else []
  }

  function When<T>(condition: bool, item: T): seq<T> {
    if condition then [item] else []
  }

  /** The warnings in the order they are appended. */
  function WarningReasons(gate: Gate, foreground: real, confidence: Option<real>, fragments: real, edges: real,
                          validation: seq<string>): seq<Reason>
  {
    Distinct(Validations(validation))
    + When(!NeedsReview(gate, foreground) && foreground >= gate.warnHigh, ForegroundHigh)
    + When(confidence.Some? && confidence.value < gate.confidenceBelow, ConfidenceLow)
    + When(fragments > gate.fragmentAbove, Fragments)
    + When(edges > gate.edgeAbove, EdgeTruncation)
  }

  /** The recommendations in the order they are appended. */
  function AdviceList(gate: Gate, foreground: real, confidence: Option<real>, fragments: real,
      edges: real): seq<Advice> {
    When(foreground <= gate.reviewLow, CheckModelAndRegion)
    + When(foreground > gate.reviewLow && foreground >= gate.reviewHigh, CheckThresholdOrModel)
    + When(confidence.Some? && confidence.value < gate.confidenceBelow, ReviewOverlay)
    + When(fragments > gate.fragmentAbove, RaiseMinimumArea)
    + When(edges > gate.edgeAbove, EnlargeBox)
  }

  /** The recommendation that goes with a reason. */
  function AdviceFor(reason: Reason): Option<Advice> {
    match reason
    case ForegroundTooLow => Some(CheckModelAndRegion)
    case ForegroundTooHigh => Some(CheckThresholdOrModel)
    case ConfidenceLow => Some(ReviewOverlay)
    case Fragments => Some(RaiseMinimumArea)
    case EdgeTruncation => Some(EnlargeBox)
    case _ => None
  }

  /** A recommendation is made exactly when a reason it goes with is given. */
  lemma AdviceFollowsReasons(gate: Gate, foreground: real, confidence: Option<real>, fragments: real, edges: real,
                             validation: seq<string>, advice: Advice)
    ensures advice in Distinct(AdviceList(gate, foreground, confidence, fragments, edges))
       <==> exists reason :: AdviceFor(reason) == Some(advice)
              && Applies(gate, foreground, confidence, fragments, edges, validation, reason)
  {
    DistinctMembers(AdviceList(gate, foreground, confidence, fragments, edges), advice);
    hide Distinct;
    var reason :=
      match advice
      case CheckModelAndRegion => ForegroundTooLow
      case CheckThresholdOrModel => ForegroundTooHigh
      case ReviewOverlay => ConfidenceLow
      case RaiseMinimumArea => Fragments
      case EnlargeBox => EdgeTruncation;
    assert AdviceFor(reason) == Some(advice);
    assert forall r :: AdviceFor(r) == Some(advice) ==> r == reason;
  }

  function StatusOf(review: seq<Reason>, warnings: seq<Reason>): Status {
    if review != [] then ReviewRequired else if warnings != [] then Warn else Pass
  }

  /** The reasons of a report are exactly the conditions that hold, and they decide its status. */
  lemma ReasonsAreExact(gate: Gate, foreground: real, confidence: Option<real>, fragments: real, edges: real,
                        validation: seq<string>, reason: Reason)
    ensures var review := ReviewReasons(gate, foreground);
      var warnings := Distinct(WarningReasons(gate, foreground, confidence, fragments, edges, validation));
      && (reason in review + warnings <==> Applies(gate, foreground, confidence, fragments, edges, validation, reason))
      && (StatusOf(review, warnings) == ReviewRequired <==> NeedsReview(gate, foreground))
      && (StatusOf(review, warnings) == Warn
          <==> !NeedsReview(gate, foreground) && Warns(gate, foreground, confidence, fragments, edges, validation))
      && (review + warnings == [] <==> StatusOf(review, warnings) == Pass)
  {
    var all := WarningReasons(gate, foreground, confidence, fragments, edges, validation);
    DistinctMembers(all, reason);
    DistinctEmpty(all);
    DistinctEmpty(Validations(validation));
    DistinctMembers(Validations(validation), reason);
    ValidationMembers(validation, reason);
    hide Distinct;
  }

  /** The branches on the foreground ratio. */
  method JudgeForeground(gate: Gate, foreground: real, warnings0: seq<Reason>)
    returns (review: seq<Reason>, warnings: seq<Reason>, advice: seq<Advice>)
    ensures review == ReviewReasons(gate, foreground)
    ensures warnings == warnings0 + When(!NeedsReview(gate, foreground) && foreground >= gate.warnHigh, ForegroundHigh)
    ensures advice == When(foreground <= gate.reviewLow, CheckModelAndRegion)
                      + When(foreground > gate.reviewLow && foreground >= gate.reviewHigh, CheckThresholdOrModel)
  {
    review, warnings, advice := [], warnings0, [];
    if foreground <= gate.reviewLow {
      review, advice := review + [ForegroundTooLow], advice + [CheckModelAndRegion];
    } else if foreground >= gate.reviewHigh {
      review, advice := review + [ForegroundTooHigh], advice + [CheckThresholdOrModel];
    } else if foreground >= gate.warnHigh {
      warnings := warnings + [ForegroundHigh];
    }
  }

  /** One warning branch: a reason and its recommendation. */
  method WarnWhen(condition: bool, reason: Reason, recommended: Advice, warnings0: seq<Reason>, advice0: seq<Advice>)
    returns (warnings: seq<Reason>, advice: seq<Advice>)
    ensures warnings == warnings0 + When(condition, reason) && advice == advice0 + When(condition, recommended)
  {
    warnings, advice := warnings0, advice0;
    if condition {
      warnings, advice := warnings + [reason], advice + [recommended];
    }
  }

  /** The review, warning and recommendation lists, filled branch by branch. */
  method CollectReasons(gate: Gate, foreground: real, confidence: Option<real>, fragments: real, edges: real,
                        validation: seq<string>)
    returns (review: seq<Reason>, warnings: seq<Reason>, advice: seq<Advice>)
    ensures review == ReviewReasons(gate, foreground)
    ensures warnings == WarningReasons(gate, foreground, confidence, fragments, edges, validation)
    ensures advice == AdviceList(gate, foreground, confidence, fragments, edges)
  {
    hide Distinct, Validations, NeedsReview, ReviewReasons, When;
    review, warnings, advice := JudgeForeground(gate, foreground, Distinct(Validations(validation)));
    var unsure := confidence.Some? && confidence.value < gate.confidenceBelow;
    warnings, advice := WarnWhen(unsure, ConfidenceLow, ReviewOverlay, warnings, advice);
    warnings, advice := WarnWhen(fragments > gate.fragmentAbove, Fragments, RaiseMinimumArea, warnings, advice);
    warnings, advice := WarnWhen(edges > gate.edgeAbove, EdgeTruncation, EnlargeBox, warnings, advice);
  }

  /** The diagnostic counts, taken from the instances when the caller gives none. */
  function CandidateCount(given: Option<int>, instances: seq<Instance>): int {
    if given.Some? then given.value else |instances|
  }

  function BoundaryCount(given: Option<int>, instances: seq<Instance>): int {
    if given.Some? then given.value else Touching(instances)
  }

  method Evaluate(gate: Gate, roiArea: int, foregroundArea: int, instances: seq<Instance>, minArea: nat,
                  validation: seq<string>, candidatesGiven: Option<int>, boundaryGiven: Option<int>)
    returns (quality: Quality)
    ensures quality.EmptyRoiArea? <==> roiArea <= 0
    ensures
      var candidates, boundary := CandidateCount(candidatesGiven, instances), BoundaryCount(boundaryGiven, instances);
      && (quality.BadDiagnostics? <==> roiArea > 0 && !(0 <= boundary <= candidates))
      && (quality.Reported? ==>
            var r := quality.report;
            r.candidates == candidates && r.boundary == boundary && r.excluded == candidates - |instances|)
    ensures quality.Reported? ==>
      var r := quality.report;
      var warnings := Distinct(WarningReasons(gate, r.foreground, r.confidence, r.fragments, r.edges, validation));
      && r.foreground == Ratio(foregroundArea, roiArea) && r.confidence == MeanConfidence(instances)
      && r.fragments == FragmentRatio(instances, minArea) && r.edges == EdgeRatio(r.boundary, r.candidates)
      && r.reasons == ReviewReasons(gate, r.foreground) + warnings
      && r.advice == Distinct(AdviceList(gate, r.foreground, r.confidence, r.fragments, r.edges))
      && r.status == StatusOf(ReviewReasons(gate, r.foreground), warnings)
  {
    hide Ratio, MeanConfidence, FragmentRatio, EdgeRatio, Distinct, WarningReasons, ReviewReasons, AdviceList, Touching;
    if roiArea <= 0 {
      return EmptyRoiArea;
    }
    var foreground := Ratio(foregroundArea, roiArea);
    var confidence := MeanConfidence(instances);
    var fragments := FragmentRatio(instances, minArea);
    var candidates, boundary := CandidateCount(candidatesGiven, instances), BoundaryCount(boundaryGiven, instances);
    if candidates < 0 || boundary < 0 || boundary > candidates {
      return BadDiagnostics;
    }
    var edges := EdgeRatio(boundary, candidates);
    var review, warnings, advice := CollectReasons(gate, foreground, confidence, fragments, edges, validation);
    warnings := Distinct(warnings);
    var status := if review != [] then ReviewRequired else if warnings != [] then Warn else Pass;
    quality := Reported(Report(status, review + warnings, Distinct(advice), foreground, confidence, fragments, edges,
                               candidates, boundary, candidates - |instances|));
  }

  /** Counted from the instances themselves, the diagnostics are never inconsistent. */
  lemma {:induction false} DefaultCountsAgree(instances: seq<Instance>)
    ensures 0 <= BoundaryCount(None, instances) <= CandidateCount(None, instances)
  {
    if instances != [] { DefaultCountsAgree(instances[..|instances| - 1]); }
  }

  // ----- the run

  datatype Request = Request(shape: Shape, valid: Rect, invalid: seq<Rect>, mode: RoiMode, boxes: seq<RoiBox>,
                             profile: Profile, gate: Gate, scale: Option<real>, validation: seq<string>)
  {
    predicate Wellformed() {
      && valid.Wellformed() && (forall i :: 0 <= i < |invalid| ==> invalid[i].Wellformed())
      && forall i :: 0 <= i < |boxes| ==> boxes[i].rect.Wellformed()
    }
  }

  /** What the adapter returned, after its files were read. */
  datatype Output =
    | Native(masks: seq<Raw>, confidences: Option<seq<Option<real>>>)
    | Semantic(labelling: Labelling, raw: Raw, probability: Option<Probability>)

  /** Everything a completed run publishes. */
  datatype Published = Published(inferenceRect: Box, roi: Mask, result: Result, mask: Mask, artifact: Payload,
                                 report: Report, particles: seq<Particle>, summary: Summary)

  datatype Run =
    | RoiFailed(error: RoiError)
    | NoInferenceArea
    | WrongDimensions
    | BadOutput(outcome: Outcome)
    | BadArtifact
    | BadQualityInput
    | BadMeasurement(measured: Measured)
    | Completed(published: Published)

  function ContextOf(request: Request, roi: Mask, digest: Mask -> int): Context {
    Context(request.shape, roi, request.profile, digest)
  }

  ghost predicate Injective(digest: Mask -> int) {
    forall a, b :: digest(a) == digest(b) ==> a == b
  }

  /** What both postprocessing paths guarantee to the rest of the run. */
  ghost predicate Confined(roi: Mask, result: Result) {
    && (forall i :: 0 <= i < |result.instances| ==> result.instances[i].mask <= roi)
    && result.candidateCount == |result.instances| + result.excludedCount
    && result.boundaryCount <= result.candidateCount
  }

  lemma NativeConfined(context: Context, pairs: seq<Pair>)
    requires context.Valid()
    ensures Confined(context.roi, Normalize(context, pairs))
  {
    ResultShape(context, pairs);
    BorderAccounting(context, pairs);
    hide Normalize;
    var instances := Normalize(context, pairs).instances;
    forall i | 0 <= i < |instances| ensures instances[i].mask <= context.roi {
      assert Genuine(context, instances[i].(index := 0));
    }
  }

  lemma SemanticConfined(context: Context, labelling: Labelling, mask: Mask, probability: Option<Probability>)
    requires context.Valid() && Labels(context, labelling, mask)
    ensures Confined(context.roi, NormalizeMask(context, labelling, mask, probability))
  {
    hide Foreground, Labels, Segments, ApplyBorderPolicy, Finalize, Clean;
    PolicyAccounting(context, Segments(context, labelling, mask, probability));
    var instances := NormalizeMask(context, labelling, mask, probability).instances;
    forall i | 0 <= i < |instances| ensures instances[i].mask <= context.roi {
      SemanticInside(context, labelling, mask, probability, i);
    }
  }

  /** The postprocessing outcome of either kind of output. */
  function OutcomeOf(context: Context, output: Output): Outcome
    requires output.Semantic? ==> Labels(context, output.labelling, output.raw.mask)
  {
    match output
    case Native(masks, confidences) =>
      if confidences.Some? && |confidences.value| != |masks| then LengthMismatch
      else if exists i :: 0 <= i < |masks| && masks[i].shape != context.shape then ShapeMismatch
      else Normalized(Normalize(context, Paired(masks, confidences)))
    case Semantic(labelling, raw, probability) =>
      if raw.shape != context.shape || (probability.Some? && probability.value.shape != context.shape) then
        ShapeMismatch
      else Normalized(NormalizeMask(context, labelling, raw.mask, probability))
  }

  method NormalizeOutput(context: Context, output: Output) returns (outcome: Outcome)
    requires context.Valid() && (output.Semantic? ==> Labels(context, output.labelling, output.raw.mask))
    ensures outcome == OutcomeOf(context, output)
    ensures outcome.Normalized? ==> Confined(context.roi, outcome.result)
  {
    hide Normalize, NormalizeMask, Confined, Labels;
    match output
    case Native(masks, confidences) =>
      outcome := NormalizeNativeInstances(context, masks, confidences);
      if outcome.Normalized? { NativeConfined(context, Paired(masks, confidences)); }
    case Semantic(labelling, raw, probability) =>
      outcome := NormalizeSemanticMask(context, labelling, raw, probability);
      if outcome.Normalized? { SemanticConfined(context, labelling, raw.mask, probability); }
  }

  /** The OR of the masks a reader decodes from the artifact. */
  ghost function DecodedUnion(shape: Shape, artifact: Payload): Mask
    requires forall k :: 0 <= k < |artifact.instances| ==> Readable(shape, artifact.instances[k])
  {
    set k, p | 0 <= k < |artifact.instances| && p in MaskOf(shape, artifact.instances[k]) :: p
  }

  lemma {:induction false} Fraction(n: nat, d: nat)
    requires n <= d && d > 0
    ensures 0.0 <= Ratio(n, d) <= 1.0
  {
  }

  lemma {:induction false} SubsetSize(a: Mask, b: Mask)
    requires a <= b
    ensures |a| <= |b|
  {
    if a != b { SubsetIsSmaller(a, b); }
  }

  lemma UnionInside(instances: seq<Instance>, roi: Mask)
    requires forall i :: 0 <= i < |instances| ==> instances[i].mask <= roi
    ensures UnionOf(instances) <= roi
  {
  }

  lemma DecodedIsUnion(shape: Shape, artifact: Payload, instances: seq<Instance>)
    requires |artifact.instances| == |instances|
    requires forall k :: 0 <= k < |artifact.instances| ==> Readable(shape, artifact.instances[k])
    requires forall k :: 0 <= k < |instances| ==> MaskOf(shape, artifact.instances[k]) == instances[k].mask
    ensures DecodedUnion(shape, artifact) == UnionOf(instances)
  {
    hide MaskOf;
    forall p ensures p in DecodedUnion(shape, artifact) <==> p in UnionOf(instances) {
      if p in UnionOf(instances) {
        var k :| 0 <= k < |instances| && p in instances[k].mask;
        assert p in MaskOf(shape, artifact.instances[k]);
      }
    }
  }

  /** A semantic output comes with the library's labelling of its mask inside the region of this request. */
  ghost predicate Labelled(request: Request, digest: Mask -> int, output: Output) {
    output.Semantic? && RegionOf(request).Built? ==>
      Labels(ContextOf(request, RegionOf(request).mask, digest), output.labelling, output.raw.mask)
  }

  ghost predicate InRect(rect: Box, mask: Mask) {
    forall q :: q in mask ==> rect.x1 <= q.x < rect.x2 && rect.y1 <= q.y < rect.y2
  }

  /** How the published values of a run relate to each other. */
  ghost predicate Consistent(request: Request, p: Published) {
    && p.roi != {} && InRect(p.inferenceRect, p.roi) && Confined(p.roi, p.result)
    && p.mask == UnionOf(p.result.instances) && p.mask <= p.roi
    && (forall k :: 0 <= k < |p.artifact.instances| ==> Readable(request.shape, p.artifact.instances[k]))
    && DecodedUnion(request.shape, p.artifact) == p.mask
    && p.artifact.instanceCount == p.summary.particleCount == |p.result.instances| == |p.particles|
    && 0.0 <= p.summary.coverage <= 1.0 && p.summary.coverage == p.report.foreground
    && p.report.excluded == p.result.excludedCount
    && (p.summary.densityUm.Some? <==> request.scale.Some?)
    && (p.report.status == Pass ==> request.scale.Some?)
  }

  ghost function ReadBack(shape: Shape, r: Record): Instance
    requires Readable(shape, r)
  {
    Instance(r.index, MaskOf(shape, r), r.box, r.area, r.confidence, r.touches)
  }

  /** Record k of the artifact reads back as instance k, particle k is its measurement, and the summary sums them up. */
  ghost predicate Itemized(request: Request, geometry: Geometry, p: Published) {
    && p.roi != {} && (request.scale.Some? ==> request.scale.value > 0.0)
    && |p.artifact.instances| == |p.result.instances| == |p.particles|
    && (forall k :: 0 <= k < |p.artifact.instances| ==>
          && Readable(request.shape, p.artifact.instances[k])
          && ReadBack(request.shape, p.artifact.instances[k]) == p.result.instances[k])
    && (forall k :: 0 <= k < |p.particles| ==>
          p.particles[k] == ParticleOf(geometry, p.result.instances[k], request.scale))
    && p.summary == SummaryOf(geometry, p.result.instances, |p.roi|, request.scale)
  }

  /** The report judges exactly these instances: its ratios, reasons, recommendations and status follow from them. */
  ghost predicate Judged(request: Request, p: Published) {
    var gate, r := request.gate, p.report;
    && r.confidence == MeanConfidence(p.result.instances)
    && r.fragments == FragmentRatio(p.result.instances, request.profile.minArea)
    && r.candidates == p.result.candidateCount && r.boundary == p.result.boundaryCount
    && r.edges == EdgeRatio(r.boundary, r.candidates)
    && (var review := NeedsReview(gate, r.foreground);
        var warned := Warns(gate, r.foreground, r.confidence, r.fragments, r.edges, request.validation);
        && r.status == (if review then ReviewRequired else if warned || request.scale.None? then Warn else Pass)
        && forall reason :: reason in r.reasons <==>
             || Applies(gate, r.foreground, r.confidence, r.fragments, r.edges, request.validation, reason)
             || (reason == ScaleMissing && request.scale.None? && !review && !warned))
    && (forall advice :: advice in r.advice <==>
          exists reason :: AdviceFor(reason) == Some(advice)
            && Applies(gate, r.foreground, r.confidence, r.fragments, r.edges, request.validation, reason))
  }

  /** Physical scale missing downgrades a pass to a warning. */
  function WithScaleWarning(report: Report, scaleMissing: bool): Report {
    if scaleMissing && report.status == Pass then report.(status := Warn, reasons := report.reasons + [ScaleMissing])
    else report
  }

  lemma UnionSize(instances: seq<Instance>, roi: Mask)
    requires roi != {} && forall i :: 0 <= i < |instances| ==> instances[i].mask <= roi
    ensures UnionOf(instances) <= roi && |roi| > 0 && 0.0 <= Ratio(|UnionOf(instances)|, |roi|) <= 1.0
  {
    UnionInside(instances, roi);
    SubsetSize(UnionOf(instances), roi);
    Fraction(|UnionOf(instances)|, |roi|);
  }

  lemma PixelsMeanArea(shape: Shape, mask: Mask)
    requires mask != {} && mask <= Image(shape)
    ensures shape.width > 0 && shape.height > 0
  {
    var p :| p in mask;
    assert InImage(shape, p);
  }

  /** What a report of the quality gate says, with the missing scale added. */
  lemma ReportIsJudged(request: Request, p: Published, report: Report)
    requires p.report == WithScaleWarning(report, request.scale.None?)
    requires
      var gate, r := request.gate, report;
      var warnings :=
        Distinct(WarningReasons(gate, r.foreground, r.confidence, r.fragments, r.edges, request.validation));
      && r.confidence == MeanConfidence(p.result.instances)
      && r.fragments == FragmentRatio(p.result.instances, request.profile.minArea)
      && r.candidates == p.result.candidateCount && r.boundary == p.result.boundaryCount
      && r.edges == EdgeRatio(r.boundary, r.candidates)
      && r.reasons == ReviewReasons(gate, r.foreground) + warnings
      && r.advice == Distinct(AdviceList(gate, r.foreground, r.confidence, r.fragments, r.edges))
      && r.status == StatusOf(ReviewReasons(gate, r.foreground), warnings)
    ensures Judged(request, p)
  {
    hide MeanConfidence, FragmentRatio, EdgeRatio, Distinct, WarningReasons, AdviceList, NeedsReview, Warns, Applies;
    hide ReviewReasons, StatusOf, AdviceFor;
    var gate, r := request.gate, report;
    forall reason
      ensures reason in r.reasons
         <==> Applies(gate, r.foreground, r.confidence, r.fragments, r.edges, request.validation, reason)
    {
      ReasonsAreExact(gate, r.foreground, r.confidence, r.fragments, r.edges, request.validation, reason);
    }
    ReasonsAreExact(gate, r.foreground, r.confidence, r.fragments, r.edges, request.validation, ScaleMissing);
    StatusIsOne(ReviewReasons(gate, r.foreground),
      Distinct(WarningReasons(gate, r.foreground, r.confidence, r.fragments, r.edges, request.validation)));
    forall advice
      ensures advice in r.advice <==>
        exists reason :: AdviceFor(reason) == Some(advice)
          && Applies(gate, r.foreground, r.confidence, r.fragments, r.edges, request.validation, reason)
    {
      AdviceFollowsReasons(gate, r.foreground, r.confidence, r.fragments, r.edges, request.validation, advice);
    }
  }

  lemma StatusIsOne(review: seq<Reason>, warnings: seq<Reason>)
    ensures StatusOf(review, warnings) in {ReviewRequired, Warn, Pass}
  {
  }

  /** The mask, the artifact, the quality report and the measurements of one postprocessed result. */
  method Publish(request: Request, rect: Box, roi: Mask, result: Result, geometry: Geometry) returns (run: Run)
    requires roi != {} && roi <= Image(request.shape) && InRect(rect, roi) && Confined(roi, result)
    ensures run.Completed? || run.BadMeasurement?
    ensures run.BadMeasurement? <==> request.scale.Some? && request.scale.value <= 0.0
    ensures run.Completed? ==>
      var p := run.published;
      && Consistent(request, p) && Itemized(request, geometry, p) && Judged(request, p)
      && p.roi == roi && p.inferenceRect == rect && p.result == result
  {
    hide MaskOf, WarningReasons, Distinct, Ratio, TotalPerimeter, TotalDiameter, SquareMicrometres, UnionOf,
      MeanConfidence, FragmentRatio, EdgeRatio, InRect;
    var shape := request.shape;
    var mask := Union(result.instances);
    UnionSize(result.instances, roi);
    PixelsMeanArea(shape, roi);
    var shapes := seq(|result.instances|, _ => shape);
    var artifact := CanonicalInstancesPayload(result.instances, shapes, shape.width, shape.height);
    if artifact.None? {
      assert false;
      return BadArtifact;
    }
    DecodedIsUnion(shape, artifact.value, result.instances);
    var quality := Evaluate(request.gate, |roi|, |mask|, result.instances, request.profile.minArea, request.validation,
                            Some(result.candidateCount), Some(result.boundaryCount));
    if !quality.Reported? {
      assert false;
      return BadQualityInput;
    }
    var measured := Measure(geometry, result.instances, roi, request.scale);
    if !measured.Measured? {
      return BadMeasurement(measured);
    }
    run := Completed(Published(rect, roi, result, mask, artifact.value,
                               WithScaleWarning(quality.report, measured.scaleMissing),
                               measured.particles, measured.summary));
    ReportIsJudged(request, run.published, quality.report);
  }

  ghost function RegionOf(request: Request): RoiOutcome {
    RoiOf(request.shape, request.valid, request.invalid, request.mode, request.boxes)
  }

  /** The region was built and the valid pixels of the whole image leave something to infer on. */
  ghost predicate Inferable(request: Request) {
    RegionOf(request).Built? && ValidPixels(request.shape, request.valid, request.invalid) != {}
  }

  /** The output has the image's dimensions and could be postprocessed. */
  ghost predicate Postprocessed(request: Request, digest: Mask -> int, outputShape: Shape, output: Output)
    requires Labelled(request, digest, output)
  {
    Inferable(request) && outputShape == request.shape
    && OutcomeOf(ContextOf(request, RegionOf(request).mask, digest), output).Normalized?
  }

  predicate BadScaleGiven(request: Request) {
    request.scale.Some? && request.scale.value <= 0.0
  }

  /** The analysis region and the rectangle that inference runs on. */
  method FindRegions(request: Request) returns (region: RoiOutcome, rect: Option<Box>)
    requires request.Wellformed()
    ensures region == RegionOf(request)
    ensures rect.Some? <==> Inferable(request)
    ensures rect.Some? ==> region.mask != {} && region.mask <= Image(request.shape) && InRect(rect.value, region.mask)
  {
    rect := None;
    region := BuildAnalysisRoi(request.shape, request.valid, request.invalid, request.mode, request.boxes);
    if region.Rejected? {
      return;
    }
    var inference := BuildAnalysisRoi(request.shape, request.valid, request.invalid, FullImage, []);
    InferenceRectContains(request.shape, request.valid, request.invalid, request.mode, request.boxes);
    WholeRegion(request);
    if inference.mask != {} {
      rect := Some(BoundingBox(inference.mask));
    }
    hide RoiOf, ValidPixels, BoundingBox;
  }

  lemma WholeRegion(request: Request)
    requires RegionOf(request).Built?
    ensures RoiOf(request.shape, request.valid, request.invalid, FullImage, [])
         == Built(ValidPixels(request.shape, request.valid, request.invalid))
  {
  }

  method ExecuteRun(request: Request, digest: Mask -> int, outputShape: Shape, output: Output, geometry: Geometry)
    returns (run: Run)
    requires request.Wellformed() && Injective(digest) && Labelled(request, digest, output)
    // One exit each: what is wrong first decides, and when nothing is wrong the run completes.
    ensures run.RoiFailed? <==> RegionOf(request).Rejected?
    ensures run.RoiFailed? ==> Rejected(run.error) == RegionOf(request)
    ensures run.NoInferenceArea? <==> RegionOf(request).Built? && !Inferable(request)
    ensures run.WrongDimensions? <==> Inferable(request) && outputShape != request.shape
    ensures run.BadOutput?
       <==> Inferable(request) && outputShape == request.shape && !Postprocessed(request, digest, outputShape, output)
    ensures run.BadOutput? ==> OutcomeOf(ContextOf(request, RegionOf(request).mask, digest), output) == run.outcome
    ensures run.BadMeasurement? <==> Postprocessed(request, digest, outputShape, output) && BadScaleGiven(request)
    ensures run.Completed? <==> Postprocessed(request, digest, outputShape, output) && !BadScaleGiven(request)
    ensures !run.BadArtifact? && !run.BadQualityInput?
    // What a completed run publishes.
    ensures run.Completed? ==>
      && RegionOf(request) == Built(run.published.roi) && Consistent(request, run.published)
      && Itemized(request, geometry, run.published) && Judged(request, run.published)
    ensures run.Completed? ==>
      OutcomeOf(ContextOf(request, run.published.roi, digest), output) == Normalized(run.published.result)
  {
    hide RegionOf, Inferable, OutcomeOf, Consistent, Itemized, Judged, Confined, InRect, Labels;
    var region, rect := FindRegions(request);
    InferableIsBuilt(request);
    if region.Rejected? {
      return RoiFailed(region.error);
    }
    if rect.None? {
      return NoInferenceArea;
    }
    if outputShape != request.shape {
      return WrongDimensions;
    }
    var context := ContextOf(request, region.mask, digest);
    if output.Semantic? { LabelsInRegion(request, digest, output); }
    var outcome := NormalizeOutput(context, output);
    if !outcome.Normalized? {
      return BadOutput(outcome);
    }
    run := Publish(request, rect.value, region.mask, outcome.result, geometry);
  }

  lemma InferableIsBuilt(request: Request)
    ensures Inferable(request) ==> RegionOf(request).Built?
  {
  }

  lemma LabelsInRegion(request: Request, digest: Mask -> int, output: Output)
    requires Labelled(request, digest, output) && RegionOf(request).Built? && output.Semantic?
    ensures Labels(ContextOf(request, RegionOf(request).mask, digest), output.labelling, output.raw.mask)
  {
  }
}
