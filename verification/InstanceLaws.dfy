/** What the final instances are, in terms of their pixels, boxes and confidences alone. */
module InstanceLaws {
  import opened Prelude
  import opened Pixels
  import opened KeyedSort
  import opened GreedySuppression
  import opened Postprocessing
  import opened PostprocessingLaws
  import opened SemanticSegments

  // ----- order

  /** A missing confidence counts as -1. */
  function Sureness(item: Instance): real {
    match item.confidence
    case None => -1.0
    case Some(c) => c
  }

  /** From top to bottom, then left to right, then by the lower and right edges, then by area; among equals those with
      a confidence come first, the surest before the others. */
  predicate NotLater(a: Instance, b: Instance) {
    a.box.y1 < b.box.y1 || (a.box.y1 == b.box.y1
    && (a.box.x1 < b.box.x1 || (a.box.x1 == b.box.x1
    && (a.box.y2 < b.box.y2 || (a.box.y2 == b.box.y2
    && (a.box.x2 < b.box.x2 || (a.box.x2 == b.box.x2
    && (a.area < b.area || (a.area == b.area
    && (b.confidence.None? || (a.confidence.Some? && a.confidence.value >= b.confidence.value)))))))))))
  }

  /** The surer one; on equal confidence the one that is not later. */
  predicate Preferred(a: Instance, b: Instance) {
    Sureness(a) > Sureness(b) || (Sureness(a) == Sureness(b) && NotLater(a, b))
  }

  lemma LeqStep(a: Key, b: Key)
    requires a != [] && b != []
    ensures Leq(a, b) <==> a[0] < b[0] || (a[0] == b[0] && Leq(a[1..], b[1..]))
  {
  }

  lemma SpatialOrder(context: Context, a: Instance, b: Instance)
    requires Leq(SpatialKey(context, a), SpatialKey(context, b))
    ensures NotLater(a, b)
  {
    var ka, kb := SpatialKey(context, a), SpatialKey(context, b);
    LeqStep(ka, kb);
    LeqStep(ka[1..], kb[1..]);
    LeqStep(ka[2..], kb[2..]);
    LeqStep(ka[3..], kb[3..]);
    LeqStep(ka[4..], kb[4..]);
    LeqStep(ka[5..], kb[5..]);
    LeqStep(ka[6..], kb[6..]);
    hide Leq;
    assert ka[1..][1..] == ka[2..] && kb[1..][1..] == kb[2..];
    assert ka[2..][1..] == ka[3..] && kb[2..][1..] == kb[3..];
    assert ka[3..][1..] == ka[4..] && kb[3..][1..] == kb[4..];
    assert ka[4..][1..] == ka[5..] && kb[4..][1..] == kb[5..];
    assert ka[5..][1..] == ka[6..] && kb[5..][1..] == kb[6..];
  }

  lemma RankOrder(context: Context, a: Instance, b: Instance)
    requires Leq(RankKey(context, a), RankKey(context, b))
    ensures Preferred(a, b)
  {
    var ka, kb := RankKey(context, a), RankKey(context, b);
    LeqStep(ka, kb);
    assert ka[1..] == SpatialKey(context, a) && kb[1..] == SpatialKey(context, b);
    hide Leq;
    if ka[0] == kb[0] { SpatialOrder(context, a, b); }
  }

  // ----- overlap

  /** The masks share at least the given fraction of the pixels they cover together. */
  predicate SharesAtLeast(a: Mask, b: Mask, fraction: real) {
    |a * b| as real >= fraction * |a + b| as real
  }

  lemma QuotientAtLeast(x: real, w: real, t: real)
    requires w > 0.0
    ensures t <= x / w <==> t * w <= x
  {
    var q := x / w;
    assert q * w == x;
    if t <= q { TimesGrows(t, q, w); } else { TimesGrowsStrictly(q, t, w); }
  }

  lemma TimesGrows(a: real, b: real, w: real)
    requires a <= b && w > 0.0
    ensures a * w <= b * w
  {
  }

  lemma TimesGrowsStrictly(a: real, b: real, w: real)
    requires a < b && w > 0.0
    ensures a * w < b * w
  {
  }

  lemma OverlapIsShare(context: Context, a: Instance, b: Instance)
    requires a.mask != {}
    ensures Overlapping(context)(a, b) <==> SharesAtLeast(a.mask, b.mask, context.profile.iouThreshold)
    ensures Overlapping(context)(a, b) <==> Iou(a.mask, b.mask) >= context.profile.iouThreshold
  {
    var p :| p in a.mask;
    assert p in a.mask + b.mask;
    assert |a.mask + b.mask| > 0;
    QuotientAtLeast(|a.mask * b.mask| as real, |a.mask + b.mask| as real, context.profile.iouThreshold);
  }

  // ----- one instance

  /** The recorded fields of an instance are those of its mask. */
  ghost predicate Described(shape: Shape, roi: Mask, item: Instance) {
    && item.mask != {} && item.area == |item.mask| && TightBox(item.box, item.mask)
    && (item.touches <==> exists p :: p in item.mask && AtBoundary(shape, roi, p))
  }

  /** Every pixel is inside, and no side can be moved in. */
  ghost predicate TightBox(box: Box, mask: Mask) {
    && (forall p :: p in mask ==> box.x1 <= p.x < box.x2 && box.y1 <= p.y < box.y2)
    && (exists p :: p in mask && p.x == box.x1) && (exists p :: p in mask && p.x == box.x2 - 1)
    && (exists p :: p in mask && p.y == box.y1) && (exists p :: p in mask && p.y == box.y2 - 1)
  }

  /** On the image edge, or the pixel or one of its four neighbours in the image lies outside the region. */
  ghost predicate AtBoundary(shape: Shape, roi: Mask, p: Pixel) {
    || OnEdge(shape, p)
    || exists q :: InImage(shape, q) && q !in roi && (q == p || OneStep(p, q))
  }

  lemma DescribedByMask(context: Context, mask: Mask, confidence: Option<real>)
    requires mask != {} && mask <= Image(context.shape)
    ensures var item := InstanceFromMask(context, mask, confidence);
      Described(context.shape, context.roi, item) && item.mask == mask && item.confidence == confidence
  {
    TouchesPixel(context.shape, mask, context.roi);
  }

  lemma TouchesPixel(shape: Shape, mask: Mask, roi: Mask)
    requires mask <= Image(shape)
    ensures TouchesBoundary(shape, mask, roi) <==> exists p :: p in mask && AtBoundary(shape, roi, p)
  {
    if Dilate(shape, mask) - roi != {} {
      var q :| q in Dilate(shape, mask) - roi;
      var p :| p in mask && (p == q || Adjacent(q, p));
      StepIsAdjacent(p, q);
      assert AtBoundary(shape, roi, p);
    }
    if p :| p in mask && AtBoundary(shape, roi, p) {
      if !OnEdge(shape, p) {
        var q :| InImage(shape, q) && q !in roi && (q == p || OneStep(p, q));
        StepIsAdjacent(p, q);
        assert q in Dilate(shape, mask) - roi;
      }
    }
  }

  /** Cleaning keeps the pixels of the region that are in the mask or, when holes are filled, in no reach of the
      image edge. */
  lemma CleanPixel(context: Context, mask: Mask, p: Pixel)
    requires context.Valid()
    ensures p in Clean(context, mask) <==>
      p in context.roi
      && (p in mask
          || (context.profile.fillHoles
              && !ReachesEdge(context.shape, Image(context.shape) - mask * context.roi, p)))
  {
    FilledPixel(context.shape, mask * context.roi, p);
    FillExtends(context.shape, mask * context.roi);
    hide FillHoles, ReachesEdge;
  }

  // ----- native instances

  /** The pair whose cleaned mask became this instance. */
  ghost predicate From(context: Context, pair: Pair, item: Instance) {
    item.mask == Clean(context, pair.0) && item.confidence == pair.1
  }

  /** The pair is admitted as this candidate. */
  ghost predicate Yields(context: Context, pair: Pair, c: Instance) {
    Candidate(context, pair) == [c]
  }

  lemma {:induction false} CandidateOrigin(context: Context, pairs: seq<Pair>, c: Instance) returns (j: nat)
    requires c in Candidates(context, pairs)
    ensures j < |pairs| && Yields(context, pairs[j], c)
  {
    hide Candidate, Yields;
    var last := |pairs| - 1;
    LastCandidate(context, pairs, c);
    if c in Candidates(context, pairs[..last]) {
      j := CandidateOrigin(context, pairs[..last], c);
    } else {
      j := last;
    }
  }

  lemma {:induction false} CandidateIn(context: Context, pairs: seq<Pair>, c: Instance, j: nat)
    requires j < |pairs| && Yields(context, pairs[j], c)
    ensures c in Candidates(context, pairs)
    decreases |pairs|
  {
    hide Candidate, Yields, Candidates;
    LastCandidate(context, pairs, c);
    if j < |pairs| - 1 { CandidateIn(context, pairs[..|pairs| - 1], c, j); }
  }

  lemma LastCandidate(context: Context, pairs: seq<Pair>, c: Instance)
    requires pairs != []
    ensures var last := |pairs| - 1;
      c in Candidates(context, pairs) <==> c in Candidates(context, pairs[..last]) || Yields(context, pairs[last], c)
  {
    hide Clean, InstanceFromMask, Admitted;
  }

  lemma Admission(context: Context, pair: Pair)
    ensures var mask := Clean(context, pair.0);
      if mask != {} && |mask| >= context.profile.minArea
      then Candidate(context, pair) == [InstanceFromMask(context, mask, pair.1)]
      else Candidate(context, pair) == []
  {
  }

  /** Suppression prefers by confidence: whatever is large enough survives, or a survivor that overlaps it is surer,
      or as sure and not later. */
  lemma SurestSurvives(context: Context, pairs: seq<Pair>, j: nat) returns (k: nat)
    requires context.Valid() && j < |pairs|
    requires Clean(context, pairs[j].0) != {} && |Clean(context, pairs[j].0)| >= context.profile.minArea
    ensures var kept, mask := Survivors(context, pairs), Clean(context, pairs[j].0);
      && k < |kept|
      && (From(context, pairs[j], kept[k])
          || (SharesAtLeast(mask, kept[k].mask, context.profile.iouThreshold)
              && Preferred(kept[k], InstanceFromMask(context, mask, pairs[j].1))))
  {
    var item := InstanceFromMask(context, Clean(context, pairs[j].0), pairs[j].1);
    Admission(context, pairs[j]);
    CandidateIn(context, pairs, item, j);
    var ranked, kept := Sort(Candidates(context, pairs), Rank(context)), Survivors(context, pairs);
    SurvivorsAreSound(context, pairs);
    hide Sort, Candidates, Survivors, Suppress, Clean, InstanceFromMask, RankKey, Leq, Admitted, Yields;
    assert item in multiset(Candidates(context, pairs));
    var i := PlaceOf(item, ranked);
    if item in kept {
      k :| 0 <= k < |kept| && kept[k] == item;
      SameMask(context, pairs[j]);
    } else {
      k := PreferredOver(context, ranked, i, kept);
      SameMask(context, pairs[j]);
      OverlapIsShare(context, item, kept[k]);
    }
  }

  lemma SameMask(context: Context, pair: Pair)
    requires Clean(context, pair.0) != {}
    ensures var item := InstanceFromMask(context, Clean(context, pair.0), pair.1);
      item.mask == Clean(context, pair.0) && item.confidence == pair.1 && item.mask != {}
  {
  }

  lemma PreferredOver(context: Context, ranked: seq<Instance>, i: nat, kept: seq<Instance>) returns (k: nat)
    requires Sorted(ranked, Rank(context)) && i < |ranked| && Suppressed(Overlapping(context), ranked, i, kept)
    ensures k < |kept| && Overlapping(context)(ranked[i], kept[k]) && Preferred(kept[k], ranked[i])
  {
    hide RankKey, Leq;
    var j;
    k, j :| 0 <= k < |kept| && 0 <= j < i && ranked[j] == kept[k] && Overlapping(context)(ranked[i], kept[k]);
    assert Leq(Rank(context)(ranked[j]), Rank(context)(ranked[i]));
    RankOrder(context, ranked[j], ranked[i]);
  }

  /** Everything that can be read off a final native instance. */
  ghost predicate NativeEntry(context: Context, pairs: seq<Pair>, item: Instance) {
    && Described(context.shape, context.roi, item) && item.mask <= context.roi && item.area >= context.profile.minArea
    && exists j :: 0 <= j < |pairs| && From(context, pairs[j], item)
  }

  /** The final list: numbered, in spatial order, and pairwise below the overlap threshold. */
  ghost predicate NativeResult(context: Context, pairs: seq<Pair>, instances: seq<Instance>) {
    && (forall i :: 0 <= i < |instances| ==> instances[i].index == i + 1 && NativeEntry(context, pairs, instances[i]))
    && (forall i, j :: 0 <= i < j < |instances| ==>
          && NotLater(instances[i], instances[j])
          && !SharesAtLeast(instances[j].mask, instances[i].mask, context.profile.iouThreshold))
  }

  lemma FinalInstance(context: Context, pairs: seq<Pair>, item: Instance)
    requires context.Valid() && Genuine(context, item.(index := 0))
    requires item.(index := 0) in Candidates(context, pairs)
    ensures NativeEntry(context, pairs, item) && item.mask != {}
  {
    var plain := item.(index := 0);
    DescribedByMask(context, plain.mask, plain.confidence);
    var j := CandidateOrigin(context, pairs, plain);
    assert From(context, pairs[j], item);
  }

  lemma NativeInstances(context: Context, pairs: seq<Pair>)
    requires context.Valid()
    ensures NativeResult(context, pairs, Normalize(context, pairs).instances)
  {
    hide Normalize, Genuine, NativeEntry, NotLater, SpatialKey, Leq, Candidates, SharesAtLeast, Sorted, Separate;
    var instances := Normalize(context, pairs).instances;
    ResultShape(context, pairs);
    FinalAreCandidates(context, pairs);
    forall i | 0 <= i < |instances|
      ensures NativeEntry(context, pairs, instances[i]) && instances[i].mask != {}
    {
      FinalInstance(context, pairs, instances[i]);
    }
    OrderAndOverlap(context, instances);
  }

  lemma OrderAndOverlap(context: Context, instances: seq<Instance>)
    requires Sorted(instances, Spatial(context)) && Separate(Overlapping(context), instances)
    requires forall i :: 0 <= i < |instances| ==> instances[i].mask != {}
    ensures forall i, j :: 0 <= i < j < |instances| ==>
      && NotLater(instances[i], instances[j])
      && !SharesAtLeast(instances[j].mask, instances[i].mask, context.profile.iouThreshold)
  {
    hide NotLater, SpatialKey, Leq, SharesAtLeast;
    forall i, j | 0 <= i < j < |instances|
      ensures NotLater(instances[i], instances[j])
      ensures !SharesAtLeast(instances[j].mask, instances[i].mask, context.profile.iouThreshold)
    {
      assert Leq(Spatial(context)(instances[i]), Spatial(context)(instances[j]));
      SpatialOrder(context, instances[i], instances[j]);
      OverlapIsShare(context, instances[j], instances[i]);
    }
  }

  lemma FinalAreCandidates(context: Context, pairs: seq<Pair>)
    requires context.Valid()
    ensures var instances := Normalize(context, pairs).instances;
      forall i :: 0 <= i < |instances| ==> instances[i].(index := 0) in Candidates(context, pairs)
  {
    var ordered := ResultInstances(context, pairs);
    var kept := Survivors(context, pairs);
    SuppressionSeparates(Overlapping(context), Sort(Candidates(context, pairs), Rank(context)));
    SortProperties(Candidates(context, pairs), Rank(context));
    InteriorSeparate(Overlapping(context), kept);
    var instances := Normalize(context, pairs).instances;
    forall i | 0 <= i < |instances| ensures instances[i].(index := 0) in Candidates(context, pairs) {
      assert Strip(ordered)[i] == ordered[i];
      assert ordered[i] in multiset(ordered);
      assert ordered[i] in multiset(Remaining(context, kept));
      assert ordered[i] in kept;
      assert ordered[i] in multiset(Candidates(context, pairs));
    }
  }

  /** The border policy takes away boundary instances only. */
  lemma RemainsInFinal(context: Context, kept: seq<Instance>, k: nat) returns (i: nat)
    requires k < |kept| && !(context.profile.excludeBorder && kept[k].touches)
    ensures var final := Number(Sort(Remaining(context, kept), Spatial(context)));
      i < |final| && final[i] == kept[k].(index := i + 1)
  {
    var remaining := Remaining(context, kept);
    InteriorElements(kept);
    SortProperties(remaining, Spatial(context));
    assert kept[k] in multiset(kept);
    assert kept[k] in multiset(remaining);
    i := PlaceOf(kept[k], Sort(remaining, Spatial(context)));
  }

  /** Every survivor is a final instance, unless border exclusion is on and it touches the boundary. */
  lemma SurvivorIsFinal(context: Context, pairs: seq<Pair>, k: nat) returns (i: nat)
    requires context.Valid() && k < |Survivors(context, pairs)|
    requires !(context.profile.excludeBorder
               && exists p :: p in Survivors(context, pairs)[k].mask && AtBoundary(context.shape, context.roi, p))
    ensures var final := Normalize(context, pairs).instances;
      i < |final| && final[i] == Survivors(context, pairs)[k].(index := i + 1)
  {
    var kept := Survivors(context, pairs);
    AllSurvivorsGenuine(context, pairs);
    hide Survivors, AtBoundary, Remaining, Sort, Number;
    GenuineIsDescribed(context, kept[k]);
    FinalInstances(context, kept);
    i := RemainsInFinal(context, kept, k);
  }

  lemma AllSurvivorsGenuine(context: Context, pairs: seq<Pair>)
    requires context.Valid()
    ensures AllGenuine(context, Survivors(context, pairs))
    ensures Normalize(context, pairs) == ApplyBorderPolicy(context, Finalize(context, Survivors(context, pairs)))
  {
    hide Survivors, Genuine, Sorted, Suppressed;
    SurvivorsAreSound(context, pairs);
  }

  lemma GenuineIsDescribed(context: Context, item: Instance)
    requires context.Valid() && Genuine(context, item)
    ensures Described(context.shape, context.roi, item)
  {
    DescribedByMask(context, item.mask, item.confidence);
  }

  // ----- semantic instances

  /** The foreground keeps the cleaned pixels whose component is large enough. */
  lemma ForegroundPixel(context: Context, labelling: Labelling, mask: Mask, p: Pixel)
    ensures p in Foreground(context, labelling, mask) <==>
      p in Clean(context, mask)
      && (context.profile.minArea > 0 ==>
            exists i :: 0 <= i < |labelling.components| && p in labelling.components[i]
              && |labelling.components[i]| >= context.profile.minArea)
  {
    hide Clean;
  }

  /** The instance is this segment, with the mean probability over it. */
  predicate IsSegment(item: Instance, segment: Mask, probability: Option<Probability>) {
    && item.mask == segment
    && item.confidence == match probability case None => None case Some(chart) => Some(chart.mean(segment))
  }

  /** The instance is one of the large enough segments. */
  ghost predicate FromSegment(context: Context, segments: seq<Mask>, probability: Option<Probability>, item: Instance) {
    exists r :: 0 <= r < |segments|
      && |segments[r]| >= context.profile.minArea && IsSegment(item, segments[r], probability)
  }

  lemma {:induction false} KeptOrigin(context: Context, probability: Option<Probability>, regions: seq<Mask>, k: nat)
    requires (forall i :: 0 <= i < |regions| ==> regions[i] != {}) && k < |Kept(context, probability, regions)|
    ensures FromSegment(context, regions, probability, Kept(context, probability, regions)[k])
  {
    var before, last := regions[..|regions| - 1], |regions| - 1;
    if k < |Kept(context, probability, before)| {
      KeptOrigin(context, probability, before, k);
      hide Kept, IsSegment;
      var item := Kept(context, probability, before)[k];
      var i :| 0 <= i < |before|
        && |before[i]| >= context.profile.minArea && IsSegment(item, before[i], probability);
      assert before[i] == regions[i];
    } else {
      assert IsSegment(Kept(context, probability, regions)[k], regions[last], probability);
    }
  }

  /** Everything that can be read off a final list of semantic instances. */
  ghost predicate SemanticList(context: Context, labelling: Labelling, probability: Option<Probability>,
                               instances: seq<Instance>)
  {
    && (forall i :: 0 <= i < |instances| ==>
          && instances[i].index == i + 1 && Described(context.shape, context.roi, instances[i])
          && instances[i].mask <= context.roi
          && FromSegment(context, labelling.segments, probability, instances[i]))
    && (forall i, j :: 0 <= i < j < |instances| ==>
          NotLater(instances[i], instances[j]) && instances[j].mask * instances[i].mask == {})
  }

  lemma SegmentsAreKept(context: Context, labelling: Labelling, mask: Mask, probability: Option<Probability>)
    requires Labels(context, labelling, mask)
    ensures Pieces(labelling.segments, Foreground(context, labelling, mask))
    ensures Segments(context, labelling, mask, probability) == Kept(context, probability, labelling.segments)
  {
    hide Clean, Foreground, Kept;
    SegmentsArePieces(context, labelling, mask);
  }

  lemma SemanticInstances(context: Context, labelling: Labelling, mask: Mask, probability: Option<Probability>)
    requires context.Valid() && Labels(context, labelling, mask)
    ensures SemanticList(context, labelling, probability,
                         NormalizeMask(context, labelling, mask, probability).instances)
  {
    hide Foreground, NormalizeMask, Labels, Kept, Clean, Segments, SemanticList, FinalFrom, Pieces;
    SegmentsAreKept(context, labelling, mask, probability);
    SemanticResult(context, labelling, mask, probability);
    SemanticListFrom(context, labelling, Foreground(context, labelling, mask), probability,
                     NormalizeMask(context, labelling, mask, probability).instances);
  }

  lemma SemanticListFrom(context: Context, labelling: Labelling, foreground: Mask, probability: Option<Probability>,
                         instances: seq<Instance>)
    requires context.Valid() && Pieces(labelling.segments, foreground) && foreground <= context.roi
    requires FinalFrom(context, foreground, Kept(context, probability, labelling.segments), instances)
    ensures SemanticList(context, labelling, probability, instances)
  {
    var items := Kept(context, probability, labelling.segments);
    hide Described, NotLater, SpatialKey, Leq, Cut, Remaining, Strip, Kept, FromSegment;
    forall i | 0 <= i < |instances|
      ensures Described(context.shape, context.roi, instances[i]) && instances[i].mask <= context.roi
      ensures FromSegment(context, labelling.segments, probability, instances[i])
    {
      CutIsDescribed(context, foreground, instances[i]);
      var k := OriginOf(context, items, instances, i);
      KeptOrigin(context, probability, labelling.segments, k);
      SameSegment(context, labelling.segments, probability, instances[i]);
    }
    forall i, j | 0 <= i < j < |instances|
      ensures NotLater(instances[i], instances[j]) && instances[j].mask * instances[i].mask == {}
    {
      assert Leq(Spatial(context)(instances[i]), Spatial(context)(instances[j]));
      SpatialOrder(context, instances[i], instances[j]);
      assert !Overlap()(instances[j], instances[i]);
    }
  }

  lemma SameSegment(context: Context, segments: seq<Mask>, probability: Option<Probability>, item: Instance)
    requires FromSegment(context, segments, probability, item.(index := 0))
    ensures FromSegment(context, segments, probability, item)
  {
    var r :| 0 <= r < |segments|
      && |segments[r]| >= context.profile.minArea && IsSegment(item.(index := 0), segments[r], probability);
    assert IsSegment(item, segments[r], probability);
  }

  lemma CutIsDescribed(context: Context, foreground: Mask, item: Instance)
    requires context.Valid() && Cut(context, foreground, item.(index := 0)) && foreground <= context.roi
    ensures Described(context.shape, context.roi, item) && item.mask <= context.roi
  {
    DescribedByMask(context, item.mask, item.confidence);
  }

  /** Every large enough segment is a final instance, unless border exclusion is on and it touches the boundary. */
  lemma SegmentIsFinal(context: Context, labelling: Labelling, mask: Mask, probability: Option<Probability>, r: nat)
    returns (i: nat)
    requires context.Valid() && Labels(context, labelling, mask) && r < |labelling.segments|
    requires |labelling.segments[r]| >= context.profile.minArea
    requires !(context.profile.excludeBorder
               && exists p :: p in labelling.segments[r] && AtBoundary(context.shape, context.roi, p))
    ensures var final := NormalizeMask(context, labelling, mask, probability).instances;
      i < |final| && IsSegment(final[i], labelling.segments[r], probability)
  {
    hide Foreground, NormalizeMask, Labels, Kept, Clean, Segments, FinalFrom, Pieces, IsSegment, AtBoundary;
    SegmentsAreKept(context, labelling, mask, probability);
    SemanticResult(context, labelling, mask, probability);
    i := SegmentInFinal(context, labelling, Foreground(context, labelling, mask), probability,
                        NormalizeMask(context, labelling, mask, probability).instances, r);
  }

  lemma SegmentInFinal(context: Context, labelling: Labelling, foreground: Mask, probability: Option<Probability>,
                       final: seq<Instance>, r: nat)
    returns (i: nat)
    requires context.Valid() && Pieces(labelling.segments, foreground) && foreground <= context.roi
    requires r < |labelling.segments| && |labelling.segments[r]| >= context.profile.minArea
    requires FinalFrom(context, foreground, Kept(context, probability, labelling.segments), final)
    requires !(context.profile.excludeBorder
               && exists p :: p in labelling.segments[r] && AtBoundary(context.shape, context.roi, p))
    ensures i < |final| && IsSegment(final[i], labelling.segments[r], probability)
  {
    var region, items := labelling.segments[r], Kept(context, probability, labelling.segments);
    var k := KeptCovers(context, probability, labelling.segments, foreground, r);
    assert region <= Image(context.shape);
    DescribedByMask(context, region, Confidence(probability, region));
    hide Cut, AtBoundary, Separate, Sorted, InstanceFromMask, Kept, Strip, Remaining;
    StillThere(context, items, final, k);
    i := PlaceInFinal(items[k], final);
  }

  lemma PlaceInFinal(item: Instance, final: seq<Instance>) returns (i: nat)
    requires item in multiset(Strip(final))
    ensures i < |final| && final[i].(index := 0) == item
  {
    i := PlaceOf(item, Strip(final));
  }

  lemma StillThere(context: Context, items: seq<Instance>, final: seq<Instance>, k: nat)
    requires k < |items| && multiset(Strip(final)) == multiset(Remaining(context, items))
    requires !(context.profile.excludeBorder && items[k].touches)
    ensures items[k] in multiset(Strip(final))
  {
    InteriorElements(items);
    assert items[k] in multiset(items);
  }
}
