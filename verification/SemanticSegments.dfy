/**
 * Semantic-mask normalization: clip and fill, drop small components, cut the foreground into segments, and
 * apply the same numbering and border policy as for native instances. Labelling and watershed belong to a
 * library; all that is used of them is that they partition the foreground.
 */
module SemanticSegments {
  import opened Prelude
  import opened Pixels
  import opened KeyedSort
  import opened GreedySuppression
  import opened Postprocessing
  import opened PostprocessingLaws

  /** A list of regions inside `whole` with nothing in common. */
  ghost predicate Pieces(regions: seq<Mask>, whole: Mask) {
    && (forall i :: 0 <= i < |regions| ==> regions[i] != {} && regions[i] <= whole)
    && (forall i, j :: 0 <= i < j < |regions| ==> regions[i] * regions[j] == {})
  }

  ghost predicate Partitions(parts: seq<Mask>, whole: Mask) {
    Pieces(parts, whole) && forall p :: p in whole ==> exists i :: 0 <= i < |parts| && p in parts[i]
  }

  /** What the library returned: the connected components and the segments, in label order. */
  datatype Labelling = Labelling(components: seq<Mask>, segments: seq<Mask>)

  /** A probability map: its array shape and the mean over a region. */
  datatype Probability = Probability(shape: Shape, mean: Mask -> real)

  predicate InLarge(parts: seq<Mask>, minArea: nat, p: Pixel) {
    exists i :: 0 <= i < |parts| && |parts[i]| >= minArea && p in parts[i]
  }

  function RemoveSmall(components: seq<Mask>, mask: Mask, minArea: nat): Mask {
    set p | p in mask && InLarge(components, minArea, p)
  }

  /** The foreground that is cut into segments. */
  function Foreground(context: Context, labelling: Labelling, mask: Mask): Mask {
    var cleaned := Clean(context, mask);
    if context.profile.minArea > 0 then RemoveSmall(labelling.components, cleaned, context.profile.minArea) else cleaned
  }

  /** The labelling is one of this mask: components of the clean mask, segments of its foreground. */
  ghost predicate Labels(context: Context, labelling: Labelling, mask: Mask) {
    && Partitions(labelling.components, Clean(context, mask))
    && Partitions(labelling.segments, Foreground(context, labelling, mask))
  }

  function Confidence(probability: Option<Probability>, region: Mask): Option<real> {
    match probability
    case None => None
    case Some(chart) => Some(chart.mean(region))
  }

  function Kept(context: Context, probability: Option<Probability>, regions: seq<Mask>): seq<Instance>
    requires forall i :: 0 <= i < |regions| ==> regions[i] != {}
  {
    if regions == [] then []
    else
      var last := regions[|regions| - 1];
      Kept(context, probability, regions[..|regions| - 1])
      + if |last| < context.profile.minArea then []
        else [InstanceFromMask(context, last, Confidence(probability, last))]
  }

  function Segments(context: Context, labelling: Labelling, mask: Mask, probability: Option<Probability>): seq<Instance>
    requires Labels(context, labelling, mask)
  {
    Kept(context, probability, labelling.segments)
  }

  function NormalizeMask(context: Context, labelling: Labelling, mask: Mask, probability: Option<Probability>): Result
    requires Labels(context, labelling, mask)
  {
    ApplyBorderPolicy(context, Finalize(context, Segments(context, labelling, mask, probability)))
  }

  lemma SegmentsArePieces(context: Context, labelling: Labelling, mask: Mask)
    requires Labels(context, labelling, mask)
    ensures Pieces(labelling.segments, Foreground(context, labelling, mask))
  {
    hide Clean, Foreground;
  }

  lemma SegmentsCover(context: Context, labelling: Labelling, mask: Mask, p: Pixel) returns (i: nat)
    requires Labels(context, labelling, mask) && p in Foreground(context, labelling, mask)
    ensures i < |labelling.segments| && p in labelling.segments[i]
  {
    hide Clean, Foreground;
    i :| 0 <= i < |labelling.segments| && p in labelling.segments[i];
  }

  /** The labelling loop: every region that is large enough becomes an instance, in label order. */
  method CollectRegions(context: Context, probability: Option<Probability>, labels: seq<Mask>)
    returns (instances: seq<Instance>)
    requires forall i :: 0 <= i < |labels| ==> labels[i] != {}
    ensures instances == Kept(context, probability, labels)
  {
    hide InstanceFromMask;
    instances := [];
    for k := 0 to |labels|
      invariant instances == Kept(context, probability, labels[..k])
    {
      assert labels[..k + 1][..k] == labels[..k];
      var region := labels[k];
      if |region| < context.profile.minArea {
        continue;
      }
      instances := instances + [InstanceFromMask(context, region, Confidence(probability, region))];
    }
    assert labels[..|labels|] == labels;
  }

  method NormalizeSemanticMask(context: Context, labelling: Labelling, raw: Raw, probability: Option<Probability>)
    returns (outcome: Outcome)
    requires Labels(context, labelling, raw.mask)
    ensures outcome.ShapeMismatch?
       <==> raw.shape != context.shape || (probability.Some? && probability.value.shape != context.shape)
    ensures !outcome.ShapeMismatch? ==> outcome == Normalized(NormalizeMask(context, labelling, raw.mask, probability))
  {
    hide ApplyBorderPolicy, Finalize, Clean, RemoveSmall, Labels, Kept;
    if raw.shape != context.shape || (probability.Some? && probability.value.shape != context.shape) {
      return ShapeMismatch;
    }
    var binary := CleanMask(context, raw.mask);
    if context.profile.minArea > 0 {
      binary := RemoveSmall(labelling.components, binary, context.profile.minArea);
    }
    assert binary == Foreground(context, labelling, raw.mask);
    SegmentsArePieces(context, labelling, raw.mask);
    var instances := CollectRegions(context, probability, labelling.segments);
    outcome := Normalized(ApplyBorderPolicy(context, Finalize(context, instances)));
  }

  // ----- laws

  function Overlap(): (Instance, Instance) -> bool {
    (a: Instance, b: Instance) => a.mask * b.mask != {}
  }

  /** An instance cut from the foreground, not yet numbered. */
  ghost predicate Cut(context: Context, foreground: Mask, item: Instance) {
    && item.mask != {} && item.mask <= foreground && |item.mask| >= context.profile.minArea
    && item == InstanceFromMask(context, item.mask, item.confidence)
  }

  lemma CutFromRegion(context: Context, whole: Mask, region: Mask, confidence: Option<real>)
    requires region != {} && region <= whole && |region| >= context.profile.minArea
    ensures Cut(context, whole, InstanceFromMask(context, region, confidence))
    ensures InstanceFromMask(context, region, confidence).mask == region
    ensures InstanceFromMask(context, region, confidence).index == 0
  {
  }

  lemma {:induction false} KeptAreCuts(context: Context, probability: Option<Probability>, regions: seq<Mask>,
      whole: Mask)
    requires Pieces(regions, whole)
    ensures var kept := Kept(context, probability, regions);
      Separate(Overlap(), kept) && forall k :: 0 <= k < |kept| ==>
        Cut(context, whole, kept[k]) && kept[k].index == 0 && kept[k].mask in regions
  {
    if regions != [] {
      hide InstanceFromMask, Cut;
      var before, last := regions[..|regions| - 1], regions[|regions| - 1];
      assert regions == before + [last];
      KeptAreCuts(context, probability, before, whole);
      var shorter := Kept(context, probability, before);
      if |last| >= context.profile.minArea {
        CutFromRegion(context, whole, last, Confidence(probability, last));
        forall k | 0 <= k < |shorter| ensures last * shorter[k].mask == {} {
          var i :| 0 <= i < |before| && before[i] == shorter[k].mask;
          assert regions[i] * last == {};
        }
      }
    }
  }

  lemma {:induction false} KeptCovers(context: Context, probability: Option<Probability>, regions: seq<Mask>,
      whole: Mask, i: nat)
    returns (k: nat)
    requires Pieces(regions, whole) && i < |regions| && |regions[i]| >= context.profile.minArea
    ensures k < |Kept(context, probability, regions)|
    ensures Kept(context, probability, regions)[k]
         == InstanceFromMask(context, regions[i], Confidence(probability, regions[i]))
    decreases |regions|
  {
    hide InstanceFromMask;
    var last := |regions| - 1;
    if i < last {
      k := KeptCovers(context, probability, regions[..last], whole, i);
    } else {
      k := |Kept(context, probability, regions[..last])|;
    }
  }

  function Unnumbered(): Instance -> seq<Instance> {
    (item: Instance) => [item.(index := 0)]
  }

  lemma {:induction false} StripIsFlatMap(items: seq<Instance>)
    ensures Strip(items) == FlatMap(Unnumbered(), items)
  {
    if items != [] {
      StripIsFlatMap(items[..|items| - 1]);
      assert Strip(items) == Strip(items[..|items| - 1]) + [items[|items| - 1].(index := 0)];
    }
  }

  lemma FinalizeMultiset(context: Context, items: seq<Instance>)
    ensures multiset(Strip(Finalize(context, items))) == multiset(Strip(items))
  {
    var ordered := Sort(items, Spatial(context));
    SortProperties(items, Spatial(context));
    assert Strip(Number(ordered)) == Strip(ordered);
    StripIsFlatMap(ordered);
    StripIsFlatMap(items);
    FlatMapMultiset(Unnumbered(), ordered, items);
  }

  /** Numbering and the border policy keep exactly the given instances, or exactly the interior ones. */
  lemma PolicyMultiset(context: Context, items: seq<Instance>)
    requires Strip(items) == items
    ensures multiset(Strip(ApplyBorderPolicy(context, Finalize(context, items)).instances))
         == multiset(Remaining(context, items))
  {
    hide Strip, Interior, Finalize;
    var first := Finalize(context, items);
    FinalizeMultiset(context, items);
    if context.profile.excludeBorder {
      FinalizeMultiset(context, Interior(first));
      InteriorOfStripped(first);
      SameInterior(Strip(first), items);
    }
  }

  lemma SameInterior(a: seq<Instance>, b: seq<Instance>)
    requires multiset(a) == multiset(b)
    ensures multiset(Interior(a)) == multiset(Interior(b))
  {
    hide Interior;
    InteriorElements(a);
    InteriorElements(b);
  }

  lemma FinalizeKeeps(context: Context, items: seq<Instance>)
    requires Separate(Overlap(), items)
    ensures Separate(Overlap(), Finalize(context, items)) && Sorted(Finalize(context, items), Spatial(context))
  {
    var ordered := Sort(items, Spatial(context));
    SortProperties(items, Spatial(context));
    forall a: Instance, b: Instance ensures Overlap()(a, b) == Overlap()(b, a) {
      assert a.mask * b.mask == b.mask * a.mask;
    }
    SeparateRearranged(Overlap(), items, ordered);
    SpatialIgnoresIndex(context);
    NumberedKeeps(ordered, Spatial(context), Overlap());
  }

  lemma PolicyKeeps(context: Context, items: seq<Instance>)
    requires Separate(Overlap(), items)
    ensures var final := ApplyBorderPolicy(context, Finalize(context, items)).instances;
      && Separate(Overlap(), final) && Sorted(final, Spatial(context))
      && forall i :: 0 <= i < |final| ==> final[i].index == i + 1
  {
    FinalizeKeeps(context, items);
    if context.profile.excludeBorder {
      InteriorSeparate(Overlap(), Finalize(context, items));
      FinalizeKeeps(context, Interior(Finalize(context, items)));
    }
  }

  lemma SegmentsAreCuts(context: Context, labelling: Labelling, mask: Mask, probability: Option<Probability>)
    requires context.Valid() && Labels(context, labelling, mask)
    ensures var foreground := Foreground(context, labelling, mask);
      var items := Segments(context, labelling, mask, probability);
      && foreground <= context.roi && Separate(Overlap(), items) && Strip(items) == items
      && forall k :: 0 <= k < |items| ==> Cut(context, foreground, items[k])
  {
    hide Foreground, Kept, Cut, Labels;
    var foreground := Foreground(context, labelling, mask);
    ForegroundInside(context, labelling, mask);
    SegmentsArePieces(context, labelling, mask);
    KeptAreCuts(context, probability, labelling.segments, foreground);
  }

  lemma ForegroundInside(context: Context, labelling: Labelling, mask: Mask)
    requires context.Valid()
    ensures Foreground(context, labelling, mask) <= context.roi
  {
    CleanTwice(context, mask);
    hide Clean;
  }

  /** Every large enough segment becomes an instance with its mean probability as confidence. */
  lemma EverySegmentCounts(context: Context, labelling: Labelling, mask: Mask, probability: Option<Probability>,
      p: Pixel)
    requires Labels(context, labelling, mask) && p in Foreground(context, labelling, mask)
    ensures var regions := labelling.segments;
      exists i :: 0 <= i < |regions| && p in regions[i]
        && (|regions[i]| >= context.profile.minArea ==>
            InstanceFromMask(context, regions[i], Confidence(probability, regions[i]))
              in Segments(context, labelling, mask, probability))
  {
    hide Foreground, InstanceFromMask, Kept, Labels;
    var foreground := Foreground(context, labelling, mask);
    var regions := labelling.segments;
    SegmentsArePieces(context, labelling, mask);
    var i := SegmentsCover(context, labelling, mask, p);
    if |regions[i]| >= context.profile.minArea {
      var k := KeptCovers(context, probability, regions, foreground, i);
      assert Kept(context, probability, regions)[k] in Kept(context, probability, regions);
    }
  }

  ghost predicate FinalFrom(context: Context, foreground: Mask, items: seq<Instance>, final: seq<Instance>) {
    && multiset(Strip(final)) == multiset(Remaining(context, items))
    && Separate(Overlap(), final) && Sorted(final, Spatial(context))
    && forall i :: 0 <= i < |final| ==>
         final[i].index == i + 1 && Cut(context, foreground, final[i].(index := 0)) && final[i].mask <= foreground
  }

  lemma FinalFromItems(context: Context, foreground: Mask, items: seq<Instance>)
    requires Separate(Overlap(), items) && Strip(items) == items
    requires forall k :: 0 <= k < |items| ==> Cut(context, foreground, items[k])
    ensures FinalFrom(context, foreground, items, ApplyBorderPolicy(context, Finalize(context, items)).instances)
  {
    var final := ApplyBorderPolicy(context, Finalize(context, items)).instances;
    PolicyMultiset(context, items);
    PolicyKeeps(context, items);
    hide ApplyBorderPolicy, Finalize, Remaining, Sorted, Separate, Cut;
    forall i | 0 <= i < |final|
      ensures Cut(context, foreground, final[i].(index := 0)) && final[i].mask <= foreground
    {
      var k := OriginOf(context, items, final, i);
      CutInside(context, foreground, items[k]);
    }
  }

  lemma OriginOf(context: Context, items: seq<Instance>, final: seq<Instance>, i: nat) returns (k: nat)
    requires multiset(Strip(final)) == multiset(Remaining(context, items)) && i < |final|
    ensures k < |items| && items[k] == final[i].(index := 0)
  {
    hide Remaining;
    RemainingMembers(context, items);
    var x := final[i].(index := 0);
    assert Strip(final)[i] == x;
    assert x in multiset(Strip(final));
    k := PlaceOf(x, items);
  }

  lemma CutInside(context: Context, foreground: Mask, item: Instance)
    requires Cut(context, foreground, item)
    ensures item.mask <= foreground
  {
  }

  lemma RemainingMembers(context: Context, items: seq<Instance>)
    ensures forall x :: x in multiset(Remaining(context, items)) ==> x in multiset(items)
  {
    InteriorElements(items);
  }

  /**
   * The final instances are the segments of the clipped foreground that are large enough and that the border
   * policy leaves: disjoint, inside the region, numbered 1..n in spatial order.
   */
  lemma SemanticResult(context: Context, labelling: Labelling, mask: Mask, probability: Option<Probability>)
    requires context.Valid() && Labels(context, labelling, mask)
    ensures Foreground(context, labelling, mask) <= context.roi
    ensures FinalFrom(context, Foreground(context, labelling, mask), Segments(context, labelling, mask, probability),
                      NormalizeMask(context, labelling, mask, probability).instances)
  {
    SegmentsAreCuts(context, labelling, mask, probability);
    hide Foreground, Segments, Cut, FinalFrom;
    FinalFromItems(context, Foreground(context, labelling, mask), Segments(context, labelling, mask, probability));
  }

  /** No final instance leaves the region, even though filling and segmentation rearrange the foreground. */
  lemma SemanticInside(context: Context, labelling: Labelling, mask: Mask, probability: Option<Probability>, i: nat)
    requires context.Valid() && Labels(context, labelling, mask)
    requires i < |NormalizeMask(context, labelling, mask, probability).instances|
    ensures NormalizeMask(context, labelling, mask, probability).instances[i].mask <= context.roi
  {
    hide Foreground, Labels, Segments, NormalizeMask, Strip, Separate, Sorted, Cut;
    SemanticResult(context, labelling, mask, probability);
  }
}
