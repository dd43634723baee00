/** Native-instance normalization: clip, fill, drop small candidates, rank them by a total order, suppress
    overlaps greedily, number the survivors in spatial order and apply the border policy. */
module Postprocessing {
  import opened Prelude
  import opened Pixels
  import opened KeyedSort
  import opened GreedySuppression

  datatype Instance = Instance(index: nat, mask: Mask, box: Box, area: nat, confidence: Option<real>, touches: bool)

  datatype Profile = Profile(minArea: nat, fillHoles: bool, excludeBorder: bool, iouThreshold: real)

  /** The image, its analysis region, the profile, and the content digest used as last tie-breaker. */
  datatype Context = Context(shape: Shape, roi: Mask, profile: Profile, digest: Mask -> int) {
    ghost predicate Valid() {
      && roi <= Image(shape)
      && forall a, b :: digest(a) == digest(b) ==> a == b
    }
  }

  /** A model output with its own array shape. */
  datatype Raw = Raw(shape: Shape, mask: Mask)

  datatype Result = Result(instances: seq<Instance>, candidateCount: nat, boundaryCount: nat, excludedCount: nat)
  datatype Outcome = LengthMismatch | ShapeMismatch | Normalized(result: Result)

  function InstanceFromMask(context: Context, mask: Mask, confidence: Option<real>): Instance
    requires mask != {}
  {
    Instance(0, mask, BoundingBox(mask), |mask|, confidence, TouchesBoundary(context.shape, mask, context.roi))
  }

  function SpatialKey(context: Context, item: Instance): Key {
    [item.box.y1 as real, item.box.x1 as real, item.box.y2 as real, item.box.x2 as real, item.area as real,
     if item.confidence.None? then 1.0 else 0.0,
     -(if item.confidence.None? then 0.0 else item.confidence.value),
     context.digest(item.mask) as real]
  }

  function RankKey(context: Context, item: Instance): Key {
    [-(if item.confidence.None? then -1.0 else item.confidence.value)] + SpatialKey(context, item)
  }

  function Spatial(context: Context): Instance -> Key { item => SpatialKey(context, item) }
  function Rank(context: Context): Instance -> Key { item => RankKey(context, item) }

  function Iou(a: Mask, b: Mask): real {
    if a + b == {} then 0.0 else |a * b| as real / Positive(|a + b|)
  }

  function Positive(n: nat): (r: real)
    ensures r > 0.0 && (n > 0 ==> r == n as real)
  {
    if n == 0 then 1.0 else n as real
  }

  function Overlapping(context: Context): (Instance, Instance) -> bool {
    (a: Instance, b: Instance) => Iou(a.mask, b.mask) >= context.profile.iouThreshold
  }

  // ----- the pipeline as a function

  function Clean(context: Context, mask: Mask): Mask {
    if context.profile.fillHoles then FillInside(context.shape, mask, context.roi) else mask * context.roi
  }

  predicate Admitted(context: Context, mask: Mask) {
    mask != {} && |mask| >= context.profile.minArea
  }

  function Candidate(context: Context, pair: (Mask, Option<real>)): seq<Instance> {
    var cleaned := Clean(context, pair.0);
    if Admitted(context, cleaned) then [InstanceFromMask(context, cleaned, pair.1)] else []
  }

  function CandidateOf(context: Context): ((Mask, Option<real>)) -> seq<Instance> {
    pair => Candidate(context, pair)
  }

  function Candidates(context: Context, pairs: seq<(Mask, Option<real>)>): seq<Instance> {
    FlatMap(CandidateOf(context), pairs)
  }

  function Number(items: seq<Instance>): (r: seq<Instance>)
    ensures |r| == |items| && forall i :: 0 <= i < |r| ==> r[i] == items[i].(index := i + 1)
  {
    seq(|items|, i requires 0 <= i < |items| => items[i].(index := i + 1))
  }

  function Finalize(context: Context, items: seq<Instance>): seq<Instance> {
    Number(Sort(items, Spatial(context)))
  }

  function Interior(items: seq<Instance>): seq<Instance> {
    if items == [] then []
    else
      var rest := Interior(items[..|items| - 1]);
      if items[|items| - 1].touches then rest else rest + [items[|items| - 1]]
  }

  function ApplyBorderPolicy(context: Context, candidates: seq<Instance>): Result {
    var final := if context.profile.excludeBorder then Finalize(context, Interior(candidates)) else candidates;
    InteriorIsShorter(candidates);
    SortProperties(Interior(candidates), Spatial(context));
    Result(final, |candidates|, Touching(candidates), |candidates| - |final|)
  }

  function Touching(items: seq<Instance>): nat {
    if items == [] then 0
    else Touching(items[..|items| - 1]) + if items[|items| - 1].touches then 1 else 0
  }

  lemma {:induction false} InteriorIsShorter(items: seq<Instance>)
    ensures |Interior(items)| == |items| - Touching(items)
  {
    if items != [] { InteriorIsShorter(items[..|items| - 1]); }
  }

  function Survivors(context: Context, pairs: seq<(Mask, Option<real>)>): seq<Instance> {
    Suppress(Overlapping(context), Sort(Candidates(context, pairs), Rank(context)))
  }

  function Normalize(context: Context, pairs: seq<(Mask, Option<real>)>): Result {
    ApplyBorderPolicy(context, Finalize(context, Survivors(context, pairs)))
  }

  /** Pairs each mask with its confidence; missing confidences are None throughout. */
  function Paired(masks: seq<Raw>, confidences: Option<seq<Option<real>>>): (r: seq<(Mask, Option<real>)>)
    requires confidences.Some? ==> |confidences.value| == |masks|
    ensures |r| == |masks|
    ensures forall i :: 0 <= i < |r| ==>
      r[i] == (masks[i].mask, if confidences.None? then None else confidences.value[i])
  {
    seq(|masks|, i requires 0 <= i < |masks| =>
      (masks[i].mask, if confidences.None? then None else confidences.value[i]))
  }

  // ----- the adapter-facing method

  lemma CandidatesStep(context: Context, pairs: seq<(Mask, Option<real>)>, i: nat, cleaned: Mask,
      confidence: Option<real>)
    requires i < |pairs| && pairs[i].1 == confidence && cleaned == Clean(context, pairs[i].0)
    ensures !(cleaned != {} && |cleaned| >= context.profile.minArea) ==>
      Candidates(context, pairs[..i + 1]) == Candidates(context, pairs[..i])
    ensures cleaned != {} && |cleaned| >= context.profile.minArea ==>
      Candidates(context, pairs[..i + 1]) ==
        Candidates(context, pairs[..i]) + [InstanceFromMask(context, cleaned, confidence)]
  {
    assert pairs[..i + 1][..i] == pairs[..i];
  }

  method CleanMask(context: Context, mask: Mask) returns (binary: Mask)
    ensures binary == Clean(context, mask)
    ensures binary <= context.roi
  {
    binary := mask * context.roi;
    if context.profile.fillHoles {
      binary := FillHoles(context.shape, binary) * context.roi;
    }
  }

  /** One turn of the cleaning loop. */
  method AdmitCandidate(context: Context, mask: Mask, confidence: Option<real>, candidates: seq<Instance>,
                        ghost pairs: seq<(Mask, Option<real>)>, ghost i: nat)
    returns (extended: seq<Instance>)
    requires i < |pairs| && pairs[i] == (mask, confidence) && candidates == Candidates(context, pairs[..i])
    ensures extended == Candidates(context, pairs[..i + 1])
  {
    var binary := CleanMask(context, mask);
    CandidatesStep(context, pairs, i, binary, confidence);
    extended := candidates;
    if binary != {} && |binary| >= context.profile.minArea {
      extended := candidates + [InstanceFromMask(context, binary, confidence)];
    }
  }

  /** The cleaning loop: every admitted mask becomes a candidate, in adapter order. */
  method CollectCandidates(context: Context, masks: seq<Raw>, confidences: Option<seq<Option<real>>>)
    returns (shapesMatch: bool, candidates: seq<Instance>)
    requires confidences.Some? ==> |confidences.value| == |masks|
    ensures shapesMatch <==> forall i :: 0 <= i < |masks| ==> masks[i].shape == context.shape
    ensures shapesMatch ==> candidates == Candidates(context, Paired(masks, confidences))
  {
    ghost var pairs := Paired(masks, confidences);
    candidates := [];
    var i := 0;
    shapesMatch := true;
    while i < |masks| && shapesMatch
      invariant 0 <= i <= |masks|
      invariant forall j :: 0 <= j < i ==> masks[j].shape == context.shape
      invariant !shapesMatch ==> i < |masks| && masks[i].shape != context.shape
      invariant candidates == Candidates(context, pairs[..i])
      decreases |masks| - i, shapesMatch
    {
      if masks[i].shape != context.shape {
        shapesMatch := false;
      } else {
        var confidence := if confidences.None? then None else confidences.value[i];
        candidates := AdmitCandidate(context, masks[i].mask, confidence, candidates, pairs, i);
        i := i + 1;
      }
    }
    assert pairs[..|masks|] == pairs;
  }

  /** The suppression loop over the ranked candidates. */
  method SuppressOverlaps(context: Context, ranked: seq<Instance>) returns (kept: seq<Instance>)
    ensures kept == Suppress(Overlapping(context), ranked)
  {
    var overlap := Overlapping(context);
    kept := [];
    for i := 0 to |ranked|
      invariant kept == Suppress(overlap, ranked[..i])
    {
      assert ranked[..i + 1][..i] == ranked[..i];
      if !OverlapsAny(overlap, ranked[i], kept) {
        kept := kept + [ranked[i]];
      }
    }
    assert ranked[..|ranked|] == ranked;
  }

  method NormalizeNativeInstances(context: Context, masks: seq<Raw>, confidences: Option<seq<Option<real>>>)
    returns (outcome: Outcome)
    ensures outcome.LengthMismatch? <==> confidences.Some? && |confidences.value| != |masks|
    ensures outcome.ShapeMismatch? <==>
      !outcome.LengthMismatch? && exists i :: 0 <= i < |masks| && masks[i].shape != context.shape
    ensures outcome.Normalized? ==> outcome.result == Normalize(context, Paired(masks, confidences))
  {
    if confidences.Some? && |confidences.value| != |masks| { return LengthMismatch; }
    var shapesMatch, candidates := CollectCandidates(context, masks, confidences);
    if !shapesMatch { return ShapeMismatch; }
    candidates := Sort(candidates, Rank(context));
    var kept := SuppressOverlaps(context, candidates);
    outcome := Normalized(ApplyBorderPolicy(context, Finalize(context, kept)));
  }
}
