/** Laws of native-instance normalization: independence of adapter order, sound suppression, spatial numbering,
    border accounting, confinement to the region, and idempotence. */
module PostprocessingLaws {
  import opened Prelude
  import opened Pixels
  import opened KeyedSort
  import opened GreedySuppression
  import opened Postprocessing

  type Pair = (Mask, Option<real>)

  /** A cleaned, admitted candidate: its derived fields are those of its mask, and cleaning it again changes nothing. */
  ghost predicate Genuine(context: Context, item: Instance) {
    && item.mask != {} && item == InstanceFromMask(context, item.mask, item.confidence)
    && item.mask <= context.roi && Admitted(context, item.mask) && Clean(context, item.mask) == item.mask
  }

  ghost predicate AllGenuine(context: Context, items: seq<Instance>) {
    forall i :: 0 <= i < |items| ==> Genuine(context, items[i])
  }

  lemma CleanTwice(context: Context, mask: Mask)
    requires context.Valid()
    ensures Clean(context, mask) <= context.roi && Clean(context, Clean(context, mask)) == Clean(context, mask)
  {
    if context.profile.fillHoles { FillInsideIdempotent(context.shape, mask, context.roi); }
  }

  lemma CandidateIsGenuine(context: Context, pair: Pair)
    requires context.Valid()
    ensures AllGenuine(context, Candidate(context, pair))
  {
    CleanTwice(context, pair.0);
  }

  lemma {:induction false} CandidatesAreGenuine(context: Context, pairs: seq<Pair>)
    requires context.Valid()
    ensures AllGenuine(context, Candidates(context, pairs))
  {
    if pairs != [] {
      CandidatesAreGenuine(context, pairs[..|pairs| - 1]);
      CandidateIsGenuine(context, pairs[|pairs| - 1]);
    }
  }

  /** The tie-break orders are total: equal keys mean the same instance. */
  lemma KeysSeparate(context: Context, items: seq<Instance>)
    requires context.Valid() && AllGenuine(context, items)
    ensures Separates(items, Spatial(context)) && Separates(items, Rank(context))
  {
    forall i, j | 0 <= i < |items| && 0 <= j < |items|
      ensures SpatialKey(context, items[i]) == SpatialKey(context, items[j]) ==> items[i] == items[j]
      ensures RankKey(context, items[i]) == RankKey(context, items[j]) ==> items[i] == items[j]
    {
      SpatialSeparates(context, items[i], items[j]);
      if RankKey(context, items[i]) == RankKey(context, items[j]) {
        assert RankKey(context, items[i])[1..] == SpatialKey(context, items[i]);
        assert RankKey(context, items[j])[1..] == SpatialKey(context, items[j]);
      }
    }
  }

  /** The spatial key determines mask and confidence. */
  lemma SpatialKeyDetermines(context: Context, a: Instance, b: Instance)
    requires context.Valid() && SpatialKey(context, a) == SpatialKey(context, b)
    ensures a.mask == b.mask && a.confidence == b.confidence
  {
    var ka, kb := SpatialKey(context, a), SpatialKey(context, b);
    assert ka[7] == kb[7] && ka[6] == kb[6] && ka[5] == kb[5];
  }

  lemma SpatialSeparates(context: Context, a: Instance, b: Instance)
    requires context.Valid() && Genuine(context, a) && Genuine(context, b)
    ensures SpatialKey(context, a) == SpatialKey(context, b) ==> a == b
  {
    if SpatialKey(context, a) == SpatialKey(context, b) { SpatialKeyDetermines(context, a, b); }
  }

  lemma GenuineMultiset(context: Context, a: seq<Instance>, b: seq<Instance>)
    requires AllGenuine(context, a) && multiset(b) <= multiset(a)
    ensures AllGenuine(context, b)
  {
    forall i | 0 <= i < |b| ensures Genuine(context, b[i]) {
      assert b[i] in multiset(b);
      assert b[i] in multiset(a);
      assert b[i] in a;
    }
  }

  // ----- adapter order does not matter

  /** Normalization depends only on the multiset of (mask, confidence) pairs. */
  lemma OrderIndependent(context: Context, a: seq<Pair>, b: seq<Pair>)
    requires context.Valid() && multiset(a) == multiset(b)
    ensures Normalize(context, a) == Normalize(context, b)
  {
    FlatMapMultiset(CandidateOf(context), a, b);
    CandidatesAreGenuine(context, a);
    KeysSeparate(context, Candidates(context, a));
    SortIgnoresOrder(Candidates(context, a), Candidates(context, b), Rank(context));
  }

  // ----- suppression

  lemma OverlapSymmetric(context: Context)
    ensures forall a, b :: Overlapping(context)(a, b) == Overlapping(context)(b, a)
  {
    forall a: Instance, b: Instance ensures Overlapping(context)(a, b) == Overlapping(context)(b, a) {
      IouSymmetric(a.mask, b.mask);
    }
  }

  lemma IouSymmetric(a: Mask, b: Mask)
    ensures Iou(a, b) == Iou(b, a)
  {
    assert a * b == b * a && a + b == b + a;
  }

  /** The same for a whole normalization, whatever order the adapter used. */
  lemma SurvivorsAreSound(context: Context, pairs: seq<Pair>)
    requires context.Valid()
    ensures var ranked, kept := Sort(Candidates(context, pairs), Rank(context)), Survivors(context, pairs);
      && Sorted(ranked, Rank(context)) && multiset(ranked) == multiset(Candidates(context, pairs))
      && Sorted(kept, Rank(context)) && AllGenuine(context, kept)
      && (forall i, j :: 0 <= i < |kept| && 0 <= j < |kept| && i != j ==>
            Iou(kept[i].mask, kept[j].mask) < context.profile.iouThreshold)
      && (forall i :: 0 <= i < |ranked| ==> ranked[i] in kept || Suppressed(Overlapping(context), ranked, i, kept))
  {
    var candidates := Candidates(context, pairs);
    SortProperties(candidates, Rank(context));
    var ranked := Sort(candidates, Rank(context));
    SuppressionSeparates(Overlapping(context), ranked);
    SuppressionKeepsRank(Overlapping(context), ranked, Rank(context));
    forall i | 0 <= i < |ranked|
      ensures ranked[i] in Survivors(context, pairs)
           || Suppressed(Overlapping(context), ranked, i, Survivors(context, pairs))
    {
      SuppressionIsJustified(Overlapping(context), ranked, i);
    }
    CandidatesAreGenuine(context, pairs);
    var kept := Survivors(context, pairs);
    GenuineMultiset(context, candidates, kept);
    forall i, j | 0 <= i < |kept| && 0 <= j < |kept| && i != j
      ensures Iou(kept[i].mask, kept[j].mask) < context.profile.iouThreshold
    {
      IouSymmetric(kept[i].mask, kept[j].mask);
      if i < j {
        assert !Overlapping(context)(kept[j], kept[i]);
      } else {
        assert !Overlapping(context)(kept[i], kept[j]);
      }
    }
  }

  // ----- numbering and border policy

  function Strip(items: seq<Instance>): (r: seq<Instance>)
    ensures |r| == |items| && forall i :: 0 <= i < |r| ==> r[i] == items[i].(index := 0)
  {
    seq(|items|, i requires 0 <= i < |items| => items[i].(index := 0))
  }

  lemma {:induction false} InteriorElements(items: seq<Instance>)
    ensures forall x :: multiset(Interior(items))[x] == if x.touches then 0 else multiset(items)[x]
  {
    if items != [] {
      InteriorElements(items[..|items| - 1]);
      assert items == items[..|items| - 1] + [items[|items| - 1]];
    }
  }

  lemma {:induction false} InteriorSorted(items: seq<Instance>, key: Instance -> Key)
    requires Sorted(items, key)
    ensures Sorted(Interior(items), key)
    ensures forall k :: 0 <= k < |Interior(items)| ==> Interior(items)[k] in items && !Interior(items)[k].touches
  {
    if items != [] {
      var shorter := items[..|items| - 1];
      InteriorSorted(shorter, key);
      forall k | 0 <= k < |Interior(shorter)| ensures Leq(key(Interior(shorter)[k]), key(items[|items| - 1])) {
        var at :| 0 <= at < |shorter| && shorter[at] == Interior(shorter)[k];
        assert items[at] == Interior(shorter)[k];
      }
      forall k | 0 <= k < |Interior(items)| ensures Interior(items)[k] in items && !Interior(items)[k].touches {
        if k < |Interior(shorter)| {
          assert Interior(items)[k] == Interior(shorter)[k] && Interior(shorter)[k] in shorter;
        }
      }
    }
  }

  lemma StripAppend(items: seq<Instance>, last: Instance)
    ensures Strip(items + [last]) == Strip(items) + [last.(index := 0)]
  {
  }

  lemma {:induction false} InteriorOfStripped(items: seq<Instance>)
    ensures Strip(Interior(items)) == Interior(Strip(items))
    ensures Touching(items) == Touching(Strip(items))
  {
    if items != [] {
      hide Strip;
      var before, last := items[..|items| - 1], items[|items| - 1];
      InteriorOfStripped(before);
      assert items == before + [last];
      StripAppend(before, last);
      StripAppend(Interior(before), last);
      assert (Strip(before) + [last.(index := 0)])[..|before|] == Strip(before);
    }
  }

  /** The survivors that the border policy leaves, before numbering. */
  function Remaining(context: Context, kept: seq<Instance>): seq<Instance> {
    if context.profile.excludeBorder then Interior(kept) else kept
  }

  lemma RemainingProperties(context: Context, kept: seq<Instance>)
    requires AllGenuine(context, kept) && Sorted(kept, Rank(context)) && Separate(Overlapping(context), kept)
    ensures var remaining := Remaining(context, kept);
      AllGenuine(context, remaining) && Sorted(remaining, Rank(context)) && Separate(Overlapping(context), remaining)
      && (context.profile.excludeBorder ==> Interior(remaining) == remaining)
  {
    if context.profile.excludeBorder {
      InteriorSorted(kept, Rank(context));
      InteriorSeparate(Overlapping(context), kept);
      InteriorElements(kept);
      GenuineMultiset(context, kept, Interior(kept));
      InteriorOfInterior(Interior(kept));
    }
  }

  lemma {:induction false} InteriorSeparate(overlap: (Instance, Instance) -> bool, items: seq<Instance>)
    requires Separate(overlap, items)
    ensures Separate(overlap, Interior(items))
    ensures forall k :: 0 <= k < |Interior(items)| ==> Interior(items)[k] in items
  {
    if items != [] {
      var shorter := items[..|items| - 1];
      InteriorSeparate(overlap, shorter);
      forall k | 0 <= k < |Interior(shorter)| ensures !overlap(items[|items| - 1], Interior(shorter)[k]) {
        var at :| 0 <= at < |shorter| && shorter[at] == Interior(shorter)[k];
        assert items[at] == Interior(shorter)[k];
      }
      forall k | 0 <= k < |Interior(items)| ensures Interior(items)[k] in items {
        if k < |Interior(shorter)| {
          assert Interior(items)[k] == Interior(shorter)[k] && Interior(shorter)[k] in shorter;
        }
      }
    }
  }

  lemma {:induction false} InteriorOfInterior(items: seq<Instance>)
    requires forall k :: 0 <= k < |items| ==> !items[k].touches
    ensures Interior(items) == items
  {
    if items != [] {
      InteriorOfInterior(items[..|items| - 1]);
      assert items == items[..|items| - 1] + [items[|items| - 1]];
    }
  }

  /** The key does not look at the instance number. */
  ghost predicate IgnoresIndex(key: Instance -> Key) {
    forall item: Instance, n: nat :: key(item.(index := n)) == key(item)
  }

  lemma SpatialIgnoresIndex(context: Context)
    ensures IgnoresIndex(Spatial(context))
  {
  }

  /** Renumbering the interior of a numbered sorted list only changes the numbers. */
  lemma RefinalizeInterior(ordered: seq<Instance>, key: Instance -> Key)
    requires Sorted(ordered, key) && IgnoresIndex(key)
    ensures Number(Sort(Interior(Number(ordered)), key)) == Number(Interior(ordered))
  {
    var numbered := Number(ordered);
    forall i, j | 0 <= i < j < |numbered| ensures Leq(key(numbered[i]), key(numbered[j])) {
      assert Leq(key(ordered[i]), key(ordered[j]));
    }
    InteriorSorted(numbered, key);
    SortOfSorted(Interior(numbered), key);
    InteriorOfNumbered(ordered);
  }

  lemma InteriorOfNumbered(ordered: seq<Instance>)
    ensures Number(Interior(Number(ordered))) == Number(Interior(ordered))
  {
    assert Strip(Number(ordered)) == Strip(ordered);
    InteriorOfStripped(Number(ordered));
    InteriorOfStripped(ordered);
    NumberForgets(Interior(Number(ordered)), Interior(ordered));
  }

  lemma NumberForgets(a: seq<Instance>, b: seq<Instance>)
    requires Strip(a) == Strip(b)
    ensures Number(a) == Number(b)
  {
    assert |a| == |Strip(a)| && |b| == |Strip(b)|;
    forall i | 0 <= i < |a| ensures Number(a)[i] == Number(b)[i] {
      assert Strip(a)[i] == Strip(b)[i];
    }
  }

  /** The interior of the sorted list is the sorted interior. */
  lemma InteriorCommutes(kept: seq<Instance>, key: Instance -> Key)
    requires Separates(kept, key)
    ensures Interior(Sort(kept, key)) == Sort(Interior(kept), key)
  {
    var ordered := Sort(kept, key);
    SortProperties(kept, key);
    InteriorSorted(ordered, key);
    InteriorElements(ordered);
    InteriorElements(kept);
    SortProperties(Interior(kept), key);
    assert multiset(Interior(ordered)) == multiset(Interior(kept));
    SeparatesMultiset(kept, ordered, key);
    SeparatesSublist(ordered, Interior(ordered), key);
    SortedIsUnique(Interior(ordered), Sort(Interior(kept), key), key);
  }

  lemma SeparatesSublist(items: seq<Instance>, part: seq<Instance>, key: Instance -> Key)
    requires Separates(items, key) && forall k :: 0 <= k < |part| ==> part[k] in items
    ensures Separates(part, key)
  {
  }

  lemma GenuineSort(context: Context, kept: seq<Instance>)
    requires AllGenuine(context, kept)
    ensures var ordered := Sort(kept, Spatial(context));
      AllGenuine(context, ordered) && Strip(ordered) == ordered && Sorted(ordered, Spatial(context))
      && multiset(ordered) == multiset(kept) && |ordered| == |kept|
  {
    SortProperties(kept, Spatial(context));
    GenuineMultiset(context, kept, Sort(kept, Spatial(context)));
  }

  /** The final list is the remaining survivors in spatial order, numbered from 1: renumbering after the border
      policy neither reorders nor loses anything. */
  lemma FinalInstances(context: Context, kept: seq<Instance>)
    requires context.Valid() && AllGenuine(context, kept)
    ensures ApplyBorderPolicy(context, Finalize(context, kept)).instances
         == Number(Sort(Remaining(context, kept), Spatial(context)))
  {
    if context.profile.excludeBorder {
      var key := Spatial(context);
      KeysSeparate(context, kept);
      SpatialIgnoresIndex(context);
      SortProperties(kept, key);
      RefinalizeInterior(Sort(kept, key), key);
      InteriorCommutes(kept, key);
    }
  }

  /** The final instances of a run are its remaining survivors, arranged and numbered. */
  lemma ResultInstances(context: Context, pairs: seq<Pair>) returns (ordered: seq<Instance>)
    requires context.Valid()
    ensures var remaining := Remaining(context, Survivors(context, pairs));
      && Normalize(context, pairs).instances == Number(ordered)
      && AllGenuine(context, ordered) && Strip(ordered) == ordered && Sorted(ordered, Spatial(context))
      && multiset(ordered) == multiset(remaining) && |ordered| == |remaining|
      && AllGenuine(context, remaining) && Sorted(remaining, Rank(context)) && Separate(Overlapping(context), remaining)
      && (context.profile.excludeBorder ==> Interior(remaining) == remaining)
  {
    var kept := Survivors(context, pairs);
    SurvivorsAreSound(context, pairs);
    SuppressionSeparates(Overlapping(context), Sort(Candidates(context, pairs), Rank(context)));
    RemainingProperties(context, kept);
    FinalInstances(context, kept);
    GenuineSort(context, Remaining(context, kept));
    ordered := Sort(Remaining(context, kept), Spatial(context));
  }

  lemma NumberedShape(context: Context, ordered: seq<Instance>, remaining: seq<Instance>, instances: seq<Instance>)
    requires instances == Number(ordered) && multiset(ordered) == multiset(remaining)
    requires AllGenuine(context, ordered) && Strip(ordered) == ordered && Sorted(ordered, Spatial(context))
    requires Separate(Overlapping(context), remaining)
    ensures forall i :: 0 <= i < |instances| ==>
      instances[i].index == i + 1 && Genuine(context, instances[i].(index := 0))
    ensures Sorted(instances, Spatial(context)) && Separate(Overlapping(context), instances)
  {
    OverlapSymmetric(context);
    SeparateRearranged(Overlapping(context), remaining, ordered);
    SpatialIgnoresIndex(context);
    NumberedKeeps(ordered, Spatial(context), Overlapping(context));
    forall i | 0 <= i < |instances| ensures Genuine(context, instances[i].(index := 0)) {
      assert Strip(ordered)[i] == ordered[i];
    }
  }

  lemma NumberedKeeps(ordered: seq<Instance>, key: Instance -> Key, overlap: (Instance, Instance) -> bool)
    requires Sorted(ordered, key) && IgnoresIndex(key) && Separate(overlap, ordered)
    requires forall a: Instance, b: Instance, m: nat, n: nat :: overlap(a.(index := m), b.(index := n)) == overlap(a, b)
    ensures Sorted(Number(ordered), key) && Separate(overlap, Number(ordered))
  {
    var numbered := Number(ordered);
    forall i, j | 0 <= i < j < |numbered|
      ensures Leq(key(numbered[i]), key(numbered[j])) && !overlap(numbered[j], numbered[i])
    {
      assert Leq(key(ordered[i]), key(ordered[j])) && !overlap(ordered[j], ordered[i]);
    }
  }

  /** Every final instance is genuine and lies in the region; they are numbered 1..n in spatial order and pairwise
      below the overlap threshold. */
  lemma ResultShape(context: Context, pairs: seq<Pair>)
    requires context.Valid()
    ensures var instances := Normalize(context, pairs).instances;
      && (forall i :: 0 <= i < |instances| ==>
        instances[i].index == i + 1 && Genuine(context, instances[i].(index := 0)))
      && Sorted(instances, Spatial(context)) && Separate(Overlapping(context), instances)
  {
    var ordered := ResultInstances(context, pairs);
    NumberedShape(context, ordered, Remaining(context, Survivors(context, pairs)), Normalize(context, pairs).instances);
  }

  /** Counting at the border policy: what is counted is what was given, kept plus excluded; exclusion removes
      exactly the boundary candidates, and without it nothing is removed. */
  lemma PolicyAccounting(context: Context, kept: seq<Instance>)
    ensures var result := ApplyBorderPolicy(context, Finalize(context, kept));
      && result.candidateCount == |kept|
      && result.candidateCount == |result.instances| + result.excludedCount
      && result.boundaryCount <= result.candidateCount
      && (if context.profile.excludeBorder
          then result.excludedCount == result.boundaryCount
               && forall i :: 0 <= i < |result.instances| ==> !result.instances[i].touches
          else result.excludedCount == 0)
  {
    var candidates := Finalize(context, kept);
    SortProperties(kept, Spatial(context));
    InteriorIsShorter(candidates);
    SortProperties(Interior(candidates), Spatial(context));
    if context.profile.excludeBorder {
      InteriorElements(candidates);
      var ordered := Sort(Interior(candidates), Spatial(context));
      forall i | 0 <= i < |ordered| ensures !ordered[i].touches {
        assert ordered[i] in multiset(Interior(candidates));
      }
    }
  }

  /** Exact border accounting of a run: its candidates are the survivors of suppression. */
  lemma BorderAccounting(context: Context, pairs: seq<Pair>)
    requires context.Valid()
    ensures var result := Normalize(context, pairs);
      && result.candidateCount == |Survivors(context, pairs)|
      && result.candidateCount == |result.instances| + result.excludedCount
      && result.boundaryCount <= result.candidateCount
      && (if context.profile.excludeBorder
          then result.excludedCount == result.boundaryCount
               && forall i :: 0 <= i < |result.instances| ==> !result.instances[i].touches
          else result.excludedCount == 0)
  {
    PolicyAccounting(context, Survivors(context, pairs));
  }

  // ----- idempotence

  /** The (mask, confidence) pairs of a result, as the next run's input. */
  function Outputs(items: seq<Instance>): (r: seq<Pair>)
    ensures |r| == |items| && forall i :: 0 <= i < |r| ==> r[i] == (items[i].mask, items[i].confidence)
  {
    seq(|items|, i requires 0 <= i < |items| => (items[i].mask, items[i].confidence))
  }

  lemma {:induction false} GenuineOutputs(context: Context, items: seq<Instance>)
    requires AllGenuine(context, Strip(items))
    ensures Candidates(context, Outputs(items)) == Strip(items)
  {
    if items != [] {
      var shorter := items[..|items| - 1];
      assert Strip(shorter) == Strip(items)[..|items| - 1];
      GenuineOutputs(context, shorter);
      assert Outputs(items)[..|items| - 1] == Outputs(shorter);
      assert Genuine(context, Strip(items)[|items| - 1]);
      assert Candidate(context, Outputs(items)[|items| - 1]) == [Strip(items)[|items| - 1]];
      assert Strip(items) == Strip(shorter) + [Strip(items)[|items| - 1]];
    }
  }

  /** Normalizing the output again returns the same instances in the same order and excludes nothing more. */
  lemma Idempotent(context: Context, pairs: seq<Pair>)
    requires context.Valid()
    ensures var result := Normalize(context, pairs);
      var again := Normalize(context, Outputs(result.instances));
      again.instances == result.instances && again.excludedCount == 0
  {
    var remaining := Remaining(context, Survivors(context, pairs));
    var ordered := ResultInstances(context, pairs);
    var outputs := Outputs(Normalize(context, pairs).instances);
    RerunCandidates(context, Normalize(context, pairs).instances, ordered);
    SecondRun(context, outputs, ordered, remaining);
    var ordered' := ResultInstances(context, outputs);
    UniqueArrangement(context, ordered, ordered', remaining);
    BorderAccounting(context, outputs);
  }

  lemma RerunCandidates(context: Context, instances: seq<Instance>, ordered: seq<Instance>)
    requires instances == Number(ordered) && Strip(ordered) == ordered && AllGenuine(context, ordered)
    ensures Candidates(context, Outputs(instances)) == ordered
  {
    assert Strip(instances) == Strip(ordered);
    GenuineOutputs(context, instances);
  }

  lemma UniqueArrangement(context: Context, a: seq<Instance>, b: seq<Instance>, items: seq<Instance>)
    requires context.Valid() && AllGenuine(context, a) && multiset(a) == multiset(items)
    requires multiset(b) == multiset(items) && Sorted(a, Spatial(context)) && Sorted(b, Spatial(context))
    ensures a == b
  {
    KeysSeparate(context, a);
    SortedIsUnique(a, b, Spatial(context));
  }

  /** Ranking and suppressing a rearrangement of separated survivors gives them back. */
  lemma SecondRun(context: Context, pairs: seq<Pair>, ordered: seq<Instance>, remaining: seq<Instance>)
    requires context.Valid() && Candidates(context, pairs) == ordered && multiset(ordered) == multiset(remaining)
    requires AllGenuine(context, remaining) && Sorted(remaining, Rank(context))
      && Separate(Overlapping(context), remaining)
    ensures Survivors(context, pairs) == remaining
  {
    SortProperties(ordered, Rank(context));
    KeysSeparate(context, remaining);
    SortedIsUnique(remaining, Sort(ordered, Rank(context)), Rank(context));
    SuppressNothing(Overlapping(context), remaining);
  }
}
