/** The valid-pixel mask of an analysis (app/analysis/preprocessing.py). */
module RegionOfInterest {
  import opened Prelude
  import opened Pixels

  /** A half-open rectangle; the request contract admits only non-empty ones with non-negative corners. */
  datatype Rect = Rect(x1: int, y1: int, x2: int, y2: int) {
    predicate Wellformed() { 0 <= x1 < x2 && 0 <= y1 < y2 }
    predicate Has(x: int, y: int) { x1 <= x < x2 && y1 <= y < y2 }
    predicate Fits(shape: Shape) { x2 <= shape.width && y2 <= shape.height }
  }

  datatype RoiBox = RoiBox(id: Option<string>, rect: Rect, active: bool)

  datatype RoiMode = FullImage | Boxes

  datatype RoiError =
    | AnalysisRoiOutOfBounds
    | InvalidRegionOutOfBounds
    | NoActiveBox
    | BoxOutOfBounds(id: Option<string>)
    | EmptyEffectiveRoi

  datatype RoiOutcome = Rejected(error: RoiError) | Built(mask: Mask)

  predicate InSome(rects: seq<Rect>, x: int, y: int) {
    exists i :: 0 <= i < |rects| && rects[i].Has(x, y)
  }

  predicate AllFit(rects: seq<Rect>, shape: Shape) {
    forall i :: 0 <= i < |rects| ==> rects[i].Fits(shape)
  }

  function Active(boxes: seq<RoiBox>): seq<RoiBox> {
    if boxes == [] then []
    else Active(boxes[..|boxes| - 1]) + if boxes[|boxes| - 1].active then [boxes[|boxes| - 1]] else []
  }

  function Rects(boxes: seq<RoiBox>): (r: seq<Rect>)
    ensures |r| == |boxes|
  {
    seq(|boxes|, i requires 0 <= i < |boxes| => boxes[i].rect)
  }

  /** Inside the valid rectangle and outside every invalid one. */
  function ValidPixels(shape: Shape, valid: Rect, invalid: seq<Rect>): Mask {
    set p | p in Image(shape) && valid.Has(p.x, p.y) && !InSome(invalid, p.x, p.y)
  }

  function FirstOutside(boxes: seq<RoiBox>, shape: Shape): Option<RoiBox> {
    if boxes == [] then None
    else if !boxes[0].rect.Fits(shape) then Some(boxes[0])
    else FirstOutside(boxes[1..], shape)
  }

  /** Which pixels count, or which error is raised first. */
  function RoiOf(shape: Shape, valid: Rect, invalid: seq<Rect>, mode: RoiMode, boxes: seq<RoiBox>): RoiOutcome {
    if !valid.Fits(shape) then Rejected(AnalysisRoiOutOfBounds)
    else if !AllFit(invalid, shape) then Rejected(InvalidRegionOutOfBounds)
    else if mode.FullImage? then Built(ValidPixels(shape, valid, invalid))
    else
      var active := Active(boxes);
      if active == [] then Rejected(NoActiveBox)
      else if FirstOutside(active, shape).Some? then Rejected(BoxOutOfBounds(FirstOutside(active, shape).value.id))
      else
        var effective := set p | p in ValidPixels(shape, valid, invalid) && InSome(Rects(active), p.x, p.y);
        if effective == {} then Rejected(EmptyEffectiveRoi) else Built(effective)
  }

  function PixelsOf(mask: array2<bool>): (r: Mask)
    reads mask
    ensures forall p :: p in r <==> 0 <= p.x < mask.Length1 && 0 <= p.y < mask.Length0 && mask[p.y, p.x]
  {
    set x, y | 0 <= x < mask.Length1 && 0 <= y < mask.Length0 && mask[y, x] :: Pixel(x, y)
  }

  /** Writes `value` into the rows and columns of a rectangle. */
  method Fill(mask: array2<bool>, rect: Rect, value: bool)
    requires 0 <= rect.x1 && 0 <= rect.y1 && rect.x2 <= mask.Length1 && rect.y2 <= mask.Length0
    modifies mask
    ensures forall x, y :: 0 <= x < mask.Length1 && 0 <= y < mask.Length0 ==>
      mask[y, x] == if rect.Has(x, y) then value else old(mask[y, x])
  {
    forall x, y | rect.x1 <= x < rect.x2 && rect.y1 <= y < rect.y2 {
      mask[y, x] := value;
    }
  }

  lemma InSomeAppend(rects: seq<Rect>, n: nat, x: int, y: int)
    requires n < |rects|
    ensures InSome(rects[..n + 1], x, y) <==> InSome(rects[..n], x, y) || rects[n].Has(x, y)
  {
    assert forall i :: 0 <= i < n ==> rects[..n][i] == rects[..n + 1][i];
    assert rects[..n + 1][n] == rects[n];
  }

  /** Writes rectangles one after another; stops at the first that leaves the image. */
  method FillAll(mask: array2<bool>, rects: seq<Rect>, value: bool) returns (outside: Option<nat>)
    requires forall i :: 0 <= i < |rects| ==> rects[i].Wellformed()
    modifies mask
    ensures outside.None? <==> AllFit(rects, Shape(mask.Length1, mask.Length0))
    ensures outside.Some? ==> outside.value < |rects|
    ensures outside.Some? ==> !rects[outside.value].Fits(Shape(mask.Length1, mask.Length0))
    ensures outside.Some? ==> AllFit(rects[..outside.value], Shape(mask.Length1, mask.Length0))
    ensures outside.None? ==> forall x, y :: 0 <= x < mask.Length1 && 0 <= y < mask.Length0 ==>
      mask[y, x] == if InSome(rects, x, y) then value else old(mask[y, x])
  {
    var shape := Shape(mask.Length1, mask.Length0);
    for n := 0 to |rects|
      invariant AllFit(rects[..n], shape)
      invariant forall x, y :: 0 <= x < mask.Length1 && 0 <= y < mask.Length0 ==>
        mask[y, x] == if InSome(rects[..n], x, y) then value else old(mask[y, x])
    {
      if !rects[n].Fits(shape) {
        return Some(n);
      }
      Fill(mask, rects[n], value);
      forall x, y ensures InSome(rects[..n + 1], x, y) <==> InSome(rects[..n], x, y) || rects[n].Has(x, y) {
        InSomeAppend(rects, n, x, y);
      }
    }
    assert rects[..|rects|] == rects;
    outside := None;
  }

  lemma {:induction false} FirstOutsideAt(boxes: seq<RoiBox>, shape: Shape, n: nat)
    requires n <= |boxes| && AllFit(Rects(boxes)[..n], shape)
    ensures n < |boxes| && !boxes[n].rect.Fits(shape) ==> FirstOutside(boxes, shape) == Some(boxes[n])
    ensures n == |boxes| ==> FirstOutside(boxes, shape) == None
  {
    if n > 0 {
      assert Rects(boxes)[..n][0] == boxes[0].rect;
      assert Rects(boxes[1..])[..n - 1] == Rects(boxes)[..n][1..];
      FirstOutsideAt(boxes[1..], shape, n - 1);
    }
  }

  lemma {:induction false} ActiveWellformed(boxes: seq<RoiBox>)
    requires forall i :: 0 <= i < |boxes| ==> boxes[i].rect.Wellformed()
    ensures forall i :: 0 <= i < |Active(boxes)| ==> Active(boxes)[i].rect.Wellformed()
  {
    if boxes != [] { ActiveWellformed(boxes[..|boxes| - 1]); }
  }

  method BuildAnalysisRoi(shape: Shape, valid: Rect, invalid: seq<Rect>, mode: RoiMode, boxes: seq<RoiBox>)
    returns (outcome: RoiOutcome)
    requires valid.Wellformed() && forall i :: 0 <= i < |invalid| ==> invalid[i].Wellformed()
    requires forall i :: 0 <= i < |boxes| ==> boxes[i].rect.Wellformed()
    ensures outcome == RoiOf(shape, valid, invalid, mode, boxes)
  {
    if valid.x2 > shape.width || valid.y2 > shape.height {
      return Rejected(AnalysisRoiOutOfBounds);
    }
    var mask := new bool[shape.height, shape.width]((_, _) => false);
    Fill(mask, valid, true);
    var outside := FillAll(mask, invalid, false);
    if outside.Some? {
      return Rejected(InvalidRegionOutOfBounds);
    }
    var base := PixelsOf(mask);
    assert base == ValidPixels(shape, valid, invalid);
    if mode.FullImage? {
      return Built(base);
    }
    var active := Active(boxes);
    if active == [] {
      return Rejected(NoActiveBox);
    }
    ActiveWellformed(boxes);
    var union := new bool[shape.height, shape.width]((_, _) => false);
    outside := FillAll(union, Rects(active), true);
    FirstOutsideAt(active, shape, if outside.Some? then outside.value else |active|);
    if outside.Some? {
      return Rejected(BoxOutOfBounds(active[outside.value].id));
    }
    var effective := base * PixelsOf(union);
    assert effective == set p | p in base && InSome(Rects(active), p.x, p.y);
    if effective == {} {
      return Rejected(EmptyEffectiveRoi);
    }
    outcome := Built(effective);
  }

  // ----- laws

  /** A pixel counts exactly when it is in the image, in the valid rectangle, in no invalid one and, with boxes, in
      some active box. */
  lemma {:induction false} RoiPixel(shape: Shape, valid: Rect, invalid: seq<Rect>, mode: RoiMode, boxes: seq<RoiBox>,
      p: Pixel)
    requires RoiOf(shape, valid, invalid, mode, boxes).Built?
    ensures p in RoiOf(shape, valid, invalid, mode, boxes).mask
       <==> InImage(shape, p) && valid.Has(p.x, p.y)
            && (forall i :: 0 <= i < |invalid| ==> !invalid[i].Has(p.x, p.y))
            && (mode.Boxes? ==> exists i :: 0 <= i < |boxes| && boxes[i].active && boxes[i].rect.Has(p.x, p.y))
  {
    ActiveCovers(boxes, p.x, p.y);
  }

  /** Which error is raised, by the request itself: the valid rectangle is looked at first, then the invalid ones, then
      whether a box is active, then the active boxes in order, then whether anything is left. */
  lemma RoiErrors(shape: Shape, valid: Rect, invalid: seq<Rect>, mode: RoiMode, boxes: seq<RoiBox>)
    ensures
      var outcome := RoiOf(shape, valid, invalid, mode, boxes);
      var validFits := valid.x2 <= shape.width && valid.y2 <= shape.height;
      var invalidFit :=
        forall i :: 0 <= i < |invalid| ==> invalid[i].x2 <= shape.width && invalid[i].y2 <= shape.height;
      var someActive := exists i :: 0 <= i < |boxes| && boxes[i].active;
      && (outcome == Rejected(AnalysisRoiOutOfBounds) <==> !validFits)
      && (outcome == Rejected(InvalidRegionOutOfBounds) <==> validFits && !invalidFit)
      && (outcome == Rejected(NoActiveBox) <==> validFits && invalidFit && mode.Boxes? && !someActive)
      && (outcome.Rejected? && outcome.error.BoxOutOfBounds? <==>
            validFits && invalidFit && mode.Boxes? && exists i :: FirstBoxOutside(shape, boxes, i))
      && (outcome.Rejected? && outcome.error.BoxOutOfBounds? ==>
            exists i :: FirstBoxOutside(shape, boxes, i) && boxes[i].id == outcome.error.id)
  {
    ActiveEmpty(boxes);
    hide Active, FirstOutside;
    FirstOutsideIsFirst(shape, boxes);
  }

  /** The first active box that leaves the image. */
  ghost predicate FirstBoxOutside(shape: Shape, boxes: seq<RoiBox>, i: int) {
    && 0 <= i < |boxes| && boxes[i].active && !(boxes[i].rect.x2 <= shape.width && boxes[i].rect.y2 <= shape.height)
    && forall j :: 0 <= j < i && boxes[j].active ==> boxes[j].rect.x2 <= shape.width && boxes[j].rect.y2 <= shape.height
  }

  lemma {:induction false} ActiveEmpty(boxes: seq<RoiBox>)
    ensures Active(boxes) == [] <==> forall i :: 0 <= i < |boxes| ==> !boxes[i].active
  {
    if boxes != [] {
      var last := |boxes| - 1;
      ActiveEmpty(boxes[..last]);
      assert forall i :: 0 <= i < last ==> boxes[..last][i] == boxes[i];
    }
  }

  lemma {:induction false} ActiveFront(boxes: seq<RoiBox>)
    requires boxes != []
    ensures Active(boxes) == (if boxes[0].active then [boxes[0]] else []) + Active(boxes[1..])
  {
    if |boxes| > 1 {
      var last := |boxes| - 1;
      ActiveFront(boxes[..last]);
      assert boxes[..last][1..] == boxes[1..][..last - 1];
    } else {
      assert boxes[..0] == [] && boxes[1..] == [];
    }
  }

  lemma {:induction false} FirstOutsideIsFirst(shape: Shape, boxes: seq<RoiBox>)
    ensures FirstOutside(Active(boxes), shape).Some? <==> exists i :: FirstBoxOutside(shape, boxes, i)
    ensures FirstOutside(Active(boxes), shape).Some? ==>
      exists i :: FirstBoxOutside(shape, boxes, i) && FirstOutside(Active(boxes), shape) == Some(boxes[i])
  {
    if boxes != [] {
      var rest := boxes[1..];
      ActiveFront(boxes);
      FirstOutsideIsFirst(shape, rest);
      if boxes[0].active && !boxes[0].rect.Fits(shape) {
        assert FirstBoxOutside(shape, boxes, 0);
      } else {
        assert FirstOutside(Active(boxes), shape) == FirstOutside(Active(rest), shape) by { SkipFitting(boxes, shape); }
        LaterOutside(shape, boxes);
        hide Active, FirstOutside, FirstBoxOutside;
        if FirstOutside(Active(rest), shape).Some? {
          var i :| FirstBoxOutside(shape, rest, i) && FirstOutside(Active(rest), shape) == Some(rest[i]);
          assert FirstBoxOutside(shape, boxes, i + 1) && boxes[i + 1] == rest[i];
        }
        if i :| FirstBoxOutside(shape, boxes, i) { assert FirstBoxOutside(shape, rest, i - 1); }
      }
    }
  }

  lemma SkipFitting(boxes: seq<RoiBox>, shape: Shape)
    requires boxes != [] && !(boxes[0].active && !boxes[0].rect.Fits(shape))
    requires Active(boxes) == (if boxes[0].active then [boxes[0]] else []) + Active(boxes[1..])
    ensures FirstOutside(Active(boxes), shape) == FirstOutside(Active(boxes[1..]), shape)
  {
    hide Active;
    if boxes[0].active {
      assert Active(boxes)[1..] == Active(boxes[1..]);
    } else {
      assert Active(boxes) == Active(boxes[1..]);
    }
  }

  lemma LaterOutside(shape: Shape, boxes: seq<RoiBox>)
    requires boxes != [] && !(boxes[0].active && !boxes[0].rect.Fits(shape))
    ensures forall i :: FirstBoxOutside(shape, boxes[1..], i) ==> FirstBoxOutside(shape, boxes, i + 1)
    ensures forall i :: FirstBoxOutside(shape, boxes, i) ==> i > 0 && FirstBoxOutside(shape, boxes[1..], i - 1)
  {
    var rest := boxes[1..];
    assert forall j :: 0 <= j < |rest| ==> rest[j] == boxes[j + 1];
    forall i | FirstBoxOutside(shape, rest, i) ensures FirstBoxOutside(shape, boxes, i + 1) {
      forall j | 0 <= j < i + 1 && boxes[j].active ensures boxes[j].rect.Fits(shape) {
        if j > 0 { assert rest[j - 1] == boxes[j]; }
      }
    }
    forall i | FirstBoxOutside(shape, boxes, i) ensures i > 0 && FirstBoxOutside(shape, rest, i - 1) {
      forall j | 0 <= j < i - 1 && rest[j].active ensures rest[j].rect.Fits(shape) {
        assert rest[j] == boxes[j + 1];
      }
    }
  }

  lemma {:induction false} ActiveCovers(boxes: seq<RoiBox>, x: int, y: int)
    ensures InSome(Rects(Active(boxes)), x, y)
       <==> exists i :: 0 <= i < |boxes| && boxes[i].active && boxes[i].rect.Has(x, y)
  {
    if boxes != [] {
      var before, last := boxes[..|boxes| - 1], boxes[|boxes| - 1];
      ActiveCovers(before, x, y);
      assert forall i :: 0 <= i < |before| ==> before[i] == boxes[i];
      if last.active {
        assert Rects(Active(boxes)) == Rects(Active(before)) + [last.rect];
        InSomeAppend(Rects(Active(boxes)), |Active(before)|, x, y);
        assert Rects(Active(boxes))[..|Active(before)|] == Rects(Active(before));
        assert Rects(Active(boxes))[..|Active(before)| + 1] == Rects(Active(boxes));
        assert last == boxes[|before|];
      } else {
        assert Active(boxes) == Active(before);
      }
    }
  }

  lemma RectInImage(shape: Shape, mask: Mask)
    requires mask != {} && mask <= Image(shape)
    ensures var rect := BoundingBox(mask);
      0 <= rect.x1 < rect.x2 <= shape.width && 0 <= rect.y1 < rect.y2 <= shape.height
  {
    var rect := BoundingBox(mask);
    var left :| left in mask && left.x == rect.x1;
    var right :| right in mask && right.x == rect.x2 - 1;
    var top :| top in mask && top.y == rect.y1;
    var bottom :| bottom in mask && bottom.y == rect.y2 - 1;
  }

  /** The region of any mode lies in the region of the whole image, so the inference rectangle contains it. */
  lemma InferenceRectContains(shape: Shape, valid: Rect, invalid: seq<Rect>, mode: RoiMode, boxes: seq<RoiBox>)
    requires RoiOf(shape, valid, invalid, mode, boxes).Built?
    ensures RoiOf(shape, valid, invalid, FullImage, []).Built?
    ensures var roi, whole := RoiOf(shape, valid, invalid, mode, boxes).mask,
      RoiOf(shape, valid, invalid, FullImage, []).mask;
      && roi <= whole <= Image(shape) && (roi == {} <==> whole == {})
      && (whole != {} ==>
           var rect := BoundingBox(whole);
           0 <= rect.x1 < rect.x2 <= shape.width && 0 <= rect.y1 < rect.y2 <= shape.height
           && forall p :: p in roi ==> rect.x1 <= p.x < rect.x2 && rect.y1 <= p.y < rect.y2)
  {
    hide BoundingBox;
    var whole := RoiOf(shape, valid, invalid, FullImage, []).mask;
    if whole == {} { assert RoiOf(shape, valid, invalid, mode, boxes).mask <= whole; }
    if whole != {} { RectInImage(shape, whole); }
  }
}
