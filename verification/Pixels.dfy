/** Masks as finite pixel sets, their geometry, and hole filling as the complement of the background that
    reaches the image edge. */
module Pixels {
  datatype Pixel = Pixel(x: int, y: int)
  type Mask = set<Pixel>
  datatype Shape = Shape(width: nat, height: nat)

  predicate InImage(shape: Shape, p: Pixel) {
    0 <= p.x < shape.width && 0 <= p.y < shape.height
  }

  function Image(shape: Shape): Mask {
    set x, y | 0 <= x < shape.width && 0 <= y < shape.height :: Pixel(x, y)
  }

  predicate OnEdge(shape: Shape, p: Pixel) {
    InImage(shape, p) && (p.x == 0 || p.y == 0 || p.x == shape.width - 1 || p.y == shape.height - 1)
  }

  /** The cross-shaped neighbourhood of binary dilation and hole filling. */
  predicate Adjacent(p: Pixel, q: Pixel) {
    (p.x == q.x && (p.y == q.y + 1 || q.y == p.y + 1)) || (p.y == q.y && (p.x == q.x + 1 || q.x == p.x + 1))
  }

  predicate NextTo(p: Pixel, mask: Mask) {
    exists q :: q in mask && Adjacent(p, q)
  }

  // ----- hole filling

  /** Grows `seen` through `background` until nothing more can be reached. */
  function Flood(background: Mask, seen: Mask): (r: Mask)
    requires seen <= background
    ensures seen <= r <= background
    ensures forall p :: p in background && NextTo(p, r) ==> p in r
    decreases |background - seen|
  {
    var reached := set p | p in background && p !in seen && NextTo(p, seen);
    if reached == {} then
      assert forall p | p in background && NextTo(p, seen) :: p in seen by {
        forall p | p in background && NextTo(p, seen) ensures p in seen {
          assert p !in reached;
        }
      }
      seen
    else
      assert background - (seen + reached) < background - seen by {
        var p :| p in reached;
        assert p in background - seen && p !in background - (seen + reached);
      }
      SubsetIsSmaller(background - (seen + reached), background - seen);
      Flood(background, seen + reached)
  }

  lemma SubsetIsSmaller<T>(a: set<T>, b: set<T>)
    requires a < b
    ensures |a| < |b|
  {
    assert b == a + (b - a);
  }

  /** Background that is connected to the image edge. */
  function Outside(shape: Shape, background: Mask): (r: Mask)
    ensures r <= background
  {
    Flood(background, set p | p in background && OnEdge(shape, p))
  }

  function FillHoles(shape: Shape, mask: Mask): (r: Mask)
    ensures forall p :: p in r ==> InImage(shape, p)
  {
    Image(shape) - Outside(shape, Image(shape) - mask)
  }

  /** A set that contains the edge part of `background` and everything of it next to the set. */
  ghost predicate Closed(shape: Shape, background: Mask, s: Mask) {
    && (forall p :: p in background && OnEdge(shape, p) ==> p in s)
    && (forall p :: p in background && NextTo(p, s) ==> p in s)
  }

  lemma {:induction false} FloodIsLeast(shape: Shape, background: Mask, seen: Mask, s: Mask)
    requires seen <= background && seen <= s && Closed(shape, background, s)
    ensures Flood(background, seen) <= s
    decreases |background - seen|
  {
    var reached := set p | p in background && p !in seen && NextTo(p, seen);
    if reached != {} {
      forall p | p in reached ensures p in s {
        var q :| q in seen && Adjacent(p, q);
        assert NextTo(p, s);
      }
      assert background - (seen + reached) < background - seen by {
        var p :| p in reached;
        assert p in background - seen && p !in background - (seen + reached);
      }
      SubsetIsSmaller(background - (seen + reached), background - seen);
      FloodIsLeast(shape, background, seen + reached, s);
    }
  }

  /** `Outside` is the least closed set: exactly the background reachable from the edge. */
  lemma OutsideIsLeast(shape: Shape, background: Mask, s: Mask)
    ensures Closed(shape, background, Outside(shape, background))
    ensures Closed(shape, background, s) ==> Outside(shape, background) <= s
  {
    var seeds := set p | p in background && OnEdge(shape, p);
    if Closed(shape, background, s) { FloodIsLeast(shape, background, seeds, s); }
  }

  // ----- the same by paths

  /** Steps of one pixel left, right, up or down through the background, from the image edge. */
  ghost predicate PathFromEdge(shape: Shape, background: Mask, path: seq<Pixel>) {
    && path != [] && (forall i :: 0 <= i < |path| ==> path[i] in background)
    && (var first := path[0];
        || (first.y == 0 && 0 <= first.x < shape.width) || (first.y == shape.height - 1 && 0 <= first.x < shape.width)
        || (first.x == 0 && 0 <= first.y < shape.height) || (first.x == shape.width - 1 && 0 <= first.y < shape.height))
    && (forall i :: 0 <= i < |path| - 1 ==> OneStep(path[i], path[i + 1]))
  }

  predicate OneStep(p: Pixel, q: Pixel) {
    Distance(p.x, q.x) + Distance(p.y, q.y) == 1
  }

  function Distance(a: int, b: int): nat {
    if a <= b then b - a else a - b
  }

  lemma StepIsAdjacent(p: Pixel, q: Pixel)
    ensures OneStep(p, q) <==> Adjacent(p, q)
    ensures OneStep(p, q) <==> Adjacent(q, p)
  {
  }

  ghost predicate ReachesEdge(shape: Shape, background: Mask, p: Pixel) {
    exists path :: PathFromEdge(shape, background, path) && path[|path| - 1] == p
  }

  lemma {:induction false} PathIsOutside(shape: Shape, background: Mask, path: seq<Pixel>)
    requires background <= Image(shape) && PathFromEdge(shape, background, path)
    ensures path[|path| - 1] in Outside(shape, background)
  {
    OutsideIsLeast(shape, background, {});
    if |path| > 1 {
      var shorter, last := path[..|path| - 1], path[|path| - 1];
      PathIsOutside(shape, background, shorter);
      var before := shorter[|shorter| - 1];
      assert OneStep(path[|path| - 2], path[|path| - 2 + 1]);
      assert Adjacent(last, before);
      assert NextTo(last, Outside(shape, background));
    } else {
      assert InImage(shape, path[0]);
    }
  }

  lemma ReachedNeighbour(shape: Shape, background: Mask, p: Pixel, q: Pixel)
    requires ReachesEdge(shape, background, q) && p in background && Adjacent(p, q)
    ensures ReachesEdge(shape, background, p)
  {
    var path :| PathFromEdge(shape, background, path) && path[|path| - 1] == q;
    var longer := path + [p];
    forall i | 0 <= i < |longer| - 1 ensures OneStep(longer[i], longer[i + 1]) {
      if i < |path| - 1 { assert OneStep(path[i], path[i + 1]); }
    }
    assert PathFromEdge(shape, background, longer);
  }

  lemma OutsideReaches(shape: Shape, background: Mask)
    requires background <= Image(shape)
    ensures forall p :: p in Outside(shape, background) ==> ReachesEdge(shape, background, p)
  {
    ghost var reached := set p | p in background && ReachesEdge(shape, background, p);
    forall p | p in background && OnEdge(shape, p) ensures p in reached {
      assert PathFromEdge(shape, background, [p]) && [p][|[p]| - 1] == p;
    }
    forall p | p in background && NextTo(p, reached) ensures p in reached {
      var q :| q in reached && Adjacent(p, q);
      ReachedNeighbour(shape, background, p, q);
    }
    OutsideIsLeast(shape, background, reached);
  }

  /** A pixel is filled exactly when no path through the background leads to it from the image edge. */
  lemma FilledPixel(shape: Shape, mask: Mask, p: Pixel)
    ensures p in FillHoles(shape, mask) <==> InImage(shape, p) && !ReachesEdge(shape, Image(shape) - mask, p)
  {
    var background := Image(shape) - mask;
    OutsideReaches(shape, background);
    if ReachesEdge(shape, background, p) {
      var path :| PathFromEdge(shape, background, path) && path[|path| - 1] == p;
      PathIsOutside(shape, background, path);
    }
  }

  lemma FillExtends(shape: Shape, mask: Mask)
    requires mask <= Image(shape)
    ensures mask <= FillHoles(shape, mask)
  {
  }

  lemma FillMonotone(shape: Shape, a: Mask, b: Mask)
    requires a <= b
    ensures FillHoles(shape, a) <= FillHoles(shape, b)
  {
    var large, small := Image(shape) - a, Image(shape) - b;
    OutsideIsLeast(shape, large, {});
    OutsideIsLeast(shape, small, Outside(shape, large));
  }

  lemma FillIdempotent(shape: Shape, mask: Mask)
    ensures FillHoles(shape, FillHoles(shape, mask)) == FillHoles(shape, mask)
  {
    var background := Image(shape) - mask;
    var outside := Outside(shape, background);
    assert Image(shape) - FillHoles(shape, mask) == outside;
    var again := Outside(shape, outside);
    OutsideIsLeast(shape, background, {});
    OutsideIsLeast(shape, outside, {});
    forall p | p in background && NextTo(p, again) ensures p in again {
      var q :| q in again && Adjacent(p, q);
      assert NextTo(p, outside);
    }
    OutsideIsLeast(shape, background, again);
  }

  /** Hole filling inside a region of interest: filling never re-admits a pixel the region excludes. */
  function FillInside(shape: Shape, mask: Mask, roi: Mask): (r: Mask)
    ensures r <= roi
  {
    FillHoles(shape, mask * roi) * roi
  }

  /** Clipping, filling and clipping again is a closure inside the region: doing it twice changes nothing. */
  lemma FillInsideIdempotent(shape: Shape, mask: Mask, roi: Mask)
    requires roi <= Image(shape)
    ensures FillInside(shape, FillInside(shape, mask, roi), roi) == FillInside(shape, mask, roi)
    ensures mask * roi <= FillInside(shape, mask, roi)
  {
    var inner := mask * roi;
    var filled := FillInside(shape, mask, roi);
    FillExtends(shape, inner);
    FillExtends(shape, filled);
    assert filled * roi == filled;
    FillMonotone(shape, filled, FillHoles(shape, inner));
    FillIdempotent(shape, inner);
  }

  // ----- geometry of one instance

  lemma HasElement(s: set<int>)
    ensures s == {} || exists k: int :: k in s
  {
    if !exists k: int :: k in s {
      assert forall k: int :: k !in s;
      assert s == {};
    }
  }

  lemma {:induction false} HasLeast(s: set<int>)
    requires s != {}
    ensures exists m :: m in s && forall k :: k in s ==> m <= k
    decreases |s|
  {
    HasElement(s);
    var pick: int :| pick in s;
    var rest := s - {pick};
    if rest == {} {
      forall k | k in s ensures pick <= k { assert k == pick || k in rest; }
    } else {
      assert |rest| < |s|;
      HasLeast(rest);
      var m :| m in rest && forall k :: k in rest ==> m <= k;
      var least := if pick <= m then pick else m;
      forall k | k in s ensures least <= k { assert k == pick || k in rest; }
      assert least in s;
    }
  }

  function MinOf(s: set<int>): (r: int)
    requires s != {}
    ensures r in s && forall k :: k in s ==> r <= k
  {
    HasLeast(s);
    var m :| m in s && forall k :: k in s ==> m <= k;
    m
  }

  function MaxOf(s: set<int>): (r: int)
    requires s != {}
    ensures r in s && forall k :: k in s ==> k <= r
  {
    var negated := set k | k in s :: -k;
    assert negated != {} by {
      HasElement(s);
      var k: int :| k in s;
      assert -k in negated;
    }
    var m := MinOf(negated);
    assert forall k :: k in s ==> -k in negated;
    -m
  }

  datatype Box = Box(x1: int, y1: int, x2: int, y2: int)

  /** The half-open bounding box of a non-empty mask. */
  function BoundingBox(mask: Mask): (r: Box)
    requires mask != {}
    ensures forall p :: p in mask ==> r.x1 <= p.x < r.x2 && r.y1 <= p.y < r.y2
    ensures exists p :: p in mask && p.x == r.x1
    ensures exists p :: p in mask && p.y == r.y1
    ensures exists p :: p in mask && p.x == r.x2 - 1
    ensures exists p :: p in mask && p.y == r.y2 - 1
  {
    var xs := set p | p in mask :: p.x;
    var ys := set p | p in mask :: p.y;
    assert xs != {} && ys != {} by {
      var p :| p in mask;
      assert p.x in xs && p.y in ys;
    }
    assert forall p :: p in mask ==> p.x in xs && p.y in ys;
    Box(MinOf(xs), MinOf(ys), MaxOf(xs) + 1, MaxOf(ys) + 1)
  }

  /** Dilation by the cross, cut to the image. */
  function Dilate(shape: Shape, mask: Mask): Mask {
    set p | p in Image(shape) && (p in mask || NextTo(p, mask))
  }

  /** The mask touches the image edge or, after dilation, leaves the region of interest. */
  predicate TouchesBoundary(shape: Shape, mask: Mask, roi: Mask) {
    (exists p :: p in mask && OnEdge(shape, p)) || Dilate(shape, mask) - roi != {}
  }
}
