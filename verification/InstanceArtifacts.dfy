/** The published instance artifact: one record per final instance, its mask as row-major runs. */
module InstanceArtifacts {
  import opened Prelude
  import opened Pixels
  import opened Postprocessing
  import opened RunLength

  datatype Record = Record(index: nat, box: Box, area: nat, confidence: Option<real>, touches: bool,
                           starts: seq<int>, lengths: seq<int>)

  datatype Payload = Payload(width: int, height: int, instanceCount: nat, instances: seq<Record>)

  /** The pixel at a row-major position. */
  function PixelAt(width: nat, i: nat): Pixel
    requires width > 0
  {
    Pixel(i % width, i / width)
  }

  function Flat(shape: Shape, mask: Mask): seq<bool> {
    if shape.width == 0 then []
    else
      seq(shape.width * shape.height, i requires 0 <= i < shape.width * shape.height =>
        PixelAt(shape.width, i) in mask)
  }

  /** The mask with exactly the set positions of `flat`. */
  function Unflat(shape: Shape, flat: seq<bool>): Mask
    requires |flat| == shape.width * shape.height
  {
    set p | p in Image(shape) && InFlat(shape, flat, p)
  }

  predicate InFlat(shape: Shape, flat: seq<bool>, p: Pixel)
    requires |flat| == shape.width * shape.height
  {
    0 <= p.y * shape.width + p.x < |flat| && flat[p.y * shape.width + p.x]
  }

  lemma PositionOf(shape: Shape, p: Pixel)
    requires InImage(shape, p)
    ensures 0 <= p.y * shape.width + p.x < shape.width * shape.height
    ensures PixelAt(shape.width, p.y * shape.width + p.x) == p
  {
    var w := shape.width;
    Scaled(p.y, shape.height - 1, w);
    QuotientOf(p.y * w + p.x, w, p.y, p.x);
  }

  lemma QuotientOf(n: nat, w: nat, q: nat, r: nat)
    requires n == q * w + r && r < w
    ensures n / w == q && n % w == r
  {
    assert n == n / w * w + n % w;
    if n / w < q { Scaled(n / w + 1, q, w); } else if q < n / w { Scaled(q + 1, n / w, w); }
  }

  lemma Scaled(a: int, b: int, w: nat)
    requires a <= b
    ensures a * w <= b * w
  {
  }

  lemma FlatRoundTrip(shape: Shape, mask: Mask)
    requires mask <= Image(shape)
    ensures |Flat(shape, mask)| == shape.width * shape.height && Unflat(shape, Flat(shape, mask)) == mask
  {
    forall p | p in Image(shape) ensures InFlat(shape, Flat(shape, mask), p) <==> p in mask {
      PositionOf(shape, p);
    }
  }

  function RecordOf(shape: Shape, item: Instance): Record {
    var runs := EncodeBinaryMask(Flat(shape, item.mask));
    Record(item.index, item.box, item.area, item.confidence, item.touches, runs.0, runs.1)
  }

  /** A record whose runs the decoder accepts for the stated dimensions. */
  ghost predicate Readable(shape: Shape, r: Record) {
    |r.starts| == |r.lengths| && Placed(Zip(r.starts, r.lengths), 0, shape.width * shape.height)
  }

  ghost function MaskOf(shape: Shape, r: Record): Mask
    requires Readable(shape, r)
  {
    Unflat(shape, Painted(Zip(r.starts, r.lengths), shape.width * shape.height))
  }

  /** What a reader of the artifact sees of an instance is the instance. */
  lemma RecordRoundTrip(shape: Shape, item: Instance)
    requires item.mask <= Image(shape)
    ensures Readable(shape, RecordOf(shape, item)) && MaskOf(shape, RecordOf(shape, item)) == item.mask
  {
    var flat := Flat(shape, item.mask);
    FlatRoundTrip(shape, item.mask);
    ZipOfUnzipped(flat);
    RoundTrip(flat);
    hide Placed, Painted, Unflat, Flat, EncodeBinaryMask, Zip;
  }

  /** `None` is the error for non-positive dimensions or a mask of another shape. */
  method CanonicalInstancesPayload(instances: seq<Instance>, shapes: seq<Shape>, width: int, height: int)
    returns (payload: Option<Payload>)
    requires |shapes| == |instances|
    requires forall k :: 0 <= k < |instances| ==> instances[k].mask <= Image(shapes[k])
    ensures payload.Some? <==>
      width > 0 && height > 0 && forall k :: 0 <= k < |shapes| ==> shapes[k] == Shape(width, height)
    ensures payload.Some? ==>
      && payload.value.width == width && payload.value.height == height
      && payload.value.instanceCount == |payload.value.instances| == |instances|
      && forall k :: 0 <= k < |instances| ==>
        var r, shape := payload.value.instances[k], Shape(width, height);
        Readable(shape, r)
        && Instance(r.index, MaskOf(shape, r), r.box, r.area, r.confidence, r.touches) == instances[k]
  {
    if width <= 0 || height <= 0 {
      return None;
    }
    var records: seq<Record> := [];
    var shape := Shape(width, height);
    for k := 0 to |instances|
      invariant |records| == k && forall j :: 0 <= j < k ==> shapes[j] == shape
      invariant forall j :: 0 <= j < k ==> records[j] == RecordOf(shape, instances[j])
    {
      if shapes[k] != shape {
        return None;
      }
      records := records + [RecordOf(shape, instances[k])];
    }
    payload := Some(Payload(width, height, |records|, records));
    forall k | 0 <= k < |instances|
      ensures Readable(shape, records[k]) && MaskOf(shape, records[k]) == instances[k].mask
    {
      assert shapes[k] == shape;
      RecordRoundTrip(shape, instances[k]);
    }
  }
}
