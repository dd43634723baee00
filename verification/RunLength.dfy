/** Row-major run lengths of a binary mask (app/analysis/instance_artifacts.py). */
module RunLength {
  import opened Prelude

  datatype Run = Run(start: int, length: int) {
    function End(): int { start + length }
  }

  /** The mask padded with one background pixel on each side. */
  predicate Bit(mask: seq<bool>, i: int) {
    0 <= i < |mask| && mask[i]
  }

  /** Positions below `n` where the padded mask changes, in order. */
  function Transitions(mask: seq<bool>, n: nat): (r: seq<int>)
    ensures forall j :: 0 <= j < |r| ==> 0 <= r[j] < n
    ensures forall j, k :: 0 <= j < k < |r| ==> r[j] < r[k]
  {
    if n == 0 then []
    else Transitions(mask, n - 1) + if Bit(mask, n - 1) != Bit(mask, n - 2) then [n - 1] else []
  }

  /** Every second transition starts a run and the next one ends it. */
  function Pairs(transitions: seq<int>): seq<Run> {
    seq(|transitions| / 2, k requires 0 <= k < |transitions| / 2 =>
      Run(transitions[2 * k], transitions[2 * k + 1] - transitions[2 * k]))
  }

  function Encode(mask: seq<bool>): seq<Run> {
    Pairs(Transitions(mask, |mask| + 1))
  }

  function EncodeBinaryMask(mask: seq<bool>): (seq<int>, seq<int>) {
    var runs := Encode(mask);
    (seq(|runs|, k requires 0 <= k < |runs| => runs[k].start),
      seq(|runs|, k requires 0 <= k < |runs| => runs[k].length))
  }

  // ---------------------------------------------------------------- decoding

  predicate Covered(runs: seq<Run>, i: int) {
    exists k :: 0 <= k < |runs| && runs[k].start <= i < runs[k].End()
  }

  function Painted(runs: seq<Run>, size: nat): seq<bool> {
    seq(size, i => Covered(runs, i))
  }

  /** What the decoder accepts: non-empty runs in order, from `from` on, that do not overlap or leave the mask. */
  predicate Placed(runs: seq<Run>, from: int, size: int) {
    runs == []
    || (from <= runs[0].start && runs[0].length > 0 && runs[0].End() <= size && Placed(runs[1..], runs[0].End(), size))
  }

  /** The same with at least one background pixel between two runs: each run is maximal. */
  predicate Separated(runs: seq<Run>, from: int, size: int) {
    runs == []
    || (from <= runs[0].start && runs[0].length > 0 && runs[0].End() <= size
        && Separated(runs[1..], runs[0].End() + 1, size))
  }

  function Zip(starts: seq<int>, lengths: seq<int>): seq<Run>
    requires |starts| == |lengths|
  {
    seq(|starts|, k requires 0 <= k < |starts| => Run(starts[k], lengths[k]))
  }

  function LastEnd(runs: seq<Run>, from: int): int {
    if runs == [] then from else runs[|runs| - 1].End()
  }

  lemma {:induction false} PlacedAppend(runs: seq<Run>, run: Run, from: int, size: int)
    ensures Placed(runs + [run], from, size)
       <==> Placed(runs, from, size) && LastEnd(runs, from) <= run.start && run.length > 0 && run.End() <= size
  {
    if runs == [] {
      assert [run][1..] == [];
    } else {
      assert (runs + [run])[1..] == runs[1..] + [run];
      PlacedAppend(runs[1..], run, runs[0].End(), size);
    }
  }

  lemma {:induction false} PlacedPrefix(runs: seq<Run>, k: nat, from: int, size: int)
    requires k <= |runs| && Placed(runs, from, size)
    ensures Placed(runs[..k], from, size)
    decreases |runs|
  {
    if k < |runs| {
      var shorter := runs[..|runs| - 1];
      assert runs == shorter + [runs[|runs| - 1]];
      PlacedAppend(shorter, runs[|runs| - 1], from, size);
      PlacedPrefix(shorter, k, from, size);
      assert shorter[..k] == runs[..k];
    } else {
      assert runs[..k] == runs;
    }
  }

  lemma CoveredAppend(runs: seq<Run>, run: Run, i: int)
    ensures Covered(runs + [run], i) <==> Covered(runs, i) || run.start <= i < run.End()
  {
    var more := runs + [run];
    assert more[|runs|] == run && forall k :: 0 <= k < |runs| ==> more[k] == runs[k];
  }

  method DecodeBinaryMask(starts: seq<int>, lengths: seq<int>, width: nat, height: nat)
      returns (mask: Option<seq<bool>>)
    ensures mask.Some? <==> |starts| == |lengths| && Placed(Zip(starts, lengths), 0, width * height)
    ensures mask.Some? ==> mask.value == Painted(Zip(starts, lengths), width * height)
  {
    if |starts| != |lengths| {
      return None;
    }
    var size := width * height;
    var flat := new bool[size](_ => false);
    var previousEnd := 0;
    ghost var runs := Zip(starts, lengths);
    for k := 0 to |starts|
      invariant Placed(runs[..k], 0, size) && previousEnd == LastEnd(runs[..k], 0) && 0 <= previousEnd <= size
      invariant forall i :: 0 <= i < size ==> flat[i] == Covered(runs[..k], i)
    {
      var start, length := starts[k], lengths[k];
      var end := start + length;
      assert runs[..k + 1] == runs[..k] + [runs[k]];
      PlacedAppend(runs[..k], runs[k], 0, size);
      if start < previousEnd || length <= 0 || end > size {
        assert !Placed(runs, 0, size) by {
          if Placed(runs, 0, size) { PlacedPrefix(runs, k + 1, 0, size); }
        }
        return None;
      }
      forall i ensures Covered(runs[..k + 1], i) <==> Covered(runs[..k], i) || start <= i < end {
        CoveredAppend(runs[..k], runs[k], i);
      }
      forall i | start <= i < end {
        flat[i] := true;
      }
      previousEnd := end;
    }
    assert runs[..|starts|] == runs;
    mask := Some(flat[..]);
  }

  // ---------------------------------------------------------------- the round trip

  /** A position is set exactly when an odd number of transitions lies at or before it. */
  lemma {:induction false} Parity(mask: seq<bool>, n: nat)
    ensures |Transitions(mask, n)| % 2 == 1 <==> Bit(mask, n - 1)
  {
    if n > 0 { Parity(mask, n - 1); }
  }

  lemma {:induction false} TransitionsPrefix(mask: seq<bool>, i: nat, n: nat)
    requires i <= n
    ensures |Transitions(mask, i)| <= |Transitions(mask, n)|
    ensures forall j :: 0 <= j < |Transitions(mask, n)| ==>
      (j < |Transitions(mask, i)| <==> Transitions(mask, n)[j] < i)
    decreases n - i
  {
    if i < n { TransitionsPrefix(mask, i, n - 1); }
  }

  lemma PairsCover(all: seq<int>, seen: nat, i: int)
    requires |all| % 2 == 0 && seen <= |all|
    requires forall j :: 0 <= j < |all| ==> (j < seen <==> all[j] <= i)
    ensures Covered(Pairs(all), i) <==> seen % 2 == 1
  {
    var runs := Pairs(all);
    forall k | 0 <= k < |runs| ensures runs[k].start <= i < runs[k].End() <==> seen == 2 * k + 1 {
      assert all[2 * k] <= i <==> 2 * k < seen;
      assert all[2 * k + 1] <= i <==> 2 * k + 1 < seen;
    }
    if seen % 2 == 1 {
      var k := seen / 2;
      assert seen == 2 * k + 1 && 0 <= k < |runs|;
      assert runs[k].start <= i < runs[k].End();
    }
  }

  lemma CoveredByPairs(mask: seq<bool>, i: nat)
    requires i < |mask|
    ensures Covered(Encode(mask), i) <==> mask[i]
  {
    hide Transitions, Pairs, Covered;
    Parity(mask, |mask| + 1);
    Parity(mask, i + 1);
    TransitionsPrefix(mask, i + 1, |mask| + 1);
    PairsCover(Transitions(mask, |mask| + 1), |Transitions(mask, i + 1)|, i);
  }

  lemma {:induction false} PairsSeparated(transitions: seq<int>, from: int, size: int)
    requires |transitions| % 2 == 0
    requires forall j, k :: 0 <= j < k < |transitions| ==> transitions[j] < transitions[k]
    requires forall j :: 0 <= j < |transitions| ==> from <= transitions[j] <= size
    ensures Separated(Pairs(transitions), from, size)
  {
    if transitions != [] {
      var rest := transitions[2..];
      PairsSeparated(rest, transitions[1] + 1, size);
      assert Pairs(transitions)[1..] == Pairs(rest);
    }
  }

  lemma {:induction false} SeparatedIsPlaced(runs: seq<Run>, from: int, from': int, size: int)
    requires Separated(runs, from, size) && from' <= from
    ensures Placed(runs, from', size)
  {
    if runs != [] { SeparatedIsPlaced(runs[1..], runs[0].End() + 1, runs[0].End(), size); }
  }

  lemma EncodeSeparated(mask: seq<bool>)
    ensures Separated(Encode(mask), 0, |mask|)
  {
    var all := Transitions(mask, |mask| + 1);
    Parity(mask, |mask| + 1);
    hide Transitions, Separated, Pairs;
    PairsSeparated(all, 0, |mask|);
  }

  lemma ZipOfUnzipped(mask: seq<bool>)
    ensures |EncodeBinaryMask(mask).0| == |EncodeBinaryMask(mask).1|
    ensures Zip(EncodeBinaryMask(mask).0, EncodeBinaryMask(mask).1) == Encode(mask)
  {
    hide Encode;
  }

  /** Encoding yields maximal runs that the decoder accepts, and decoding them gives the mask back. */
  lemma RoundTrip(mask: seq<bool>)
    ensures Separated(Encode(mask), 0, |mask|) && Placed(Encode(mask), 0, |mask|)
    ensures Painted(Encode(mask), |mask|) == mask
  {
    hide Encode, Separated, Placed, Covered;
    EncodeSeparated(mask);
    SeparatedIsPlaced(Encode(mask), 0, 0, |mask|);
    forall i | 0 <= i < |mask| ensures Covered(Encode(mask), i) <==> mask[i] {
      CoveredByPairs(mask, i);
    }
  }

  // ---------------------------------------------------------------- canonical form

  /** Joins runs that touch. */
  function Canonical(runs: seq<Run>): seq<Run>
    decreases |runs|
  {
    if |runs| <= 1 then runs
    else if runs[0].End() == runs[1].start then
      Canonical([Run(runs[0].start, runs[0].length + runs[1].length)] + runs[2..])
    else [runs[0]] + Canonical(runs[1..])
  }

  lemma CoveredHead(runs: seq<Run>, i: int)
    requires runs != []
    ensures Covered(runs, i) <==> runs[0].start <= i < runs[0].End() || Covered(runs[1..], i)
  {
    if Covered(runs, i) {
      var k :| 0 <= k < |runs| && runs[k].start <= i < runs[k].End();
      assert k > 0 ==> runs[1..][k - 1] == runs[k];
    }
    if Covered(runs[1..], i) {
      var k :| 0 <= k < |runs| - 1 && runs[1..][k].start <= i < runs[1..][k].End();
      assert runs[k + 1] == runs[1..][k];
    }
  }

  lemma {:induction false} CanonicalKeepsMask(runs: seq<Run>, from: int, size: int, i: int)
    requires Placed(runs, from, size)
    ensures Covered(Canonical(runs), i) <==> Covered(runs, i)
    decreases |runs|
  {
    if |runs| > 1 {
      CoveredHead(runs, i);
      CoveredHead(runs[1..], i);
      assert runs[1..][1..] == runs[2..];
      if runs[0].End() == runs[1].start {
        var joined := [Run(runs[0].start, runs[0].length + runs[1].length)] + runs[2..];
        assert joined[1..] == runs[2..];
        CoveredHead(joined, i);
        CanonicalKeepsMask(joined, from, size, i);
      } else {
        var rest := Canonical(runs[1..]);
        CanonicalKeepsMask(runs[1..], runs[0].End(), size, i);
        assert ([runs[0]] + rest)[1..] == rest;
        CoveredHead([runs[0]] + rest, i);
      }
    }
  }

  lemma {:induction false} CanonicalSeparated(runs: seq<Run>, from: int, size: int)
    requires Placed(runs, from, size)
    ensures Separated(Canonical(runs), from, size)
    ensures runs != [] ==> Canonical(runs) != [] && Canonical(runs)[0].start == runs[0].start
    decreases |runs|
  {
    if |runs| == 1 {
      assert runs[1..] == [];
    } else if |runs| > 1 {
      assert runs[1..][1..] == runs[2..];
      if runs[0].End() == runs[1].start {
        var joined := [Run(runs[0].start, runs[0].length + runs[1].length)] + runs[2..];
        assert joined[1..] == runs[2..];
        CanonicalSeparated(joined, from, size);
      } else {
        var rest := Canonical(runs[1..]);
        CanonicalSeparated(runs[1..], runs[0].End(), size);
        assert ([runs[0]] + rest)[1..] == rest;
      }
    }
  }

  lemma {:induction false} NothingBefore(runs: seq<Run>, from: int, size: int, i: int)
    requires Separated(runs, from, size) && i < from
    ensures !Covered(runs, i)
  {
    if runs != [] {
      CoveredHead(runs, i);
      NothingBefore(runs[1..], runs[0].End() + 1, size, i);
    }
  }

  lemma {:induction false} NothingOutside(runs: seq<Run>, from: int, size: int, i: int)
    requires Separated(runs, from, size) && i >= size
    ensures !Covered(runs, i)
  {
    if runs != [] {
      CoveredHead(runs, i);
      NothingOutside(runs[1..], runs[0].End() + 1, size, i);
    }
  }

  lemma HeadBounds(runs: seq<Run>, from: int, size: int)
    requires runs != [] && Separated(runs, from, size)
    ensures Covered(runs, runs[0].start) && !Covered(runs, runs[0].End())
    ensures forall i :: i < runs[0].start ==> !Covered(runs, i)
    ensures forall i :: runs[0].start <= i < runs[0].End() ==> Covered(runs, i)
  {
    forall i
      ensures i < runs[0].start || i == runs[0].End() ==> !Covered(runs, i)
      ensures runs[0].start <= i < runs[0].End() ==> Covered(runs, i)
    {
      CoveredHead(runs, i);
      if i <= runs[0].End() { NothingBefore(runs[1..], runs[0].End() + 1, size, i); }
    }
  }

  /** Separated runs are determined by the pixels they cover. */
  lemma {:induction false} SeparatedUnique(a: seq<Run>, b: seq<Run>, from: int, size: int)
    requires Separated(a, from, size) && Separated(b, from, size)
    requires forall i :: Covered(a, i) <==> Covered(b, i)
    ensures a == b
  {
    if a != [] && b != [] {
      HeadBounds(a, from, size);
      HeadBounds(b, from, size);
      assert a[0].start == b[0].start;
      assert a[0].End() == b[0].End();
      forall i ensures Covered(a[1..], i) <==> Covered(b[1..], i) {
        CoveredHead(a, i);
        CoveredHead(b, i);
        if i <= a[0].End() {
          NothingBefore(a[1..], a[0].End() + 1, size, i);
          NothingBefore(b[1..], b[0].End() + 1, size, i);
        }
      }
      SeparatedUnique(a[1..], b[1..], a[0].End() + 1, size);
      assert a == [a[0]] + a[1..] && b == [b[0]] + b[1..];
    } else if a != [] {
      HeadBounds(a, from, size);
    } else if b != [] {
      HeadBounds(b, from, size);
    }
  }

  /** Decoding and encoding again turns any accepted runs into their canonical form. */
  lemma EncodeOfDecoded(runs: seq<Run>, size: nat)
    requires Placed(runs, 0, size)
    ensures Encode(Painted(runs, size)) == Canonical(runs)
  {
    var mask := Painted(runs, size);
    RoundTrip(mask);
    CanonicalSeparated(runs, 0, size);
    forall i ensures Covered(Encode(mask), i) <==> Covered(Canonical(runs), i) {
      CanonicalKeepsMask(runs, 0, size, i);
      if 0 <= i < size {
        assert mask[i] == Painted(Encode(mask), size)[i];
      } else if i < 0 {
        NothingBefore(Encode(mask), 0, size, i);
        NothingBefore(Canonical(runs), 0, size, i);
      } else {
        NothingOutside(Encode(mask), 0, size, i);
        NothingOutside(Canonical(runs), 0, size, i);
      }
    }
    SeparatedUnique(Encode(mask), Canonical(runs), 0, size);
  }
}
