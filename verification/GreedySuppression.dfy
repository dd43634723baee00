/** Greedy suppression over a ranked list, for any overlap relation. */
module GreedySuppression {
  import opened KeyedSort

  predicate OverlapsAny<T>(overlap: (T, T) -> bool, item: T, kept: seq<T>) {
    exists i :: 0 <= i < |kept| && overlap(item, kept[i])
  }

  /** Keep what overlaps nothing kept before it. */
  function Suppress<T>(overlap: (T, T) -> bool, ranked: seq<T>): seq<T> {
    if ranked == [] then []
    else
      var kept := Suppress(overlap, ranked[..|ranked| - 1]);
      var item := ranked[|ranked| - 1];
      if OverlapsAny(overlap, item, kept) then kept else kept + [item]
  }

  ghost predicate Separate<T>(overlap: (T, T) -> bool, items: seq<T>) {
    forall i, j :: 0 <= i < j < |items| ==> !overlap(items[j], items[i])
  }

  ghost predicate Sublist<T>(part: seq<T>, whole: seq<T>) {
    multiset(part) <= multiset(whole) && forall k :: 0 <= k < |part| ==> part[k] in whole
  }

  /** Item `i` of the ranked list overlaps a kept item ranked before it. */
  ghost predicate Suppressed<T>(overlap: (T, T) -> bool, ranked: seq<T>, i: nat, kept: seq<T>)
    requires i < |ranked|
  {
    exists k, j :: 0 <= k < |kept| && 0 <= j < i && ranked[j] == kept[k] && overlap(ranked[i], kept[k])
  }

  /** Suppression keeps a sub-list of the ranked list in which nothing overlaps. */
  lemma {:induction false} SuppressionSeparates<T>(overlap: (T, T) -> bool, ranked: seq<T>)
    ensures Separate(overlap, Suppress(overlap, ranked)) && Sublist(Suppress(overlap, ranked), ranked)
  {
    if ranked != [] {
      var shorter := ranked[..|ranked| - 1];
      SuppressionSeparates(overlap, shorter);
      assert ranked == shorter + [ranked[|ranked| - 1]];
      var before, kept := Suppress(overlap, shorter), Suppress(overlap, ranked);
      forall k | 0 <= k < |kept| ensures kept[k] in ranked {
        if k < |before| { assert kept[k] == before[k] && before[k] in shorter; }
      }
    }
  }

  /** What is kept stays in ranked order. */
  lemma {:induction false} SuppressionKeepsRank<T>(overlap: (T, T) -> bool, ranked: seq<T>, key: T -> Key)
    requires Sorted(ranked, key)
    ensures Sorted(Suppress(overlap, ranked), key)
  {
    if ranked != [] {
      var shorter := ranked[..|ranked| - 1];
      SuppressionKeepsRank(overlap, shorter, key);
      SuppressionSeparates(overlap, shorter);
      var before := Suppress(overlap, shorter);
      forall i | 0 <= i < |before| ensures Leq(key(before[i]), key(ranked[|ranked| - 1])) {
        assert before[i] in shorter;
        var at :| 0 <= at < |shorter| && shorter[at] == before[i];
        assert ranked[at] == before[i];
      }
    }
  }

  /** Suppression drops only what a better-ranked survivor overlaps. */
  lemma {:induction false} SuppressionIsJustified<T>(overlap: (T, T) -> bool, ranked: seq<T>, i: nat)
    requires i < |ranked|
    ensures ranked[i] in Suppress(overlap, ranked) || Suppressed(overlap, ranked, i, Suppress(overlap, ranked))
  {
    var shorter := ranked[..|ranked| - 1];
    var before, kept := Suppress(overlap, shorter), Suppress(overlap, ranked);
    if i < |shorter| {
      SuppressionIsJustified(overlap, shorter, i);
      if shorter[i] in before {
        var k :| 0 <= k < |before| && before[k] == ranked[i];
        assert kept[k] == ranked[i];
      } else {
        var k, j :| 0 <= k < |before| && 0 <= j < i && shorter[j] == before[k] && overlap(shorter[i], before[k]);
        assert kept[k] == before[k] && ranked[j] == kept[k] && overlap(ranked[i], kept[k]);
      }
    } else if OverlapsAny(overlap, ranked[i], before) {
      SuppressionSeparates(overlap, shorter);
      var k :| 0 <= k < |before| && overlap(ranked[i], before[k]);
      assert before[k] in shorter;
      var j :| 0 <= j < |shorter| && shorter[j] == before[k];
      assert ranked[j] == kept[k];
    } else {
      assert kept[|before|] == ranked[i];
    }
  }

  lemma {:induction false} SuppressNothing<T>(overlap: (T, T) -> bool, ranked: seq<T>)
    requires Separate(overlap, ranked)
    ensures Suppress(overlap, ranked) == ranked
  {
    if ranked != [] {
      var shorter := ranked[..|ranked| - 1];
      SuppressNothing(overlap, shorter);
      assert forall i :: 0 <= i < |shorter| ==> !overlap(ranked[|ranked| - 1], ranked[i]);
      assert ranked == shorter + [ranked[|ranked| - 1]];
    }
  }

  /** For a symmetric relation, separation does not depend on the arrangement. */
  lemma SeparateRearranged<T>(overlap: (T, T) -> bool, items: seq<T>, ordered: seq<T>)
    requires Separate(overlap, items) && multiset(items) == multiset(ordered)
    requires forall i, j :: 0 <= i < |items| && 0 <= j < |items| ==>
      overlap(items[i], items[j]) == overlap(items[j], items[i])
    ensures Separate(overlap, ordered)
  {
    forall i, j | 0 <= i < j < |ordered| ensures !overlap(ordered[j], ordered[i]) {
      var a, b := ordered[i], ordered[j];
      if a == b {
        TwiceInSequence(ordered, i, j);
        var k, l := TwoPlaces(items, a);
        assert !overlap(items[l], items[k]);
      } else {
        assert a in multiset(items) && b in multiset(items);
        var k :| 0 <= k < |items| && items[k] == a;
        var l :| 0 <= l < |items| && items[l] == b;
        assert overlap(items[k], items[l]) == overlap(items[l], items[k]);
        if k < l { assert !overlap(items[l], items[k]); } else { assert !overlap(items[k], items[l]); }
      }
    }
  }

  lemma TwiceInSequence<T>(s: seq<T>, i: nat, j: nat)
    requires i < j < |s| && s[i] == s[j]
    ensures multiset(s)[s[i]] >= 2
  {
    assert s == s[..i] + [s[i]] + s[i + 1..j] + [s[j]] + s[j + 1..];
  }

  lemma TwoPlaces<T>(s: seq<T>, x: T) returns (k: nat, l: nat)
    requires multiset(s)[x] >= 2
    ensures k < l < |s| && s[k] == x && s[l] == x
  {
    assert x in multiset(s);
    k :| 0 <= k < |s| && s[k] == x;
    assert s == s[..k] + [x] + s[k + 1..];
    if x in s[..k] {
      l := k;
      k :| 0 <= k < l && s[..l][k] == x;
    } else {
      assert multiset(s[..k])[x] == 0;
      assert x in s[k + 1..];
      var m :| 0 <= m < |s[k + 1..]| && s[k + 1..][m] == x;
      l := k + 1 + m;
    }
  }
}
