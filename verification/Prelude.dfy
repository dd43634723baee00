/** Small shared vocabulary: optional values and the newest-n window of a list. */
module Prelude {
  datatype Option<+T> = None | Some(value: T)

  /** Python's `values[-n:]` for positive n: the last n elements, or all of them when there are fewer. */
  function Newest<T>(values: seq<T>, n: nat): (r: seq<T>)
    ensures |r| == (if |values| <= n then |values| else n)
    ensures forall i :: 0 <= i < |r| ==> r[i] == values[|values| - |r| + i]
  {
    if |values| <= n then values else values[|values| - n..]
  }

  /** Appending to a window and re-cutting it is the window of the whole appended history. */
  lemma NewestAppend<T>(history: seq<T>, item: T, n: nat)
    requires n >= 1
    ensures Newest(Newest(history, n) + [item], n) == Newest(history + [item], n)
  {
    if |history| > n {
      var window := Newest(history, n);
      assert (window + [item])[1..] == (history + [item])[|history| + 1 - n..];
    }
  }

  /** Applies `f` to every element and joins the results in order. */
  function FlatMap<A, B>(f: A -> seq<B>, items: seq<A>): seq<B> {
    if items == [] then [] else FlatMap(f, items[..|items| - 1]) + f(items[|items| - 1])
  }

  lemma {:induction false} FlatMapConcat<A, B>(f: A -> seq<B>, a: seq<A>, b: seq<A>)
    ensures FlatMap(f, a + b) == FlatMap(f, a) + FlatMap(f, b)
    decreases |b|
  {
    if b == [] {
      assert a + b == a;
    } else {
      var shorter := b[..|b| - 1];
      assert (a + b)[..|a + b| - 1] == a + shorter;
      FlatMapConcat(f, a, shorter);
    }
  }

  lemma SplitAt<T>(s: seq<T>, j: nat)
    requires j < |s|
    ensures s == s[..j] + ([s[j]] + s[j + 1..])
  {
  }

  lemma RemoveAt<T>(s: seq<T>, j: nat)
    requires j < |s|
    ensures multiset(s[..j] + s[j + 1..]) == multiset(s) - multiset{s[j]}
  {
    SplitAt(s, j);
    SplitMultisets(s[..j], [s[j]], s[j + 1..]);
  }

  lemma RemoveLast<T>(s: seq<T>)
    requires s != []
    ensures multiset(s[..|s| - 1]) == multiset(s) - multiset{s[|s| - 1]}
  {
    assert s == s[..|s| - 1] + [s[|s| - 1]];
  }

  lemma PlaceOf<T>(x: T, s: seq<T>) returns (j: nat)
    requires x in multiset(s)
    ensures j < |s| && s[j] == x
  {
    j :| 0 <= j < |s| && s[j] == x;
  }

  /** Taking the last element of one arrangement out of another. */
  lemma TakeOut<T>(a: seq<T>, b: seq<T>) returns (left: seq<T>, right: seq<T>)
    requires a != [] && multiset(a) == multiset(b)
    ensures b == left + ([a[|a| - 1]] + right)
    ensures multiset(a[..|a| - 1]) == multiset(left + right)
  {
    var last := a[|a| - 1];
    assert last in multiset(a);
    var j := PlaceOf(last, b);
    left, right := b[..j], b[j + 1..];
    RemoveAt(b, j);
    RemoveLast(a);
    SplitAt(b, j);
  }

  /** The collected elements are determined by the multiset of inputs, not by their order. */
  lemma {:induction false} FlatMapMultiset<A, B>(f: A -> seq<B>, a: seq<A>, b: seq<A>)
    requires multiset(a) == multiset(b)
    ensures multiset(FlatMap(f, a)) == multiset(FlatMap(f, b))
    decreases |a|
  {
    if a == [] {
      assert |multiset(b)| == |b|;
    } else {
      var shorter, last := a[..|a| - 1], a[|a| - 1];
      var left, right := TakeOut(a, b);
      FlatMapMultiset(f, shorter, left + right);
      FlatMapConcat(f, left, right);
      FlatMapConcat(f, left, [last] + right);
      FlatMapConcat(f, [last], right);
      assert FlatMap(f, [last]) == f(last) by { assert [last][..0] == []; }
      SplitMultisets(FlatMap(f, left), f(last), FlatMap(f, right));
    }
  }

  lemma SplitMultisets<T>(x: seq<T>, y: seq<T>, z: seq<T>)
    ensures multiset(x + (y + z)) == multiset(x + z) + multiset(y)
  {
  }
}
