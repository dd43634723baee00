/** Sorting by a key of numbers compared lexicographically, as Python sorts by tuples. */
module KeyedSort {
  type Key = seq<real>

  predicate Leq(a: Key, b: Key) {
    if a == [] then true
    else if b == [] then false
    else a[0] < b[0] || (a[0] == b[0] && Leq(a[1..], b[1..]))
  }

  lemma LeqTotal(a: Key, b: Key)
    ensures Leq(a, b) || Leq(b, a)
  {
  }

  lemma {:induction false} LeqTransitive(a: Key, b: Key, c: Key)
    requires Leq(a, b) && Leq(b, c)
    ensures Leq(a, c)
  {
    if a != [] && a[0] == b[0] && b[0] == c[0] { LeqTransitive(a[1..], b[1..], c[1..]); }
  }

  lemma {:induction false} LeqAntisymmetric(a: Key, b: Key)
    requires Leq(a, b) && Leq(b, a)
    ensures a == b
  {
    if a != [] {
      LeqAntisymmetric(a[1..], b[1..]);
      assert a == [a[0]] + a[1..] && b == [b[0]] + b[1..];
    }
  }

  ghost predicate Sorted<T>(items: seq<T>, key: T -> Key) {
    forall i, j :: 0 <= i < j < |items| ==> Leq(key(items[i]), key(items[j]))
  }

  function Insert<T>(item: T, sorted: seq<T>, key: T -> Key): seq<T> {
    if sorted == [] || Leq(key(item), key(sorted[0])) then [item] + sorted
    else [sorted[0]] + Insert(item, sorted[1..], key)
  }

  /** The stable sort of a list by its key. */
  function Sort<T>(items: seq<T>, key: T -> Key): seq<T> {
    if items == [] then [] else Insert(items[0], Sort(items[1..], key), key)
  }

  lemma {:induction false} InsertProperties<T>(item: T, sorted: seq<T>, key: T -> Key)
    requires Sorted(sorted, key)
    ensures Sorted(Insert(item, sorted, key), key)
    ensures multiset(Insert(item, sorted, key)) == multiset{item} + multiset(sorted)
  {
    if sorted == [] {
    } else if Leq(key(item), key(sorted[0])) {
      forall j | 0 <= j < |sorted| ensures Leq(key(item), key(sorted[j])) {
        if j > 0 { LeqTransitive(key(item), key(sorted[0]), key(sorted[j])); }
      }
    } else {
      LeqTotal(key(item), key(sorted[0]));
      InsertProperties(item, sorted[1..], key);
      var rest := Insert(item, sorted[1..], key);
      forall j | 0 <= j < |rest| ensures Leq(key(sorted[0]), key(rest[j])) {
        assert rest[j] in multiset(rest);
        if rest[j] != item {
          assert rest[j] in sorted[1..];
        }
      }
      assert sorted == [sorted[0]] + sorted[1..];
    }
  }

  lemma {:induction false} SortProperties<T>(items: seq<T>, key: T -> Key)
    ensures Sorted(Sort(items, key), key) && multiset(Sort(items, key)) == multiset(items)
    ensures |Sort(items, key)| == |items|
  {
    if items != [] {
      SortProperties(items[1..], key);
      InsertProperties(items[0], Sort(items[1..], key), key);
      assert items == [items[0]] + items[1..];
    }
    assert |multiset(Sort(items, key))| == |Sort(items, key)| && |multiset(items)| == |items|;
  }

  /** Distinct elements have distinct keys. */
  ghost predicate Separates<T>(items: seq<T>, key: T -> Key) {
    forall i, j :: 0 <= i < |items| && 0 <= j < |items| && key(items[i]) == key(items[j]) ==> items[i] == items[j]
  }

  lemma HeadsAgree<T>(a: seq<T>, b: seq<T>, key: T -> Key)
    requires Sorted(a, key) && Sorted(b, key) && multiset(a) == multiset(b) && Separates(a, key)
    requires a != [] && b != []
    ensures a[0] == b[0]
  {
    assert a[0] in multiset(b) && b[0] in multiset(a);
    var i :| 0 <= i < |b| && b[i] == a[0];
    var j :| 0 <= j < |a| && a[j] == b[0];
    if i > 0 && j > 0 {
      assert Leq(key(b[0]), key(b[i])) && Leq(key(a[0]), key(a[j]));
      LeqAntisymmetric(key(a[0]), key(a[j]));
    }
  }

  lemma DropHead<T>(a: seq<T>)
    requires a != []
    ensures multiset(a[1..]) == multiset(a) - multiset{a[0]}
  {
    assert a == [a[0]] + a[1..];
  }

  lemma TailSorted<T>(items: seq<T>, key: T -> Key)
    requires items != [] && Sorted(items, key)
    ensures Sorted(items[1..], key) && (Separates(items, key) ==> Separates(items[1..], key))
  {
  }

  /** With separating keys the sorted arrangement of a multiset is unique. */
  lemma {:induction false} SortedIsUnique<T>(a: seq<T>, b: seq<T>, key: T -> Key)
    requires Sorted(a, key) && Sorted(b, key) && multiset(a) == multiset(b) && Separates(a, key)
    ensures a == b
  {
    SameLength(a, b);
    if a != [] {
      HeadsAgree(a, b, key);
      RestsAgree(a, b);
      TailSorted(a, key);
      TailSorted(b, key);
      hide Sorted, Separates;
      SortedIsUnique(a[1..], b[1..], key);
      HeadAndTail(a, b);
    }
  }

  lemma SameLength<T>(a: seq<T>, b: seq<T>)
    requires multiset(a) == multiset(b)
    ensures |a| == |b|
  {
    assert |multiset(a)| == |a| && |multiset(b)| == |b|;
  }

  lemma RestsAgree<T>(a: seq<T>, b: seq<T>)
    requires a != [] && b != [] && multiset(a) == multiset(b) && a[0] == b[0]
    ensures multiset(a[1..]) == multiset(b[1..])
  {
    DropHead(a);
    DropHead(b);
  }

  lemma HeadAndTail<T>(a: seq<T>, b: seq<T>)
    requires a != [] && b != [] && a[0] == b[0] && a[1..] == b[1..]
    ensures a == b
  {
    assert a == [a[0]] + a[1..] && b == [b[0]] + b[1..];
  }

  /** Sorting is a function of the multiset, not of the order the items came in. */
  lemma SortIgnoresOrder<T>(a: seq<T>, b: seq<T>, key: T -> Key)
    requires multiset(a) == multiset(b) && Separates(a, key)
    ensures Sort(a, key) == Sort(b, key)
  {
    SortProperties(a, key);
    SortProperties(b, key);
    SeparatesMultiset(a, Sort(a, key), key);
    SortedIsUnique(Sort(a, key), Sort(b, key), key);
  }

  lemma SeparatesMultiset<T>(a: seq<T>, b: seq<T>, key: T -> Key)
    requires multiset(a) == multiset(b) && Separates(a, key)
    ensures Separates(b, key)
  {
    forall i, j | 0 <= i < |b| && 0 <= j < |b| && key(b[i]) == key(b[j]) ensures b[i] == b[j] {
      assert b[i] in multiset(a) && b[j] in multiset(a);
      assert b[i] in a && b[j] in a;
    }
  }

  lemma {:induction false} SortOfSorted<T>(items: seq<T>, key: T -> Key)
    requires Sorted(items, key)
    ensures Sort(items, key) == items
  {
    if items != [] { SortOfSorted(items[1..], key); }
  }
}
