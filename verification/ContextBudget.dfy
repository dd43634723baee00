/** Character budgets for the context shown to the model (app/agent/context_budget.py). */
module ContextBudget {
  import opened Prelude
  import opened Json
  import KeyedSort

  type Mapping = seq<(string, Json)>

  function Codes(s: string): KeyedSort.Key {
    seq(|s|, i requires 0 <= i < |s| => s[i] as int as real)
  }

  /** The keys in code point order, at most the first forty. */
  function AvailableKeys(value: Mapping): seq<Json> {
    var keys := KeyedSort.Sort(seq(|value|, i requires 0 <= i < |value| => value[i].0), Codes);
    var shown := if |keys| <= 40 then keys else keys[..40];
    seq(|shown|, i requires 0 <= i < |shown| => Text(shown[i]))
  }

  /** Code point order: a beginning comes first, otherwise the first difference decides. */
  ghost predicate CodeOrder(a: string, b: string) {
    || (|a| <= |b| && a == b[..|a|])
    || exists i :: 0 <= i < |a| && i < |b| && a[..i] == b[..i] && a[i] < b[i]
  }

  lemma {:induction false} CodesOrder(a: string, b: string)
    requires KeyedSort.Leq(Codes(a), Codes(b))
    ensures CodeOrder(a, b)
  {
    if a == [] {
      assert a == b[..0];
    } else {
      assert Codes(b) != [];
      assert Codes(a)[1..] == Codes(a[1..]) && Codes(b)[1..] == Codes(b[1..]);
      if a[0] < b[0] {
        assert a[..0] == b[..0] && a[0] < b[0];
      } else {
        CodesOrder(a[1..], b[1..]);
        HeadsAlike(a, b);
      }
    }
  }

  lemma HeadsAlike(a: string, b: string)
    requires a != [] && b != [] && a[0] == b[0] && CodeOrder(a[1..], b[1..])
    ensures CodeOrder(a, b)
  {
    if i :| 0 <= i < |a[1..]| && i < |b[1..]| && a[1..][..i] == b[1..][..i] && a[1..][i] < b[1..][i] {
      assert a[..i + 1] == [a[0]] + a[1..][..i] && b[..i + 1] == [b[0]] + b[1..][..i];
      assert a[i + 1] < b[i + 1];
    } else {
      assert a == [a[0]] + a[1..] && b[..|a|] == [b[0]] + b[1..][..|a| - 1];
    }
  }

  /** The keys shown are the first forty of all keys, arranged in code point order. */
  lemma KeysInOrder(value: Mapping) returns (order: seq<string>)
    ensures multiset(order) == multiset(seq(|value|, i requires 0 <= i < |value| => value[i].0))
    ensures forall i, j :: 0 <= i < j < |order| ==> CodeOrder(order[i], order[j])
    ensures |AvailableKeys(value)| == Least(|order|, 40)
    ensures forall i :: 0 <= i < |AvailableKeys(value)| ==> AvailableKeys(value)[i] == Text(order[i])
  {
    var keys := seq(|value|, i requires 0 <= i < |value| => value[i].0);
    order := KeyedSort.Sort(keys, Codes);
    KeyedSort.SortProperties(keys, Codes);
    hide CodeOrder, KeyedSort.Leq, KeyedSort.Sort;
    forall i, j | 0 <= i < j < |order| ensures CodeOrder(order[i], order[j]) {
      assert KeyedSort.Leq(Codes(order[i]), Codes(order[j]));
      CodesOrder(order[i], order[j]);
    }
  }

  function Marker(value: Mapping, preview: string): Mapping {
    [("truncated", Boolean(true)), ("available_keys", List(AvailableKeys(value))), ("preview", Text(preview))]
  }

  const TRUNCATED: Mapping := [("truncated", Boolean(true))]

  /** Everything a marker serializes to, up to its preview. */
  function Head(value: Mapping): seq<string> {
    [Quoted("truncated") + ":true", Quoted("available_keys") + ":" + Serialize(List(AvailableKeys(value)))]
  }

  lemma EmptyText()
    ensures Escaped("") == ""
  {
  }

  lemma MarkerSize(value: Mapping, preview: string)
    ensures Size(Object(Marker(value, preview))) == Size(Object(Marker(value, ""))) + |Escaped(preview)|
    ensures Size(Object(Marker(value, preview))) > 18
  {
    EmptyText();
    hide Escaped;
    MarkerText(value, preview);
    MarkerText(value, "");
    EscapedGrows("truncated", 0);
    EscapedGrows("available_keys", 0);
  }

  function Preview(preview: string): seq<string> {
    [Quoted("preview") + ":" + Quoted(preview)]
  }

  lemma MarkerText(value: Mapping, preview: string)
    ensures Size(Object(Marker(value, preview)))
         == |Joined(Head(value))| + 8 + |Escaped("preview")| + |Escaped(preview)|
    ensures |Joined(Head(value))| >= 7 + |Escaped("truncated")|
  {
    hide Escaped, Joined, AvailableKeys;
    var members := Marker(value, preview);
    var parts := Head(value) + Preview(preview);
    assert parts[0] == Quoted(members[0].0) + ":" + Serialize(members[0].1);
    assert parts[1] == Quoted(members[1].0) + ":" + Serialize(members[1].1);
    assert parts[2] == Quoted(members[2].0) + ":" + Serialize(members[2].1);
    hide Serialize;
    ObjectText(members, parts);
    JoinedLength(Head(value), Preview(preview));
    JoinedOne(Preview(preview)[0]);
    JoinedAtLeastHead(Head(value));
  }

  lemma JoinedOne(part: string)
    ensures Joined([part]) == part
  {
  }

  lemma JoinedAtLeastHead(parts: seq<string>)
    requires parts != []
    ensures |Joined(parts)| >= |parts[0]|
  {
  }

  lemma TruncatedSize()
    ensures Size(Object(TRUNCATED)) == 18
  {
    hide Escaped;
    PlainText("truncated");
    ObjectText(TRUNCATED, [Quoted("truncated") + ":true"]);
  }

  // ---------------------------------------------------------------- one mapping

  /** `cut` is the longest preview of `encoded` whose marker fits. */
  ghost predicate LongestPreview(value: Mapping, encoded: string, maxChars: int, cut: nat) {
    && cut <= |encoded| && Size(Object(Marker(value, encoded[..cut]))) <= maxChars
    && forall j :: cut < j <= |encoded| ==> Size(Object(Marker(value, encoded[..j]))) > maxChars
  }

  /** The mapping itself, or the marker with the longest preview that fits, or the bare flag when none does. */
  ghost predicate BoundedForm(value: Mapping, maxChars: int, r: Mapping) {
    var encoded := Serialize(Object(value));
    if |encoded| <= maxChars then r == value
    else if Size(Object(Marker(value, ""))) > maxChars then r == TRUNCATED
    else exists cut: nat :: LongestPreview(value, encoded, maxChars, cut) && r == Marker(value, encoded[..cut])
  }

  lemma PreviewMonotone(value: Mapping, encoded: string, j: nat, k: nat)
    requires j <= k <= |encoded|
    ensures Size(Object(Marker(value, encoded[..j]))) <= Size(Object(Marker(value, encoded[..k])))
  {
    hide *;
    MarkerSize(value, encoded[..j]);
    MarkerSize(value, encoded[..k]);
    assert encoded[..k][..j] == encoded[..j];
    EscapedGrows(encoded[..k], j);
  }

  /** Cutting reaches the budget exactly when there is room for the 18 characters of the bare flag. */
  lemma BoundedFormFits(value: Mapping, maxChars: int, r: Mapping)
    requires BoundedForm(value, maxChars, r)
    ensures Size(Object(r)) <= maxChars <==> maxChars >= 18 || Size(Object(value)) <= maxChars
  {
    TruncatedSize();
    MarkerSize(value, "");
    hide Marker, Serialize;
  }

  method BoundedMapping(value: Mapping, maxChars: int) returns (r: Mapping)
    ensures BoundedForm(value, maxChars, r)
  {
    var encoded := Serialize(Object(value));
    if |encoded| <= maxChars {
      return value;
    }
    if |Serialize(Object(Marker(value, "")))| > maxChars {
      return TRUNCATED;
    }
    hide Serialize, Marker;
    var low, high := 0, |encoded|;
    assert encoded[..0] == "";
    while low < high
      invariant 0 <= low <= high <= |encoded|
      invariant Size(Object(Marker(value, encoded[..low]))) <= maxChars
      invariant forall j :: high < j <= |encoded| ==> Size(Object(Marker(value, encoded[..j]))) > maxChars
    {
      var middle := (low + high + 1) / 2;
      if |Serialize(Object(Marker(value, encoded[..middle])))| <= maxChars {
        low := middle;
      } else {
        forall j | middle <= j <= |encoded| ensures Size(Object(Marker(value, encoded[..j]))) > maxChars {
          PreviewMonotone(value, encoded, middle, j);
        }
        high := middle - 1;
      }
    }
    r := Marker(value, encoded[..low]);
    assert LongestPreview(value, encoded, maxChars, low);
  }

  // ---------------------------------------------------------------- one text

  /** The text itself, or its longest beginning that fits, or nothing when even the empty text does not. */
  ghost predicate CutForm(value: string, budget: int, r: string) {
    if Size(Text(value)) <= budget then r == value
    else exists k ::
      && 0 <= k <= |value| && r == value[..k]
      && (k > 0 ==> Size(Text(value[..k])) <= budget)
      && forall j :: k < j <= |value| ==> Size(Text(value[..j])) > budget
  }

  method BoundedText(value: string, budget: int) returns (r: string)
    ensures CutForm(value, budget, r)
  {
    if |Serialize(Text(value))| <= budget {
      return value;
    }
    var low, high := 0, |value|;
    while low < high
      invariant 0 <= low <= high <= |value|
      invariant low > 0 ==> Size(Text(value[..low])) <= budget
      invariant forall j :: high < j <= |value| ==> Size(Text(value[..j])) > budget
    {
      hide Serialize;
      var middle := (low + high + 1) / 2;
      if |Serialize(Text(value[..middle]))| <= budget {
        low := middle;
      } else {
        forall j | middle <= j <= |value| ensures Size(Text(value[..j])) > budget {
          TextMonotone(value, middle, j);
        }
        high := middle - 1;
      }
    }
    r := value[..low];
  }

  // ---------------------------------------------------------------- lists

  /** Python's `values[-n:]`, for any n. */
  function TailSlice<T>(values: seq<T>, n: int): seq<T> {
    var start := if n > 0 then |values| - n else -n;
    values[if start < 0 then 0 else if start > |values| then |values| else start..]
  }

  /** Python's `values[:n]`, for any n. */
  function HeadSlice<T>(values: seq<T>, n: int): seq<T> {
    var stop := if n < 0 then |values| + n else n;
    values[..if stop < 0 then 0 else if stop > |values| then |values| else stop]
  }

  /** For a positive limit the slice is the newest items; zero keeps everything. */
  lemma TailSliceIsNewest<T>(values: seq<T>, n: int)
    ensures n >= 1 ==> TailSlice(values, n) == Newest(values, n)
    ensures n == 0 ==> TailSlice(values, n) == values
  {
  }

  /** `values[-n:]`: a positive limit takes the newest n items, a negative one drops the oldest -n, zero keeps all. */
  lemma TailPositions<T>(values: seq<T>, n: int)
    ensures var r, all := TailSlice(values, n), |values|;
      && |r| == (if n > 0 then Least(all, n) else all - Least(all, -n))
      && forall i :: 0 <= i < |r| ==> r[i] == values[all - |r| + i]
  {
    var all := |values|;
    var start := if n > 0 then all - Least(all, n) else Least(all, -n);
    assert TailSlice(values, n) == values[start..];
  }

  /** `values[:n]`: a limit takes the oldest n items, a negative one drops the newest -n. */
  lemma HeadPositions<T>(values: seq<T>, n: int)
    ensures var r, all := HeadSlice(values, n), |values|;
      && |r| == (if n >= 0 then Least(all, n) else all - Least(all, -n))
      && forall i :: 0 <= i < |r| ==> r[i] == values[i]
  {
    var all := |values|;
    var stop := if n >= 0 then Least(all, n) else all - Least(all, -n);
    assert HeadSlice(values, n) == values[..stop];
  }

  function Least(a: int, b: int): int {
    if a <= b then a else b
  }

  /** The last or first `k` items. */
  function Window<T>(items: seq<T>, k: nat, newest: bool): (r: seq<T>)
    requires k <= |items|
    ensures |r| == k
  {
    if newest then items[|items| - k..] else items[..k]
  }

  function ItemAt<T>(source: seq<T>, k: nat, newest: bool): T
    requires k < |source|
  {
    if newest then source[|source| - 1 - k] else source[k]
  }

  lemma WindowStep<T>(source: seq<T>, k: nat, newest: bool)
    requires k < |source|
    ensures Window(source, k + 1, newest)
         == if newest then [ItemAt(source, k, newest)] + Window(source, k, newest)
            else Window(source, k, newest) + [ItemAt(source, k, newest)]
    ensures k == 0 ==> Window(source, 0, newest) == [] && Window(source, 1, newest) == [ItemAt(source, 0, newest)]
  {
  }

  /** `k` items fit and no larger number of them does. */
  ghost predicate LongestWindow(items: seq<Json>, maxChars: int, newest: bool, k: nat) {
    && k <= |items| && Size(List(Window(items, k, newest))) <= maxChars
    && forall j :: k < j <= |items| ==> Size(List(Window(items, j, newest))) > maxChars
  }

  lemma WindowMonotone(items: seq<Json>, j: nat, k: nat, newest: bool)
    requires j <= k <= |items|
    ensures Size(List(Window(items, j, newest))) <= Size(List(Window(items, k, newest)))
  {
    hide Size;
    var n := |items|;
    if newest {
      assert items[n - k..] == items[n - k..n - j] + items[n - j..];
      ListLength(items[n - k..n - j], items[n - j..]);
    } else {
      assert items[..k] == items[..j] + items[j..k];
      ListLength(items[..j], items[j..k]);
    }
  }

  lemma NoLongerWindow(items: seq<Json>, maxChars: int, newest: bool, k: nat)
    requires k < |items| && Size(List(Window(items, k + 1, newest))) > maxChars
    ensures forall j :: k < j <= |items| ==> Size(List(Window(items, j, newest))) > maxChars
  {
    forall j | k < j <= |items| ensures Size(List(Window(items, j, newest))) > maxChars {
      WindowMonotone(items, k + 1, j, newest);
    }
  }

  function Objects(values: seq<Mapping>): (r: seq<Json>)
    ensures |r| == |values|
  {
    seq(|values|, i requires 0 <= i < |values| => Object(values[i]))
  }

  function Texts(values: seq<string>): (r: seq<Json>)
    ensures |r| == |values|
  {
    seq(|values|, i requires 0 <= i < |values| => Text(values[i]))
  }

  function ItemBudget(maxChars: int): int {
    if maxChars - 2 >= 1 then maxChars - 2 else 1
  }

  /** The longest run of newest mappings that fits, or the newest one alone, cut to fit. */
  ghost predicate NewestForm(tail: seq<Mapping>, maxChars: int, r: seq<Mapping>) {
    var n := |tail|;
    if n == 0 then r == []
    else if Size(Object(tail[n - 1])) + 2 <= maxChars then
      LongestWindow(Objects(tail), maxChars, true, |r|) && r == Window(tail, |r|, true)
    else |r| == 1 && BoundedForm(tail[n - 1], ItemBudget(maxChars), r[0])
  }

  lemma ObjectSize(value: Mapping)
    ensures Size(Object(value)) >= 2
  {
  }

  lemma ObjectsWindow(tail: seq<Mapping>, k: nat)
    requires k <= |tail|
    ensures Objects(Window(tail, k, true)) == Window(Objects(tail), k, true)
  {
  }

  lemma OneObject(value: Mapping)
    ensures Size(List(Objects([value]))) == Size(Object(value)) + 2
  {
    assert Objects([value]) == [Object(value)];
    SingletonSize(Object(value));
  }

  lemma NewestStop(tail: seq<Mapping>, maxChars: int, k: nat)
    requires 0 < k <= |tail| && Size(List(Window(Objects(tail), k, true))) <= maxChars
    requires k < |tail| ==> Size(List(Window(Objects(tail), k + 1, true))) > maxChars
    ensures NewestForm(tail, maxChars, Window(tail, k, true))
  {
    hide Size, Serialize, BoundedForm, Window, Objects;
    NewestAlone(tail);
    WindowMonotone(Objects(tail), 1, k, true);
    if k < |tail| { NoLongerWindow(Objects(tail), maxChars, true, k); }
  }

  lemma NewestAlone(tail: seq<Mapping>)
    requires tail != []
    ensures Size(List(Window(Objects(tail), 1, true))) == Size(Object(tail[|tail| - 1])) + 2
  {
    assert Window(Objects(tail), 1, true) == [Object(tail[|tail| - 1])];
    SingletonSize(Object(tail[|tail| - 1]));
  }

  method BoundedNewestMappings(values: seq<Mapping>, maxItems: int, maxChars: int) returns (selected: seq<Mapping>)
    ensures NewestForm(TailSlice(values, maxItems), maxChars, selected)
  {
    var tail := TailSlice(values, maxItems);
    selected := [];
    if tail == [] {
      return;
    }
    NewestAlone(tail);
    assert ItemAt(tail, 0, true) == tail[|tail| - 1];
    WindowStep(tail, 0, true);
    hide Size, Serialize, BoundedForm, Window, Objects, TailSlice, ItemAt, LongestWindow;
    for k := 0 to |tail|
      invariant selected == Window(tail, k, true) && |selected| == k
      invariant k > 0 ==> Size(List(Window(Objects(tail), k, true))) <= maxChars
    {
      var item := ItemAt(tail, k, true);
      var candidate := [item] + selected;
      WindowStep(tail, k, true);
      ObjectsWindow(tail, k + 1);
      if Size(List(Objects(candidate))) <= maxChars {
        selected := candidate;
        continue;
      }
      if selected == [] {
        var cut := BoundedMapping(item, ItemBudget(maxChars));
        return [cut];
      }
      NewestStop(tail, maxChars, k);
      return;
    }
    NewestStop(tail, maxChars, |tail|);
  }

  /** What is kept fits exactly when the budget is at least 20, or the newest mapping alone is small enough. */
  lemma NewestFits(tail: seq<Mapping>, maxChars: int, r: seq<Mapping>)
    requires tail != [] && NewestForm(tail, maxChars, r)
    ensures Size(List(Objects(r))) <= maxChars
       <==> maxChars >= 20 || Size(Object(tail[|tail| - 1])) + 2 <= maxChars
  {
    hide Size, Serialize, Window, Objects, BoundedForm, LongestWindow;
    var newest := tail[|tail| - 1];
    ObjectSize(newest);
    if Size(Object(newest)) + 2 <= maxChars {
      ObjectsWindow(tail, |r|) by { LongestFits(Objects(tail), maxChars, |r|); }
      LongestFits(Objects(tail), maxChars, |r|);
    } else {
      assert r == [r[0]];
      OneObject(r[0]);
      BoundedFormFits(newest, ItemBudget(maxChars), r[0]);
    }
  }

  lemma LongestFits(items: seq<Json>, maxChars: int, k: nat)
    requires LongestWindow(items, maxChars, true, k)
    ensures k <= |items| && Size(List(Window(items, k, true))) <= maxChars
  {
  }

  /** The longest run of texts from the chosen end that fits, or the one at that end, cut to fit. */
  ghost predicate TextsForm(source: seq<string>, maxChars: int, newest: bool, r: seq<string>) {
    if source == [] then r == []
    else
      var first := Window(source, 1, newest)[0];
      if Size(Text(first)) + 2 <= maxChars then
        LongestWindow(Texts(source), maxChars, newest, |r|) && r == Window(source, |r|, newest)
      else |r| == 1 && CutForm(first, ItemBudget(maxChars), r[0])
  }

  lemma TextsWindow(source: seq<string>, k: nat, newest: bool)
    requires k <= |source|
    ensures Texts(Window(source, k, newest)) == Window(Texts(source), k, newest)
  {
  }

  lemma TextAlone(source: seq<string>, newest: bool)
    requires source != []
    ensures var first := ItemAt(source, 0, newest);
            Window(source, 1, newest) == [first] && Size(Text(first)) >= 2
            && Size(List(Window(Texts(source), 1, newest))) == Size(Text(first)) + 2
  {
    var first := ItemAt(source, 0, newest);
    WindowStep(source, 0, newest);
    assert Window(Texts(source), 1, newest) == [Text(first)];
    SingletonSize(Text(first));
  }

  lemma OneText(r: string)
    ensures Size(List(Texts([r]))) == Size(Text(r)) + 2
  {
    assert Texts([r]) == [Text(r)];
    SingletonSize(Text(r));
  }

  lemma TextsStop(source: seq<string>, maxChars: int, newest: bool, k: nat)
    requires 0 < k <= |source| && Size(List(Window(Texts(source), k, newest))) <= maxChars
    requires k < |source| ==> Size(List(Window(Texts(source), k + 1, newest))) > maxChars
    ensures TextsForm(source, maxChars, newest, Window(source, k, newest))
  {
    hide Size, Serialize, CutForm, Texts, Window, ItemAt;
    TextAlone(source, newest);
    WindowMonotone(Texts(source), 1, k, newest);
    if k < |source| { NoLongerWindow(Texts(source), maxChars, newest, k); }
  }

  method BoundedTexts(values: seq<string>, maxItems: int, maxChars: int, keepNewest: bool)
    returns (selected: seq<string>)
    ensures TextsForm(if keepNewest then TailSlice(values, maxItems) else HeadSlice(values, maxItems),
                      maxChars, keepNewest, selected)
  {
    hide Size, Serialize, CutForm, Window, Texts, TailSlice, HeadSlice, ItemAt, LongestWindow;
    var source := if keepNewest then TailSlice(values, maxItems) else HeadSlice(values, maxItems);
    selected := [];
    if source == [] {
      return;
    }
    WindowStep(source, 0, keepNewest);
    TextAlone(source, keepNewest);
    for k := 0 to |source|
      invariant selected == Window(source, k, keepNewest) && |selected| == k
      invariant k > 0 ==> Size(List(Window(Texts(source), k, keepNewest))) <= maxChars
    {
      var item := ItemAt(source, k, keepNewest);
      var candidate := if keepNewest then [item] + selected else selected + [item];
      WindowStep(source, k, keepNewest);
      TextsWindow(source, k + 1, keepNewest);
      if Size(List(Texts(candidate))) <= maxChars {
        selected := candidate;
        continue;
      }
      if selected == [] {
        var cut := BoundedText(item, ItemBudget(maxChars));
        return [cut];
      }
      TextsStop(source, maxChars, keepNewest, k);
      return;
    }
    TextsStop(source, maxChars, keepNewest, |source|);
  }

  /** What is kept fits exactly when there is room for the four characters of a list with an empty text. */
  lemma TextsFit(source: seq<string>, maxChars: int, newest: bool, r: seq<string>)
    requires source != [] && TextsForm(source, maxChars, newest, r)
    ensures Size(List(Texts(r))) <= maxChars <==> maxChars >= 4
  {
    hide Serialize, Window, Texts;
    var first := ItemAt(source, 0, newest);
    TextAlone(source, newest);
    if Size(Text(first)) + 2 <= maxChars {
      TextsWindow(source, |r|, newest);
    } else {
      assert r == [r[0]];
      OneText(r[0]);
      CutFormFits(first, ItemBudget(maxChars), r[0]);
    }
  }

  lemma CutFormFits(value: string, budget: int, r: string)
    requires CutForm(value, budget, r)
    ensures Size(Text(r)) <= budget <==> budget >= 2
  {
    assert Escaped([]) == [];
  }
}
