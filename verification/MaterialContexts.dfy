/**
 * Material identities of an analysis job: rows naming the same material, directly or through a
 * chain of shared names, are merged into one context (app/agent/application.py).
 */
module MaterialContexts {
  import opened Prelude
  import opened Components

  const MAX_MATERIAL_ALIASES := 32

  /** The two facts about characters the code takes from Python: what is white space, and case folding. */
  datatype TextRules = TextRules(isSpace: char -> bool, casefold: string -> string)

  datatype MaterialContext = MaterialContext(formula: Option<string>, name: Option<string>, aliases: seq<string>)

  datatype Row = Row(formula: Option<string>, name: Option<string>)

  // ---------------------------------------------------------------- normalised values

  function StripLeft(t: TextRules, s: string): string {
    if s != [] && t.isSpace(s[0]) then StripLeft(t, s[1..]) else s
  }

  function StripRight(t: TextRules, s: string): string {
    if s != [] && t.isSpace(s[|s| - 1]) then StripRight(t, s[..|s| - 1]) else s
  }

  function Strip(t: TextRules, s: string): string {
    StripRight(t, StripLeft(t, s))
  }

  function Nonblank(t: TextRules, value: Option<string>): Option<string> {
    match value
    case None => None
    case Some(s) => if Strip(t, s) == [] then None else Some(Strip(t, s))
  }

  function WithoutSeparators(t: TextRules, s: string): string {
    if s == [] then []
    else (if t.isSpace(s[0]) || s[0] == '_' || s[0] == '-' then [] else [s[0]]) + WithoutSeparators(t, s[1..])
  }

  function Normalized(t: TextRules, value: Option<string>): Option<Value> {
    match Nonblank(t, value)
    case None => None
    case Some(s) => Some(WithoutSeparators(t, t.casefold(s)))
  }

  function NormalizedSet(t: TextRules, values: seq<Option<string>>): set<Value> {
    set v | v in values && Normalized(t, v).Some? :: Normalized(t, v).value
  }

  lemma {:induction false} StripRightKeepsHead(t: TextRules, s: string)
    requires s != [] && !t.isSpace(s[0])
    ensures StripRight(t, s) != [] && StripRight(t, s)[0] == s[0]
    decreases |s|
  {
    if t.isSpace(s[|s| - 1]) { StripRightKeepsHead(t, s[..|s| - 1]); }
  }

  lemma {:induction false} StripRightStripped(t: TextRules, s: string)
    ensures StripRight(t, StripRight(t, s)) == StripRight(t, s)
    decreases |s|
  {
    if s != [] && t.isSpace(s[|s| - 1]) { StripRightStripped(t, s[..|s| - 1]); }
  }

  lemma {:induction false} StripLeftHead(t: TextRules, s: string)
    ensures var r := StripLeft(t, s); r == [] || !t.isSpace(r[0])
  {
    if s != [] && t.isSpace(s[0]) { StripLeftHead(t, s[1..]); }
  }

  /** Stripping a stripped value changes nothing, so a cleaned alias keeps its normalised value. */
  lemma StripTwice(t: TextRules, s: string)
    ensures Strip(t, Strip(t, s)) == Strip(t, s)
  {
    var left := StripLeft(t, s);
    StripLeftHead(t, s);
    if left != [] { StripRightKeepsHead(t, left); }
    StripRightStripped(t, left);
  }

  lemma CleanedKeepsIdentity(t: TextRules, value: Option<string>)
    ensures Normalized(t, Nonblank(t, value)) == Normalized(t, value)
  {
    if value.Some? { StripTwice(t, value.value); }
  }

  // ---------------------------------------------------------------- which values are equal

  predicate Separator(t: TextRules, c: char) {
    t.isSpace(c) || c == '_' || c == '-'
  }

  /** The case fold of the stripped text; blank values have none. */
  function Folded(t: TextRules, s: string): Option<string> {
    if Strip(t, s) == "" then None else Some(t.casefold(Strip(t, s)))
  }

  lemma {:induction false} SpacesBefore(t: TextRules, s: string)
    ensures var r := StripLeft(t, s);
      && |r| <= |s| && r == s[|s| - |r|..] && forall i :: 0 <= i < |s| - |r| ==> t.isSpace(s[i])
  {
    if s != [] && t.isSpace(s[0]) {
      SpacesBefore(t, s[1..]);
      assert s == [s[0]] + s[1..];
    }
  }

  lemma {:induction false} SpacesAfter(t: TextRules, s: string)
    ensures var r := StripRight(t, s);
      && |r| <= |s| && r == s[..|r|] && (forall i :: |r| <= i < |s| ==> t.isSpace(s[i]))
      && (r != [] ==> !t.isSpace(r[|r| - 1]))
    decreases |s|
  {
    if s != [] && t.isSpace(s[|s| - 1]) { SpacesAfter(t, s[..|s| - 1]); }
  }

  /** Stripping takes exactly the white space at both ends. */
  lemma StripIsTrim(t: TextRules, s: string)
    ensures var r := Strip(t, s);
      && (exists left, right ::
            && s == left + r + right
            && (forall c :: c in left ==> t.isSpace(c)) && (forall c :: c in right ==> t.isSpace(c)))
      && (r != [] ==> !t.isSpace(r[0]) && !t.isSpace(r[|r| - 1]))
  {
    var middle, r := StripLeft(t, s), Strip(t, s);
    SpacesBefore(t, s);
    SpacesAfter(t, middle);
    StripLeftHead(t, s);
    var left, right := s[..|s| - |middle|], middle[|r|..];
    assert s == left + r + right;
  }

  /** A separator more or less, anywhere, makes no difference. */
  lemma {:induction false} SeparatorsDoNotCount(t: TextRules, before: string, c: char, after: string)
    requires Separator(t, c)
    ensures WithoutSeparators(t, before + [c] + after) == WithoutSeparators(t, before + after)
  {
    if before == [] {
      assert ([] + [c] + after)[1..] == after && [] + after == after;
    } else {
      SeparatorsDoNotCount(t, before[1..], c, after);
      assert (before + [c] + after)[1..] == before[1..] + [c] + after && (before + after)[1..] == before[1..] + after;
    }
  }

  lemma {:induction false} NothingToRemove(t: TextRules, s: string)
    requires forall i :: 0 <= i < |s| ==> !Separator(t, s[i])
    ensures WithoutSeparators(t, s) == s
  {
    if s != [] {
      NothingToRemove(t, s[1..]);
      assert s == [s[0]] + s[1..];
    }
  }

  /** Two names are taken for the same when their folds are equal, or differ only by white space, '_' and '-'; blank
      names stand for nothing. Without such characters only equal folds are the same. */
  lemma SameNames(t: TextRules, a: string, b: string)
    ensures Normalized(t, Some(a)).None? <==> Folded(t, a).None?
    ensures Folded(t, a) == Folded(t, b) ==> Normalized(t, Some(a)) == Normalized(t, Some(b))
    ensures (exists before, c, after ::
               && Folded(t, a) == Some(before + [c] + after) && Separator(t, c)
               && Folded(t, b) == Some(before + after)) ==>
      Normalized(t, Some(a)) == Normalized(t, Some(b))
    ensures Folded(t, a).Some? && Folded(t, b).Some? ==>
      (forall c :: c in Folded(t, a).value || c in Folded(t, b).value ==> !Separator(t, c)) ==>
      (Normalized(t, Some(a)) == Normalized(t, Some(b)) <==> Folded(t, a) == Folded(t, b))
  {
    if Folded(t, a).Some? && Folded(t, b).Some? {
      var x, y := Folded(t, a).value, Folded(t, b).value;
      forall before, c, after | x == before + [c] + after && Separator(t, c) && y == before + after
        ensures WithoutSeparators(t, x) == WithoutSeparators(t, y)
      {
        SeparatorsDoNotCount(t, before, c, after);
      }
      if forall c :: c in x || c in y ==> !Separator(t, c) {
        NothingToRemove(t, x);
        NothingToRemove(t, y);
      }
    }
  }

  // ---------------------------------------------------------------- merging two contexts

  function Optional(aliases: seq<string>): seq<Option<string>> {
    seq(|aliases|, i requires 0 <= i < |aliases| => Some(aliases[i]))
  }

  function Identity(t: TextRules, c: MaterialContext): Group {
    NormalizedSet(t, [c.formula, c.name] + Optional(c.aliases))
  }

  /** Python's `a or b` on optional strings: the empty string counts as missing. */
  function Or(a: Option<string>, b: Option<string>): Option<string> {
    if a.Some? && a.value != [] then a else b
  }

  function Canonical(t: TextRules, a: MaterialContext, b: MaterialContext): set<Value> {
    NormalizedSet(t, [Or(a.formula, b.formula), Or(a.name, b.name)])
  }

  function MergeInputs(a: MaterialContext, b: MaterialContext): seq<Option<string>> {
    Optional(a.aliases) + Optional(b.aliases) + [a.formula, a.name, b.formula, b.name]
  }

  /** Keeps the cleaned value unless it is blank or its normalised form is canonical or already kept. */
  function Collect(t: TextRules, canonical: set<Value>, kept: seq<string>, value: Option<string>): seq<string> {
    var normalized := Normalized(t, value);
    if normalized.None? || normalized.value in canonical + NormalizedSet(t, Optional(kept)) then kept
    else kept + [Nonblank(t, value).value]
  }

  function Collected(t: TextRules, canonical: set<Value>, values: seq<Option<string>>): seq<string> {
    if values == [] then []
    else Collect(t, canonical, Collected(t, canonical, values[..|values| - 1]), values[|values| - 1])
  }

  function Merge(t: TextRules, a: MaterialContext, b: MaterialContext): MaterialContext {
    var aliases := Collected(t, Canonical(t, a, b), MergeInputs(a, b));
    MaterialContext(Or(a.formula, b.formula), Or(a.name, b.name),
                    if |aliases| <= MAX_MATERIAL_ALIASES then aliases else aliases[..MAX_MATERIAL_ALIASES])
  }

  lemma OptionalAppend(a: seq<string>, x: string)
    ensures Optional(a + [x]) == Optional(a) + [Some(x)]
  {
  }

  lemma NormalizedAppend(t: TextRules, values: seq<Option<string>>, x: Option<string>)
    ensures NormalizedSet(t, values + [x])
         == NormalizedSet(t, values) + if Normalized(t, x).Some? then {Normalized(t, x).value} else {}
  {
    assert forall v :: v in values + [x] <==> v in values || v == x;
  }

  lemma NormalizedConcat(t: TextRules, a: seq<Option<string>>, b: seq<Option<string>>)
    ensures NormalizedSet(t, a + b) == NormalizedSet(t, a) + NormalizedSet(t, b)
  {
    assert forall v :: v in a + b <==> v in a || v in b;
  }

  lemma NormalizedNone(t: TextRules)
    ensures NormalizedSet(t, []) == {} && Optional([]) == []
  {
  }

  lemma AliasAppend(t: TextRules, kept: seq<string>, value: Option<string>)
    requires Normalized(t, value).Some?
    ensures NormalizedSet(t, Optional(kept + [Nonblank(t, value).value]))
         == NormalizedSet(t, Optional(kept)) + {Normalized(t, value).value}
  {
    CleanedKeepsIdentity(t, value);
    OptionalAppend(kept, Nonblank(t, value).value);
    NormalizedAppend(t, Optional(kept), Nonblank(t, value));
  }

  method MergeMaterialContext(t: TextRules, first: MaterialContext, second: MaterialContext)
    returns (merged: MaterialContext)
    ensures merged == Merge(t, first, second)
  {
    var formula, name := Or(first.formula, second.formula), Or(first.name, second.name);
    var canonical := NormalizedSet(t, [formula, name]);
    var aliases: seq<string>, seen := [], canonical;
    var values := MergeInputs(first, second);
    NormalizedNone(t);
    for i := 0 to |values|
      invariant aliases == Collected(t, canonical, values[..i])
      invariant seen == canonical + NormalizedSet(t, Optional(aliases))
    {
      hide NormalizedSet, Strip;
      assert values[..i + 1][..i] == values[..i];
      var normalized, cleaned := Normalized(t, values[i]), Nonblank(t, values[i]);
      if normalized.None? || cleaned.None? || normalized.value in seen {
        continue;
      }
      AliasAppend(t, aliases, values[i]);
      aliases := aliases + [cleaned.value];
      seen := seen + {normalized.value};
    }
    assert values[..|values|] == values;
    merged := MaterialContext(formula, name,
      aliases[..if |aliases| < MAX_MATERIAL_ALIASES then |aliases| else MAX_MATERIAL_ALIASES]);
  }

  lemma CollectIdentity(t: TextRules, canonical: set<Value>, kept: seq<string>, offered: set<Value>,
      value: Option<string>)
    requires NormalizedSet(t, Optional(kept)) == offered - canonical && |offered - canonical| == |kept|
    ensures var after := Collect(t, canonical, kept, value);
            var now := if Normalized(t, value).Some? then offered + {Normalized(t, value).value} else offered;
            NormalizedSet(t, Optional(after)) == now - canonical && |now - canonical| == |after|
  {
    if Normalized(t, value).Some? {
      AliasAppend(t, kept, value);
      hide NormalizedSet, Normalized, Nonblank;
      var v := Normalized(t, value).value;
      if v in canonical || v in offered {
        assert offered + {v} - canonical == offered - canonical;
      } else {
        assert offered + {v} - canonical == (offered - canonical) + {v};
      }
    }
  }

  /** What the collected aliases stand for: every offered value outside the canonical ones, each once. */
  lemma {:induction false} CollectedIdentity(t: TextRules, canonical: set<Value>, values: seq<Option<string>>)
    ensures NormalizedSet(t, Optional(Collected(t, canonical, values))) == NormalizedSet(t, values) - canonical
    ensures |NormalizedSet(t, values) - canonical| == |Collected(t, canonical, values)|
  {
    if values == [] {
      NormalizedNone(t);
    } else {
      hide NormalizedSet, Normalized, Collect;
      var before, last := values[..|values| - 1], values[|values| - 1];
      assert values == before + [last];
      CollectedIdentity(t, canonical, before);
      NormalizedAppend(t, before, last);
      CollectIdentity(t, canonical, Collected(t, canonical, before), NormalizedSet(t, before), last);
    }
  }

  lemma {:induction false} CollectedPrefix(t: TextRules, canonical: set<Value>, values: seq<Option<string>>, n: nat)
    requires n <= |Collected(t, canonical, values)|
    ensures |NormalizedSet(t, Optional(Collected(t, canonical, values)[..n]))| <= n
    ensures forall v :: v in NormalizedSet(t, Optional(Collected(t, canonical, values)[..n])) ==> v !in canonical
  {
    if values != [] {
      var before := values[..|values| - 1];
      var kept := Collected(t, canonical, before);
      if n <= |kept| {
        assert Collected(t, canonical, values)[..n] == kept[..n];
        CollectedPrefix(t, canonical, before, n);
      } else {
        assert Collected(t, canonical, values)[..n] == Collected(t, canonical, values);
        CollectedIdentity(t, canonical, values);
      }
    }
  }

  lemma MergeInputsIdentity(t: TextRules, a: MaterialContext, b: MaterialContext)
    ensures NormalizedSet(t, MergeInputs(a, b)) == Identity(t, a) + Identity(t, b)
    ensures Canonical(t, a, b) <= Identity(t, a) + Identity(t, b)
  {
    forall v ensures v in MergeInputs(a, b)
      <==> v in [a.formula, a.name] + Optional(a.aliases) || v in [b.formula, b.name] + Optional(b.aliases)
    {
    }
  }

  /** The values the merged context would need aliases for. */
  function Extra(t: TextRules, a: MaterialContext, b: MaterialContext): set<Value> {
    Identity(t, a) + Identity(t, b) - Canonical(t, a, b)
  }

  /**
   * Merging stands for both materials exactly when the values other than the merged formula and name
   * number at most 32. Beyond that the list of aliases is cut and a value is lost.
   */
  lemma MergeIdentity(t: TextRules, a: MaterialContext, b: MaterialContext)
    ensures Identity(t, Merge(t, a, b)) == Identity(t, a) + Identity(t, b)
       <==> |Extra(t, a, b)| <= MAX_MATERIAL_ALIASES
    ensures Identity(t, Merge(t, a, b)) <= Identity(t, a) + Identity(t, b)
  {
    var canonical, values := Canonical(t, a, b), MergeInputs(a, b);
    var aliases := Collected(t, canonical, values);
    var merged := Merge(t, a, b);
    var kept := NormalizedSet(t, Optional(merged.aliases));
    MergeInputsIdentity(t, a, b);
    CollectedIdentity(t, canonical, values);
    NormalizedConcat(t, [merged.formula, merged.name], Optional(merged.aliases));
    assert Identity(t, merged) == canonical + kept;
    if |aliases| <= MAX_MATERIAL_ALIASES {
      assert kept == Extra(t, a, b);
    } else {
      CutAliases(t, canonical, values);
      assert kept <= Extra(t, a, b) && |kept| < |Extra(t, a, b)|;
    }
  }

  lemma NormalizedMonotone(t: TextRules, a: seq<Option<string>>, b: seq<Option<string>>)
    requires forall v :: v in a ==> v in b
    ensures NormalizedSet(t, a) <= NormalizedSet(t, b)
  {
  }

  lemma CutAliases(t: TextRules, canonical: set<Value>, values: seq<Option<string>>)
    requires |Collected(t, canonical, values)| > MAX_MATERIAL_ALIASES
    ensures var kept := NormalizedSet(t, Optional(Collected(t, canonical, values)[..MAX_MATERIAL_ALIASES]));
            kept <= NormalizedSet(t, values) - canonical && |kept| <= MAX_MATERIAL_ALIASES
  {
    hide Collected, NormalizedSet;
    var aliases := Collected(t, canonical, values);
    CollectedIdentity(t, canonical, values);
    CollectedPrefix(t, canonical, values, MAX_MATERIAL_ALIASES);
    assert forall i :: 0 <= i < MAX_MATERIAL_ALIASES ==>
      Optional(aliases[..MAX_MATERIAL_ALIASES])[i] == Optional(aliases)[i];
    NormalizedMonotone(t, Optional(aliases[..MAX_MATERIAL_ALIASES]), Optional(aliases));
  }

  // ---------------------------------------------------------------- the contexts of a job

  predicate Meets(t: TextRules, c: MaterialContext, key: Group) {
    Identity(t, c) * key != {}
  }

  function Meeting(t: TextRules, contexts: seq<MaterialContext>, key: Group): seq<MaterialContext> {
    if contexts == [] then []
    else
      var last := contexts[|contexts| - 1];
      Meeting(t, contexts[..|contexts| - 1], key) + if Meets(t, last, key) then [last] else []
  }

  function Apart(t: TextRules, contexts: seq<MaterialContext>, key: Group): seq<MaterialContext> {
    if contexts == [] then []
    else
      var last := contexts[|contexts| - 1];
      Apart(t, contexts[..|contexts| - 1], key) + if Meets(t, last, key) then [] else [last]
  }

  /** Position of the first context that meets `key`, or the length when none does. */
  function FirstMeeting(t: TextRules, contexts: seq<MaterialContext>, key: Group): (first: nat)
    ensures first <= |contexts|
    ensures first < |contexts| ==> Meets(t, contexts[first], key)
    ensures forall i :: 0 <= i < first ==> !Meets(t, contexts[i], key)
  {
    if contexts == [] || Meets(t, contexts[0], key) then 0 else 1 + FirstMeeting(t, contexts[1..], key)
  }

  function MergeAll(t: TextRules, merged: MaterialContext, others: seq<MaterialContext>): MaterialContext {
    if others == [] then merged
    else Merge(t, MergeAll(t, merged, others[..|others| - 1]), others[|others| - 1])
  }

  /** The candidate joins the first context it meets together with all later ones; alone, it is appended. */
  function AddCandidate(t: TextRules, contexts: seq<MaterialContext>, c: MaterialContext): seq<MaterialContext> {
    var key := Identity(t, c);
    var meeting, first := Meeting(t, contexts, key), FirstMeeting(t, contexts, key);
    if meeting == [] || first == |contexts| then contexts + [c]
    else
      contexts[..first] + [MergeAll(t, meeting[0], meeting[1..] + [c])] + Apart(t, contexts[first + 1..], key)
  }

  function RowContext(t: TextRules, row: Row): Option<MaterialContext> {
    var formula, name := Nonblank(t, row.formula), Nonblank(t, row.name);
    if formula.None? && name.None? then None else Some(MaterialContext(formula, name, []))
  }

  function JobContexts(t: TextRules, rows: seq<Row>): seq<MaterialContext> {
    if rows == [] then []
    else
      var before := JobContexts(t, rows[..|rows| - 1]);
      match RowContext(t, rows[|rows| - 1])
      case None => before
      case Some(c) => AddCandidate(t, before, c)
  }

  /** `items` are the contexts at `indices`. */
  ghost predicate Points(contexts: seq<MaterialContext>, indices: seq<nat>, items: seq<MaterialContext>) {
    && |indices| == |items|
    && forall j :: 0 <= j < |indices| ==> indices[j] < |contexts| && contexts[indices[j]] == items[j]
  }

  /** `indices` lists, first one smallest, exactly the positions below `n` whose context meets `key`. */
  ghost predicate Lists(t: TextRules, contexts: seq<MaterialContext>, key: Group, n: nat, indices: seq<nat>)
    requires n <= |contexts|
  {
    && (forall i :: i in indices <==> 0 <= i < n && Meets(t, contexts[i], key))
    && (forall j :: 0 < j < |indices| ==> indices[0] < indices[j])
  }

  lemma ListsAppend(t: TextRules, contexts: seq<MaterialContext>, key: Group, n: nat, indices: seq<nat>)
    requires n < |contexts| && Lists(t, contexts, key, n, indices)
    ensures Lists(t, contexts, key, n + 1, if Meets(t, contexts[n], key) then indices + [n] else indices)
  {
    hide Meets;
    assert forall i :: i in indices + [n] <==> i in indices || i == n;
    assert indices != [] ==> indices[0] in indices;
  }

  lemma PointsAppend(t: TextRules, contexts: seq<MaterialContext>, key: Group, n: nat, indices: seq<nat>)
    requires n < |contexts| && Points(contexts, indices, Meeting(t, contexts[..n], key))
    ensures Points(contexts, if Meets(t, contexts[n], key) then indices + [n] else indices,
                   Meeting(t, contexts[..n + 1], key))
  {
    hide Meets;
    assert contexts[..n + 1][..n] == contexts[..n];
  }

  method Overlapping(t: TextRules, contexts: seq<MaterialContext>, key: Group) returns (overlapping: seq<nat>)
    ensures Points(contexts, overlapping, Meeting(t, contexts, key))
    ensures Lists(t, contexts, key, |contexts|, overlapping)
  {
    overlapping := [];
    for index := 0 to |contexts|
      invariant Points(contexts, overlapping, Meeting(t, contexts[..index], key))
      invariant Lists(t, contexts, key, index, overlapping)
    {
      hide Meets, Lists, Points, Meeting;
      ListsAppend(t, contexts, key, index, overlapping);
      PointsAppend(t, contexts, key, index, overlapping);
      if Meets(t, contexts[index], key) {
        overlapping := overlapping + [index];
      }
    }
    assert contexts[..|contexts|] == contexts;
  }

  lemma ApartNothing(t: TextRules, key: Group)
    ensures Apart(t, [], key) == []
  {
  }

  lemma ApartStep(t: TextRules, contexts: seq<MaterialContext>, from: nat, index: nat, key: Group)
    requires from <= index < |contexts|
    ensures Apart(t, contexts[from..index + 1], key)
         == Apart(t, contexts[from..index], key) + if Meets(t, contexts[index], key) then [] else [contexts[index]]
  {
    hide Meets;
    assert contexts[from..index + 1][..index - from] == contexts[from..index];
  }

  /** `contexts` without the given positions, which all lie after the first overlapping one. */
  method Without(t: TextRules, contexts: seq<MaterialContext>, first: nat, rest: seq<nat>, ghost key: Group)
    returns (updated: seq<MaterialContext>)
    requires first < |contexts| && forall j :: 0 <= j < |rest| ==> first < rest[j]
    requires forall i :: first < i < |contexts| ==> (i in rest <==> Meets(t, contexts[i], key))
    ensures updated == contexts[..first + 1] + Apart(t, contexts[first + 1..], key)
  {
    hide Meets, Apart;
    updated := [];
    assert contexts[first + 1..first + 1] == [];
    ApartNothing(t, key);
    for index := 0 to |contexts|
      invariant index <= first + 1 ==> updated == contexts[..index]
      invariant index > first ==> updated == contexts[..first + 1] + Apart(t, contexts[first + 1..index], key)
    {
      if index > first {
        ApartStep(t, contexts, first + 1, index, key);
      }
      if index !in rest {
        updated := updated + [contexts[index]];
      }
    }
    assert contexts[first + 1..|contexts|] == contexts[first + 1..];
  }

  method MergeThese(t: TextRules, contexts: seq<MaterialContext>, overlapping: seq<nat>,
                    ghost meeting: seq<MaterialContext>, candidate: MaterialContext)
    returns (merged: MaterialContext)
    requires overlapping != [] && Points(contexts, overlapping, meeting)
    ensures merged == MergeAll(t, meeting[0], meeting[1..] + [candidate])
  {
    hide Merge;
    ghost var others := meeting[1..];
    merged := contexts[overlapping[0]];
    for j := 1 to |overlapping|
      invariant merged == MergeAll(t, meeting[0], others[..j - 1])
    {
      assert others[..j][..j - 1] == others[..j - 1];
      assert contexts[overlapping[j]] == meeting[j] == others[..j][j - 1];
      merged := MergeMaterialContext(t, merged, contexts[overlapping[j]]);
    }
    assert others[..|overlapping| - 1] == others;
    assert (others + [candidate])[..|others|] == others;
    merged := MergeMaterialContext(t, merged, candidate);
  }

  method AddMaterial(t: TextRules, contexts: seq<MaterialContext>, candidate: MaterialContext)
    returns (updated: seq<MaterialContext>)
    ensures updated == AddCandidate(t, contexts, candidate)
  {
    hide Identity, Meets, MergeAll, Apart, Meeting;
    var key := Identity(t, candidate);
    var overlapping := Overlapping(t, contexts, key);
    ghost var meeting, place := Meeting(t, contexts, key), FirstMeeting(t, contexts, key);
    if overlapping == [] {
      assert meeting == [];
      return contexts + [candidate];
    }
    var first, rest := overlapping[0], overlapping[1..];
    assert first in overlapping && Meets(t, contexts[first], key);
    assert place < |contexts|;
    assert place in overlapping;
    assert first == place;
    assert forall i :: i in overlapping <==> i == first || i in rest;
    var merged := MergeThese(t, contexts, overlapping, meeting, candidate);
    updated := Without(t, contexts, first, rest, key);
    updated := updated[first := merged];
    assert updated == contexts[..first] + [merged] + Apart(t, contexts[first + 1..], key);
    assert meeting != [];
  }

  method JobMaterialContexts(t: TextRules, rows: seq<Row>) returns (contexts: seq<MaterialContext>)
    ensures contexts == JobContexts(t, rows)
  {
    contexts := [];
    for i := 0 to |rows|
      invariant contexts == JobContexts(t, rows[..i])
    {
      assert rows[..i + 1][..i] == rows[..i];
      var formula, name := Nonblank(t, rows[i].formula), Nonblank(t, rows[i].name);
      if formula.None? && name.None? {
        continue;
      }
      contexts := AddMaterial(t, contexts, MaterialContext(formula, name, []));
    }
    assert rows[..|rows|] == rows;
  }
}
