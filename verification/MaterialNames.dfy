/** What the material contexts of a job mean for the names in its rows, without the normalised values. */
module MaterialNames {
  import opened Prelude
  import opened Components
  import opened MaterialContexts
  import opened MaterialPartition

  /** Neither is blank, and their case folds are equal but for white space, '_' and '-'. */
  predicate SameName(t: TextRules, a: string, b: string) {
    && Folded(t, a).Some? && Folded(t, b).Some?
    && WithoutSeparators(t, Folded(t, a).value) == WithoutSeparators(t, Folded(t, b).value)
  }

  lemma SameNameValue(t: TextRules, a: string, b: string)
    ensures Normalized(t, Some(a)).Some? <==> Folded(t, a).Some?
    ensures SameName(t, a, b) <==>
      Normalized(t, Some(a)).Some? && Normalized(t, Some(a)) == Normalized(t, Some(b))
  {
  }

  /** The context has the name as its formula, as its name or among its aliases. */
  predicate Has(c: MaterialContext, s: string) {
    c.formula == Some(s) || c.name == Some(s) || s in c.aliases
  }

  /** The context has a name that is the same as this one. */
  ghost predicate StandsFor(t: TextRules, c: MaterialContext, s: string) {
    exists e :: Has(c, e) && SameName(t, e, s)
  }

  predicate Gives(row: Row, s: string) {
    row.formula == Some(s) || row.name == Some(s)
  }

  lemma HasMember(c: MaterialContext, e: string)
    ensures Has(c, e) <==> Some(e) in [c.formula, c.name] + Optional(c.aliases)
  {
    var values := [c.formula, c.name] + Optional(c.aliases);
    assert values[0] == c.formula && values[1] == c.name;
    if e in c.aliases {
      var i :| 0 <= i < |c.aliases| && c.aliases[i] == e;
      assert Optional(c.aliases)[i] == Some(e) && values[2 + i] == Some(e);
    }
  }

  lemma NoneHasNoValue(t: TextRules)
    ensures Normalized(t, None) == None
  {
  }

  lemma StandsForValue(t: TextRules, c: MaterialContext, s: string)
    requires Normalized(t, Some(s)).Some?
    ensures StandsFor(t, c, s) <==> Normalized(t, Some(s)).value in Identity(t, c)
  {
    hide Normalized, SameName, Has;
    var values := [c.formula, c.name] + Optional(c.aliases);
    NoneHasNoValue(t);
    if StandsFor(t, c, s) {
      var e :| Has(c, e) && SameName(t, e, s);
      HasMember(c, e);
      SameNameValue(t, e, s);
      assert Some(e) in values;
    }
    if Normalized(t, Some(s)).value in Identity(t, c) {
      var v :| v in values && Normalized(t, v).Some? && Normalized(t, v).value == Normalized(t, Some(s)).value;
      HasMember(c, v.value);
      SameNameValue(t, v.value, s);
      assert Has(c, v.value) && SameName(t, v.value, s);
    }
  }

  // ---------------------------------------------------------------- rows that link names

  /** The same name, or two names that one row gives. */
  ghost predicate NameStep(t: TextRules, rows: seq<Row>, a: string, b: string) {
    || SameName(t, a, b)
    || (Folded(t, a).Some? && Folded(t, b).Some? && exists row :: row in rows && Gives(row, a) && Gives(row, b))
  }

  ghost predicate NameChain(t: TextRules, rows: seq<Row>, path: seq<string>) {
    path != [] && forall i :: 0 <= i < |path| - 1 ==> NameStep(t, rows, path[i], path[i + 1])
  }

  /** A chain of names leads from one to the other, each step within a row or between equal names. */
  ghost predicate NamesLinked(t: TextRules, rows: seq<Row>, a: string, b: string) {
    exists path :: NameChain(t, rows, path) && path[0] == a && path[|path| - 1] == b
  }

  lemma OneNameStep(t: TextRules, rows: seq<Row>, a: string, b: string, c: string)
    requires NamesLinked(t, rows, a, b) && NameStep(t, rows, b, c)
    ensures NamesLinked(t, rows, a, c)
  {
    hide NameStep;
    var path :| NameChain(t, rows, path) && path[0] == a && path[|path| - 1] == b;
    var longer := path + [c];
    forall i | 0 <= i < |longer| - 1 ensures NameStep(t, rows, longer[i], longer[i + 1]) {
      if i < |path| - 1 { assert NameStep(t, rows, path[i], path[i + 1]); }
    }
    assert NameChain(t, rows, longer) && longer[0] == a && longer[|longer| - 1] == c;
  }

  lemma NameItself(t: TextRules, rows: seq<Row>, a: string)
    ensures NamesLinked(t, rows, a, a)
  {
    assert NameChain(t, rows, [a]) && [a][0] == a && [a][|[a]| - 1] == a;
  }

  /** The values of a row are those of the names it gives. */
  lemma RowNames(t: TextRules, row: Row, v: Value)
    ensures (RowContext(t, row).Some? && v in Identity(t, RowContext(t, row).value))
       <==> exists s :: Gives(row, s) && Normalized(t, Some(s)) == Some(v)
  {
    CleanedKeepsIdentity(t, row.formula);
    CleanedKeepsIdentity(t, row.name);
    BlankHasNoValue(t, row.formula);
    BlankHasNoValue(t, row.name);
    NoneHasNoValue(t);
    hide Normalized, Nonblank;
    if RowContext(t, row).Some? {
      var c := RowContext(t, row).value;
      var values := [c.formula, c.name] + Optional(c.aliases);
      assert values[0] == c.formula && values[1] == c.name;
      assert forall w :: w in values <==> w == c.formula || w == c.name;
    }
  }

  lemma BlankHasNoValue(t: TextRules, value: Option<string>)
    ensures Nonblank(t, value).None? <==> Normalized(t, value).None?
  {
  }

  /** Two names given by one row occur together. */
  lemma GivenTogether(t: TextRules, rows: seq<Row>, a: string, b: string)
    requires Normalized(t, Some(a)).Some? && Normalized(t, Some(b)).Some?
    requires exists row :: row in rows && Gives(row, a) && Gives(row, b)
    ensures Together(Family(t, rows), Normalized(t, Some(a)).value, Normalized(t, Some(b)).value)
  {
    hide Normalized, Identity, RowContext, Family;
    var row :| row in rows && Gives(row, a) && Gives(row, b);
    RowNames(t, row, Normalized(t, Some(a)).value);
    RowNames(t, row, Normalized(t, Some(b)).value);
    FamilyMembers(t, rows, Identity(t, RowContext(t, row).value));
  }

  /** Values that occur together are those of two names of one row. */
  lemma TogetherGiven(t: TextRules, rows: seq<Row>, u: Value, v: Value) returns (a: string, b: string)
    requires Together(Family(t, rows), u, v)
    ensures Normalized(t, Some(a)) == Some(u) && Normalized(t, Some(b)) == Some(v)
    ensures exists row :: row in rows && Gives(row, a) && Gives(row, b)
  {
    hide Normalized, Identity, RowContext, Family;
    var family := Family(t, rows);
    var i :| 0 <= i < |family| && u in family[i] && v in family[i];
    FamilyMembers(t, rows, family[i]);
    var row :| row in rows && RowContext(t, row).Some? && Identity(t, RowContext(t, row).value) == family[i];
    RowNames(t, row, u);
    RowNames(t, row, v);
    a :| Gives(row, a) && Normalized(t, Some(a)) == Some(u);
    b :| Gives(row, b) && Normalized(t, Some(b)) == Some(v);
  }

  lemma {:induction false} ValuesOfNames(t: TextRules, rows: seq<Row>, path: seq<string>)
    requires NameChain(t, rows, path) && Normalized(t, Some(path[0])).Some?
    requires Together(Family(t, rows), Normalized(t, Some(path[0])).value, Normalized(t, Some(path[0])).value)
    ensures var last := Normalized(t, Some(path[|path| - 1]));
      last.Some? && Linked(Family(t, rows), Normalized(t, Some(path[0])).value, last.value)
  {
    hide Normalized, Family;
    var first := Normalized(t, Some(path[0])).value;
    if |path| == 1 {
      LinkedDirectly(Family(t, rows), first, first);
    } else {
      var shorter := path[..|path| - 1];
      assert forall i :: 0 <= i < |shorter| ==> shorter[i] == path[i];
      ValuesOfNames(t, rows, shorter);
      assert NameStep(t, rows, path[|path| - 2], path[|path| - 2 + 1]);
      ValueStep(t, rows, first, path[|path| - 2], path[|path| - 1]);
    }
  }

  lemma ValueStep(t: TextRules, rows: seq<Row>, first: Value, a: string, b: string)
    requires NameStep(t, rows, a, b) && Normalized(t, Some(a)).Some?
    requires Linked(Family(t, rows), first, Normalized(t, Some(a)).value)
    ensures Normalized(t, Some(b)).Some? && Linked(Family(t, rows), first, Normalized(t, Some(b)).value)
  {
    SameNameValue(t, a, b);
    SameNameValue(t, b, a);
    hide Normalized, Family, Linked, Folded, SameName;
    if !SameName(t, a, b) {
      GivenTogether(t, rows, a, b);
      var family := Family(t, rows);
      LinkedDirectly(family, Normalized(t, Some(a)).value, Normalized(t, Some(b)).value);
      LinkedTransitive(family, first, Normalized(t, Some(a)).value, Normalized(t, Some(b)).value);
    }
  }

  lemma {:induction false} NamesOfValues(t: TextRules, rows: seq<Row>, a: string, path: seq<Value>, b: string)
    requires IsChain(Family(t, rows), path) && Normalized(t, Some(a)) == Some(path[0])
    requires Normalized(t, Some(b)) == Some(path[|path| - 1])
    ensures NamesLinked(t, rows, a, b)
  {
    hide Normalized, Family, NamesLinked, NameStep, Together;
    if |path| == 1 {
      NameItself(t, rows, a);
      SameStep(t, rows, a, b);
      OneNameStep(t, rows, a, a, b);
    } else {
      var shorter, n := path[..|path| - 1], |path| - 2;
      assert forall i :: 0 <= i < |shorter| ==> shorter[i] == path[i];
      assert Together(Family(t, rows), path[n], path[n + 1]);
      var x, y := TogetherGiven(t, rows, path[n], path[n + 1]);
      NamesOfValues(t, rows, a, shorter, x);
      GivenStep(t, rows, x, y);
      OneNameStep(t, rows, a, x, y);
      SameStep(t, rows, y, b);
      OneNameStep(t, rows, a, y, b);
    }
  }

  lemma SameStep(t: TextRules, rows: seq<Row>, a: string, b: string)
    requires Normalized(t, Some(a)).Some? && Normalized(t, Some(a)) == Normalized(t, Some(b))
    ensures NameStep(t, rows, a, b)
  {
    SameNameValue(t, a, b);
  }

  lemma GivenStep(t: TextRules, rows: seq<Row>, a: string, b: string)
    requires Normalized(t, Some(a)).Some? && Normalized(t, Some(b)).Some?
    requires exists row :: row in rows && Gives(row, a) && Gives(row, b)
    ensures NameStep(t, rows, a, b)
  {
    SameNameValue(t, a, b);
    SameNameValue(t, b, a);
  }

  /** A name that a row gives is linked to another exactly when the values are. */
  lemma LinkedNames(t: TextRules, rows: seq<Row>, a: string, b: string)
    requires Folded(t, a).Some? && Folded(t, b).Some? && exists row :: row in rows && Gives(row, a)
    ensures Normalized(t, Some(a)).Some? && Normalized(t, Some(b)).Some?
    ensures NamesLinked(t, rows, a, b)
       <==> Linked(Family(t, rows), Normalized(t, Some(a)).value, Normalized(t, Some(b)).value)
  {
    SameNameValue(t, a, b);
    SameNameValue(t, b, a);
    hide Normalized, Family, Folded, NameStep, Together;
    if NamesLinked(t, rows, a, b) {
      var path :| NameChain(t, rows, path) && path[0] == a && path[|path| - 1] == b;
      GivenTogether(t, rows, a, a);
      ValuesOfNames(t, rows, path);
    }
    var u, v := Normalized(t, Some(a)).value, Normalized(t, Some(b)).value;
    if Linked(Family(t, rows), u, v) {
      var path :| IsChain(Family(t, rows), path) && path[0] == u && path[|path| - 1] == v;
      NamesOfValues(t, rows, a, path, b);
    }
  }

  // ---------------------------------------------------------------- the contexts of a job

  /** Each name a row gives has its context, if no merge was cut, and that context stands for exactly the names that a
      chain of rows and equal names links to it. */
  lemma OneContextPerMaterial(t: TextRules, rows: seq<Row>, a: string) returns (i: nat)
    requires EveryMergeFits(t, rows) && Folded(t, a).Some? && exists row :: row in rows && Gives(row, a)
    ensures var contexts := JobContexts(t, rows);
      && i < |contexts| && StandsFor(t, contexts[i], a)
      && (forall j :: 0 <= j < |contexts| && StandsFor(t, contexts[j], a) ==> j == i)
      && (forall b :: Folded(t, b).Some? ==> (StandsFor(t, contexts[i], b) <==> NamesLinked(t, rows, a, b)))
  {
    var contexts := JobContexts(t, rows);
    SameNameValue(t, a, a);
    hide Normalized, Family, Folded, JobContexts, EveryMergeFits, Identity, StandsFor, NamesLinked, Linked;
    i := HomeOfName(t, rows, a);
    var u := Normalized(t, Some(a)).value;
    StandsForValue(t, contexts[i], a);
    JobIsDisjoint(t, rows);
    forall j | 0 <= j < |contexts| && StandsFor(t, contexts[j], a) ensures j == i {
      StandsForValue(t, contexts[j], a);
      OnlyOneHome(t, contexts, i, j, u);
    }
    forall b | Folded(t, b).Some? ensures StandsFor(t, contexts[i], b) <==> NamesLinked(t, rows, a, b) {
      LinkedNames(t, rows, a, b);
      StandsForValue(t, contexts[i], b);
      SameMaterialIffLinked(t, rows, contexts[i], u, Normalized(t, Some(b)).value);
    }
  }

  lemma OnlyOneHome(t: TextRules, contexts: seq<MaterialContext>, i: nat, j: nat, u: Value)
    requires Disjoint(t, contexts) && i < |contexts| && j < |contexts|
    requires u in Identity(t, contexts[i]) && u in Identity(t, contexts[j])
    ensures i == j
  {
    hide Identity;
    assert u in Identity(t, contexts[i]) * Identity(t, contexts[j]);
    assert u in Identity(t, contexts[j]) * Identity(t, contexts[i]);
  }

  lemma HomeOfName(t: TextRules, rows: seq<Row>, a: string) returns (i: nat)
    requires EveryMergeFits(t, rows) && Normalized(t, Some(a)).Some? && exists row :: row in rows && Gives(row, a)
    ensures i < |JobContexts(t, rows)| && Normalized(t, Some(a)).value in Identity(t, JobContexts(t, rows)[i])
  {
    hide *;
    var u := Normalized(t, Some(a)).value;
    GivenTogether(t, rows, a, a);
    var g := ComponentOf(t, rows, u);
    JobIsComponents(t, rows);
    i := ContextOf(t, JobContexts(t, rows), g);
  }

  lemma ComponentOf(t: TextRules, rows: seq<Row>, u: Value) returns (g: Group)
    requires Together(Family(t, rows), u, u)
    ensures g in ComponentsOf(Family(t, rows)) && u in g
  {
    hide Family, ComponentsOf, Connected;
    var family := Family(t, rows);
    FamilyNonempty(t, rows);
    ComponentsAreSound(family);
    var n :| 0 <= n < |family| && u in family[n];
    g := HomeOf(family, ComponentsOf(family), u, n);
  }

  lemma ContextOf(t: TextRules, contexts: seq<MaterialContext>, g: Group) returns (i: nat)
    requires g in Identities(t, contexts)
    ensures i < |contexts| && Identity(t, contexts[i]) == g
  {
    hide Identity;
    var c :| c in contexts && Identity(t, c) == g;
    i :| 0 <= i < |contexts| && contexts[i] == c;
  }

  /** Rows with equal folds end in one context. */
  lemma EqualFoldsMeet(t: TextRules, rows: seq<Row>, a: string, b: string) returns (i: nat)
    requires EveryMergeFits(t, rows) && Folded(t, a).Some? && Folded(t, a) == Folded(t, b)
    requires exists row :: row in rows && Gives(row, a)
    ensures var contexts := JobContexts(t, rows);
      && i < |contexts| && StandsFor(t, contexts[i], a) && StandsFor(t, contexts[i], b)
      && forall j :: 0 <= j < |contexts| && (StandsFor(t, contexts[j], a) || StandsFor(t, contexts[j], b)) ==> j == i
  {
    i := OneContextPerMaterial(t, rows, a);
    hide JobContexts, EveryMergeFits, StandsFor, NamesLinked, Folded;
    forall c ensures StandsFor(t, c, a) <==> StandsFor(t, c, b) {
      SameNamesStand(t, c, a, b);
    }
  }

  lemma SameNamesStand(t: TextRules, c: MaterialContext, a: string, b: string)
    requires Folded(t, a).Some? && Folded(t, a) == Folded(t, b)
    ensures StandsFor(t, c, a) <==> StandsFor(t, c, b)
  {
    hide Folded, WithoutSeparators, Has;
  }

  // ---------------------------------------------------------------- where the names of a context come from

  /** The stripped text of this value, not blank. */
  predicate Cleans(t: TextRules, value: Option<string>, s: string) {
    value.Some? && s == Strip(t, value.value) && s != ""
  }

  ghost predicate FromFormula(t: TextRules, rows: seq<Row>, s: string) {
    exists row :: row in rows && Cleans(t, row.formula, s)
  }

  ghost predicate FromName(t: TextRules, rows: seq<Row>, s: string) {
    exists row :: row in rows && Cleans(t, row.name, s)
  }

  /** A formula is the stripped formula of some row, a name the stripped name of some row, an alias one of either. */
  ghost predicate Drawn(t: TextRules, rows: seq<Row>, c: MaterialContext) {
    && (c.formula.Some? ==> FromFormula(t, rows, c.formula.value))
    && (c.name.Some? ==> FromName(t, rows, c.name.value))
    && (forall e :: e in c.aliases ==> FromFormula(t, rows, e) || FromName(t, rows, e))
  }

  lemma DrawnGrows(t: TextRules, rows: seq<Row>, rows': seq<Row>, c: MaterialContext)
    requires Drawn(t, rows, c) && forall row :: row in rows ==> row in rows'
    ensures Drawn(t, rows', c)
  {
    hide Cleans;
    forall s | FromFormula(t, rows, s) ensures FromFormula(t, rows', s) {
      var row :| row in rows && Cleans(t, row.formula, s);
    }
    forall s | FromName(t, rows, s) ensures FromName(t, rows', s) {
      var row :| row in rows && Cleans(t, row.name, s);
    }
  }

  /** What is drawn from rows is stripped already. */
  lemma DrawnIsClean(t: TextRules, rows: seq<Row>, s: string)
    requires FromFormula(t, rows, s) || FromName(t, rows, s)
    ensures Nonblank(t, Some(s)) == Some(s)
  {
    if FromFormula(t, rows, s) {
      var row :| row in rows && Cleans(t, row.formula, s);
      StripTwice(t, row.formula.value);
    } else {
      var row :| row in rows && Cleans(t, row.name, s);
      StripTwice(t, row.name.value);
    }
  }

  lemma {:induction false} CollectedFrom(t: TextRules, canonical: set<Value>, values: seq<Option<string>>, e: string)
    requires e in Collected(t, canonical, values)
    ensures exists v :: v in values && Nonblank(t, v) == Some(e)
  {
    hide Normalized, NormalizedSet, Nonblank;
    var before, last := values[..|values| - 1], values[|values| - 1];
    if e in Collected(t, canonical, before) {
      CollectedFrom(t, canonical, before, e);
      var v :| v in before && Nonblank(t, v) == Some(e);
      assert v in values;
    } else {
      assert Nonblank(t, last) == Some(e) by { BlankHasNoValue(t, last); }
      assert last in values;
    }
  }

  lemma MergeDrawn(t: TextRules, rows: seq<Row>, a: MaterialContext, b: MaterialContext)
    requires Drawn(t, rows, a) && Drawn(t, rows, b)
    ensures Drawn(t, rows, Merge(t, a, b))
  {
    hide FromFormula, FromName, Collected, Canonical, Nonblank;
    var m, values := Merge(t, a, b), MergeInputs(a, b);
    forall e | e in m.aliases ensures FromFormula(t, rows, e) || FromName(t, rows, e) {
      CollectedFrom(t, Canonical(t, a, b), values, e);
      var v :| v in values && Nonblank(t, v) == Some(e);
      NoneIsNoText(t);
      InputOf(a, b, v);
      DrawnIsClean(t, rows, v.value);
    }
  }

  lemma NoneIsNoText(t: TextRules)
    ensures Nonblank(t, None) == None
  {
  }

  lemma InputOf(a: MaterialContext, b: MaterialContext, v: Option<string>)
    requires v in MergeInputs(a, b)
    ensures v.None? || v.value in a.aliases || v.value in b.aliases || v in {a.formula, a.name, b.formula, b.name}
  {
  }

  lemma {:induction false} MergeAllDrawn(
    t: TextRules, rows: seq<Row>, merged: MaterialContext, others: seq<MaterialContext>)
    requires Drawn(t, rows, merged) && forall c :: c in others ==> Drawn(t, rows, c)
    ensures Drawn(t, rows, MergeAll(t, merged, others))
  {
    if others != [] {
      hide Drawn, Merge;
      var before, last := others[..|others| - 1], others[|others| - 1];
      MergeAllDrawn(t, rows, merged, before);
      MergeDrawn(t, rows, MergeAll(t, merged, before), last);
    }
  }

  lemma JoinedDrawn(t: TextRules, rows: seq<Row>, contexts: seq<MaterialContext>, c: MaterialContext)
    requires Drawn(t, rows, c) && forall x :: x in contexts ==> Drawn(t, rows, x)
    ensures Drawn(t, rows, Joined(t, contexts, c))
  {
    hide Drawn, Identity, MergeAll, Meets;
    var key := Identity(t, c);
    var meeting := Meeting(t, contexts, key);
    forall x | x in meeting ensures x in contexts {
      MeetingMembers(t, contexts, key, x);
    }
    if meeting != [] {
      assert meeting[0] in meeting;
      MergeAllDrawn(t, rows, meeting[0], meeting[1..] + [c]);
    }
  }

  lemma RowDrawn(t: TextRules, rows: seq<Row>, row: Row)
    requires row in rows && RowContext(t, row).Some?
    ensures Drawn(t, rows, RowContext(t, row).value)
  {
    var c := RowContext(t, row).value;
    if c.formula.Some? { assert Cleans(t, row.formula, c.formula.value); }
    if c.name.Some? { assert Cleans(t, row.name, c.name.value); }
  }

  /** No context of a job has a formula, a name or an alias that no row gives, and none has them exchanged. */
  lemma {:induction false} ContextsAreDrawn(t: TextRules, rows: seq<Row>)
    ensures forall c :: c in JobContexts(t, rows) ==> Drawn(t, rows, c)
  {
    if rows != [] {
      hide Identity, RowContext, AddCandidate, Drawn, Joined, Meets;
      var before, last := rows[..|rows| - 1], rows[|rows| - 1];
      ContextsAreDrawn(t, before);
      assert forall row :: row in before ==> row in rows;
      forall c | c in JobContexts(t, before) ensures Drawn(t, rows, c) {
        DrawnGrows(t, before, rows, c);
      }
      if RowContext(t, last).Some? {
        var c := RowContext(t, last).value;
        RowDrawn(t, rows, last);
        JoinedDrawn(t, rows, JobContexts(t, before), c);
        forall x | x in JobContexts(t, rows) ensures Drawn(t, rows, x) {
          AddedMembers(t, JobContexts(t, before), c, x);
        }
      }
    }
  }
}
