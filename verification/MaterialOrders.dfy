/**
 * When the materials of a job come out right whatever the order of its rows: exactly when every material needs at
 * most 33 names, or 34 without a value that can become both formula and name of its context.
 */
module MaterialOrders {
  import opened Prelude
  import opened Components
  import opened MaterialContexts
  import opened MaterialPartition

  const CAPACITY := MAX_MATERIAL_ALIASES + 2

  datatype Field = Formula | Name

  function Other(field: Field): Field {
    if field.Formula? then Name else Formula
  }

  function Get(c: MaterialContext, field: Field): Option<string> {
    if field.Formula? then c.formula else c.name
  }

  /** The row gives this field, with normalised value `x`. */
  predicate Has(t: TextRules, row: Row, field: Field, x: Value) {
    RowContext(t, row).Some? && Normalized(t, Get(RowContext(t, row).value, field)) == Some(x)
  }

  /** The row gives only this field. */
  predicate Alone(t: TextRules, row: Row, field: Field, x: Value) {
    Has(t, row, field, x) && Get(RowContext(t, row).value, Other(field)).None?
  }

  /** One row gives `x` as formula and as name; or one row gives only it and another gives it in the other field. */
  ghost predicate Collides(t: TextRules, rows: seq<Row>, x: Value) {
    || (exists r :: r in rows && Has(t, r, Formula, x) && Has(t, r, Name, x))
    || (exists r, s, field :: r in rows && s in rows && Alone(t, r, field, x) && Has(t, s, Other(field), x))
  }

  ghost predicate CanCollide(t: TextRules, rows: seq<Row>, g: Group) {
    exists x :: x in g && Collides(t, rows, x)
  }

  /** The contexts stand for exactly the materials that the rows are about. */
  ghost predicate Exact(t: TextRules, rows: seq<Row>) {
    Identities(t, JobContexts(t, rows)) == ComponentsOf(Family(t, rows))
  }

  ghost predicate ExactInEveryOrder(t: TextRules, rows: seq<Row>) {
    forall rows' :: multiset(rows') == multiset(rows) ==> Exact(t, rows')
  }

  // ---------------------------------------------------------------- labels of a context

  /** Two fields name two values; a missing field means that a row gave the other one alone. */
  ghost predicate Labelled(t: TextRules, rows: seq<Row>, c: MaterialContext) {
    && (forall field :: Get(c, field).Some? ==> Normalized(t, Get(c, field)).Some?)
    && (forall field :: Get(c, field).None? ==>
          exists r, x :: r in rows && Alone(t, r, Other(field), x) && Normalized(t, Get(c, Other(field))) == Some(x))
    && (c.formula.Some? && c.name.Some? ==> Normalized(t, c.formula) != Normalized(t, c.name))
  }

  /** A context that lacks a field moreover stands for at most one value. */
  ghost predicate Balanced(t: TextRules, rows: seq<Row>, c: MaterialContext) {
    Labelled(t, rows, c) && (c.formula.None? || c.name.None? ==> |Identity(t, c)| <= 1)
  }

  lemma FieldInIdentity(t: TextRules, c: MaterialContext, field: Field)
    requires Normalized(t, Get(c, field)).Some?
    ensures Normalized(t, Get(c, field)).value in Identity(t, c)
  {
    hide Normalized;
    assert Get(c, field) in [c.formula, c.name] + Optional(c.aliases);
  }

  lemma MergeField(t: TextRules, a: MaterialContext, b: MaterialContext, field: Field)
    requires Get(a, field).Some? ==> Normalized(t, Get(a, field)).Some?
    ensures Get(Merge(t, a, b), field) == if Get(a, field).Some? then Get(a, field) else Get(b, field)
  {
    hide Collected;
    assert Strip(t, []) == [];
  }

  lemma BalancedGrows(t: TextRules, rows: seq<Row>, rows': seq<Row>, c: MaterialContext)
    requires Balanced(t, rows, c) && forall r :: r in rows ==> r in rows'
    ensures Balanced(t, rows', c)
  {
    hide Identity, Normalized, Alone;
  }

  lemma RowFields(t: TextRules, row: Row)
    requires RowContext(t, row).Some?
    ensures forall field :: Get(RowContext(t, row).value, field).Some? ==>
      Normalized(t, Get(RowContext(t, row).value, field)).Some?
    ensures |Identity(t, RowContext(t, row).value)| <= 2
  {
    var c := RowContext(t, row).value;
    CleanedKeepsIdentity(t, row.formula);
    CleanedKeepsIdentity(t, row.name);
    IdentitySize(t, c);
  }

  /** A row's context that lacks a field stands for the value of the other one. */
  lemma AloneIdentity(t: TextRules, row: Row, field: Field)
    requires RowContext(t, row).Some? && Get(RowContext(t, row).value, field).None?
    ensures var c := RowContext(t, row).value;
      exists x :: Alone(t, row, Other(field), x) && Identity(t, c) == {x}
  {
    var c := RowContext(t, row).value;
    RowFields(t, row);
    var x := Normalized(t, Get(c, Other(field))).value;
    FieldInIdentity(t, c, Other(field));
    hide Normalized;
    assert forall v :: v in [c.formula, c.name] + Optional(c.aliases) ==>
      v == Get(c, field) || v == Get(c, Other(field));
    NoneIsBlank(t);
    assert Identity(t, c) == {x};
    assert Alone(t, row, Other(field), x);
  }

  lemma NoneIsBlank(t: TextRules)
    ensures Normalized(t, None) == None
  {
  }

  lemma FieldOfMissing(t: TextRules, rows: seq<Row>, c: MaterialContext, field: Field)
    requires Labelled(t, rows, c) && Get(c, field).None?
    ensures Get(c, Other(field)).Some?
  {
    NoneIsBlank(t);
    hide Normalized, Alone;
  }

  /** Merging two contexts with nothing in common. */
  lemma PairLabelled(t: TextRules, rows: seq<Row>, a: MaterialContext, b: MaterialContext)
    requires Balanced(t, rows, a) && Balanced(t, rows, b) && Identity(t, a) * Identity(t, b) == {}
    ensures Labelled(t, rows, Merge(t, a, b))
    ensures Merge(t, a, b).formula.None? || Merge(t, a, b).name.None? ==> |Identity(t, a) + Identity(t, b)| <= 2
  {
    hide Merge, Normalized, Identity, Alone;
    MergeField(t, a, b, Formula);
    MergeField(t, a, b, Name);
    var m := Merge(t, a, b);
    forall field | Get(m, field).None?
      ensures exists r, x :: r in rows && Alone(t, r, Other(field), x) && Normalized(t, Get(m, Other(field))) == Some(x)
    {
      FieldOfMissing(t, rows, a, field);
    }
    DisjointLabels(t, a, b);
    UnionAtMost(Identity(t, a), Identity(t, b));
  }

  lemma UnionAtMost(a: Group, b: Group)
    ensures |a + b| <= |a| + |b|
  {
    assert a + b == a + (b - a);
    Smaller(b - a, b);
  }

  lemma DisjointLabels(t: TextRules, a: MaterialContext, b: MaterialContext)
    requires Identity(t, a) * Identity(t, b) == {}
    ensures forall field, field' ::
      Normalized(t, Get(a, field)).Some? && Normalized(t, Get(b, field')).Some? ==>
        Normalized(t, Get(a, field)) != Normalized(t, Get(b, field'))
  {
    hide Normalized, Identity;
    forall field, field' | Normalized(t, Get(a, field)).Some? && Normalized(t, Get(b, field')).Some?
      ensures Normalized(t, Get(a, field)) != Normalized(t, Get(b, field'))
    {
      FieldInIdentity(t, a, field);
      FieldInIdentity(t, b, field');
      assert Normalized(t, Get(a, field)).value !in Identity(t, a) * Identity(t, b);
    }
  }

  /** A context of its own, of a row that does not collide with itself. */
  lemma RowLabelled(t: TextRules, rows: seq<Row>, row: Row)
    requires row in rows && RowContext(t, row).Some?
    requires !CanCollide(t, rows, Identity(t, RowContext(t, row).value))
    ensures Balanced(t, rows, RowContext(t, row).value)
  {
    var c := RowContext(t, row).value;
    RowFields(t, row);
    forall field | Get(c, field).None?
      ensures exists r, x :: r in rows && Alone(t, r, Other(field), x) && Normalized(t, Get(c, Other(field))) == Some(x)
      ensures |Identity(t, c)| <= 1
    {
      AloneIdentity(t, row, field);
    }
    if c.formula.Some? && c.name.Some? {
      FieldInIdentity(t, c, Formula);
      hide Normalized, Identity;
      var x := Normalized(t, c.formula).value;
      assert !Collides(t, rows, x);
      assert !(Has(t, row, Formula, x) && Has(t, row, Name, x));
    }
    assert Get(c, Formula) == c.formula && Get(c, Name) == c.name;
  }

  /** Merging in a row's context: the row cannot repeat the label that is there in the field that is missing. */
  lemma WithRowLabelled(t: TextRules, rows: seq<Row>, a: MaterialContext, row: Row, g: Group)
    requires Labelled(t, rows, a) && row in rows && RowContext(t, row).Some?
    requires Identity(t, a) <= g && !CanCollide(t, rows, g)
    ensures Labelled(t, rows, Merge(t, a, RowContext(t, row).value))
  {
    hide Merge, Identity;
    var c := RowContext(t, row).value;
    var m := Merge(t, a, c);
    RowFields(t, row);
    MergeField(t, a, c, Formula);
    MergeField(t, a, c, Name);
    hide Normalized;
    forall field | Get(m, field).None?
      ensures exists r, x :: r in rows && Alone(t, r, Other(field), x) && Normalized(t, Get(m, Other(field))) == Some(x)
    {
      FieldOfMissing(t, rows, a, field);
    }
    forall field | Get(a, field).None? && Get(c, field).Some?
      ensures Normalized(t, Get(c, field)) != Normalized(t, Get(a, Other(field)))
    {
      var r, x :| r in rows && Alone(t, r, Other(field), x) && Normalized(t, Get(a, Other(field))) == Some(x);
      FieldInIdentity(t, a, Other(field));
      assert Other(Other(field)) == field && !Collides(t, rows, x);
      assert !Has(t, row, field, x);
    }
    assert Get(m, Formula) == m.formula && Get(m, Name) == m.name;
    assert Get(a, Formula) == a.formula && Get(a, Name) == a.name;
    FieldsOfMissing(t, rows, a);
  }

  lemma FieldsOfMissing(t: TextRules, rows: seq<Row>, a: MaterialContext)
    requires Labelled(t, rows, a)
    ensures forall field :: Get(a, field).None? ==> Get(a, Other(field)).Some?
  {
    hide Normalized, Alone, Labelled;
    forall field | Get(a, field).None? ensures Get(a, Other(field)).Some? {
      FieldOfMissing(t, rows, a, field);
    }
  }

  // ---------------------------------------------------------------- one step

  lemma {:induction false} MeetingDisjoint(t: TextRules, contexts: seq<MaterialContext>, key: Group)
    requires Disjoint(t, contexts)
    ensures Disjoint(t, Meeting(t, contexts, key))
    ensures forall x :: x in Meeting(t, contexts, key) ==> x in contexts && Meets(t, x, key)
  {
    if contexts != [] {
      hide Identity, Meets;
      var last := |contexts| - 1;
      var before := contexts[..last];
      MeetingDisjoint(t, before, key);
      var met := Meeting(t, before, key);
      assert forall i :: 0 <= i < last ==> before[i] == contexts[i];
      forall j | 0 <= j < |met| ensures Identity(t, met[j]) * Identity(t, contexts[last]) == {} {
        assert met[j] in before;
        var i :| 0 <= i < last && before[i] == met[j];
        assert contexts[i] == met[j];
      }
    }
  }

  /** A key of two values meets at most two contexts that have nothing in common. */
  lemma AtMostTwoMeet(t: TextRules, contexts: seq<MaterialContext>, key: Group)
    requires Disjoint(t, contexts) && |key| <= 2
    ensures |Meeting(t, contexts, key)| <= 2
  {
    var met := Meeting(t, contexts, key);
    MeetingDisjoint(t, contexts, key);
    if |met| >= 3 {
      hide Identity, Meeting;
      assert met[0] in met && met[1] in met && met[2] in met;
      ThreeMeet(Identity(t, met[0]), Identity(t, met[1]), Identity(t, met[2]), key);
    }
  }

  lemma ThreeMeet(a: Group, b: Group, c: Group, key: Group)
    requires a * b == {} && a * c == {} && b * c == {}
    requires a * key != {} && b * key != {} && c * key != {}
    ensures |key| >= 3
  {
    var u :| u in a * key;
    var v :| v in b * key;
    var w :| w in c * key;
    DifferentMembers(u, v, a, b);
    DifferentMembers(u, w, a, c);
    DifferentMembers(v, w, b, c);
    assert |{u, v, w}| == 3;
    Smaller({u, v, w}, key);
  }

  lemma DifferentMembers(u: Value, v: Value, a: Group, b: Group)
    requires u in a && v in b && a * b == {}
    ensures u != v
  {
    assert u !in a * b;
  }

  /** The room left by two labels, or by a small union. */
  lemma LabelledFits(t: TextRules, a: MaterialContext, b: MaterialContext, all: Group)
    requires Identity(t, a) + Identity(t, b) <= all && |all| <= CAPACITY
    requires forall field :: Get(Merge(t, a, b), field).Some? ==> Normalized(t, Get(Merge(t, a, b), field)).Some?
    requires
      var m := Merge(t, a, b);
      if m.formula.Some? && m.name.Some? then Normalized(t, m.formula) != Normalized(t, m.name)
      else |Identity(t, a) + Identity(t, b)| <= MAX_MATERIAL_ALIASES
    ensures |Extra(t, a, b)| <= MAX_MATERIAL_ALIASES
  {
    var m, union := Merge(t, a, b), Identity(t, a) + Identity(t, b);
    MergeInputsIdentity(t, a, b);
    if m.formula.Some? && m.name.Some? {
      assert Get(m, Formula) == m.formula && Get(m, Name) == m.name;
      var u, v := Normalized(t, m.formula).value, Normalized(t, m.name).value;
      TwoCanonical(t, a, b, u, v);
      hide Identity, Merge, Canonical, Normalized;
      Smaller(Extra(t, a, b), all - {u, v});
    } else {
      hide Identity, Merge, Canonical, Normalized;
      Smaller(Extra(t, a, b), union);
    }
  }

  lemma TwoCanonical(t: TextRules, a: MaterialContext, b: MaterialContext, u: Value, v: Value)
    requires Normalized(t, Or(a.formula, b.formula)) == Some(u) && Normalized(t, Or(a.name, b.name)) == Some(v)
    ensures u in Canonical(t, a, b) && v in Canonical(t, a, b)
  {
    hide Normalized;
    var values := [Or(a.formula, b.formula), Or(a.name, b.name)];
    assert values[0] in values && values[1] in values;
  }

  /** What the contexts so far must satisfy about a material `g`: each is inside or outside, and balanced inside. */
  ghost predicate Settled(t: TextRules, rows: seq<Row>, contexts: seq<MaterialContext>, g: Group) {
    forall x :: x in contexts ==>
      (Identity(t, x) <= g && Balanced(t, rows, x)) || Identity(t, x) * g == {}
  }

  /** The shape of a step that joins one or two contexts inside the material. */
  lemma JoinedShape(t: TextRules, contexts: seq<MaterialContext>, c: MaterialContext)
    ensures var meeting := Meeting(t, contexts, Identity(t, c));
      && (|meeting| == 1 ==> Joined(t, contexts, c) == Merge(t, meeting[0], c))
      && (|meeting| == 2 ==> Joined(t, contexts, c) == Merge(t, Merge(t, meeting[0], meeting[1]), c))
  {
    hide Identity, Meeting, Merge;
    var meeting := Meeting(t, contexts, Identity(t, c));
    if |meeting| == 1 {
      MergeOne(t, meeting[0], c);
      assert meeting[1..] + [c] == [c];
    } else if |meeting| == 2 {
      MergeTwo(t, meeting[0], meeting[1], c);
      assert meeting[1..] + [c] == [meeting[1], c];
    }
  }

  lemma MergeOne(t: TextRules, a: MaterialContext, b: MaterialContext)
    ensures MergeAll(t, a, [b]) == Merge(t, a, b)
  {
    hide Merge;
    assert [b][..0] == [] && MergeAll(t, a, []) == a;
  }

  lemma MergeTwo(t: TextRules, a: MaterialContext, b: MaterialContext, c: MaterialContext)
    ensures MergeAll(t, a, [b, c]) == Merge(t, Merge(t, a, b), c)
  {
    hide Merge;
    MergeOne(t, a, b);
    assert [b, c][..1] == [b];
  }

  lemma FitsShape(t: TextRules, contexts: seq<MaterialContext>, c: MaterialContext)
    ensures var meeting := Meeting(t, contexts, Identity(t, c));
      && (|meeting| == 0 ==> StepFits(t, contexts, c))
      && (|meeting| == 1 && |Extra(t, meeting[0], c)| <= MAX_MATERIAL_ALIASES ==> StepFits(t, contexts, c))
      && (|meeting| == 2 ==>
            |Extra(t, meeting[0], meeting[1])| <= MAX_MATERIAL_ALIASES ==>
            |Extra(t, Merge(t, meeting[0], meeting[1]), c)| <= MAX_MATERIAL_ALIASES ==> StepFits(t, contexts, c))
  {
    hide Identity, Meeting, Merge, Extra;
    var meeting := Meeting(t, contexts, Identity(t, c));
    if |meeting| == 1 {
      FitsOne(t, meeting[0], c);
      assert meeting[1..] + [c] == [c];
    } else if |meeting| == 2 {
      FitsTwo(t, meeting[0], meeting[1], c);
      assert meeting[1..] + [c] == [meeting[1], c];
    }
  }

  lemma FitsOne(t: TextRules, a: MaterialContext, b: MaterialContext)
    ensures |Extra(t, a, b)| <= MAX_MATERIAL_ALIASES ==> MergesFit(t, a, [b])
  {
    hide Merge, Extra;
    assert [b][..0] == [] && MergeAll(t, a, []) == a;
  }

  lemma FitsTwo(t: TextRules, a: MaterialContext, b: MaterialContext, c: MaterialContext)
    ensures |Extra(t, a, b)| <= MAX_MATERIAL_ALIASES && |Extra(t, Merge(t, a, b), c)| <= MAX_MATERIAL_ALIASES ==>
      MergesFit(t, a, [b, c])
  {
    hide Merge, Extra;
    assert [b, c][..1] == [b];
    MergeOne(t, a, b);
    FitsOne(t, a, b);
  }

  lemma SingletonsMeet(a: Group, b: Group)
    requires |a| <= 1 && |b| <= 1 && a * b != {}
    ensures a + b == a && a == b
  {
    var x :| x in a * b;
    OnlyMember(a, x);
    OnlyMember(b, x);
  }

  lemma OnlyMember(a: Group, x: Value)
    requires |a| <= 1 && x in a
    ensures a == {x}
  {
    Smaller({x}, a);
    assert |a - {x}| == 0;
  }

  lemma CollidesLess(t: TextRules, rows: seq<Row>, g: Group, h: Group)
    requires !CanCollide(t, rows, g) && h <= g
    ensures !CanCollide(t, rows, h)
  {
    hide Collides;
  }

  lemma MissingInRow(t: TextRules, row: Row, field: Field)
    requires RowContext(t, row).Some? && Get(RowContext(t, row).value, field).None?
    ensures |Identity(t, RowContext(t, row).value)| <= 1
  {
    hide Identity;
    AloneIdentity(t, row, field);
  }

  lemma MissingInContext(t: TextRules, rows: seq<Row>, c: MaterialContext, field: Field)
    requires Balanced(t, rows, c) && Get(c, field).None?
    ensures |Identity(t, c)| <= 1
  {
  }

  /** Joining a row's context with the one context it meets. */
  lemma OneInside(t: TextRules, rows: seq<Row>, m: MaterialContext, row: Row, g: Group)
    requires row in rows && RowContext(t, row).Some? && !CanCollide(t, rows, g)
    requires Balanced(t, rows, m) && Identity(t, m) <= g
    requires var key := Identity(t, RowContext(t, row).value); key <= g && Meets(t, m, key)
    ensures var c := RowContext(t, row).value;
      && Balanced(t, rows, Merge(t, m, c)) && Identity(t, Merge(t, m, c)) <= g
      && (|g| <= CAPACITY ==> |Extra(t, m, c)| <= MAX_MATERIAL_ALIASES)
  {
    hide Identity, Merge, Alone, Extra, Canonical;
    var c := RowContext(t, row).value;
    WithRowLabelled(t, rows, m, row, g);
    MergeIdentity(t, m, c);
    MissingUnion(t, rows, m, row);
    if |g| <= CAPACITY { LabelledFits(t, m, c, g); }
    SmallUnion(t, m, c);
  }

  lemma SmallUnion(t: TextRules, a: MaterialContext, b: MaterialContext)
    ensures |Identity(t, Merge(t, a, b))| <= |Identity(t, a) + Identity(t, b)|
  {
    MergeIdentity(t, a, b);
    hide Identity, Merge;
    Smaller(Identity(t, Merge(t, a, b)), Identity(t, a) + Identity(t, b));
  }

  /** If a field is still missing, both sides stand for one and the same value. */
  lemma MissingUnion(t: TextRules, rows: seq<Row>, m: MaterialContext, row: Row)
    requires RowContext(t, row).Some? && Balanced(t, rows, m)
    requires Meets(t, m, Identity(t, RowContext(t, row).value))
    ensures var c := RowContext(t, row).value;
      Merge(t, m, c).formula.None? || Merge(t, m, c).name.None? ==>
        |Identity(t, m) + Identity(t, c)| <= 1
  {
    hide Identity, Merge, Alone;
    var c := RowContext(t, row).value;
    var joined := Merge(t, m, c);
    forall field | Get(joined, field).None? ensures |Identity(t, m) + Identity(t, c)| <= 1 {
      MergeField(t, m, c, field);
      MissingInContext(t, rows, m, field);
      MissingInRow(t, row, field);
      SingletonsMeet(Identity(t, m), Identity(t, c));
    }
    assert Get(joined, Formula) == joined.formula && Get(joined, Name) == joined.name;
  }

  /** Joining a row's context with the two contexts it meets. */
  lemma TwoInside(t: TextRules, rows: seq<Row>, a: MaterialContext, b: MaterialContext, row: Row, g: Group)
    requires row in rows && RowContext(t, row).Some? && !CanCollide(t, rows, g)
    requires Balanced(t, rows, a) && Balanced(t, rows, b) && Identity(t, a) + Identity(t, b) <= g
    requires Identity(t, a) * Identity(t, b) == {}
    requires var key := Identity(t, RowContext(t, row).value); key <= g && Meets(t, a, key) && Meets(t, b, key)
    ensures var c, pair := RowContext(t, row).value, Merge(t, a, b);
      && Balanced(t, rows, Merge(t, pair, c)) && Identity(t, Merge(t, pair, c)) <= g
      && (|g| <= CAPACITY ==> |Extra(t, a, b)| <= MAX_MATERIAL_ALIASES && |Extra(t, pair, c)| <= MAX_MATERIAL_ALIASES)
  {
    hide Identity, Merge, Alone, Extra, Canonical;
    var c, pair := RowContext(t, row).value, Merge(t, a, b);
    PairLabelled(t, rows, a, b);
    MergeIdentity(t, a, b);
    WithRowLabelled(t, rows, pair, row, g);
    MergeIdentity(t, pair, c);
    NothingMissing(t, rows, a, b, row);
    if |g| <= CAPACITY {
      LabelledFits(t, a, b, g);
      LabelledFits(t, pair, c, g);
    }
  }

  /** Two different contexts that a row links leave no field missing. */
  lemma NothingMissing(t: TextRules, rows: seq<Row>, a: MaterialContext, b: MaterialContext, row: Row)
    requires RowContext(t, row).Some? && Balanced(t, rows, a) && Balanced(t, rows, b)
    requires Identity(t, a) * Identity(t, b) == {}
    requires var key := Identity(t, RowContext(t, row).value); Meets(t, a, key) && Meets(t, b, key)
    requires Labelled(t, rows, Merge(t, a, b))
    ensures var joined := Merge(t, Merge(t, a, b), RowContext(t, row).value); joined.formula.Some? && joined.name.Some?
  {
    hide Identity, Merge, Alone;
    var c := RowContext(t, row).value;
    var pair := Merge(t, a, b);
    var joined := Merge(t, pair, c);
    forall field ensures Get(joined, field).Some? {
      MergeField(t, a, b, field);
      MergeField(t, pair, c, field);
      if Get(a, field).None? && Get(b, field).None? && Get(c, field).None? {
        MissingInContext(t, rows, a, field);
        MissingInContext(t, rows, b, field);
        MissingInRow(t, row, field);
        SingletonsMeet(Identity(t, a), Identity(t, c));
        SingletonsMeet(Identity(t, b), Identity(t, c));
      }
    }
    assert Get(joined, Formula) == joined.formula && Get(joined, Name) == joined.name;
  }

  /** A step by a row inside the material keeps its contexts labelled, and nothing is cut up to 34 values. */
  lemma InsideStep(t: TextRules, rows: seq<Row>, contexts: seq<MaterialContext>, row: Row, g: Group)
    requires Disjoint(t, contexts) && Settled(t, rows, contexts, g) && !CanCollide(t, rows, g)
    requires row in rows && RowContext(t, row).Some? && Identity(t, RowContext(t, row).value) <= g
    ensures var c := RowContext(t, row).value;
      && Balanced(t, rows, Joined(t, contexts, c)) && Identity(t, Joined(t, contexts, c)) <= g
      && (|g| <= CAPACITY ==> StepFits(t, contexts, c))
  {
    var c := RowContext(t, row).value;
    var key := Identity(t, c);
    var meeting := Meeting(t, contexts, key);
    RowFields(t, row);
    AtMostTwoMeet(t, contexts, key);
    MeetingDisjoint(t, contexts, key);
    JoinedShape(t, contexts, c);
    FitsShape(t, contexts, c);
    hide Identity, Meeting, Merge, Extra, StepFits, RowContext, Alone, Balanced, CanCollide;
    forall i | 0 <= i < |meeting| ensures Balanced(t, rows, meeting[i]) && Identity(t, meeting[i]) <= g {
      MeetsInside(t, meeting[i], key, g);
      assert meeting[i] in meeting;
    }
    if |meeting| == 0 {
      CollidesLess(t, rows, g, key);
      RowLabelled(t, rows, row);
    } else if |meeting| == 1 {
      assert meeting[0] in meeting;
      OneInside(t, rows, meeting[0], row, g);
    } else {
      assert meeting[0] in meeting && meeting[1] in meeting;
      TwoInside(t, rows, meeting[0], meeting[1], row, g);
    }
  }

  lemma MeetsInside(t: TextRules, x: MaterialContext, key: Group, g: Group)
    requires key <= g
    ensures Meets(t, x, key) ==> Identity(t, x) * g != {}
  {
    hide Identity;
    if Meets(t, x, key) {
      var v :| v in Identity(t, x) * key;
      assert v in Identity(t, x) * g;
    }
  }

  /** A step by a row outside the material does not touch it. */
  lemma OutsideStep(t: TextRules, rows: seq<Row>, contexts: seq<MaterialContext>, c: MaterialContext, g: Group)
    requires Settled(t, rows, contexts, g) && Identity(t, c) * g == {}
    ensures Identity(t, Joined(t, contexts, c)) * g == {}
  {
    hide Identity, Joined, Balanced, StepFits;
    var key := Identity(t, c);
    JoinedIdentity(t, contexts, c);
    forall v | v in key + Met(Identities(t, contexts), key) ensures v !in g {
      if v in key {
        assert v !in key * g;
      } else {
        var h :| h in Identities(t, contexts) && h * key != {} && v in h;
        var x :| x in contexts && Identity(t, x) == h;
        MeetsOutside(h, key, g);
        assert v !in h * g;
      }
    }
  }

  lemma MeetsOutside(h: Group, key: Group, g: Group)
    requires h * key != {} && key * g == {}
    ensures !(h <= g)
  {
    var v :| v in h * key;
    assert v !in key * g;
  }

  lemma SettledGrows(t: TextRules, rows: seq<Row>, rows': seq<Row>, contexts: seq<MaterialContext>, g: Group)
    requires Settled(t, rows, contexts, g) && forall r :: r in rows ==> r in rows'
    ensures Settled(t, rows', contexts, g)
  {
    hide Identity, Balanced;
    forall x | x in contexts && Balanced(t, rows, x) ensures Balanced(t, rows', x) {
      BalancedGrows(t, rows, rows', x);
    }
  }

  lemma SettledStep(t: TextRules, rows: seq<Row>, contexts: seq<MaterialContext>, row: Row, g: Group)
    requires Disjoint(t, contexts) && Settled(t, rows, contexts, g) && !CanCollide(t, rows, g)
    requires row in rows && RowContext(t, row).Some?
    requires var key := Identity(t, RowContext(t, row).value); key <= g || key * g == {}
    ensures Settled(t, rows, AddCandidate(t, contexts, RowContext(t, row).value), g)
  {
    var c := RowContext(t, row).value;
    hide Identity, Balanced, CanCollide, Joined, AddCandidate, StepFits, Meets, RowContext;
    if Identity(t, c) <= g { InsideStep(t, rows, contexts, row, g); } else { OutsideStep(t, rows, contexts, c, g); }
    forall x | x in AddCandidate(t, contexts, c)
      ensures (Identity(t, x) <= g && Balanced(t, rows, x)) || Identity(t, x) * g == {}
    {
      AddedMembers(t, contexts, c, x);
    }
  }

  // ---------------------------------------------------------------- every order fits

  /** Every row lies inside the material or outside it. */
  ghost predicate Respects(t: TextRules, rows: seq<Row>, g: Group) {
    forall r :: r in rows && RowContext(t, r).Some? ==>
      Identity(t, RowContext(t, r).value) <= g || Identity(t, RowContext(t, r).value) * g == {}
  }

  lemma CollidesGrows(t: TextRules, rows: seq<Row>, rows': seq<Row>, g: Group)
    requires !CanCollide(t, rows', g) && forall r :: r in rows ==> r in rows'
    ensures !CanCollide(t, rows, g)
  {
    hide Has, Alone;
    forall x | x in g ensures !Collides(t, rows, x) {
      assert !Collides(t, rows', x);
    }
  }

  lemma {:induction false} SettledJob(t: TextRules, rows: seq<Row>, g: Group)
    requires Respects(t, rows, g) && !CanCollide(t, rows, g)
    ensures Settled(t, rows, JobContexts(t, rows), g)
  {
    if rows != [] {
      hide Identity, RowContext, AddCandidate, CanCollide, Balanced, Settled, Disjoint;
      var before, row := rows[..|rows| - 1], rows[|rows| - 1];
      assert rows == before + [row];
      CollidesGrows(t, before, rows, g);
      SettledJob(t, before, g);
      SettledGrows(t, before, rows, JobContexts(t, before), g);
      if RowContext(t, row).Some? {
        JobIsDisjoint(t, before);
        SettledStep(t, rows, JobContexts(t, before), row, g);
      }
    } else {
      hide Balanced;
    }
  }

  /** The condition: at most 33 values, or 34 of which none can become both labels. */
  ghost predicate Safe(t: TextRules, rows: seq<Row>, g: Group) {
    |g| < CAPACITY || (|g| == CAPACITY && !CanCollide(t, rows, g))
  }

  ghost predicate AllSafe(t: TextRules, rows: seq<Row>) {
    forall g :: g in ComponentsOf(Family(t, rows)) ==> Safe(t, rows, g)
  }

  lemma SafeShrinks(t: TextRules, rows: seq<Row>, rows': seq<Row>, g: Group, h: Group)
    requires Safe(t, rows', h) && g <= h && forall r :: r in rows ==> r in rows'
    ensures Safe(t, rows, g)
  {
    hide CanCollide;
    Smaller(g, h);
    if |g| == CAPACITY {
      SameSize(g, h);
      CollidesGrows(t, rows, rows', h);
    }
  }

  lemma SameSize(a: Group, b: Group)
    requires a <= b && |a| == |b|
    ensures a == b
  {
    assert b == a + (b - a) && |b - a| == 0;
  }

  /** Every row of a job lies inside or outside each of its materials. */
  lemma ComponentRespected(t: TextRules, rows: seq<Row>, g: Group)
    requires g in ComponentsOf(Family(t, rows))
    ensures Respects(t, rows, g)
  {
    hide Identity, RowContext;
    var family := Family(t, rows);
    FamilyNonempty(t, rows);
    ComponentsAreSound(family);
    hide ComponentsOf, Family, Connected;
    forall r | r in rows && RowContext(t, r).Some?
      ensures Identity(t, RowContext(t, r).value) <= g || Identity(t, RowContext(t, r).value) * g == {}
    {
      var key := Identity(t, RowContext(t, r).value);
      FamilyMembers(t, rows, key);
      var i :| 0 <= i < |family| && family[i] == key;
      InOneGroup(family, ComponentsOf(family), g, i);
    }
  }

  lemma InOneGroup(family: seq<Group>, groups: Groups, g: Group, i: nat)
    requires Partition(groups) && Covers(family, groups) && g in groups && i < |family|
    ensures family[i] <= g || family[i] * g == {}
  {
    var h :| h in groups && family[i] <= h;
    if family[i] * g != {} {
      var v :| v in family[i] * g;
      assert v in h && v in g;
    }
  }

  /** Under the condition no merge is ever cut. */
  lemma {:induction false} SafeFits(t: TextRules, rows: seq<Row>)
    requires AllSafe(t, rows)
    ensures EveryMergeFits(t, rows)
  {
    if rows != [] {
      hide Identity, RowContext, StepFits, Join, Safe;
      var before, row := rows[..|rows| - 1], rows[|rows| - 1];
      assert rows == before + [row];
      var groups, family := ComponentsOf(Family(t, before)), Family(t, rows);
      if RowContext(t, row).Some? {
        var key := Identity(t, RowContext(t, row).value);
        assert family[..|family| - 1] == Family(t, before);
        assert ComponentsOf(family) == Join(groups, key);
        forall g | g in groups ensures Safe(t, before, g) {
          var h := JoinGrows(groups, key, g);
          SafeShrinks(t, before, rows, g, h);
        }
        SafeFits(t, before);
        JobIsComponents(t, before);
        JoinAdds(groups, key);
        SafeStepFits(t, rows, before, row, key + Met(groups, key));
      } else {
        forall g | g in groups ensures Safe(t, before, g) {
          SafeShrinks(t, before, rows, g, g);
        }
        SafeFits(t, before);
      }
    }
  }

  lemma SafeStepFits(t: TextRules, rows: seq<Row>, before: seq<Row>, row: Row, g: Group)
    requires rows == before + [row] && RowContext(t, row).Some? && Safe(t, rows, g)
    requires g in ComponentsOf(Family(t, rows))
    requires g == Identity(t, RowContext(t, row).value)
                  + Met(Identities(t, JobContexts(t, before)), Identity(t, RowContext(t, row).value))
    ensures StepFits(t, JobContexts(t, before), RowContext(t, row).value)
  {
    hide Identity, RowContext, StepFits, JobContexts, ComponentsOf, Family, CanCollide, Settled, Respects, Met;
    if |g| < CAPACITY {
      SmallStepFits(t, before, RowContext(t, row).value);
    } else {
      ComponentRespected(t, rows, g);
      RespectsLess(t, before, rows, g);
      CollidesGrows(t, before, rows, g);
      SettledJob(t, before, g);
      SettledGrows(t, before, rows, JobContexts(t, before), g);
      JobIsDisjoint(t, before);
      InsideStep(t, rows, JobContexts(t, before), row, g);
    }
  }

  lemma RespectsLess(t: TextRules, rows: seq<Row>, rows': seq<Row>, g: Group)
    requires Respects(t, rows', g) && forall r :: r in rows ==> r in rows'
    ensures Respects(t, rows, g)
  {
    hide Identity, RowContext;
  }

  // ---------------------------------------------------------------- an order that loses a value

  /** The first context has one value for both labels. */
  ghost predicate Stuck(t: TextRules, contexts: seq<MaterialContext>, x: Value) {
    contexts != [] && forall field :: Normalized(t, Get(contexts[0], field)) == Some(x)
  }

  lemma NormalizedIsSome(t: TextRules, c: MaterialContext, field: Field)
    ensures Normalized(t, Get(c, field)).Some? ==> Get(c, field).Some?
  {
    NoneIsBlank(t);
  }

  lemma {:induction false} MergeAllKeepsLabels(
    t: TextRules, merged: MaterialContext, others: seq<MaterialContext>, x: Value)
    requires Stuck(t, [merged], x)
    ensures Stuck(t, [MergeAll(t, merged, others)], x)
  {
    if others != [] {
      hide Merge, Normalized;
      var before, last := others[..|others| - 1], others[|others| - 1];
      MergeAllKeepsLabels(t, merged, before, x);
      var sofar := MergeAll(t, merged, before);
      assert [sofar][0] == sofar;
      forall field ensures Normalized(t, Get(Merge(t, sofar, last), field)) == Some(x) {
        NormalizedIsSome(t, sofar, field);
        MergeField(t, sofar, last, field);
      }
    }
  }

  lemma {:induction false} FirstOfMeeting(t: TextRules, contexts: seq<MaterialContext>, key: Group)
    requires contexts != [] && Meets(t, contexts[0], key)
    ensures Meeting(t, contexts, key) != [] && Meeting(t, contexts, key)[0] == contexts[0]
  {
    hide Meets;
    var before := contexts[..|contexts| - 1];
    if before == [] {
      assert contexts == [contexts[0]] && Meeting(t, before, key) == [];
    } else {
      FirstOfMeeting(t, before, key);
    }
  }

  /** Such labels stay: the first context only ever absorbs others. */
  lemma StuckStep(t: TextRules, contexts: seq<MaterialContext>, c: MaterialContext, x: Value)
    requires Stuck(t, contexts, x)
    ensures Stuck(t, AddCandidate(t, contexts, c), x)
  {
    var key := Identity(t, c);
    var first := FirstMeeting(t, contexts, key);
    hide Identity, Meeting, Apart, MergeAll, Normalized;
    if first == 0 {
      FirstOfMeeting(t, contexts, key);
      var meeting := Meeting(t, contexts, key);
      assert [contexts[0]][0] == contexts[0];
      MergeAllKeepsLabels(t, contexts[0], meeting[1..] + [c], x);
    }
  }

  lemma JobStep(t: TextRules, rows: seq<Row>, row: Row)
    ensures JobContexts(t, rows + [row]) ==
      match RowContext(t, row)
      case None => JobContexts(t, rows)
      case Some(c) => AddCandidate(t, JobContexts(t, rows), c)
  {
    hide AddCandidate, RowContext;
    assert (rows + [row])[..|rows|] == rows;
  }

  lemma {:induction false} StuckJob(t: TextRules, rows: seq<Row>, more: seq<Row>, x: Value)
    requires Stuck(t, JobContexts(t, rows), x)
    ensures Stuck(t, JobContexts(t, rows + more), x)
    decreases |more|
  {
    hide *;
    if more == [] {
      assert rows + more == rows;
    } else {
      var before, row := more[..|more| - 1], more[|more| - 1];
      StuckJob(t, rows, before, x);
      assert rows + more == rows + before + [row];
      JobStep(t, rows + before, row);
      if RowContext(t, row).Some? { StuckStep(t, JobContexts(t, rows + before), RowContext(t, row).value, x); }
    }
  }

  /** A context with one value for both labels stands for at most 33. */
  lemma StuckSize(t: TextRules, c: MaterialContext, x: Value)
    requires Stuck(t, [c], x)
    ensures x in Identity(t, c) && |Identity(t, c)| <= |c.aliases| + 1
  {
    assert [c][0] == c;
    FieldInIdentity(t, c, Formula);
    assert Get(c, Formula) == c.formula && Get(c, Name) == c.name;
    NormalizedConcat(t, [c.formula, c.name], Optional(c.aliases));
    NormalizedSize(t, Optional(c.aliases));
    var labels := NormalizedSet(t, [c.formula, c.name]);
    assert labels <= {x};
    UnionAtMost(labels, NormalizedSet(t, Optional(c.aliases)));
    Smaller(labels, {x});
  }

  lemma OneRowJob(t: TextRules, row: Row)
    requires RowContext(t, row).Some?
    ensures JobContexts(t, [row]) == [RowContext(t, row).value]
  {
    hide Identity, RowContext;
    assert [row][..0] == [] && JobContexts(t, []) == [];
  }

  lemma AddToOne(t: TextRules, a: MaterialContext, b: MaterialContext)
    requires Meets(t, a, Identity(t, b))
    ensures AddCandidate(t, [a], b) == [Merge(t, a, b)]
  {
    hide Identity, Merge, Meets;
    MeetingOfOne(t, a, Identity(t, b));
    MergeOne(t, a, b);
  }

  lemma StuckMerge(t: TextRules, a: MaterialContext, b: MaterialContext, field: Field, x: Value)
    requires Normalized(t, Get(a, field)) == Some(x) && Get(a, Other(field)).None?
    requires Normalized(t, Get(b, Other(field))) == Some(x)
    ensures Stuck(t, [Merge(t, a, b)], x)
  {
    hide Merge, Normalized;
    var m := Merge(t, a, b);
    NormalizedIsSome(t, a, field);
    MergeField(t, a, b, field);
    MergeField(t, a, b, Other(field));
    assert [m][0] == m;
    forall f ensures Normalized(t, Get(m, f)) == Some(x) {
      assert f == field || f == Other(field);
    }
  }

  /** A row alone with a value, then one with it in the other field. */
  lemma TwoRowJob(t: TextRules, r: Row, s: Row, field: Field, x: Value)
    requires Alone(t, r, field, x) && Has(t, s, Other(field), x)
    ensures Stuck(t, JobContexts(t, [r, s]), x)
  {
    hide RowContext, Normalized, Identity, JobContexts, AddCandidate, Merge, Stuck;
    var a, b := RowContext(t, r).value, RowContext(t, s).value;
    FieldInIdentity(t, a, field);
    FieldInIdentity(t, b, Other(field));
    OneRowJob(t, r);
    JobStep(t, [r], s);
    assert [r, s] == [r] + [s];
    assert x in Identity(t, a) * Identity(t, b);
    AddToOne(t, a, b);
    StuckMerge(t, a, b, field, x);
  }

  lemma MeetingOfOne(t: TextRules, a: MaterialContext, key: Group)
    requires Meets(t, a, key)
    ensures Meeting(t, [a], key) == [a]
  {
    hide Meets;
    assert [a][..0] == [] && Meeting(t, [], key) == [];
  }

  /** The rows that collide, moved to the front. */
  lemma CollidingFirst(t: TextRules, rows: seq<Row>, x: Value) returns (rows': seq<Row>)
    requires Collides(t, rows, x)
    ensures multiset(rows') == multiset(rows) && Stuck(t, JobContexts(t, rows'), x)
  {
    hide Alone, Has, Stuck, JobContexts;
    if r :| r in rows && Has(t, r, Formula, x) && Has(t, r, Name, x) {
      rows' := OneFirst(t, rows, r, x);
    } else {
      var r, s, field :| r in rows && s in rows && Alone(t, r, field, x) && Has(t, s, Other(field), x);
      rows' := TwoFirst(t, rows, r, s, field, x);
    }
  }

  lemma OneFirst(t: TextRules, rows: seq<Row>, r: Row, x: Value) returns (rows': seq<Row>)
    requires r in rows && Has(t, r, Formula, x) && Has(t, r, Name, x)
    ensures multiset(rows') == multiset(rows) && Stuck(t, JobContexts(t, rows'), x)
  {
    hide *;
    var rest := MoveToFront(rows, r);
    rows' := [r] + rest;
    BothLabels(t, r, x);
    StuckJob(t, [r], rest, x);
  }

  lemma TwoFirst(t: TextRules, rows: seq<Row>, r: Row, s: Row, field: Field, x: Value) returns (rows': seq<Row>)
    requires r in rows && s in rows && Alone(t, r, field, x) && Has(t, s, Other(field), x)
    ensures multiset(rows') == multiset(rows) && Stuck(t, JobContexts(t, rows'), x)
  {
    hide *;
    DifferentRows(t, r, s, field, x);
    rows' := BothToFront(rows, r, s);
    TwoRowJob(t, r, s, field, x);
    StuckJob(t, [r, s], rows'[2..], x);
  }

  lemma BothToFront(rows: seq<Row>, r: Row, s: Row) returns (rows': seq<Row>)
    requires r in rows && s in rows && r != s
    ensures multiset(rows') == multiset(rows) && |rows'| >= 2 && rows' == [r, s] + rows'[2..]
  {
    var rest := MoveToFront(rows, r);
    assert s in multiset(rest);
    var last := MoveToFront(rest, s);
    rows' := [r, s] + last;
    assert rows' == [r] + ([s] + last) && rows'[2..] == last;
  }

  lemma BothLabels(t: TextRules, r: Row, x: Value)
    requires Has(t, r, Formula, x) && Has(t, r, Name, x)
    ensures Stuck(t, JobContexts(t, [r]), x)
  {
    OneRowJob(t, r);
    hide RowContext, Normalized;
    forall field ensures Normalized(t, Get(RowContext(t, r).value, field)) == Some(x) {
      assert field == Formula || field == Name;
    }
  }

  lemma DifferentRows(t: TextRules, r: Row, s: Row, field: Field, x: Value)
    requires Alone(t, r, field, x) && Has(t, s, Other(field), x)
    ensures r != s
  {
    NoneIsBlank(t);
    hide Normalized, RowContext;
  }

  lemma MoveToFront(rows: seq<Row>, r: Row) returns (rest: seq<Row>)
    requires r in rows
    ensures multiset([r] + rest) == multiset(rows) && multiset(rest) == multiset(rows) - multiset{r}
  {
    var j :| 0 <= j < |rows| && rows[j] == r;
    rest := rows[..j] + rows[j + 1..];
    RemoveAt(rows, j);
  }

  // ---------------------------------------------------------------- the exact condition

  lemma SameRows(rows: seq<Row>, rows': seq<Row>)
    requires multiset(rows') == multiset(rows)
    ensures forall r :: r in rows' <==> r in rows
  {
    forall r ensures r in rows' <==> r in rows {
      assert r in rows' <==> r in multiset(rows');
      assert r in rows <==> r in multiset(rows);
    }
  }

  lemma SameComponents(t: TextRules, rows: seq<Row>, rows': seq<Row>)
    requires forall r :: r in rows' <==> r in rows
    ensures ComponentsOf(Family(t, rows')) == ComponentsOf(Family(t, rows))
  {
    hide Identity, RowContext;
    forall key ensures key in Family(t, rows') <==> key in Family(t, rows) {
      FamilyMembers(t, rows, key);
      FamilyMembers(t, rows', key);
    }
    FamilyNonempty(t, rows);
    FamilyNonempty(t, rows');
    ComponentsIgnoreOrder(Family(t, rows'), Family(t, rows));
  }

  lemma SafeOrder(t: TextRules, rows: seq<Row>, rows': seq<Row>)
    requires AllSafe(t, rows) && multiset(rows') == multiset(rows)
    ensures Exact(t, rows')
  {
    hide ComponentsOf, Family, CanCollide, JobContexts, EveryMergeFits;
    SameRows(rows, rows');
    SameComponents(t, rows, rows');
    forall g | g in ComponentsOf(Family(t, rows')) ensures Safe(t, rows', g) {
      SafeShrinks(t, rows', rows, g, g);
    }
    SafeFits(t, rows');
    JobIsComponents(t, rows');
  }

  /** An unsafe material has an order of the rows in which it is not represented. */
  lemma UnsafeOrder(t: TextRules, rows: seq<Row>, g: Group) returns (rows': seq<Row>)
    requires g in ComponentsOf(Family(t, rows)) && !Safe(t, rows, g)
    ensures multiset(rows') == multiset(rows) && g !in Identities(t, JobContexts(t, rows')) && !Exact(t, rows')
  {
    hide Identity, ComponentsOf, Family, JobContexts, Collides;
    if |g| > CAPACITY {
      rows' := rows;
      LargeMaterialLost(t, rows, g);
    } else {
      var x :| x in g && Collides(t, rows, x);
      rows' := CollidingFirst(t, rows, x);
      SameRows(rows, rows');
      SameComponents(t, rows, rows');
      StuckLoses(t, rows', g, x);
    }
  }

  lemma StuckLoses(t: TextRules, rows: seq<Row>, g: Group, x: Value)
    requires g in ComponentsOf(Family(t, rows)) && x in g && |g| >= CAPACITY && Stuck(t, JobContexts(t, rows), x)
    ensures g !in Identities(t, JobContexts(t, rows)) && !Exact(t, rows)
  {
    hide Identity, ComponentsOf, Family, JobContexts, Exact;
    var c := JobContexts(t, rows)[0];
    assert Stuck(t, [c], x);
    JobNamed(t, rows, c);
    StuckSize(t, c, x);
    FirstIsNotWhole(t, rows, g, x);
  }

  lemma FirstIsNotWhole(t: TextRules, rows: seq<Row>, g: Group, x: Value)
    requires g in ComponentsOf(Family(t, rows)) && x in g && JobContexts(t, rows) != []
    requires x in Identity(t, JobContexts(t, rows)[0]) && |Identity(t, JobContexts(t, rows)[0])| < |g|
    ensures g !in Identities(t, JobContexts(t, rows)) && !Exact(t, rows)
  {
    hide Identity, ComponentsOf, Family, JobContexts;
    var contexts := JobContexts(t, rows);
    JobIsDisjoint(t, rows);
    if g in Identities(t, contexts) {
      OnlyHome(t, contexts, 0, x, g);
    }
  }

  /**
   * Every order of the rows gives exactly the materials the rows are about, if and only if each material has at most
   * 33 values, or 34 of which none can become both the formula and the name of its context.
   */
  lemma ExactConditionForAllOrders(t: TextRules, rows: seq<Row>)
    ensures ExactInEveryOrder(t, rows) <==> AllSafe(t, rows)
  {
    hide Exact, Safe, ComponentsOf, Family;
    if AllSafe(t, rows) {
      forall rows' | multiset(rows') == multiset(rows) ensures Exact(t, rows') {
        SafeOrder(t, rows, rows');
      }
    } else {
      var g :| g in ComponentsOf(Family(t, rows)) && !Safe(t, rows, g);
      var rows' := UnsafeOrder(t, rows, g);
    }
  }

  // ---------------------------------------------------------------- two orders of one job

  /** A row that only repeats values of a safe material changes nothing, even if it could have spoiled the labels. */
  lemma RepeatedRowFits(t: TextRules, rows: seq<Row>, row: Row, g: Group)
    requires AllSafe(t, rows) && Respects(t, rows, g) && !CanCollide(t, rows, g) && |g| <= CAPACITY
    requires RowContext(t, row).Some? && Identity(t, RowContext(t, row).value) <= g
    requires Identities(t, JobContexts(t, rows)) == {g}
    ensures EveryMergeFits(t, rows + [row])
  {
    hide Identity, RowContext, StepFits, JobContexts, CanCollide, Respects, Safe, Settled, Meeting;
    var contexts, c := JobContexts(t, rows), RowContext(t, row).value;
    SafeFits(t, rows);
    assert (rows + [row])[..|rows|] == rows;
    SettledJob(t, rows, g);
    JobIsDisjoint(t, rows);
    RowFields(t, row);
    FitsShape(t, contexts, c);
    MeetingDisjoint(t, contexts, Identity(t, c));
    OneContext(t, rows, contexts, g, c);
  }

  lemma OneContext(t: TextRules, rows: seq<Row>, contexts: seq<MaterialContext>, g: Group, c: MaterialContext)
    requires Identities(t, contexts) == {g} && Disjoint(t, contexts) && Settled(t, rows, contexts, g)
    requires Identity(t, c) <= g && |g| <= CAPACITY
    requires forall field :: Get(c, field).Some? ==> Normalized(t, Get(c, field)).Some?
    ensures StepFits(t, contexts, c)
  {
    var key := Identity(t, c);
    var meeting := Meeting(t, contexts, key);
    MeetingDisjoint(t, contexts, key);
    FitsShape(t, contexts, c);
    MeetingIsWhole(t, contexts, key, g);
    hide Identity, Identities, Meeting, StepFits, Merge, Extra, Alone, Normalized;
    if |meeting| >= 2 {
      assert meeting[0] in meeting && meeting[1] in meeting;
      SharedIsEmpty(t, meeting, g);
    } else if |meeting| == 1 {
      var m := meeting[0];
      assert m in meeting && m in contexts;
      MergeField(t, m, c, Formula);
      MergeField(t, m, c, Name);
      FullContextFits(t, rows, m, c, g);
    }
  }

  lemma MeetingIsWhole(t: TextRules, contexts: seq<MaterialContext>, key: Group, g: Group)
    requires Identities(t, contexts) == {g}
    ensures var meeting := Meeting(t, contexts, key);
      forall x :: x in meeting ==> x in contexts && Identity(t, x) == g && g != {}
  {
    hide Identity, Meeting, Meets;
    forall x | x in Meeting(t, contexts, key) ensures x in contexts && Identity(t, x) == g && g != {} {
      MeetingMembers(t, contexts, key, x);
      assert Identity(t, x) in Identities(t, contexts);
      MeetsNonempty(t, x, key);
    }
  }

  lemma MeetsNonempty(t: TextRules, c: MaterialContext, key: Group)
    requires Meets(t, c, key)
    ensures Identity(t, c) != {}
  {
    hide Identity;
  }

  lemma SharedIsEmpty(t: TextRules, contexts: seq<MaterialContext>, g: Group)
    requires |contexts| >= 2 && Disjoint(t, contexts)
    requires Identity(t, contexts[0]) == g && Identity(t, contexts[1]) == g
    ensures g == {}
  {
    hide Identity;
    assert Identity(t, contexts[0]) * Identity(t, contexts[1]) == g * g == g;
  }

  lemma FullContextFits(t: TextRules, rows: seq<Row>, m: MaterialContext, c: MaterialContext, g: Group)
    requires Balanced(t, rows, m) && Identity(t, m) == g && Identity(t, c) <= g && |g| <= CAPACITY
    requires forall field :: Get(c, field).Some? ==> Normalized(t, Get(c, field)).Some?
    ensures |Extra(t, m, c)| <= MAX_MATERIAL_ALIASES
  {
    hide Identity, Merge, Alone, Normalized, Extra;
    MergeField(t, m, c, Formula);
    MergeField(t, m, c, Name);
    assert g + Identity(t, c) == g;
    assert Get(m, Formula) == m.formula && Get(m, Name) == m.name;
    if |g| > 1 {
      LabelledFits(t, m, c, g);
    } else {
      MergeInputsIdentity(t, m, c);
      SmallExtra(t, m, c, g);
    }
  }

  lemma SmallExtra(t: TextRules, a: MaterialContext, b: MaterialContext, all: Group)
    requires Identity(t, a) + Identity(t, b) <= all && |all| <= MAX_MATERIAL_ALIASES
    ensures |Extra(t, a, b)| <= MAX_MATERIAL_ALIASES
  {
    hide Identity, Canonical;
    Smaller(Extra(t, a, b), all);
  }
}
