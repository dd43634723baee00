/** One job whose material is kept in one order of its rows and loses a value in another. */
module MaterialWitness {
  import opened Prelude
  import opened Components
  import opened MaterialContexts
  import opened MaterialPartition
  import opened MaterialOrders

  /** No white space, no case. */
  function Plain(): TextRules {
    TextRules(_ => false, s => s)
  }

  function Letters(n: nat): string {
    if n == 0 then "a" else ['a'] + Letters(n - 1)
  }

  lemma {:induction false} LettersLength(n: nat)
    ensures |Letters(n)| == n + 1 && WithoutSeparators(Plain(), Letters(n)) == Letters(n)
  {
    if n == 0 {
      assert "a"[1..] == "";
    } else {
      LettersLength(n - 1);
      assert Letters(n)[1..] == Letters(n - 1);
    }
  }

  function Linking(i: nat, j: nat): Row {
    Row(Some(Letters(i)), Some(Letters(j)))
  }

  lemma PlainNonblank(n: nat)
    ensures Nonblank(Plain(), Some(Letters(n))) == Some(Letters(n))
    ensures Normalized(Plain(), Some(Letters(n))) == Some(Letters(n))
  {
    LettersLength(n);
    hide Letters, WithoutSeparators;
  }

  lemma TwoFields(t: TextRules, c: MaterialContext, u: Value, v: Value)
    requires c.aliases == [] && Normalized(t, c.formula) == Some(u) && Normalized(t, c.name) == Some(v)
    ensures Identity(t, c) == {u, v}
  {
    hide Normalized;
    var values := [c.formula, c.name];
    assert values + Optional([]) == values && forall w :: w in values <==> w == values[0] || w == values[1];
    assert values[0] in values && values[1] in values;
  }

  lemma LinkingRow(i: nat, j: nat)
    ensures var t, row := Plain(), Linking(i, j);
      && RowContext(t, row) == Some(MaterialContext(row.formula, row.name, []))
      && Normalized(t, row.formula) == Some(Letters(i)) && Normalized(t, row.name) == Some(Letters(j))
      && Identity(t, RowContext(t, row).value) == {Letters(i), Letters(j)}
  {
    PlainNonblank(i);
    PlainNonblank(j);
    hide Nonblank, Normalized, Letters;
    TwoFields(Plain(), MaterialContext(Some(Letters(i)), Some(Letters(j)), []), Letters(i), Letters(j));
  }

  function Link(i: nat): Row {
    Linking(i, i + 1)
  }

  /** n rows, each linking one value to the next. */
  function Chain(n: nat): seq<Row> {
    if n == 0 then [] else Chain(n - 1) + [Link(n - 1)]
  }

  function Names(n: nat): Group {
    if n == 0 then {Letters(0)} else Names(n - 1) + {Letters(n)}
  }

  lemma {:induction false} NamesShort(n: nat, v: Value)
    requires v in Names(n)
    ensures |v| <= n + 1
  {
    LettersLength(n);
    if n > 0 && v in Names(n - 1) { NamesShort(n - 1, v); }
  }

  lemma {:induction false} NamesSize(n: nat)
    ensures |Names(n)| == n + 1
  {
    if n > 0 {
      NamesSize(n - 1);
      LettersLength(n);
      if Letters(n) in Names(n - 1) { NamesShort(n - 1, Letters(n)); }
    }
  }

  lemma {:induction false} ZeroNamed(n: nat)
    ensures Letters(0) in Names(n) && Letters(n) in Names(n)
  {
    if n > 0 { ZeroNamed(n - 1); }
  }

  lemma JoinToOne(g: Group, k: Group, x: Value)
    requires x in g && x in k
    ensures Join({g}, k) == {k + g}
  {
    assert x in g * k;
    assert Kept({g}, k) == {} && Met({g}, k) == g;
  }

  lemma FamilyStep(t: TextRules, rows: seq<Row>, row: Row)
    requires RowContext(t, row).Some?
    ensures Family(t, rows + [row]) == Family(t, rows) + [Identity(t, RowContext(t, row).value)]
    ensures ComponentsOf(Family(t, rows + [row]))
         == Join(ComponentsOf(Family(t, rows)), Identity(t, RowContext(t, row).value))
  {
    hide Identity, RowContext, Join;
    assert (rows + [row])[..|rows|] == rows;
    var family := Family(t, rows + [row]);
    assert family[..|family| - 1] == Family(t, rows);
  }

  lemma ChainUnfolds(n: nat)
    requires n >= 1
    ensures Chain(n) == Chain(n - 1) + [Link(n - 1)] && Names(n) == Names(n - 1) + {Letters(n)}
  {
    hide Letters, Link;
  }

  lemma ChainJoin(n: nat)
    requires n >= 1
    ensures ComponentsOf(Family(Plain(), Chain(n)))
         == Join(ComponentsOf(Family(Plain(), Chain(n - 1))), {Letters(n - 1), Letters(n)})
  {
    LinkIdentity(n - 1);
    ChainUnfolds(n);
    hide *;
    RowJoins(Plain(), Chain(n - 1), Link(n - 1), {Letters(n - 1), Letters(n)}, Chain(n));
  }

  lemma RowJoins(t: TextRules, rows: seq<Row>, row: Row, key: Group, rows': seq<Row>)
    requires RowContext(t, row).Some? && Identity(t, RowContext(t, row).value) == key && rows' == rows + [row]
    ensures ComponentsOf(Family(t, rows')) == Join(ComponentsOf(Family(t, rows)), key)
  {
    hide *;
    FamilyStep(t, rows, row);
  }

  lemma LinkIdentity(i: nat)
    ensures RowContext(Plain(), Link(i)).Some?
    ensures Identity(Plain(), RowContext(Plain(), Link(i)).value) == {Letters(i), Letters(i + 1)}
  {
    LinkIs(i);
    hide *;
    LinkingRow(i, i + 1);
  }

  lemma LinkIs(i: nat)
    ensures Link(i) == Linking(i, i + 1)
  {
  }

  lemma {:induction false} ChainComponent(n: nat)
    requires n >= 1
    ensures ComponentsOf(Family(Plain(), Chain(n))) == {Names(n)}
  {
    hide *;
    ChainJoin(n);
    ChainUnfolds(n);
    if n == 1 {
      FirstLink({Letters(0), Letters(1)});
      FirstNames();
    } else {
      ChainComponent(n - 1);
      ZeroNamed(n - 1);
      JoinToOne(Names(n - 1), {Letters(n - 1), Letters(n)}, Letters(n - 1));
      assert {Letters(n - 1), Letters(n)} + Names(n - 1) == Names(n);
    }
  }

  lemma FirstNames()
    ensures Names(1) == {Letters(0), Letters(1)}
  {
    hide Letters;
    assert Names(1) == Names(0) + {Letters(1)} && Names(0) == {Letters(0)};
  }

  lemma FirstLink(k: Group)
    ensures Join(ComponentsOf(Family(Plain(), Chain(0))), k) == {k}
  {
    NoRows();
    assert Kept({}, k) == {} && Met({}, k) == {} && k + {} == k;
  }

  lemma NoRows()
    ensures ComponentsOf(Family(Plain(), Chain(0))) == {}
  {
    assert Chain(0) == [] && Family(Plain(), []) == [] && ComponentsOf([]) == {};
  }

  lemma {:induction false} ChainLinks(n: nat, r: Row)
    requires r in Chain(n)
    ensures exists i: nat :: i < n && r == Link(i)
  {
    if r in Chain(n - 1) { ChainLinks(n - 1, r); } else { assert r == Link(n - 1); }
  }

  /** In the chain every row gives two different values. */
  lemma ChainRow(n: nat, r: Row, x: Value)
    requires r in Chain(n)
    ensures !(Has(Plain(), r, Formula, x) && Has(Plain(), r, Name, x))
    ensures forall field :: !Alone(Plain(), r, field, x)
  {
    ChainLinks(n, r);
    var i: nat :| i < n && r == Link(i);
    LinkingRow(i, i + 1);
    LettersLength(i);
    LettersLength(i + 1);
    hide RowContext, Normalized, Letters;
  }

  lemma ChainCannotCollide(n: nat, g: Group)
    ensures !CanCollide(Plain(), Chain(n), g)
  {
    hide Has, Alone, Chain;
    forall x ensures !Collides(Plain(), Chain(n), x) {
      forall r | r in Chain(n)
        ensures !(Has(Plain(), r, Formula, x) && Has(Plain(), r, Name, x))
        ensures forall field :: !Alone(Plain(), r, field, x)
      {
        ChainRow(n, r, x);
      }
      NothingAlone(Plain(), Chain(n), x);
    }
  }

  lemma NothingAlone(t: TextRules, rows: seq<Row>, x: Value)
    requires forall r :: r in rows ==> !(Has(t, r, Formula, x) && Has(t, r, Name, x))
    requires forall r, field :: r in rows ==> !Alone(t, r, field, x)
    ensures !Collides(t, rows, x)
  {
    hide Has, Alone;
  }

  /** A chain of n rows, then one that repeats the first value as formula and name. */
  function KeptOrder(n: nat): seq<Row> {
    Chain(n) + [Linking(0, 0)]
  }

  function LostOrder(n: nat): seq<Row> {
    [Linking(0, 0)] + Chain(n)
  }

  lemma KeptComponent(n: nat)
    requires n >= 1
    ensures ComponentsOf(Family(Plain(), KeptOrder(n))) == {Names(n)}
  {
    ChainComponent(n);
    LinkingRow(0, 0);
    FamilyStep(Plain(), Chain(n), Linking(0, 0));
    assert KeptOrder(n) == Chain(n) + [Linking(0, 0)];
    hide *;
    ZeroNamed(n);
    assert {Letters(0), Letters(0)} == {Letters(0)};
    JoinToOne(Names(n), {Letters(0)}, Letters(0));
    assert {Letters(0)} + Names(n) == Names(n);
  }

  lemma ChainIsSafe(n: nat)
    requires n + 1 == CAPACITY
    ensures AllSafe(Plain(), Chain(n)) && Respects(Plain(), Chain(n), Names(n))
  {
    hide Chain, Family, Identity, RowContext, CanCollide, Respects, Letters, Names, ComponentsOf;
    NamesSize(n);
    ChainComponent(n);
    ChainCannotCollide(n, Names(n));
    ComponentRespected(Plain(), Chain(n), Names(n));
  }

  lemma KeptIsExact(n: nat)
    requires n + 1 == CAPACITY
    ensures Exact(Plain(), KeptOrder(n)) && Identities(Plain(), JobContexts(Plain(), KeptOrder(n))) == {Names(n)}
  {
    assert CAPACITY == 34;
    hide *;
    ChainIsSafe(n);
    ChainComponent(n);
    SafeFits(Plain(), Chain(n));
    JobIsComponents(Plain(), Chain(n));
    ChainCannotCollide(n, Names(n));
    RepeatedRow(n);
    NamesSize(n);
    OrdersAre(n);
    RepeatedRowFits(Plain(), Chain(n), Linking(0, 0), Names(n));
    JobIsComponents(Plain(), KeptOrder(n));
    KeptComponent(n);
    ExactMeans(Plain(), KeptOrder(n));
  }

  lemma RepeatedRow(n: nat)
    ensures RowContext(Plain(), Linking(0, 0)).Some?
    ensures Identity(Plain(), RowContext(Plain(), Linking(0, 0)).value) <= Names(n)
  {
    LinkingRow(0, 0);
    ZeroNamed(n);
    hide *;
  }

  lemma OrdersAre(n: nat)
    ensures KeptOrder(n) == Chain(n) + [Linking(0, 0)] && LostOrder(n) == [Linking(0, 0)] + Chain(n)
  {
    hide Chain, Linking;
  }

  lemma ExactMeans(t: TextRules, rows: seq<Row>)
    ensures Exact(t, rows) <==> Identities(t, JobContexts(t, rows)) == ComponentsOf(Family(t, rows))
  {
    hide Identities, JobContexts, ComponentsOf, Family;
  }

  lemma LostIsNot(n: nat)
    requires n + 1 == CAPACITY
    ensures multiset(KeptOrder(n)) == multiset(LostOrder(n))
    ensures Names(n) !in Identities(Plain(), JobContexts(Plain(), LostOrder(n))) && !Exact(Plain(), LostOrder(n))
  {
    assert CAPACITY == 34;
    hide *;
    OrdersAre(n);
    assert multiset(KeptOrder(n)) == multiset(LostOrder(n));
    SameRows(KeptOrder(n), LostOrder(n));
    SameComponents(Plain(), KeptOrder(n), LostOrder(n));
    KeptComponent(n);
    RepeatedLabels();
    StuckJob(Plain(), [Linking(0, 0)], Chain(n), Letters(0));
    ZeroNamed(n);
    NamesSize(n);
    StuckLoses(Plain(), LostOrder(n), Names(n), Letters(0));
  }

  lemma RepeatedLabels()
    ensures Stuck(Plain(), JobContexts(Plain(), [Linking(0, 0)]), Letters(0))
  {
    LinkingRow(0, 0);
    hide RowContext, Normalized, Letters, JobContexts, Stuck;
    BothLabels(Plain(), Linking(0, 0), Letters(0));
  }

  /**
   * A chain of 33 rows names 34 values. With one more row, the same rows give the whole material in one order and
   * lose one of its values in the other.
   */
  lemma OrderMatters(n: nat)
    requires n == MAX_MATERIAL_ALIASES + 1
    ensures multiset(KeptOrder(n)) == multiset(LostOrder(n)) && |Names(n)| == CAPACITY
    ensures Exact(Plain(), KeptOrder(n)) && !Exact(Plain(), LostOrder(n))
    ensures Identities(Plain(), JobContexts(Plain(), KeptOrder(n))) == {Names(n)}
    ensures Names(n) !in Identities(Plain(), JobContexts(Plain(), LostOrder(n)))
  {
    assert CAPACITY == 34 && MAX_MATERIAL_ALIASES == 32;
    hide *;
    NamesSize(n);
    KeptIsExact(n);
    LostIsNot(n);
  }
}
