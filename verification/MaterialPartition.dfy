/** What merging a job's rows achieves: the connected components of their material identities. */
module MaterialPartition {
  import opened Prelude
  import opened Components
  import opened MaterialContexts

  /** The identity sets of the rows that name a material. */
  function Family(t: TextRules, rows: seq<Row>): seq<Group> {
    if rows == [] then []
    else
      var before := Family(t, rows[..|rows| - 1]);
      match RowContext(t, rows[|rows| - 1])
      case None => before
      case Some(c) => before + [Identity(t, c)]
  }

  function Identities(t: TextRules, contexts: seq<MaterialContext>): Groups {
    set c | c in contexts :: Identity(t, c)
  }

  function AllValues(t: TextRules, contexts: seq<MaterialContext>): Group {
    set c, v | c in contexts && v in Identity(t, c) :: v
  }

  ghost predicate Disjoint(t: TextRules, contexts: seq<MaterialContext>) {
    forall i, j :: 0 <= i < j < |contexts| ==> Identity(t, contexts[i]) * Identity(t, contexts[j]) == {}
  }

  // ---------------------------------------------------------------- when the alias limit is not reached

  ghost predicate MergesFit(t: TextRules, merged: MaterialContext, others: seq<MaterialContext>) {
    others == []
    || (var before, last := others[..|others| - 1], others[|others| - 1];
        MergesFit(t, merged, before) && |Extra(t, MergeAll(t, merged, before), last)| <= MAX_MATERIAL_ALIASES)
  }

  ghost predicate StepFits(t: TextRules, contexts: seq<MaterialContext>, c: MaterialContext) {
    var meeting := Meeting(t, contexts, Identity(t, c));
    meeting != [] ==> MergesFit(t, meeting[0], meeting[1..] + [c])
  }

  /** No merge made while processing the rows exceeds the alias limit. */
  ghost predicate EveryMergeFits(t: TextRules, rows: seq<Row>) {
    rows == []
    || (var before, row := rows[..|rows| - 1], RowContext(t, rows[|rows| - 1]);
        EveryMergeFits(t, before) && (row.Some? ==> StepFits(t, JobContexts(t, before), row.value)))
  }

  lemma AllValuesAppend(t: TextRules, contexts: seq<MaterialContext>, c: MaterialContext)
    ensures AllValues(t, contexts + [c]) == AllValues(t, contexts) + Identity(t, c)
  {
    hide Identity;
    assert forall x :: x in contexts + [c] <==> x in contexts || x == c;
  }

  lemma {:induction false} MergeAllIdentity(t: TextRules, merged: MaterialContext, others: seq<MaterialContext>)
    ensures Identity(t, MergeAll(t, merged, others)) <= Identity(t, merged) + AllValues(t, others)
    ensures MergesFit(t, merged, others) ==>
      Identity(t, MergeAll(t, merged, others)) == Identity(t, merged) + AllValues(t, others)
  {
    if others != [] {
      hide Identity, Extra, Merge;
      var before, last := others[..|others| - 1], others[|others| - 1];
      assert others == before + [last];
      MergeAllIdentity(t, merged, before);
      MergeIdentity(t, MergeAll(t, merged, before), last);
      AllValuesAppend(t, before, last);
    }
  }

  // ---------------------------------------------------------------- what a step does to the list

  lemma {:induction false} MeetingMembers(t: TextRules, contexts: seq<MaterialContext>, key: Group, c: MaterialContext)
    ensures c in Meeting(t, contexts, key) <==> c in contexts && Meets(t, c, key)
    ensures c in Apart(t, contexts, key) <==> c in contexts && !Meets(t, c, key)
  {
    if contexts != [] {
      hide Meets;
      var before := contexts[..|contexts| - 1];
      MeetingMembers(t, before, key, c);
      assert contexts == before + [contexts[|contexts| - 1]];
    }
  }

  /** The context that results from joining `c` with everything it meets. */
  function Joined(t: TextRules, contexts: seq<MaterialContext>, c: MaterialContext): MaterialContext {
    var meeting := Meeting(t, contexts, Identity(t, c));
    if meeting == [] then c else MergeAll(t, meeting[0], meeting[1..] + [c])
  }

  lemma MeetingEmpty(t: TextRules, contexts: seq<MaterialContext>, key: Group)
    ensures Meeting(t, contexts, key) == [] <==> FirstMeeting(t, contexts, key) == |contexts|
    ensures Meeting(t, contexts, key) == [] ==> forall x :: x in contexts ==> !Meets(t, x, key)
  {
    hide Meets, Meeting;
    var meeting, first := Meeting(t, contexts, key), FirstMeeting(t, contexts, key);
    if first < |contexts| { MeetingMembers(t, contexts, key, contexts[first]); }
    if meeting != [] { MeetingMembers(t, contexts, key, meeting[0]); }
    forall x | x in contexts ensures meeting == [] ==> !Meets(t, x, key) {
      MeetingMembers(t, contexts, key, x);
    }
  }

  /** After a step the list holds the joined context and the contexts that did not meet it, nothing else. */
  lemma AddedMembers(t: TextRules, contexts: seq<MaterialContext>, c: MaterialContext, x: MaterialContext)
    ensures x in AddCandidate(t, contexts, c)
       <==> x == Joined(t, contexts, c) || (x in contexts && !Meets(t, x, Identity(t, c)))
  {
    hide Identity, Meets, Meeting, MergeAll, Apart;
    var key := Identity(t, c);
    var first := FirstMeeting(t, contexts, key);
    MeetingEmpty(t, contexts, key);
    if first < |contexts| {
      var rest := contexts[first + 1..];
      MeetingMembers(t, rest, key, x);
      assert contexts == contexts[..first] + [contexts[first]] + rest;
      assert x in contexts[..first] ==> exists i :: 0 <= i < first && contexts[i] == x;
    }
  }

  /** What the joined context stands for. */
  lemma JoinedIdentity(t: TextRules, contexts: seq<MaterialContext>, c: MaterialContext)
    ensures Identity(t, Joined(t, contexts, c)) <= Identity(t, c) + Met(Identities(t, contexts), Identity(t, c))
    ensures StepFits(t, contexts, c) ==>
      Identity(t, Joined(t, contexts, c)) == Identity(t, c) + Met(Identities(t, contexts), Identity(t, c))
  {
    var key := Identity(t, c);
    var meeting := Meeting(t, contexts, key);
    MetValues(t, contexts, key);
    if meeting != [] {
      MergeAllIdentity(t, meeting[0], meeting[1..] + [c]);
      AllValuesAppend(t, meeting[1..], c);
      assert Identity(t, meeting[0]) + AllValues(t, meeting[1..]) == AllValues(t, meeting) by {
        hide Identity;
        assert forall x :: x in meeting <==> x == meeting[0] || x in meeting[1..];
      }
    }
  }

  lemma MetValues(t: TextRules, contexts: seq<MaterialContext>, key: Group)
    ensures AllValues(t, Meeting(t, contexts, key)) == Met(Identities(t, contexts), key)
  {
    hide Identity, Meeting;
    forall v ensures v in AllValues(t, Meeting(t, contexts, key)) <==> v in Met(Identities(t, contexts), key) {
      if v in AllValues(t, Meeting(t, contexts, key)) {
        var x :| x in Meeting(t, contexts, key) && v in Identity(t, x);
        MeetingMembers(t, contexts, key, x);
        assert Identity(t, x) in Identities(t, contexts);
      }
      if v in Met(Identities(t, contexts), key) {
        var g :| g in Identities(t, contexts) && g * key != {} && v in g;
        var x :| x in contexts && Identity(t, x) == g;
        MeetingMembers(t, contexts, key, x);
      }
    }
  }

  /** One step on the list is one join on the identity sets. */
  lemma StepJoins(t: TextRules, contexts: seq<MaterialContext>, c: MaterialContext)
    requires StepFits(t, contexts, c)
    ensures Identities(t, AddCandidate(t, contexts, c)) == Join(Identities(t, contexts), Identity(t, c))
  {
    hide Identity, AddCandidate, Joined, StepFits, Met;
    var groups, key := Identities(t, contexts), Identity(t, c);
    var after := AddCandidate(t, contexts, c);
    JoinedIdentity(t, contexts, c);
    forall g ensures g in Identities(t, after) <==> g in Join(groups, key) {
      if g in Identities(t, after) {
        var x :| x in after && Identity(t, x) == g;
        AddedMembers(t, contexts, c, x);
      }
      if g in Kept(groups, key) {
        var x :| x in contexts && Identity(t, x) == g;
        AddedMembers(t, contexts, c, x);
      }
      AddedMembers(t, contexts, c, Joined(t, contexts, c));
    }
  }

  // ---------------------------------------------------------------- the partition

  lemma RowNamesSomething(t: TextRules, row: Row)
    requires RowContext(t, row).Some?
    ensures Identity(t, RowContext(t, row).value) != {}
  {
    var c := RowContext(t, row).value;
    var v := if c.formula.Some? then c.formula else c.name;
    assert v in [c.formula, c.name] + Optional(c.aliases);
    CleanedKeepsIdentity(t, if c.formula.Some? then row.formula else row.name);
    assert Normalized(t, v).Some?;
    assert Normalized(t, v).value in Identity(t, c);
  }

  lemma {:induction false} FamilyNonempty(t: TextRules, rows: seq<Row>)
    ensures Nonempty(Family(t, rows))
  {
    if rows != [] {
      hide Identity, RowContext;
      var row := rows[|rows| - 1];
      FamilyNonempty(t, rows[..|rows| - 1]);
      if RowContext(t, row).Some? { RowNamesSomething(t, row); }
    }
  }

  /** As long as no merge exceeds the alias limit, the contexts stand for the connected components. */
  lemma {:induction false} JobIsComponents(t: TextRules, rows: seq<Row>)
    requires EveryMergeFits(t, rows)
    ensures Identities(t, JobContexts(t, rows)) == ComponentsOf(Family(t, rows))
  {
    hide Identity, RowContext, AddCandidate, StepFits, Join;
    if rows == [] {
      assert Identities(t, []) == {};
    } else {
      var before, row := rows[..|rows| - 1], RowContext(t, rows[|rows| - 1]);
      JobIsComponents(t, before);
      if row.Some? {
        StepJoins(t, JobContexts(t, before), row.value);
        assert (Family(t, before) + [Identity(t, row.value)])[..|Family(t, before)|] == Family(t, before);
      }
    }
  }

  lemma OnlyHome(t: TextRules, contexts: seq<MaterialContext>, i: nat, v: Value, g: Group)
    requires Disjoint(t, contexts) && i < |contexts| && v in Identity(t, contexts[i])
    requires g in Identities(t, contexts) && v in g
    ensures g == Identity(t, contexts[i])
  {
    hide Identity;
    var j :| 0 <= j < |contexts| && Identity(t, contexts[j]) == g;
    forall x, y | 0 <= x < y < |contexts| ensures v !in Identity(t, contexts[x]) || v !in Identity(t, contexts[y]) {
      assert v !in Identity(t, contexts[x]) * Identity(t, contexts[y]);
    }
  }

  lemma ApartFromJoined(t: TextRules, contexts: seq<MaterialContext>, c: MaterialContext, i: nat)
    requires Disjoint(t, contexts) && i < |contexts| && !Meets(t, contexts[i], Identity(t, c))
    ensures Identity(t, contexts[i]) * Identity(t, Joined(t, contexts, c)) == {}
  {
    hide Identity, Joined, StepFits;
    var groups, key := Identities(t, contexts), Identity(t, c);
    JoinedIdentity(t, contexts, c);
    forall v | v in Identity(t, contexts[i]) ensures v !in key + Met(groups, key) {
      assert v !in Identity(t, contexts[i]) * key;
      forall g | g in groups && v in g ensures g * key == {} {
        OnlyHome(t, contexts, i, v, g);
      }
    }
  }

  lemma {:induction false} ApartDisjoint(t: TextRules, contexts: seq<MaterialContext>, key: Group)
    requires Disjoint(t, contexts)
    ensures Disjoint(t, Apart(t, contexts, key))
    ensures forall x :: x in Apart(t, contexts, key) ==>
      exists i :: 0 <= i < |contexts| && contexts[i] == x && !Meets(t, contexts[i], key)
  {
    if contexts != [] {
      hide Identity, Meets;
      var last := |contexts| - 1;
      var before := contexts[..last];
      ApartDisjoint(t, before, key);
      var kept := Apart(t, before, key);
      assert forall i :: 0 <= i < last ==> before[i] == contexts[i];
      forall j | 0 <= j < |kept| ensures Identity(t, kept[j]) * Identity(t, contexts[last]) == {} {
        assert kept[j] in kept;
        var i :| 0 <= i < last && before[i] == kept[j] && !Meets(t, before[i], key);
        assert contexts[i] == kept[j];
      }
    }
  }

  lemma {:induction false} ApartConcat(t: TextRules, a: seq<MaterialContext>, b: seq<MaterialContext>, key: Group)
    ensures Apart(t, a + b, key) == Apart(t, a, key) + Apart(t, b, key)
    decreases |b|
  {
    hide Meets;
    if b == [] {
      assert a + b == a;
    } else {
      var shorter := b[..|b| - 1];
      assert (a + b)[..|a + b| - 1] == a + shorter;
      ApartConcat(t, a, shorter, key);
    }
  }

  lemma {:induction false} ApartWhole(t: TextRules, contexts: seq<MaterialContext>, key: Group)
    requires forall i :: 0 <= i < |contexts| ==> !Meets(t, contexts[i], key)
    ensures Apart(t, contexts, key) == contexts
  {
    hide Meets;
    if contexts != [] {
      var before := contexts[..|contexts| - 1];
      assert forall i :: 0 <= i < |before| ==> before[i] == contexts[i];
      ApartWhole(t, before, key);
    }
  }

  /** A step inserts the joined context among the contexts it leaves alone. */
  lemma StepShape(t: TextRules, contexts: seq<MaterialContext>, c: MaterialContext) returns (n: nat)
    ensures var others := Apart(t, contexts, Identity(t, c));
            n <= |others| && AddCandidate(t, contexts, c) == others[..n] + [Joined(t, contexts, c)] + others[n..]
  {
    hide Identity, Meets, Meeting, Apart, MergeAll;
    var key := Identity(t, c);
    n := FirstMeeting(t, contexts, key);
    MeetingEmpty(t, contexts, key);
    ApartWhole(t, contexts[..n], key);
    if n < |contexts| {
      var met, rest := [contexts[n]], contexts[n + 1..];
      assert contexts == contexts[..n] + (met + rest);
      ApartConcat(t, contexts[..n], met + rest, key);
      ApartConcat(t, met, rest, key);
      ApartNone(t, contexts[n], key);
    } else {
      assert contexts[..n] == contexts;
    }
  }

  lemma ApartNone(t: TextRules, c: MaterialContext, key: Group)
    requires Meets(t, c, key)
    ensures Apart(t, [c], key) == []
  {
    hide Meets;
    assert [c][..0] == [];
  }

  lemma InsertDisjoint(t: TextRules, others: seq<MaterialContext>, x: MaterialContext, n: nat)
    requires Disjoint(t, others) && n <= |others|
    requires forall y :: y in others ==> Identity(t, y) * Identity(t, x) == {}
    ensures Disjoint(t, others[..n] + [x] + others[n..])
  {
    hide Identity;
    var after := others[..n] + [x] + others[n..];
    forall i, j | 0 <= i < j < |after| ensures Identity(t, after[i]) * Identity(t, after[j]) == {} {
      if i == n {
        assert after[j] in others;
      } else if j == n {
        assert after[i] in others;
      } else {
        assert after[i] == others[if i < n then i else i - 1] && after[j] == others[if j < n then j else j - 1];
      }
    }
  }

  lemma StepDisjoint(t: TextRules, contexts: seq<MaterialContext>, c: MaterialContext)
    requires Disjoint(t, contexts)
    ensures Disjoint(t, AddCandidate(t, contexts, c))
  {
    hide Identity, Meets, AddCandidate, Joined;
    var others := Apart(t, contexts, Identity(t, c));
    var n := StepShape(t, contexts, c);
    ApartDisjoint(t, contexts, Identity(t, c));
    forall y | y in others ensures Identity(t, y) * Identity(t, Joined(t, contexts, c)) == {} {
      var i :| 0 <= i < |contexts| && contexts[i] == y && !Meets(t, contexts[i], Identity(t, c));
      ApartFromJoined(t, contexts, c, i);
    }
    InsertDisjoint(t, others, Joined(t, contexts, c), n);
  }

  /** Two contexts of a job never share a normalised value, whether or not a merge was cut. */
  lemma {:induction false} JobIsDisjoint(t: TextRules, rows: seq<Row>)
    ensures Disjoint(t, JobContexts(t, rows))
  {
    if rows != [] {
      hide Identity, RowContext, AddCandidate, Disjoint;
      var before, row := rows[..|rows| - 1], RowContext(t, rows[|rows| - 1]);
      JobIsDisjoint(t, before);
      if row.Some? { StepDisjoint(t, JobContexts(t, before), row.value); }
    }
  }

  ghost predicate Inside(t: TextRules, contexts: seq<MaterialContext>, groups: Groups) {
    forall c :: c in contexts ==> exists g :: g in groups && Identity(t, c) <= g
  }

  /** A step joins only contexts that meet the row, so the joined one stays in the component the row joins. */
  lemma JoinedInside(t: TextRules, contexts: seq<MaterialContext>, groups: Groups, c: MaterialContext)
    requires Inside(t, contexts, groups)
    ensures Identity(t, Joined(t, contexts, c)) <= Identity(t, c) + Met(groups, Identity(t, c))
  {
    hide Identity, Joined;
    var key := Identity(t, c);
    JoinedIdentity(t, contexts, c);
    forall v | v in Met(Identities(t, contexts), key) ensures v in Met(groups, key) {
      var h :| h in Identities(t, contexts) && h * key != {} && v in h;
      var x :| x in contexts && Identity(t, x) == h;
      var g :| g in groups && h <= g;
      var w :| w in h * key;
      assert w in g * key;
    }
  }

  lemma StepInside(t: TextRules, contexts: seq<MaterialContext>, groups: Groups, c: MaterialContext)
    requires Inside(t, contexts, groups)
    ensures Inside(t, AddCandidate(t, contexts, c), Join(groups, Identity(t, c)))
  {
    hide Identity, Joined, AddCandidate, Meets;
    var key := Identity(t, c);
    JoinedInside(t, contexts, groups, c);
    forall x | x in AddCandidate(t, contexts, c) ensures exists g :: g in Join(groups, key) && Identity(t, x) <= g {
      AddedMembers(t, contexts, c, x);
      if x == Joined(t, contexts, c) {
        assert key + Met(groups, key) in Join(groups, key);
      } else {
        var g :| g in groups && Identity(t, x) <= g;
        var h := JoinGrows(groups, key, g);
      }
    }
  }

  /** Cut or not, a context never mixes materials: all it stands for lies in one connected component of the rows. */
  lemma {:induction false} JobInsideComponents(t: TextRules, rows: seq<Row>)
    ensures Inside(t, JobContexts(t, rows), ComponentsOf(Family(t, rows)))
  {
    if rows != [] {
      hide Identity, RowContext, AddCandidate, Join, Inside;
      var before, row := rows[..|rows| - 1], RowContext(t, rows[|rows| - 1]);
      JobInsideComponents(t, before);
      if row.Some? {
        var family := Family(t, rows);
        assert family[..|family| - 1] == Family(t, before);
        StepInside(t, JobContexts(t, before), ComponentsOf(Family(t, before)), row.value);
      }
    }
  }

  /** Two values of one context are always linked by a chain of rows. */
  lemma ContextIsLinked(t: TextRules, rows: seq<Row>, c: MaterialContext, u: Value, v: Value)
    requires c in JobContexts(t, rows) && u in Identity(t, c) && v in Identity(t, c)
    ensures Linked(Family(t, rows), u, v)
  {
    hide Identity, JobContexts, Linked, ComponentsOf, Family;
    JobInsideComponents(t, rows);
    FamilyNonempty(t, rows);
    var g :| g in ComponentsOf(Family(t, rows)) && Identity(t, c) <= g;
    GroupsAreComponents(Family(t, rows), g, u, v);
  }

  /** Two values belong to one material exactly when a chain of rows links them. */
  lemma SameMaterialIffLinked(t: TextRules, rows: seq<Row>, c: MaterialContext, u: Value, v: Value)
    requires EveryMergeFits(t, rows) && c in JobContexts(t, rows) && u in Identity(t, c)
    ensures v in Identity(t, c) <==> Linked(Family(t, rows), u, v)
  {
    hide Identity, JobContexts, EveryMergeFits, Linked;
    FamilyNonempty(t, rows);
    JobIsComponents(t, rows);
    assert Identity(t, c) in Identities(t, JobContexts(t, rows));
    GroupsAreComponents(Family(t, rows), Identity(t, c), u, v);
  }

  lemma {:induction false} FamilyMembers(t: TextRules, rows: seq<Row>, key: Group)
    ensures key in Family(t, rows)
       <==> exists row :: row in rows && RowContext(t, row).Some? && Identity(t, RowContext(t, row).value) == key
  {
    if rows != [] {
      hide Identity, RowContext;
      var before, last := rows[..|rows| - 1], rows[|rows| - 1];
      FamilyMembers(t, before, key);
      assert rows == before + [last];
      assert forall row :: row in rows <==> row in before || row == last;
    }
  }

  /** The materials found do not depend on the order of the rows, nor on how often a row occurs. */
  lemma RowOrderIrrelevant(t: TextRules, rows: seq<Row>, rows': seq<Row>)
    requires EveryMergeFits(t, rows) && EveryMergeFits(t, rows')
    requires forall row :: row in rows <==> row in rows'
    ensures Identities(t, JobContexts(t, rows)) == Identities(t, JobContexts(t, rows'))
  {
    hide Identity, RowContext, JobContexts, EveryMergeFits;
    forall key ensures key in Family(t, rows) <==> key in Family(t, rows') {
      FamilyMembers(t, rows, key);
      FamilyMembers(t, rows', key);
    }
    FamilyNonempty(t, rows);
    FamilyNonempty(t, rows');
    JobIsComponents(t, rows);
    JobIsComponents(t, rows');
    ComponentsIgnoreOrder(Family(t, rows), Family(t, rows'));
  }

  // ---------------------------------------------------------------- how large a material may grow

  predicate Named(t: TextRules, c: MaterialContext) {
    Normalized(t, c.formula).Some? || Normalized(t, c.name).Some?
  }

  lemma MergeNamed(t: TextRules, a: MaterialContext, b: MaterialContext)
    requires Named(t, a)
    ensures Named(t, Merge(t, a, b)) && Canonical(t, a, b) != {}
  {
    hide Collected;
    var values := [Or(a.formula, b.formula), Or(a.name, b.name)];
    var v := if Normalized(t, a.formula).Some? then values[0] else values[1];
    assert Strip(t, []) == [];
    assert v in values && Normalized(t, v).Some?;
    assert Normalized(t, v).value in Canonical(t, a, b);
  }

  lemma {:induction false} FitsInside(t: TextRules, merged: MaterialContext, others: seq<MaterialContext>, all: Group)
    requires Named(t, merged) && Identity(t, merged) + AllValues(t, others) <= all
    requires |all| <= MAX_MATERIAL_ALIASES + 1
    ensures MergesFit(t, merged, others) && Named(t, MergeAll(t, merged, others))
  {
    if others != [] {
      hide Identity, Merge, Named, Canonical;
      var before, last := others[..|others| - 1], others[|others| - 1];
      assert others == before + [last];
      AllValuesAppend(t, before, last);
      FitsInside(t, merged, before, all);
      MergeAllIdentity(t, merged, before);
      var sofar := MergeAll(t, merged, before);
      MergeNamed(t, sofar, last);
      MergeInputsIdentity(t, sofar, last);
      var canonical := Canonical(t, sofar, last);
      var v :| v in canonical;
      SmallerBy(Extra(t, sofar, last), all, v);
    }
  }

  lemma SmallerBy(a: Group, b: Group, v: Value)
    requires a <= b && v in b && v !in a
    ensures |a| < |b|
  {
    assert a <= b - {v};
    Smaller(a, b - {v});
  }

  lemma {:induction false} Smaller(a: Group, b: Group)
    requires a <= b
    ensures |a| <= |b|
  {
    if a != {} {
      var v :| v in a;
      Smaller(a - {v}, b - {v});
    }
  }

  lemma {:induction false} JobNamed(t: TextRules, rows: seq<Row>, x: MaterialContext)
    requires x in JobContexts(t, rows)
    ensures Named(t, x) && |x.aliases| <= MAX_MATERIAL_ALIASES
  {
    hide Identity, Merge, AddCandidate;
    var before, row := rows[..|rows| - 1], RowContext(t, rows[|rows| - 1]);
    if row.None? {
      JobNamed(t, before, x);
    } else {
      var contexts, c := JobContexts(t, before), row.value;
      AddedMembers(t, contexts, c, x);
      CleanedKeepsIdentity(t, rows[|rows| - 1].formula);
      CleanedKeepsIdentity(t, rows[|rows| - 1].name);
      if x in contexts {
        JobNamed(t, before, x);
      } else {
        var meeting := Meeting(t, contexts, Identity(t, c));
        if meeting != [] {
          MeetingMembers(t, contexts, Identity(t, c), meeting[0]);
          JobNamed(t, before, meeting[0]);
          MergeAllNamed(t, meeting[0], meeting[1..] + [c]);
        }
      }
    }
  }

  lemma {:induction false} MergeAllNamed(t: TextRules, merged: MaterialContext, others: seq<MaterialContext>)
    requires Named(t, merged) && |merged.aliases| <= MAX_MATERIAL_ALIASES
    ensures Named(t, MergeAll(t, merged, others)) && |MergeAll(t, merged, others).aliases| <= MAX_MATERIAL_ALIASES
  {
    if others != [] {
      hide Named, Collected, Canonical;
      var before, last := others[..|others| - 1], others[|others| - 1];
      MergeAllNamed(t, merged, before);
      MergeNamed(t, MergeAll(t, merged, before), last);
    }
  }

  lemma JoinGrows(groups: Groups, k: Group, g: Group) returns (h: Group)
    requires g in groups
    ensures h in Join(groups, k) && g <= h
  {
    h := if g * k == {} then g else k + Met(groups, k);
  }

  lemma JoinAdds(groups: Groups, k: Group)
    ensures k + Met(groups, k) in Join(groups, k)
  {
  }

  lemma SmallStepFits(t: TextRules, before: seq<Row>, c: MaterialContext)
    requires |Identity(t, c) + Met(Identities(t, JobContexts(t, before)), Identity(t, c))| <= MAX_MATERIAL_ALIASES + 1
    ensures StepFits(t, JobContexts(t, before), c)
  {
    hide Identity, JobContexts, MergesFit, Meeting;
    var contexts, key := JobContexts(t, before), Identity(t, c);
    var meeting := Meeting(t, contexts, key);
    if meeting != [] {
      MeetingMembers(t, contexts, key, meeting[0]);
      JobNamed(t, before, meeting[0]);
      MetValues(t, contexts, key);
      AllValuesAppend(t, meeting[1..], c);
      assert Identity(t, meeting[0]) + AllValues(t, meeting[1..]) <= AllValues(t, meeting);
      FitsInside(t, meeting[0], meeting[1..] + [c], key + Met(Identities(t, contexts), key));
    }
  }

  /** A material of more than 34 distinct values cannot be represented: the result is then not the partition. */
  lemma LargeMaterialLost(t: TextRules, rows: seq<Row>, g: Group)
    requires g in ComponentsOf(Family(t, rows)) && |g| > MAX_MATERIAL_ALIASES + 2
    ensures g !in Identities(t, JobContexts(t, rows))
  {
    hide Identity, JobContexts;
    forall c | c in JobContexts(t, rows) ensures Identity(t, c) != g {
      JobNamed(t, rows, c);
      IdentitySize(t, c);
    }
  }

  lemma IdentitySize(t: TextRules, c: MaterialContext)
    ensures |Identity(t, c)| <= |c.aliases| + 2
  {
    hide Normalized;
    NormalizedSize(t, [c.formula, c.name] + Optional(c.aliases));
  }

  lemma {:induction false} NormalizedSize(t: TextRules, values: seq<Option<string>>)
    ensures |NormalizedSet(t, values)| <= |values|
  {
    hide Normalized;
    if values == [] {
      assert NormalizedSet(t, values) == {};
    } else {
      var before, last := values[..|values| - 1], values[|values| - 1];
      NormalizedSize(t, before);
      assert values == before + [last];
      NormalizedAppend(t, before, last);
    }
  }
}
