/** Connected components of a family of value sets, built one set at a time. */
module Components {
  import opened Prelude

  type Value = string
  type Group = set<Value>
  type Groups = set<Group>

  /** The groups that share no value with `k`. */
  function Kept(groups: Groups, k: Group): Groups {
    set g | g in groups && g * k == {}
  }

  /** All values of the groups that do. */
  function Met(groups: Groups, k: Group): Group {
    set g, x | g in groups && g * k != {} && x in g :: x
  }

  /** Adding `k` joins it with every group it meets and leaves the others alone. */
  function Join(groups: Groups, k: Group): Groups {
    Kept(groups, k) + {k + Met(groups, k)}
  }

  function ComponentsOf(family: seq<Group>): Groups {
    if family == [] then {} else Join(ComponentsOf(family[..|family| - 1]), family[|family| - 1])
  }

  /** Two values occur together in some member of the family. */
  ghost predicate Together(family: seq<Group>, u: Value, v: Value) {
    exists i :: 0 <= i < |family| && u in family[i] && v in family[i]
  }

  ghost predicate IsChain(family: seq<Group>, path: seq<Value>) {
    |path| > 0 && forall j :: 0 <= j < |path| - 1 ==> Together(family, path[j], path[j + 1])
  }

  /** `u` and `v` are linked by a chain of values, each occurring together with the next. */
  ghost predicate Linked(family: seq<Group>, u: Value, v: Value) {
    exists path :: IsChain(family, path) && path[0] == u && path[|path| - 1] == v
  }

  lemma LinkedDirectly(family: seq<Group>, u: Value, v: Value)
    requires Together(family, u, v)
    ensures Linked(family, u, v)
  {
    var path := [u, v];
    assert IsChain(family, path) && path[0] == u && path[|path| - 1] == v;
  }

  lemma LinkedTransitive(family: seq<Group>, u: Value, v: Value, w: Value)
    requires Linked(family, u, v) && Linked(family, v, w)
    ensures Linked(family, u, w)
  {
    var p :| IsChain(family, p) && p[0] == u && p[|p| - 1] == v;
    var q :| IsChain(family, q) && q[0] == v && q[|q| - 1] == w;
    var path := p + q[1..];
    forall j | 0 <= j < |path| - 1 ensures Together(family, path[j], path[j + 1]) {
      if j + 1 < |p| {
        assert path[j] == p[j] && path[j + 1] == p[j + 1];
      } else {
        assert path[j] == q[j + 1 - |p|] && path[j + 1] == q[j + 2 - |p|];
      }
    }
    assert IsChain(family, path) && path[0] == u && path[|path| - 1] == w;
  }

  lemma LinkedGrows(family: seq<Group>, family': seq<Group>, u: Value, v: Value)
    requires Linked(family, u, v) && forall i :: 0 <= i < |family| ==> family[i] in family'
    ensures Linked(family', u, v)
  {
    var path :| IsChain(family, path) && path[0] == u && path[|path| - 1] == v;
    forall j | 0 <= j < |path| - 1 ensures Together(family', path[j], path[j + 1]) {
      assert Together(family, path[j], path[j + 1]);
      var i :| 0 <= i < |family| && path[j] in family[i] && path[j + 1] in family[i];
      var i' :| 0 <= i' < |family'| && family'[i'] == family[i];
    }
    assert IsChain(family', path);
  }

  ghost predicate Partition(groups: Groups) {
    && {} !in groups
    && forall g, h, x :: g in groups && h in groups && x in g && x in h ==> g == h
  }

  ghost predicate Nonempty(family: seq<Group>) {
    forall i :: 0 <= i < |family| ==> family[i] != {}
  }

  /** Every member lies inside one group, and every group value comes from a member. */
  ghost predicate Covers(family: seq<Group>, groups: Groups) {
    && (forall i :: 0 <= i < |family| ==> exists g :: g in groups && family[i] <= g)
    && (forall g, x :: g in groups && x in g ==> exists i :: 0 <= i < |family| && x in family[i])
  }

  ghost predicate Connected(family: seq<Group>, groups: Groups) {
    forall g, u, v :: g in groups && u in g && v in g ==> Linked(family, u, v)
  }

  /** A family and the groups built from it agree: disjoint groups that cover it, each connected by it. */
  ghost predicate Sound(family: seq<Group>, groups: Groups) {
    Partition(groups) && Covers(family, groups) && Connected(family, groups)
  }

  lemma KeptAvoidsMet(groups: Groups, k: Group, g: Group, x: Value)
    requires Partition(groups) && g in Kept(groups, k) && x in g
    ensures x !in k + Met(groups, k)
  {
    assert g * k == {};
    assert x in k ==> x in g * k;
    assert forall h :: h in groups && x in h ==> h == g;
  }

  lemma JoinPartition(groups: Groups, k: Group)
    requires Partition(groups) && k != {}
    ensures Partition(Join(groups, k))
  {
    forall g, h, x | g in Join(groups, k) && h in Join(groups, k) && x in g && x in h ensures g == h {
      if g in Kept(groups, k) { KeptAvoidsMet(groups, k, g, x); }
      if h in Kept(groups, k) { KeptAvoidsMet(groups, k, h, x); }
    }
  }

  lemma JoinCovers(family: seq<Group>, groups: Groups, k: Group)
    requires Covers(family, groups)
    ensures Covers(family + [k], Join(groups, k))
  {
    var family' := family + [k];
    var merged := k + Met(groups, k);
    forall i | 0 <= i < |family'| ensures exists g :: g in Join(groups, k) && family'[i] <= g {
      if i < |family| {
        var g :| g in groups && family[i] <= g;
        var home := if g * k == {} then g else merged;
        assert home in Join(groups, k) && family'[i] <= home;
      } else {
        assert merged in Join(groups, k) && family'[i] <= merged;
      }
    }
    forall g, x | g in Join(groups, k) && x in g ensures exists i :: 0 <= i < |family'| && x in family'[i] {
      if x in k {
        assert x in family'[|family|];
      } else {
        var h :| h in groups && x in h;
        var i :| 0 <= i < |family| && x in family[i];
        assert x in family'[i];
      }
    }
  }

  /** Everything in a group that meets `k` is linked to any value of `k`. */
  lemma LinkedThrough(family: seq<Group>, groups: Groups, k: Group, u: Value, a: Value)
    requires Connected(family, groups) && a in k && u in k + Met(groups, k)
    ensures Linked(family + [k], u, a) && Linked(family + [k], a, u)
  {
    var family' := family + [k];
    assert family'[|family|] == k;
    if u in k {
      LinkedDirectly(family', u, a);
      LinkedDirectly(family', a, u);
    } else {
      var g :| g in groups && g * k != {} && u in g;
      var b :| b in g * k;
      assert Linked(family, u, b) && Linked(family, b, u);
      assert forall i :: 0 <= i < |family| ==> family[i] == family'[i];
      LinkedGrows(family, family', u, b);
      LinkedGrows(family, family', b, u);
      LinkedDirectly(family', b, a);
      LinkedDirectly(family', a, b);
      LinkedTransitive(family', u, b, a);
      LinkedTransitive(family', a, b, u);
    }
  }

  lemma JoinConnected(family: seq<Group>, groups: Groups, k: Group)
    requires Connected(family, groups) && k != {}
    ensures Connected(family + [k], Join(groups, k))
  {
    var family' := family + [k];
    var a :| a in k;
    assert forall i :: 0 <= i < |family| ==> family[i] == family'[i];
    forall g, u, v | g in Join(groups, k) && u in g && v in g ensures Linked(family', u, v) {
      if g in Kept(groups, k) {
        LinkedGrows(family, family', u, v);
      } else {
        LinkedThrough(family, groups, k, u, a);
        LinkedThrough(family, groups, k, v, a);
        LinkedTransitive(family', u, a, v);
      }
    }
  }

  lemma JoinSound(family: seq<Group>, groups: Groups, k: Group)
    requires Sound(family, groups) && k != {}
    ensures Sound(family + [k], Join(groups, k))
  {
    JoinPartition(groups, k);
    JoinCovers(family, groups, k);
    JoinConnected(family, groups, k);
  }

  lemma {:induction false} ComponentsAreSound(family: seq<Group>)
    requires Nonempty(family)
    ensures Sound(family, ComponentsOf(family))
  {
    if family != [] {
      var shorter, k := family[..|family| - 1], family[|family| - 1];
      assert family == shorter + [k];
      ComponentsAreSound(shorter);
      JoinSound(shorter, ComponentsOf(shorter), k);
    }
  }

  lemma StepStaysInside(family: seq<Group>, groups: Groups, g: Group, u: Value, v: Value)
    requires Partition(groups) && Covers(family, groups) && g in groups && u in g && Together(family, u, v)
    ensures v in g
  {
    var i :| 0 <= i < |family| && u in family[i] && v in family[i];
    var h :| h in groups && family[i] <= h;
    assert u in h && h == g;
  }

  lemma {:induction false} ChainStaysInside(family: seq<Group>, groups: Groups, g: Group, path: seq<Value>, n: nat)
    requires Partition(groups) && Covers(family, groups) && g in groups
    requires IsChain(family, path) && path[0] in g && n < |path|
    ensures path[n] in g
  {
    if n > 0 {
      var m := n - 1;
      ChainStaysInside(family, groups, g, path, m);
      assert Together(family, path[m], path[m + 1]);
      StepStaysInside(family, groups, g, path[m], path[n]);
    }
  }

  /** A sound set of groups is exactly the set of chain-components. */
  lemma SoundGroups(family: seq<Group>, groups: Groups, g: Group, u: Value, v: Value)
    requires Sound(family, groups) && g in groups && u in g
    ensures v in g <==> Linked(family, u, v)
  {
    if Linked(family, u, v) {
      var path :| IsChain(family, path) && path[0] == u && path[|path| - 1] == v;
      ChainStaysInside(family, groups, g, path, |path| - 1);
    }
  }

  /** Two values are in one group exactly when a chain links them. */
  lemma GroupsAreComponents(family: seq<Group>, g: Group, u: Value, v: Value)
    requires Nonempty(family) && g in ComponentsOf(family) && u in g
    ensures v in g <==> Linked(family, u, v)
  {
    ComponentsAreSound(family);
    SoundGroups(family, ComponentsOf(family), g, u, v);
  }

  lemma HomeOf(family: seq<Group>, groups: Groups, u: Value, i: nat) returns (h: Group)
    requires Covers(family, groups) && i < |family| && u in family[i]
    ensures h in groups && u in h
  {
    h :| h in groups && family[i] <= h;
  }

  lemma MemberOf(family: seq<Group>, groups: Groups, g: Group, u: Value) returns (i: nat)
    requires Covers(family, groups) && g in groups && u in g
    ensures i < |family| && u in family[i]
  {
    i :| 0 <= i < |family| && u in family[i];
  }

  lemma SameLinks(a: seq<Group>, b: seq<Group>, u: Value, v: Value)
    requires forall k :: k in a <==> k in b
    ensures Linked(a, u, v) <==> Linked(b, u, v)
  {
    if Linked(a, u, v) { LinkedGrows(a, b, u, v); }
    if Linked(b, u, v) { LinkedGrows(b, a, u, v); }
  }

  lemma SoundIncluded(a: seq<Group>, b: seq<Group>, x: Groups, y: Groups, g: Group)
    requires Sound(a, x) && Sound(b, y) && g in x && forall k :: k in a <==> k in b
    ensures g in y
  {
    assert g != {};
    var u :| u in g;
    var i := MemberOf(a, x, g, u);
    assert a[i] in b;
    var j :| 0 <= j < |b| && b[j] == a[i];
    var h := HomeOf(b, y, u, j);
    forall v ensures v in g <==> v in h {
      SoundGroups(a, x, g, u, v);
      SoundGroups(b, y, h, u, v);
      SameLinks(a, b, u, v);
    }
    assert g == h;
  }

  /** The components depend only on which sets occur, not on their order or number. */
  lemma ComponentsIgnoreOrder(a: seq<Group>, b: seq<Group>)
    requires Nonempty(a) && Nonempty(b) && forall k :: k in a <==> k in b
    ensures ComponentsOf(a) == ComponentsOf(b)
  {
    ComponentsAreSound(a);
    ComponentsAreSound(b);
    SoundUnique(a, b, ComponentsOf(a), ComponentsOf(b));
  }

  lemma SoundUnique(a: seq<Group>, b: seq<Group>, x: Groups, y: Groups)
    requires Sound(a, x) && Sound(b, y) && forall k :: k in a <==> k in b
    ensures x == y
  {
    forall g ensures g in x <==> g in y {
      if g in x { SoundIncluded(a, b, x, y, g); }
      if g in y { SoundIncluded(b, a, y, x, g); }
    }
  }
}
