/** How partial copies combine, and why copying never grows the subtree it is reading. */
module DriveCopy {
  import opened DriveTree
  import opened DriveOps
  import opened DriveRuns

  /**
   Hanging new rows under p leaves every subtree that does not contain p as it was. v and v' are
   what a query sees before and after.
   */
  lemma GraftKeepsSubtree(v: Table, v': Table, p: Id, root: Id)
    requires ROOT !in v' && v.Keys <= v'.Keys && (forall x | x in v :: v'[x] == v[x])
    requires forall y | y in v' && y !in v :: v'[y].parent == p || (v'[y].parent in v' && v'[y].parent !in v)
    requires forall x | x in v :: v[x].parent in v' ==> v[x].parent in v
    requires root in v && !Under(v, root, p)
    ensures Subtree(v', root) == Subtree(v, root)
  {
    forall x | x in v' ensures Under(v', root, x) <==> x in v && Under(v, root, x) {
      if x in v {
        forall k: nat { GraftClimb(v, v', x, k); }
      } else {
        forall k: nat ensures Climb(v', x, k) != root { GraftOutside(v, v', p, root, x, k); }
      }
    }
  }

  lemma {:induction false} GraftClimb(v: Table, v': Table, x: Id, k: nat)
    requires ROOT !in v' && v.Keys <= v'.Keys && (forall y | y in v :: v'[y] == v[y])
    requires forall y | y in v :: v[y].parent in v' ==> v[y].parent in v
    requires x in v
    ensures Climb(v', x, k) == Climb(v, x, k)
    decreases k
  {
    if k > 0 && v[x].parent in v {
      GraftClimb(v, v', v[x].parent, k - 1);
    }
  }

  lemma {:induction false} GraftOutside(v: Table, v': Table, p: Id, root: Id, y: Id, k: nat)
    requires ROOT !in v' && v.Keys <= v'.Keys && (forall x | x in v :: v'[x] == v[x])
    requires forall z | z in v' && z !in v :: v'[z].parent == p || (v'[z].parent in v' && v'[z].parent !in v)
    requires forall x | x in v :: v[x].parent in v' ==> v[x].parent in v
    requires root in v && !Under(v, root, p)
    requires y in v' && y !in v
    ensures Climb(v', y, k) != root
    decreases k
  {
    if k > 0 {
      var q := v'[y].parent;
      if q in v' && q !in v {
        GraftOutside(v, v', p, root, q, k - 1);
      } else if p in v {
        GraftClimb(v, v', p, k - 1);
      } else {
        OutsideStaysOutside(v', p, k - 1);
      }
    }
  }

  /** The first row of a copy, before any child is copied. */
  lemma CopyStarts(t: Table, t': Table, src: Id, p: Id, name: string, dup: Id, blob: Id)
    requires Forest(t) && src in t && t[src].Live() && dup !in t && dup != ROOT
    requires t' == t[dup := t[src].(parent := p, name := name, blob := blob)]
    ensures CopyPart(t, t', src, p, name, map[src := dup])
  {
    var iso := map[src := dup];
    UnderRefl(View(t, t[src].owner, true), src);
    assert iso[src] == dup;
    assert iso.Values == {dup};
    assert CopiedRow(t, t', src, p, name, iso, src);
  }

  /** Keys of a partial copy are closed towards src, so an uncopied child has no copied descendant. */
  lemma {:induction false} UncopiedBelow(t: Table, iso: map<Id, Id>, src: Id, v: Table, c: Id, x: Id, k: nat)
    requires ROOT !in v && (forall y | y in v :: y in t && v[y] == t[y])
    requires forall y | y in iso :: y in v && (y != src ==> v[y].parent in iso)
    requires c !in iso && c in v && src in v && !Under(v, c, src)
    requires x in v && Climb(v, x, k) == c
    ensures x !in iso
    decreases k
  {
    if k > 0 {
      if x == src {
        assert Under(v, c, src);
      } else {
        UncopiedBelow(t, iso, src, v, c, v[x].parent, k - 1);
      }
    }
  }

  lemma ChildNotAbove(v: Table, src: Id, c: Id)
    requires ROOT !in v && Acyclic(v) && src in v && c in v && v[c].parent == src
    ensures !Under(v, c, src) && Under(v, src, c)
  {
    UnderRefl(v, src);
    UnderStep(v, src, c);
    if Under(v, c, src) {
      var k: nat :| Climb(v, src, k) == c;
      assert Climb(v, c, 1) == src by { assert Climb(v, src, 0) == src; }
      ClimbAdds(v, src, k, 1);
      NoCycle(v, src, k + 1);
    }
  }

  /** Subtrees below src are untouched by the copy of src in progress. */
  lemma CopyLeavesSubtree(t: Table, t': Table, src: Id, p: Id, name: string, iso: map<Id, Id>, root: Id)
    requires Forest(t) && CopyPart(t, t', src, p, name, iso) && Target(t, t[src].owner, p)
    requires root in TrashSet(t, t[src].owner, src)
    requires !Under(View(t, t[src].owner, true), src, p)
    ensures TrashSet(t', t[src].owner, root) == TrashSet(t, t[src].owner, root)
    ensures SubtreeBytes(t', t[src].owner, root, true) == SubtreeBytes(t, t[src].owner, root, true)
  {
    var u := t[src].owner;
    var v, v' := View(t, u, true), View(t', u, true);
    CopiedView(t, t', src, p, name, iso, u);
    CopyForest(t, t', src, p, name, iso);
    forall y | y in v' && y !in v
      ensures v'[y].parent == p || (v'[y].parent in v' && v'[y].parent !in v)
    {
      var x :| x in iso && iso[x] == y;
      CopiedParent(t, t', src, p, name, iso, x);
      if x != src {
        assert iso[t[x].parent] in iso.Values;
      }
    }
    if Under(v, root, p) {
      UnderTrans(v, src, root, p);
    }
    GraftKeepsSubtree(v, v', p, root);
    SumSame(t, t', TrashSet(t, u, root));
  }

  /** All that copyTree needs before it copies the next child c of src under the copy of src. */
  lemma ChildReady(q: int, t: Table, t': Table, src: Id, p: Id, name: string, iso: map<Id, Id>, c: Id)
    requires Forest(t) && CopyPart(t, t', src, p, name, iso) && Target(t, t[src].owner, p)
    requires !Under(View(t, t[src].owner, true), src, p)
    requires LiveRow(t, t[src].owner, c) && t[c].parent == src && c !in iso
    requires Fits(q, LiveTotal(t, t[src].owner), SubtreeBytes(t, t[src].owner, src, true))
    ensures LiveRow(t', t[src].owner, c) && t'[c] == t[c]
    ensures Target(t', t[src].owner, iso[src])
    ensures !Under(View(t', t[src].owner, true), c, iso[src])
    ensures Fits(q, LiveTotal(t', t[src].owner), SubtreeBytes(t', t[src].owner, c, true))
    ensures TrashSet(t', t[src].owner, c) == TrashSet(t, t[src].owner, c) < TrashSet(t, t[src].owner, src)
    ensures TrashSet(t, t[src].owner, c) !! iso.Keys
  {
    var u := t[src].owner;
    var v := View(t, u, true);
    ViewAcyclic(t, u, true);
    TrashSetOwner(t, u, src);
    ChildNotAbove(v, src, c);
    ChildInside(v, src, c);
    CopyLeavesSubtree(t, t', src, p, name, iso, c);
    CopiedParent(t, t', src, p, name, iso, src);
    forall x | x in TrashSet(t, u, c) ensures x !in iso {
      var k: nat :| Climb(v, x, k) == c;
      UncopiedBelow(t, iso, src, v, c, x, k);
    }
    CopyTotal(t, t', src, p, name, iso, u);
    SumUnion(t, iso.Keys, TrashSet(t, u, c));
    SumMonotone(t, iso.Keys + TrashSet(t, u, c), TrashSet(t, u, src));
    assert t[src].kind == Folder;
  }

  lemma ChildInside(v: Table, src: Id, c: Id)
    requires ROOT !in v && Acyclic(v) && src in v && c in v && v[c].parent == src
    ensures Subtree(v, c) < Subtree(v, src)
  {
    ChildNotAbove(v, src, c);
    UnderRefl(v, src);
    forall x | x in Subtree(v, c) ensures x in Subtree(v, src) { UnderTrans(v, src, c, x); }
    assert src in Subtree(v, src) && src !in Subtree(v, c);
  }

  lemma JoinedValues(a: map<Id, Id>, b: map<Id, Id>)
    requires a.Keys !! b.Keys
    ensures (a + b).Keys == a.Keys + b.Keys && (a + b).Values == a.Values + b.Values
  {
    forall y | y in a.Values + b.Values ensures y in (a + b).Values {
      if y in b.Values {
        var x :| x in b && b[x] == y;
        assert (a + b)[x] == y;
      } else {
        var x :| x in a && a[x] == y;
        assert (a + b)[x] == y;
      }
    }
  }

  lemma JoinedShape(t: Table, src: Id, iso: map<Id, Id>, t1: Table, c: Id, iso2: map<Id, Id>)
    requires ROOT !in t && CopyShape(t, src, iso) && CopyShape(t1, c, iso2)
    requires forall x | x in t :: x in t1 && t1[x] == t[x]
    requires c in t && t[c].parent == src && Under(View(t, t[src].owner, true), src, c)
    requires iso2.Keys <= TrashSet(t, t[src].owner, c)
    ensures CopyShape(t, src, iso + iso2)
  {
    var v := View(t, t[src].owner, true);
    forall x | x in iso2 ensures x in TrashSet(t, t[src].owner, src) { UnderTrans(v, src, c, x); }
  }

  lemma JoinedFresh(t: Table, iso: map<Id, Id>, t1: Table, iso2: map<Id, Id>)
    requires CopyFresh(t, iso) && CopyFresh(t1, iso2)
    requires t1.Keys == t.Keys + iso.Values
    ensures CopyFresh(t, iso + iso2)
  {
    assert forall x | x in iso :: iso[x] in t1;
  }

  lemma JoinedRows(t: Table, t1: Table, t2: Table, src: Id, p: Id, name: string, iso: map<Id, Id>,
                   c: Id, iso2: map<Id, Id>, x: Id)
    requires CopyShape(t, src, iso) && CopyTable(t, t1, src, p, name, iso)
    requires c in t && t[c].parent == src && c != src
    requires iso2.Keys <= t.Keys && iso2.Keys !! iso.Keys
    requires CopyShape(t1, c, iso2) && CopyTable(t1, t2, c, iso[src], t[c].name, iso2)
    requires CopyShape(t, src, iso + iso2) && x in iso + iso2
    ensures (iso + iso2)[x] in t2 && CopiedRow(t, t2, src, p, name, iso + iso2, x)
  {
    if x in iso2 {
      assert CopiedRow(t1, t2, c, iso[src], t[c].name, iso2, x);
    } else {
      assert CopiedRow(t, t1, src, p, name, iso, x);
      assert iso[x] in t1;
    }
  }

  /** A finished copy of a child extends the partial copy of its parent. */
  lemma CopyJoin(t: Table, t1: Table, t2: Table, src: Id, p: Id, name: string, iso: map<Id, Id>,
                 c: Id, iso2: map<Id, Id>)
    requires Forest(t) && src in t && CopyPart(t, t1, src, p, name, iso)
    requires c in t && t[c].parent == src && Under(View(t, t[src].owner, true), src, c) && c != src
    requires iso2.Keys <= TrashSet(t, t[src].owner, c) && iso2.Keys !! iso.Keys
    requires CopyPart(t1, t2, c, iso[src], t[c].name, iso2)
    ensures CopyPart(t, t2, src, p, name, iso + iso2)
  {
    JoinedShape(t, src, iso, t1, c, iso2);
    JoinedFresh(t, iso, t1, iso2);
    JoinedTable(t, t1, t2, src, p, name, iso, c, iso2);
  }

  lemma JoinedTable(t: Table, t1: Table, t2: Table, src: Id, p: Id, name: string, iso: map<Id, Id>,
                    c: Id, iso2: map<Id, Id>)
    requires CopyShape(t, src, iso) && CopyTable(t, t1, src, p, name, iso)
    requires c in t && t[c].parent == src && c != src
    requires iso2.Keys <= t.Keys && iso2.Keys !! iso.Keys
    requires CopyShape(t1, c, iso2) && CopyTable(t1, t2, c, iso[src], t[c].name, iso2)
    requires CopyShape(t, src, iso + iso2)
    ensures CopyTable(t, t2, src, p, name, iso + iso2)
  {
    JoinedValues(iso, iso2);
    forall x | x in iso + iso2
      ensures (iso + iso2)[x] in t2 && CopiedRow(t, t2, src, p, name, iso + iso2, x)
    {
      JoinedRows(t, t1, t2, src, p, name, iso, c, iso2, x);
    }
  }

  lemma ChildJoined(t: Table, t1: Table, t2: Table, src: Id, p: Id, name: string, iso: map<Id, Id>,
                    c: Id, iso2: map<Id, Id>)
    requires Forest(t) && src in t && CopyPart(t, t1, src, p, name, iso)
    requires LiveRow(t, t[src].owner, c) && t[c].parent == src && t[src].Live()
    requires iso2.Keys <= TrashSet(t, t[src].owner, c) && iso2.Keys !! iso.Keys
    requires CopyPart(t1, t2, c, iso[src], t[c].name, iso2)
    ensures CopyPart(t, t2, src, p, name, iso + iso2)
  {
    var v := View(t, t[src].owner, true);
    ViewAcyclic(t, t[src].owner, true);
    ChildNotAbove(v, src, c);
    UnderRefl(v, src);
    CopyJoin(t, t1, t2, src, p, name, iso, c, iso2);
  }

  /** The first i children are copied with all below them, the others not yet. */
  ghost predicate ChildrenDone(t: Table, u: User, children: seq<Id>, i: nat, keys: set<Id>) {
    && (forall j | i <= j < |children| :: children[j] !in keys)
    && (forall j | 0 <= j < |children| && j < i :: TrashSet(t, u, children[j]) <= keys)
  }

  /** Copying one child leaves its siblings uncopied. */
  lemma NextChild(t: Table, u: User, src: Id, children: seq<Id>, i: nat, keys: set<Id>, keys2: set<Id>)
    requires Forest(t) && LiveRow(t, u, src) && i < |children|
    requires forall c | c in children :: LiveRow(t, u, c) && t[c].parent == src
    requires forall j, k | 0 <= j < k < |children| :: children[j] != children[k]
    requires ChildrenDone(t, u, children, i, keys) && keys2 == TrashSet(t, u, children[i])
    ensures ChildrenDone(t, u, children, i + 1, keys + keys2)
  {
    var v := View(t, u, true);
    ViewAcyclic(t, u, true);
    assert children[i] in children;
    forall j | i < j < |children| ensures children[j] !in keys2 {
      assert children[j] in children;
      SiblingNotAbove(v, src, children[i], children[j]);
    }
  }

  /** Once src and all its live children are in, the copy is whole. */
  lemma CopyWhole(t: Table, t': Table, src: Id, p: Id, name: string, iso: map<Id, Id>, children: seq<Id>)
    requires Forest(t) && CopyPart(t, t', src, p, name, iso)
    requires forall c | LiveRow(t, t[src].owner, c) && t[c].parent == src :: c in children
    requires ChildrenDone(t, t[src].owner, children, |children|, iso.Keys)
    ensures IsCopy(t, t', src, p, name, iso)
  {
    var v := View(t, t[src].owner, true);
    forall x | x in TrashSet(t, t[src].owner, src) ensures x in iso {
      if x != src {
        var c := ChildAbove(v, src, x);
        assert c in children;
      }
    }
  }

  /** The subtree below the copy of src is exactly the set of rows copied so far. */
  lemma CopySubtree(t: Table, t': Table, src: Id, p: Id, name: string, iso: map<Id, Id>)
    requires Forest(t) && CopyPart(t, t', src, p, name, iso) && Target(t, t[src].owner, p)
    ensures Subtree(View(t', t[src].owner, false), iso[src]) == iso.Values
  {
    var u := t[src].owner;
    CopyForest(t, t', src, p, name, iso);
    CopiedParent(t, t', src, p, name, iso, src);
    PurgeClosed(t', u, iso[src]);
    var v := View(t, u, true);
    forall x | x in iso
      ensures iso[x] in t' && x in v && (x != src ==> v[x].parent in iso && t'[iso[x]].parent == iso[v[x].parent])
    {
      CopiedParent(t, t', src, p, name, iso, x);
    }
    forall x | x in iso ensures Under(t', iso[src], iso[x]) {
      var k: nat :| Climb(v, x, k) == src;
      ImageUnder(v, t', src, iso, x, k);
    }
    forall x | x in t ensures !Under(t', iso[src], x) {
      forall k: nat ensures Climb(t', x, k) != iso[src] { GraftClimb(t, t', x, k); StaysInside(t, x, k); }
    }
  }

  lemma {:induction false} StaysInside(t: Table, x: Id, k: nat)
    requires ParentsOk(t) && x in t
    ensures Climb(t, x, k) in t || Climb(t, x, k) == ROOT
    decreases k
  {
    if k > 0 && t[x].parent in t {
      StaysInside(t, t[x].parent, k - 1);
    }
  }

  lemma {:induction false} ImageUnder(v: Table, t': Table, src: Id, iso: map<Id, Id>, x: Id, k: nat)
    requires ROOT !in t' && src in iso && src in v
    requires forall y | y in iso :: iso[y] in t'
    requires forall y | y in iso && y != src :: y in v && v[y].parent in iso && t'[iso[y]].parent == iso[v[y].parent]
    requires x in iso && Climb(v, x, k) == src
    ensures Under(t', iso[src], iso[x])
    decreases k
  {
    if x == src {
      UnderRefl(t', iso[src]);
    } else {
      ImageUnder(v, t', src, iso, v[x].parent, k - 1);
      UnderStep(t', iso[src], iso[x]);
    }
  }

  /** Deleting the subtree of the copy gives the table back. */
  lemma CopyUndone(t: Table, t': Table, src: Id, p: Id, name: string, iso: map<Id, Id>)
    requires Forest(t) && CopyPart(t, t', src, p, name, iso) && Target(t, t[src].owner, p)
    ensures Without(t', Subtree(View(t', t[src].owner, false), iso[src])) == t
  {
    CopySubtree(t, t', src, p, name, iso);
  }

  /** A file has nothing below it, so the folder-only guard of Copy covers files as well. */
  lemma NothingUnderFile(t: Table, f: Id, p: Id, u: User)
    requires Forest(t) && f in t && t[f].kind == File && Target(t, u, p)
    ensures !Under(t, f, p)
  {
    if Under(t, f, p) {
      var c := ChildAbove(t, f, p);
    }
  }
}
