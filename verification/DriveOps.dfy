/**
 What each drive operation does to drive_nodes, as a relation between the table before and
 after, and what every run of these operations keeps: the forest, the trash stamps, the quota.
 */
module DriveOps {
  import opened Options
  import opened DriveTree

  // ---------------------------------------------------------------- the statements

  /** The rows Trash stamps: the live rows reached from id through live rows. */
  ghost function TrashSet(t: Table, u: User, id: Id): set<Id> {
    Subtree(View(t, u, true), id)
  }

  ghost function Trashed(t: Table, u: User, id: Id, now: nat): Table {
    map x | x in t :: if x in TrashSet(t, u, id) then t[x].(deleted := Some(now)) else t[x]
  }

  /** The rows Restore clears: the whole subtree, filtered by the root's own stamp. */
  ghost function RestoreSet(t: Table, u: User, id: Id): set<Id>
    requires id in t
  {
    set x | x in Subtree(View(t, u, false), id) && x in t && t[x].deleted == t[id].deleted
  }

  ghost function Restored(t: Table, u: User, id: Id): Table
    requires id in t
  {
    map x | x in t :: if x in RestoreSet(t, u, id) then t[x].(deleted := None) else t[x]
  }

  ghost function Without(t: Table, s: set<Id>): Table {
    map x | x in t && x !in s :: t[x]
  }

  /** The rows EmptyTrash names in its WHERE clause. */
  function TrashOf(t: Table, u: User): set<Id> {
    set x | x in t && t[x].owner == u && !t[x].Live()
  }

  /** A DELETE takes every row below a deleted row with it (foreign key cascade). */
  ghost function Cascade(t: Table, s: set<Id>): set<Id> {
    set x | x in t && exists r :: r in s && Under(t, r, x)
  }

  /** The trash view lists a trashed row unless its parent is trashed too. */
  predicate Listed(t: Table, id: Id) {
    id in t && !t[id].Live() && (t[id].parent in t ==> t[t[id].parent].Live())
  }

  /** Target of a create, move or copy: the root or a live folder of the user. */
  predicate Target(t: Table, u: User, p: Id) {
    p == ROOT || (p in t && t[p].owner == u && t[p].Live() && t[p].kind == Folder)
  }

  // ---------------------------------------------------------------- copies

  /**
   t' is t plus a copy of the rows iso.Keys, an upper part of the live subtree of src: iso
   names the copy of each row, the copy of src hangs under parent with the new name, and every
   other copied row hangs under the copy of its parent with all else unchanged.
   */
  ghost predicate CopyPart(t: Table, t': Table, src: Id, parent: Id, name: string, iso: map<Id, Id>) {
    && CopyShape(t, src, iso)
    && CopyFresh(t, iso)
    && CopyTable(t, t', src, parent, name, iso)
  }

  ghost predicate CopyShape(t: Table, src: Id, iso: map<Id, Id>) {
    && src in t && src in iso
    && iso.Keys <= TrashSet(t, t[src].owner, src)
    && iso.Keys <= t.Keys
    && forall x {:trigger t[x].parent} | x in iso :: x != src ==> t[x].parent in iso
  }

  ghost predicate CopyFresh(t: Table, iso: map<Id, Id>) {
    && (forall x, y | x in iso && y in iso && iso[x] == iso[y] :: x == y)
    && (forall x | x in iso :: iso[x] !in t && iso[x] != ROOT)
  }

  ghost predicate CopyTable(t: Table, t': Table, src: Id, parent: Id, name: string, iso: map<Id, Id>)
    requires CopyShape(t, src, iso)
  {
    && t'.Keys == t.Keys + iso.Values
    && (forall x | x in t :: t'[x] == t[x])
    && (forall x | x in iso :: iso[x] in t' && CopiedRow(t, t', src, parent, name, iso, x))
  }

  ghost predicate CopiedRow(t: Table, t': Table, src: Id, parent: Id, name: string, iso: map<Id, Id>, x: Id)
    requires x in iso && x in t && iso[x] in t' && (x != src ==> t[x].parent in iso)
  {
    t'[iso[x]] == t[x].(parent := if x == src then parent else iso[t[x].parent],
                        name := if x == src then name else t[x].name,
                        blob := t'[iso[x]].blob)
  }

  /** A finished copy covers the whole live subtree. */
  ghost predicate IsCopy(t: Table, t': Table, src: Id, parent: Id, name: string, iso: map<Id, Id>) {
    CopyPart(t, t', src, parent, name, iso) && iso.Keys == TrashSet(t, t[src].owner, src)
  }

  // ---------------------------------------------------------------- steps

  datatype Op =
    | Create(id: Id, node: Node)
    | Rename(id: Id, name: string)
    | Star(id: Id, starred: bool)
    | Move(id: Id, parent: Id)
    | Copy(id: Id, parent: Id, name: string, iso: map<Id, Id>)
    | Trash(id: Id)
    | Restore(id: Id)
    | Purge(id: Id)
    | EmptyTrash

  predicate LiveRow(t: Table, u: User, id: Id) {
    id in t && t[id].owner == u && t[id].Live()
  }

  predicate Fits(q: int, used: nat, extra: nat) {
    q <= 0 || used + extra <= q
  }

  /** One successful call by user u at time now, under quota q (q <= 0: unlimited). */
  ghost predicate Step(q: int, t: Table, u: User, now: nat, op: Op, t': Table) {
    match op
    case Create(id, n) =>
      && id != ROOT && id !in t && n.owner == u && n.Live() && Target(t, u, n.parent)
      && (n.kind == File ==> Fits(q, LiveTotal(t, u), n.size))
      && t' == t[id := n]
    case Rename(id, name) => LiveRow(t, u, id) && t' == t[id := t[id].(name := name)]
    case Star(id, b) => LiveRow(t, u, id) && t' == t[id := t[id].(starred := b)]
    case Move(id, p) =>
      LiveRow(t, u, id) && Target(t, u, p) && !Under(t, id, p) && t' == t[id := t[id].(parent := p)]
    case Copy(id, p, name, iso) =>
      && LiveRow(t, u, id) && Target(t, u, p)
      && (t[id].kind == Folder ==> !Under(t, id, p))
      && Fits(q, LiveTotal(t, u), SubtreeBytes(t, u, id, true))
      && IsCopy(t, t', id, p, name, iso)
    case Trash(id) => LiveRow(t, u, id) && t' == Trashed(t, u, id, now)
    case Restore(id) =>
      && id in t && t[id].owner == u && !t[id].Live()
      && Fits(q, LiveTotal(t, u), SubtreeBytes(t, u, id, false))
      && t' == Restored(t, u, id)
    case Purge(id) =>
      id in t && t[id].owner == u && t' == Without(t, Subtree(View(t, u, false), id))
    case EmptyTrash => t' == Without(t, Cascade(t, TrashOf(t, u)))
  }

  // ---------------------------------------------------------------- the forest

  lemma SameParentsForest(t: Table, t': Table)
    requires Forest(t) && t.Keys == t'.Keys
    requires forall x | x in t :: t'[x].parent == t[x].parent && t'[x].kind == t[x].kind && t'[x].owner == t[x].owner
    ensures Forest(t')
  {
    var rank :| Ranked(t, rank);
    assert Ranked(t', rank);
  }

  lemma CreateForest(t: Table, id: Id, n: Node)
    requires Forest(t) && id != ROOT && id !in t && Target(t, n.owner, n.parent)
    ensures Forest(t[id := n])
  {
    var rank :| Ranked(t, rank);
    var r := if n.parent in t then rank[n.parent] + 1 else 0;
    assert Ranked(t[id := n], rank[id := r]) by {
      forall x | x in t ensures t[x].parent != id {}
    }
  }

  /** The guard's negation is exactly what re-hanging a subtree needs to stay acyclic. */
  lemma MoveForest(t: Table, id: Id, p: Id)
    requires Forest(t) && id in t && Target(t, t[id].owner, p) && !Under(t, id, p)
    ensures Forest(t[id := t[id].(parent := p)])
  {
    var t' := t[id := t[id].(parent := p)];
    var rank :| Ranked(t, rank);
    var base := if p in t then rank[p] + 1 else 0;
    var rank' := map x | x in t :: if Under(t, id, x) then rank[x] + base else rank[x];
    forall x | x in t && t'[x].parent in t ensures rank'[t'[x].parent] < rank'[x] {
      UnderStep(t, id, x);
    }
    assert Ranked(t', rank');
  }

  /** Moving below one's own subtree would close a cycle. */
  lemma MoveIntoSubtreeBreaksForest(t: Table, id: Id, p: Id)
    requires Forest(t) && id in t && Under(t, id, p)
    ensures !Acyclic(t[id := t[id].(parent := p)])
  {
    var t' := t[id := t[id].(parent := p)];
    var k: nat :| Climb(t, p, k) == id;
    if Acyclic(t') {
      var j := ClimbSameUntil(t, t', p, id, k);
      assert Climb(t', id, j + 1) == Climb(t', p, j);
      NoCycle(t', id, j + 1);
    }
  }

  /** Rewriting the parent of id does not change the climb up to its first arrival at id. */
  lemma {:induction false} ClimbSameUntil(t: Table, t': Table, x: Id, id: Id, k: nat) returns (j: nat)
    requires id in t && t'.Keys == t.Keys && (forall y | y in t && y != id :: t'[y] == t[y])
    requires ROOT !in t && Climb(t, x, k) == id
    ensures Climb(t', x, j) == id
    decreases k
  {
    if x == id {
      j := 0;
    } else {
      j := ClimbSameUntil(t, t', t[x].parent, id, k - 1);
      j := j + 1;
    }
  }

  lemma WithoutForest(t: Table, s: set<Id>)
    requires Forest(t)
    requires forall x | x in t && t[x].parent in s :: x in s
    requires ROOT !in s
    ensures Forest(Without(t, s))
  {
    var rank :| Ranked(t, rank);
    assert Ranked(Without(t, s), rank);
  }

  lemma PurgeClosed(t: Table, u: User, id: Id)
    requires Forest(t) && id in t && t[id].owner == u
    ensures Subtree(View(t, u, false), id) == Subtree(t, id)
    ensures forall x | x in t && t[x].parent in Subtree(t, id) :: x in Subtree(t, id)
  {
    forall x | x in t
      ensures Under(View(t, u, false), id, x) <==> Under(t, id, x)
      ensures t[x].parent in Subtree(t, id) ==> Under(t, id, x)
    {
      ViewUnder(t, u, id, x);
      UnderStep(t, id, x);
    }
  }

  lemma CascadeClosed(t: Table, s: set<Id>)
    requires Forest(t)
    ensures forall x | x in t && t[x].parent in Cascade(t, s) :: x in Cascade(t, s)
    ensures s * t.Keys <= Cascade(t, s)
  {
    forall x | x in t && t[x].parent in Cascade(t, s) ensures x in Cascade(t, s) {
      var r :| r in s && Under(t, r, t[x].parent);
      UnderStep(t, r, x);
    }
    forall x | x in s && x in t ensures x in Cascade(t, s) { UnderRefl(t, x); }
  }

  /** A copied row keeps the owner of its source. */
  lemma TrashSetOwner(t: Table, u: User, id: Id)
    ensures forall x | x in TrashSet(t, u, id) :: x in t && t[x].owner == u && t[x].Live()
  {
  }

  /** What a copied row's parent is, read off the new table. */
  lemma CopiedParent(t: Table, t': Table, src: Id, p: Id, name: string, iso: map<Id, Id>, x: Id)
    requires ParentsOk(t) && CopyPart(t, t', src, p, name, iso) && x in iso
    ensures x in t && t[x].owner == t[src].owner && t[x].Live()
    ensures iso[x] in t' && t'[iso[x]].owner == t[x].owner && t'[iso[x]].kind == t[x].kind && t'[iso[x]].Live()
    ensures Weight(t'[iso[x]]) == Weight(t[x])
    ensures x == src ==> t'[iso[x]].parent == p
    ensures x != src ==> t[x].parent in iso && t[x].parent in t && t'[iso[x]].parent == iso[t[x].parent]
  {
    TrashSetOwner(t, t[src].owner, src);
    assert CopiedRow(t, t', src, p, name, iso, x);
  }

  lemma CopyParents(t: Table, t': Table, src: Id, p: Id, name: string, iso: map<Id, Id>)
    requires ParentsOk(t) && CopyPart(t, t', src, p, name, iso) && Target(t, t[src].owner, p)
    ensures ParentsOk(t')
  {
    forall y | y in t' && y !in t
      ensures t'[y].parent == ROOT || (t'[y].parent in t' && t'[t'[y].parent].kind == Folder
                                       && t'[t'[y].parent].owner == t'[y].owner)
    {
      var x :| x in iso && iso[x] == y;
      CopiedParent(t, t', src, p, name, iso, x);
      if x != src {
        CopiedParent(t, t', src, p, name, iso, t[x].parent);
      }
    }
  }

  ghost function Inverse(iso: map<Id, Id>, y: Id): Id
    requires y in iso.Values
  {
    var x :| x in iso && iso[x] == y; x
  }

  /** A copied row ranks base above its source. */
  ghost function CopyRank(rank: map<Id, nat>, iso: map<Id, Id>, base: nat): map<Id, nat>
    requires iso.Keys <= rank.Keys
  {
    rank + map y | y in iso.Values :: base + rank[Inverse(iso, y)]
  }

  lemma CopyRankDrops(t: Table, t': Table, src: Id, p: Id, name: string, iso: map<Id, Id>,
                      rank: map<Id, nat>, base: nat, y: Id)
    requires ParentsOk(t) && Ranked(t, rank) && CopyPart(t, t', src, p, name, iso) && Target(t, t[src].owner, p)
    requires p in t ==> rank[p] < base
    requires y in iso.Values && y in t' && t'[y].parent in t'
    ensures t'[y].parent in CopyRank(rank, iso, base)
    ensures CopyRank(rank, iso, base)[t'[y].parent] < CopyRank(rank, iso, base)[y]
  {
    var x := Inverse(iso, y);
    CopiedParent(t, t', src, p, name, iso, x);
    if x == src {
      assert p in t;
      assert p !in iso.Values;
    } else {
      assert Inverse(iso, iso[t[x].parent]) == t[x].parent;
    }
  }

  lemma CopyForest(t: Table, t': Table, src: Id, p: Id, name: string, iso: map<Id, Id>)
    requires Forest(t) && CopyPart(t, t', src, p, name, iso) && Target(t, t[src].owner, p)
    ensures Forest(t')
  {
    var rank :| Ranked(t, rank);
    var base := if p in t then rank[p] + 1 else 0;
    var rank' := CopyRank(rank, iso, base);
    forall y | y in t' && t'[y].parent in t'
      ensures t'[y].parent in rank' && rank'[t'[y].parent] < rank'[y]
    {
      if y in iso.Values {
        CopyRankDrops(t, t', src, p, name, iso, rank, base, y);
      } else {
        assert y in t && t'[y] == t[y] && t[y].parent in t;
      }
    }
    assert Ranked(t', rank');
    CopyParents(t, t', src, p, name, iso);
  }

  /** Every step keeps the forest. */
  lemma StepKeepsForest(q: int, t: Table, u: User, now: nat, op: Op, t': Table)
    requires Forest(t) && Step(q, t, u, now, op, t')
    ensures Forest(t')
  {
    match op
    case Create(id, n) => CreateForest(t, id, n);
    case Move(id, p) => MoveForest(t, id, p);
    case Copy(id, p, name, iso) => CopyForest(t, t', id, p, name, iso);
    case Purge(id) => PurgeClosed(t, u, id); WithoutForest(t, Subtree(View(t, u, false), id));
    case EmptyTrash => CascadeClosed(t, TrashOf(t, u)); WithoutForest(t, Cascade(t, TrashOf(t, u)));
    case _ => SameParentsForest(t, t');
  }

  // ---------------------------------------------------------------- the trash

  /** Below a folder trashed at time T every row is trashed, at T or earlier. */
  ghost predicate TrashInv(t: Table) {
    forall x {:trigger t[x].parent} | x in t && t[x].parent in t && t[t[x].parent].deleted.Some? ::
      t[x].deleted.Some? && t[x].deleted.value <= t[t[x].parent].deleted.value
  }

  ghost predicate StampedBy(t: Table, now: nat) {
    forall x | x in t && t[x].deleted.Some? :: t[x].deleted.value <= now
  }

  /** The invariant carried down a whole subtree. */
  lemma {:induction false} StampsBelow(t: Table, root: Id, x: Id, k: nat)
    requires Forest(t) && TrashInv(t) && root in t && x in t && t[root].deleted.Some?
    requires Climb(t, x, k) == root
    ensures t[x].deleted.Some? && t[x].deleted.value <= t[root].deleted.value
    decreases k
  {
    if k > 0 {
      StampsBelow(t, root, t[x].parent, k - 1);
    }
  }

  lemma TrashedBelow(t: Table, root: Id, x: Id)
    requires Forest(t) && TrashInv(t) && Under(t, root, x) && t[root].deleted.Some?
    ensures t[x].deleted.Some? && t[x].deleted.value <= t[root].deleted.value
  {
    var k: nat :| Climb(t, x, k) == root;
    StampsBelow(t, root, x, k);
  }

  lemma TrashKeepsInv(t: Table, u: User, id: Id, now: nat)
    requires Forest(t) && TrashInv(t) && StampedBy(t, now) && LiveRow(t, u, id)
    ensures TrashInv(Trashed(t, u, id, now)) && StampedBy(Trashed(t, u, id, now), now)
  {
    var v := View(t, u, true);
    forall x | x in t && t[x].parent in TrashSet(t, u, id) && t[x].Live()
      ensures x in TrashSet(t, u, id)
    {
      UnderStep(v, id, x);
    }
  }

  /**
   Though its query passes through live rows only, Trash reaches every live row below id in a table
   with the invariant, and stamps nothing else.
   */
  lemma TrashedExact(t: Table, u: User, id: Id, now: nat)
    requires Forest(t) && TrashInv(t) && LiveRow(t, u, id)
    ensures Trashed(t, u, id, now).Keys == t.Keys
    ensures forall x | x in t ::
      Trashed(t, u, id, now)[x] ==
        if Under(t, id, x) && t[x].deleted == None then t[x].(deleted := Some(now)) else t[x]
  {
    forall x | x in t ensures x in TrashSet(t, u, id) <==> Under(t, id, x) && t[x].deleted == None {
      LiveSubtree(t, u, id, x);
    }
  }

  lemma LiveSubtree(t: Table, u: User, id: Id, x: Id)
    requires Forest(t) && TrashInv(t) && LiveRow(t, u, id) && x in t
    ensures x in TrashSet(t, u, id) <==> Under(t, id, x) && t[x].deleted == None
  {
    if x in TrashSet(t, u, id) {
      LiveUnder(t, u, id, x);
    } else if Under(t, id, x) && t[x].Live() {
      var k: nat :| Climb(t, x, k) == id;
      LiveReached(t, u, id, x, k);
    }
  }

  lemma {:induction false} LiveReached(t: Table, u: User, id: Id, x: Id, k: nat)
    requires Forest(t) && TrashInv(t) && LiveRow(t, u, id)
    requires x in t && t[x].Live() && Climb(t, x, k) == id
    ensures x in TrashSet(t, u, id)
    decreases k
  {
    UnderRefl(View(t, u, true), id);
    if k > 0 {
      LiveReached(t, u, id, t[x].parent, k - 1);
      UnderStep(View(t, u, true), id, x);
    }
  }

  /** Restore clears the stamp of the rows below id that carry the stamp of id. */
  lemma RestoredExact(t: Table, u: User, id: Id)
    requires Forest(t) && id in t && t[id].owner == u
    ensures Restored(t, u, id).Keys == t.Keys
    ensures forall x | x in t ::
      Restored(t, u, id)[x] ==
        if Under(t, id, x) && t[x].deleted == t[id].deleted then t[x].(deleted := None) else t[x]
  {
    PurgeClosed(t, u, id);
    assert forall x | x in t :: Under(t, id, x) <==> x in Subtree(t, id);
  }

  /**
   Emptying the trash leaves no trashed row of the user, and under the invariant every row that was
   live or another user's.
   */
  lemma EmptiedExact(t: Table, u: User)
    requires Forest(t)
    ensures var t' := Without(t, Cascade(t, TrashOf(t, u)));
      && (forall x | x in t' :: t'[x].owner == u ==> t'[x].deleted == None)
      && (TrashInv(t) ==> forall x | x in t && (t[x].deleted == None || t[x].owner != u) :: x in t' && t'[x] == t[x])
  {
    CascadeClosed(t, TrashOf(t, u));
    if TrashInv(t) {
      EmptyTrashExact(t, u);
    }
  }

  /** Restore gives back an upward-closed part: the parent of a restored row is restored with it. */
  lemma RestoreUpwardClosed(t: Table, u: User, id: Id, x: Id)
    requires Forest(t) && TrashInv(t) && id in t && t[id].owner == u && !t[id].Live()
    requires x in RestoreSet(t, u, id) && x != id
    ensures t[x].parent in RestoreSet(t, u, id)
  {
    var p := t[x].parent;
    ViewUnder(t, u, id, x);
    UnderStep(t, id, x);
    ViewUnder(t, u, id, p);
    TrashedBelow(t, id, p);
    assert t[x].deleted.value <= t[p].deleted.value;
  }

  /** Restore keeps the trash invariant exactly when the row's parent is not itself in the trash. */
  lemma RestoreKeepsInvIff(t: Table, u: User, id: Id)
    requires Forest(t) && TrashInv(t) && id in t && t[id].owner == u && !t[id].Live()
    ensures TrashInv(Restored(t, u, id)) <==> Listed(t, id)
  {
    var t' := Restored(t, u, id);
    ViewUnder(t, u, id, id);
    UnderRefl(t, id);
    assert id in RestoreSet(t, u, id);
    if Listed(t, id) {
      forall x | x in t && t[x].parent in t && t'[t[x].parent].deleted.Some?
        ensures t'[x].deleted.Some? && t'[x].deleted.value <= t'[t[x].parent].deleted.value
      {
        if x in RestoreSet(t, u, id) && x != id {
          RestoreUpwardClosed(t, u, id, x);
        }
      }
    } else {
      ParentNotRestored(t, u, id);
      assert t'[t[id].parent].deleted.Some? && t'[id].deleted.None?;
    }
  }

  /** What lies under a row is not above it. */
  lemma ParentNotRestored(t: Table, u: User, id: Id)
    requires Forest(t) && id in t && t[id].owner == u && t[id].parent in t
    ensures t[id].parent !in RestoreSet(t, u, id)
  {
    var p := t[id].parent;
    if p in RestoreSet(t, u, id) {
      ViewUnder(t, u, id, p);
      var k: nat :| Climb(t, p, k) == id;
      assert Climb(t, id, 1) == p by { assert Climb(t, p, 0) == p; }
      ClimbAdds(t, id, 1, k);
      NoCycle(t, id, k + 1);
    }
  }

  /** EmptyTrash deletes the trashed rows and, by cascade, nothing else. */
  lemma EmptyTrashExact(t: Table, u: User)
    requires Forest(t) && TrashInv(t)
    ensures Cascade(t, TrashOf(t, u)) == TrashOf(t, u)
  {
    var s := TrashOf(t, u);
    forall x | x in Cascade(t, s) ensures x in s {
      var r :| r in s && Under(t, r, x);
      TrashedBelow(t, r, x);
      ViewUnder(t, u, r, x);
    }
    CascadeClosed(t, s);
  }

  lemma CopyKeepsInv(t: Table, t': Table, src: Id, p: Id, name: string, iso: map<Id, Id>)
    requires Forest(t) && TrashInv(t) && CopyPart(t, t', src, p, name, iso) && Target(t, t[src].owner, p)
    ensures TrashInv(t') && forall y | y in t' && y !in t :: t'[y].Live()
  {
    TrashSetOwner(t, t[src].owner, src);
    forall y | y in t' && y !in t
      ensures t'[y].Live() && (t'[y].parent in t' ==> t'[t'[y].parent].Live())
    {
      var x :| x in iso && iso[x] == y;
      CopiedParent(t, t', src, p, name, iso, x);
      if x != src {
        CopiedParent(t, t', src, p, name, iso, t[x].parent);
      }
    }
  }

  /** Every step that restores only listed rows keeps the trash invariant. */
  lemma StepKeepsTrash(q: int, t: Table, u: User, now: nat, op: Op, t': Table)
    requires Forest(t) && TrashInv(t) && StampedBy(t, now) && Step(q, t, u, now, op, t')
    requires op.Restore? ==> Listed(t, op.id)
    ensures TrashInv(t') && StampedBy(t', now)
  {
    match op
    case Copy(id, p, name, iso) => CopyKeepsInv(t, t', id, p, name, iso);
    case Trash(id) => TrashKeepsInv(t, u, id, now);
    case Restore(id) => RestoreKeepsInvIff(t, u, id);
    case Purge(id) => PurgeClosed(t, u, id);
    case EmptyTrash => EmptyTrashExact(t, u);
    case _ =>
  }

  /**
   Trash followed by Restore gives the table back, exactly when no row of the subtree already
   carried the new stamp.
   */
  lemma RestoreUndoesTrashIff(t: Table, u: User, id: Id, now: nat)
    requires Forest(t) && LiveRow(t, u, id)
    ensures Restored(Trashed(t, u, id, now), u, id) == t
       <==> forall x | x in Subtree(t, id) :: t[x].deleted != Some(now)
  {
    var t1 := Trashed(t, u, id, now);
    var t2 := Restored(t1, u, id);
    var live := TrashSet(t, u, id);
    UnderRefl(View(t, u, true), id);
    SubtreeSameParents(View(t, u, false), View(t1, u, false), id);
    PurgeClosed(t, u, id);
    forall x | x in live ensures x in Subtree(t, id) {
      LiveUnder(t, u, id, x);
    }
    assert forall x | x in t :: x in RestoreSet(t1, u, id) <==>
      x in live || (x in Subtree(t, id) && t[x].deleted == Some(now));
    forall x | x in t
      ensures t2[x] == t[x] <==> !(x in Subtree(t, id) && t[x].deleted == Some(now))
    {
      if x in live {
        assert t[x].(deleted := None) == t[x];
      }
    }
    if t2 != t {
      var x :| x in t && t2[x] != t[x];
    }
  }

  /** The live subtree is part of the subtree. */
  lemma LiveUnder(t: Table, u: User, id: Id, x: Id)
    requires Forest(t) && Under(View(t, u, true), id, x)
    ensures Under(t, id, x)
  {
    var k: nat :| Climb(View(t, u, true), x, k) == id;
    SubviewClimb(t, View(t, u, true), x, k);
  }

  lemma {:induction false} SubviewClimb(t: Table, v: Table, x: Id, k: nat)
    requires ROOT !in t && (forall y | y in v :: y in t && v[y] == t[y])
    requires x in v && Climb(v, x, k) in v
    ensures Climb(t, x, k) == Climb(v, x, k)
    decreases k
  {
    if k > 0 {
      SubviewClimb(t, v, t[x].parent, k - 1);
    }
  }

  /**
   A row just restored is taken by the next EmptyTrash, through the cascade from a trashed row above
   it, exactly when the trash view did not list it.
   */
  lemma RestoredRowLostIff(t: Table, u: User, id: Id)
    requires Forest(t) && TrashInv(t) && id in t && t[id].owner == u && !t[id].Live()
    ensures var t' := Restored(t, u, id);
      t'[id].Live() && (id in Cascade(t', TrashOf(t', u)) <==> !Listed(t, id))
  {
    var t' := Restored(t, u, id);
    ViewUnder(t, u, id, id);
    UnderRefl(t, id);
    SameParentsForest(t, t');
    if Listed(t, id) {
      RestoreKeepsInvIff(t, u, id);
      EmptyTrashExact(t', u);
    } else {
      var p := t[id].parent;
      ParentNotRestored(t, u, id);
      assert p in TrashOf(t', u);
      UnderRefl(t', p);
      UnderStep(t', p, id);
      assert Under(t', p, id);
    }
  }

  /**
   A row trashed on its own lies under a trashed folder: restoring the row (which the trash view
   does not list) and then emptying the trash cascades the DELETE to the row just restored.
   */
  lemma RestoreUnlistedLosesRow()
    ensures exists t: Table, u: User, id: Id ::
      && Forest(t) && TrashInv(t) && id in t && t[id].owner == u && !t[id].Live() && !Listed(t, id)
      && id in Restored(t, u, id) && Restored(t, u, id)[id].Live()
      && id in Cascade(Restored(t, u, id), TrashOf(Restored(t, u, id), u))
  {
    var folder := Node(7, ROOT, Folder, "docs", ROOT, 0, false, Some(20));
    var file := Node(7, 1, File, "a.txt", 9, 3, false, Some(10));
    var t: Table := map[1 := folder, 2 := file];
    assert Ranked(t, map[1 := 0, 2 := 1]);
    UnderRefl(t, 2);
    ViewUnder(t, 7, 2, 2);
    assert 2 in RestoreSet(t, 7, 2);
    RestoredRowLostIff(t, 7, 2);
  }
}
