/** Facts about whole runs of drive operations, and the byte accounting of single steps. */
module DriveRuns {
  import opened DriveTree
  import opened DriveOps

  // ---------------------------------------------------------------- byte accounting

  lemma TotalSame(t: Table, t': Table, v: User)
    requires View(t', v, true).Keys == View(t, v, true).Keys
    requires forall x | x in View(t, v, true) :: Weight(t'[x]) == Weight(t[x])
    ensures LiveTotal(t', v) == LiveTotal(t, v)
  {
    SumSame(t, t', View(t, v, true).Keys);
  }

  lemma TotalShrinks(t: Table, t': Table, v: User)
    requires View(t', v, true).Keys <= View(t, v, true).Keys
    requires forall x | x in View(t', v, true) :: Weight(t'[x]) == Weight(t[x])
    ensures LiveTotal(t', v) <= LiveTotal(t, v)
  {
    SumSame(t, t', View(t', v, true).Keys);
    SumMonotone(t, View(t', v, true).Keys, View(t, v, true).Keys);
  }

  /** Adding live rows adds their weight. */
  lemma TotalGrows(t: Table, t': Table, v: User, added: set<Id>)
    requires View(t', v, true).Keys == View(t, v, true).Keys + added
    requires View(t, v, true).Keys !! added
    requires forall x | x in View(t, v, true) :: Weight(t'[x]) == Weight(t[x])
    ensures added <= t'.Keys
    ensures LiveTotal(t', v) == LiveTotal(t, v) + SumOver(t', added)
  {
    assert added <= View(t', v, true).Keys;
    SumUnion(t', View(t, v, true).Keys, added);
    SumSame(t, t', View(t, v, true).Keys);
  }

  lemma CopiedView(t: Table, t': Table, src: Id, p: Id, name: string, iso: map<Id, Id>, v: User)
    requires ParentsOk(t) && CopyPart(t, t', src, p, name, iso)
    ensures View(t', v, true).Keys == View(t, v, true).Keys + (if v == t[src].owner then iso.Values else {})
  {
    forall y | y in iso.Values ensures y in t' && t'[y].owner == t[src].owner && t'[y].Live() {
      var x :| x in iso && iso[x] == y;
      CopiedParent(t, t', src, p, name, iso, x);
    }
  }

  /** A copied part raises its owner's usage by the weight of the rows copied, and nobody else's. */
  lemma CopyTotal(t: Table, t': Table, src: Id, p: Id, name: string, iso: map<Id, Id>, v: User)
    requires ParentsOk(t) && CopyPart(t, t', src, p, name, iso)
    ensures iso.Keys <= t.Keys
    ensures LiveTotal(t', v) == LiveTotal(t, v) + (if v == t[src].owner then SumOver(t, iso.Keys) else 0)
  {
    CopiedView(t, t', src, p, name, iso, v);
    if v == t[src].owner {
      forall x | x in iso ensures iso[x] in t' && Weight(t'[iso[x]]) == Weight(t[x]) {
        CopiedParent(t, t', src, p, name, iso, x);
      }
      assert iso.Values == set x | x in iso.Keys :: iso[x];
      SumRename(t, t', iso.Keys, iso);
      TotalGrows(t, t', v, iso.Values);
    } else {
      TotalSame(t, t', v);
    }
  }

  /** Copy raises usage by exactly SubtreeSize. */
  lemma CopyRaisesBySubtreeSize(t: Table, t': Table, src: Id, p: Id, name: string, iso: map<Id, Id>)
    requires Forest(t) && IsCopy(t, t', src, p, name, iso)
    ensures LiveTotal(t', t[src].owner) == LiveTotal(t, t[src].owner) + SubtreeBytes(t, t[src].owner, src, true)
  {
    CopyTotal(t, t', src, p, name, iso, t[src].owner);
  }

  lemma RestoredView(t: Table, u: User, id: Id, v: User)
    requires ParentsOk(t) && id in t && t[id].owner == u && !t[id].Live()
    ensures View(Restored(t, u, id), v, true).Keys
         == View(t, v, true).Keys + (if v == u then RestoreSet(t, u, id) else {})
    ensures forall x | x in RestoreSet(t, u, id) :: x in t && !t[x].Live()
  {
  }

  /** Restore adds what it clears, at most SubtreeSizeAny. */
  lemma RestoreTotal(t: Table, u: User, id: Id, v: User)
    requires ParentsOk(t) && id in t && t[id].owner == u && !t[id].Live()
    ensures RestoreSet(t, u, id) <= t.Keys
    ensures LiveTotal(Restored(t, u, id), v) ==
      LiveTotal(t, v) + (if v == u then SumOver(t, RestoreSet(t, u, id)) else 0)
    ensures SumOver(t, RestoreSet(t, u, id)) <= SubtreeBytes(t, u, id, false)
  {
    var t' := Restored(t, u, id);
    var r := RestoreSet(t, u, id);
    RestoredView(t, u, id, v);
    SumMonotone(t, r, Subtree(View(t, u, false), id));
    if v == u {
      TotalGrows(t, t', u, r);
      SumSame(t, t', r);
    } else {
      TotalSame(t, t', v);
    }
  }

  /** With a quota set, no step leaves any user above the larger of his usage before and the quota. */
  lemma StepKeepsQuota(q: int, t: Table, u: User, now: nat, op: Op, t': Table, v: User)
    requires Forest(t) && Step(q, t, u, now, op, t') && q > 0
    ensures LiveTotal(t', v) <= LiveTotal(t, v) || LiveTotal(t', v) <= q
  {
    match op
    case Create(id, n) =>
      if v == u {
        TotalGrows(t, t', v, {id});
        SumPick(t', {id}, id);
        assert {id} - {id} == {};
        assert SumOver(t', {}) == 0;
      } else {
        TotalSame(t, t', v);
      }
    case Copy(id, p, name, iso) => CopyTotal(t, t', id, p, name, iso, v);
    case Restore(id) => RestoreTotal(t, u, id, v);
    case Move(id, p) => TotalSame(t, t', v);
    case Rename(id, name) => TotalSame(t, t', v);
    case Star(id, b) => TotalSame(t, t', v);
    case Trash(id) => TotalShrinks(t, t', v);
    case Purge(id) => TotalShrinks(t, t', v);
    case EmptyTrash => TotalShrinks(t, t', v);
  }

  // ---------------------------------------------------------------- runs

  datatype Call = Call(user: User, now: nat, op: Op)

  /** tables[i] is the table before call i; the clock never goes back. */
  ghost predicate Run(q: int, calls: seq<Call>, tables: seq<Table>) {
    && |tables| == |calls| + 1
    && tables[0] == map[]
    && (forall i, j | 0 <= i < j < |calls| :: calls[i].now <= calls[j].now)
    && (forall i | 0 <= i < |calls| :: Step(q, tables[i], calls[i].user, calls[i].now, calls[i].op, tables[i + 1]))
  }

  /** Every restore in the run is of a row the trash view lists at that moment. */
  ghost predicate RestoresListed(calls: seq<Call>, tables: seq<Table>)
    requires |tables| == |calls| + 1
  {
    forall i | 0 <= i < |calls| && calls[i].op.Restore? :: Listed(tables[i], calls[i].op.id)
  }

  lemma {:induction false} RunForest(q: int, calls: seq<Call>, tables: seq<Table>, i: nat)
    requires Run(q, calls, tables) && i <= |calls|
    ensures Forest(tables[i])
  {
    if i == 0 {
      assert Ranked(tables[0], map[]);
    } else {
      RunForest(q, calls, tables, i - 1);
      StepKeepsForest(q, tables[i - 1], calls[i - 1].user, calls[i - 1].now, calls[i - 1].op, tables[i]);
    }
  }

  lemma {:induction false} RunTrash(q: int, calls: seq<Call>, tables: seq<Table>, i: nat)
    requires Run(q, calls, tables) && RestoresListed(calls, tables) && i <= |calls|
    ensures TrashInv(tables[i])
    ensures i < |calls| ==> StampedBy(tables[i], calls[i].now)
  {
    RunForest(q, calls, tables, i);
    if i > 0 {
      RunForest(q, calls, tables, i - 1);
      RunTrash(q, calls, tables, i - 1);
      StepKeepsTrash(q, tables[i - 1], calls[i - 1].user, calls[i - 1].now, calls[i - 1].op, tables[i]);
    }
  }

  /**
   In every table of such a run no live row sits below a trashed one, and emptying the trash
   there deletes exactly the trashed rows: no folder above a live row goes.
   */
  lemma RunTrashSafe(q: int, calls: seq<Call>, tables: seq<Table>, i: nat, u: User)
    requires Run(q, calls, tables) && RestoresListed(calls, tables) && i <= |calls|
    ensures forall x, y :: Under(tables[i], x, y) && tables[i][y].Live() ==> tables[i][x].Live()
    ensures Cascade(tables[i], TrashOf(tables[i], u)) == TrashOf(tables[i], u)
  {
    RunForest(q, calls, tables, i);
    RunTrash(q, calls, tables, i);
    EmptyTrashExact(tables[i], u);
    forall x, y | Under(tables[i], x, y) && tables[i][y].Live() ensures tables[i][x].Live() {
      if !tables[i][x].Live() {
        TrashedBelow(tables[i], x, y);
      }
    }
  }

  /** In a run under a quota nobody's live bytes ever exceed it. */
  lemma {:induction false} RunQuota(q: int, calls: seq<Call>, tables: seq<Table>, i: nat, v: User)
    requires Run(q, calls, tables) && q > 0 && i <= |calls|
    ensures LiveTotal(tables[i], v) <= q
  {
    if i == 0 {
      assert View(tables[0], v, true).Keys == {};
      assert SumOver(tables[0], {}) == 0;
    } else {
      RunQuota(q, calls, tables, i - 1, v);
      RunForest(q, calls, tables, i - 1);
      StepKeepsQuota(q, tables[i - 1], calls[i - 1].user, calls[i - 1].now, calls[i - 1].op, tables[i], v);
    }
  }
}
