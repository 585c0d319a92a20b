/**
 The table drive_nodes as a parent-pointer forest: climbing to the root, subtrees as the
 recursive queries of the repository compute them, and the byte totals over row sets.
 */
module DriveTree {
  import opened Options

  type Id = nat
  type User = nat

  // The empty parent id, stored as SQL NULL.
  const ROOT: Id := 0

  datatype Kind = File | Folder

  // One row of drive_nodes. A file without bytes in the blob store has blob == ROOT.
  datatype Node = Node(owner: User, parent: Id, kind: Kind, name: string, blob: Id,
                       size: nat, starred: bool, deleted: Option<nat>)
  {
    predicate Live() { deleted.None? }
  }

  type Table = map<Id, Node>

  // ---------------------------------------------------------------- climbing

  /** The id reached from x after k parent steps; ids outside the table lead to ROOT. */
  ghost function Climb(t: Table, x: Id, k: nat): Id
    decreases k
  {
    if k == 0 then x
    else if x in t then Climb(t, t[x].parent, k - 1)
    else ROOT
  }

  /** x is in the subtree rooted at root, root included. */
  ghost predicate Under(t: Table, root: Id, x: Id) {
    root in t && x in t && exists k: nat :: Climb(t, x, k) == root
  }

  /** What WITH RECURSIVE subtree collects when its rows are restricted to the table t. */
  ghost function Subtree(t: Table, root: Id): set<Id> {
    set x | x in t && Under(t, root, x)
  }

  /** The rows a query sees: one user's rows, and only the live ones when liveOnly. */
  function View(t: Table, u: User, liveOnly: bool): Table {
    map x | x in t && t[x].owner == u && (liveOnly ==> t[x].Live()) :: t[x]
  }

  // ---------------------------------------------------------------- forests

  /** rank strictly drops along every parent pointer that stays in the table. */
  ghost predicate Ranked(t: Table, rank: map<Id, nat>) {
    && t.Keys <= rank.Keys
    && forall x {:trigger t[x].parent} | x in t :: t[x].parent in t ==> rank[t[x].parent] < rank[x]
  }

  ghost predicate Acyclic(t: Table) {
    exists rank: map<Id, nat> :: Ranked(t, rank)
  }

  /** Parents are folders of the same owner, or the root. */
  ghost predicate ParentsOk(t: Table) {
    && ROOT !in t
    && forall x {:trigger t[x].parent} | x in t :: t[x].parent == ROOT ||
         (t[x].parent in t && t[t[x].parent].kind == Folder && t[t[x].parent].owner == t[x].owner)
  }

  ghost predicate Forest(t: Table) {
    ParentsOk(t) && Acyclic(t)
  }

  lemma {:induction false} RankBoundsClimb(t: Table, rank: map<Id, nat>, x: Id, k: nat)
    requires Ranked(t, rank) && ROOT !in t
    requires x in t && Climb(t, x, k) in t
    ensures rank[Climb(t, x, k)] + k <= rank[x]
    decreases k
  {
    if k > 0 {
      RankBoundsClimb(t, rank, t[x].parent, k - 1);
    }
  }

  lemma {:induction false} OutsideStaysOutside(t: Table, x: Id, k: nat)
    requires ROOT !in t && x !in t
    ensures Climb(t, x, k) !in t
  {
  }

  /** No chain of parents ever comes back to where it started. */
  lemma NoCycle(t: Table, x: Id, k: nat)
    requires ROOT !in t && Acyclic(t)
    requires x in t && k > 0
    ensures Climb(t, x, k) != x
  {
    var rank :| Ranked(t, rank);
    if Climb(t, x, k) == x {
      RankBoundsClimb(t, rank, x, k);
    }
  }

  /** Every chain of parents leaves the table. */
  lemma EveryChainEnds(t: Table, x: Id) returns (k: nat)
    requires ROOT !in t && Acyclic(t)
    ensures Climb(t, x, k) !in t
  {
    var rank :| Ranked(t, rank);
    if x !in t {
      k := 0;
    } else {
      k := rank[x] + 1;
      if Climb(t, x, k) in t {
        RankBoundsClimb(t, rank, x, k);
      }
    }
  }

  lemma {:induction false} ClimbAdds(t: Table, x: Id, j: nat, k: nat)
    requires ROOT !in t
    ensures Climb(t, x, j + k) == Climb(t, Climb(t, x, j), k)
    decreases j
  {
    if j > 0 {
      if x in t {
        ClimbAdds(t, t[x].parent, j - 1, k);
      } else {
        assert Climb(t, ROOT, k) == ROOT;
      }
    }
  }

  // ---------------------------------------------------------------- subtrees

  lemma UnderRefl(t: Table, x: Id)
    requires x in t
    ensures Under(t, x, x)
  {
    assert Climb(t, x, 0) == x;
  }

  lemma UnderTrans(t: Table, a: Id, b: Id, c: Id)
    requires ROOT !in t && Under(t, a, b) && Under(t, b, c)
    ensures Under(t, a, c)
  {
    var j: nat :| Climb(t, c, j) == b;
    var k: nat :| Climb(t, b, k) == a;
    ClimbAdds(t, c, j, k);
  }

  /** Membership of a subtree, one parent step at a time. */
  lemma UnderStep(t: Table, root: Id, x: Id)
    requires root in t && x in t && ROOT !in t
    ensures Under(t, root, x) <==> x == root || Under(t, root, t[x].parent)
  {
    if Under(t, root, x) {
      var k: nat :| Climb(t, x, k) == root;
      if k > 0 {
        assert Climb(t, t[x].parent, k - 1) == root;
        if t[x].parent !in t {
          OutsideStaysOutside(t, t[x].parent, k - 1);
        }
      }
    }
    if x == root {
      UnderRefl(t, x);
    } else if Under(t, root, t[x].parent) {
      var k: nat :| Climb(t, t[x].parent, k) == root;
      assert Climb(t, x, k + 1) == root;
    }
  }

  /** A row lies at one depth only below a given root. */
  lemma {:induction false} DepthUnique(t: Table, x: Id, j: nat, k: nat)
    requires ROOT !in t && Acyclic(t) && Climb(t, x, j) in t
    requires Climb(t, x, j) == Climb(t, x, k)
    ensures j == k
  {
    if j < k {
      ClimbAdds(t, x, j, k - j);
      NoCycle(t, Climb(t, x, j), k - j);
    } else if k < j {
      ClimbAdds(t, x, k, j - k);
      NoCycle(t, Climb(t, x, k), j - k);
    }
  }

  /** Two rows above the same row are themselves one above the other. */
  lemma UnderLinear(t: Table, a: Id, b: Id, x: Id)
    requires ROOT !in t && Under(t, a, x) && Under(t, b, x)
    ensures Under(t, a, b) || Under(t, b, a)
  {
    var j: nat :| Climb(t, x, j) == a;
    var k: nat :| Climb(t, x, k) == b;
    if j <= k {
      ClimbAdds(t, x, j, k - j);
    } else {
      ClimbAdds(t, x, k, j - k);
    }
  }

  /** Each row of a subtree other than its root lies below exactly one child of the root. */
  lemma ChildAbove(t: Table, root: Id, x: Id) returns (c: Id)
    requires ROOT !in t && Under(t, root, x) && x != root
    ensures c in t && t[c].parent == root && Under(t, c, x)
  {
    var k: nat :| Climb(t, x, k) == root;
    c := ChildAboveAt(t, root, x, k);
  }

  lemma {:induction false} ChildAboveAt(t: Table, root: Id, x: Id, k: nat) returns (c: Id)
    requires ROOT !in t && root in t && x in t && x != root && Climb(t, x, k) == root
    ensures c in t && t[c].parent == root && Under(t, c, x)
    decreases k
  {
    var p := t[x].parent;
    if p == root {
      c := x;
      UnderRefl(t, x);
    } else {
      c := ChildAboveAt(t, root, p, k - 1);
      UnderStep(t, c, x);
    }
  }

  lemma SiblingsDisjoint(t: Table, root: Id, c: Id, d: Id)
    requires ROOT !in t && Acyclic(t) && root in t
    requires c in t && d in t && c != d && t[c].parent == root && t[d].parent == root
    ensures Subtree(t, c) !! Subtree(t, d)
  {
    if x :| x in Subtree(t, c) && x in Subtree(t, d) {
      UnderLinear(t, c, d, x);
      if Under(t, c, d) {
        SiblingNotAbove(t, root, c, d);
      } else {
        SiblingNotAbove(t, root, d, c);
      }
    }
  }

  lemma SiblingNotAbove(t: Table, root: Id, c: Id, d: Id)
    requires ROOT !in t && Acyclic(t) && root in t
    requires c in t && d in t && c != d && t[c].parent == root && t[d].parent == root
    ensures !Under(t, c, d)
  {
    if Under(t, c, d) {
      UnderStep(t, c, d);
      var k: nat :| Climb(t, root, k) == c;
      assert Climb(t, c, 1) == root by { assert Climb(t, root, 0) == root; }
      ClimbAdds(t, root, k, 1);
      NoCycle(t, root, k + 1);
    }
  }

  lemma {:induction false} ClimbSameParents(t: Table, t': Table, x: Id, k: nat)
    requires t.Keys == t'.Keys
    requires forall y | y in t :: t'[y].parent == t[y].parent
    ensures Climb(t, x, k) == Climb(t', x, k)
    decreases k
  {
    if k > 0 && x in t {
      ClimbSameParents(t, t', t[x].parent, k - 1);
    }
  }

  /** Subtrees depend on the parent column only. */
  lemma SubtreeSameParents(t: Table, t': Table, root: Id)
    requires t.Keys == t'.Keys
    requires forall y | y in t :: t'[y].parent == t[y].parent
    ensures Subtree(t, root) == Subtree(t', root)
  {
    forall x | x in t ensures Under(t, root, x) <==> Under(t', root, x) {
      forall k: nat { ClimbSameParents(t, t', x, k); }
    }
  }

  /** A view is a forest when the table is. */
  lemma ViewAcyclic(t: Table, u: User, liveOnly: bool)
    requires Acyclic(t)
    ensures Acyclic(View(t, u, liveOnly))
  {
    var rank :| Ranked(t, rank);
    assert Ranked(View(t, u, liveOnly), rank);
  }

  lemma {:induction false} ViewClimb(t: Table, u: User, x: Id, k: nat)
    requires ParentsOk(t) && x in t && t[x].owner == u
    ensures Climb(View(t, u, false), x, k) == Climb(t, x, k)
    decreases k
  {
    if k > 0 && t[x].parent in t {
      ViewClimb(t, u, t[x].parent, k - 1);
    }
  }

  /** Owners never mix inside a tree, so restricting a query to one user loses nothing. */
  lemma ViewUnder(t: Table, u: User, root: Id, x: Id)
    requires ParentsOk(t) && root in t && t[root].owner == u
    ensures Under(View(t, u, false), root, x) <==> Under(t, root, x)
  {
    if x in t {
      if t[x].owner == u {
        forall k: nat { ViewClimb(t, u, x, k); }
      } else {
        forall k: nat ensures Climb(t, x, k) != root { ClimbOwner(t, x, k); }
      }
    }
  }

  lemma {:induction false} ClimbOwner(t: Table, x: Id, k: nat)
    requires ParentsOk(t) && x in t
    ensures Climb(t, x, k) in t ==> t[Climb(t, x, k)].owner == t[x].owner
    decreases k
  {
    if k > 0 {
      if t[x].parent in t {
        ClimbOwner(t, t[x].parent, k - 1);
      } else {
        OutsideStaysOutside(t, t[x].parent, k - 1);
      }
    }
  }

  // ---------------------------------------------------------------- byte totals

  /** The bytes a row adds to SUM(size_bytes) ... WHERE kind = 'file'. */
  function Weight(n: Node): nat {
    if n.kind == File then n.size else 0
  }

  ghost function SumOver(t: Table, s: set<Id>): nat
    requires s <= t.Keys
  {
    if s == {} then 0
    else var x :| x in s; Weight(t[x]) + SumOver(t, s - {x})
  }

  lemma {:induction false} SumPick(t: Table, s: set<Id>, x: Id)
    requires s <= t.Keys && x in s
    ensures SumOver(t, s) == Weight(t[x]) + SumOver(t, s - {x})
    decreases s
  {
    var y :| y in s && SumOver(t, s) == Weight(t[y]) + SumOver(t, s - {y});
    if y != x {
      SumPick(t, s - {y}, x);
      SumPick(t, s - {x}, y);
      assert s - {y} - {x} == s - {x} - {y};
    }
  }

  lemma {:induction false} SumUnion(t: Table, a: set<Id>, b: set<Id>)
    requires a <= t.Keys && b <= t.Keys && a !! b
    ensures SumOver(t, a + b) == SumOver(t, a) + SumOver(t, b)
    decreases a
  {
    if a == {} {
      assert a + b == b;
    } else {
      var x :| x in a;
      SumPick(t, a, x);
      SumPick(t, a + b, x);
      assert a + b - {x} == (a - {x}) + b;
      SumUnion(t, a - {x}, b);
    }
  }

  lemma SumMonotone(t: Table, a: set<Id>, b: set<Id>)
    requires b <= t.Keys && a <= b
    ensures SumOver(t, a) <= SumOver(t, b)
  {
    SumUnion(t, a, b - a);
    assert a + (b - a) == b;
  }

  /** Sums agree along a one-to-one renaming of rows that keeps weights. */
  lemma {:induction false} SumRename(t: Table, t': Table, s: set<Id>, f: map<Id, Id>)
    requires s <= t.Keys && s <= f.Keys
    requires forall x | x in s :: f[x] in t' && Weight(t'[f[x]]) == Weight(t[x])
    requires forall x, y | x in s && y in s && f[x] == f[y] :: x == y
    ensures (set x | x in s :: f[x]) <= t'.Keys
    ensures SumOver(t', set x | x in s :: f[x]) == SumOver(t, s)
    decreases s
  {
    var img := set x | x in s :: f[x];
    if s == {} {
      assert img == {};
    } else {
      var x :| x in s;
      var img' := set y | y in s - {x} :: f[y];
      SumRename(t, t', s - {x}, f);
      SumPick(t, s, x);
      assert f[x] in img;
      assert img - {f[x]} == img';
      SumPick(t', img, f[x]);
    }
  }

  lemma SumSame(t: Table, t': Table, s: set<Id>)
    requires s <= t.Keys && s <= t'.Keys
    requires forall x | x in s :: Weight(t'[x]) == Weight(t[x])
    ensures SumOver(t', s) == SumOver(t, s)
  {
    var f := map x | x in s :: x;
    SumRename(t, t', s, f);
    assert (set x | x in s :: f[x]) == s;
  }

  /** TotalSize: the bytes of a user's live files. */
  ghost function LiveTotal(t: Table, u: User): nat {
    SumOver(t, View(t, u, true).Keys)
  }

  /** Row by row: a live file of the user counts with its size, any other row not at all. */
  lemma TotalByRow(t: Table, u: User, x: Id)
    requires x in t
    ensures LiveTotal(t, u) == LiveTotal(t - {x}, u)
      + if t[x].owner == u && t[x].deleted == None && t[x].kind == File then t[x].size else 0
    ensures LiveTotal(map[], u) == 0
  {
    var mine, rest := View(t, u, true).Keys, View(t - {x}, u, true).Keys;
    assert rest == mine - {x};
    SumSame(t, t - {x}, rest);
    if x in mine {
      SumPick(t, mine, x);
    } else {
      assert rest == mine;
    }
    assert View(map[], u, true).Keys == {};
  }

  /** SubtreeSize and SubtreeSizeAny, by the row filter they use. */
  ghost function SubtreeBytes(t: Table, u: User, root: Id, liveOnly: bool): nat {
    SumOver(t, Subtree(View(t, u, liveOnly), root))
  }
}
