/** The drive: node table, blob store and the service calls that change them. */
module DriveStore {
  import opened Options
  import opened DriveTree
  import opened DriveOps
  import opened DriveRuns
  import opened DriveCopy
  import opened DriveOrder
  import Text
  import opened UploadLimit

  datatype Error =
    NotFound | InvalidInput | NameRequired | CircularMove | QuotaExceeded | TooBig | ReadFailed | StoreFailed

  datatype Result<+T> = Success(value: T) | Failure(error: Error)

  const MAX_NAME := 255

  /** cleanName: "" for a name the drive refuses. */
  function CleanName(name: string): (r: string)
    ensures '/' !in r && '\\' !in r && '\0' !in r && r != "." && r != ".." && |r| <= MAX_NAME
  {
    var s := Text.TrimSpace(name);
    if s == "." || s == ".." || '/' in s || '\\' in s || '\0' in s then ""
    else if |s| > MAX_NAME then s[..MAX_NAME] else s
  }

  /**
   A name is refused when trimming leaves nothing, a dot or two, or something with a slash, a backslash
   or a NUL; else it is kept trimmed, as far as 255 characters go.
   */
  lemma NameKeptIff(name: string)
    ensures var s := Text.TrimSpace(name);
      var bad := s == "" || s == "." || s == ".." || exists c | c in s :: c == '/' || c == '\\' || c == 0 as char;
      && (CleanName(name) == "" <==> bad)
      && (!bad ==> CleanName(name) <= s && |CleanName(name)| == if |s| < 255 then |s| else 255)
  {
  }

  /** A copy has the name asked for if it is a good one, else the old one, marked as a copy next to the original. */
  lemma CopyNamed(src: Node, parent: Id, newName: string)
    requires src.name != "" && CleanName(src.name) == src.name
    ensures CopyName(src, parent, newName) != ""
    ensures CleanName(newName) != "" ==> CopyName(src, parent, newName) == CleanName(newName)
    ensures CleanName(newName) == "" && src.parent != parent ==> CopyName(src, parent, newName) == src.name
    ensures CleanName(newName) == "" && src.parent == parent ==>
      CopyName(src, parent, newName) ==
        if |src.name| <= 247 then "Copy of " + src.name else "Copy of " + src.name[..247]
  {
    CopyMarked(src.name);
  }

  lemma CopyMarked(name: string)
    requires name != "" && CleanName(name) == name
    ensures CleanName("Copy of " + name) == if |name| <= 247 then "Copy of " + name else "Copy of " + name[..247]
  {
    var s := "Copy of " + name;
    assert Text.Trimmed(s) by {
      var a, b := Text.TrimExact(name);
      assert Text.TrimSpace(name) == name;
      assert s[|s| - 1] == name[|name| - 1] && s[0] == 'C';
    }
    Text.TrimmedStays(s);
    assert s[0] == 'C';
    assert '/' !in s && '\\' !in s && '\0' !in s by {
      assert forall c | c in s :: c in "Copy of " || c in name;
    }
    if |name| > 247 {
      assert s[..255] == "Copy of " + name[..247];
    }
  }

  function CopyName(src: Node, parent: Id, newName: string): string {
    var name := CleanName(newName);
    if name != "" then name
    else if src.parent == parent then CleanName("Copy of " + src.name)
    else src.name
  }

  /** The blobs that rows of s name. */
  function BlobsOf(t: Table, s: set<Id>): set<Id> {
    set x | x in s && x in t && t[x].kind == File :: t[x].blob
  }

  /** Each file has its own blob, holding as many bytes as its row says; folders have none. */
  ghost predicate BlobsOk(t: Table, blobs: map<Id, Bytes>) {
    && (forall x | x in t ::
          if t[x].kind == Folder then t[x].blob == ROOT && t[x].size == 0
          else t[x].blob != ROOT && t[x].blob in blobs && |blobs[t[x].blob]| == t[x].size)
    && (forall x, y | x in t && y in t && t[x].kind == File && t[y].kind == File && t[x].blob == t[y].blob :: x == y)
  }

  /** Every blob is named by a row. */
  ghost predicate NoOrphans(t: Table, blobs: map<Id, Bytes>) {
    forall b :: b in blobs <==> exists x :: x in t && t[x].kind == File && t[x].blob == b
  }

  ghost predicate IdsBelow(t: Table, blobs: map<Id, Bytes>, nextId: Id) {
    && nextId != ROOT
    && (forall x | x in t :: x < nextId)
    && (forall b | b in blobs :: b < nextId)
  }

  ghost predicate Sound(t: Table, blobs: map<Id, Bytes>, nextId: Id) {
    Forest(t) && IdsBelow(t, blobs, nextId) && BlobsOk(t, blobs)
  }

  /** The copied files have their own new blobs with the bytes of the originals. */
  ghost predicate CopiedBlobs(t: Table, blobs: map<Id, Bytes>, t': Table, blobs': map<Id, Bytes>, iso: map<Id, Id>) {
    && (forall b | b in blobs :: b in blobs' && blobs'[b] == blobs[b])
    && (forall x | x in iso && x in t && iso[x] in t' && t[x].kind == File :: CopiedBlob(t, blobs, t', blobs', iso, x))
    && blobs'.Keys == blobs.Keys + BlobsOf(t', iso.Values)
  }

  ghost predicate CopiedBlob(t: Table, blobs: map<Id, Bytes>, t': Table, blobs': map<Id, Bytes>,
                             iso: map<Id, Id>, x: Id)
    requires x in iso && x in t && iso[x] in t'
  {
    && t'[iso[x]].blob !in blobs && t[x].blob in blobs && t'[iso[x]].blob in blobs'
    && blobs'[t'[iso[x]].blob] == blobs[t[x].blob]
  }

  /**
   A copy, read row by row. Nothing that was there has changed. Every row below src that is live has a
   double with the same owner, kind, size and star, live, under the double of its parent; a file's double
   has the same bytes in a blob of its own.
   */
  ghost predicate Duplicate(t: Table, blobs: map<Id, Bytes>, t': Table, blobs': map<Id, Bytes>,
                            src: Id, p: Id, name: string, iso: map<Id, Id>) {
    && (forall x | x in t :: x in t' && t'[x] == t[x])
    && (forall b | b in blobs :: b in blobs' && blobs'[b] == blobs[b])
    && (forall y | y in t' && y !in t :: exists x :: x in iso && iso[x] == y)
    && (TrashInv(t) ==> forall x | x in t :: x in iso <==> Under(t, src, x) && t[x].deleted == None)
    && (forall x, y | x in iso && y in iso && iso[x] == iso[y] :: x == y)
    && (forall x | x in iso ::
          x in t && iso[x] !in t && iso[x] in t' && Double(t, blobs, t', blobs', src, p, name, iso, x))
  }

  ghost predicate Double(t: Table, blobs: map<Id, Bytes>, t': Table, blobs': map<Id, Bytes>,
                         src: Id, p: Id, name: string, iso: map<Id, Id>, x: Id)
    requires x in iso && x in t && iso[x] in t'
  {
    var a, b := t[x], t'[iso[x]];
    && b.owner == a.owner && b.kind == a.kind && b.size == a.size && b.starred == a.starred && b.deleted == None
    && (x == src ==> b.parent == p && b.name == name)
    && (x != src ==> a.parent in iso && b.parent == iso[a.parent] && b.name == a.name)
    && (a.kind == File ==>
          b.blob !in blobs && b.blob in blobs' && a.blob in blobs && blobs'[b.blob] == blobs[a.blob])
  }

  lemma Duplicated(t: Table, blobs: map<Id, Bytes>, t': Table, blobs': map<Id, Bytes>,
                   src: Id, p: Id, name: string, iso: map<Id, Id>)
    requires Forest(t) && IsCopy(t, t', src, p, name, iso) && CopiedBlobs(t, blobs, t', blobs', iso)
    ensures Duplicate(t, blobs, t', blobs', src, p, name, iso)
  {
    var u := t[src].owner;
    TrashSetOwner(t, u, src);
    if TrashInv(t) {
      forall x | x in t ensures x in iso <==> Under(t, src, x) && t[x].deleted == None {
        LiveSubtree(t, u, src, x);
      }
    }
    forall x | x in iso ensures Double(t, blobs, t', blobs', src, p, name, iso, x) {
      assert CopiedRow(t, t', src, p, name, iso, x);
      CopiedParent(t, t', src, p, name, iso, x);
    }
  }

  /** The row an upload leaves. */
  predicate Uploaded(u: User, parent: Id, name: string, chunks: seq<ReadResult>, n: Node) {
    n == Node(u, parent, File, CleanName(name), n.blob, |Content(chunks)|, false, None)
  }

  /** The answer to an upload with a good name and target, by the cap, the stream and the quota. */
  predicate UploadAnswer(chunks: seq<ReadResult>, max: int, fits: bool, r: Result<Id>)
    requires |chunks| > 0
  {
    if !Admitted(chunks, max) then r == Failure(TooBig)
    else if !Whole(chunks) then r == Failure(ReadFailed)
    else if !fits then r == Failure(QuotaExceeded)
    else r.Success?
  }

  // ---------------------------------------------------------------- query evaluation

  /** WITH RECURSIVE subtree: level by level from root; it ends because v has no cycle. */
  method CollectSubtree(v: Table, root: Id) returns (s: set<Id>)
    requires ROOT !in v && Acyclic(v)
    ensures s == Subtree(v, root)
  {
    var frontier := if root in v then {root} else {};
    s := frontier;
    ghost var n := 0;
    assert root in v ==> Climb(v, root, 0) == root;
    while frontier != {}
      invariant frontier <= s <= v.Keys && (root in v ==> root in s)
      invariant forall x | x in s :: AtDepth(v, root, x, n)
      invariant forall x | x in frontier :: Climb(v, x, n) == root
      invariant forall x | x in v && v[x].parent in s - frontier :: x in s
      decreases v.Keys - s, frontier
    {
      var next := set x | x in v && v[x].parent in frontier;
      forall x | x in next ensures Climb(v, x, n + 1) == root && x !in s {
        if x in s {
          var k: nat :| k <= n && Climb(v, x, k) == root;
          DepthUnique(v, x, k, n + 1);
        }
      }
      s, frontier, n := s + next, next, n + 1;
    }
    forall x | x in v && Under(v, root, x) ensures x in s {
      var k: nat :| Climb(v, x, k) == root;
      ClosedHolds(v, s, root, x, k);
    }
  }

  ghost predicate AtDepth(v: Table, root: Id, x: Id, n: nat) {
    root in v && exists k: nat :: k <= n && Climb(v, x, k) == root
  }

  lemma {:induction false} ClosedHolds(v: Table, s: set<Id>, root: Id, x: Id, k: nat)
    requires ROOT !in v && root in v && root in s && s <= v.Keys
    requires forall y | y in v && v[y].parent in s :: y in s
    requires x in v && Climb(v, x, k) == root
    ensures x in s
    decreases k
  {
    if k > 0 {
      ClosedHolds(v, s, root, v[x].parent, k - 1);
    }
  }

  /** What a DELETE of the rows s removes from a table whose parent column cascades. */
  method CollectCascade(t: Table, s: set<Id>) returns (gone: set<Id>)
    requires Forest(t)
    ensures gone == Cascade(t, s)
  {
    gone := {};
    var rest := s;
    while rest != {}
      invariant rest <= s && gone == Cascade(t, s - rest)
    {
      var x :| x in rest;
      var below := CollectSubtree(t, x);
      gone, rest := gone + below, rest - {x};
    }
    assert s - rest == s;
  }

  method SumRows(t: Table, s: set<Id>) returns (n: nat)
    requires s <= t.Keys
    ensures n == SumOver(t, s)
  {
    n := 0;
    var rest := s;
    while rest != {}
      invariant rest <= s && n + SumOver(t, rest) == SumOver(t, s)
    {
      var x :| x in rest;
      SumPick(t, rest, x);
      n, rest := n + Weight(t[x]), rest - {x};
    }
  }

  /** Each row of the chain is the parent of the next, and the first hangs under top. */
  ghost predicate Chain(t: Table, top: Id, chain: seq<Id>) {
    && (forall i | 0 <= i < |chain| :: chain[i] in t)
    && (|chain| > 0 ==> t[chain[0]].parent == top)
    && (forall i | 0 < i < |chain| :: t[chain[i]].parent == chain[i - 1])
  }

  lemma ChainGrows(t: Table, top: Id, x: Id, chain: seq<Id>)
    requires x in t && t[x].parent == top && Chain(t, x, chain)
    ensures Chain(t, top, [x] + chain)
  {
  }

  lemma SubtreeEmpty(v: Table, root: Id)
    ensures Subtree(v, root) == {} <==> root !in v
  {
    if root in v {
      UnderRefl(v, root);
      assert root in Subtree(v, root);
    }
  }

  lemma ViewRootless(t: Table, u: User, liveOnly: bool)
    requires Forest(t)
    ensures ROOT !in View(t, u, liveOnly) && Acyclic(View(t, u, liveOnly))
  {
    ViewAcyclic(t, u, liveOnly);
  }

  class Drive {
    var nodes: Table
    var blobs: map<Id, Bytes>
    var nextId: Id
    const quota: int
    const maxUpload: int
    // Whether a call to the database or the blob store may fail.
    const mayFail: bool

    ghost predicate Valid()
      reads this
    {
      Sound(nodes, blobs, nextId)
    }

    /** No blob is left without a row. */
    ghost predicate Tidy()
      reads this
    {
      NoOrphans(nodes, blobs)
    }

    constructor (quota: int, maxUpload: int, mayFail: bool)
      ensures Valid() && Tidy() && TrashInv(nodes) && nodes == map[]
      ensures this.quota == quota && this.maxUpload == maxUpload && this.mayFail == mayFail
    {
      nodes, blobs, nextId := map[], map[], 1;
      this.quota, this.maxUpload, this.mayFail := quota, maxUpload, mayFail;
      new;
      assert Ranked(nodes, map[]);
    }

    /** How a store call turns out this time. */
    method StoreFails() returns (failed: bool)
      ensures failed ==> mayFail
    {
      failed := false;
      if mayFail {
        failed := *;
      }
    }

    // -------------------------------------------------------------- reads

    method TotalSize(u: User) returns (n: nat)
      requires Valid()
      ensures n == LiveTotal(nodes, u)
    {
      n := SumRows(nodes, View(nodes, u, true).Keys);
    }

    method SubtreeSize(u: User, root: Id, liveOnly: bool) returns (n: nat)
      requires Valid()
      ensures n == SubtreeBytes(nodes, u, root, liveOnly)
      ensures forall s: set<Id> | s <= nodes.Keys ::
        (forall x | x in nodes :: x in s <==> Under(View(nodes, u, liveOnly), root, x)) ==> n == SumOver(nodes, s)
    {
      ViewRootless(nodes, u, liveOnly);
      var s := CollectSubtree(View(nodes, u, liveOnly), root);
      n := SumRows(nodes, s);
      forall z: set<Id> |
        z <= nodes.Keys && forall x | x in nodes :: x in z <==> Under(View(nodes, u, liveOnly), root, x)
        ensures z == s
      {
      }
    }

    /** The live children of a folder, each once, folders first and then by name. */
    method ListChildren(u: User, parent: Id) returns (cs: seq<Id>)
      requires Valid()
      ensures forall i, j | 0 <= i < j < |cs| :: cs[i] != cs[j]
      ensures forall c :: c in cs <==>
        c in nodes && nodes[c].owner == u && nodes[c].deleted == None && nodes[c].parent == parent
      ensures InOrder(nodes, cs)
      ensures forall i, j | 0 <= i < j < |cs| :: Goes(nodes, cs[i], cs[j])
    {
      var rest := set c | c in nodes && LiveRow(nodes, u, c) && nodes[c].parent == parent;
      ghost var all := rest;
      cs := [];
      while rest != {}
        invariant forall i, j | 0 <= i < j < |cs| :: cs[i] != cs[j]
        invariant rest <= all && forall c :: c in cs <==> c in all - rest
        invariant InOrder(nodes, cs)
        invariant forall c, x | c in cs && x in rest :: c in nodes && Comes(nodes[c], nodes[x])
      {
        var c := FirstOf(nodes, rest);
        assert c !in cs;
        InOrderMore(nodes, cs, c);
        cs, rest := cs + [c], rest - {c};
      }
      InOrderMeans(nodes, cs);
    }

    /** The guard of Move and Copy: walks up from the target. It ends because the table is a forest. */
    method IsDescendant(u: User, root: Id, maybe: Id) returns (b: bool)
      requires Valid()
      ensures b <==> root == maybe || (maybe in nodes && nodes[maybe].owner == u && Under(nodes, root, maybe))
    {
      if root == maybe {
        return true;
      }
      ghost var rank :| Ranked(nodes, rank);
      var cur := maybe;
      while cur != ROOT
        invariant cur != root && (cur != maybe ==> cur in nodes && nodes[cur].owner == u)
        invariant cur != maybe ==> maybe in nodes && nodes[maybe].owner == u
        invariant Under(nodes, root, maybe) <==> Under(nodes, root, cur)
        decreases if cur in nodes then rank[cur] + 1 else 0
      {
        if cur !in nodes || nodes[cur].owner != u {
          return false;
        }
        if root in nodes {
          UnderStep(nodes, root, cur);
        }
        var parent := nodes[cur].parent;
        if parent == ROOT {
          return false;
        }
        if parent == root {
          UnderRefl(nodes, root);
          return true;
        }
        cur := parent;
      }
      return false;
    }

    /** Breadcrumbs: from a top-level row down to id, and exactly the rows above id. */
    method GetPath(u: User, id: Id) returns (r: Result<seq<Id>>)
      requires Valid()
      ensures r.Success? <==> id in nodes && nodes[id].owner == u
      ensures r.Success? ==>
        && |r.value| > 0 && r.value[|r.value| - 1] == id
        && Chain(nodes, ROOT, r.value)
        && (forall i | 0 <= i < |r.value| :: r.value[i] in nodes &&
              nodes[r.value[i]].parent == if i == 0 then ROOT else r.value[i - 1])
        && (forall x :: x in r.value <==> Under(nodes, x, id))
    {
      if id !in nodes || nodes[id].owner != u {
        return Failure(NotFound);
      }
      ghost var rank :| Ranked(nodes, rank);
      var chain: seq<Id> := [];
      var cur := id;
      UnderRefl(nodes, id);
      while true
        invariant cur in nodes && cur !in chain
        invariant |chain| == 0 ==> cur == id
        invariant |chain| > 0 ==> chain[|chain| - 1] == id
        invariant Chain(nodes, cur, chain)
        invariant forall x | x in chain :: rank[cur] < rank[x]
        invariant forall x :: Under(nodes, x, id) <==> x in chain || Under(nodes, x, cur)
        decreases rank[cur]
      {
        forall x ensures Under(nodes, x, cur) <==> x == cur || (x in nodes && Under(nodes, x, nodes[cur].parent)) {
          if x in nodes { UnderStep(nodes, x, cur); }
        }
        ChainGrows(nodes, nodes[cur].parent, cur, chain);
        chain := [cur] + chain;
        if nodes[cur].parent == ROOT {
          return Success(chain);
        }
        cur := nodes[cur].parent;
      }
    }

    // -------------------------------------------------------------- single-row changes

    method CreateFolder(u: User, parent: Id, name: string) returns (r: Result<Id>)
      requires Valid()
      modifies this
      ensures Valid() && blobs == old(blobs)
      ensures r.Success? ==>
        && Step(quota, old(nodes), u, 0,
                Create(r.value, Node(u, parent, Folder, CleanName(name), ROOT, 0, false, None)), nodes)
        && CleanName(name) != ""
      ensures r.Success? ==> r.value !in old(nodes)
      ensures r.Success? ==>
        nodes == old(nodes)[r.value := Node(u, parent, Folder, CleanName(name), ROOT, 0, false, None)]
      ensures r.Failure? ==> nodes == old(nodes)
      ensures r == Failure(NameRequired) <==> CleanName(name) == ""
      ensures var t := old(nodes);
        var found := parent in t && t[parent].owner == u && t[parent].deleted == None;
        && (r == Failure(NotFound) <==> CleanName(name) != "" && parent != ROOT && !found)
        && (r == Failure(InvalidInput) <==> CleanName(name) != "" && parent != ROOT && found && t[parent].kind == File)
      ensures r.Success? || (mayFail && r == Failure(StoreFailed)) || r.error in {NameRequired, NotFound, InvalidInput}
    {
      var clean := CleanName(name);
      if clean == "" {
        return Failure(NameRequired);
      }
      if parent != ROOT {
        if !LiveRow(nodes, u, parent) {
          return Failure(NotFound);
        }
        if nodes[parent].kind != Folder {
          return Failure(InvalidInput);
        }
      }
      var failed := StoreFails();
      if failed {
        return Failure(StoreFailed);
      }
      var id := nextId;
      var n := Node(u, parent, Folder, clean, ROOT, 0, false, None);
      CreateForest(nodes, id, n);
      nodes, nextId := nodes[id := n], nextId + 1;
      r := Success(id);
    }

    method Upload(u: User, parent: Id, name: string, chunks: seq<ReadResult>) returns (r: Result<Id>)
      requires Valid() && Reader(chunks)
      modifies this
      ensures Valid() && (old(Tidy()) ==> Tidy())
      ensures r.Success? ==> r.value in nodes && Uploaded(u, parent, name, chunks, nodes[r.value])
      ensures r.Success? ==> nodes == old(nodes)[r.value :=
        Node(u, parent, File, CleanName(name), nodes[r.value].blob, |Content(chunks)|, false, None)]
      ensures r.Success? ==> Step(quota, old(nodes), u, 0, Create(r.value, nodes[r.value]), nodes)
      ensures r.Success? ==> nodes[r.value].blob !in old(blobs)
                             && blobs == old(blobs)[nodes[r.value].blob := Content(chunks)]
      ensures r.Success? ==> CleanName(name) != "" && Admitted(chunks, maxUpload)
      ensures r.Failure? ==> nodes == old(nodes) && blobs == old(blobs)
      ensures r == Failure(NameRequired) <==> CleanName(name) == ""
      ensures CleanName(name) != "" && !Target(old(nodes), u, parent) ==>
        r == Failure(if LiveRow(old(nodes), u, parent) then InvalidInput else NotFound)
      ensures CleanName(name) != "" && Target(old(nodes), u, parent) ==>
        || (mayFail && r == Failure(StoreFailed))
        || UploadAnswer(chunks, maxUpload, Fits(quota, LiveTotal(old(nodes), u), |Content(chunks)|), r)
    {
      var clean := CleanName(name);
      if clean == "" {
        return Failure(NameRequired);
      }
      if parent != ROOT {
        if !LiveRow(nodes, u, parent) {
          return Failure(NotFound);
        }
        if nodes[parent].kind != Folder {
          return Failure(InvalidInput);
        }
      }
      var saved, size := ReadLimited(chunks, maxUpload);
      if saved.TooLarge? {
        return Failure(TooBig);
      }
      if saved.BrokenOff? {
        return Failure(ReadFailed);
      }
      var failed := StoreFails();
      if failed {
        return Failure(StoreFailed);
      }
      var path, id := nextId, nextId + 1;
      BlobAdded(nodes, blobs, path, saved.content);
      blobs, nextId := blobs[path := saved.content], nextId + 2;
      var n := Node(u, parent, File, clean, path, size, false, None);
      var err := CreateNodeWithQuota(id, n);
      if err.Failure? {
        blobs := blobs - {path};
        return Failure(err.error);
      }
      RowAdded(old(nodes), old(blobs), id, n, saved.content);
      r := Success(id);
    }

    /** Insert a file row under the quota; the check and the insert are one transaction. */
    method CreateNodeWithQuota(id: Id, n: Node) returns (r: Result<()>)
      requires Valid() && id !in nodes && id < nextId && id != ROOT && n.kind == File && n.Live()
      requires Target(nodes, n.owner, n.parent)
      requires n.blob in blobs && n.blob != ROOT && |blobs[n.blob]| == n.size
      requires forall x | x in nodes && nodes[x].kind == File :: nodes[x].blob != n.blob
      modifies this`nodes
      ensures Valid()
      ensures nodes == if r.Success? then old(nodes)[id := n] else old(nodes)
      ensures r == Failure(QuotaExceeded) <==> quota > 0 && LiveTotal(old(nodes), n.owner) + n.size > quota
      ensures r.Success? || r == Failure(QuotaExceeded) || (mayFail && r == Failure(StoreFailed))
    {
      if quota > 0 {
        var used := TotalSize(n.owner);
        if used + n.size > quota {
          return Failure(QuotaExceeded);
        }
      }
      var failed := StoreFails();
      if failed {
        return Failure(StoreFailed);
      }
      CreateForest(nodes, id, n);
      nodes := nodes[id := n];
      r := Success(());
    }

    method Move(u: User, id: Id, parent: Id) returns (r: Result<()>)
      requires Valid()
      modifies this`nodes
      ensures Valid() && (old(Tidy()) ==> Tidy())
      ensures r.Success? <==>
        LiveRow(old(nodes), u, id) && Target(old(nodes), u, parent) && !Under(old(nodes), id, parent)
      ensures r.Success? ==> Step(quota, old(nodes), u, 0, DriveOps.Op.Move(id, parent), nodes)
      ensures r.Success? ==> nodes == old(nodes)[id := old(nodes)[id].(parent := parent)]
      ensures r.Failure? ==> nodes == old(nodes)
      ensures r == Failure(NotFound) <==>
        !LiveRow(old(nodes), u, id) || (parent != ROOT && !LiveRow(old(nodes), u, parent))
      ensures LiveRow(old(nodes), u, id) && LiveRow(old(nodes), u, parent) && old(nodes)[parent].kind == File ==>
        r == Failure(InvalidInput)
      ensures r == Failure(CircularMove) <==>
        LiveRow(old(nodes), u, id) && Target(old(nodes), u, parent) && Under(old(nodes), id, parent)
    {
      if !LiveRow(nodes, u, id) {
        return Failure(NotFound);
      }
      if parent != ROOT {
        if !LiveRow(nodes, u, parent) {
          return Failure(NotFound);
        }
        if nodes[parent].kind != Folder {
          return Failure(InvalidInput);
        }
      }
      if parent == nodes[id].parent {
        if parent in nodes {
          ChildNotAbove(nodes, parent, id);
        }
        assert nodes == nodes[id := nodes[id].(parent := parent)];
        return Success(());
      }
      UnderRefl(nodes, id);
      var inside := IsDescendant(u, id, parent);
      if inside {
        return Failure(CircularMove);
      }
      MoveForest(nodes, id, parent);
      ghost var before := nodes;
      nodes := nodes[id := nodes[id].(parent := parent)];
      SameBlobs(before, nodes);
      r := Success(());
    }

    // -------------------------------------------------------------- copy

    method Copy(u: User, id: Id, parent: Id, newName: string) returns (r: Result<Id>, ghost iso: map<Id, Id>)
      requires Valid()
      modifies this
      ensures Valid() && (old(Tidy()) ==> Tidy())
      ensures r.Success? ==>
        && id in old(nodes) && id in iso
        && Step(quota, old(nodes), u, 0,
                DriveOps.Op.Copy(id, parent, CopyName(old(nodes)[id], parent, newName), iso), nodes)
        && iso[id] == r.value && CopiedBlobs(old(nodes), old(blobs), nodes, blobs, iso)
        && Duplicate(old(nodes), old(blobs), nodes, blobs, id, parent,
                     CopyName(old(nodes)[id], parent, newName), iso)
        && LiveTotal(nodes, u) == LiveTotal(old(nodes), u) + SubtreeBytes(old(nodes), u, id, true)
      ensures r.Failure? ==> nodes == old(nodes) && blobs == old(blobs)
      ensures r == Failure(CircularMove) <==>
        LiveRow(old(nodes), u, id) && Target(old(nodes), u, parent) && Under(old(nodes), id, parent)
      ensures r == Failure(NotFound) <==>
        !LiveRow(old(nodes), u, id) || (parent != ROOT && !LiveRow(old(nodes), u, parent))
      ensures LiveRow(old(nodes), u, id) && LiveRow(old(nodes), u, parent) && old(nodes)[parent].kind == File ==>
        r == Failure(InvalidInput)
      ensures r == Failure(QuotaExceeded) <==>
        && LiveRow(old(nodes), u, id) && Target(old(nodes), u, parent) && !Under(old(nodes), id, parent)
        && quota > 0 && LiveTotal(old(nodes), u) + SubtreeBytes(old(nodes), u, id, true) > quota
      ensures LiveRow(old(nodes), u, id) && Target(old(nodes), u, parent) && !Under(old(nodes), id, parent)
           && Fits(quota, LiveTotal(old(nodes), u), SubtreeBytes(old(nodes), u, id, true))
           ==> r.Success? || (mayFail && r.error == StoreFailed)
    {
      iso := map[];
      if !LiveRow(nodes, u, id) {
        return Failure(NotFound), iso;
      }
      if parent != ROOT {
        if !LiveRow(nodes, u, parent) {
          return Failure(NotFound), iso;
        }
        if nodes[parent].kind != Folder {
          return Failure(InvalidInput), iso;
        }
      }
      if nodes[id].kind == Folder {
        UnderRefl(nodes, id);
        var inside := IsDescendant(u, id, parent);
        if inside {
          return Failure(CircularMove), iso;
        }
      } else {
        NothingUnderFile(nodes, id, parent, u);
      }
      var fits := EnsureCopyQuota(u, id);
      if !fits {
        return Failure(QuotaExceeded), iso;
      }
      if Under(View(nodes, u, true), id, parent) {
        LiveUnder(nodes, u, id, parent);
      }
      r, iso := CopyTree(id, parent, CopyName(nodes[id], parent, newName));
      if r.Success? {
        CopyTidy(old(nodes), old(blobs), nodes, blobs, id, parent, CopyName(old(nodes)[id], parent, newName), iso);
        Duplicated(old(nodes), old(blobs), nodes, blobs, id, parent, CopyName(old(nodes)[id], parent, newName), iso);
        CopyRaisesBySubtreeSize(old(nodes), nodes, id, parent, CopyName(old(nodes)[id], parent, newName), iso);
      }
    }

    /** Whether the live subtree fits the quota once more. */
    method EnsureCopyQuota(u: User, id: Id) returns (fits: bool)
      requires Valid() && LiveRow(nodes, u, id)
      ensures fits <==> Fits(quota, LiveTotal(nodes, u), SubtreeBytes(nodes, u, id, true))
      ensures fits <==> quota <= 0 || LiveTotal(nodes, u) + SubtreeBytes(nodes, u, id, true) <= quota
    {
      if quota <= 0 {
        return true;
      }
      var used := TotalSize(u);
      var extra := nodes[id].size;
      if nodes[id].kind == Folder {
        extra := SubtreeSize(u, id, true);
      } else {
        FileBytes(nodes, u, id);
      }
      fits := used + extra <= quota;
    }

    /**
     Copies src and what lives under it. Any store call may fail; a failure half-way deletes what
     was copied. The quota test on each file never fails once the whole subtree is known to fit.
     */
    method CopyTree(src: Id, parent: Id, name: string) returns (r: Result<Id>, ghost iso: map<Id, Id>)
      requires Valid() && src in nodes && nodes[src].Live()
      requires Target(nodes, nodes[src].owner, parent)
      requires !Under(View(nodes, nodes[src].owner, true), src, parent)
      requires Fits(quota, LiveTotal(nodes, nodes[src].owner), SubtreeBytes(nodes, nodes[src].owner, src, true))
      modifies this
      ensures Valid()
      ensures r.Failure? ==> mayFail && r.error == StoreFailed && nodes == old(nodes) && blobs == old(blobs)
      ensures r.Success? ==>
        && IsCopy(old(nodes), nodes, src, parent, name, iso) && iso[src] == r.value
        && CopiedBlobs(old(nodes), old(blobs), nodes, blobs, iso)
      decreases |TrashSet(nodes, nodes[src].owner, src)|, 4
    {
      if nodes[src].kind == Folder {
        r, iso := CopyFolder(src, parent, name);
      } else {
        r, iso := CopyFile(src, parent, name);
      }
    }

    method CopyFolder(src: Id, parent: Id, name: string) returns (r: Result<Id>, ghost iso: map<Id, Id>)
      requires Valid() && src in nodes && nodes[src].Live() && nodes[src].kind == Folder
      requires Target(nodes, nodes[src].owner, parent)
      requires !Under(View(nodes, nodes[src].owner, true), src, parent)
      requires Fits(quota, LiveTotal(nodes, nodes[src].owner), SubtreeBytes(nodes, nodes[src].owner, src, true))
      modifies this
      ensures Valid()
      ensures r.Failure? ==> mayFail && r.error == StoreFailed && nodes == old(nodes) && blobs == old(blobs)
      ensures r.Success? ==>
        && IsCopy(old(nodes), nodes, src, parent, name, iso) && iso[src] == r.value
        && CopiedBlobs(old(nodes), old(blobs), nodes, blobs, iso)
      decreases |TrashSet(nodes, nodes[src].owner, src)|, 3
    {
      var failed := StoreFails();
      if failed {
        return Failure(StoreFailed), map[];
      }
      var u := nodes[src].owner;
      ghost var t0, b0 := nodes, blobs;
      var dup := StartFolder(src, parent, name);
      var err;
      err, iso := FillFolder(u, src, dup, t0, b0, parent, name);
      if err.Some? {
        CleanUp(u, dup, t0, b0, src, parent, name, iso);
        r := Failure(err.value);
      } else {
        r := Success(dup);
      }
    }

    method FillFolder(u: User, src: Id, dup: Id, ghost t0: Table, ghost b0: map<Id, Bytes>,
                      ghost parent: Id, ghost name: string)
      returns (err: Option<Error>, ghost iso: map<Id, Id>)
      requires Valid() && Forest(t0) && BlobsOk(t0, b0)
      requires LiveRow(t0, u, src) && Target(t0, u, parent) && !Under(View(t0, u, true), src, parent)
      requires Fits(quota, LiveTotal(t0, u), SubtreeBytes(t0, u, src, true))
      requires CopyPart(t0, nodes, src, parent, name, map[src := dup])
      requires CopiedBlobs(t0, b0, nodes, blobs, map[src := dup])
      modifies this
      ensures Valid()
      ensures CopyPart(t0, nodes, src, parent, name, iso) && iso[src] == dup
      ensures CopiedBlobs(t0, b0, nodes, blobs, iso)
      ensures err.Some? ==> mayFail && err.value == StoreFailed
      ensures err.None? ==> iso.Keys == TrashSet(t0, u, src)
      decreases |TrashSet(t0, u, src)|, 2
    {
      iso := map[src := dup];
      var children := ListOriginals(u, src, dup, t0, parent, name);
      err, iso := CopyChildren(u, src, dup, children, t0, b0, parent, name, iso);
      if err.None? {
        CopyWhole(t0, nodes, src, parent, name, iso, children);
      }
    }

    /** The children to copy, listed after the new folder is there. */
    method ListOriginals(u: User, src: Id, dup: Id, ghost t0: Table, ghost parent: Id, ghost name: string)
      returns (children: seq<Id>)
      requires Valid() && Forest(t0) && LiveRow(t0, u, src) && !Under(View(t0, u, true), src, parent)
      requires CopyPart(t0, nodes, src, parent, name, map[src := dup])
      ensures forall i, j | 0 <= i < j < |children| :: children[i] != children[j]
      ensures forall c :: c in children <==> LiveRow(t0, u, c) && t0[c].parent == src
      ensures ChildrenDone(t0, u, children, 0, {src})
    {
      children := ListChildren(u, src);
      ChildrenListed(t0, u, src, parent, name, nodes, map[src := dup], children);
    }

    /** Inserts the row of the new folder. */
    method StartFolder(src: Id, parent: Id, name: string) returns (dup: Id)
      requires Valid() && src in nodes && nodes[src].Live() && nodes[src].kind == Folder
      requires Target(nodes, nodes[src].owner, parent)
      modifies this`nodes, this`nextId
      ensures Valid()
      ensures CopyPart(old(nodes), nodes, src, parent, name, map[src := dup])
      ensures CopiedBlobs(old(nodes), blobs, nodes, blobs, map[src := dup])
    {
      FolderStarted(nodes, blobs, nextId, src, parent, name);
      dup := nextId;
      nodes := nodes[dup := Node(nodes[src].owner, parent, Folder, name, ROOT, 0, nodes[src].starred, None)];
      nextId := nextId + 1;
    }

    /** The loop of copyTree over the children; it stops at the first failure, and listing them may fail too. */
    method CopyChildren(u: User, src: Id, dup: Id, children: seq<Id>, ghost t0: Table, ghost b0: map<Id, Bytes>,
                        ghost parent: Id, ghost name: string, ghost iso0: map<Id, Id>)
      returns (err: Option<Error>, ghost iso: map<Id, Id>)
      requires Valid() && Forest(t0) && BlobsOk(t0, b0)
      requires LiveRow(t0, u, src) && Target(t0, u, parent) && !Under(View(t0, u, true), src, parent)
      requires Fits(quota, LiveTotal(t0, u), SubtreeBytes(t0, u, src, true))
      requires CopyPart(t0, nodes, src, parent, name, iso0) && iso0[src] == dup
      requires CopiedBlobs(t0, b0, nodes, blobs, iso0)
      requires forall c | c in children :: LiveRow(t0, u, c) && t0[c].parent == src
      requires forall i, j | 0 <= i < j < |children| :: children[i] != children[j]
      requires ChildrenDone(t0, u, children, 0, iso0.Keys)
      modifies this
      ensures Valid()
      ensures CopyPart(t0, nodes, src, parent, name, iso) && iso[src] == dup
      ensures CopiedBlobs(t0, b0, nodes, blobs, iso)
      ensures err.Some? ==> mayFail && err.value == StoreFailed
      ensures err.None? ==> ChildrenDone(t0, u, children, |children|, iso.Keys)
      decreases |TrashSet(t0, u, src)|, 1
    {
      var failed := StoreFails();
      iso, err := iso0, if failed then Some(StoreFailed) else None;
      var i := 0;
      while err.None? && i < |children|
        invariant 0 <= i <= |children| && Valid()
        invariant CopyPart(t0, nodes, src, parent, name, iso) && iso[src] == dup
        invariant CopiedBlobs(t0, b0, nodes, blobs, iso)
        invariant err.Some? ==> mayFail && err.value == StoreFailed
        invariant err.None? ==> ChildrenDone(t0, u, children, i, iso.Keys)
      {
        err, iso := CopyChild(u, src, dup, children, i, t0, b0, parent, name, iso);
        i := i + 1;
      }
    }

    method CopyChild(u: User, src: Id, dup: Id, children: seq<Id>, i: nat, ghost t0: Table, ghost b0: map<Id, Bytes>,
                     ghost parent: Id, ghost name: string, ghost iso0: map<Id, Id>)
      returns (err: Option<Error>, ghost iso: map<Id, Id>)
      requires Valid() && Forest(t0) && BlobsOk(t0, b0)
      requires LiveRow(t0, u, src) && Target(t0, u, parent) && !Under(View(t0, u, true), src, parent)
      requires Fits(quota, LiveTotal(t0, u), SubtreeBytes(t0, u, src, true))
      requires CopyPart(t0, nodes, src, parent, name, iso0) && iso0[src] == dup
      requires CopiedBlobs(t0, b0, nodes, blobs, iso0)
      requires forall c | c in children :: LiveRow(t0, u, c) && t0[c].parent == src
      requires forall j, k | 0 <= j < k < |children| :: children[j] != children[k]
      requires i < |children| && ChildrenDone(t0, u, children, i, iso0.Keys)
      modifies this
      ensures Valid()
      ensures CopyPart(t0, nodes, src, parent, name, iso) && iso[src] == dup
      ensures CopiedBlobs(t0, b0, nodes, blobs, iso)
      ensures err.Some? ==> mayFail && err.value == StoreFailed
      ensures err.None? ==> ChildrenDone(t0, u, children, i + 1, iso.Keys)
      decreases |TrashSet(t0, u, src)|, 0
    {
      var child := children[i];
      ChildReady(quota, t0, nodes, src, parent, name, iso0, child);
      SmallerSet(TrashSet(t0, u, child), TrashSet(t0, u, src));
      ghost var t1, b1 := nodes, blobs;
      var r1;
      ghost var iso1;
      r1, iso1 := CopyTree(child, dup, nodes[child].name);
      if r1.Failure? {
        return Some(r1.error), iso0;
      }
      ChildDone(t0, b0, t1, b1, nodes, blobs, src, parent, name, iso0, children, i, iso1);
      err, iso := None, iso0 + iso1;
    }

    method CopyFile(src: Id, parent: Id, name: string) returns (r: Result<Id>, ghost iso: map<Id, Id>)
      requires Valid() && src in nodes && nodes[src].Live() && nodes[src].kind == File
      requires Target(nodes, nodes[src].owner, parent)
      requires Fits(quota, LiveTotal(nodes, nodes[src].owner), SubtreeBytes(nodes, nodes[src].owner, src, true))
      modifies this
      ensures Valid()
      ensures r.Failure? ==> mayFail && r.error == StoreFailed && nodes == old(nodes) && blobs == old(blobs)
      ensures r.Success? ==>
        && IsCopy(old(nodes), nodes, src, parent, name, iso) && iso[src] == r.value
        && CopiedBlobs(old(nodes), old(blobs), nodes, blobs, iso)
    {
      iso := map[];
      ghost var t0, b0 := nodes, blobs;
      var failed := StoreFails();
      if failed {
        return Failure(StoreFailed), iso;
      }
      var path, id := nextId, nextId + 1;
      var content := blobs[nodes[src].blob];
      BlobAdded(nodes, blobs, path, content);
      blobs, nextId := blobs[path := content], nextId + 2;
      var n := nodes[src].(parent := parent, name := name, blob := path, deleted := None);
      FileBytes(nodes, nodes[src].owner, src);
      var err := CreateNodeWithQuota(id, n);
      if err.Failure? {
        blobs := blobs - {path};
        return Failure(err.error), iso;
      }
      iso := map[src := id];
      FileCopied(t0, b0, src, parent, name, id, path, content);
      r := Success(id);
    }

    /** The cleanup of a failed copy, its delete being taken to succeed. */
    method CleanUp(u: User, dup: Id, ghost t0: Table, ghost b0: map<Id, Bytes>,
                   ghost src: Id, ghost parent: Id, ghost name: string, ghost iso: map<Id, Id>)
      requires Valid() && Forest(t0)
      requires CopyPart(t0, nodes, src, parent, name, iso) && Target(t0, t0[src].owner, parent)
      requires iso[src] == dup && t0[src].owner == u && CopiedBlobs(t0, b0, nodes, blobs, iso)
      modifies this`nodes, this`blobs
      ensures Valid() && nodes == t0 && blobs == b0
    {
      CopySubtree(t0, nodes, src, parent, name, iso);
      CopyUndone(t0, nodes, src, parent, name, iso);
      CopiedParent(t0, nodes, src, parent, name, iso, src);
      BlobsUndone(t0, b0, nodes, blobs, src, parent, name, iso);
      var r := DeletePermanent(u, dup);
    }

    // -------------------------------------------------------------- trash

    method Trash(u: User, id: Id, now: nat) returns (r: Result<()>)
      requires Valid()
      modifies this`nodes
      ensures Valid() && (old(Tidy()) ==> Tidy())
      ensures r == if LiveRow(old(nodes), u, id) then Success(()) else Failure(NotFound)
      ensures r.Success? ==> Step(quota, old(nodes), u, now, DriveOps.Op.Trash(id), nodes)
      ensures r.Success? && old(TrashInv(nodes)) ==> nodes.Keys == old(nodes).Keys && forall x | x in nodes ::
        nodes[x] == if Under(old(nodes), id, x) && old(nodes)[x].deleted == None
                    then old(nodes)[x].(deleted := Some(now)) else old(nodes)[x]
      ensures r.Failure? ==> nodes == old(nodes)
    {
      ViewRootless(nodes, u, true);
      var s := CollectSubtree(View(nodes, u, true), id);
      SubtreeEmpty(View(nodes, u, true), id);
      if s == {} {
        return Failure(NotFound);
      }
      var after := map x | x in nodes :: if x in s then nodes[x].(deleted := Some(now)) else nodes[x];
      TrashDone(nodes, blobs, nextId, u, id, now, after);
      nodes := after;
      r := Success(());
    }

    method Restore(u: User, id: Id) returns (r: Result<()>)
      requires Valid()
      modifies this`nodes
      ensures Valid() && (old(Tidy()) ==> Tidy())
      ensures r == if quota > 0 && LiveTotal(old(nodes), u) + SubtreeBytes(old(nodes), u, id, false) > quota
                   then Failure(QuotaExceeded)
                   else if id in old(nodes) && old(nodes)[id].owner == u && !old(nodes)[id].Live() then Success(())
                   else Failure(NotFound)
      ensures r.Success? ==> Step(quota, old(nodes), u, 0, DriveOps.Op.Restore(id), nodes)
      ensures r.Success? ==> nodes.Keys == old(nodes).Keys && forall x | x in nodes ::
        nodes[x] == if Under(old(nodes), id, x) && old(nodes)[x].deleted == old(nodes)[id].deleted
                    then old(nodes)[x].(deleted := None) else old(nodes)[x]
      ensures r.Success? && old(TrashInv(nodes)) ==> (TrashInv(nodes) <==> Listed(old(nodes), id))
      ensures r.Failure? ==> nodes == old(nodes)
    {
      if quota > 0 {
        var restored := SubtreeSize(u, id, false);
        var used := TotalSize(u);
        if used + restored > quota {
          return Failure(QuotaExceeded);
        }
      }
      r := RestoreRows(u, id);
    }

    /** Repository.Restore: clears the stamp of the row and of what was trashed with it. */
    method RestoreRows(u: User, id: Id) returns (r: Result<()>)
      requires Valid()
      modifies this`nodes
      ensures Valid() && (old(Tidy()) ==> Tidy())
      ensures r == if id in old(nodes) && old(nodes)[id].owner == u && !old(nodes)[id].Live() then Success(())
                   else Failure(NotFound)
      ensures r.Success? ==> nodes == Restored(old(nodes), u, id)
      ensures r.Success? ==> nodes.Keys == old(nodes).Keys && forall x | x in nodes ::
        nodes[x] == if Under(old(nodes), id, x) && old(nodes)[x].deleted == old(nodes)[id].deleted
                    then old(nodes)[x].(deleted := None) else old(nodes)[x]
      ensures r.Success? && old(TrashInv(nodes)) ==> (TrashInv(nodes) <==> Listed(old(nodes), id))
      ensures r.Failure? ==> nodes == old(nodes)
    {
      if id !in nodes || nodes[id].owner != u {
        return Failure(NotFound);
      }
      if nodes[id].Live() {
        return Failure(NotFound);
      }
      var marker := nodes[id].deleted;
      ViewRootless(nodes, u, false);
      var s := CollectSubtree(View(nodes, u, false), id);
      var after := map x | x in nodes ::
        if x in s && nodes[x].deleted == marker then nodes[x].(deleted := None) else nodes[x];
      RestoreDone(nodes, blobs, nextId, u, id, s, after);
      nodes := after;
      r := Success(());
    }

    method DeletePermanent(u: User, id: Id) returns (r: Result<()>)
      requires Valid()
      modifies this`nodes, this`blobs
      ensures Valid() && (old(Tidy()) ==> Tidy())
      ensures r == if id in old(nodes) && old(nodes)[id].owner == u then Success(()) else Failure(NotFound)
      ensures r.Success? ==>
        && Step(quota, old(nodes), u, 0, Purge(id), nodes)
        && blobs == old(blobs) - BlobsOf(old(nodes), Subtree(View(old(nodes), u, false), id))
        && (forall x :: x in nodes <==> x in old(nodes) && !Under(old(nodes), id, x))
        && (forall x | x in nodes :: nodes[x] == old(nodes)[x])
      ensures r.Failure? ==> nodes == old(nodes) && blobs == old(blobs)
    {
      ViewRootless(nodes, u, false);
      var s := CollectSubtree(View(nodes, u, false), id);
      SubtreeEmpty(View(nodes, u, false), id);
      if s == {} {
        return Failure(NotFound);
      }
      var paths := BlobsOf(nodes, s);
      var left := map x | x in nodes && x !in s :: nodes[x];
      PurgeClosed(nodes, u, id);
      assert left == Without(nodes, s);
      RemovalSound(nodes, blobs, nextId, s, s);
      nodes, blobs := left, blobs - paths;
      r := Success(());
    }

    /** Deletes the trashed rows with the cascade, and purges the blobs of the trashed rows. */
    method EmptyTrash(u: User)
      requires Valid()
      modifies this`nodes, this`blobs
      ensures Valid()
      ensures Step(quota, old(nodes), u, 0, DriveOps.Op.EmptyTrash, nodes)
      ensures blobs == old(blobs) - BlobsOf(old(nodes), TrashOf(old(nodes), u))
      ensures old(TrashInv(nodes)) ==> nodes == Without(old(nodes), TrashOf(old(nodes), u)) && (old(Tidy()) ==> Tidy())
      ensures forall x | x in nodes :: nodes[x].owner == u ==> nodes[x].deleted == None
      ensures old(TrashInv(nodes)) ==> forall x | x in old(nodes) ::
        old(nodes)[x].deleted == None || old(nodes)[x].owner != u ==> x in nodes && nodes[x] == old(nodes)[x]
    {
      var trash := TrashOf(nodes, u);
      var paths := BlobsOf(nodes, trash);
      var gone := CollectCascade(nodes, trash);
      var left := map x | x in nodes && x !in gone :: nodes[x];
      EmptyTrashDone(nodes, blobs, nextId, u, left);
      nodes, blobs := left, blobs - paths;
    }
  }

  // ---------------------------------------------------------------- blob lemmas

  lemma SameBlobs(t: Table, t': Table)
    requires t.Keys == t'.Keys
    requires forall x | x in t :: t'[x].kind == t[x].kind && t'[x].blob == t[x].blob
    ensures BlobsOf(t', t'.Keys) == BlobsOf(t, t.Keys)
  {
    forall b | b in BlobsOf(t, t.Keys) ensures b in BlobsOf(t', t'.Keys) {
      var x :| x in t && t[x].kind == File && t[x].blob == b;
      assert t'[x].blob == b;
    }
  }

  lemma RemovedBlobs(t: Table, blobs: map<Id, Bytes>, s: set<Id>)
    requires BlobsOk(t, blobs)
    ensures BlobsOk(Without(t, s), blobs - BlobsOf(t, s))
    ensures NoOrphans(t, blobs) ==> NoOrphans(Without(t, s), blobs - BlobsOf(t, s))
  {
    var t' := Without(t, s);
    forall x | x in t' && t'[x].kind == File ensures t'[x].blob !in BlobsOf(t, s) {}
    forall b | b in BlobsOf(t, t.Keys) && b !in BlobsOf(t, s) ensures b in BlobsOf(t', t'.Keys) {
      var x :| x in t && t[x].kind == File && t[x].blob == b;
      assert x in t' && t'[x].blob == b;
    }
  }

  lemma SomeRemovedBlobs(t: Table, blobs: map<Id, Bytes>, s: set<Id>, r: set<Id>)
    requires BlobsOk(t, blobs) && r <= s
    ensures BlobsOk(Without(t, s), blobs - BlobsOf(t, r))
  {
    var t' := Without(t, s);
    forall x | x in t' && t'[x].kind == File ensures t'[x].blob !in BlobsOf(t, r) {}
  }

  lemma FileAlone(t: Table, u: User, f: Id)
    requires Forest(t) && f in t && t[f].kind == File && t[f].owner == u && t[f].Live()
    ensures TrashSet(t, u, f) == {f}
  {
    var v := View(t, u, true);
    UnderRefl(v, f);
    forall x | x in TrashSet(t, u, f) ensures x == f {
      if x != f {
        var c := ChildAbove(v, f, x);
      }
    }
  }

  lemma FileBytes(t: Table, u: User, f: Id)
    requires Forest(t) && f in t && t[f].kind == File && t[f].owner == u && t[f].Live()
    ensures SubtreeBytes(t, u, f, true) == t[f].size
  {
    FileAlone(t, u, f);
    SumPick(t, {f}, f);
    assert {f} - {f} == {};
    assert SumOver(t, {}) == 0;
  }

  lemma SmallerSet(a: set<Id>, b: set<Id>)
    requires a < b
    ensures |a| < |b|
  {
    var rest := b - a;
    assert b == a + rest;
    assert rest != {};
  }

  lemma CopiedBlobsNew(t: Table, blobs: map<Id, Bytes>, t': Table, blobs': map<Id, Bytes>,
                       src: Id, p: Id, name: string, iso: map<Id, Id>)
    requires ParentsOk(t) && CopyPart(t, t', src, p, name, iso) && CopiedBlobs(t, blobs, t', blobs', iso)
    ensures BlobsOf(t', iso.Values) !! blobs.Keys
  {
    forall b | b in BlobsOf(t', iso.Values) ensures b !in blobs {
      var y :| y in iso.Values && y in t' && t'[y].kind == File && t'[y].blob == b;
      var x :| x in iso && iso[x] == y;
      CopiedParent(t, t', src, p, name, iso, x);
    }
  }

  lemma BlobsOfUnion(t: Table, a: set<Id>, b: set<Id>)
    ensures BlobsOf(t, a + b) == BlobsOf(t, a) + BlobsOf(t, b)
  {
    forall p | p in BlobsOf(t, a) ensures p in BlobsOf(t, a + b) {
      var x :| x in a && x in t && t[x].kind == File && t[x].blob == p;
      assert x in a + b;
    }
    forall p | p in BlobsOf(t, b) ensures p in BlobsOf(t, a + b) {
      var x :| x in b && x in t && t[x].kind == File && t[x].blob == p;
      assert x in a + b;
    }
  }

  lemma BlobsOfSame(t: Table, t': Table, s: set<Id>)
    requires forall x | x in s :: x in t && x in t' && t'[x] == t[x]
    ensures BlobsOf(t', s) == BlobsOf(t, s)
  {
    forall p | p in BlobsOf(t, s) ensures p in BlobsOf(t', s) {
      var x :| x in s && x in t && t[x].kind == File && t[x].blob == p;
      assert t'[x].blob == p;
    }
  }

  /** A store without orphans stays so when rows are copied with their blobs. */
  lemma CopyTidy(t: Table, blobs: map<Id, Bytes>, t': Table, blobs': map<Id, Bytes>,
                 src: Id, p: Id, name: string, iso: map<Id, Id>)
    requires CopyPart(t, t', src, p, name, iso) && CopiedBlobs(t, blobs, t', blobs', iso)
    ensures NoOrphans(t, blobs) ==> NoOrphans(t', blobs')
  {
    BlobsOfUnion(t', t.Keys, iso.Values);
    BlobsOfSame(t, t', t.Keys);
  }

  lemma JoinBlobs(t: Table, b: map<Id, Bytes>, t1: Table, b1: map<Id, Bytes>, t2: Table, b2: map<Id, Bytes>,
                  iso: map<Id, Id>, iso2: map<Id, Id>)
    requires CopiedBlobs(t, b, t1, b1, iso) && CopiedBlobs(t1, b1, t2, b2, iso2)
    requires forall x | x in t :: x in t1 && t1[x] == t[x]
    requires forall x | x in t1 :: x in t2 && t2[x] == t1[x]
    requires iso.Keys <= t.Keys && iso2.Keys <= t.Keys && iso.Keys !! iso2.Keys
    requires iso.Values <= t1.Keys && iso2.Values <= t2.Keys && BlobsOk(t, b)
    ensures CopiedBlobs(t, b, t2, b2, iso + iso2)
  {
    forall x | x in iso + iso2 && t[x].kind == File && (iso + iso2)[x] in t2
      ensures CopiedBlob(t, b, t2, b2, iso + iso2, x)
    {
      if x in iso2 {
        assert CopiedBlob(t1, b1, t2, b2, iso2, x);
      } else {
        assert iso[x] in t1;
        assert CopiedBlob(t, b, t1, b1, iso, x);
      }
    }
    assert b2.Keys == b.Keys + BlobsOf(t2, (iso + iso2).Values) by {
      JoinedValues(iso, iso2);
      BlobsOfUnion(t2, iso.Values, iso2.Values);
      BlobsOfSame(t1, t2, iso.Values);
    }
  }

  /** The first step of copying a folder: its own row. */
  lemma FolderStarted(t: Table, blobs: map<Id, Bytes>, nextId: Id, src: Id, p: Id, name: string)
    requires Sound(t, blobs, nextId) && src in t && t[src].Live() && t[src].kind == Folder
    requires Target(t, t[src].owner, p)
    ensures var dup := Node(t[src].owner, p, Folder, name, ROOT, 0, t[src].starred, None);
      && Sound(t[nextId := dup], blobs, nextId + 1)
      && CopyPart(t, t[nextId := dup], src, p, name, map[src := nextId])
      && CopiedBlobs(t, blobs, t[nextId := dup], blobs, map[src := nextId])
  {
    var dup := Node(t[src].owner, p, Folder, name, ROOT, 0, t[src].starred, None);
    var t' := t[nextId := dup];
    var iso := map[src := nextId];
    CopyStarts(t, t', src, p, name, nextId, ROOT);
    CreateForest(t, nextId, dup);
    assert iso[src] == nextId && iso.Values == {nextId};
    assert BlobsOf(t', iso.Values) == {};
  }

  /** The children listed after the new folder row exists are those of the table before. */
  lemma ChildrenListed(t: Table, u: User, src: Id, p: Id, name: string, t': Table, iso: map<Id, Id>, children: seq<Id>)
    requires Forest(t) && LiveRow(t, u, src) && !Under(View(t, u, true), src, p)
    requires CopyPart(t, t', src, p, name, iso) && iso.Keys == {src}
    requires forall c :: c in children <==> LiveRow(t', u, c) && t'[c].parent == src
    ensures forall c :: c in children <==> LiveRow(t, u, c) && t[c].parent == src
    ensures ChildrenDone(t, u, children, 0, iso.Keys)
  {
    UnderRefl(View(t, u, true), src);
    assert iso.Values == {iso[src]};
    assert CopiedRow(t, t', src, p, name, iso, src);
    assert src !in children by {
      var rank :| Ranked(t, rank);
    }
    forall j | 0 <= j < |children| ensures children[j] != src {
      assert children[j] in children;
    }
  }

  /** One more child copied. */
  lemma ChildDone(t: Table, b: map<Id, Bytes>, t1: Table, b1: map<Id, Bytes>, t2: Table, b2: map<Id, Bytes>,
                  src: Id, p: Id, name: string, iso: map<Id, Id>, children: seq<Id>, i: nat, iso2: map<Id, Id>)
    requires Forest(t) && BlobsOk(t, b) && src in t && t[src].Live() && i < |children|
    requires CopyPart(t, t1, src, p, name, iso) && CopiedBlobs(t, b, t1, b1, iso)
    requires ChildrenDone(t, t[src].owner, children, i, iso.Keys)
    requires forall c | c in children :: LiveRow(t, t[src].owner, c) && t[c].parent == src
    requires forall j, k | 0 <= j < k < |children| :: children[j] != children[k]
    requires children[i] in t && children[i] in t1 && t1[children[i]] == t[children[i]]
    requires TrashSet(t1, t[src].owner, children[i]) == TrashSet(t, t[src].owner, children[i])
    requires iso.Keys !! TrashSet(t, t[src].owner, children[i])
    requires IsCopy(t1, t2, children[i], iso[src], t[children[i]].name, iso2)
    requires CopiedBlobs(t1, b1, t2, b2, iso2)
    ensures CopyPart(t, t2, src, p, name, iso + iso2) && CopiedBlobs(t, b, t2, b2, iso + iso2)
    ensures ChildrenDone(t, t[src].owner, children, i + 1, (iso + iso2).Keys)
  {
    var c := children[i];
    assert c in children;
    ChildJoined(t, t1, t2, src, p, name, iso, c, iso2);
    JoinBlobs(t, b, t1, b1, t2, b2, iso, iso2);
    NextChild(t, t[src].owner, src, children, i, iso.Keys, iso2.Keys);
    assert (iso + iso2).Keys == iso.Keys + iso2.Keys;
  }

  lemma BlobAdded(t: Table, blobs: map<Id, Bytes>, path: Id, content: Bytes)
    requires BlobsOk(t, blobs) && path !in blobs
    ensures BlobsOk(t, blobs[path := content])
    ensures forall x | x in t && t[x].kind == File :: t[x].blob != path
    ensures blobs[path := content] - {path} == blobs
  {
  }

  lemma RowAdded(t: Table, blobs: map<Id, Bytes>, id: Id, n: Node, content: Bytes)
    requires id !in t && n.kind == File
    ensures NoOrphans(t, blobs) ==> NoOrphans(t[id := n], blobs[n.blob := content])
  {
    var t' := t[id := n];
    assert t'.Keys == t.Keys + {id};
    BlobsOfUnion(t', t.Keys, {id});
    BlobsOfSame(t, t', t.Keys);
    assert BlobsOf(t', {id}) == {n.blob} by { assert t'[id].blob == n.blob; }
  }

  lemma FileCopied(t: Table, blobs: map<Id, Bytes>, src: Id, p: Id, name: string, id: Id, path: Id, content: Bytes)
    requires Forest(t) && src in t && t[src].Live() && t[src].kind == File && id !in t && id != ROOT
    requires path !in blobs && t[src].blob in blobs && content == blobs[t[src].blob]
    ensures var t' := t[id := t[src].(parent := p, name := name, blob := path)];
      IsCopy(t, t', src, p, name, map[src := id]) && CopiedBlobs(t, blobs, t', blobs[path := content], map[src := id])
    ensures var t' := t[id := t[src].(parent := p, name := name, blob := path)];
      NoOrphans(t, blobs) ==> NoOrphans(t', blobs[path := content])
  {
    var t' := t[id := t[src].(parent := p, name := name, blob := path)];
    var iso := map[src := id];
    CopyStarts(t, t', src, p, name, id, path);
    FileAlone(t, t[src].owner, src);
    assert iso[src] == id && iso.Values == {id};
    RowAdded(t, blobs, id, t'[id], content);
    assert BlobsOf(t', {id}) == {path} by { assert t'[id].blob == path; }
  }

  lemma BlobsUndone(t: Table, b: map<Id, Bytes>, t': Table, b': map<Id, Bytes>,
                    src: Id, p: Id, name: string, iso: map<Id, Id>)
    requires ParentsOk(t) && CopyPart(t, t', src, p, name, iso) && CopiedBlobs(t, b, t', b', iso)
    ensures b' - BlobsOf(t', iso.Values) == b
  {
    CopiedBlobsNew(t, b, t', b', src, p, name, iso);
    assert (b' - BlobsOf(t', iso.Values)).Keys == b.Keys;
  }

  /** Stamps are no part of what makes the store sound. */
  lemma RestampSound(t: Table, blobs: map<Id, Bytes>, nextId: Id, t': Table)
    requires Sound(t, blobs, nextId) && t'.Keys == t.Keys
    requires forall x | x in t :: t'[x] == t[x].(deleted := t'[x].deleted)
    ensures Sound(t', blobs, nextId)
    ensures NoOrphans(t, blobs) ==> NoOrphans(t', blobs)
  {
    SameParentsForest(t, t');
    SameBlobs(t, t');
  }

  lemma TrashDone(t: Table, blobs: map<Id, Bytes>, nextId: Id, u: User, id: Id, now: nat, t': Table)
    requires Sound(t, blobs, nextId) && LiveRow(t, u, id)
    requires t' == map x | x in t :: if x in TrashSet(t, u, id) then t[x].(deleted := Some(now)) else t[x]
    ensures t' == Trashed(t, u, id, now) && Sound(t', blobs, nextId)
    ensures NoOrphans(t, blobs) ==> NoOrphans(t', blobs)
    ensures TrashInv(t) ==> forall x | x in t ::
      t'[x] == if Under(t, id, x) && t[x].deleted == None then t[x].(deleted := Some(now)) else t[x]
  {
    RestampSound(t, blobs, nextId, t');
    if TrashInv(t) {
      TrashedExact(t, u, id, now);
    }
  }

  lemma RestoreDone(t: Table, blobs: map<Id, Bytes>, nextId: Id, u: User, id: Id, s: set<Id>, t': Table)
    requires Sound(t, blobs, nextId) && id in t && t[id].owner == u && !t[id].Live()
    requires s == Subtree(View(t, u, false), id) && t'.Keys == t.Keys
    requires forall x | x in t ::
      t'[x] == if x in s && t[x].deleted == t[id].deleted then t[x].(deleted := None) else t[x]
    ensures t' == Restored(t, u, id) && Sound(t', blobs, nextId)
    ensures forall x | x in t ::
      t'[x] == if Under(t, id, x) && t[x].deleted == t[id].deleted then t[x].(deleted := None) else t[x]
    ensures NoOrphans(t, blobs) ==> NoOrphans(t', blobs)
    ensures TrashInv(t) ==> (TrashInv(t') <==> Listed(t, id))
  {
    RestampSound(t, blobs, nextId, t');
    forall x | x in t ensures t'[x] == Restored(t, u, id)[x] {}
    assert t' == Restored(t, u, id);
    RestoredExact(t, u, id);
    if TrashInv(t) {
      RestoreKeepsInvIff(t, u, id);
    }
  }

  /** Deleting a closed set of rows, and the blobs of some of them. */
  lemma RemovalSound(t: Table, blobs: map<Id, Bytes>, nextId: Id, s: set<Id>, r: set<Id>)
    requires Sound(t, blobs, nextId) && r <= s && ROOT !in s
    requires forall x | x in t && t[x].parent in s :: x in s
    ensures Sound(Without(t, s), blobs - BlobsOf(t, r), nextId)
    ensures r == s && NoOrphans(t, blobs) ==> NoOrphans(Without(t, s), blobs - BlobsOf(t, s))
  {
    WithoutForest(t, s);
    SomeRemovedBlobs(t, blobs, s, r);
    if r == s {
      RemovedBlobs(t, blobs, s);
    }
  }

  lemma EmptyTrashDone(t: Table, blobs: map<Id, Bytes>, nextId: Id, u: User, left: Table)
    requires Sound(t, blobs, nextId)
    requires left == map x | x in t && x !in Cascade(t, TrashOf(t, u)) :: t[x]
    ensures left == Without(t, Cascade(t, TrashOf(t, u)))
    ensures Sound(left, blobs - BlobsOf(t, TrashOf(t, u)), nextId)
    ensures TrashInv(t) ==> left == Without(t, TrashOf(t, u))
    ensures TrashInv(t) && NoOrphans(t, blobs) ==> NoOrphans(left, blobs - BlobsOf(t, TrashOf(t, u)))
    ensures forall x | x in left :: left[x].owner == u ==> left[x].deleted == None
    ensures TrashInv(t) ==> forall x | x in t ::
      t[x].deleted == None || t[x].owner != u ==> x in left && left[x] == t[x]
  {
    assert left == Without(t, Cascade(t, TrashOf(t, u)));
    CascadeClosed(t, TrashOf(t, u));
    EmptiedExact(t, u);
    RemovalSound(t, blobs, nextId, Cascade(t, TrashOf(t, u)), TrashOf(t, u));
    if TrashInv(t) {
      EmptyTrashExact(t, u);
    }
  }
}
