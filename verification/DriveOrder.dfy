/** The order in which a folder's children are listed. */
module DriveOrder {
  import opened DriveTree
  import opened Text

  /** Folders first, then by name without regard to case, then by name. */
  predicate Comes(a: Node, b: Node) {
    if a.kind != b.kind then a.kind == Folder
    else if Lower(a.name) != Lower(b.name) then NotAfter(Lower(a.name), Lower(b.name))
    else NotAfter(a.name, b.name)
  }

  lemma ComesTotal(a: Node, b: Node)
    ensures Comes(a, b) || Comes(b, a)
  {
    NotAfterTotal(Lower(a.name), Lower(b.name));
    NotAfterTotal(a.name, b.name);
  }

  lemma ComesTrans(a: Node, b: Node, c: Node)
    requires Comes(a, b) && Comes(b, c)
    ensures Comes(a, c)
  {
    if a.kind == b.kind == c.kind {
      var la, lb, lc := Lower(a.name), Lower(b.name), Lower(c.name);
      NotAfterTotal(la, lb);
      NotAfterTotal(lb, lc);
      if la == lb == lc {
        NotAfterTrans(a.name, b.name, c.name);
      } else if la != lb && lb != lc {
        NotAfterTrans(la, lb, lc);
      }
    }
  }

  predicate InOrder(t: Table, cs: seq<Id>) {
    forall i, j | 0 <= i < j < |cs| :: cs[i] in t && cs[j] in t && Comes(t[cs[i]], t[cs[j]])
  }

  /** Row x may stand before row y: folders first, rows of a kind by lower-cased name, those equal in it by name. */
  predicate Goes(t: Table, x: Id, y: Id) {
    && x in t && y in t
    && (t[y].kind == Folder ==> t[x].kind == Folder)
    && (t[x].kind == t[y].kind ==> NotAfter(Lower(t[x].name), Lower(t[y].name)))
    && (t[x].kind == t[y].kind && Lower(t[x].name) == Lower(t[y].name) ==> NotAfter(t[x].name, t[y].name))
  }

  lemma InOrderMeans(t: Table, cs: seq<Id>)
    requires InOrder(t, cs)
    ensures forall i, j | 0 <= i < j < |cs| :: Goes(t, cs[i], cs[j])
  {
    forall i, j | 0 <= i < j < |cs| ensures Goes(t, cs[i], cs[j]) {
      InOrderAt(t, cs, i, j);
      NotAfterTotal(Lower(t[cs[i]].name), Lower(t[cs[j]].name));
    }
  }

  lemma InOrderAt(t: Table, cs: seq<Id>, i: nat, j: nat)
    requires InOrder(t, cs) && i < j < |cs|
    ensures cs[i] in t && cs[j] in t && Comes(t[cs[i]], t[cs[j]])
  {
  }

  lemma InOrderMore(t: Table, cs: seq<Id>, c: Id)
    requires InOrder(t, cs) && c in t && forall x | x in cs :: x in t && Comes(t[x], t[c])
    ensures InOrder(t, cs + [c])
  {
    forall i | 0 <= i < |cs| ensures cs[i] in t && Comes(t[cs[i]], t[c]) {
      assert cs[i] in cs;
    }
  }

  /** The row that comes first, by scanning. */
  method FirstOf(t: Table, ids: set<Id>) returns (c: Id)
    requires ids != {} && ids <= t.Keys
    ensures c in ids && forall x | x in ids :: Comes(t[c], t[x])
  {
    c :| c in ids;
    ComesTotal(t[c], t[c]);
    var rest := ids - {c};
    while rest != {}
      invariant rest <= ids && c in ids
      invariant forall x | x in ids && x !in rest :: Comes(t[c], t[x])
    {
      var x :| x in rest;
      ComesTotal(t[x], t[x]);
      if !Comes(t[c], t[x]) {
        ComesTotal(t[c], t[x]);
        forall y | y in ids && y !in rest ensures Comes(t[x], t[y]) {
          ComesTrans(t[x], t[c], t[y]);
        }
        c := x;
      }
      rest := rest - {x};
    }
  }
}
