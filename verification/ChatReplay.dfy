/**
 Catching up after a reconnect: the (created_at, rowid) cursor, one page of missed messages, and the
 pages put together.
 */
module ChatReplay {

  type RowId = nat

  /** A message row as one user sees it: shown says it is not deleted and lies in a room of his. */
  datatype Msg = Msg(created: nat, shown: bool)

  type Table = map<RowId, Msg>

  /** A position in the replay order; created times are whole seconds. */
  datatype Key = Key(created: nat, row: RowId)

  predicate Less(a: Key, b: Key) {
    a.created < b.created || (a.created == b.created && a.row < b.row)
  }

  function KeyOf(t: Table, r: RowId): Key
    requires r in t
  {
    Key(t[r].created, r)
  }

  /** The rows the replay query selects. */
  function Later(t: Table, c: Key): set<RowId> {
    set r | r in t && t[r].shown && Less(c, KeyOf(t, r))
  }

  ghost predicate IsLeast(t: Table, s: set<RowId>, m: RowId)
    requires s <= t.Keys
  {
    m in s && forall r | r in s && r != m :: Less(KeyOf(t, m), KeyOf(t, r))
  }

  lemma {:induction false} LeastExists(t: Table, s: set<RowId>)
    requires s <= t.Keys && s != {}
    ensures exists m :: IsLeast(t, s, m)
    decreases s
  {
    var x :| x in s;
    if s == {x} {
      assert IsLeast(t, s, x);
    } else {
      var rest := s - {x};
      assert rest != {};
      LeastExists(t, rest);
      var m :| IsLeast(t, rest, m);
      if Less(KeyOf(t, x), KeyOf(t, m)) {
        assert IsLeast(t, s, x);
      } else {
        assert IsLeast(t, s, m);
      }
    }
  }

  ghost function Least(t: Table, s: set<RowId>): (m: RowId)
    requires s <= t.Keys && s != {}
    ensures IsLeast(t, s, m)
  {
    LeastExists(t, s);
    var m :| IsLeast(t, s, m); m
  }

  /** All missed messages after c, in replay order. */
  ghost function Missed(t: Table, c: Key): seq<RowId>
    decreases Later(t, c)
  {
    if Later(t, c) == {} then []
    else
      var m := Least(t, Later(t, c));
      assert Later(t, KeyOf(t, m)) == Later(t, c) - {m};
      [m] + Missed(t, KeyOf(t, m))
  }

  /** Missed is what it should be: exactly the selected rows, each once, in key order. */
  lemma {:induction false} MissedExact(t: Table, c: Key)
    ensures forall r :: r in Missed(t, c) <==> r in Later(t, c)
    ensures forall i, j | 0 <= i < j < |Missed(t, c)| ::
      Missed(t, c)[i] in t && Missed(t, c)[j] in t && Less(KeyOf(t, Missed(t, c)[i]), KeyOf(t, Missed(t, c)[j]))
    decreases Later(t, c)
  {
    if Later(t, c) != {} {
      var m := Least(t, Later(t, c));
      assert Later(t, KeyOf(t, m)) == Later(t, c) - {m};
      MissedExact(t, KeyOf(t, m));
      var rest := Missed(t, KeyOf(t, m));
      assert forall j | 0 <= j < |rest| :: rest[j] in rest;
    }
  }

  /** Told by times and row ids: the visible messages of a later second, or of the same one with a later row id. */
  lemma MissedOrder(t: Table, c: Key)
    ensures forall r :: r in Missed(t, c) <==>
      r in t && t[r].shown && (t[r].created > c.created || (t[r].created == c.created && r > c.row))
    ensures forall i, j | 0 <= i < j < |Missed(t, c)| ::
      var a, b := Missed(t, c)[i], Missed(t, c)[j];
      a in t && b in t && (t[a].created < t[b].created || (t[a].created == t[b].created && a < b))
  {
    MissedExact(t, c);
  }

  /** Resuming after the i-th missed message gives the messages behind it. */
  lemma {:induction false} MissedResumes(t: Table, c: Key, i: nat)
    requires 0 < i <= |Missed(t, c)| && Missed(t, c)[i - 1] in t
    ensures Missed(t, KeyOf(t, Missed(t, c)[i - 1])) == Missed(t, c)[i..]
    decreases i
  {
    var m := Least(t, Later(t, c));
    if i > 1 {
      MissedResumes(t, KeyOf(t, m), i - 1);
    }
  }

  function Min(a: nat, b: nat): nat {
    if a < b then a else b
  }

  /** The least selected row, by scanning. */
  method FindLeast(t: Table, s: set<RowId>) returns (m: RowId)
    requires s <= t.Keys && s != {}
    ensures IsLeast(t, s, m)
  {
    m :| m in s;
    var rest := s - {m};
    while rest != {}
      invariant rest <= s && IsLeast(t, s - rest, m)
    {
      var r :| r in rest;
      if Less(KeyOf(t, r), KeyOf(t, m)) {
        m := r;
      }
      rest := rest - {r};
    }
    assert s - rest == s;
  }

  // The cap on the repository's own limit, and what it falls back to.
  const MAX_LIMIT := 500
  const DEFAULT_LIMIT := 200

  function Clamp(limit: int): nat {
    if limit <= 0 || limit > MAX_LIMIT then DEFAULT_LIMIT else limit
  }

  /** The repository query: it clamps the limit it is given and fetches one row more. */
  method ListMessagesSince(t: Table, c: Key, limit: int) returns (page: seq<RowId>)
    ensures page == Missed(t, c)[..Min(Clamp(limit) + 1, |Missed(t, c)|)]
  {
    var cap := Clamp(limit) + 1;
    page := [];
    var at := c;
    while |page| < cap
      invariant |page| <= |Missed(t, c)| && |page| <= cap
      invariant page == Missed(t, c)[..|page|]
      invariant Missed(t, at) == Missed(t, c)[|page|..]
      decreases cap - |page|
    {
      var s := Later(t, at);
      if s == {} {
        break;
      }
      var m := FindLeast(t, s);
      LeastUnique(t, s, m);
      assert Missed(t, at)[0] == m && Missed(t, c)[|page|] == m;
      page := page + [m];
      at := KeyOf(t, m);
    }
  }

  lemma LeastUnique(t: Table, s: set<RowId>, m: RowId)
    requires s <= t.Keys && s != {} && IsLeast(t, s, m)
    ensures m == Least(t, s)
  {
  }

  datatype Page = Page(msgs: seq<RowId>, cursor: Key, hasMore: bool)

  /** ReplayMissed: asks for one row more than it returns, to learn whether rows remain. */
  method ReplayMissed(t: Table, c: Key, limit: int) returns (p: Page)
    ensures p == PageAt(t, c, limit)
  {
    var n := Clamp(limit);
    var page := ListMessagesSince(t, c, n + 1);
    var hasMore := false;
    if |page| > n {
      hasMore := true;
      page := page[..n];
    }
    MissedExact(t, c);
    var cursor := c;
    if |page| > 0 {
      var last := page[|page| - 1];
      assert last in Missed(t, c);
      cursor := KeyOf(t, last);
    }
    p := Page(page, cursor, hasMore);
  }

  ghost function PageAt(t: Table, c: Key, limit: int): Page {
    MissedExact(t, c);
    var all := Missed(t, c);
    var n := Clamp(limit);
    var fetched := Min(Clamp(n + 1) + 1, |all|);
    var msgs := all[..Min(n, fetched)];
    assert msgs != [] ==> msgs[|msgs| - 1] in all;
    Page(msgs, if msgs == [] then c else KeyOf(t, msgs[|msgs| - 1]), fetched > n)
  }

  /**
   A page is honest when it holds the next missed messages and says truly whether more remain. It is,
   for every limit except 500: one row more than that is clamped to 200, and with more than 201
   messages to show the page stops short and claims to be the last.
   */
  lemma PageHonestIff(t: Table, c: Key, limit: int)
    ensures (PageAt(t, c, limit).hasMore <==> |PageAt(t, c, limit).msgs| < |Missed(t, c)|)
       <==> limit != 500 || |Missed(t, c)| <= 201
    ensures PageAt(t, c, limit).msgs <= Missed(t, c)
    ensures |PageAt(t, c, limit).msgs| ==
      Min(if limit <= 0 || limit > 500 then 200 else if limit == 500 then 201 else limit, |Missed(t, c)|)
  {
  }

  /** Where an honest page stops, the rest of the missed messages starts. */
  lemma PageLeavesRest(t: Table, c: Key, limit: int)
    ensures Missed(t, PageAt(t, c, limit).cursor) == Missed(t, c)[|PageAt(t, c, limit).msgs|..]
    ensures PageAt(t, c, limit).hasMore ==> |PageAt(t, c, limit).msgs| == Clamp(limit)
  {
    var p := PageAt(t, c, limit);
    MissedExact(t, c);
    if p.msgs != [] {
      assert p.msgs[|p.msgs| - 1] == Missed(t, c)[|p.msgs| - 1];
      assert p.msgs[|p.msgs| - 1] in Missed(t, c);
      MissedResumes(t, c, |p.msgs|);
    }
  }

  lemma PageTurned(t: Table, c: Key, limit: int, out: seq<RowId>)
    requires 1 <= limit < 500
    ensures var p := PageAt(t, c, limit);
      && out + Missed(t, c) == (out + p.msgs) + Missed(t, p.cursor)
      && (!p.hasMore ==> Missed(t, p.cursor) == [])
      && (p.hasMore ==> |Missed(t, p.cursor)| < |Missed(t, c)|)
      && |Missed(t, p.cursor)| <= |Missed(t, c)|
  {
    var p, all := PageAt(t, c, limit), Missed(t, c);
    PageHonestIff(t, c, limit);
    PageLeavesRest(t, c, limit);
    assert all == p.msgs + Missed(t, p.cursor);
  }

  /** Following the pages until the last gives every missed message once, in order. */
  method ReplayAll(t: Table, c: Key, limit: int) returns (out: seq<RowId>)
    requires 1 <= limit < 500
    ensures out == Missed(t, c)
  {
    out := [];
    var cursor := c;
    var more := true;
    while more
      invariant out + Missed(t, cursor) == Missed(t, c)
      invariant !more ==> Missed(t, cursor) == []
      decreases |Missed(t, cursor)| + if more then 1 else 0
    {
      var p := ReplayMissed(t, cursor, limit);
      PageTurned(t, cursor, limit, out);
      out := out + p.msgs;
      cursor := p.cursor;
      more := p.hasMore;
    }
  }
}
