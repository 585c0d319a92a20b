/**
 One user's event stream and his browser, interleaved with everyone who sends: subscribe, replay page
 by page, drain, live tail, disconnect and reconnect with the cursor the browser has by then, against
 senders that commit first and publish later.
 */
module ChatDelivery {
  import opened Options
  import opened ChatReplay
  import ChatHub

  // The replay cap of one connection and its page size.
  const REPLAY_MAX := 2000
  const PAGE := 200

  datatype Event = Created(row: RowId) | Updated(row: RowId) | Other

  /** What the handler writes to the browser: an event, or the ready frame with its cursor. */
  datatype Frame = Live(ev: Event) | ReadyAt(cursor: Key)

  /** Ready: the loop is over; more is what the ready frame tells the client. */
  datatype Phase = Idle | Replaying | Ready(more: bool, failed: bool)

  datatype State = State(
    table: Table,
    pending: set<RowId>,      // committed, its sender has not published yet
    lost: set<RowId>,         // committed, its sender died or failed before publishing
    // the connection
    phase: Phase,
    start: Key,               // the cursor it was opened with
    early: set<RowId>,        // rows committed before it was opened
    cursor: Key,
    replayed: nat,
    queue: seq<Event>,        // the subscriber channel
    written: set<RowId>,      // message.created frames written to it
    dropped: set<RowId>,      // refused by its full channel
    wire: seq<Frame>,         // written and not yet read by the browser
    ghost accepted: seq<Event>, // what the channel took in
    ghost tailed: seq<Event>,   // what the drain and the live tail took out
    // the browser
    client: Option<Key>,      // the cursor it will reconnect with
    received: set<RowId>,     // message.created frames it ever read
    ghost base: Option<Key>,  // the last ready cursor it read
    ghost heard: set<RowId>)  // rows of the message frames it read since

  datatype Step =
    | Commit(row: RowId, msg: Msg)
    | Publish(row: RowId)
    | Abandon(row: RowId)
    | Delete(row: RowId)
    | Edit(row: RowId)
    | OtherEvent
    | Subscribe(now: Key)     // now serves a browser that has no cursor
    | ReadPage
    | PageFails
    | Receive
    | Deliver
    | Disconnect

  ghost predicate Subscribed(s: State) {
    !s.phase.Idle?
  }

  ghost function Offered(s: State, ev: Event): State {
    var q := ChatHub.Offer(s.queue, ev);
    s.(queue := q, accepted := if |s.queue| < 128 then s.accepted + [ev] else s.accepted,
       dropped := if q == s.queue && ev.Created? then s.dropped + {ev.row} else s.dropped)
  }

  function PageFrames(rows: seq<RowId>): (fs: seq<Frame>)
    ensures |fs| == |rows| && forall i | 0 <= i < |fs| :: fs[i] == Live(Created(rows[i]))
  {
    seq(|rows|, i requires 0 <= i < |rows| => Live(Created(rows[i])))
  }

  function RowSet(rows: seq<RowId>): set<RowId> {
    set r | r in rows
  }

  /** The replay loop is left and the ready frame written. */
  ghost function SaysReady(s: State, more: bool, failed: bool): State {
    s.(phase := Ready(more, failed), wire := s.wire + [ReadyAt(s.cursor)])
  }

  /** One turn of the replay loop. */
  ghost function PageRead(s: State): State {
    var p := PageAt(s.table, s.cursor, PAGE);
    var n := s.replayed + |p.msgs|;
    var s1 := s.(written := s.written + RowSet(p.msgs), wire := s.wire + PageFrames(p.msgs),
                 cursor := p.cursor, replayed := n);
    if !p.hasMore || n >= REPLAY_MAX then SaysReady(s1, n >= REPLAY_MAX && p.hasMore, false) else s1
  }

  /** The browser reads a frame: messages move its cursor to their second, a ready frame sets it. */
  ghost function Read(s: State, f: Frame): State {
    if f.ReadyAt? then s.(client := Some(f.cursor), base := Some(f.cursor), heard := {})
    else if f.ev.Other? || f.ev.row !in s.table then s
    else
      var at := s.table[f.ev.row].created;
      s.(client := if s.client.None? || at > s.client.value.created then Some(Key(at, 0)) else s.client,
         received := if f.ev.Created? then s.received + {f.ev.row} else s.received,
         heard := s.heard + {f.ev.row})
  }

  ghost function CursorSent(s: State, now: Key): Key {
    if s.client.Some? then s.client.value else now
  }

  /** The effect of one step; a step that is not enabled changes nothing. Row ids start at 1. */
  ghost function Next(s: State, step: Step): State {
    match step
    case Commit(r, m) =>
      if r in s.table || r == 0 then s else s.(table := s.table[r := m], pending := s.pending + {r})
    case Publish(r) =>
      if r !in s.pending then s
      else
        var s1 := s.(pending := s.pending - {r});
        if r in s.table && s.table[r].shown && Subscribed(s) then Offered(s1, Created(r)) else s1
    case Abandon(r) =>
      if r !in s.pending then s else s.(pending := s.pending - {r}, lost := s.lost + {r})
    case Delete(r) =>
      if r !in s.table then s else s.(table := s.table[r := s.table[r].(shown := false)])
    case Edit(r) => if r in s.table && Subscribed(s) then Offered(s, Updated(r)) else s
    case OtherEvent => if Subscribed(s) then Offered(s, Other) else s
    case Subscribe(now) =>
      if Subscribed(s) then s
      else
        var c := CursorSent(s, now);
        s.(phase := Replaying, start := c, early := s.table.Keys, cursor := c, replayed := 0,
           written := {}, dropped := {}, queue := [], wire := [], accepted := [], tailed := [])
    case ReadPage => if s.phase.Replaying? then PageRead(s) else s
    case PageFails => if s.phase.Replaying? then SaysReady(s, false, true) else s
    case Receive =>
      if !s.phase.Ready? || s.queue == [] then s
      else
        var ev := s.queue[0];
        s.(queue := s.queue[1..], wire := s.wire + [Live(ev)], tailed := s.tailed + [ev],
           written := if ev.Created? then s.written + {ev.row} else s.written)
    case Deliver => if s.wire == [] then s else Read(s.(wire := s.wire[1..]), s.wire[0])
    case Disconnect =>
      if Subscribed(s) then s.(phase := Idle, queue := [], wire := [], accepted := [], tailed := []) else s
  }

  ghost function Init(): State {
    State(map[], {}, {}, Idle, Key(0, 0), {}, Key(0, 0), 0, [], {}, {}, [], [], [], None, {}, None, {})
  }

  /** The state a list of steps leads to from s. */
  ghost function From(s: State, steps: seq<Step>): State {
    if steps == [] then s else Next(From(s, steps[..|steps| - 1]), steps[|steps| - 1])
  }

  ghost function After(steps: seq<Step>): State {
    From(Init(), steps)
  }

  // ---------------------------------------------------------------- no loss within a connection

  /** The client asked for this message: it is his to see and lies behind the cursor he came with. */
  ghost predicate Wanted(s: State, r: RowId) {
    r in s.table && s.table[r].shown && Less(s.start, KeyOf(s.table, r))
  }

  /** The replay has not come to this message: it still will, or the client knows it did not. */
  ghost predicate Ahead(s: State, r: RowId) {
    && r in s.table && Less(s.cursor, KeyOf(s.table, r))
    && (s.phase.Replaying? || (s.phase.Ready? && (s.phase.more || s.phase.failed)))
  }

  ghost predicate OnChannel(s: State, r: RowId) {
    Created(r) in s.queue
  }

  ghost predicate Covered(s: State, r: RowId) {
    r in s.written || Ahead(s, r) || OnChannel(s, r) || r in s.dropped || r in s.pending || r in s.lost
  }

  /** Rows there before the subscription are the replay's own business. */
  ghost predicate Replayed(s: State, r: RowId) {
    r in s.written || Ahead(s, r)
  }

  ghost predicate NoLoss(s: State) {
    && s.early <= s.table.Keys
    && (Subscribed(s) ==>
          forall r | Wanted(s, r) :: Covered(s, r) && (r in s.early ==> Replayed(s, r)))
  }

  /** A page takes a selected row, or leaves it behind its cursor and says that more remains. */
  lemma PageTakes(t: Table, c: Key, r: RowId)
    requires r in Later(t, c)
    ensures var p := PageAt(t, c, PAGE); r in p.msgs || (p.hasMore && Less(p.cursor, KeyOf(t, r)))
  {
    var p, all := PageAt(t, c, PAGE), Missed(t, c);
    MissedExact(t, c);
    PageHonestIff(t, c, PAGE);
    PageLeavesRest(t, c, PAGE);
    var i :| 0 <= i < |all| && all[i] == r;
    if i < |p.msgs| {
      assert p.msgs[i] == r;
    } else {
      MissedExact(t, p.cursor);
      assert Missed(t, p.cursor)[i - |p.msgs|] == r;
    }
  }

  lemma PageCovers(s: State, r: RowId)
    requires s.phase.Replaying? && r in s.table && s.table[r].shown && Less(s.cursor, KeyOf(s.table, r))
    ensures Replayed(PageRead(s), r)
  {
    PageTakes(s.table, s.cursor, r);
  }

  /** A message stays accounted for in every step that keeps the stream going. */
  lemma StepCovers(s: State, step: Step, r: RowId)
    requires Subscribed(s) && Subscribed(Next(s, step)) && Wanted(Next(s, step), r)
    requires Wanted(s, r) ==> Covered(s, r) && (r in s.early ==> Replayed(s, r))
    requires s.early <= s.table.Keys
    ensures Covered(Next(s, step), r) && (r in Next(s, step).early ==> Replayed(Next(s, step), r))
  {
    var s' := Next(s, step);
    match step
    case ReadPage =>
      if s.phase.Replaying? && Ahead(s, r) {
        PageCovers(s, r);
      }
    case Receive =>
      if OnChannel(s, r) && s'.queue != s.queue {
        var i :| 0 <= i < |s.queue| && s.queue[i] == Created(r);
        if i > 0 {
          assert s'.queue[i - 1] == Created(r);
        }
      }
    case Publish(q) =>
      StaysOnChannel(s, s', r);
      if r == q && q in s.pending {
        var offered := ChatHub.Offer(s.queue, Created(r));
        assert offered != s.queue ==> offered[|s.queue|] == Created(r);
      }
    case OtherEvent => StaysOnChannel(s, s', r);
    case Edit(_) => StaysOnChannel(s, s', r);
    case _ =>
  }

  lemma StaysOnChannel(s: State, s': State, r: RowId)
    requires s.queue <= s'.queue
    ensures OnChannel(s, r) ==> OnChannel(s', r)
  {
    if OnChannel(s, r) {
      var i :| 0 <= i < |s.queue| && s.queue[i] == Created(r);
      assert s'.queue[i] == Created(r);
    }
  }

  /**
   In every interleaving, while a stream is up: each undeleted message of the user behind the cursor
   it was opened with has been written, waits on the channel, was dropped by a full channel, or was
   not published (yet) by its sender; or the replay has yet to come to it, or ended short of it and
   the client was told so or the query failed. For messages older than the subscription the channel
   is no excuse: they are written or ahead.
   */
  lemma {:induction false} NothingLost(steps: seq<Step>)
    ensures NoLoss(After(steps))
    decreases |steps|
  {
    if steps != [] {
      NothingLost(steps[..|steps| - 1]);
      StepKeepsNoLoss(After(steps[..|steps| - 1]), steps[|steps| - 1]);
    }
  }

  lemma StepKeepsNoLoss(s: State, step: Step)
    requires NoLoss(s)
    ensures NoLoss(Next(s, step))
  {
    if Subscribed(s) && Subscribed(Next(s, step)) {
      forall r | Wanted(Next(s, step), r)
        ensures Covered(Next(s, step), r) && (r in Next(s, step).early ==> Replayed(Next(s, step), r))
      {
        StepCovers(s, step, r);
      }
    }
  }

  /** With the replay finished and not cut short, a wanted message that was published and not dropped is there. */
  lemma CaughtUp(steps: seq<Step>, r: RowId)
    requires var s := After(steps);
      s.phase == Ready(false, false) && Wanted(s, r) && r !in s.pending && r !in s.lost && r !in s.dropped
    ensures r in After(steps).written || OnChannel(After(steps), r)
  {
    NothingLost(steps);
  }

  /** The channel never holds more than its bound. */
  lemma {:induction false} ChannelBounded(steps: seq<Step>)
    ensures |After(steps).queue| <= 128
    decreases |steps|
  {
    if steps != [] {
      ChannelBounded(steps[..|steps| - 1]);
      StepBounded(After(steps[..|steps| - 1]), steps[|steps| - 1]);
    }
  }

  lemma StepBounded(s: State, step: Step)
    requires |s.queue| <= 128
    ensures |Next(s, step).queue| <= 128
  {
    match step
    case Publish(_) =>
    case Receive =>
    case _ =>
  }

  // ---------------------------------------------------------------- one turn of the replay

  /** The rows written are as many as the loop has counted, and the cursor is past each of them. */
  ghost predicate Counted(s: State) {
    s.phase.Replaying? ==>
      && |s.written| == s.replayed
      && forall r | r in s.written :: r in s.table && !Less(s.cursor, KeyOf(s.table, r))
  }

  /** A page holds new rows only, each once. */
  lemma PageIsNew(t: Table, c: Key)
    ensures var p := PageAt(t, c, PAGE);
      && |RowSet(p.msgs)| == |p.msgs|
      && forall r | r in p.msgs :: r in t && Less(c, KeyOf(t, r))
  {
    var p, all := PageAt(t, c, PAGE), Missed(t, c);
    MissedExact(t, c);
    PageHonestIff(t, c, PAGE);
    forall i | 0 <= i < |p.msgs| ensures p.msgs[i] == all[i] && p.msgs[i] in all {}
    forall i, j | 0 <= i < j < |p.msgs| ensures p.msgs[i] != p.msgs[j] {
      assert all[i] in all && Less(KeyOf(t, all[i]), KeyOf(t, all[j]));
    }
    DistinctCount(p.msgs);
  }

  lemma {:induction false} DistinctCount(rows: seq<RowId>)
    requires forall i, j | 0 <= i < j < |rows| :: rows[i] != rows[j]
    ensures |RowSet(rows)| == |rows|
  {
    if rows != [] {
      var front, last := rows[..|rows| - 1], rows[|rows| - 1];
      DistinctCount(front);
      assert last !in front by {
        assert forall i | 0 <= i < |front| :: front[i] == rows[i] != last;
      }
      assert rows == front + [last];
      assert RowSet(rows) == RowSet(front) + {last};
    }
  }

  lemma DisjointCount(a: set<RowId>, b: set<RowId>)
    requires a !! b
    ensures |a + b| == |a| + |b|
  {
  }

  lemma PageKeepsCounted(s: State)
    requires s.phase.Replaying? && Counted(s)
    ensures |PageRead(s).written| == PageRead(s).replayed && Counted(PageRead(s))
  {
    var p := PageAt(s.table, s.cursor, PAGE);
    var rows := RowSet(p.msgs);
    PageIsNew(s.table, s.cursor);
    PageGoesOn(s.table, s.cursor);
    DisjointCount(s.written, rows);
    assert PageRead(s).written == s.written + rows;
  }

  lemma QuietKeepsCounted(s: State, step: Step)
    requires Counted(s) && !step.ReadPage?
    ensures Counted(Next(s, step))
  {
  }

  lemma {:induction false} AlwaysCounted(steps: seq<Step>)
    ensures Counted(After(steps))
    decreases |steps|
  {
    if steps != [] {
      var s := After(steps[..|steps| - 1]);
      AlwaysCounted(steps[..|steps| - 1]);
      if !steps[|steps| - 1].ReadPage? {
        QuietKeepsCounted(s, steps[|steps| - 1]);
      } else if s.phase.Replaying? {
        PageKeepsCounted(s);
      }
    }
  }

  /** A message of the user is left behind the replay's cursor. */
  ghost predicate Remains(s: State) {
    exists r :: r in s.table && s.table[r].shown && Less(s.cursor, KeyOf(s.table, r))
  }

  /**
   In every run a turn of the replay writes the next messages in their order, up to 200. The loop goes
   on exactly when messages remain and fewer than 2000 are written; it says that more remain exactly
   when they do and 2000 are reached; else it is complete.
   */
  lemma ReplayTurn(steps: seq<Step>)
    requires After(steps).phase.Replaying?
    ensures var s := After(steps);
      var s', next := Next(s, ReadPage), Missed(s.table, s.cursor)[..Min(200, |Missed(s.table, s.cursor)|)];
      && s'.written == s.written + RowSet(next)
      && s'.wire[..|s.wire| + |next|] == s.wire + PageFrames(next)
      && (s'.phase.Replaying? <==> Remains(s') && |s'.written| < 2000)
      && (s'.phase == Ready(true, false) <==> Remains(s') && |s'.written| >= 2000)
      && (s'.phase == Ready(false, false) <==> !Remains(s'))
  {
    AlwaysCounted(steps);
    TurnCounted(After(steps));
    TurnWrites(After(steps));
  }

  lemma TurnWrites(s: State)
    ensures var s', next := PageRead(s), Missed(s.table, s.cursor)[..Min(200, |Missed(s.table, s.cursor)|)];
      && s'.written == s.written + RowSet(next)
      && s'.wire[..|s.wire| + |next|] == s.wire + PageFrames(next)
  {
    PageHonestIff(s.table, s.cursor, PAGE);
  }

  lemma TurnCounted(s: State)
    requires s.phase.Replaying? && Counted(s)
    ensures var s' := PageRead(s);
      && (s'.phase.Replaying? <==> Remains(s') && |s'.written| < 2000)
      && (s'.phase == Ready(true, false) <==> Remains(s') && |s'.written| >= 2000)
      && (s'.phase == Ready(false, false) <==> !Remains(s'))
  {
    var p := PageAt(s.table, s.cursor, PAGE);
    PageKeepsCounted(s);
    assert p.hasMore <==> Missed(s.table, p.cursor) != [] by {
      PageHonestIff(s.table, s.cursor, PAGE);
      PageLeavesRest(s.table, s.cursor, PAGE);
    }
    MissedRemains(s.table, p.cursor);
  }

  lemma MissedRemains(t: Table, c: Key)
    ensures Missed(t, c) != [] <==> exists r :: r in t && t[r].shown && Less(c, KeyOf(t, r))
  {
    MissedExact(t, c);
    if Missed(t, c) != [] {
      assert Missed(t, c)[0] in Missed(t, c);
    }
    if r :| r in t && t[r].shown && Less(c, KeyOf(t, r)) {
      assert r in Later(t, c);
    }
  }

  /** Only a page read at the cap ends a replay with more to come. */
  lemma CutOnlyAtTheCap(steps: seq<Step>, step: Step)
    requires After(steps).phase.Replaying? && Next(After(steps), step).phase == Ready(true, false)
    ensures |Next(After(steps), step).written| >= 2000
  {
    ReplayTurn(steps);
  }

  // ---------------------------------------------------------------- what reaches the browser

  /** Frames written are read or on the wire, the ready frame tells the replay's cursor, events keep their order. */
  ghost predicate Told(s: State) {
    && (forall r | Created(r) in s.queue :: r in s.table)
    && (Subscribed(s) ==> s.written <= s.table.Keys)
    && (Subscribed(s) ==> forall r | r in s.written :: r in s.received || Live(Created(r)) in s.wire)
    && (forall c | ReadyAt(c) in s.wire :: s.phase.Ready? && c == s.cursor)
    && (s.phase.Ready? ==> ReadyAt(s.cursor) in s.wire || s.base == Some(s.cursor))
    && s.tailed + s.queue == s.accepted
  }

  lemma ReadKeepsTold(s: State)
    requires Told(s) && s.wire != []
    ensures Told(Next(s, Deliver))
  {
    var f, rest := s.wire[0], s.wire[1..];
    assert s.wire == [f] + rest;
  }

  lemma PageKeepsTold(s: State)
    requires Told(s) && s.phase.Replaying?
    ensures Told(PageRead(s))
  {
    var s', p := PageRead(s), PageAt(s.table, s.cursor, PAGE);
    PageIsNew(s.table, s.cursor);
    forall r | r in s'.written ensures r in s'.received || Live(Created(r)) in s'.wire {
      if r in p.msgs {
        var i :| 0 <= i < |p.msgs| && p.msgs[i] == r;
        assert PageFrames(p.msgs)[i] == Live(Created(r));
        assert s'.wire[|s.wire| + i] == Live(Created(r));
      }
    }
    forall c | ReadyAt(c) in s'.wire ensures s'.phase.Ready? && c == s'.cursor {
      assert ReadyAt(c) !in s.wire && ReadyAt(c) !in PageFrames(p.msgs);
    }
  }

  lemma OfferKeepsTold(s: State, ev: Event)
    requires Told(s) && (ev.Created? ==> ev.row in s.table)
    ensures Told(Offered(s, ev))
  {
    if |s.queue| < 128 {
      assert Offered(s, ev).queue == s.queue + [ev];
      assert s.tailed + (s.queue + [ev]) == (s.tailed + s.queue) + [ev];
    }
  }

  lemma ReceiveKeepsTold(s: State)
    requires Told(s)
    ensures Told(Next(s, Receive))
  {
    if s.phase.Ready? && s.queue != [] {
      var s' := Next(s, Receive);
      assert s.queue[0] in s.queue;
      assert s'.tailed + s'.queue == s.tailed + s.queue by { assert s.queue == [s.queue[0]] + s.queue[1..]; }
      assert s'.wire == s.wire + [Live(s.queue[0])];
    }
  }

  lemma StepKeepsTold(s: State, step: Step)
    requires Told(s)
    ensures Told(Next(s, step))
  {
    match step
    case Deliver => if s.wire != [] { ReadKeepsTold(s); }
    case ReadPage => if s.phase.Replaying? { PageKeepsTold(s); }
    case Receive => ReceiveKeepsTold(s);
    case Publish(r) =>
      if r in s.pending && r in s.table { OfferKeepsTold(s.(pending := s.pending - {r}), Created(r)); }
    case Edit(r) => OfferKeepsTold(s, Updated(r));
    case OtherEvent => OfferKeepsTold(s, Other);
    case _ =>
  }

  lemma {:induction false} AlwaysTold(steps: seq<Step>)
    ensures Told(After(steps))
    decreases |steps|
  {
    if steps != [] {
      AlwaysTold(steps[..|steps| - 1]);
      StepKeepsTold(After(steps[..|steps| - 1]), steps[|steps| - 1]);
    }
  }

  /** What the hub loses, and nothing else is lost: a message is dropped at a full channel only. */
  lemma StepLoses(s: State, step: Step, r: RowId)
    ensures r in Next(s, step).dropped && r !in s.dropped ==> step == Publish(r) && |s.queue| >= 128
    ensures r in Next(s, step).lost && r !in s.lost ==> step == Abandon(r)
    ensures r in s.pending && r !in Next(s, step).pending ==> step == Publish(r) || step == Abandon(r)
    ensures Next(s, step).phase == Ready(false, true) && s.phase != Ready(false, true) ==> step == PageFails
  {
  }

  /** Only messages the user may see are put on his channel or written, the latter from a page or the channel. */
  lemma StepShows(s: State, step: Step, r: RowId)
    ensures Created(r) in Next(s, step).queue && Created(r) !in s.queue ==>
      step == Publish(r) && r in s.pending && r in s.table && s.table[r].shown
    ensures r in Next(s, step).written && r !in s.written ==>
      || (step == Receive && Created(r) in s.queue)
      || (step == ReadPage && r in s.table && s.table[r].shown && Less(s.cursor, KeyOf(s.table, r)))
  {
    if step.ReadPage? && r in PageAt(s.table, s.cursor, PAGE).msgs {
      MissedExact(s.table, s.cursor);
      PageHonestIff(s.table, s.cursor, PAGE);
      assert r in Missed(s.table, s.cursor);
    }
  }

  /** A message is there and on its way once committed; only its deletion hides it. */
  lemma StepStores(s: State, step: Step, r: RowId, m: Msg)
    ensures r !in s.table && r > 0 ==>
      r in Next(s, Commit(r, m)).table && Next(s, Commit(r, m)).table[r] == m && r in Next(s, Commit(r, m)).pending
    ensures r in s.table ==> !Next(s, Delete(r)).table[r].shown
    ensures r in s.table && s.table[r].shown ==> (Next(s, step).table[r] == s.table[r] <==> step != Delete(r))
  {
  }

  // ---------------------------------------------------------------- reconnecting

  /** The browser read a ready cursor at or behind the row, or since then a frame of a later second. */
  ghost predicate Passed(s: State, r: RowId)
    requires r in s.table
  {
    || (s.base.Some? && !Less(s.base.value, KeyOf(s.table, r)))
    || exists f :: f in s.heard && f in s.table && s.table[f].created > s.table[r].created
  }

  /** The browser's cursor is its last ready cursor, or the start of the latest second it read a frame of. */
  ghost predicate CursorTrue(s: State) {
    && (forall r | r in s.table :: r > 0)
    && s.heard <= s.table.Keys
    && (s.base.Some? ==> s.client.Some? && !Less(s.client.value, s.base.value))
    && (forall f | f in s.heard :: s.client.Some? && s.table[f].created <= s.client.value.created)
    && (s.client.Some? && s.client != s.base ==>
          s.client.value.row == 0 && exists f :: f in s.heard && s.table[f].created == s.client.value.created)
  }

  /** Reading a frame keeps the cursor true. */
  lemma ReadKeepsCursorTrue(s: State, f: Frame)
    requires CursorTrue(s)
    ensures CursorTrue(Read(s, f))
  {
    var s' := Read(s, f);
    if f.Live? && !f.ev.Other? && f.ev.row in s.table {
      assert f.ev.row in s'.heard;
      if s'.client == s.client && s'.client != s'.base {
        var g :| g in s.heard && s.table[g].created == s.client.value.created;
        assert g in s'.heard;
      }
    }
  }

  /** So does a step that leaves the browser alone; rows keep their time. */
  lemma OthersKeepCursorTrue(s: State, s': State)
    requires CursorTrue(s)
    requires s'.client == s.client && s'.base == s.base && s'.heard == s.heard
    requires forall r | r in s.table :: r in s'.table && s'.table[r].created == s.table[r].created
    requires forall r | r in s'.table :: r > 0
    ensures CursorTrue(s')
  {
  }

  lemma StepKeepsCursorTrue(s: State, step: Step)
    requires CursorTrue(s)
    ensures CursorTrue(Next(s, step))
  {
    if step.Deliver? {
      if s.wire != [] {
        OthersKeepCursorTrue(s, s.(wire := s.wire[1..]));
        ReadKeepsCursorTrue(s.(wire := s.wire[1..]), s.wire[0]);
      }
    } else {
      OthersKeepCursorTrue(s, Next(s, step));
    }
  }

  lemma {:induction false} CursorAlwaysTrue(steps: seq<Step>)
    ensures CursorTrue(After(steps))
    decreases |steps|
  {
    if steps != [] {
      CursorAlwaysTrue(steps[..|steps| - 1]);
      StepKeepsCursorTrue(After(steps[..|steps| - 1]), steps[|steps| - 1]);
    }
  }

  /** In every run, what the browser will ask for leaves out exactly the rows it has passed. */
  lemma CursorPassedIff(steps: seq<Step>, r: RowId)
    requires r in After(steps).table && After(steps).client.Some?
    ensures !Less(After(steps).client.value, KeyOf(After(steps).table, r)) <==> Passed(After(steps), r)
  {
    CursorAlwaysTrue(steps);
  }

  /** The connection has nothing more to bring of this message. */
  ghost predicate Spent(s: State, r: RowId) {
    && r in s.table && r !in s.pending && Created(r) !in s.queue
    && (Subscribed(s) ==> !Less(s.cursor, KeyOf(s.table, r)))
  }

  lemma PageBrings(s: State, r: RowId)
    requires r in s.table && !Less(s.cursor, KeyOf(s.table, r))
    ensures r !in PageAt(s.table, s.cursor, PAGE).msgs
    ensures !Less(PageAt(s.table, s.cursor, PAGE).cursor, KeyOf(s.table, r))
  {
    var p := PageAt(s.table, s.cursor, PAGE);
    MissedExact(s.table, s.cursor);
    PageHonestIff(s.table, s.cursor, PAGE);
    assert forall x | x in p.msgs :: x in Missed(s.table, s.cursor);
    if p.msgs != [] {
      assert p.msgs[|p.msgs| - 1] in p.msgs;
    }
  }

  lemma StepKeepsSpent(s: State, step: Step, r: RowId)
    requires Spent(s, r) && (step.Subscribe? && !Subscribed(s) ==> !Less(CursorSent(s, step.now), KeyOf(s.table, r)))
    ensures Spent(Next(s, step), r)
    ensures r in Next(s, step).written ==> r in s.written
    ensures Live(Created(r)) in Next(s, step).wire ==> Live(Created(r)) in s.wire
  {
    if step.ReadPage? && s.phase.Replaying? {
      PageBrings(s, r);
    }
  }

  predicate Stays(steps: seq<Step>) {
    forall k | 0 <= k < |steps| :: !steps[k].Disconnect?
  }

  lemma {:induction false} StaysOpen(s: State, steps: seq<Step>)
    requires Subscribed(s) && Stays(steps)
    ensures var s' := From(s, steps); Subscribed(s') && s'.start == s.start && s'.early == s.early
    ensures forall r | r in s.table ::
      r in From(s, steps).table && KeyOf(From(s, steps).table, r) == KeyOf(s.table, r)
    decreases |steps|
  {
    if steps != [] {
      StaysOpen(s, steps[..|steps| - 1]);
    }
  }

  lemma {:induction false} StaysSpent(s: State, steps: seq<Step>, r: RowId)
    requires Subscribed(s) && Stays(steps) && Spent(s, r) && r !in s.written
    ensures Spent(From(s, steps), r) && r !in From(s, steps).written
    decreases |steps|
  {
    if steps != [] {
      var front := steps[..|steps| - 1];
      StaysSpent(s, front, r);
      StaysOpen(s, front);
      StepKeepsSpent(From(s, front), steps[|steps| - 1], r);
    }
  }

  lemma {:induction false} FromConcat(s: State, a: seq<Step>, b: seq<Step>)
    ensures From(s, a + b) == From(From(s, a), b)
    decreases |b|
  {
    if b == [] {
      assert a + b == a;
    } else {
      assert (a + b)[..|a + b| - 1] == a + b[..|b| - 1];
      FromConcat(s, a, b[..|b| - 1]);
    }
  }

  /** Nothing but the replay can bring this message, and it has not gone past it unwritten. */
  ghost predicate LeftToReplay(s: State, r: RowId) {
    && r in s.table && r !in s.pending && Created(r) !in s.queue
    && (r in s.written ==> !Less(s.cursor, KeyOf(s.table, r)))
    && !Less(s.cursor, s.start)
  }

  lemma StepLeavesToReplay(s: State, step: Step, r: RowId)
    requires Subscribed(s) && LeftToReplay(s, r) && !step.Disconnect?
    ensures LeftToReplay(Next(s, step), r)
  {
    if step.ReadPage? && s.phase.Replaying? {
      PageGoesOn(s.table, s.cursor);
    }
  }

  /** A page's cursor is no earlier than the one it was read with, and at or behind each of its messages. */
  lemma PageGoesOn(t: Table, c: Key)
    ensures var p := PageAt(t, c, PAGE);
      !Less(p.cursor, c) && forall r | r in p.msgs :: r in t && !Less(p.cursor, KeyOf(t, r))
  {
    var p, all := PageAt(t, c, PAGE), Missed(t, c);
    MissedExact(t, c);
    PageHonestIff(t, c, PAGE);
    forall r | r in p.msgs ensures r in t && !Less(p.cursor, KeyOf(t, r)) {
      var i :| 0 <= i < |p.msgs| && p.msgs[i] == r;
      assert all[i] == r && all[|p.msgs| - 1] == p.msgs[|p.msgs| - 1] && r in all;
    }
    if p.msgs != [] {
      assert all[|p.msgs| - 1] in all;
    }
  }

  lemma {:induction false} StaysLeftToReplay(s: State, steps: seq<Step>, r: RowId)
    requires Subscribed(s) && Stays(steps) && LeftToReplay(s, r)
    ensures LeftToReplay(From(s, steps), r)
    decreases |steps|
  {
    if steps != [] {
      var front := steps[..|steps| - 1];
      StaysLeftToReplay(s, front, r);
      StaysOpen(s, front);
      StepLeavesToReplay(From(s, front), steps[|steps| - 1], r);
    }
  }

  /**
   For every run up to a reconnect, and every course of the connection from there, be its replay still
   going, ended, cut short by the cap or failed: a message whose sending was over by then, be it
   delivered, dropped or never published, is written to the new connection if and only if it lies
   behind the cursor the browser came with and not behind the one the replay has reached.
   */
  lemma ReplayBringsExactly(before: seq<Step>, now: Key, after: seq<Step>, r: RowId)
    requires !Subscribed(After(before)) && r in After(before).table && r !in After(before).pending
    requires Stays(after)
    requires var s := After(before + [Subscribe(now)] + after); r in s.table && s.table[r].shown
    ensures var s0, s := After(before), After(before + [Subscribe(now)] + after);
      && KeyOf(s.table, r) == KeyOf(s0.table, r) && !Less(s.cursor, CursorSent(s0, now))
      && (r in s.written <==> Less(CursorSent(s0, now), KeyOf(s0.table, r)) && !Less(s.cursor, KeyOf(s0.table, r)))
  {
    var s0 := After(before);
    var s1 := Next(s0, Subscribe(now));
    ConnectionFrom(before, now, after);
    StaysOpen(s1, after);
    NothingLost(before + [Subscribe(now)] + after);
    StaysLeftToReplay(s1, after, r);
    if !Less(CursorSent(s0, now), KeyOf(s0.table, r)) {
      StaysSpent(s1, after, r);
    }
  }

  lemma ConnectionFrom(before: seq<Step>, now: Key, after: seq<Step>)
    ensures After(before + [Subscribe(now)] + after) == From(Next(After(before), Subscribe(now)), after)
  {
    assert (before + [Subscribe(now)])[..|before|] == before;
    FromConcat(Init(), before + [Subscribe(now)], after);
  }

  /**
   So once the replay has ended uncut and unfailed it has brought exactly the messages the browser had
   not passed. A browser without a cursor gets what lies behind now.
   */
  lemma ReplayBringsIff(before: seq<Step>, now: Key, after: seq<Step>, r: RowId)
    requires !Subscribed(After(before)) && r in After(before).table && r !in After(before).pending
    requires Stays(after)
    requires var s := After(before + [Subscribe(now)] + after);
      s.phase == Ready(false, false) && r in s.table && s.table[r].shown
    ensures var s0, s := After(before), After(before + [Subscribe(now)] + after);
      r in s.written <==> if s0.client.Some? then !Passed(s0, r) else Less(now, KeyOf(s0.table, r))
  {
    ReplayBringsExactly(before, now, after, r);
    ConnectionFrom(before, now, after);
    StaysOpen(Next(After(before), Subscribe(now)), after);
    NothingLost(before + [Subscribe(now)] + after);
    if After(before).client.Some? {
      CursorPassedIff(before, r);
    }
  }

  /**
   A replay cut short hands over: when the browser has read its ready frame and reopens the stream at
   once, what the browser had not passed before was either written or is asked for next, never both.
   */
  lemma CappedHandsOver(before: seq<Step>, now: Key, after: seq<Step>, r: RowId)
    requires !Subscribed(After(before)) && r in After(before).table && r !in After(before).pending
    requires Stays(after)
    requires var s := After(before + [Subscribe(now)] + after);
      s.phase.Ready? && s.client == Some(s.cursor) && r in s.table && s.table[r].shown
    ensures var s0, s := After(before), After(before + [Subscribe(now)] + after);
      var asked := Less(CursorSent(Next(s, Disconnect), now), KeyOf(s.table, r));
      && (Less(CursorSent(s0, now), KeyOf(s0.table, r)) <==> r in s.written || asked)
      && !(r in s.written && asked)
  {
    ReplayBringsExactly(before, now, after, r);
  }

  // ---------------------------------------------------------------- lost to the stream

  /** Nothing on its way to the browser, now or after any reconnect, is this message. */
  ghost predicate Gone(s: State, r: RowId) {
    && Spent(s, r) && Live(Created(r)) !in s.wire
    && s.client.Some? && !Less(s.client.value, KeyOf(s.table, r))
    && forall i | 0 <= i < |s.wire| && s.wire[i].ReadyAt? :: !Less(s.wire[i].cursor, KeyOf(s.table, r))
  }

  lemma StepKeepsGone(s: State, step: Step, r: RowId)
    requires Gone(s, r)
    ensures Gone(Next(s, step), r)
    ensures r in Next(s, step).received ==> r in s.received
  {
    StepKeepsSpent(s, step, r);
    if step.ReadPage? && s.phase.Replaying? {
      PageBrings(s, r);
    }
    if step.Deliver? && s.wire != [] {
      assert s.wire[0] in s.wire;
    }
  }

  /** A message of the user that his browser never read and has passed, and whose sending is over. */
  ghost predicate PassedUnread(s: State, r: RowId) {
    && !Subscribed(s) && r in s.table && s.table[r].shown && r !in s.pending
    && s.client.Some? && Passed(s, r) && r !in s.received
  }

  /** No frame of any later stream brings such a message, however often the browser reconnects. */
  lemma LostToStream(before: seq<Step>, after: seq<Step>, r: RowId)
    requires PassedUnread(After(before), r)
    ensures r !in After(before + after).received
  {
    CursorPassedIff(before, r);
    IdleEmpty(before);
    StaysGone(After(before), after, r);
    FromConcat(Init(), before, after);
  }

  lemma {:induction false} IdleEmpty(steps: seq<Step>)
    ensures !Subscribed(After(steps)) ==> After(steps).queue == [] && After(steps).wire == []
    decreases |steps|
  {
    if steps != [] {
      IdleEmpty(steps[..|steps| - 1]);
    }
  }

  lemma {:induction false} StaysGone(s: State, steps: seq<Step>, r: RowId)
    requires Gone(s, r) && r !in s.received
    ensures Gone(From(s, steps), r) && r !in From(s, steps).received
    decreases |steps|
  {
    if steps != [] {
      StaysGone(s, steps[..|steps| - 1], r);
      StepKeepsGone(From(s, steps[..|steps| - 1]), steps[|steps| - 1], r);
    }
  }

  /** A first connection without a backlog, ready and read. */
  ghost function Opened(): State {
    var c := Key(5, 0);
    Init().(phase := Ready(false, false), start := c, cursor := c, client := Some(c), base := Some(c))
  }

  const OPENING: seq<Step> := [Subscribe(Key(5, 0)), ReadPage, Deliver]

  lemma FromOne(s: State, step: Step)
    ensures From(s, [step]) == Next(s, step)
  {
    assert [step][..0] == [];
    assert From(s, []) == s;
  }

  lemma FromTwo(s: State, a: Step, b: Step)
    ensures From(s, [a, b]) == Next(Next(s, a), b)
  {
    assert [a, b][..1] == [a];
    FromOne(s, a);
  }

  lemma FromThree(s: State, a: Step, b: Step, c: Step)
    ensures From(s, [a, b, c]) == Next(Next(Next(s, a), b), c)
  {
    assert [a, b, c][..2] == [a, b];
    FromTwo(s, a, b);
  }

  lemma OpeningOpens()
    ensures After(OPENING) == Opened()
  {
    var c := Key(5, 0);
    FromThree(Init(), Subscribe(c), ReadPage, Deliver);
    var s1 := Next(Init(), Subscribe(c));
    assert s1 == Init().(phase := Replaying, start := c, cursor := c);
    MissedExact(s1.table, c);
    assert PageAt(s1.table, c, PAGE) == Page([], c, false);
    var s2 := Next(s1, ReadPage);
    assert s2 == s1.(phase := Ready(false, false), wire := [ReadyAt(c)]);
    assert s2.wire[1..] == [];
  }

  /** A first message committed, published and read; then a second one commits with an older time stamp. */
  ghost function LateRun(): seq<Step> {
    OPENING + [Commit(1, Msg(11, true)), Publish(1)] + [Receive, Deliver, Disconnect]
    + [Commit(2, Msg(10, true)), Publish(2)]
  }

  /** The browser reads the one message that waits, of second 11, and leaves. */
  lemma ReadsOne(s: State, r: RowId)
    requires s.phase.Ready? && s.wire == [] && s.queue != [] && s.queue[0] == Created(r)
    requires r in s.table && s.table[r].created == 11 && s.client == Some(Key(5, 0))
    ensures From(s, [Receive, Deliver, Disconnect]) ==
      s.(phase := Idle, queue := [], accepted := [], tailed := [], written := s.written + {r},
         client := Some(Key(11, 0)), received := s.received + {r}, heard := s.heard + {r})
  {
    FromThree(s, Receive, Deliver, Disconnect);
    var s1 := Next(s, Receive);
    assert s1.wire == [Live(Created(r))] && s1.wire[1..] == [];
  }

  lemma LateRunEnds()
    ensures var s := After(LateRun()); PassedUnread(s, 2) && 2 !in s.dropped
  {
    var a, b := [Commit(1, Msg(11, true)), Publish(1)], [Receive, Deliver, Disconnect];
    var d := [Commit(2, Msg(10, true)), Publish(2)];
    OpeningOpens();
    FromConcat(Init(), OPENING, a);
    FromConcat(Init(), OPENING + a, b);
    FromConcat(Init(), OPENING + a + b, d);
    FromTwo(Opened(), a[0], a[1]);
    var s1 := From(Opened(), a);
    assert s1 == Opened().(table := map[1 := Msg(11, true)], queue := [Created(1)], accepted := [Created(1)]);
    ReadsOne(s1, 1);
    var s2 := From(s1, b);
    FromTwo(s2, d[0], d[1]);
    var s := From(s2, d);
    assert s == s2.(table := map[1 := Msg(11, true), 2 := Msg(10, true)]);
    assert 1 in s.heard && s.table[1].created > s.table[2].created;
  }

  ghost function Others(n: nat): seq<Step> {
    seq(n, _ => OtherEvent)
  }

  lemma {:induction false} OthersFill(s: State, n: nat)
    requires Subscribed(s) && |s.queue| + n <= ChatHub.BUFFER
    ensures From(s, Others(n)) ==
      s.(queue := s.queue + seq(n, _ => Other), accepted := s.accepted + seq(n, _ => Other))
    decreases n
  {
    if n == 0 {
      assert s.queue + seq(0, _ => Other) == s.queue && s.accepted + seq(0, _ => Other) == s.accepted;
    } else {
      OthersFill(s, n - 1);
      assert Others(n)[..n - 1] == Others(n - 1);
      assert s.queue + seq(n - 1, _ => Other) + [Other] == s.queue + seq(n, _ => Other);
      assert s.accepted + seq(n - 1, _ => Other) + [Other] == s.accepted + seq(n, _ => Other);
    }
  }

  /** A message is dropped by a full channel in which one of the next second waits, and the browser reads that one. */
  ghost function DropRun(): seq<Step> {
    OPENING + [Commit(1, Msg(10, true)), Commit(2, Msg(11, true)), Publish(2)] + Others(ChatHub.BUFFER - 1)
    + [Publish(1)] + [Receive, Deliver, Disconnect]
  }

  lemma DropRunEnds()
    ensures var s := After(DropRun()); PassedUnread(s, 1) && 1 in s.dropped
  {
    var a, o := [Commit(1, Msg(10, true)), Commit(2, Msg(11, true)), Publish(2)], Others(ChatHub.BUFFER - 1);
    var b, d := [Publish(1)], [Receive, Deliver, Disconnect];
    OpeningOpens();
    FromConcat(Init(), OPENING, a);
    FromConcat(Init(), OPENING + a, o);
    FromConcat(Init(), OPENING + a + o, b);
    FromConcat(Init(), OPENING + a + o + b, d);
    FromThree(Opened(), a[0], a[1], a[2]);
    var s1 := From(Opened(), a);
    assert s1 == Opened().(table := map[1 := Msg(10, true), 2 := Msg(11, true)], pending := {1},
                           queue := [Created(2)], accepted := [Created(2)]);
    OthersFill(s1, ChatHub.BUFFER - 1);
    var s2 := From(s1, o);
    FromOne(s2, b[0]);
    var s3 := From(s2, b);
    assert s3 == s2.(pending := {}, dropped := {1});
    ReadsOne(s3, 2);
    var s := From(s3, d);
    assert 2 in s.heard && s.table[2].created > s.table[1].created;
  }

  /** Replay on reconnect does not recover what was dropped or came late: no later frame brings these messages. */
  lemma ReconnectLoses(after: seq<Step>)
    ensures 1 in After(DropRun()).dropped && PassedUnread(After(DropRun()), 1)
    ensures 1 !in After(DropRun() + after).received
    ensures PassedUnread(After(LateRun()), 2) && 2 !in After(LateRun() + after).received
  {
    DropRunEnds();
    LostToStream(DropRun(), after, 1);
    LateRunEnds();
    LostToStream(LateRun(), after, 2);
  }
}
