/** The event hub: subscriber channels with bounded buffers, and who gets what is published. */
module ChatHub {

  type User = nat
  type Chan = nat

  // subscriberBufferSize
  const BUFFER := 128

  /** A send that gives up when the buffer is full. */
  function Offer<E>(buf: seq<E>, ev: E): seq<E> {
    if |buf| < BUFFER then buf + [ev] else buf
  }

  type Subs = map<User, set<Chan>>

  function ChansOf(subs: Subs, u: User): set<Chan> {
    if u in subs then subs[u] else {}
  }

  function OfferTo<E>(bufs: map<Chan, seq<E>>, chans: set<Chan>, ev: E): map<Chan, seq<E>> {
    map c | c in bufs :: if c in chans then Offer(bufs[c], ev) else bufs[c]
  }

  /** What Publish makes of the buffers, user by user. */
  function Published<E>(bufs: map<Chan, seq<E>>, subs: Subs, users: seq<User>, ev: E): map<Chan, seq<E>> {
    if users == [] then bufs
    else OfferTo(Published(bufs, subs, users[..|users| - 1], ev), ChansOf(subs, users[|users| - 1]), ev)
  }

  /** No channel is subscribed for two users. */
  predicate Separate(subs: Subs) {
    forall u, v | u in subs && v in subs && u != v :: subs[u] !! subs[v]
  }

  lemma LastUser(users: seq<User>)
    requires users != []
    ensures forall u :: u in users <==> u in users[..|users| - 1] || u == users[|users| - 1]
  {
    assert users == users[..|users| - 1] + [users[|users| - 1]];
  }

  /**
   For a recipient list without repeats every channel subscribed for a listed user is offered the
   event exactly once, and no other channel is touched.
   */
  lemma {:induction false} PublishReachesOnce<E>(bufs: map<Chan, seq<E>>, subs: Subs, users: seq<User>, ev: E, c: Chan)
    requires Separate(subs) && c in bufs
    requires forall i, j | 0 <= i < j < |users| :: users[i] != users[j]
    ensures c in Published(bufs, subs, users, ev)
    ensures Published(bufs, subs, users, ev)[c] ==
      if (exists u :: u in users && u in subs && c in subs[u]) && |bufs[c]| < 128 then bufs[c] + [ev] else bufs[c]
    decreases |users|
  {
    if users != [] {
      var front, last := users[..|users| - 1], users[|users| - 1];
      PublishReachesOnce(bufs, subs, front, ev, c);
      LastUser(users);
      if c in ChansOf(subs, last) {
        forall u | u in front ensures c !in ChansOf(subs, u) {
          var i :| 0 <= i < |front| && front[i] == u;
          assert users[i] != users[|users| - 1];
        }
      }
    }
  }

  /** A channel that nobody is subscribed with is left alone. */
  lemma {:induction false} PublishSkips<E>(bufs: map<Chan, seq<E>>, subs: Subs, users: seq<User>, ev: E, c: Chan)
    requires c in bufs && forall u :: c !in ChansOf(subs, u)
    ensures c in Published(bufs, subs, users, ev) && Published(bufs, subs, users, ev)[c] == bufs[c]
    decreases |users|
  {
    if users != [] {
      PublishSkips(bufs, subs, users[..|users| - 1], ev, c);
    }
  }

  class Hub<E> {
    var subs: Subs
    var bufs: map<Chan, seq<E>>
    var closed: set<Chan>
    var next: Chan
    // Channels whose cancel function has removed them and not yet closed them.
    ghost var leaving: set<Chan>

    /** A subscribed channel is open, belongs to one user and is within its bound. */
    ghost predicate Valid()
      reads this
    {
      && Separate(subs)
      && (forall u | u in subs :: subs[u] != {} && subs[u] <= bufs.Keys)
      && (forall u, c | u in subs && c in subs[u] :: c !in closed && c !in leaving)
      && (forall c | c in bufs :: |bufs[c]| <= BUFFER && c < next)
      && leaving <= bufs.Keys && closed <= bufs.Keys && leaving !! closed
    }

    constructor ()
      ensures Valid() && subs == map[] && bufs == map[] && closed == {} && leaving == {}
    {
      subs, bufs, closed, next, leaving := map[], map[], {}, 0, {};
    }

    method Subscribe(u: User) returns (c: Chan)
      requires Valid()
      modifies this
      ensures Valid() && c !in old(bufs) && bufs == old(bufs)[c := []]
      ensures subs == old(subs)[u := ChansOf(old(subs), u) + {c}]
      ensures closed == old(closed) && leaving == old(leaving)
    {
      c := next;
      next := next + 1;
      bufs := bufs[c := []];
      if u !in subs {
        subs := subs[u := {}];
      }
      subs := subs[u := subs[u] + {c}];
    }

    /** The locked half of cancel. */
    method Remove(u: User, c: Chan)
      requires Valid() && u in subs && c in subs[u]
      modifies this
      ensures Valid() && leaving == old(leaving) + {c} && closed == old(closed) && bufs == old(bufs)
      ensures forall v :: ChansOf(subs, v) == if v == u then ChansOf(old(subs), u) - {c} else ChansOf(old(subs), v)
    {
      var left := subs[u] - {c};
      subs := if left == {} then subs - {u} else subs[u := left];
      leaving := leaving + {c};
    }

    /** The other half, outside the lock: by then no publisher can reach the channel. */
    method Close(c: Chan)
      requires Valid() && c in leaving
      modifies this
      ensures Valid() && closed == old(closed) + {c} && leaving == old(leaving) - {c}
      ensures subs == old(subs) && bufs == old(bufs)
    {
      closed := closed + {c};
      leaving := leaving - {c};
    }

    /** Sends on subscribed channels only, so never on a closed one. */
    method Publish(users: seq<User>, ev: E)
      requires Valid()
      modifies this`bufs
      ensures Valid() && bufs == Published(old(bufs), subs, users, ev)
      ensures forall c | c in closed || c in leaving :: bufs[c] == old(bufs)[c]
    {
      for i := 0 to |users|
        invariant Valid() && bufs == Published(old(bufs), subs, users[..i], ev)
        invariant bufs.Keys == old(bufs).Keys
      {
        assert users[..i + 1][..i] == users[..i];
        OfferAll(if users[i] in subs then subs[users[i]] else {}, ev);
      }
      assert users[..|users|] == users;
      forall c | c in closed || c in leaving ensures bufs[c] == old(bufs)[c] {
        PublishSkips(old(bufs), subs, users, ev, c);
      }
    }

    /** The inner loop of Publish, over one user's channels. */
    method OfferAll(chans: set<Chan>, ev: E)
      requires Valid() && chans <= bufs.Keys && chans !! closed
      modifies this`bufs
      ensures Valid() && bufs == OfferTo(old(bufs), chans, ev)
    {
      var rest := chans;
      while rest != {}
        invariant rest <= chans && bufs.Keys == old(bufs).Keys
        invariant forall c | c in bufs :: bufs[c] == if c in chans - rest then Offer(old(bufs)[c], ev) else old(bufs)[c]
      {
        var c :| c in rest;
        assert c !in closed;
        if |bufs[c]| < BUFFER {
          bufs := bufs[c := bufs[c] + [ev]];
        }
        rest := rest - {c};
      }
    }

    method Receive(c: Chan) returns (ev: E)
      requires Valid() && c in bufs && bufs[c] != []
      modifies this`bufs
      ensures Valid() && ev == old(bufs)[c][0] && bufs == old(bufs)[c := old(bufs)[c][1..]]
    {
      ev := bufs[c][0];
      bufs := bufs[c := bufs[c][1..]];
    }
  }
}
