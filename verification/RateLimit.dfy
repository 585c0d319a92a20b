/** The fixed-window rate limiter: what any window admits, and why its garbage collection never shows. */
module RateLimit {

  type Key = string

  datatype Bucket = Bucket(count: nat, resetAt: nat)

  type Buckets = map<Key, Bucket>

  // The number of entries from which a new bucket triggers the sweep of expired ones.
  const GC_THRESHOLD := 4096

  datatype Limits = Limits(limit: nat, window: nat)

  predicate Proper(l: Limits) {
    l.limit > 0 && l.window > 0
  }

  predicate Expired(b: Bucket, now: nat) {
    now > b.resetAt
  }

  predicate Allowed(l: Limits, bs: Buckets, key: Key, now: nat) {
    key !in bs || Expired(bs[key], now) || bs[key].count < l.limit
  }

  /** A limiter that never deletes anything. */
  function Plain(l: Limits, bs: Buckets, key: Key, now: nat): Buckets {
    if key !in bs || Expired(bs[key], now) then bs[key := Bucket(1, now + l.window)]
    else if bs[key].count >= l.limit then bs
    else bs[key := Bucket(bs[key].count + 1, bs[key].resetAt)]
  }

  function Sweep(bs: Buckets, now: nat): Buckets {
    map k | k in bs && !Expired(bs[k], now) :: bs[k]
  }

  /** The limiter as it is: a new bucket in a full table sweeps the expired ones out. */
  function Swept(l: Limits, bs: Buckets, key: Key, now: nat): Buckets {
    var bs' := Plain(l, bs, key, now);
    if (key !in bs || Expired(bs[key], now)) && |bs'| > GC_THRESHOLD then Sweep(bs', now) else bs'
  }

  /** Other keys' live buckets stay as they are, and no key appears but the one asked for. */
  lemma SweptKeeps(l: Limits, bs: Buckets, key: Key, now: nat, k: Key)
    ensures var after := Swept(l, bs, key, now);
      && (k in bs && k != key && now <= bs[k].resetAt ==> k in after && after[k] == bs[k])
      && (k in after ==> k in bs || k == key)
  {
  }

  /**
   A request that opens a bucket leaves no expired one in a table of more than 4096, and deletes none
   from a smaller table; any other request deletes none.
   */
  lemma SweptFull(l: Limits, bs: Buckets, key: Key, now: nat, k: Key)
    ensures var after := Swept(l, bs, key, now);
      var opens := key !in bs || now > bs[key].resetAt;
      && (opens && |bs.Keys + {key}| > 4096 && k in after ==> now <= after[k].resetAt)
      && (!opens || |bs.Keys + {key}| <= 4096 ==> (k in after <==> k in bs || k == key))
  {
    var all := Plain(l, bs, key, now);
    assert all.Keys == bs.Keys + {key};
    assert |all| == |all.Keys|;
  }

  /** The sweep on its way: the keys in rest are still to be looked at. */
  function Unswept(all: Buckets, rest: set<Key>, now: nat): Buckets {
    map k | k in all && (k in rest || !Expired(all[k], now)) :: all[k]
  }

  lemma SweepBounds(all: Buckets, now: nat)
    ensures Unswept(all, all.Keys, now) == all && Unswept(all, {}, now) == Sweep(all, now)
  {
  }

  lemma SweepNext(all: Buckets, rest: set<Key>, k: Key, now: nat)
    requires k in rest && rest <= all.Keys
    ensures Unswept(all, rest - {k}, now) ==
      if Expired(all[k], now) then Unswept(all, rest, now) - {k} else Unswept(all, rest, now)
  {
  }

  class RateLimiter {
    var count: Buckets
    const limits: Limits

    /** Zero and negative settings fall back to one request and one minute. */
    constructor (limit: int, window: int, minute: nat)
      requires minute > 0
      ensures count == map[] && Proper(limits)
      ensures limits == Limits(if limit <= 0 then 1 else limit, if window <= 0 then minute else window)
    {
      count := map[];
      limits := Limits(if limit <= 0 then 1 else limit, if window <= 0 then minute else window);
    }

    method Allow(key: Key, now: nat) returns (ok: bool)
      modifies this`count
      ensures ok == Allowed(limits, old(count), key, now)
      ensures count == Swept(limits, old(count), key, now)
      ensures ok <==> key !in old(count) || now > old(count)[key].resetAt || old(count)[key].count < limits.limit
      ensures !ok ==> count == old(count)
      ensures var opens := key !in old(count) || now > old(count)[key].resetAt;
        && (opens ==> key in count && count[key] == Bucket(1, now + limits.window))
        && (ok && !opens ==> count == old(count)[key := Bucket(old(count)[key].count + 1, old(count)[key].resetAt)])
    {
      if key !in count || now > count[key].resetAt {
        count := count[key := Bucket(1, now + limits.window)];
        if |count| > GC_THRESHOLD {
          var all := count;
          var rest := all.Keys;
          SweepBounds(all, now);
          while rest != {}
            invariant rest <= all.Keys
            invariant count == Unswept(all, rest, now)
          {
            var k :| k in rest;
            SweepNext(all, rest, k, now);
            if now > all[k].resetAt {
              count := count - {k};
            }
            rest := rest - {k};
          }
        }
        return true;
      }
      var b := count[key];
      if b.count >= limits.limit {
        return false;
      }
      count := count[key := Bucket(b.count + 1, b.resetAt)];
      ok := true;
    }
  }

  // ---------------------------------------------------------------- requests

  datatype Request = Request(key: Key, time: nat)

  ghost predicate InOrder(rs: seq<Request>) {
    forall i, j | 0 <= i < j < |rs| :: rs[i].time <= rs[j].time
  }

  ghost function PlainAfter(l: Limits, rs: seq<Request>): Buckets {
    if rs == [] then map[]
    else var r := rs[|rs| - 1]; Plain(l, PlainAfter(l, rs[..|rs| - 1]), r.key, r.time)
  }

  ghost function SweptAfter(l: Limits, rs: seq<Request>): Buckets {
    if rs == [] then map[]
    else var r := rs[|rs| - 1]; Swept(l, SweptAfter(l, rs[..|rs| - 1]), r.key, r.time)
  }

  // ---------------------------------------------------------------- garbage collection

  /** Two tables that no request at time now or later can tell apart. */
  ghost predicate Alike(a: Buckets, b: Buckets, now: nat) {
    forall k :: (k in a && !Expired(a[k], now)) || (k in b && !Expired(b[k], now)) ==>
      k in a && k in b && a[k] == b[k]
  }

  lemma AlikeAnswers(l: Limits, a: Buckets, b: Buckets, key: Key, now: nat)
    requires Alike(a, b, now)
    ensures Allowed(l, a, key, now) <==> Allowed(l, b, key, now)
  {
  }

  lemma AlikeSteps(l: Limits, a: Buckets, b: Buckets, key: Key, now: nat)
    requires Alike(a, b, now)
    ensures Alike(Plain(l, a, key, now), Swept(l, b, key, now), now)
  {
  }

  lemma AlikeLater(a: Buckets, b: Buckets, now: nat, later: nat)
    requires Alike(a, b, now) && now <= later
    ensures Alike(a, b, later)
  {
  }

  lemma AlikeOneMore(l: Limits, rs: seq<Request>, i: nat)
    requires i < |rs| && Alike(PlainAfter(l, rs[..i]), SweptAfter(l, rs[..i]), rs[i].time)
    ensures Alike(PlainAfter(l, rs[..i + 1]), SweptAfter(l, rs[..i + 1]), rs[i].time)
  {
    var r := rs[i];
    assert rs[..i + 1][..i] == rs[..i] && rs[..i + 1][i] == r;
    AlikeSteps(l, PlainAfter(l, rs[..i]), SweptAfter(l, rs[..i]), r.key, r.time);
  }

  /** The sweep never changes an answer: both limiters say the same to every request of every run. */
  lemma {:induction false} SweepNeverShows(l: Limits, rs: seq<Request>, i: nat)
    requires InOrder(rs) && i < |rs|
    ensures Alike(PlainAfter(l, rs[..i]), SweptAfter(l, rs[..i]), rs[i].time)
    ensures Allowed(l, PlainAfter(l, rs[..i]), rs[i].key, rs[i].time)
       <==> Allowed(l, SweptAfter(l, rs[..i]), rs[i].key, rs[i].time)
  {
    if i > 0 {
      SweepNeverShows(l, rs, i - 1);
      AlikeOneMore(l, rs, i - 1);
      AlikeLater(PlainAfter(l, rs[..i]), SweptAfter(l, rs[..i]), rs[i - 1].time, rs[i].time);
    }
    AlikeAnswers(l, PlainAfter(l, rs[..i]), SweptAfter(l, rs[..i]), rs[i].key, rs[i].time);
  }

  // ---------------------------------------------------------------- what a window admits

  /** How many requests of key k are admitted at times from lo to hi. */
  ghost function Admitted(l: Limits, rs: seq<Request>, k: Key, lo: int, hi: int): nat {
    if rs == [] then 0
    else
      var front, r := rs[..|rs| - 1], rs[|rs| - 1];
      Admitted(l, front, k, lo, hi)
      + if r.key == k && lo <= r.time <= hi && Allowed(l, PlainAfter(l, front), k, r.time) then 1 else 0
  }

  lemma {:induction false} AdmittedSplits(l: Limits, rs: seq<Request>, k: Key, lo: int, mid: int, hi: int)
    requires lo <= mid <= hi + 1
    ensures Admitted(l, rs, k, lo, hi) == Admitted(l, rs, k, lo, mid - 1) + Admitted(l, rs, k, mid, hi)
    decreases |rs|
  {
    if rs != [] {
      AdmittedSplits(l, rs[..|rs| - 1], k, lo, mid, hi);
    }
  }

  /** What one more request adds to a count. */
  lemma AdmittedLast(l: Limits, front: seq<Request>, r: Request, k: Key, lo: int, hi: int)
    ensures Admitted(l, front + [r], k, lo, hi) == Admitted(l, front, k, lo, hi)
      + if r.key == k && lo <= r.time <= hi && Allowed(l, PlainAfter(l, front), k, r.time) then 1 else 0
  {
    assert (front + [r])[..|front + [r]| - 1] == front;
  }

  /** The accounting of key k's current bucket b, which started at b.resetAt - window. */
  ghost predicate Accounted(l: Limits, rs: seq<Request>, k: Key, b: Bucket) {
    var s := b.resetAt - l.window;
    && 1 <= b.count <= l.limit && s >= 0
    && (forall lo, hi | lo > b.resetAt :: Admitted(l, rs, k, lo, hi) <= 0)
    && (forall lo, hi | lo >= s :: Admitted(l, rs, k, lo, hi) <= b.count)
    && (forall lo, hi | lo > s :: Admitted(l, rs, k, lo, hi) <= b.count - 1)
    && (forall lo, hi | lo >= s - l.window && hi < s :: Admitted(l, rs, k, lo, hi) <= l.limit - 1)
  }

  ghost function InWindow(l: Limits, rs: seq<Request>, k: Key, a: int): nat {
    Admitted(l, rs, k, a, a + l.window)
  }

  ghost predicate Bounded(l: Limits, rs: seq<Request>, k: Key) {
    forall a: int :: InWindow(l, rs, k, a) <= 2 * l.limit - 1
  }

  /** The same bucket admits one more. */
  lemma SameBucket(l: Limits, front: seq<Request>, r: Request, b: Bucket)
    requires Proper(l) && r.key in PlainAfter(l, front) && PlainAfter(l, front)[r.key] == b
    requires !Expired(b, r.time) && b.count < l.limit && b.resetAt <= r.time + l.window
    requires Accounted(l, front, r.key, b) && Bounded(l, front, r.key)
    ensures Accounted(l, front + [r], r.key, b.(count := b.count + 1)) && Bounded(l, front + [r], r.key)
  {
    var rs, k, t := front + [r], r.key, r.time;
    var s := b.resetAt - l.window;
    forall lo, hi | lo > b.resetAt ensures Admitted(l, rs, k, lo, hi) <= 0 {
      AdmittedLast(l, front, r, k, lo, hi);
      assert Admitted(l, front, k, lo, hi) <= 0;
    }
    forall lo, hi | lo >= s ensures Admitted(l, rs, k, lo, hi) <= b.count + 1 {
      AdmittedLast(l, front, r, k, lo, hi);
      assert Admitted(l, front, k, lo, hi) <= b.count;
    }
    forall lo, hi | lo > s ensures Admitted(l, rs, k, lo, hi) <= b.count {
      AdmittedLast(l, front, r, k, lo, hi);
      assert Admitted(l, front, k, lo, hi) <= b.count - 1;
    }
    forall lo, hi | lo >= s - l.window && hi < s ensures Admitted(l, rs, k, lo, hi) <= l.limit - 1 {
      AdmittedLast(l, front, r, k, lo, hi);
      assert Admitted(l, front, k, lo, hi) <= l.limit - 1;
    }
    forall a: int ensures InWindow(l, rs, k, a) <= 2 * l.limit - 1 {
      AdmittedLast(l, front, r, k, a, a + l.window);
      if a <= t <= a + l.window {
        if a < s {
          AdmittedSplits(l, front, k, a, s, a + l.window);
          assert Admitted(l, front, k, a, s - 1) <= l.limit - 1;
          assert Admitted(l, front, k, s, a + l.window) <= b.count;
        } else {
          assert Admitted(l, front, k, a, a + l.window) <= b.count;
        }
      } else {
        assert InWindow(l, front, k, a) <= 2 * l.limit - 1;
      }
    }
  }

  /** A bucket opened at time t, when everything admitted so far lies before t and little of it in the last window. */
  lemma OpenBucket(l: Limits, front: seq<Request>, r: Request)
    requires Proper(l) && Bounded(l, front, r.key)
    requires forall lo, hi | lo >= r.time :: Admitted(l, front, r.key, lo, hi) <= 0
    requires forall lo, hi | lo >= r.time - l.window :: Admitted(l, front, r.key, lo, hi) <= l.limit - 1
    ensures Accounted(l, front + [r], r.key, Bucket(1, r.time + l.window)) && Bounded(l, front + [r], r.key)
  {
    var rs, k, t := front + [r], r.key, r.time;
    var b := Bucket(1, t + l.window);
    forall lo, hi | lo > b.resetAt ensures Admitted(l, rs, k, lo, hi) <= 0 {
      AdmittedLast(l, front, r, k, lo, hi);
      assert Admitted(l, front, k, lo, hi) <= 0;
    }
    forall lo, hi | lo >= t ensures Admitted(l, rs, k, lo, hi) <= 1 {
      AdmittedLast(l, front, r, k, lo, hi);
      assert Admitted(l, front, k, lo, hi) <= 0;
    }
    forall lo, hi | lo > t ensures Admitted(l, rs, k, lo, hi) <= 0 {
      AdmittedLast(l, front, r, k, lo, hi);
      assert Admitted(l, front, k, lo, hi) <= 0;
    }
    forall lo, hi | lo >= t - l.window && hi < t ensures Admitted(l, rs, k, lo, hi) <= l.limit - 1 {
      AdmittedLast(l, front, r, k, lo, hi);
      assert Admitted(l, front, k, lo, hi) <= l.limit - 1;
    }
    forall a: int ensures InWindow(l, rs, k, a) <= 2 * l.limit - 1 {
      AdmittedLast(l, front, r, k, a, a + l.window);
      if a <= t <= a + l.window {
        assert Admitted(l, front, k, a, a + l.window) <= l.limit - 1;
      } else {
        assert InWindow(l, front, k, a) <= 2 * l.limit - 1;
      }
    }
  }

  lemma FirstBucket(l: Limits, front: seq<Request>, r: Request)
    requires Proper(l) && Bounded(l, front, r.key) && NoneAdmitted(l, front, r.key)
    ensures Accounted(l, front + [r], r.key, Bucket(1, r.time + l.window)) && Bounded(l, front + [r], r.key)
  {
    OpenBucket(l, front, r);
  }

  lemma NextBucket(l: Limits, front: seq<Request>, r: Request, b: Bucket)
    requires Proper(l) && Bounded(l, front, r.key) && Accounted(l, front, r.key, b) && Expired(b, r.time)
    ensures Accounted(l, front + [r], r.key, Bucket(1, r.time + l.window)) && Bounded(l, front + [r], r.key)
  {
    OpenBucket(l, front, r);
  }

  /** A request that is another key's or is refused changes nothing for key k. */
  lemma OtherRequest(l: Limits, front: seq<Request>, r: Request, k: Key)
    requires r.key != k || !Allowed(l, PlainAfter(l, front), k, r.time)
    ensures forall lo, hi :: Admitted(l, front + [r], k, lo, hi) == Admitted(l, front, k, lo, hi)
  {
    forall lo, hi ensures Admitted(l, front + [r], k, lo, hi) == Admitted(l, front, k, lo, hi) {
      AdmittedLast(l, front, r, k, lo, hi);
    }
  }

  ghost predicate NoneAdmitted(l: Limits, rs: seq<Request>, k: Key) {
    forall lo, hi :: Admitted(l, rs, k, lo, hi) <= 0
  }

  /**
   For each key, any time interval of length window admits at most 2 * limit - 1 requests, and the
   current bucket at most limit.
   */
  lemma {:induction false} WindowAdmits(l: Limits, rs: seq<Request>, k: Key)
    requires Proper(l) && InOrder(rs)
    ensures Bounded(l, rs, k)
    ensures k in PlainAfter(l, rs) ==> rs != [] && Accounted(l, rs, k, PlainAfter(l, rs)[k])
                                       && PlainAfter(l, rs)[k].resetAt <= rs[|rs| - 1].time + l.window
    ensures k !in PlainAfter(l, rs) ==> NoneAdmitted(l, rs, k)
    decreases |rs|
  {
    if rs != [] {
      var front, r := rs[..|rs| - 1], rs[|rs| - 1];
      var bs := PlainAfter(l, front);
      assert rs == front + [r];
      WindowAdmits(l, front, k);
      assert front != [] ==> front[|front| - 1].time <= r.time;
      if r.key != k || !Allowed(l, bs, k, r.time) {
        UnchangedAccount(l, front, r, k);
      } else if k !in bs {
        FirstBucket(l, front, r);
      } else if Expired(bs[k], r.time) {
        NextBucket(l, front, r, bs[k]);
      } else {
        SameBucket(l, front, r, bs[k]);
      }
    }
  }

  lemma UnchangedAccount(l: Limits, front: seq<Request>, r: Request, k: Key)
    requires Proper(l) && (r.key != k || !Allowed(l, PlainAfter(l, front), k, r.time))
    requires Bounded(l, front, k)
    ensures Bounded(l, front + [r], k)
    ensures k in PlainAfter(l, front + [r]) <==> k in PlainAfter(l, front)
    ensures k in PlainAfter(l, front) ==> PlainAfter(l, front + [r])[k] == PlainAfter(l, front)[k]
    ensures forall b :: Accounted(l, front, k, b) ==> Accounted(l, front + [r], k, b)
    ensures NoneAdmitted(l, front, k) ==> NoneAdmitted(l, front + [r], k)
  {
    var rs := front + [r];
    assert rs[..|rs| - 1] == front;
    OtherRequest(l, front, r, k);
    forall a: int ensures InWindow(l, rs, k, a) <= 2 * l.limit - 1 {
      assert InWindow(l, front, k, a) <= 2 * l.limit - 1;
    }
  }

  /** The same count with the answers of the limiter as it is. */
  ghost function ReallyAdmitted(l: Limits, rs: seq<Request>, k: Key, lo: int, hi: int): nat {
    if rs == [] then 0
    else
      var front, r := rs[..|rs| - 1], rs[|rs| - 1];
      ReallyAdmitted(l, front, k, lo, hi)
      + if r.key == k && lo <= r.time <= hi && Allowed(l, SweptAfter(l, front), k, r.time) then 1 else 0
  }

  lemma {:induction false} ReallySame(l: Limits, rs: seq<Request>, k: Key, lo: int, hi: int)
    requires InOrder(rs)
    ensures ReallyAdmitted(l, rs, k, lo, hi) == Admitted(l, rs, k, lo, hi)
    decreases |rs|
  {
    if rs != [] {
      ReallySame(l, rs[..|rs| - 1], k, lo, hi);
      SweepNeverShows(l, rs, |rs| - 1);
    }
  }

  /** So the bound holds of the limiter with its garbage collection. */
  lemma RealWindowAdmits(l: Limits, rs: seq<Request>, k: Key, a: int)
    requires Proper(l) && InOrder(rs)
    ensures ReallyAdmitted(l, rs, k, a, a + l.window) <= 2 * l.limit - 1
  {
    ReallySame(l, rs, k, a, a + l.window);
    WindowAdmits(l, rs, k);
    assert InWindow(l, rs, k, a) <= 2 * l.limit - 1;
  }

  // ---------------------------------------------------------------- the bound is met

  ghost function Burst(k: Key, t: nat, m: nat): seq<Request> {
    seq(m, _ => Request(k, t))
  }

  lemma {:induction false} BurstAdmitted(l: Limits, rs: seq<Request>, k: Key, t: nat, m: nat, b: Bucket,
                                         lo: int, hi: int)
    requires k in PlainAfter(l, rs) && PlainAfter(l, rs)[k] == b && !Expired(b, t) && b.count + m <= l.limit
    ensures k in PlainAfter(l, rs + Burst(k, t, m)) && PlainAfter(l, rs + Burst(k, t, m))[k] == b.(count := b.count + m)
    ensures Admitted(l, rs + Burst(k, t, m), k, lo, hi) == Admitted(l, rs, k, lo, hi) + if lo <= t <= hi then m else 0
    decreases m
  {
    if m == 0 {
      assert rs + Burst(k, t, m) == rs;
    } else {
      BurstAdmitted(l, rs, k, t, m - 1, b, lo, hi);
      var front, r := rs + Burst(k, t, m - 1), Request(k, t);
      assert rs + Burst(k, t, m) == front + [r];
      assert (front + [r])[..|front|] == front;
    }
  }

  /** A bucket opened at 0, used up at its end, and the first request of the next one. */
  ghost function ThirdRun(l: Limits, k: Key): seq<Request>
    requires Proper(l)
  {
    [Request(k, 0)] + Burst(k, l.window, l.limit - 1) + [Request(k, l.window + 1)]
  }

  ghost function TightRun(l: Limits, k: Key): seq<Request>
    requires Proper(l)
  {
    ThirdRun(l, k) + Burst(k, l.window + 1, l.limit - 1)
  }

  /** One request opens a bucket and the rest of it comes at its very end. */
  lemma LateBurst(l: Limits, k: Key)
    requires Proper(l)
    ensures var w, rs := l.window, [Request(k, 0)] + Burst(k, l.window, l.limit - 1);
      && k in PlainAfter(l, rs) && PlainAfter(l, rs)[k] == Bucket(l.limit, w)
      && Admitted(l, rs, k, w, w + w) == l.limit - 1
  {
    var w := l.window;
    var first := [Request(k, 0)];
    assert first[..0] == [];
    assert PlainAfter(l, first) == map[k := Bucket(1, w)];
    BurstAdmitted(l, first, k, w, l.limit - 1, Bucket(1, w), w, w + w);
  }

  lemma TightRunInOrder(l: Limits, k: Key)
    requires Proper(l)
    ensures InOrder(TightRun(l, k))
  {
    var n := l.limit;
    forall i | 0 <= i < |TightRun(l, k)|
      ensures TightRun(l, k)[i].time == if i == 0 then 0 else if i < n then l.window else l.window + 1
    {
    }
  }

  lemma ThirdAdmitted(l: Limits, k: Key)
    requires Proper(l)
    ensures var w, third := l.window, ThirdRun(l, k);
      && k in PlainAfter(l, third) && PlainAfter(l, third)[k] == Bucket(1, w + 1 + w)
      && Admitted(l, third, k, w, w + w) == l.limit
  {
    var w := l.window;
    var second := [Request(k, 0)] + Burst(k, w, l.limit - 1);
    LateBurst(l, k);
    AdmittedLast(l, second, Request(k, w + 1), k, w, w + w);
    assert ThirdRun(l, k)[..|second|] == second;
  }

  /** Then the next bucket follows at once: a window can admit 2 * limit - 1. */
  lemma BoundIsMet(l: Limits, k: Key)
    requires Proper(l)
    ensures InOrder(TightRun(l, k)) && InWindow(l, TightRun(l, k), k, l.window) == 2 * l.limit - 1
  {
    var w := l.window;
    ThirdAdmitted(l, k);
    BurstAdmitted(l, ThirdRun(l, k), k, w + 1, l.limit - 1, Bucket(1, w + 1 + w), w, w + w);
    TightRunInOrder(l, k);
  }
}
