/** Password changes and the bounded history of former passwords that reuse is checked against. */
module PasswordHistory {

  // Hashing is taken to be ideal: a stored hash verifies exactly the password it was made from, and
  // is written here as that password.
  type Password = string

  /** A row of password_history; rows are kept in the order they were inserted. */
  datatype Former = Former(hash: Password, created: nat)

  datatype Error = InvalidCredentials | UsedRecently

  datatype Result = Changed | Refused(error: Error)

  /**
   A result of SELECT ... ORDER BY created_at DESC LIMIT n, as the set of row positions: n rows or all
   of them, no row left out being newer than one taken. Ties may fall either way.
   */
  ghost predicate IsNewest(rows: seq<Former>, n: nat, top: set<nat>) {
    && (forall i | i in top :: i < |rows|)
    && |top| == (if n < |rows| then n else |rows|)
    && forall i, j | i in top && 0 <= j < |rows| && j !in top :: rows[j].created <= rows[i].created
  }

  ghost predicate NonDecreasing(rows: seq<Former>) {
    forall i, j | 0 <= i < j < |rows| :: rows[i].created <= rows[j].created
  }

  function Range(lo: nat, hi: nat): (r: set<nat>)
    ensures forall i :: i in r <==> lo <= i < hi
    ensures |r| == if lo <= hi then hi - lo else 0
  {
    if lo >= hi then {} else Range(lo, hi - 1) + {hi - 1}
  }

  lemma SubsetSize(a: set<nat>, b: set<nat>)
    requires a <= b
    ensures |a| <= |b| && (|a| == |b| ==> a == b)
  {
    assert b == a + (b - a);
  }

  /** No tie reaches across the line between the last n rows and the older ones. */
  predicate CleanCut(rows: seq<Former>, n: nat) {
    n == 0 || |rows| <= n || rows[|rows| - n - 1].created < rows[|rows| - n].created
  }

  /** The positions of the last n rows. */
  function LastPlaces(rows: seq<Former>, n: nat): set<nat> {
    if |rows| <= n then Range(0, |rows|) else Range(|rows| - n, |rows|)
  }

  lemma NewestAreLast(rows: seq<Former>, n: nat, top: set<nat>)
    requires NonDecreasing(rows) && CleanCut(rows, n) && IsNewest(rows, n, top)
    ensures top == LastPlaces(rows, n)
  {
    var last := LastPlaces(rows, n);
    if 0 < n < |rows| {
      forall i | i in top ensures i in last {
        if i !in last {
          TakenTooOld(rows, n, top, i);
        }
      }
    }
    SubsetSize(top, last);
  }

  /** A row before a clean cut is not among the newest: all behind the cut would be taken as well. */
  lemma TakenTooOld(rows: seq<Former>, n: nat, top: set<nat>, i: nat)
    requires NonDecreasing(rows) && CleanCut(rows, n) && 0 < n < |rows| && IsNewest(rows, n, top)
    requires i < |rows| - n
    ensures i !in top
  {
    var last, cut := LastPlaces(rows, n), |rows| - n;
    forall j | j in last ensures rows[i].created < rows[j].created {
      assert rows[i].created <= rows[cut - 1].created && rows[cut].created <= rows[j].created;
    }
    if i in top {
      assert last + {i} <= top;
      SubsetSize(last + {i}, top);
    }
  }

  lemma LastAreNewest(rows: seq<Former>, n: nat)
    requires NonDecreasing(rows)
    ensures IsNewest(rows, n, LastPlaces(rows, n))
  {
  }

  /** Across an unclean cut the database may take the older of two tied rows and leave the newer one. */
  lemma TieForgetsNewer(rows: seq<Former>, n: nat) returns (top: set<nat>)
    requires NonDecreasing(rows) && !CleanCut(rows, n)
    ensures IsNewest(rows, n, top) && |rows| - n - 1 in top && |rows| - n !in top
  {
    var m := |rows| - n;
    var newer := Range(m + 1, |rows|);
    top := newer + {m - 1};
    assert m - 1 !in newer && |top| == |newer| + 1 == n;
    assert rows[m - 1].created == rows[m].created;
    forall i, j | i in top && 0 <= j < |rows| && j !in top ensures rows[j].created <= rows[i].created {
      assert j <= m;
    }
  }

  /** Whatever the database answers, the newest n rows are the last n inserted: exactly when the cut is clean. */
  lemma NewestAreLastIff(rows: seq<Former>, n: nat)
    requires NonDecreasing(rows)
    ensures (forall top | IsNewest(rows, n, top) :: top == LastPlaces(rows, n)) <==> CleanCut(rows, n)
  {
    if CleanCut(rows, n) {
      forall top | IsNewest(rows, n, top) ensures top == LastPlaces(rows, n) {
        NewestAreLast(rows, n, top);
      }
    } else {
      var top := TieForgetsNewer(rows, n);
      assert top != LastPlaces(rows, n);
    }
  }

  /** The last n rows. */
  function Last(rows: seq<Former>, n: nat): seq<Former> {
    if |rows| <= n then rows else rows[|rows| - n..]
  }

  ghost predicate AmongNewest(history: seq<Former>, plain: Password, n: nat) {
    exists i :: 0 <= i < |history| && i >= |history| - n && history[i].hash == plain
  }

  /** The password is the current one or in the history window. */
  ghost predicate Recent(history: seq<Former>, current: Password, plain: Password, n: int) {
    n > 0 && (plain == current || AmongNewest(history, plain, n))
  }

  /** The rows at the positions in top, in order. */
  function Kept(rows: seq<Former>, top: set<nat>): seq<Former> {
    if rows == [] then []
    else Kept(rows[..|rows| - 1], top) + if |rows| - 1 in top then [rows[|rows| - 1]] else []
  }

  method Spare(rows: seq<Former>, top: set<nat>) returns (kept: seq<Former>)
    ensures kept == Kept(rows, top)
  {
    kept := [];
    for i := 0 to |rows|
      invariant kept == Kept(rows[..i], top)
    {
      assert rows[..i + 1][..i] == rows[..i];
      if i in top {
        kept := kept + [rows[i]];
      }
    }
    assert rows[..|rows|] == rows;
  }

  lemma {:induction false} KeptRun(rows: seq<Former>, lo: nat, hi: nat)
    requires hi >= |rows|
    ensures Kept(rows, Range(lo, hi)) == if lo <= |rows| then rows[lo..] else []
  {
    if rows != [] {
      KeptRun(rows[..|rows| - 1], lo, hi);
    }
  }

  lemma KeptLast(rows: seq<Former>, n: nat)
    ensures Kept(rows, LastPlaces(rows, n)) == Last(rows, n)
  {
    KeptRun(rows, if |rows| <= n then 0 else |rows| - n, |rows|);
  }

  lemma {:induction false} KeptInOrder(rows: seq<Former>, top: set<nat>)
    requires NonDecreasing(rows)
    ensures NonDecreasing(Kept(rows, top))
    ensures forall f | f in Kept(rows, top) :: f in rows
  {
    if rows != [] {
      var front := rows[..|rows| - 1];
      KeptInOrder(front, top);
      forall f | f in Kept(front, top) ensures f.created <= rows[|rows| - 1].created {
        var i :| 0 <= i < |front| && front[i] == f;
        assert rows[i].created <= rows[|rows| - 1].created;
      }
    }
  }

  function Floor(n: int): nat {
    if n < 0 then 0 else n
  }

  /** A result of the "newest first" query, as row positions: the newest rows, each once, times never rising. */
  ghost predicate NewestFirst(rows: seq<Former>, n: nat, picks: seq<nat>) {
    && Within(rows, picks)
    && (forall k, l | 0 <= k < l < |picks| :: picks[k] != picks[l])
    && IsNewest(rows, n, Places(picks))
    && forall k, l | 0 <= k < l < |picks| :: rows[picks[l]].created <= rows[picks[k]].created
  }

  predicate Within(rows: seq<Former>, picks: seq<nat>) {
    forall k | 0 <= k < |picks| :: picks[k] < |rows|
  }

  function Places(picks: seq<nat>): set<nat> {
    set i | i in picks
  }

  function HashesAt(rows: seq<Former>, picks: seq<nat>): seq<Password>
    requires Within(rows, picks)
  {
    if picks == [] then [] else HashesAt(rows, picks[..|picks| - 1]) + [rows[picks[|picks| - 1]].hash]
  }

  lemma {:induction false} HashAt(rows: seq<Former>, picks: seq<nat>, plain: Password)
    requires Within(rows, picks)
    ensures plain in HashesAt(rows, picks) <==> exists k :: 0 <= k < |picks| && rows[picks[k]].hash == plain
  {
    if picks != [] {
      HashAt(rows, picks[..|picks| - 1], plain);
      if k :| 0 <= k < |picks| && rows[picks[k]].hash == plain {
        assert k < |picks| - 1 ==> picks[..|picks| - 1][k] == picks[k];
      }
    }
  }

  /** The last rows, last first. */
  function Backwards(hi: nat, lo: nat): (picks: seq<nat>)
    requires lo <= hi
    ensures |picks| == hi - lo && forall k | 0 <= k < |picks| :: picks[k] == hi - 1 - k
  {
    seq(hi - lo, k requires 0 <= k < hi - lo => hi - 1 - k)
  }

  lemma BackwardsPlaces(hi: nat, lo: nat)
    requires lo <= hi
    ensures Places(Backwards(hi, lo)) == Range(lo, hi)
  {
    var picks := Backwards(hi, lo);
    forall i | i in Range(lo, hi) ensures i in Places(picks) {
      assert picks[hi - 1 - i] == i;
    }
    forall i | i in Places(picks) ensures i in Range(lo, hi) {
      var k :| 0 <= k < |picks| && picks[k] == i;
    }
  }

  lemma BackwardsNewestFirst(rows: seq<Former>, n: nat)
    requires NonDecreasing(rows)
    ensures NewestFirst(rows, n, Backwards(|rows|, if |rows| <= n then 0 else |rows| - n))
  {
    var lo := if |rows| <= n then 0 else |rows| - n;
    LastAreNewest(rows, n);
    BackwardsPlaces(|rows|, lo);
    assert LastPlaces(rows, n) == Range(lo, |rows|);
  }

  /** Over a clean cut the hashes asked for are those of the last rows. */
  lemma PicksAreLast(rows: seq<Former>, picks: seq<nat>, plain: Password, n: nat)
    requires NonDecreasing(rows) && CleanCut(rows, n) && NewestFirst(rows, n, picks)
    ensures plain in HashesAt(rows, picks) <==> AmongNewest(rows, plain, n)
  {
    NewestAreLast(rows, n, Places(picks));
    HashAt(rows, picks, plain);
    if k :| 0 <= k < |picks| && rows[picks[k]].hash == plain {
      assert picks[k] in Places(picks);
    }
    if i :| 0 <= i < |rows| && i >= |rows| - n && rows[i].hash == plain {
      assert i in Places(picks);
    }
  }

  /** There is an answer to the query by which the password is refused, or is not. */
  ghost predicate SomeAnswerRefuses(history: seq<Former>, current: Password, plain: Password, n: nat, refused: bool) {
    exists picks ::
      NewestFirst(history, n, picks) && (refused <==> plain == current || plain in HashesAt(history, picks))
  }

  class Credentials {
    var current: Password
    var history: seq<Former>
    var clock: nat
    // Every password the account ever had, oldest first, the current one included.
    ghost var all: seq<Password>

    ghost predicate Valid()
      reads this
    {
      && NonDecreasing(history)
      && (forall f | f in history :: f.created <= clock)
      && |all| > 0 && all[|all| - 1] == current
    }

    constructor (first: Password)
      ensures Valid() && current == first && history == [] && all == [first] && clock == 0
    {
      current, history, clock, all := first, [], 0, [first];
    }

    /** The hashes of the newest rows, newest first; nothing for a limit of zero or less. */
    method RecentPasswordHashes(limit: int) returns (hashes: seq<Password>, ghost picks: seq<nat>)
      requires Valid()
      ensures limit <= 0 ==> hashes == []
      ensures limit > 0 ==> NewestFirst(history, limit, picks) && hashes == HashesAt(history, picks)
    {
      hashes, picks := [], [];
      if limit <= 0 {
        return;
      }
      var lo := if |history| <= limit then 0 else |history| - limit;
      for i := |history| downto lo
        invariant picks == Backwards(|history|, i) && hashes == HashesAt(history, picks)
      {
        assert (picks + [i])[..|picks|] == picks;
        hashes := hashes + [history[i].hash];
        picks := picks + [i];
      }
      BackwardsNewestFirst(history, limit);
    }

    /** Whether the password is the current one or among the hashes asked for. */
    method RejectPasswordReuse(plain: Password, historyCount: int) returns (used: bool, ghost picks: seq<nat>)
      requires Valid()
      ensures historyCount <= 0 ==> !used
      ensures historyCount > 0 ==> NewestFirst(history, historyCount, picks)
      ensures historyCount > 0 ==> (used <==> plain == current || plain in HashesAt(history, picks))
      ensures CleanCut(history, Floor(historyCount)) ==> (used <==> Recent(history, current, plain, historyCount))
    {
      picks := [];
      if historyCount <= 0 {
        return false, [];
      }
      var hashes;
      hashes, picks := RecentPasswordHashes(historyCount);
      if CleanCut(history, historyCount) {
        PicksAreLast(history, picks, plain, historyCount);
      }
      if plain == current {
        return true, picks;
      }
      used := VerifiesAny(plain, hashes);
    }

    method VerifiesAny(plain: Password, hashes: seq<Password>) returns (found: bool)
      ensures found <==> plain in hashes
    {
      for k := 0 to |hashes|
        invariant plain !in hashes[..k]
      {
        if hashes[k] == plain {
          return true;
        }
      }
      found := false;
    }

    /** Remembers the current hash and stores the new one; the two moments fall into one second here. */
    method UpdatePassword(hash: Password, now: nat)
      requires Valid() && now >= clock
      modifies this
      ensures Valid() && clock == now
      ensures current == hash && history == old(history) + [Former(old(current), now)]
      ensures all == old(all) + [hash]
    {
      history := history + [Former(current, now)];
      current := hash;
      clock := now;
      all := all + [hash];
    }

    /** DELETE ... WHERE id NOT IN (newest keep): what survives stays in insertion order. */
    method PrunePasswordHistory(keep: int)
      requires Valid()
      modifies this`history
      ensures Valid()
      ensures exists top :: IsNewest(old(history), Floor(keep), top) && history == Kept(old(history), top)
      ensures CleanCut(old(history), Floor(keep)) ==> history == Last(old(history), Floor(keep))
    {
      LastAreNewest(history, Floor(keep));
      KeptLast(history, Floor(keep));
      KeptInOrder(history, LastPlaces(history, Floor(keep)));
      history := Spare(history, LastPlaces(history, Floor(keep)));
    }

    /** The user's own change. */
    method ChangePassword(currentPlain: Password, newPlain: Password, historyCount: int, now: nat) returns (r: Result)
      requires Valid() && now >= clock
      modifies this
      ensures Valid()
      ensures currentPlain != old(current) <==> r == Refused(InvalidCredentials)
      ensures currentPlain == old(current) && historyCount <= 0 ==> r.Changed?
      ensures currentPlain == old(current) && historyCount > 0 ==>
        old(SomeAnswerRefuses(history, current, newPlain, historyCount, r.Refused?))
      ensures currentPlain == old(current) && old(CleanCut(history, Floor(historyCount))) ==>
        r == if old(Recent(history, current, newPlain, historyCount)) then Refused(UsedRecently) else Changed
      ensures r.Changed? ==> Moved(old(history), old(current), old(all), newPlain, historyCount, now)
      ensures r.Refused? ==>
        history == old(history) && current == old(current) && all == old(all) && clock == old(clock)
    {
      if currentPlain != current {
        return Refused(InvalidCredentials);
      }
      r := AdminSetPassword(newPlain, historyCount, now);
    }

    /** The admin's reset: the same without the current password. */
    method AdminSetPassword(newPlain: Password, historyCount: int, now: nat) returns (r: Result)
      requires Valid() && now >= clock
      modifies this
      ensures Valid()
      ensures r.Refused? ==> r == Refused(UsedRecently)
      ensures historyCount <= 0 ==> r.Changed?
      ensures historyCount > 0 ==> old(SomeAnswerRefuses(history, current, newPlain, historyCount, r.Refused?))
      ensures old(CleanCut(history, Floor(historyCount))) ==>
        r == if old(Recent(history, current, newPlain, historyCount)) then Refused(UsedRecently) else Changed
      ensures r.Changed? ==> Moved(old(history), old(current), old(all), newPlain, historyCount, now)
      ensures r.Refused? ==>
        history == old(history) && current == old(current) && all == old(all) && clock == old(clock)
    {
      ghost var picks;
      var used;
      used, picks := RejectPasswordReuse(newPlain, historyCount);
      if used {
        return Refused(UsedRecently);
      }
      UpdatePassword(newPlain, now);
      PrunePasswordHistory(historyCount);
      r := Changed;
    }

    /** The account after an accepted change. */
    ghost predicate Moved(history0: seq<Former>, current0: Password, all0: seq<Password>,
                          plain: Password, n: int, now: nat)
      reads this
    {
      var grown := history0 + [Former(current0, now)];
      && current == plain && all == all0 + [plain] && clock == now
      && (exists top :: IsNewest(grown, Floor(n), top) && history == Kept(grown, top))
      && (CleanCut(grown, Floor(n)) ==> history == Last(grown, Floor(n)))
    }
  }

  // ---------------------------------------------------------------- runs of changes

  /** With a history of n: it holds exactly the last n former passwords, or all of them if there are fewer. */
  ghost predicate Holds(history: seq<Former>, all: seq<Password>, n: nat) {
    && |all| > |history| && |history| == (if |all| - 1 < n then |all| - 1 else n)
    && forall i | 0 <= i < |history| :: history[i].hash == all[|all| - 1 - |history| + i]
  }

  /** An accepted change keeps the history exact. */
  lemma MoveKeepsExact(history: seq<Former>, all: seq<Password>, plain: Password, n: nat, now: nat)
    requires Holds(history, all, n)
    ensures Holds(Last(history + [Former(all[|all| - 1], now)], n), all + [plain], n)
  {
    var grown, more := history + [Former(all[|all| - 1], now)], all + [plain];
    assert forall i | 0 <= i < |grown| :: grown[i].hash == more[|more| - 1 - |grown| + i];
    if |grown| > n {
      assert Last(grown, n) == grown[1..];
    }
  }

  /** The password is one of the n + 1 most recent ones, the current one included. */
  ghost predicate AmongLast(all: seq<Password>, plain: Password, n: nat) {
    exists i :: 0 <= i < |all| && i >= |all| - 1 - n && all[i] == plain
  }

  /** With an exact history the reuse check compares with the n + 1 most recent passwords. */
  lemma RecentMeansLastPasswords(history: seq<Former>, all: seq<Password>, plain: Password, n: nat)
    requires n > 0 && Holds(history, all, n)
    ensures Recent(history, all[|all| - 1], plain, n) <==> AmongLast(all, plain, n)
  {
    var lo := |all| - 1 - |history|;
    if i :| 0 <= i < |history| && history[i].hash == plain {
      assert all[lo + i] == plain;
    }
    if i :| 0 <= i < |all| && i >= |all| - 1 - n && all[i] == plain {
      assert i < |all| - 1 ==> history[i - lo].hash == plain;
    }
  }

  /** Equal passwords are more than d changes apart. */
  ghost predicate Spread(all: seq<Password>, d: nat) {
    forall i, j | 0 <= i < j < |all| && j - i <= d :: all[i] != all[j]
  }

  datatype Attempt = Attempt(byAdmin: bool, currentPlain: Password, newPlain: Password, time: nat)

  ghost predicate Ordered(attempts: seq<Attempt>) {
    forall i, j | 0 <= i < j < |attempts| :: attempts[i].time < attempts[j].time
  }

  /** What an attempt should be answered, told by the passwords the account has had. */
  ghost function Answer(all: seq<Password>, a: Attempt, n: int): Result
    requires all != []
  {
    if !a.byAdmin && a.currentPlain != all[|all| - 1] then Refused(InvalidCredentials)
    else if n > 0 && AmongLast(all, a.newPlain, n) then Refused(UsedRecently)
    else Changed
  }

  /** The passwords after a run: the first one and every accepted new one. */
  ghost function Passwords(first: Password, attempts: seq<Attempt>, n: int): (all: seq<Password>)
    ensures all != []
  {
    if attempts == [] then [first]
    else
      var before, a := Passwords(first, attempts[..|attempts| - 1], n), attempts[|attempts| - 1];
      if Answer(before, a, n).Changed? then before + [a.newPlain] else before
  }

  /** Among the passwords of any run, equal ones are more than n + 1 changes apart. */
  lemma {:induction false} PasswordsSpread(first: Password, attempts: seq<Attempt>, n: nat)
    requires n > 0
    ensures Spread(Passwords(first, attempts, n), n + 1)
  {
    if attempts != [] {
      var before := Passwords(first, attempts[..|attempts| - 1], n);
      PasswordsSpread(first, attempts[..|attempts| - 1], n);
      if Answer(before, attempts[|attempts| - 1], n).Changed? {
        assert !AmongLast(before, attempts[|attempts| - 1].newPlain, n);
      }
    }
  }

  /** The answers of a run. */
  ghost function Answers(first: Password, attempts: seq<Attempt>, n: int): (rs: seq<Result>)
    ensures |rs| == |attempts|
  {
    if attempts == [] then []
    else
      var before, a := attempts[..|attempts| - 1], attempts[|attempts| - 1];
      Answers(first, before, n) + [Answer(Passwords(first, before, n), a, n)]
  }

  /** Each attempt is answered by the passwords before it. */
  lemma {:induction false} AnswersAt(first: Password, attempts: seq<Attempt>, n: int, k: nat)
    requires k < |attempts|
    ensures Answers(first, attempts, n)[k] == Answer(Passwords(first, attempts[..k], n), attempts[k], n)
  {
    if k < |attempts| - 1 {
      AnswersAt(first, attempts[..|attempts| - 1], n, k);
      assert attempts[..|attempts| - 1][..k] == attempts[..k];
    }
  }

  /**
   Any run of user and admin changes at distinct times under a fixed history count: each attempt is
   answered as the passwords so far demand, the account ends with the accepted ones, and the history
   holds exactly the last n former passwords.
   */
  method RunChanges(first: Password, attempts: seq<Attempt>, n: int) returns (results: seq<Result>, c: Credentials)
    requires Ordered(attempts)
    ensures fresh(c) && c.Valid() && results == Answers(first, attempts, n)
    ensures c.all == Passwords(first, attempts, n) && c.current == c.all[|c.all| - 1]
    ensures Holds(c.history, c.all, Floor(n))
    ensures n > 0 ==> Spread(c.all, n + 1)
  {
    c := new Credentials(first);
    results := [];
    for k := 0 to |attempts|
      invariant fresh(c) && c.Valid() && results == Answers(first, attempts[..k], n)
      invariant c.all == Passwords(first, attempts[..k], n)
      invariant Exact(c.history, c.all, Floor(n), TimeAfter(attempts, k)) && c.clock <= TimeAfter(attempts, k)
    {
      NextAttempt(first, attempts, n, k);
      var r := Try(c, attempts[k], n, TimeAfter(attempts, k));
      results := results + [r];
    }
    assert attempts[..|attempts|] == attempts;
    if n > 0 {
      PasswordsSpread(first, attempts, n);
    }
  }

  lemma NextAttempt(first: Password, attempts: seq<Attempt>, n: int, k: nat)
    requires k < |attempts|
    ensures var before, a := Passwords(first, attempts[..k], n), attempts[k];
      && Passwords(first, attempts[..k + 1], n)
         == (if Answer(before, a, n).Changed? then before + [a.newPlain] else before)
      && Answers(first, attempts[..k + 1], n) == Answers(first, attempts[..k], n) + [Answer(before, a, n)]
  {
    assert attempts[..k + 1][..k] == attempts[..k];
  }

  /** A moment after the first k attempts and not after the next. */
  ghost function TimeAfter(attempts: seq<Attempt>, k: nat): nat
    requires k <= |attempts|
  {
    if k == 0 then 0 else attempts[k - 1].time + 1
  }

  /** The times rise and lie before t. */
  ghost predicate Rising(rows: seq<Former>, t: nat) {
    && (forall i, j | 0 <= i < j < |rows| :: rows[i].created < rows[j].created)
    && forall i | 0 <= i < |rows| :: rows[i].created < t
  }

  ghost predicate Exact(history: seq<Former>, all: seq<Password>, n: nat, t: nat) {
    Holds(history, all, n) && Rising(history, t)
  }

  lemma RisingGrows(rows: seq<Former>, f: Former, t: nat)
    requires Rising(rows, t) && t <= f.created
    ensures Rising(rows + [f], f.created + 1)
  {
  }

  lemma RisingTail(rows: seq<Former>, n: nat, t: nat)
    requires Rising(rows, t)
    ensures Rising(Last(rows, n), t) && CleanCut(rows, n)
  {
  }

  /** With distinct times every cut is clean, and a change keeps the history exact. */
  lemma ChangeKeepsExact(history: seq<Former>, all: seq<Password>, plain: Password, n: nat, t: nat, now: nat)
    requires Exact(history, all, n, t) && t <= now
    ensures var grown := history + [Former(all[|all| - 1], now)];
      CleanCut(history, n) && CleanCut(grown, n) && Exact(Last(grown, n), all + [plain], n, now + 1)
  {
    var f := Former(all[|all| - 1], now);
    MoveKeepsExact(history, all, plain, n, now);
    RisingGrows(history, f, t);
    RisingTail(history + [f], n, now + 1);
  }

  /** What the account answers is what its passwords demand. */
  lemma AnswerIs(history: seq<Former>, all: seq<Password>, a: Attempt, n: int)
    requires Holds(history, all, Floor(n))
    ensures Answer(all, a, n) ==
      if !a.byAdmin && a.currentPlain != all[|all| - 1] then Refused(InvalidCredentials)
      else if Recent(history, all[|all| - 1], a.newPlain, n) then Refused(UsedRecently) else Changed
  {
    if n > 0 {
      RecentMeansLastPasswords(history, all, a.newPlain, n);
    }
  }

  method Try(c: Credentials, a: Attempt, n: int, ghost t: nat) returns (r: Result)
    requires c.Valid() && Exact(c.history, c.all, Floor(n), t) && c.clock <= t <= a.time
    modifies c
    ensures c.Valid() && r == Answer(old(c.all), a, n)
    ensures c.all == if r.Changed? then old(c.all) + [a.newPlain] else old(c.all)
    ensures Exact(c.history, c.all, Floor(n), a.time + 1) && c.clock <= a.time
  {
    ChangeKeepsExact(c.history, c.all, a.newPlain, Floor(n), t, a.time);
    AnswerIs(c.history, c.all, a, n);
    if a.byAdmin {
      r := c.AdminSetPassword(a.newPlain, n, a.time);
    } else {
      r := c.ChangePassword(a.currentPlain, a.newPlain, n, a.time);
    }
  }
}
