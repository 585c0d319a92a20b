/** The outbox columns of a message row, and the statements that compete for it. */
module Outbox {
  import opened Options

  // Times in the table are whole seconds.
  const CLAIM_LEASE := 2 * 60
  const MAX_ATTEMPTS := 6
  const MINUTE := 60

  type Id = nat

  datatype Row = Row(outbox: bool, attempts: nat, next: Option<nat>, claimedUntil: Option<nat>, sentAt: Option<nat>)

  /** No worker's claim covers second sec. */
  predicate Unclaimed(r: Row, sec: nat) {
    r.claimedUntil.None? || r.claimedUntil.value <= sec
  }

  predicate Claimable(r: Row, sec: nat) {
    r.outbox && Unclaimed(r, sec)
  }

  predicate Due(r: Row, sec: nat) {
    && r.outbox && r.attempts < MAX_ATTEMPTS
    && (r.next.None? || r.next.value <= sec)
    && Unclaimed(r, sec)
  }

  function Claimed(r: Row, sec: nat): Row {
    r.(claimedUntil := Some(sec + CLAIM_LEASE))
  }

  function Sent(r: Row, sec: nat): Row {
    if r.outbox then r.(outbox := false, sentAt := Some(sec)) else r
  }

  function Recorded(r: Row, next: nat): Row {
    if r.outbox then r.(attempts := r.attempts + 1, next := Some(next), claimedUntil := None) else r
  }

  function Reset(r: Row): Row {
    if r.outbox then r.(attempts := 0, next := None) else r
  }

  function Power2(n: nat): nat {
    if n == 0 then 1 else 2 * Power2(n - 1)
  }

  /** Seconds until the next try after a row's (attempts + 1)-th failure. */
  function Backoff(attempts: nat): nat {
    if Power2(attempts) * MINUTE > 32 * MINUTE then 32 * MINUTE else Power2(attempts) * MINUTE
  }

  lemma {:induction false} Power2Grows(m: nat, n: nat)
    requires m <= n
    ensures 1 <= Power2(m) <= Power2(n)
    decreases n
  {
    if m < n {
      Power2Grows(m, n - 1);
    } else if m > 0 {
      Power2Grows(m - 1, n - 1);
    }
  }

  /** For every row the sweeper may take the wait doubles from one minute up, and the cap never cuts it. */
  lemma BackoffDoubles(attempts: nat)
    requires attempts < MAX_ATTEMPTS
    ensures Backoff(attempts) == Power2(attempts) * MINUTE
    ensures attempts == 0 ==> Backoff(attempts) == 60
    ensures attempts + 1 < MAX_ATTEMPTS ==> Backoff(attempts + 1) == 2 * Backoff(attempts)
  {
    assert Power2(5) == 32 by {
      assert Power2(1) == 2 && Power2(2) == 4 && Power2(3) == 8 && Power2(4) == 16;
    }
    Power2Grows(attempts, 5);
    if attempts + 1 < MAX_ATTEMPTS {
      Power2Grows(attempts + 1, 5);
    }
  }

  function Limit(limit: int): nat {
    if limit <= 0 then 50 else limit
  }

  class Table {
    var rows: map<Id, Row>

    constructor ()
      ensures rows == map[]
    {
      rows := map[];
    }

    method ClaimOutbox(id: Id, sec: nat) returns (won: bool)
      modifies this
      ensures won <==> id in old(rows) && Claimable(old(rows)[id], sec)
      ensures rows == if won then old(rows)[id := Claimed(old(rows)[id], sec)] else old(rows)
      ensures won <==> id in old(rows) && old(rows)[id].outbox
                       && (old(rows)[id].claimedUntil.Some? ==> old(rows)[id].claimedUntil.value <= sec)
      ensures won ==> rows[id] == old(rows)[id].(claimedUntil := Some(sec + 120))
    {
      won := false;
      if id in rows {
        var r := rows[id];
        if r.outbox && (r.claimedUntil.None? || r.claimedUntil.value <= sec) {
          rows := rows[id := r.(claimedUntil := Some(sec + CLAIM_LEASE))];
          won := true;
        }
      }
    }

    method MarkSent(id: Id, sec: nat)
      modifies this
      ensures rows == if id in old(rows) then old(rows)[id := Sent(old(rows)[id], sec)] else old(rows)
      ensures id in rows && old(rows)[id].outbox ==> rows[id] == old(rows)[id].(outbox := false, sentAt := Some(sec))
    {
      if id in rows {
        var r := rows[id];
        if r.outbox {
          rows := rows[id := r.(outbox := false, sentAt := Some(sec))];
        } else {
          assert rows == rows[id := r];
        }
      }
    }

    method RecordOutboxAttempt(id: Id, next: nat)
      modifies this
      ensures rows == if id in old(rows) then old(rows)[id := Recorded(old(rows)[id], next)] else old(rows)
      ensures id in rows && old(rows)[id].outbox ==>
        rows[id] == old(rows)[id].(attempts := old(rows)[id].attempts + 1, next := Some(next), claimedUntil := None)
    {
      if id in rows {
        var r := rows[id];
        if r.outbox {
          rows := rows[id := r.(attempts := r.attempts + 1, next := Some(next), claimedUntil := None)];
        } else {
          assert rows == rows[id := r];
        }
      }
    }

    method ResetOutboxAttempts(id: Id)
      modifies this
      ensures rows == if id in old(rows) then old(rows)[id := Reset(old(rows)[id])] else old(rows)
      ensures id in rows && old(rows)[id].outbox ==> rows[id] == old(rows)[id].(attempts := 0, next := None)
    {
      if id in rows {
        var r := rows[id];
        if r.outbox {
          rows := rows[id := r.(attempts := 0, next := None)];
        } else {
          assert rows == rows[id := r];
        }
      }
    }

    /** Up to limit due rows, each once: those with the earliest next attempt, earliest first. */
    method ListOutboxDue(sec: nat, limit: int) returns (due: seq<Id>)
      ensures |due| <= if limit <= 0 then 50 else limit
      ensures forall i | 0 <= i < |due| :: due[i] in rows && Due(rows[due[i]], sec)
      ensures forall r :: Due(r, sec) <==>
        && r.outbox && r.attempts < 6
        && (r.next.Some? ==> r.next.value <= sec) && (r.claimedUntil.Some? ==> r.claimedUntil.value <= sec)
      ensures forall i, j | 0 <= i < j < |due| :: due[i] != due[j] && Turn(rows[due[i]]) <= Turn(rows[due[j]])
      ensures forall i, j | 0 <= i < j < |due| :: NoLater(rows[due[i]].next, rows[due[j]].next)
      ensures forall id | id in rows && Due(rows[id], sec) && id !in due ::
        |due| == (if limit <= 0 then 50 else limit) && forall i | 0 <= i < |due| :: Turn(rows[due[i]]) <= Turn(rows[id])
    {
      due := [];
      var rest := set id | id in rows && Due(rows[id], sec);
      while rest != {} && |due| < Limit(limit)
        invariant |due| <= Limit(limit)
        invariant forall i | 0 <= i < |due| :: due[i] in rows && Due(rows[due[i]], sec) && due[i] !in rest
        invariant forall i, j | 0 <= i < j < |due| :: due[i] != due[j] && Turn(rows[due[i]]) <= Turn(rows[due[j]])
        invariant forall i, id | 0 <= i < |due| && id in rest :: Turn(rows[due[i]]) <= Turn(rows[id])
        invariant forall id | id in rows && Due(rows[id], sec) :: id in due || id in rest
        invariant rest <= rows.Keys && forall id | id in rest :: Due(rows[id], sec)
        decreases rest
      {
        var id := Earliest(rest);
        due, rest := due + [id], rest - {id};
      }
    }

    method Earliest(ids: set<Id>) returns (id: Id)
      requires ids != {} && ids <= rows.Keys
      ensures id in ids && forall x | x in ids :: Turn(rows[id]) <= Turn(rows[x])
    {
      id :| id in ids;
      var rest := ids - {id};
      while rest != {}
        invariant rest <= ids && id in ids
        invariant forall x | x in ids && x !in rest :: Turn(rows[id]) <= Turn(rows[x])
      {
        var x :| x in rest;
        if Turn(rows[x]) < Turn(rows[id]) {
          id := x;
        }
        rest := rest - {x};
      }
    }

    /**
     One sweep: without a provider nothing is tried; else each listed row is tried once in the order
     listed, until the sweep is cancelled after stop rows. The course of a try comes from the driver
     and the other workers: it delivers, it is refused the claim, or it fails.
     */
    method SweepOutbox(sec: nat, batch: nat, provider: bool, stop: nat, tries: map<Id, Try>) returns (tried: seq<Id>)
      requires batch > 0
      requires forall id | id in rows :: id in tries && sec <= tries[id].claim <= tries[id].done
      modifies this
      ensures |tried| <= batch && forall i | 0 <= i < |tried| :: tried[i] in old(rows) && Due(old(rows)[tried[i]], sec)
      ensures !provider ==> tried == []
      ensures provider && |tried| < batch && |tried| < stop ==>
        forall id | id in old(rows) && Due(old(rows)[id], sec) :: id in tried
      ensures rows.Keys == old(rows).Keys
      ensures forall id | id in rows ::
        rows[id] == if id in tried then Tried(old(rows)[id], tries[id]) else old(rows)[id]
      ensures forall id | id in tried ::
        match tries[id].outcome
        case Delivered => !rows[id].outbox && rows[id].sentAt == Some(tries[id].done)
        case InProgress => rows[id] == old(rows)[id]
        case Failed =>
          && rows[id].outbox && rows[id].attempts == old(rows)[id].attempts + 1 && rows[id].claimedUntil.None?
          && rows[id].next == Some(tries[id].done + Power2(old(rows)[id].attempts) * 60)
    {
      var due := ListOutboxDue(sec, batch);
      if |due| == 0 || !provider {
        return [];
      }
      tried := [];
      for i := 0 to |due|
        invariant tried == due[..i] && i <= stop && rows.Keys == old(rows).Keys
        invariant forall id | id in rows ::
          rows[id] == if id in tried then Tried(old(rows)[id], tries[id]) else old(rows)[id]
      {
        if i == stop {
          break;
        }
        RetryDue(due[i], tries[due[i]]);
        tried := tried + [due[i]];
      }
      forall id | id in tried ensures Backoff(old(rows)[id].attempts) == Power2(old(rows)[id].attempts) * 60 {
        BackoffDoubles(old(rows)[id].attempts);
      }
    }

    /** RetrySend on a due row and the record of its failure. */
    method RetryDue(id: Id, t: Try)
      requires id in rows && rows[id].outbox && Unclaimed(rows[id], t.claim)
      modifies this
      ensures rows == old(rows)[id := Tried(old(rows)[id], t)]
    {
      var attempts := rows[id].attempts;
      if t.outcome.InProgress? {
        assert rows == rows[id := rows[id]];
        return;
      }
      var won := ClaimOutbox(id, t.claim);
      if t.outcome.Delivered? {
        MarkSent(id, t.done);
      } else {
        RecordOutboxAttempt(id, t.done + Backoff(attempts));
      }
    }
  }

  datatype Outcome = Delivered | InProgress | Failed

  /** A try claims at one second and is done at another. */
  datatype Try = Try(claim: nat, done: nat, outcome: Outcome)

  /** The place of a row in the sweeper's list: rows without a next attempt come first. */
  function Turn(r: Row): nat {
    if r.next.None? then 0 else r.next.value + 1
  }

  /** A next attempt that is not set comes before any other. */
  predicate NoLater(a: Option<nat>, b: Option<nat>) {
    a.Some? ==> b.Some? && a.value <= b.value
  }

  /** What one try of the sweeper leaves of a due row. */
  function Tried(r: Row, t: Try): Row {
    match t.outcome
    case Delivered => Sent(Claimed(r, t.claim), t.done)
    case InProgress => r
    case Failed => Recorded(Claimed(r, t.claim), t.done + Backoff(r.attempts))
  }

  // ---------------------------------------------------------------- runs over one row

  /** A sweep that may come to the row at second sec, or a step of a manual retry: reset, claim, delivery. */
  datatype RowStep = Sweep(sec: nat, course: Try) | ManualReset | ManualClaim(sec: nat) | ManualSent(sec: nat)

  function RowNext(r: Row, step: RowStep): Row {
    match step
    case Sweep(sec, t) => if Due(r, sec) then Tried(r, t) else r
    case ManualReset => Reset(r)
    case ManualClaim(sec) => if Claimable(r, sec) then Claimed(r, sec) else r
    case ManualSent(sec) => Sent(r, sec)
  }

  function RowAfter(r: Row, steps: seq<RowStep>): Row {
    if steps == [] then r else RowNext(RowAfter(r, steps[..|steps| - 1]), steps[|steps| - 1])
  }

  /** The sweep at step k brings the row to the driver. */
  predicate TriedAt(r: Row, steps: seq<RowStep>, k: nat)
    requires k < |steps|
  {
    steps[k].Sweep? && Due(RowAfter(r, steps[..k]), steps[k].sec) && !steps[k].course.outcome.InProgress?
  }

  /** The sweeper's tries since the last reset, or since the start. */
  function TriesSinceReset(r: Row, steps: seq<RowStep>): nat {
    if steps == [] || steps[|steps| - 1].ManualReset? then 0
    else TriesSinceReset(r, steps[..|steps| - 1]) + if TriedAt(r, steps, |steps| - 1) then 1 else 0
  }

  predicate InTime(steps: seq<RowStep>) {
    forall k | 0 <= k < |steps| && steps[k].Sweep? :: steps[k].sec <= steps[k].course.claim <= steps[k].course.done
  }

  /**
   However long the sweeper runs and however often the user retries, a new row comes to the sweeper's
   driver at most six times between two resets; while it is in the outbox its counter says how often.
   */
  lemma {:induction false} SixTries(r: Row, steps: seq<RowStep>)
    requires r.attempts == 0
    ensures TriesSinceReset(r, steps) <= 6
    ensures RowAfter(r, steps).outbox ==> RowAfter(r, steps).attempts == TriesSinceReset(r, steps)
    decreases |steps|
  {
    if steps != [] {
      SixTries(r, steps[..|steps| - 1]);
    }
  }

  /** A message delivered by the sweeper, or by hand, never comes to the sweeper's driver again. */
  lemma DeliveredStaysOut(r: Row, steps: seq<RowStep>, i: nat, j: nat)
    requires i < j < |steps|
    requires (TriedAt(r, steps, i) && steps[i].course.outcome.Delivered?) || steps[i].ManualSent?
    ensures !TriedAt(r, steps, j)
  {
    assert steps[..i + 1][..i] == steps[..i];
    OutStaysOut(r, steps, i + 1, j);
  }

  lemma {:induction false} OutStaysOut(r: Row, steps: seq<RowStep>, i: nat, j: nat)
    requires i <= j <= |steps| && !RowAfter(r, steps[..i]).outbox
    ensures !RowAfter(r, steps[..j]).outbox
    decreases j - i
  {
    if i < j {
      OutStaysOut(r, steps, i, j - 1);
      assert steps[..j][..j - 1] == steps[..j - 1];
    }
  }

  /** A failed try leaves the row in the outbox, with one attempt more; one refused the claim leaves it as it is. */
  lemma TryLeaves(r: Row, steps: seq<RowStep>)
    requires steps != [] && steps[|steps| - 1].Sweep?
    requires Due(RowAfter(r, steps[..|steps| - 1]), steps[|steps| - 1].sec)
    ensures var before, after := RowAfter(r, steps[..|steps| - 1]), RowAfter(r, steps);
      match steps[|steps| - 1].course.outcome
      case Delivered => !after.outbox
      case InProgress => after == before
      case Failed => after.outbox && after.attempts == before.attempts + 1
  {
  }

  /** A reset makes a row due at once, however often it failed, unless a claim holds it. */
  lemma ResetMakesDue(r: Row, steps: seq<RowStep>, sec: nat)
    requires steps != [] && steps[|steps| - 1].ManualReset?
    ensures var after := RowAfter(r, steps);
      Due(after, sec) <==> after.outbox && (after.claimedUntil.Some? ==> after.claimedUntil.value <= sec)
  {
  }

  /** No reset after step i and before step j. */
  predicate NoReset(steps: seq<RowStep>, i: nat, j: nat)
    requires j <= |steps|
  {
    forall k | i < k < j :: !steps[k].ManualReset?
  }

  /** After a failure the row waits, whatever but a reset comes in between. */
  lemma {:induction false} FailureWaits(r: Row, steps: seq<RowStep>, i: nat)
    requires InTime(steps) && i < |steps| && TriedAt(r, steps, i) && steps[i].course.outcome.Failed?
    requires NoReset(steps, i, |steps|)
    ensures var r' := RowAfter(r, steps);
      r'.outbox ==> r'.next.Some? && r'.next.value >= steps[i].course.done + Backoff(RowAfter(r, steps[..i]).attempts)
    decreases |steps|
  {
    var front := steps[..|steps| - 1];
    if i < |front| {
      assert front[..i] == steps[..i];
      FailureWaits(r, front, i);
    }
  }

  /** Between a failed try and any later one before a reset lie at least the minutes of the doubling backoff. */
  lemma FailedTryBacksOff(r: Row, steps: seq<RowStep>, i: nat, j: nat)
    requires InTime(steps) && i < j < |steps| && TriedAt(r, steps, i) && TriedAt(r, steps, j)
    requires steps[i].course.outcome.Failed? && NoReset(steps, i, j)
    ensures steps[j].sec >= steps[i].course.done + Power2(RowAfter(r, steps[..i]).attempts) * MINUTE
  {
    assert steps[..j][..i] == steps[..i];
    FailureWaits(r, steps[..j], i);
    BackoffDoubles(RowAfter(r, steps[..i]).attempts);
  }
}
