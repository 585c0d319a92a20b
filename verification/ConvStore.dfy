/** One stored conversation: its message rows, its revision counter and its run lease. */
module ConvStore {
  import opened Options
  import opened Transcript

  type RunId = nat
  type User = nat

  datatype Row = Row(num: nat, msg: Message)

  /** A row of ai_run_locks; expires is a whole second. */
  datatype Lease = Lease(run: RunId, expires: nat)

  datatype Conv = Conv(rows: seq<Row>, revision: nat, deleted: bool, lease: Option<Lease>)

  function Messages(rows: seq<Row>): History {
    seq(|rows|, i requires 0 <= i < |rows| => rows[i].msg)
  }

  /** COALESCE(MAX(seq), 0). */
  function MaxNum(rows: seq<Row>): nat {
    if rows == [] then 0
    else var m := MaxNum(rows[..|rows| - 1]);
      if rows[|rows| - 1].num > m then rows[|rows| - 1].num else m
  }

  function Numbered(msgs: History, first: nat): seq<Row> {
    seq(|msgs|, i requires 0 <= i < |msgs| => Row(first + i, msgs[i]))
  }

  function Append(c: Conv, msgs: History): Conv {
    c.(rows := c.rows + Numbered(msgs, MaxNum(c.rows) + 1), revision := c.revision + 1)
  }

  /** The compare-and-append of tryAppendMessage; expected <= 0 switches the comparison off. */
  predicate MayAppend(c: Conv, expected: int) {
    expected <= 0 || (!c.deleted && c.revision == expected)
  }

  /** The lease is there and has not run out by second sec. */
  predicate Held(c: Conv, sec: nat) {
    c.lease.Some? && c.lease.value.expires > sec
  }

  predicate Owns(c: Conv, run: RunId) {
    c.lease.Some? && c.lease.value.run == run
  }

  function Acquired(c: Conv, run: RunId, sec: nat, ttl: nat): Conv {
    c.(lease := Some(Lease(run, sec + ttl)))
  }

  function Released(c: Conv, run: RunId): Conv {
    if Owns(c, run) then c.(lease := None) else c
  }

  /** The rows of a batch, inserted one by one. */
  method WithRows(rows: seq<Row>, msgs: History, first: nat) returns (all: seq<Row>)
    ensures all == rows + Numbered(msgs, first)
  {
    all := rows;
    for i := 0 to |msgs|
      invariant all == rows + Numbered(msgs[..i], first)
    {
      assert Numbered(msgs[..i + 1], first) == Numbered(msgs[..i], first) + [Row(first + i, msgs[i])];
      all := all + [Row(first + i, msgs[i])];
    }
    assert msgs[..|msgs|] == msgs;
  }

  class Conversation {
    var conv: Conv
    const owner: User

    constructor (owner: User)
      ensures conv == Conv([], 1, false, None) && this.owner == owner
    {
      conv := Conv([], 1, false, None);
      this.owner := owner;
    }

    /** Clears an expired lease and inserts a new one; the unique key refuses a second row. */
    method AcquireRunLease(user: User, run: RunId, sec: nat, ttl: nat) returns (ok: bool)
      modifies this
      ensures ok <==> user == owner && !old(conv).deleted && !Held(old(conv), sec)
      ensures ok <==> user == owner && !old(conv).deleted
                      && (old(conv).lease.Some? ==> old(conv).lease.value.expires <= sec)
      ensures ok ==> conv == Acquired(old(conv), run, sec, ttl)
      ensures ok ==> conv == old(conv).(lease := Some(Lease(run, sec + ttl)))
      ensures !ok ==> conv == old(conv)
    {
      if conv.deleted || owner != user {
        return false;
      }
      var before := conv;
      if conv.lease.Some? && conv.lease.value.expires <= sec {
        conv := conv.(lease := None);
      }
      if conv.lease.Some? {
        conv := before;
        return false;
      }
      conv := conv.(lease := Some(Lease(run, sec + ttl)));
      ok := true;
    }

    method RenewRunLease(run: RunId, sec: nat, ttl: nat) returns (ok: bool)
      modifies this
      ensures ok <==> Owns(old(conv), run)
      ensures ok <==> old(conv).lease.Some? && old(conv).lease.value.run == run
      ensures ok ==> conv == old(conv).(lease := Some(Lease(run, sec + ttl)))
      ensures conv == if ok then Acquired(old(conv), run, sec, ttl) else old(conv)
    {
      var n := 0;
      if conv.lease.Some? && conv.lease.value.run == run {
        conv := conv.(lease := Some(conv.lease.value.(expires := sec + ttl)));
        n := 1;
      }
      ok := n != 0;
    }

    /** ReleaseRunLease, and the admin's DeleteRunLease: the same statement. */
    method ReleaseRunLease(run: RunId)
      modifies this
      ensures conv == Released(old(conv), run)
      ensures conv == if old(conv).lease.Some? && old(conv).lease.value.run == run then old(conv).(lease := None)
                      else old(conv)
    {
      if conv.lease.Some? && conv.lease.value.run == run {
        conv := conv.(lease := None);
      }
    }

    method NextNum() returns (n: nat)
      ensures n == MaxNum(conv.rows) + 1
      ensures n > 0 && forall i | 0 <= i < |conv.rows| :: conv.rows[i].num < n
      ensures n > 1 ==> exists i :: 0 <= i < |conv.rows| && conv.rows[i].num == n - 1
    {
      var max := 0;
      for i := 0 to |conv.rows|
        invariant max == MaxNum(conv.rows[..i])
        invariant forall k | 0 <= k < i :: conv.rows[k].num <= max
        invariant max > 0 ==> exists k :: 0 <= k < i && conv.rows[k].num == max
      {
        assert conv.rows[..i + 1][..i] == conv.rows[..i];
        if conv.rows[i].num > max {
          max := conv.rows[i].num;
        }
      }
      assert conv.rows[..|conv.rows|] == conv.rows;
      n := max + 1;
    }

    method AppendMessage(user: User, m: Message, expected: int) returns (ok: bool)
      modifies this
      ensures ok <==> user == owner && MayAppend(old(conv), expected)
      ensures ok <==> user == owner && (expected > 0 ==> !old(conv).deleted && old(conv).revision == expected)
      ensures ok ==> conv.rows == old(conv).rows + [Row(MaxNum(old(conv).rows) + 1, m)]
      ensures ok ==> conv.revision == old(conv).revision + 1
      ensures conv == if ok then Append(old(conv), [m]) else old(conv)
    {
      if owner != user {
        return false;
      }
      var n := NextNum();
      if expected > 0 {
        if conv.deleted || conv.revision != expected {
          return false;
        }
        conv := conv.(revision := conv.revision + 1);
      }
      conv := conv.(rows := conv.rows + [Row(n, m)]);
      if expected <= 0 {
        conv := conv.(revision := conv.revision + 1);
      }
      assert Numbered([m], n) == [Row(n, m)];
      ok := true;
    }

    method AppendMessages(user: User, msgs: History) returns (ok: bool)
      modifies this
      ensures ok <==> msgs == [] || (user == owner && !old(conv).deleted)
      ensures conv == if ok && msgs != [] then Append(old(conv), msgs) else old(conv)
    {
      if |msgs| == 0 {
        return true;
      }
      if conv.deleted || owner != user {
        return false;
      }
      var first := NextNum();
      var rows := WithRows(conv.rows, msgs, first);
      conv := conv.(rows := rows);
      conv := conv.(revision := conv.revision + 1);
      ok := true;
    }
  }

  // ---------------------------------------------------------------- what every append keeps

  /** Rows are numbered 1..n and spell a sequence of whole blocks. */
  ghost predicate Sound(c: Conv) {
    && (forall i | 0 <= i < |c.rows| :: c.rows[i].num == i + 1)
    && WellFormed(Messages(c.rows))
  }

  lemma {:induction false} MaxNumDense(rows: seq<Row>)
    requires forall i | 0 <= i < |rows| :: rows[i].num == i + 1
    ensures MaxNum(rows) == |rows|
  {
    if rows != [] {
      MaxNumDense(rows[..|rows| - 1]);
    }
  }

  lemma MessagesConcat(a: seq<Row>, b: seq<Row>)
    ensures Messages(a + b) == Messages(a) + Messages(b)
  {
  }

  lemma MessagesNumbered(msgs: History, first: nat)
    ensures Messages(Numbered(msgs, first)) == msgs
  {
  }

  /** Numbers that go on from the last one. */
  lemma NumbersGoOn(rows: seq<Row>, msgs: History)
    requires forall i | 0 <= i < |rows| :: rows[i].num == i + 1
    ensures var all := rows + Numbered(msgs, |rows| + 1); forall i | 0 <= i < |all| :: all[i].num == i + 1
  {
  }

  /** Appending whole blocks keeps the numbering dense and the transcript legal. */
  lemma AppendKeepsSound(c: Conv, msgs: History)
    requires Sound(c) && WellFormed(msgs)
    ensures Sound(Append(c, msgs))
    ensures Messages(Append(c, msgs).rows) == Messages(c.rows) + msgs
    ensures Append(c, msgs).revision == c.revision + 1
  {
    MaxNumDense(c.rows);
    MessagesConcat(c.rows, Numbered(msgs, |c.rows| + 1));
    MessagesNumbered(msgs, |c.rows| + 1);
    NumbersGoOn(c.rows, msgs);
    WellFormedConcat(Messages(c.rows), msgs);
  }
}
