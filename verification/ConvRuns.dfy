/**
 Assistant runs over one conversation, interleaved at single store calls: turn start, lease,
 heartbeat, appends, crashes, and the other writers of the conversation.
 */
module ConvRuns {
  import opened Options
  import opened Clock
  import opened Transcript
  import opened ConvStore

  // runLeaseTTL and the heartbeat interval.
  const LEASE_TTL := 30 * 60
  const HEARTBEAT := LEASE_TTL / 3

  /** Waiting: not yet leased. Leased: before its user message. InTurn: after it. */
  datatype Phase = Waiting | Leased | InTurn | Ending | Over

  datatype Run = Run(phase: Phase, expected: int, renewed: nat)

  /** owners[i] is the run that appended row i. */
  datatype State = State(conv: Conv, runs: map<RunId, Run>, now: nat, ghost owners: seq<RunId>)

  datatype Step =
    | Tick(dt: nat)
    | Begin(run: RunId, expected: int)
    | Acquire(run: RunId)
    | AppendUser(run: RunId, content: string)
    | AppendExchange(run: RunId, block: History)
    | AppendFinal(run: RunId, content: string)
    | Renew(run: RunId)
    | Release(run: RunId)
    | Crash(run: RunId)
    | AdminDelete(run: RunId)
    | SetTitle
    | SoftDelete

  function UserRow(content: string): Message {
    Message(User, content, [], "", "")
  }

  function FinalRow(content: string): Message {
    Message(Assistant, content, [], "", "")
  }

  ghost predicate InPhase(s: State, r: RunId, p: Phase) {
    r in s.runs && s.runs[r].phase == p
  }

  /** The run holds what it believes is a lease. */
  ghost predicate Active(s: State, r: RunId) {
    InPhase(s, r, Leased) || InPhase(s, r, InTurn)
  }

  ghost function SetPhase(s: State, r: RunId, p: Phase): State
    requires r in s.runs
  {
    s.(runs := s.runs[r := s.runs[r].(phase := p)])
  }

  ghost function Repeat(r: RunId, n: nat): seq<RunId> {
    seq(n, _ => r)
  }

  ghost function Wrote(s: State, r: RunId, msgs: History): State {
    s.(conv := Append(s.conv, msgs), owners := s.owners + Repeat(r, |msgs|))
  }

  /** The effect of one step; a step that is not enabled changes nothing. */
  ghost function Next(ttl: nat, s: State, step: Step): State {
    match step
    case Tick(dt) => s.(now := s.now + dt)
    case Begin(r, expected) =>
      if r in s.runs then s else s.(runs := s.runs[r := Run(Waiting, expected, 0)])
    case Acquire(r) =>
      if !InPhase(s, r, Waiting) then s
      else if s.conv.deleted || Held(s.conv, Sec(s.now)) then SetPhase(s, r, Over)
      else s.(conv := Acquired(s.conv, r, Sec(s.now), ttl), runs := s.runs[r := Run(Leased, s.runs[r].expected, s.now)])
    case AppendUser(r, content) =>
      if !InPhase(s, r, Leased) then s
      else if MayAppend(s.conv, s.runs[r].expected) then SetPhase(Wrote(s, r, [UserRow(content)]), r, InTurn)
      else SetPhase(s, r, Ending)
    case AppendExchange(r, block) =>
      if !InPhase(s, r, InTurn) || !IsBlock(block) || !Calling(block[0]) then s
      else if s.conv.deleted then SetPhase(s, r, Ending)
      else Wrote(s, r, block)
    case AppendFinal(r, content) =>
      if !InPhase(s, r, InTurn) then s else SetPhase(Wrote(s, r, [FinalRow(content)]), r, Ending)
    case Renew(r) =>
      if !Active(s, r) then s
      else if Owns(s.conv, r) then
        s.(conv := Acquired(s.conv, r, Sec(s.now), ttl), runs := s.runs[r := s.runs[r].(renewed := s.now)])
      else s
    case Release(r) =>
      if r !in s.runs || s.runs[r].phase == Over then s
      else SetPhase(s.(conv := Released(s.conv, r)), r, Over)
    case Crash(r) => if r in s.runs then SetPhase(s, r, Over) else s
    case AdminDelete(r) => s.(conv := Released(s.conv, r))
    case SetTitle => if s.conv.deleted then s else s.(conv := s.conv.(revision := s.conv.revision + 1))
    case SoftDelete =>
      if s.conv.deleted then s else s.(conv := s.conv.(revision := s.conv.revision + 1, deleted := true))
  }

  ghost function Init(): State {
    State(Conv([], 1, false, None), map[], 0, [])
  }

  ghost function After(ttl: nat, s: State, steps: seq<Step>): State {
    if steps == [] then s else Next(ttl, After(ttl, s, steps[..|steps| - 1]), steps[|steps| - 1])
  }

  // ---------------------------------------------------------------- in every interleaving

  /** Whatever runs, crashes, takeovers and admins do, the stored rows are whole blocks numbered 1..n. */
  lemma {:induction false} TranscriptAlwaysWhole(ttl: nat, steps: seq<Step>)
    ensures Sound(After(ttl, Init(), steps).conv)
    decreases |steps|
  {
    if steps == [] {
      assert Messages(Init().conv.rows) == [];
    } else {
      TranscriptAlwaysWhole(ttl, steps[..|steps| - 1]);
      StepKeepsSound(ttl, After(ttl, Init(), steps[..|steps| - 1]), steps[|steps| - 1]);
    }
  }

  lemma SingleBlock(m: Message)
    requires Plain(m)
    ensures WellFormed([m])
  {
    BlockThenWellFormed([m], []);
    assert [m] + [] == [m];
  }

  lemma StepKeepsSound(ttl: nat, s: State, step: Step)
    requires Sound(s.conv)
    ensures Sound(Next(ttl, s, step).conv)
  {
    match step
    case AppendUser(r, content) =>
      SingleBlock(UserRow(content));
      AppendKeepsSound(s.conv, [UserRow(content)]);
    case AppendFinal(r, content) =>
      SingleBlock(FinalRow(content));
      AppendKeepsSound(s.conv, [FinalRow(content)]);
    case AppendExchange(r, block) =>
      if IsBlock(block) {
        BlockThenWellFormed(block, []);
        assert block + [] == block;
        AppendKeepsSound(s.conv, block);
      }
    case _ =>
  }

  /** The revision never falls; it rises by exactly one when rows are added, and rows are only added. */
  lemma StepRevision(ttl: nat, s: State, step: Step)
    ensures s.conv.revision <= Next(ttl, s, step).conv.revision <= s.conv.revision + 1
    ensures s.conv.rows <= Next(ttl, s, step).conv.rows
    ensures Next(ttl, s, step).conv.rows != s.conv.rows ==> Next(ttl, s, step).conv.revision == s.conv.revision + 1
  {
  }

  lemma {:induction false} RevisionGrows(ttl: nat, steps: seq<Step>, i: nat, j: nat)
    requires i <= j <= |steps|
    ensures After(ttl, Init(), steps[..i]).conv.revision <= After(ttl, Init(), steps[..j]).conv.revision
    decreases j - i
  {
    if i < j {
      RevisionGrows(ttl, steps, i, j - 1);
      assert steps[..j][..j - 1] == steps[..j - 1];
      StepRevision(ttl, After(ttl, Init(), steps[..j - 1]), steps[j - 1]);
    }
  }

  /** Step k appends a user message for a run started from revision e. */
  ghost predicate UserAppended(ttl: nat, steps: seq<Step>, k: nat, e: int)
    requires k < |steps|
  {
    var s := After(ttl, Init(), steps[..k]);
    && steps[k].AppendUser? && InPhase(s, steps[k].run, Leased) && s.runs[steps[k].run].expected == e
    && Next(ttl, s, steps[k]).conv.rows != s.conv.rows
  }

  /** Of all turns started from the same revision at most one appends its user message. */
  lemma OneTurnPerRevision(ttl: nat, steps: seq<Step>, i: nat, j: nat, e: int)
    requires e > 0 && i < |steps| && j < |steps|
    requires UserAppended(ttl, steps, i, e) && UserAppended(ttl, steps, j, e)
    ensures i == j
  {
    if i != j {
      var a, b := if i < j then i else j, if i < j then j else i;
      assert steps[..a + 1][..a] == steps[..a];
      RevisionGrows(ttl, steps, a + 1, b);
    }
  }

  lemma {:induction false} RowsSince(ttl: nat, steps: seq<Step>, i: nat, k: nat)
    requires i <= k <= |steps|
    ensures var a, b := After(ttl, Init(), steps[..i]).conv, After(ttl, Init(), steps[..k]).conv;
      a.revision <= b.revision && (a.revision == b.revision ==> a.rows == b.rows)
    decreases k - i
  {
    if i < k {
      RowsSince(ttl, steps, i, k - 1);
      assert steps[..k][..k - 1] == steps[..k - 1];
      StepRevision(ttl, After(ttl, Init(), steps[..k - 1]), steps[k - 1]);
    }
  }

  /** A user message joins the very transcript its turn started from: every state of that revision had these rows. */
  lemma UserAppendsToWhatItSaw(ttl: nat, steps: seq<Step>, k: nat, e: int, i: nat)
    requires e > 0 && i <= k < |steps| && UserAppended(ttl, steps, k, e)
    ensures var s := After(ttl, Init(), steps[..k]).conv;
      && s.revision == e && !s.deleted
      && (After(ttl, Init(), steps[..i]).conv.revision == e ==> After(ttl, Init(), steps[..i]).conv.rows == s.rows)
  {
    RowsSince(ttl, steps, i, k);
  }

  /** And a leased run that started from the current revision of a live conversation does append it. */
  lemma CurrentTurnAppends(ttl: nat, steps: seq<Step>, k: nat)
    requires k < |steps| && steps[k].AppendUser?
    requires var s, r := After(ttl, Init(), steps[..k]), steps[k].run;
      InPhase(s, r, Leased) && !s.conv.deleted && s.runs[r].expected == s.conv.revision
    ensures var s := After(ttl, Init(), steps[..k]);
      var s', msg := Next(ttl, s, steps[k]), UserRow(steps[k].content);
      && UserAppended(ttl, steps, k, s.conv.revision) && InPhase(s', steps[k].run, InTurn)
      && msg.role == User && msg.content == steps[k].content
      && Messages(s'.conv.rows) == Messages(s.conv.rows) + [msg]
  {
    TranscriptAlwaysWhole(ttl, steps[..k]);
    var s := After(ttl, Init(), steps[..k]);
    SingleBlock(UserRow(steps[k].content));
    AppendKeepsSound(s.conv, [UserRow(steps[k].content)]);
    NoEmptyAppend(s, steps[k].run, [UserRow(steps[k].content)]);
  }

  /** In its turn a run appends whole exchanges to a live conversation, and its final answer. */
  lemma TurnAppends(ttl: nat, steps: seq<Step>, r: RunId, block: History, content: string)
    requires InPhase(After(ttl, Init(), steps), r, InTurn)
    ensures var s := After(ttl, Init(), steps);
      var exchange, final := Next(ttl, s, AppendExchange(r, block)), Next(ttl, s, AppendFinal(r, content));
      && (IsBlock(block) && Calling(block[0]) && !s.conv.deleted ==>
            Messages(exchange.conv.rows) == Messages(s.conv.rows) + block && InPhase(exchange, r, InTurn))
      && |final.conv.rows| == |s.conv.rows| + 1 && Messages(final.conv.rows)[..|s.conv.rows|] == Messages(s.conv.rows)
      && final.conv.rows[|s.conv.rows|].msg.role == Assistant && final.conv.rows[|s.conv.rows|].msg.content == content
  {
    var s := After(ttl, Init(), steps);
    TranscriptAlwaysWhole(ttl, steps);
    SingleBlock(FinalRow(content));
    AppendKeepsSound(s.conv, [FinalRow(content)]);
    if IsBlock(block) {
      BlockThenWellFormed(block, []);
      assert block + [] == block;
      AppendKeepsSound(s.conv, block);
    }
  }

  // ---------------------------------------------------------------- the lease

  /** A waiting run gets the lease of a live conversation exactly when it is free; its owner renews and returns it. */
  lemma LeaseMoves(ttl: nat, s: State, r: RunId)
    ensures InPhase(s, r, Waiting) && !s.conv.deleted ==>
      var s' := Next(ttl, s, Acquire(r));
      if s.conv.lease.Some? && s.conv.lease.value.expires > Sec(s.now) then s'.conv == s.conv && InPhase(s', r, Over)
      else s'.conv.lease == Some(Lease(r, Sec(s.now) + ttl)) && InPhase(s', r, Leased) && s'.runs[r].renewed == s.now
    ensures r in s.runs && Active(s, r) && s.conv.lease.Some? && s.conv.lease.value.run == r ==>
      && Next(ttl, s, Renew(r)).conv.lease == Some(Lease(r, Sec(s.now) + ttl))
      && Next(ttl, s, Renew(r)).runs[r].renewed == s.now
      && Next(ttl, s, Release(r)).conv.lease == None
  {
  }

  /** The run once held a lease, or tried, and does not now. */
  ghost predicate Lost(s: State, r: RunId) {
    r in s.runs && s.runs[r].phase != Waiting && !Owns(s.conv, r)
  }

  /**
   A run whose lease was taken over, released or deleted never gets one again: its renewals fail and
   its release removes nothing.
   */
  lemma LostStaysLost(ttl: nat, s: State, r: RunId, step: Step)
    requires Lost(s, r)
    ensures Lost(Next(ttl, s, step), r)
    ensures Next(ttl, s, Renew(r)) == s
    ensures Next(ttl, s, Release(r)).conv == s.conv
  {
  }

  lemma {:induction false} LostForever(ttl: nat, s: State, r: RunId, steps: seq<Step>)
    requires Lost(s, r)
    ensures Lost(After(ttl, s, steps), r)
    decreases |steps|
  {
    if steps != [] {
      LostForever(ttl, s, r, steps[..|steps| - 1]);
      LostStaysLost(ttl, After(ttl, s, steps[..|steps| - 1]), r, steps[|steps| - 1]);
    }
  }

  /** No active run's last renewal lies more than gap ticks back. */
  ghost predicate RenewedWithin(s: State, gap: nat) {
    forall r | r in s.runs && Active(s, r) :: s.now <= s.runs[r].renewed + gap
  }

  /** In such a run of the system heartbeats are never late and no admin deletes a lease. */
  ghost predicate Timely(ttl: nat, steps: seq<Step>, gap: nat) {
    forall k | 0 <= k <= |steps| ::
      RenewedWithin(After(ttl, Init(), steps[..k]), gap) && (k < |steps| ==> !steps[k].AdminDelete?)
  }

  /** Every active run owns a lease that has not run out. */
  ghost predicate Exclusive(ttl: nat, s: State) {
    forall r | r in s.runs && Active(s, r) ::
      && s.conv.lease == Some(Lease(r, Sec(s.runs[r].renewed) + ttl))
      && s.runs[r].renewed <= s.now
  }

  /** With gaps of at most ttl - 1 seconds an active run's lease is still good. */
  lemma LeaseGood(ttl: nat, s: State, r: RunId, gap: nat)
    requires Exclusive(ttl, s) && RenewedWithin(s, gap) && gap + SECOND <= ttl * SECOND
    requires r in s.runs && Active(s, r)
    ensures Held(s.conv, Sec(s.now))
  {
    var t := s.runs[r].renewed;
    assert t < (Sec(t) + 1) * SECOND;
    assert s.now < (Sec(t) + 1) * SECOND + gap <= (Sec(t) + ttl) * SECOND;
  }

  /** A step that starts no run and renews none: of the active runs none lost its lease. */
  lemma QuietKeepsExclusive(ttl: nat, s: State, s': State)
    requires Exclusive(ttl, s) && s.now <= s'.now
    requires forall r | r in s'.runs && Active(s', r) ::
      && r in s.runs && Active(s, r) && s'.runs[r].renewed == s.runs[r].renewed
      && (s.conv.lease.Some? && s.conv.lease.value.run == r ==> s'.conv.lease == s.conv.lease)
    ensures Exclusive(ttl, s')
  {
  }

  /** A run that acquires found no good lease, so no other run is active. */
  lemma AcquireKeepsExclusive(ttl: nat, s: State, r: RunId, gap: nat)
    requires Exclusive(ttl, s) && RenewedWithin(s, gap) && gap + SECOND <= ttl * SECOND
    requires InPhase(s, r, Waiting) && !s.conv.deleted && !Held(s.conv, Sec(s.now))
    ensures Exclusive(ttl, Next(ttl, s, Acquire(r)))
  {
    forall x | x in s.runs && Active(s, x) ensures false {
      LeaseGood(ttl, s, x, gap);
    }
  }

  lemma RenewKeepsExclusive(ttl: nat, s: State, r: RunId)
    requires Exclusive(ttl, s)
    ensures Exclusive(ttl, Next(ttl, s, Renew(r)))
  {
  }

  lemma StepKeepsExclusive(ttl: nat, s: State, step: Step, gap: nat)
    requires Exclusive(ttl, s) && RenewedWithin(s, gap) && gap + SECOND <= ttl * SECOND
    requires !step.AdminDelete?
    ensures Exclusive(ttl, Next(ttl, s, step))
  {
    if step.Renew? {
      RenewKeepsExclusive(ttl, s, step.run);
    } else if step.Acquire? && InPhase(s, step.run, Waiting) && !s.conv.deleted && !Held(s.conv, Sec(s.now)) {
      AcquireKeepsExclusive(ttl, s, step.run, gap);
    } else {
      QuietKeepsExclusive(ttl, s, Next(ttl, s, step));
    }
  }

  lemma {:induction false} TimelyPrefix(ttl: nat, steps: seq<Step>, gap: nat)
    requires Timely(ttl, steps, gap) && steps != []
    ensures Timely(ttl, steps[..|steps| - 1], gap)
    ensures RenewedWithin(After(ttl, Init(), steps[..|steps| - 1]), gap)
    ensures !steps[|steps| - 1].AdminDelete?
  {
    var n := |steps| - 1;
    forall k | 0 <= k <= n
      ensures RenewedWithin(After(ttl, Init(), steps[..n][..k]), gap) && (k < n ==> !steps[..n][k].AdminDelete?)
    {
      assert steps[..n][..k] == steps[..k];
    }
    assert RenewedWithin(After(ttl, Init(), steps[..n]), gap) && !steps[n].AdminDelete?;
  }

  /** With timely heartbeats at most one run is active: nobody else can acquire. */
  lemma {:induction false} TimelyExclusive(ttl: nat, steps: seq<Step>, gap: nat)
    requires Timely(ttl, steps, gap) && gap + SECOND <= ttl * SECOND
    ensures Exclusive(ttl, After(ttl, Init(), steps))
    decreases |steps|
  {
    if steps != [] {
      TimelyPrefix(ttl, steps, gap);
      TimelyExclusive(ttl, steps[..|steps| - 1], gap);
      StepKeepsExclusive(ttl, After(ttl, Init(), steps[..|steps| - 1]), steps[|steps| - 1], gap);
    }
  }

  /** The heartbeat of the runtime, a third of the lease, is well inside the bound. */
  lemma HeartbeatIsTimely(steps: seq<Step>, r: RunId, r': RunId)
    requires Timely(LEASE_TTL, steps, HEARTBEAT * SECOND)
    requires var s := After(LEASE_TTL, Init(), steps); Active(s, r) && Active(s, r')
    ensures LEASE_TTL == 1800 && HEARTBEAT == 600
    ensures r == r'
  {
    TimelyExclusive(LEASE_TTL, steps, HEARTBEAT * SECOND);
  }

  ghost function LateSteps(ttl: nat): seq<Step>
    requires ttl >= 1
  {
    [Begin(1, 0), Begin(2, 0), Tick(SECOND - 1), Acquire(1), Tick((ttl - 1) * SECOND + 1), Acquire(2)]
  }

  ghost function LateState(ttl: nat, k: nat): State
    requires ttl >= 1
  {
    if k == 0 then Init()
    else if k <= 6 then Next(ttl, LateState(ttl, k - 1), LateSteps(ttl)[k - 1])
    else Init()
  }

  lemma LateStates(ttl: nat)
    requires ttl >= 1
    ensures forall k | 0 <= k <= 6 :: RenewedWithin(LateState(ttl, k), (ttl - 1) * SECOND + 1)
    ensures Active(LateState(ttl, 6), 1) && Active(LateState(ttl, 6), 2)
  {
    var none := Conv([], 1, false, None);
    var w := Run(Waiting, 0, 0);
    assert LateState(ttl, 1) == State(none, map[1 := w], 0, []);
    assert LateState(ttl, 2) == State(none, map[1 := w, 2 := w], 0, []);
    assert LateState(ttl, 3) == State(none, map[1 := w, 2 := w], SECOND - 1, []);
    assert Sec(SECOND - 1) == 0;
    var c1 := Conv([], 1, false, Some(Lease(1, ttl)));
    var l1 := Run(Leased, 0, SECOND - 1);
    assert LateState(ttl, 4) == State(c1, map[1 := l1, 2 := w], SECOND - 1, []);
    assert LateState(ttl, 5) == State(c1, map[1 := l1, 2 := w], ttl * SECOND, []);
    assert Sec(ttl * SECOND) == ttl;
    var c2 := Conv([], 1, false, Some(Lease(2, ttl + ttl)));
    var l2 := Run(Leased, 0, ttl * SECOND);
    assert LateState(ttl, 6) == State(c2, map[1 := l1, 2 := l2], ttl * SECOND, []);
  }

  lemma {:induction false} LateReplay(ttl: nat, k: nat)
    requires ttl >= 1 && k <= 6
    ensures After(ttl, Init(), LateSteps(ttl)[..k]) == LateState(ttl, k)
  {
    if k > 0 {
      LateReplay(ttl, k - 1);
      assert LateSteps(ttl)[..k][..k - 1] == LateSteps(ttl)[..k - 1];
    }
  }

  /** One tick more than ttl - 1 seconds between renewals lets a second run in beside the first. */
  lemma LateHeartbeatOverlaps(ttl: nat)
    requires ttl >= 1
    ensures Timely(ttl, LateSteps(ttl), (ttl - 1) * SECOND + 1)
    ensures Active(After(ttl, Init(), LateSteps(ttl)), 1) && Active(After(ttl, Init(), LateSteps(ttl)), 2)
  {
    var steps := LateSteps(ttl);
    LateStates(ttl);
    forall k | 0 <= k <= 6 ensures After(ttl, Init(), steps[..k]) == LateState(ttl, k) { LateReplay(ttl, k); }
    assert steps[..6] == steps;
  }

  // ---------------------------------------------------------------- turns do not interleave

  /** The rows of one run stand together. */
  ghost predicate Contiguous(owners: seq<RunId>) {
    forall i, j, k | 0 <= i < k < j < |owners| && owners[i] == owners[j] :: owners[k] == owners[i]
  }

  /** A run's rows are opened by its user message. */
  ghost predicate OpenedByUser(rows: seq<Row>, owners: seq<RunId>)
    requires |owners| == |rows|
  {
    forall i {:trigger rows[i]} | 0 <= i < |owners| ::
      (i == 0 || owners[i - 1] != owners[i]) ==> rows[i].msg.role == User
  }

  ghost predicate Started(p: Phase) {
    !p.Waiting? && !p.Leased?
  }

  /** Only started runs wrote rows, and a run in its turn wrote the last one. */
  ghost predicate WrittenByStarted(owners: seq<RunId>, runs: map<RunId, Run>) {
    && (forall i | 0 <= i < |owners| :: owners[i] in runs && Started(runs[owners[i]].phase))
    && (forall r | r in runs && runs[r].phase.InTurn? :: owners != [] && owners[|owners| - 1] == r)
  }

  ghost predicate TurnsApart(s: State) {
    && |s.owners| == |s.conv.rows|
    && Contiguous(s.owners)
    && OpenedByUser(s.conv.rows, s.owners)
    && WrittenByStarted(s.owners, s.runs)
  }

  /** r may write next: it wrote the last row, or it wrote none yet. */
  ghost predicate MayContinue(owners: seq<RunId>, r: RunId) {
    r in owners ==> owners[|owners| - 1] == r
  }

  lemma ContiguousGrows(owners: seq<RunId>, r: RunId, n: nat)
    requires Contiguous(owners) && MayContinue(owners, r)
    ensures Contiguous(owners + Repeat(r, n))
  {
    var all := owners + Repeat(r, n);
    var m := |owners|;
    forall i, j, k | 0 <= i < k < j < |all| && all[i] == all[j] ensures all[k] == all[i] {
      if j < m {
        assert owners[i] == owners[j];
      } else if i < m {
        assert owners[i] == r;
        if k < m - 1 {
          assert owners[i] == owners[m - 1];
        }
      }
    }
  }

  lemma OpenersGrow(rows: seq<Row>, owners: seq<RunId>, r: RunId, added: seq<Row>)
    requires |owners| == |rows| && OpenedByUser(rows, owners) && added != []
    requires (owners != [] && owners[|owners| - 1] == r) || added[0].msg.role == User
    ensures OpenedByUser(rows + added, owners + Repeat(r, |added|))
  {
    var all := owners + Repeat(r, |added|);
    forall i | |owners| < i < |all| ensures all[i - 1] == all[i] {
      assert all[i] == r && all[i - 1] == r;
    }
    forall i | 0 <= i < |all| && (i == 0 || all[i - 1] != all[i]) ensures (rows + added)[i].msg.role == User {
      if i < |owners| {
        assert (rows + added)[i] == rows[i];
      } else {
        assert all[i] == r && (rows + added)[i] == added[0];
      }
    }
  }

  lemma WritersGrow(owners: seq<RunId>, runs: map<RunId, Run>, runs': map<RunId, Run>, r: RunId, n: nat)
    requires WrittenByStarted(owners, runs) && n > 0
    requires r in runs && runs'.Keys == runs.Keys && Started(runs'[r].phase)
    requires forall x | x in runs && x != r :: runs'[x] == runs[x] && !runs[x].phase.InTurn?
    ensures WrittenByStarted(owners + Repeat(r, n), runs')
  {
    var all := owners + Repeat(r, n);
    forall i | 0 <= i < |all| ensures all[i] in runs' && Started(runs'[all[i]].phase) {
      if i < |owners| {
        assert all[i] == owners[i];
      }
    }
    assert all[|all| - 1] == r;
  }

  lemma WroteApart(s: State, r: RunId, msgs: History, s': State)
    requires TurnsApart(s) && msgs != []
    requires r in s.runs && s'.runs.Keys == s.runs.Keys
    requires s'.conv.rows == Append(s.conv, msgs).rows && s'.owners == s.owners + Repeat(r, |msgs|)
    requires if s.runs[r].phase.Leased? then msgs[0].role == User else s.runs[r].phase.InTurn?
    requires Started(s'.runs[r].phase)
    requires forall x | x in s.runs && x != r :: s'.runs[x] == s.runs[x] && !s.runs[x].phase.InTurn?
    ensures TurnsApart(s')
  {
    var added := Numbered(msgs, MaxNum(s.conv.rows) + 1);
    ContiguousGrows(s.owners, r, |msgs|);
    OpenersGrow(s.conv.rows, s.owners, r, added);
    WritersGrow(s.owners, s.runs, s'.runs, r, |msgs|);
  }

  /** A step that adds no row and starts no turn. */
  lemma QuietApart(s: State, s': State)
    requires TurnsApart(s) && s'.owners == s.owners && s'.conv.rows == s.conv.rows
    requires s.runs.Keys <= s'.runs.Keys
    requires forall x | x in s'.runs && s'.runs[x].phase.InTurn? :: x in s.runs && s.runs[x].phase.InTurn?
    requires forall x | x in s.runs && Started(s.runs[x].phase) :: Started(s'.runs[x].phase)
    ensures TurnsApart(s')
  {
  }

  lemma StepKeepsApart(ttl: nat, s: State, step: Step)
    requires Exclusive(ttl, s) && TurnsApart(s)
    ensures TurnsApart(Next(ttl, s, step))
  {
    var s' := Next(ttl, s, step);
    if s'.conv.rows == s.conv.rows && s'.owners == s.owners {
      if step.AppendUser? {
        assert s' == s || s' == SetPhase(s, step.run, Ending) by {
          NoEmptyAppend(s, step.run, [UserRow(step.content)]);
        }
      }
      QuietApart(s, s');
    } else {
      OthersIdle(ttl, s, step.run);
      match step
      case AppendUser(r, content) => WroteApart(s, r, [UserRow(content)], s');
      case AppendExchange(r, block) => WroteApart(s, r, block, s');
      case AppendFinal(r, content) => WroteApart(s, r, [FinalRow(content)], s');
    }
  }

  lemma NoEmptyAppend(s: State, r: RunId, msgs: History)
    requires msgs != []
    ensures Wrote(s, r, msgs).conv.rows != s.conv.rows
  {
    assert |Append(s.conv, msgs).rows| == |s.conv.rows| + |msgs|;
  }

  lemma OthersIdle(ttl: nat, s: State, r: RunId)
    requires Exclusive(ttl, s)
    ensures r in s.runs && Active(s, r) ==> forall x | x in s.runs && x != r :: !s.runs[x].phase.InTurn?
  {
    if r in s.runs && Active(s, r) {
      forall x | x in s.runs && x != r ensures !s.runs[x].phase.InTurn? {
        assert !Active(s, x);
      }
    }
  }

  /**
   With timely heartbeats the stored transcript is a sequence of turns, each the user message of one
   run followed by all and only the rows that run appended.
   */
  lemma {:induction false} TurnsNeverInterleave(ttl: nat, steps: seq<Step>, gap: nat)
    requires Timely(ttl, steps, gap) && gap + SECOND <= ttl * SECOND
    ensures TurnsApart(After(ttl, Init(), steps))
    decreases |steps|
  {
    if steps != [] {
      var before := steps[..|steps| - 1];
      TimelyPrefix(ttl, steps, gap);
      TurnsNeverInterleave(ttl, before, gap);
      TimelyExclusive(ttl, before, gap);
      StepKeepsApart(ttl, After(ttl, Init(), before), steps[|steps| - 1]);
    }
  }
}
