/**
 Sweeper and manual retries of one outbox row, interleaved at single calls: load, claim, driver,
 bookkeeping. Who may be at the driver, and how often the message goes out.
 */
module OutboxRetry {
  import opened Options
  import opened Clock
  import opened Outbox

  datatype Kind = Sweeper | Manual

  /**
   A RetrySend call. Loaded: the message was read as an outbox one. Refused: it was not, and a sweeper
   will still record the failure. Claimed to Failed: between winning the claim and finishing.
   */
  datatype Phase = Loaded | Refused | Claimed | AtDriver | Accepted | Failed | Over

  datatype Worker = Worker(kind: Kind, phase: Phase, since: nat)

  type WorkerId = nat

  /** deliveries counts how often the driver has accepted the message. */
  datatype State = State(row: Row, workers: map<WorkerId, Worker>, now: nat, ghost deliveries: nat)

  datatype Step =
    | Tick(dt: nat)
    | ResetAttempts
    | Load(w: WorkerId, kind: Kind)
    | Claim(w: WorkerId)
    | PrepareFails(w: WorkerId)
    | HandOver(w: WorkerId)
    | DriverAccepts(w: WorkerId)
    | DriverFails(w: WorkerId)
    | MarkSent(w: WorkerId)
    | Record(w: WorkerId, next: nat)
    | Crash(w: WorkerId)

  ghost predicate At(s: State, w: WorkerId, p: Phase) {
    w in s.workers && s.workers[w].phase == p
  }

  ghost function Goto(s: State, w: WorkerId, p: Phase): State
    requires w in s.workers
  {
    s.(workers := s.workers[w := s.workers[w].(phase := p)])
  }

  /** A failed manual retry is over: its handler records nothing and leaves the claim to expire. */
  ghost function Fail(s: State, w: WorkerId): State
    requires w in s.workers
  {
    Goto(s, w, if s.workers[w].kind.Sweeper? then Phase.Failed else Over)
  }

  /** The effect of one step; a step that is not enabled changes nothing. */
  ghost function Next(s: State, step: Step): State {
    match step
    case Tick(dt) => s.(now := s.now + dt)
    case ResetAttempts => s.(row := Reset(s.row))
    case Load(w, kind) =>
      if w in s.workers then s
      else
        var phase := if s.row.outbox then Loaded else if kind.Sweeper? then Refused else Over;
        s.(workers := s.workers[w := Worker(kind, phase, 0)])
    case Claim(w) =>
      if !At(s, w, Loaded) then s
      else if Claimable(s.row, Sec(s.now)) then
        s.(row := Outbox.Claimed(s.row, Sec(s.now)),
           workers := s.workers[w := Worker(s.workers[w].kind, Phase.Claimed, s.now)])
      else Goto(s, w, Over)
    case PrepareFails(w) => if At(s, w, Phase.Claimed) then Fail(s, w) else s
    case HandOver(w) => if At(s, w, Phase.Claimed) then Goto(s, w, AtDriver) else s
    case DriverAccepts(w) =>
      if At(s, w, AtDriver) then Goto(s, w, Accepted).(deliveries := s.deliveries + 1) else s
    case DriverFails(w) => if At(s, w, AtDriver) then Fail(s, w) else s
    case MarkSent(w) =>
      if At(s, w, Accepted) then Goto(s, w, Over).(row := Sent(s.row, Sec(s.now))) else s
    case Record(w, next) =>
      if At(s, w, Phase.Failed) || At(s, w, Refused) then Goto(s, w, Over).(row := Recorded(s.row, next)) else s
    case Crash(w) => if w in s.workers then Goto(s, w, Over) else s
  }

  ghost function After(s: State, steps: seq<Step>): State {
    if steps == [] then s else Next(After(s, steps[..|steps| - 1]), steps[|steps| - 1])
  }

  /** Between winning the claim and the last thing the call does to the row. */
  ghost predicate Open(p: Phase) {
    p.Claimed? || p.AtDriver? || p.Accepted? || p.Failed?
  }

  /** No section has been open for more than bound ticks. */
  ghost predicate Prompt(s: State, bound: nat) {
    forall w | w in s.workers && Open(s.workers[w].phase) :: s.now <= s.workers[w].since + bound
  }

  ghost predicate PromptRun(s0: State, steps: seq<Step>, bound: nat) {
    forall k | 0 <= k <= |steps| :: Prompt(After(s0, steps[..k]), bound)
  }

  /** A row waiting in the outbox, no call under way. */
  ghost predicate Start(s: State) {
    s.row.outbox && s.row.claimedUntil.None? && s.workers == map[] && s.deliveries == 0
  }

  /** The claim in the row belongs to the one open section; refused sweepers mean the row has left the outbox. */
  ghost predicate Guarded(s: State) {
    && (forall w | w in s.workers && Open(s.workers[w].phase) :: HoldsClaim(s, w))
    && (forall v, w | v in s.workers && w in s.workers && Open(s.workers[v].phase) && Open(s.workers[w].phase) ::
          v == w)
    && (forall w | w in s.workers && s.workers[w].phase.Refused? :: !s.row.outbox)
  }

  ghost predicate HoldsClaim(s: State, w: WorkerId)
    requires w in s.workers
  {
    && s.row.outbox && s.row.claimedUntil == Some(Sec(s.workers[w].since) + CLAIM_LEASE)
    && s.workers[w].since <= s.now
  }

  /** While a prompt section is open the row cannot be claimed. */
  lemma SectionHolds(s: State, w: WorkerId, bound: nat)
    requires Guarded(s) && Prompt(s, bound) && bound + SECOND <= CLAIM_LEASE * SECOND
    requires w in s.workers && Open(s.workers[w].phase)
    ensures !Claimable(s.row, Sec(s.now))
  {
    var t := s.workers[w].since;
    assert HoldsClaim(s, w);
    assert t < (Sec(t) + 1) * SECOND;
    assert s.now < (Sec(t) + CLAIM_LEASE) * SECOND;
  }

  /** A row that can be claimed has no open section. */
  lemma ClaimableMeansClosed(s: State, bound: nat)
    requires Guarded(s) && Prompt(s, bound) && bound + SECOND <= CLAIM_LEASE * SECOND
    requires Claimable(s.row, Sec(s.now))
    ensures forall w | w in s.workers :: !Open(s.workers[w].phase)
  {
    forall w | w in s.workers ensures !Open(s.workers[w].phase) {
      if Open(s.workers[w].phase) {
        SectionHolds(s, w, bound);
      }
    }
  }

  lemma ClaimKeepsGuarded(s: State, w: WorkerId, bound: nat)
    requires Guarded(s) && Prompt(s, bound) && bound + SECOND <= CLAIM_LEASE * SECOND
    requires At(s, w, Loaded) && Claimable(s.row, Sec(s.now))
    ensures Guarded(Next(s, Claim(w)))
  {
    ClaimableMeansClosed(s, bound);
  }

  /** A worker leaving or staying in its section, the claim untouched while it stays. */
  lemma MoveKeepsGuarded(s: State, w: WorkerId, s': State)
    requires Guarded(s) && w in s.workers
    requires s'.now == s.now && w in s'.workers
    requires s'.workers == s.workers[w := s.workers[w].(phase := s'.workers[w].phase)]
    requires s'.workers[w].phase.Refused? ==> s.workers[w].phase.Refused?
    requires Open(s'.workers[w].phase) ==> Open(s.workers[w].phase) && s'.row == s.row
    requires s'.row != s.row && s.row.outbox ==> Open(s.workers[w].phase)
    requires s'.row.outbox ==> s.row.outbox
    ensures Guarded(s')
  {
    forall v | v in s'.workers && Open(s'.workers[v].phase) ensures HoldsClaim(s', v) {
      assert HoldsClaim(s, v);
    }
  }

  /** Steps outside any section: time, a reset of the attempts, a fresh call. */
  lemma QuietKeepsGuarded(s: State, s': State)
    requires Guarded(s) && s'.now >= s.now
    requires s'.row.outbox == s.row.outbox && s'.row.claimedUntil == s.row.claimedUntil
    requires forall w | w in s.workers :: w in s'.workers && s'.workers[w] == s.workers[w]
    requires forall w | w in s'.workers && w !in s.workers ::
      !Open(s'.workers[w].phase) && (s'.workers[w].phase.Refused? ==> !s'.row.outbox)
    ensures Guarded(s')
  {
    forall v | v in s'.workers && Open(s'.workers[v].phase) ensures HoldsClaim(s', v) {
      assert HoldsClaim(s, v);
    }
  }

  lemma StepKeepsGuarded(s: State, step: Step, bound: nat)
    requires Guarded(s) && Prompt(s, bound) && bound + SECOND <= CLAIM_LEASE * SECOND
    ensures Guarded(Next(s, step))
  {
    var s' := Next(s, step);
    match step
    case Tick(dt) => QuietKeepsGuarded(s, s');
    case ResetAttempts => QuietKeepsGuarded(s, s');
    case Load(w, kind) => QuietKeepsGuarded(s, s');
    case Claim(w) =>
      if At(s, w, Loaded) {
        if Claimable(s.row, Sec(s.now)) {
          ClaimKeepsGuarded(s, w, bound);
        } else {
          MoveKeepsGuarded(s, w, s');
        }
      }
    case _ =>
      if step.w in s.workers {
        MoveKeepsGuarded(s, step.w, s');
      }
  }

  lemma {:induction false} PromptPrefix(s0: State, steps: seq<Step>, bound: nat)
    requires PromptRun(s0, steps, bound) && steps != []
    ensures PromptRun(s0, steps[..|steps| - 1], bound)
    ensures Prompt(After(s0, steps[..|steps| - 1]), bound)
  {
    var n := |steps| - 1;
    forall k | 0 <= k <= n ensures Prompt(After(s0, steps[..n][..k]), bound) {
      assert steps[..n][..k] == steps[..k];
    }
    assert Prompt(After(s0, steps[..n]), bound);
  }

  lemma {:induction false} RunGuarded(s0: State, steps: seq<Step>, bound: nat)
    requires Start(s0) && PromptRun(s0, steps, bound) && bound + SECOND <= CLAIM_LEASE * SECOND
    ensures Guarded(After(s0, steps))
    decreases |steps|
  {
    if steps != [] {
      PromptPrefix(s0, steps, bound);
      RunGuarded(s0, steps[..|steps| - 1], bound);
      StepKeepsGuarded(After(s0, steps[..|steps| - 1]), steps[|steps| - 1], bound);
    }
  }

  /**
   Sections of at most 119 seconds: no two retries are at the driver at once, and none is there or
   gets there once a MarkSent has taken the row out of the outbox.
   */
  lemma OneAtTheDriver(s0: State, steps: seq<Step>, v: WorkerId, w: WorkerId)
    requires Start(s0) && PromptRun(s0, steps, 119 * SECOND)
    requires At(After(s0, steps), v, AtDriver) && At(After(s0, steps), w, AtDriver)
    ensures v == w && After(s0, steps).row.outbox
  {
    RunGuarded(s0, steps, 119 * SECOND);
    assert HoldsClaim(After(s0, steps), v);
  }

  /** The driver accepted, and the row does not say so yet: some worker is about to mark it. */
  ghost predicate DeliveredOnce(s: State) {
    && s.deliveries <= 1
    && (forall w | w in s.workers && s.workers[w].phase.Accepted? :: s.deliveries == 1)
    && (s.deliveries == 1 && s.row.outbox ==> exists w :: w in s.workers && s.workers[w].phase.Accepted?)
  }

  lemma StepKeepsDeliveredOnce(s: State, step: Step)
    requires Guarded(s) && DeliveredOnce(s)
    requires step.Crash? ==> !At(s, step.w, Accepted)
    ensures DeliveredOnce(Next(s, step))
  {
    var s' := Next(s, step);
    if step.DriverAccepts? && At(s, step.w, AtDriver) {
      assert HoldsClaim(s, step.w);
      assert s.deliveries == 0;
      assert s'.workers[step.w].phase.Accepted?;
    } else if s.deliveries == 1 && s.row.outbox {
      var w :| w in s.workers && s.workers[w].phase.Accepted?;
      if step.MarkSent? && step.w == w {
        assert !s'.row.outbox;
      } else {
        assert w in s'.workers && s'.workers[w].phase.Accepted?;
      }
    }
  }

  /** In no step does a worker crash between the driver's acceptance and MarkSent. */
  ghost predicate NoCrashAfterAcceptance(s0: State, steps: seq<Step>) {
    forall k | 0 <= k < |steps| && steps[k].Crash? :: !At(After(s0, steps[..k]), steps[k].w, Accepted)
  }

  /** Then the retries deliver the message at most once. */
  lemma {:induction false} NeverDeliveredTwice(s0: State, steps: seq<Step>)
    requires Start(s0) && PromptRun(s0, steps, 119 * SECOND) && NoCrashAfterAcceptance(s0, steps)
    ensures DeliveredOnce(After(s0, steps)) && After(s0, steps).deliveries <= 1
    decreases |steps|
  {
    if steps != [] {
      var before := steps[..|steps| - 1];
      PromptPrefix(s0, steps, 119 * SECOND);
      assert NoCrashAfterAcceptance(s0, before) by {
        forall k | 0 <= k < |before| && before[k].Crash? ensures !At(After(s0, before[..k]), before[k].w, Accepted) {
          assert before[..k] == steps[..k];
        }
      }
      NeverDeliveredTwice(s0, before);
      RunGuarded(s0, before, 119 * SECOND);
      StepKeepsDeliveredOnce(After(s0, before), steps[|steps| - 1]);
    }
  }

  // ---------------------------------------------------------------- the bound is exact

  ghost function SlowSteps(): seq<Step> {
    [Load(1, Sweeper), Load(2, Manual), Tick(SECOND - 1), Claim(1), HandOver(1), Tick(119 * SECOND + 1),
     Claim(2), HandOver(2)]
  }

  ghost function SlowStart(): State {
    State(Row(true, 0, None, None, None), map[], 0, 0)
  }

  ghost function SlowState(k: nat): State {
    if k == 0 then SlowStart() else if k <= 8 then Next(SlowState(k - 1), SlowSteps()[k - 1]) else SlowStart()
  }

  lemma SlowStates()
    ensures forall k | 0 <= k <= 8 :: Prompt(SlowState(k), 119 * SECOND + 1)
    ensures At(SlowState(8), 1, AtDriver) && At(SlowState(8), 2, AtDriver)
  {
    var row := Row(true, 0, None, None, None);
    var l1, l2 := Worker(Sweeper, Loaded, 0), Worker(Manual, Loaded, 0);
    assert SlowState(1) == State(row, map[1 := l1], 0, 0);
    assert SlowState(2) == State(row, map[1 := l1, 2 := l2], 0, 0);
    assert SlowState(3) == State(row, map[1 := l1, 2 := l2], SECOND - 1, 0);
    assert Sec(SECOND - 1) == 0;
    var row1 := row.(claimedUntil := Some(120));
    var c1, d1 := Worker(Sweeper, Phase.Claimed, SECOND - 1), Worker(Sweeper, AtDriver, SECOND - 1);
    assert SlowState(4) == State(row1, map[1 := c1, 2 := l2], SECOND - 1, 0);
    assert SlowState(5) == State(row1, map[1 := d1, 2 := l2], SECOND - 1, 0);
    assert SlowState(6) == State(row1, map[1 := d1, 2 := l2], 120 * SECOND, 0);
    assert Sec(120 * SECOND) == 120;
    var row2 := row.(claimedUntil := Some(240));
    var c2, d2 := Worker(Manual, Phase.Claimed, 120 * SECOND), Worker(Manual, AtDriver, 120 * SECOND);
    assert SlowState(7) == State(row2, map[1 := d1, 2 := c2], 120 * SECOND, 0);
    assert SlowState(8) == State(row2, map[1 := d1, 2 := d2], 120 * SECOND, 0);
  }

  lemma {:induction false} SlowReplay(k: nat)
    requires k <= 8
    ensures After(SlowStart(), SlowSteps()[..k]) == SlowState(k)
  {
    if k > 0 {
      SlowReplay(k - 1);
      assert SlowSteps()[..k][..k - 1] == SlowSteps()[..k - 1];
    }
  }

  /**
   Times are cut to seconds, so a two-minute claim covers only 119 of them for sure: sections one tick
   longer let two workers reach the driver together.
   */
  lemma LongerSectionsOverlap()
    ensures Start(SlowStart()) && PromptRun(SlowStart(), SlowSteps(), 119 * SECOND + 1)
    ensures At(After(SlowStart(), SlowSteps()), 1, AtDriver) && At(After(SlowStart(), SlowSteps()), 2, AtDriver)
  {
    SlowStates();
    forall k | 0 <= k <= 8 ensures After(SlowStart(), SlowSteps()[..k]) == SlowState(k) { SlowReplay(k); }
    assert SlowSteps()[..8] == SlowSteps();
  }

  // ---------------------------------------------------------------- the course of one call

  /** A call that finds the row free and is left alone delivers the message, once, and takes it out of the outbox. */
  lemma LoneCallDelivers(s: State, w: WorkerId, kind: Kind)
    requires w !in s.workers && s.row.outbox
    requires s.row.claimedUntil.Some? ==> s.row.claimedUntil.value <= Sec(s.now)
    ensures var claimed := Next(Next(s, Load(w, kind)), Claim(w));
      var done := Next(Next(Next(claimed, HandOver(w)), DriverAccepts(w)), Step.MarkSent(w));
      && claimed.row == s.row.(claimedUntil := Some(Sec(s.now) + 120)) && claimed.deliveries == s.deliveries
      && done.deliveries == s.deliveries + 1 && !done.row.outbox && done.row.sentAt == Some(Sec(s.now))
      && At(done, w, Over)
  {
  }

  /** When the driver fails, a sweeper counts the attempt and frees the row; a manual retry lets its claim expire. */
  lemma LoneCallFails(s: State, w: WorkerId, kind: Kind, next: nat)
    requires w !in s.workers && s.row.outbox
    requires s.row.claimedUntil.Some? ==> s.row.claimedUntil.value <= Sec(s.now)
    ensures var failed := Next(Next(Next(Next(s, Load(w, kind)), Claim(w)), HandOver(w)), DriverFails(w));
      var done := Next(failed, Record(w, next));
      && done.deliveries == s.deliveries && done.row.outbox && At(done, w, Over)
      && done.row == if kind.Sweeper?
                     then s.row.(attempts := s.row.attempts + 1, next := Some(next), claimedUntil := None)
                     else s.row.(claimedUntil := Some(Sec(s.now) + 120))
  {
  }

  /** A call that finds the row claimed ends without touching it. */
  lemma ClaimedRowRefused(s: State, w: WorkerId, kind: Kind)
    requires w !in s.workers && s.row.outbox
    requires s.row.claimedUntil.Some? && s.row.claimedUntil.value > Sec(s.now)
    ensures var done := Next(Next(s, Load(w, kind)), Claim(w));
      done.row == s.row && done.deliveries == s.deliveries && At(done, w, Over)
  {
  }

  // ---------------------------------------------------------------- a crash after acceptance

  ghost function CrashSteps(): seq<Step> {
    [Load(1, Sweeper), Claim(1), HandOver(1), DriverAccepts(1), Crash(1), Tick(120 * SECOND),
     Load(2, Manual), Claim(2), HandOver(2), DriverAccepts(2)]
  }

  const FREE := Row(true, 0, None, None, None)
  const TAKEN := Row(true, 0, None, Some(120), None)
  const RETAKEN := Row(true, 0, None, Some(240), None)

  ghost function First(p: Phase): map<WorkerId, Worker> {
    map[1 := Worker(Sweeper, p, 0)]
  }

  ghost function Second(p: Phase, since: nat): map<WorkerId, Worker> {
    First(Over)[2 := Worker(Manual, p, since)]
  }

  /** The states of that run: the first call delivers and crashes, the second comes when its claim has run out. */
  ghost function CrashState(k: nat): State {
    var later := 120 * SECOND;
    if k == 0 then SlowStart()
    else if k == 1 then State(FREE, First(Loaded), 0, 0)
    else if k == 2 then State(TAKEN, First(Phase.Claimed), 0, 0)
    else if k == 3 then State(TAKEN, First(AtDriver), 0, 0)
    else if k == 4 then State(TAKEN, First(Accepted), 0, 1)
    else if k == 5 then State(TAKEN, First(Over), 0, 1)
    else if k == 6 then State(TAKEN, First(Over), later, 1)
    else if k == 7 then State(TAKEN, Second(Loaded, 0), later, 1)
    else if k == 8 then State(RETAKEN, Second(Phase.Claimed, later), later, 1)
    else if k == 9 then State(RETAKEN, Second(AtDriver, later), later, 1)
    else State(RETAKEN, Second(Accepted, later), later, 2)
  }

  lemma CrashNext(k: nat)
    requires k < 10
    ensures CrashState(k + 1) == Next(CrashState(k), CrashSteps()[k])
  {
    assert Sec(0) == 0 && Sec(120 * SECOND) == 120;
    if k < 5 {
      CrashNextFirst(k);
    }
  }

  lemma CrashNextFirst(k: nat)
    requires k < 5
    ensures CrashState(k + 1) == Next(CrashState(k), CrashSteps()[k])
  {
    assert Sec(0) == 0;
  }

  lemma {:induction false} CrashReplay(k: nat)
    requires k <= 10
    ensures After(SlowStart(), CrashSteps()[..k]) == CrashState(k) && Prompt(CrashState(k), 0)
  {
    if k > 0 {
      CrashReplay(k - 1);
      CrashNext(k - 1);
      assert CrashSteps()[..k][..k - 1] == CrashSteps()[..k - 1];
    }
  }

  /** However prompt the sections, a crash between acceptance and MarkSent lets a message go out twice. */
  lemma CrashDeliversTwice()
    ensures Start(SlowStart()) && PromptRun(SlowStart(), CrashSteps(), 0)
    ensures After(SlowStart(), CrashSteps()).deliveries == 2
  {
    forall k | 0 <= k <= 10
      ensures After(SlowStart(), CrashSteps()[..k]) == CrashState(k) && Prompt(CrashState(k), 0)
    {
      CrashReplay(k);
    }
    assert CrashSteps()[..10] == CrashSteps();
  }
}
