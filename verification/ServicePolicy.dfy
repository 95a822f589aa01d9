/** What the service state machine promises over whole runs. */
module ServicePolicy {
  import opened Wrappers
  import opened Units
  import opened Services

  /** Everything that can be done to a unit's runtime state, each at a moment of the clock. */
  datatype Op =
    | Launch(pid: nat)
    | FailStart
    | BecomeReady
    | ForkAway
    | Ping
    | AskToStop(cause: StopCause)
    | StopTimeout
    | CancelRestart
    | CgroupEmptied
    | Exited(exit: Exit)

  function Apply(r: Runtime, op: Op, now: nat): (Runtime, Option<nat>)
  {
    match op
    case Launch(pid) => (r.EnteredActivating(pid), None)
    case FailStart => (r.FailedToStart(), None)
    case BecomeReady => (r.EnteredActive(now), None)
    case ForkAway => (r.ForkedAway(now), None)
    case Ping => (r.Pinged(now), None)
    case AskToStop(cause) => (r.EnteredDeactivating(cause), None)
    case StopTimeout => (r.StopTimedOut(), None)
    case CancelRestart => (r.CancelRestart(), None)
    case CgroupEmptied => r.Deactivated(now)
    case Exited(exit) => r.OnExit(exit, now)
  }

  datatype Timed = Timed(op: Op, now: nat)

  function Run(r: Runtime, ops: seq<Timed>): Runtime
    decreases |ops|
  {
    if ops == [] then r
    else Run(Apply(r, ops[0].op, ops[0].now).0, ops[1..])
  }

  // ----- Backoff -----

  function Pow2(n: nat): (p: nat)
    ensures p > n
  {
    if n == 0 then 1 else 2 * Pow2(n - 1)
  }

  /** The delay after `restarts` consecutive failures, in closed form. */
  function Expected(base: nat, restarts: nat): nat
  {
    if restarts == 0 then base else Min(base * Pow2(restarts), MAX_BACKOFF)
  }

  predicate InClosedForm(r: Runtime)
  {
    r.restarts <= MAX_RESTARTS && r.backoff == Expected(BaseBackoff(r.unit), r.restarts)
  }

  lemma {:induction false} Pow2Grows(m: nat, n: nat)
    requires m <= n
    ensures Pow2(m) <= Pow2(n)
    decreases n - m
  {
    if m < n { Pow2Grows(m, n - 1); }
  }

  lemma TwoToThe39()
    ensures Pow2(39) > MAX_BACKOFF
  {
    assert Pow2(10) == 1024 by {
      assert Pow2(4) == 16;
      assert Pow2(7) == 128;
    }
    assert Pow2(13) == 8192;
    assert Pow2(16) == 65536;
    assert Pow2(19) == 0x8_0000;
    assert Pow2(22) == 0x40_0000;
    assert Pow2(25) == 0x200_0000;
    assert Pow2(28) == 0x1000_0000;
    assert Pow2(31) == 0x8000_0000;
    assert Pow2(34) == 0x4_0000_0000;
    assert Pow2(37) == 0x20_0000_0000;
  }

  lemma TimesAtLeast(base: nat, p: nat)
    requires base >= 1
    ensures base * p >= p
  {
  }

  /** Once the counter saturates the cap has long been reached. */
  lemma CapAtSaturation(base: nat)
    requires base > 0
    ensures Expected(base, MAX_RESTARTS) == MAX_BACKOFF
  {
    TwoToThe39();
    Pow2Grows(39, MAX_RESTARTS);
    TimesAtLeast(base, Pow2(MAX_RESTARTS));
  }

  /** Doubling and capping moves one step along the closed form, counter saturation included. */
  lemma DoublingStep(base: nat, restarts: nat)
    requires restarts <= MAX_RESTARTS
    ensures Min(Expected(base, restarts) * 2, MAX_BACKOFF) == Expected(base, Min(restarts + 1, MAX_RESTARTS))
  {
    if restarts == MAX_RESTARTS {
      if base > 0 { CapAtSaturation(base); } else { assert base * Pow2(restarts) == 0; }
    } else {
      assert Pow2(restarts + 1) == 2 * Pow2(restarts);
      assert base * Pow2(restarts + 1) == base * Pow2(restarts) * 2;
      if restarts == 0 { assert Pow2(1) == 2 * Pow2(0); }
    }
  }

  lemma PolicyKeepsClosedForm(r: Runtime, exit: Exit, now: nat)
    requires InClosedForm(r)
    ensures var (after, delay) := r.ScheduleRestart(exit, now);
            && InClosedForm(after) && after.unit == r.unit
            && (delay.Some? ==> delay.value == Expected(BaseBackoff(r.unit), r.Forgiven(now).restarts))
  {
    var f := r.Forgiven(now);
    var base := BaseBackoff(r.unit);
    assert InClosedForm(f) && f.unit == r.unit;
    var capped := Min(f.backoff * 2, MAX_BACKOFF);
    assert capped == Expected(base, Min(f.restarts + 1, MAX_RESTARTS)) by {
      DoublingStep(base, f.restarts);
    }
  }

  /** Every transition keeps the closed form; a delay is the backoff before the step, history forgiven or not. */
  lemma ApplyKeepsClosedForm(r: Runtime, op: Op, now: nat)
    requires InClosedForm(r)
    ensures var (after, delay) := Apply(r, op, now);
            && InClosedForm(after) && after.unit == r.unit
            && (delay.Some? ==> delay.value == Expected(BaseBackoff(r.unit), r.Forgiven(now).restarts))
  {
    hide Expected, Pow2;
    match op
    case CgroupEmptied =>
      PolicyKeepsClosedForm(r.(child := None, killed := false, stopCause := None), Abnormal, now);
    case Exited(exit) =>
      PolicyKeepsClosedForm(r.(child := None), exit, now);
      PolicyKeepsClosedForm(r.(child := None, reached := true), exit, now);
    case _ =>
  }

  /**
   * In every reachable state the backoff is `restart-sec` doubled once per
   * consecutive restart and capped at 300 s, the first one uncapped.
   */
  lemma {:induction false} BackoffInClosedForm(u: Unit, ops: seq<Timed>)
    ensures InClosedForm(Run(NewRuntime(u), ops)) && Run(NewRuntime(u), ops).unit == u
  {
    ClosedFormFrom(NewRuntime(u), ops);
  }

  lemma {:induction false} ClosedFormFrom(r: Runtime, ops: seq<Timed>)
    requires InClosedForm(r)
    ensures InClosedForm(Run(r, ops)) && Run(r, ops).unit == r.unit
    decreases |ops|
  {
    if ops != [] {
      ApplyKeepsClosedForm(r, ops[0].op, ops[0].now);
      ClosedFormFrom(Apply(r, ops[0].op, ops[0].now).0, ops[1..]);
    }
  }

  /** Every delay ever handed out is at most the larger of `restart-sec` and 300 s. */
  lemma {:induction false} DelaysAreBounded(u: Unit, ops: seq<Timed>, last: Timed)
    ensures var (_, delay) := Apply(Run(NewRuntime(u), ops), last.op, last.now);
            delay.Some? ==> delay.value <= MAX_BACKOFF || delay.value == BaseBackoff(u)
  {
    BackoffInClosedForm(u, ops);
    ApplyKeepsClosedForm(Run(NewRuntime(u), ops), last.op, last.now);
  }

  // ----- Which exits are followed by a restart -----

  /** What the unit's definition says about restarting: the four policies, for services alone. */
  predicate Wants(u: Unit, exit: Exit)
  {
    u.IsService() &&
    match u.kind.service.restart
    case Never => false
    case Always => true
    case OnFailure => exit != Clean
    case OnAbnormal => exit == Abnormal
  }

  /** Where an exit leaves a unit that was not asked to stop. */
  function Outcome(u: Unit, exit: Exit): State
  {
    if Wants(u, exit) then Restarting else if exit == Clean then Inactive else Failed
  }

  /** The unit was last up for longer than its own backoff, so what it failed before does not count. */
  predicate Forgives(r: Runtime, now: nat)
  {
    r.activeSince.Some? && now > r.activeSince.value + r.backoff
  }

  /** How long a restart that comes now has to wait. */
  function NextDelay(r: Runtime, now: nat): nat
  {
    if Forgives(r, now) then BaseBackoff(r.unit) else r.backoff
  }

  /**
   * An exit that was not asked for restarts the unit exactly when its policy covers that exit, after its backoff, and
   * doubles that up to the cap. Otherwise it ends Inactive when clean and Failed when not.
   */
  lemma ExitRestartsExactlyWhen(r: Runtime, exit: Exit, now: nat)
    requires !r.state.Deactivating?
    ensures var (after, delay) := r.OnExit(exit, now);
            var count := if Forgives(r, now) then 0 else r.restarts;
            && after.state == Outcome(r.unit, exit) && after.child == None && after.unit == r.unit
            && delay == (if Wants(r.unit, exit) then Some(NextDelay(r, now)) else None)
            && (if Wants(r.unit, exit)
                then after.restarts == Min(count + 1, MAX_RESTARTS)
                     && after.backoff == Min(2 * NextDelay(r, now), MAX_BACKOFF)
                else after.restarts == count && after.backoff == NextDelay(r, now))
  {
  }

  // ----- Which units have been reached -----

  /** Coming up, or, for a oneshot service, finishing cleanly without coming up. */
  predicate Reaches(r: Runtime, op: Op)
  {
    || op.BecomeReady? || op.ForkAway?
    || (op == Exited(Clean) && r.state.Activating? && r.unit.IsService() && r.unit.kind.service.ty.Oneshot?)
  }

  lemma ApplyReaches(r: Runtime, op: Op, now: nat)
    ensures var after := Apply(r, op, now).0;
            after.reached == (r.reached || Reaches(r, op)) && after.unit == r.unit
  {
  }

  ghost predicate ReachedIn(r: Runtime, ops: seq<Timed>)
  {
    exists i | 0 <= i < |ops| :: Reaches(Run(r, ops[..i]), ops[i].op)
  }

  lemma ReachedLater(r: Runtime, ops: seq<Timed>)
    requires ops != []
    ensures ReachedIn(r, ops) <==> Reaches(r, ops[0].op) || ReachedIn(Apply(r, ops[0].op, ops[0].now).0, ops[1..])
  {
    hide Apply, Reaches;
    var next := Apply(r, ops[0].op, ops[0].now).0;
    assert Run(r, ops[..0]) == r;
    forall i | 0 < i < |ops| ensures Run(r, ops[..i]) == Run(next, ops[1..][..i - 1]) && ops[1..][i - 1] == ops[i] {
      assert ops[..i][1..] == ops[1..][..i - 1];
    }
    if i :| 0 <= i < |ops[1..]| && Reaches(Run(next, ops[1..][..i]), ops[1..][i].op) {
      assert Reaches(Run(r, ops[..i + 1]), ops[i + 1].op);
    }
  }

  /** A unit counts as reached exactly from the first time it came up, or finished cleanly as a oneshot, for good. */
  lemma {:induction false} ReachedExactlyWhen(r: Runtime, ops: seq<Timed>)
    ensures Run(r, ops).reached <==> r.reached || ReachedIn(r, ops)
    decreases |ops|
  {
    hide Apply, Reaches, ReachedIn;
    if ops == [] {
      NothingReached(r);
    } else {
      ApplyReaches(r, ops[0].op, ops[0].now);
      ReachedLater(r, ops);
      ReachedExactlyWhen(Apply(r, ops[0].op, ops[0].now).0, ops[1..]);
    }
  }

  lemma NothingReached(r: Runtime)
    ensures !ReachedIn(r, [])
  {
  }

  // ----- Why a unit is stopping decides how it ends -----

  /** What can happen between asking a unit to stop and its cgroup emptying. */
  predicate WhileStopping(op: Op)
  {
    op.Exited? || op.Ping? || op.CancelRestart? || op.StopTimeout?
  }

  predicate AllWhileStopping(ops: seq<Timed>)
  {
    forall i | 0 <= i < |ops| :: WhileStopping(ops[i].op)
  }

  predicate TimesOut(ops: seq<Timed>)
  {
    exists i | 0 <= i < |ops| :: ops[i].op.StopTimeout?
  }

  /** None of those moves the unit, and only the timeout is remembered. */
  lemma {:induction false} StoppingIsInert(r: Runtime, ops: seq<Timed>)
    requires r.state.Deactivating? && AllWhileStopping(ops)
    ensures var after := Run(r, ops);
            && after.state.Deactivating? && after.stopCause == r.stopCause
            && after.unit == r.unit && after.restarts == r.restarts && after.backoff == r.backoff
            && after.activeSince == r.activeSince
            && (after.killed <==> r.killed || TimesOut(ops))
    decreases |ops|
  {
    if ops != [] {
      var next := Apply(r, ops[0].op, ops[0].now).0;
      StoppingIsInert(next, ops[1..]);
      assert TimesOut(ops) <==> ops[0].op.StopTimeout? || TimesOut(ops[1..]) by {
        if TimesOut(ops) && !ops[0].op.StopTimeout? {
          var i :| 0 <= i < |ops| && ops[i].op.StopTimeout?;
          assert ops[1..][i - 1].op.StopTimeout?;
        }
      }
    }
  }

  /** A requested stop never restarts, never touches the failure history, and fails exactly when it timed out. */
  lemma RequestedStopEnds(r: Runtime, ops: seq<Timed>, now: nat)
    requires AllWhileStopping(ops)
    ensures var stopping := Run(r.EnteredDeactivating(Requested), ops);
            var (ended, delay) := stopping.Deactivated(now);
            && delay.None?
            && ended.restarts == r.restarts && ended.backoff == r.backoff
            && ended.state == (if TimesOut(ops) then Failed else Inactive)
            && ended.child.None?
  {
    StoppingIsInert(r.EnteredDeactivating(Requested), ops);
  }

  /** A watchdog stop ends as an abnormal exit at the same moment would have ended the running unit. */
  lemma WatchdogStopEnds(r: Runtime, ops: seq<Timed>, now: nat)
    requires AllWhileStopping(ops) && !r.state.Deactivating?
    ensures var stopping := Run(r.EnteredDeactivating(Watchdog), ops);
            var (ended, delay) := stopping.Deactivated(now);
            var (crashed, crashDelay) := r.OnExit(Abnormal, now);
            && delay == crashDelay && ended.state == crashed.state
            && ended.restarts == crashed.restarts && ended.backoff == crashed.backoff
            && ended.child == crashed.child && ended.activeSince == crashed.activeSince
  {
    StoppingIsInert(r.EnteredDeactivating(Watchdog), ops);
  }

  /** So a watchdog stop is followed by a restart exactly when the policy covers a crash, and ends Failed otherwise. */
  lemma WatchdogStopRestartsExactlyWhen(r: Runtime, ops: seq<Timed>, now: nat)
    requires AllWhileStopping(ops) && !r.state.Deactivating?
    ensures var stopping := Run(r.EnteredDeactivating(Watchdog), ops);
            var (ended, delay) := stopping.Deactivated(now);
            && ended.state == Outcome(r.unit, Abnormal)
            && (delay.Some? <==> r.unit.IsService() && !r.unit.kind.service.restart.Never?)
  {
    hide Run, Runtime.OnExit, Runtime.Deactivated, Runtime.EnteredDeactivating;
    WatchdogStopEnds(r, ops, now);
    ExitRestartsExactlyWhen(r, Abnormal, now);
  }

  // ----- The same of the object -----

  /** One thing done to the object the program keeps. */
  method Perform(i: Instance, op: Op, now: nat) returns (delay: Option<nat>)
    modifies i
    ensures (i.Value(), delay) == Apply(old(i.Value()), op, now)
  {
    hide Runtime.Deactivated, Runtime.OnExit, Runtime.CancelRestart;
    delay := None;
    match op {
      case Launch(pid) => i.EnterActivating(pid);
      case FailStart => i.FailToStart();
      case BecomeReady => i.EnterActive(now);
      case ForkAway => i.ForkAway(now);
      case Ping => i.Ping(now);
      case AskToStop(cause) => i.EnterDeactivating(cause);
      case StopTimeout => i.TimeOutStop();
      case CancelRestart => i.CancelPendingRestart();
      case CgroupEmptied => delay := i.Deactivate(now);
      case Exited(exit) => delay := i.Exited(exit, now);
    }
  }

  /** `op` was an exit that nobody had asked for: how it has to be followed up. */
  predicate FollowsPolicy(unit: Unit, before: State, op: Op, after: State, delay: Option<nat>)
  {
    op.Exited? && !before.Deactivating? ==> after == Outcome(unit, op.exit) && (delay.Some? <==> Wants(unit, op.exit))
  }

  lemma StepFollowsPolicy(r: Runtime, op: Op, now: nat)
    ensures var (after, delay) := Apply(r, op, now);
            FollowsPolicy(r.unit, r.state, op, after.state, delay)
  {
    match op
    case Exited(exit) => if !r.state.Deactivating? { ExitRestartsExactlyWhen(r, exit, now); }
    case _ =>
  }

  /**
   * A whole life of the object, state by state: its backoff stays the closed form of its count, no delay it hands out
   * exceeds the cap, and every exit that was not asked for is followed by what its policy says of that exit.
   */
  method Live(unit: Unit, ops: seq<Timed>) returns (i: Instance, delays: seq<Option<nat>>, states: seq<State>)
    ensures i.Value() == Run(NewRuntime(unit), ops)
    ensures i.unit == unit && i.restarts <= MAX_RESTARTS && i.backoff == Expected(BaseBackoff(unit), i.restarts)
    ensures |delays| == |ops|
    ensures forall d | d in delays :: d.Some? ==> d.value <= MAX_BACKOFF || d.value == BaseBackoff(unit)
    ensures |states| == |ops| + 1 && states[0] == Inactive && states[|ops|] == i.state
    ensures forall n | 0 <= n < |ops| :: FollowsPolicy(unit, states[n], ops[n].op, states[n + 1], delays[n])
  {
    hide Apply, FollowsPolicy, Pow2;
    i := new Instance(unit);
    delays, states := [], [i.state];
    for n := 0 to |ops|
      invariant fresh(i) && Run(NewRuntime(unit), ops) == Run(i.Value(), ops[n..])
      invariant InClosedForm(i.Value()) && i.unit == unit
      invariant |delays| == n
      invariant forall d | d in delays :: d.Some? ==> d.value <= MAX_BACKOFF || d.value == BaseBackoff(unit)
      invariant |states| == n + 1 && states[0] == Inactive && states[n] == i.state
      invariant forall m | 0 <= m < n :: FollowsPolicy(unit, states[m], ops[m].op, states[m + 1], delays[m])
    {
      DelayIsBounded(i.Value(), ops[n].op, ops[n].now);
      StepFollowsPolicy(i.Value(), ops[n].op, ops[n].now);
      var delay := Perform(i, ops[n].op, ops[n].now);
      delays, states := delays + [delay], states + [i.state];
    }
  }

  lemma DelayIsBounded(r: Runtime, op: Op, now: nat)
    requires InClosedForm(r)
    ensures var (after, delay) := Apply(r, op, now);
            && InClosedForm(after) && after.unit == r.unit
            && (delay.Some? ==> delay.value <= MAX_BACKOFF || delay.value == BaseBackoff(r.unit))
  {
    ApplyKeepsClosedForm(r, op, now);
  }

  method PerformAll(i: Instance, ops: seq<Timed>)
    modifies i
    ensures i.Value() == Run(old(i.Value()), ops)
  {
    hide Apply;
    for n := 0 to |ops|
      invariant Run(old(i.Value()), ops) == Run(i.Value(), ops[n..])
    {
      var _ := Perform(i, ops[n].op, ops[n].now);
    }
  }

  /** A requested stop of the object, whatever happens to it until its cgroup empties. */
  method StopOnRequest(i: Instance, meanwhile: seq<Timed>, now: nat) returns (delay: Option<nat>)
    requires AllWhileStopping(meanwhile)
    modifies i
    ensures delay.None? && i.restarts == old(i.restarts) && i.backoff == old(i.backoff)
    ensures i.state == (if TimesOut(meanwhile) then Failed else Inactive) && i.child.None?
  {
    hide Run, Runtime.Deactivated, Runtime.EnteredDeactivating;
    RequestedStopEnds(i.Value(), meanwhile, now);
    i.EnterDeactivating(Requested);
    PerformAll(i, meanwhile);
    delay := i.Deactivate(now);
  }
}
