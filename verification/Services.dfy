/** The service state machine and restart policy. */
module Services {
  import opened Wrappers
  import opened Units

  /** 300 s, in nanoseconds. */
  const MAX_BACKOFF: nat := 300_000_000_000

  /** 100 ms: the base delay of a unit that is not a service. */
  const DEFAULT_BACKOFF: nat := 100_000_000

  const MAX_RESTARTS: nat := 0xFFFF_FFFF

  datatype State = Inactive | Activating | Active | Deactivating | Failed | Restarting

  datatype Exit = Clean | Code(status: int) | Abnormal

  datatype StopCause = Requested | Watchdog

  function Min(a: nat, b: nat): (r: nat)
    ensures r <= a && r <= b && (r == a || r == b)
  {
    if a <= b then a else b
  }

  function ShouldRestart(policy: RestartPolicy, exit: Exit): bool
  {
    match policy
    case Never => false
    case Always => true
    case OnFailure => !exit.Clean?
    case OnAbnormal => exit.Abnormal?
  }

  /** `elapsed() > bound` on a monotonic clock that never reports a negative age. */
  predicate OlderThan(since: nat, bound: nat, now: nat)
  {
    now > since && now - since > bound
  }

  function BaseBackoff(u: Unit): nat
  {
    if u.IsService() then u.kind.service.restartSec else DEFAULT_BACKOFF
  }

  /** One unit's runtime state. `now` is the monotonic clock at the moment of a transition. */
  datatype Runtime = Runtime(
    unit: Unit,
    state: State,
    child: Option<nat>,
    restarts: nat,
    backoff: nat,
    activeSince: Option<nat>,
    status: Option<string>,
    lastPing: Option<nat>,
    stopCause: Option<StopCause>,
    killed: bool,
    reached: bool
  )
  {
    predicate Idle()
    {
      state.Inactive? || state.Failed?
    }

    function Watchdog(): Option<nat>
    {
      if unit.IsService() then unit.kind.service.watchdogSec else None
    }

    function Policy(): RestartPolicy
    {
      if unit.IsService() then unit.kind.service.restart else Never
    }

    function EnteredActivating(pid: nat): Runtime
    {
      this.(child := Some(pid), state := Activating)
    }

    function FailedToStart(): Runtime
    {
      this.(child := None, activeSince := None, state := Failed)
    }

    function EnteredActive(now: nat): Runtime
    {
      this.(reached := true, state := Active, activeSince := Some(now), lastPing := Some(now))
    }

    function ForkedAway(now: nat): Runtime
    {
      this.(child := None).EnteredActive(now)
    }

    function Pinged(now: nat): Runtime
    {
      this.(lastPing := Some(now))
    }

    predicate WatchdogExpired(interval: nat, now: nat)
    {
      state.Active? && lastPing.Some? && OlderThan(lastPing.value, interval, now)
    }

    function EnteredDeactivating(cause: StopCause): Runtime
    {
      this.(stopCause := Some(cause), killed := false, state := Deactivating)
    }

    function StopTimedOut(): Runtime
    {
      this.(killed := true)
    }

    function CancelRestart(): Runtime
    {
      if state.Restarting? then this.(child := None, activeSince := None, state := Inactive) else this
    }

    /** Forget the failure history of a unit that stayed up longer than its own backoff. */
    function Forgiven(now: nat): Runtime
    {
      var r := if activeSince.Some? && OlderThan(activeSince.value, backoff, now)
               then this.(restarts := 0, backoff := BaseBackoff(unit)) else this;
      r.(activeSince := None)
    }

    function ScheduleRestart(exit: Exit, now: nat): (Runtime, Option<nat>)
    {
      var r := Forgiven(now);
      if !ShouldRestart(Policy(), exit) then
        (r.(state := if exit.Clean? then Inactive else Failed), None)
      else
        (r.(restarts := Min(r.restarts + 1, MAX_RESTARTS),
            backoff := Min(r.backoff * 2, MAX_BACKOFF),
            state := Restarting),
         Some(r.backoff))
    }

    function Deactivated(now: nat): (Runtime, Option<nat>)
    {
      var r := this.(child := None, killed := false, stopCause := None);
      if stopCause == Some(StopCause.Watchdog) then r.ScheduleRestart(Abnormal, now)
      else (r.(activeSince := None, status := None, state := if killed then Failed else Inactive), None)
    }

    function OnExit(exit: Exit, now: nat): (Runtime, Option<nat>)
    {
      var r := this.(child := None);
      if state.Deactivating? then (r, None)
      else
        var done := unit.IsService() && unit.kind.service.ty.Oneshot? && state.Activating? && exit.Clean?;
        (if done then r.(reached := true) else r).ScheduleRestart(exit, now)
    }
  }

  function NewRuntime(u: Unit): Runtime
  {
    Runtime(u, Inactive, None, 0, BaseBackoff(u), None, None, None, None, false, false)
  }

  /** The same state machine as the object the program keeps, field by field. */
  class Instance {
    const unit: Unit
    var state: State
    var child: Option<nat>
    var restarts: nat
    var backoff: nat
    var activeSince: Option<nat>
    var status: Option<string>
    var lastPing: Option<nat>
    var stopCause: Option<StopCause>
    var killed: bool
    var reached: bool

    function Value(): Runtime
      reads this
    {
      Runtime(unit, state, child, restarts, backoff, activeSince, status, lastPing, stopCause, killed, reached)
    }

    constructor (unit: Unit)
      ensures Value() == NewRuntime(unit)
    {
      this.unit := unit;
      state, child, restarts, backoff := Inactive, None, 0, BaseBackoff(unit);
      activeSince, status, lastPing := None, None, None;
      stopCause, killed, reached := None, false, false;
    }

    method EnterActivating(pid: nat)
      modifies this
      ensures Value() == old(Value()).EnteredActivating(pid)
    {
      child := Some(pid);
      state := Activating;
    }

    method FailToStart()
      modifies this
      ensures Value() == old(Value()).FailedToStart()
    {
      child := None;
      activeSince := None;
      state := Failed;
    }

    method EnterActive(now: nat)
      modifies this
      ensures Value() == old(Value()).EnteredActive(now)
    {
      reached := true;
      state := Active;
      activeSince := Some(now);
      lastPing := Some(now);
    }

    method ForkAway(now: nat)
      modifies this
      ensures Value() == old(Value()).ForkedAway(now)
    {
      child := None;
      EnterActive(now);
    }

    method Ping(now: nat)
      modifies this
      ensures Value() == old(Value()).Pinged(now)
    {
      lastPing := Some(now);
    }

    method EnterDeactivating(cause: StopCause)
      modifies this
      ensures Value() == old(Value()).EnteredDeactivating(cause)
    {
      stopCause := Some(cause);
      killed := false;
      state := Deactivating;
    }

    method TimeOutStop()
      modifies this
      ensures Value() == old(Value()).StopTimedOut()
    {
      killed := true;
    }

    method CancelPendingRestart()
      modifies this
      ensures Value() == old(Value()).CancelRestart()
    {
      if state == Restarting {
        child := None;
        activeSince := None;
        state := Inactive;
      }
    }

    method Deactivate(now: nat) returns (delay: Option<nat>)
      modifies this
      ensures (Value(), delay) == old(Value()).Deactivated(now)
    {
      child := None;
      var wasKilled := killed;
      killed := false;
      var cause := stopCause;
      stopCause := None;

      match cause {
        case Some(Watchdog) =>
          delay := ApplyPolicy(Abnormal, now);
        case _ =>
          activeSince := None;
          status := None;
          state := if wasKilled then Failed else Inactive;
          delay := None;
      }
    }

    method Exited(exit: Exit, now: nat) returns (delay: Option<nat>)
      modifies this
      ensures (Value(), delay) == old(Value()).OnExit(exit, now)
    {
      child := None;
      if state == Deactivating {
        return None;
      }
      var oneshot := unit.IsService() && unit.kind.service.ty == Oneshot;
      if oneshot && state == Activating && exit == Clean {
        reached := true;
      }
      delay := ApplyPolicy(exit, now);
    }

    method ApplyPolicy(exit: Exit, now: nat) returns (delay: Option<nat>)
      modifies this
      ensures (Value(), delay) == old(Value()).ScheduleRestart(exit, now)
    {
      match activeSince {
        case Some(since) =>
          if OlderThan(since, backoff, now) {
            restarts := 0;
            backoff := BaseBackoff(unit);
          }
        case None =>
      }
      activeSince := None;

      var policy := if unit.IsService() then unit.kind.service.restart else Never;
      if !ShouldRestart(policy, exit) {
        state := if exit == Clean then Inactive else Failed;
        return None;
      }

      delay := Some(backoff);
      restarts := Min(restarts + 1, MAX_RESTARTS);
      backoff := Min(backoff * 2, MAX_BACKOFF);
      state := Restarting;
    }
  }
}
