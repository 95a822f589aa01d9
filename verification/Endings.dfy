/** How a service's life ends and what comes after: exits, stops that were asked for, timeouts and control restarts. */
module Endings {
  import opened Names
  import opened Wrappers
  import opened Units
  import opened Services
  import opened ServicePolicy
  import opened Alarms
  import opened Supervision
  import opened SupervisionSafety
  import opened BeforeGate
  import opened Requirements
  import opened Readiness

  // ----- An exit nobody asked for -----

  /**
   * What the policy makes of the end of `i`: the unit waits out its backoff, with the alarm that ends it, or it is down
   * for good. On the way down a restart is called off.
   */
  predicate FollowsUp(s: Sup, t: Sup, n: Name, i: Runtime, exit: Exit, now: nat)
  {
    n in t.instances && t.instances[n].child == None &&
    if Wants(i.unit, exit) && s.shutdown.None? then
      && t.instances[n].state == Restarting
      && Entry(now + NextDelay(i, now), RestartDue(n)) in t.heap
    else
      && t.instances[n].state == (if Wants(i.unit, exit) then Inactive else Outcome(i.unit, exit))
      && t.heap == s.heap
  }

  lemma SettleFollowsUp(s: Sup, n: Name, exit: Exit, now: nat)
    requires n in s.instances && !s.instances[n].state.Deactivating?
    ensures var (after, delay) := s.instances[n].OnExit(exit, now);
            FollowsUp(s, Settle(s, n, after, delay, now), n, s.instances[n], exit, now)
  {
    hide Runtime.OnExit;
    ExitRestartsExactlyWhen(s.instances[n], exit, now);
  }

  /**
   * The exit of a service that was not asked to stop, and is not a forking one coming up: restarted exactly when its
   * policy covers that exit and the machine is not going down.
   */
  lemma ExitFollowsPolicy(s: Sup, n: Name, p: nat, exit: Exit, k: Kernel)
    requires Owns(s, n, p) && !s.instances[n].state.Deactivating?
    requires !(s.instances[n].unit.IsService() && s.instances[n].unit.kind.service.ty.Forking?
               && s.instances[n].state.Activating?)
    ensures FollowsUp(s, Reap(s, p, exit, k), n, s.instances[n], exit, k(s.asked).now)
  {
    hide UnitForPid, Settle, FinishDeactivation, Runtime.OnExit;
    OwnerIsFound(Drew(s, k), n, p);
    SettleFollowsUp(Drew(s, k), n, exit, k(s.asked).now);
  }

  /** A forking service whose cgroup has emptied has crashed, as far as its policy goes. */
  lemma VanishingIsACrash(s: Sup, id: nat, n: Name, k: Kernel)
    requires id < |s.cgroups| && s.cgroups[id] == n && n in s.instances
    requires s.instances[n].state.Active? && s.instances[n].child.None? && s.shutdown.None?
    ensures FollowsUp(s, OnCgroup(s, id, Some(false), k), n, s.instances[n], Abnormal, k(s.asked).now)
  {
    hide Settle, Runtime.OnExit;
    SettleFollowsUp(Drew(s, k), n, Abnormal, k(s.asked).now);
    VanishedIsSettled(Drew(s, k), n, k(s.asked).now);
  }

  lemma VanishedIsSettled(s: Sup, n: Name, now: nat)
    requires n in s.instances && s.shutdown.None?
    ensures var (after, delay) := s.instances[n].OnExit(Abnormal, now);
            UnitVanished(s, n, now) == Settle(s, n, after, delay, now)
  {
  }

  /**
   * A cgroup event matters only when the cgroup is known and has emptied, and then only to a unit that is stopping or
   * is up without a process of its own.
   */
  lemma OtherCgroupEventsChangeNothing(s: Sup, id: nat, populated: Option<bool>, k: Kernel)
    requires populated == Some(false) && id < |s.cgroups| && s.cgroups[id] in s.instances ==>
               var i := s.instances[s.cgroups[id]];
               !i.state.Deactivating? && !(i.state.Active? && i.child.None?)
    ensures OnCgroup(s, id, populated, k) == Drew(s, k)
  {
    hide FinishDeactivation, UnitVanished;
  }

  // ----- The end of a stop -----

  /** A stop that was asked for ends Inactive, or Failed once the kill was used, and nothing follows. */
  predicate EndsAsAsked(s: Sup, t: Sup, n: Name, i: Runtime)
  {
    && n in t.instances && t.instances[n].child == None && t.heap == s.heap
    && t.instances[n].state == if i.killed then Failed else Inactive
  }

  lemma StopEnds(s: Sup, n: Name, k: Kernel)
    requires n in s.instances && s.instances[n].state.Deactivating? && n !in s.pendingRestart
    ensures var t, i := FinishDeactivation(s, n, k), s.instances[n];
            && (i.stopCause == Some(Requested) ==> EndsAsAsked(s, t, n, i))
            && (i.stopCause == Some(StopCause.Watchdog) ==> FollowsUp(s, t, n, i, Abnormal, k(s.asked).now))
  {
    var i, now := s.instances[n], k(s.asked).now;
    if i.stopCause == Some(StopCause.Watchdog) {
      CauseDecides(i, now);
      hide Runtime.Deactivated;
      WatchdogEnds(Drew(s, k), n, now);
    }
  }

  lemma CauseDecides(i: Runtime, now: nat)
    requires i.stopCause == Some(StopCause.Watchdog)
    ensures var (after, delay) := i.Deactivated(now);
            && after.state == Outcome(i.unit, Abnormal) && after.child == None
            && delay == if Wants(i.unit, Abnormal) then Some(NextDelay(i, now)) else None
  {
  }

  lemma WatchdogEnds(s: Sup, n: Name, now: nat)
    requires n in s.instances && s.instances[n].stopCause == Some(StopCause.Watchdog)
    ensures var (after, delay) := s.instances[n].Deactivated(now);
            FollowsUp(s, Settle(s, n, after, delay, now), n, s.instances[n], Abnormal, now)
  {
    hide Runtime.Deactivated;
    CauseDecides(s.instances[n], now);
  }

  /** The main process of a stopping service is gone: the stop ends if nothing else is left in the unit's cgroup. */
  lemma ReapWhileStopping(s: Sup, n: Name, p: nat, exit: Exit, k: Kernel)
    requires Owns(s, n, p) && s.instances[n].state.Deactivating?
    ensures var gone := Put(Drew(s, k), n, s.instances[n].(child := None));
            Reap(s, p, exit, k) ==
            if n in s.cgroups && k(s.asked).populated then gone else FinishDeactivation(gone, n, k)
  {
    hide UnitForPid, FinishDeactivation;
    OwnerIsFound(Drew(s, k), n, p);
  }

  /** A stop that is over only when the cgroup empties ends the same way then. */
  lemma EmptyingEndsStop(s: Sup, id: nat, n: Name, k: Kernel)
    requires id < |s.cgroups| && s.cgroups[id] == n && n in s.instances && s.instances[n].state.Deactivating?
    requires n !in s.pendingRestart
    ensures var t, i := OnCgroup(s, id, Some(false), k), s.instances[n];
            && (i.stopCause == Some(Requested) ==> EndsAsAsked(s, t, n, i))
            && (i.stopCause == Some(StopCause.Watchdog) ==> FollowsUp(s, t, n, i, Abnormal, k(s.asked + 1).now))
  {
    hide FinishDeactivation;
    StopEnds(Drew(s, k), n, k);
  }

  /** Once the stop has timed out the unit ends Failed, stop asked for or not covered by any policy. */
  lemma KilledStopFails(s: Sup, n: Name, p: nat, exit: Exit, k: Kernel)
    requires Owns(s, n, p) && s.instances[n].state.Deactivating? && s.instances[n].stopCause == Some(Requested)
    requires n !in s.pendingRestart
    ensures var t := Fire(s, Alarm.StopTimeout(n), k);
            LeavesNothing(t, n, k) ==>
              n in Reap(t, p, exit, k).instances && Reap(t, p, exit, k).instances[n].state == Failed
  {
    hide FinishDeactivation, Reap;
    var t := Fire(s, Alarm.StopTimeout(n), k);
    assert Owns(t, n, p);
    if LeavesNothing(t, n, k) {
      ReapWhileStopping(t, n, p, exit, k);
      StopEnds(Put(Drew(t, k), n, t.instances[n].(child := None)), n, k);
    }
  }

  // ----- From the beginning of a stop to its end -----

  /** Nothing of the unit is left: its process has been reaped, and its cgroup holds no other. */
  predicate LeavesNothing(t: Sup, n: Name, k: Kernel)
  {
    n in t.cgroups ==> !k(t.asked).populated
  }

  /** What a stop begins with: the unit told to stop, its process and its history as they were. */
  ghost predicate Begun(s: Sup, t: Sup, n: Name, p: nat, cause: StopCause)
  {
    && n in s.instances && Owns(t, n, p) && t.instances[n] == s.instances[n].EnteredDeactivating(cause)
    && t.shutdown == s.shutdown && t.pendingRestart == s.pendingRestart && t.cgroups == s.cgroups
  }

  lemma StopIsBegun(s: Sup, n: Name, p: nat, cause: StopCause, k: Kernel)
    requires Owns(s, n, p) && s.instances[n].unit.IsService() && Up(s, n)
    ensures Begun(s, Stop(s, n, cause, k), n, p, cause)
  {
    StopBegins(s, n, cause, k);
    hide Stop;
  }

  /** However its process exits, a stop that has begun ends as its cause says. */
  lemma BegunEnds(s: Sup, t: Sup, n: Name, p: nat, cause: StopCause, exit: Exit, k: Kernel)
    requires Begun(s, t, n, p, cause) && n !in s.pendingRestart && LeavesNothing(t, n, k)
    ensures var u, i := Reap(t, p, exit, k), s.instances[n];
            && (cause == Requested ==>
                  && n in u.instances && u.instances[n].state == Inactive && u.instances[n].child == None
                  && u.heap == t.heap)
            && (cause == StopCause.Watchdog ==> FollowsUp(t, u, n, i, Abnormal, k(t.asked + 1).now))
  {
    hide FinishDeactivation, Reap, Owns;
    BegunIsStopping(s, t, n, p, cause);
    ReapWhileStopping(t, n, p, exit, k);
    var gone := Put(Drew(t, k), n, t.instances[n].(child := None));
    BackoffStays(s.instances[n], cause);
    StopEnds(gone, n, k);
  }

  lemma BegunIsStopping(s: Sup, t: Sup, n: Name, p: nat, cause: StopCause)
    requires Begun(s, t, n, p, cause)
    ensures n in t.instances && t.instances[n].state.Deactivating? && t.instances[n].stopCause == Some(cause)
  {
  }

  lemma BackoffStays(i: Runtime, cause: StopCause)
    ensures forall now: nat :: NextDelay(i.EnteredDeactivating(cause).(child := None), now) == NextDelay(i, now)
  {
  }

  /**
   * A service that did not come up within `start-sec` counts as crashed: its start timeout stops it, and when it is
   * gone, however it exits, its policy is applied as to an abnormal exit.
   */
  lemma StartTimeoutIsACrash(s: Sup, n: Name, p: nat, exit: Exit, k: Kernel)
    requires Owns(s, n, p) && s.instances[n].unit.IsService() && s.instances[n].state.Activating?
    requires n !in s.pendingRestart
    ensures var t := Fire(s, StartTimeout(n), k);
            LeavesNothing(t, n, k) ==>
              FollowsUp(t, Reap(t, p, exit, k), n, s.instances[n], Abnormal, k(t.asked + 1).now)
  {
    hide Stop, Reap, FollowsUp, Owns;
    var t := Fire(s, StartTimeout(n), k);
    OwnsIsKnown(s, n, p);
    StopIsBegun(s, n, p, StopCause.Watchdog, k);
    if LeavesNothing(t, n, k) { BegunEnds(s, t, n, p, StopCause.Watchdog, exit, k); }
  }

  /** A stop that was asked for is never followed by a restart, whatever the policy and however the service exits. */
  lemma StopRequestNeverRestarts(s: Sup, n: Name, p: nat, exit: Exit, k: Kernel)
    requires Owns(s, n, p) && s.instances[n].unit.IsService() && Up(s, n)
    requires n !in s.pendingRestart
    ensures var (t, response) := Handle(s, StopRequest(n), k);
            && response == Accepted
            && (LeavesNothing(t, n, k) ==>
                  var u := Reap(t, p, exit, k);
                  && n in u.instances && u.instances[n].state == Inactive && u.instances[n].child == None
                  && u.heap == t.heap)
  {
    hide Stop, Reap, Owns;
    var t := Handle(s, StopRequest(n), k).0;
    StopIsBegun(s, n, p, Requested, k);
    if LeavesNothing(t, n, k) { BegunEnds(s, t, n, p, Requested, exit, k); }
  }

  // ----- A control restart -----

  /**
   * A control restart of a running service stops it, remembers, and starts it again once it is gone: if nothing else
   * excludes the unit and the kernel lets the start happen it is then up, and otherwise Failed.
   */
  lemma RestartRequestStartsAgain(s: Sup, n: Name, p: nat, exit: Exit, k: Kernel)
    requires s.shutdown.None? && Owns(s, n, p) && s.instances[n].unit.IsService() && Up(s, n) && Unopposed(s, n)
    ensures var (t, response) := Handle(s, RestartRequest(n), k);
            && response == Accepted && n in t.instances && t.instances[n].state.Deactivating?
            && (LeavesNothing(t, n, k) ==>
                  var u := Reap(t, p, exit, k);
                  var a := k(t.asked + 2);
                  var service := s.instances[n].unit.kind.service;
                  && n in u.instances && n !in u.pendingRestart
                  && (if Provided(t, n, service, a) then Started(u.instances[n]) && Up(u, n)
                      else u.instances[n].state.Failed?))
  {
    hide Stop, Reap, FinishDeactivation, Started, Unopposed, Handle, Owns, Provided;
    OwnsIsKnown(s, n, p);
    StopIsBegun(s, n, p, Requested, k);
    var t := Handle(s, RestartRequest(n), k).0;
    RestartIsRemembered(s, n, p, k);
    if LeavesNothing(t, n, k) {
      ReapWhileStopping(t, n, p, exit, k);
      var gone := Put(Drew(t, k), n, t.instances[n].(child := None));
      UnopposedStays(t, gone, n);
      WaitingIsStarted(gone, n, k);
      SameProvision(t, gone, n, s.instances[n].unit.kind.service, k(t.asked + 2));
    }
  }

  lemma SameProvision(s: Sup, t: Sup, n: Name, service: Service, a: Answer)
    requires t.cgroups == s.cgroups
    ensures Provided(t, n, service, a) <==> Provided(s, n, service, a)
  {
  }

  lemma RestartIsRemembered(s: Sup, n: Name, p: nat, k: Kernel)
    requires s.shutdown.None? && n in s.instances && Unopposed(s, n)
    requires Begun(s, Stop(s, n, Requested, k), n, p, Requested)
    ensures var (t, response) := Handle(s, RestartRequest(n), k);
            && response == Accepted && t.shutdown.None? && n in t.pendingRestart && Unopposed(t, n) && Owns(t, n, p)
            && n in t.instances
            && t.instances[n] == s.instances[n].EnteredDeactivating(Requested)
  {
    hide Stop, Start, Unopposed;
    var mid := Stop(s, n, Requested, k);
    StopTouches(s, n, Requested, k);
    UnopposedStays(s, mid.(pendingRestart := s.pendingRestart + {n}), n);
  }

  lemma WaitingIsStarted(s: Sup, n: Name, k: Kernel)
    requires s.shutdown.None? && n in s.instances && s.instances[n].unit.IsService() && Unopposed(s, n)
    requires s.instances[n].state.Deactivating? && s.instances[n].stopCause == Some(Requested) && n in s.pendingRestart
    ensures var u, a := FinishDeactivation(s, n, k), k(s.asked + 1);
            && n in u.instances && n !in u.pendingRestart
            && (if Provided(s, n, s.instances[n].unit.kind.service, a)
                then Started(u.instances[n]) && Up(u, n)
                else u.instances[n].state.Failed?)
  {
    hide Activate, Start, Conflict, Provided;
    var now := k(s.asked).now;
    var (after, delay) := s.instances[n].Deactivated(now);
    var down := Settle(Drew(s, k), n, after, delay, now).(pendingRestart := s.pendingRestart - {n});
    assert down.instances[n].Idle() && down.asked == s.asked + 1;
    UnopposedStays(s, down, n);
    StartUnopposed(down, n, k);
    ActivateDecides(down, n, k);
    ActivateRemembers(down, n, k);
    AllowedAlike(s, down, n, k);
  }

  lemma AllowedAlike(s: Sup, t: Sup, n: Name, k: Kernel)
    requires n in t.instances && t.instances[n].unit.IsService() && t.cgroups == s.cgroups
    ensures Allowed(t, n, k) <==> Provided(s, n, t.instances[n].unit.kind.service, k(t.asked))
  {
  }

  lemma ActivateRemembers(s: Sup, n: Name, k: Kernel)
    ensures Activate(s, n, k).pendingRestart == s.pendingRestart
  {
  }

  // ----- What is refused -----

  /**
   * Every request that names a unit is refused exactly when there is no such unit, or when it asks for a start or a
   * restart on the way down; and what is refused, like what only asks, changes nothing.
   */
  lemma RefusedChangesNothing(s: Sup, request: Request, k: Kernel)
    requires !request.ListRequest? && !request.ReloadRequest?
    ensures var (t, response) := Handle(s, request, k);
            var starts := request.StartRequest? || request.RestartRequest?;
            && (response == UnknownUnit <==> request.name !in s.instances)
            && (response == Refused <==> request.name in s.instances && starts && s.shutdown.Some?)
            && (response == UnknownUnit || response == Refused || request.StatusRequest? ==> t == s)
  {
    hide Start, Stop, RestartWhenStopped, Reload;
  }
}
