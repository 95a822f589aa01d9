/** What timers and connections start, and when a timer fires. */
module Activations {
  import opened Names
  import opened Wrappers
  import opened Services
  import opened Calendars
  import opened Alarms
  import opened Supervision
  import opened SupervisionSafety
  import opened Boot
  import opened BeforeGate
  import opened Requirements

  /** `n` is down, nothing excludes it, and it has the cgroup it needs: a start that the kernel allows brings it up. */
  ghost predicate Startable(s: Sup, n: Name)
  {
    && n in s.instances && s.instances[n].Idle() && Unopposed(s, n)
    && (s.instances[n].unit.IsService() && s.instances[n].unit.kind.service.limited ==> n in s.cgroups)
  }

  lemma StartBringsUp(s: Sup, n: Name, k: Kernel)
    requires s.shutdown.None? && Startable(s, n) && LetsAll(k)
    ensures var t := Start(s, n, k);
            && n in t.instances && Started(t.instances[n]) && Up(t, n)
            && forall x | x in s.instances && x != n :: x in t.instances && t.instances[x] == s.instances[x]
  {
    hide Start, Activate, Started, Unopposed;
    StartUnopposed(s, n, k);
    ActivateDecides(s, n, k);
    StartedIsUp(Start(s, n, k), n);
  }

  lemma StartedIsUp(t: Sup, n: Name)
    requires n in t.instances && Started(t.instances[n])
    ensures Up(t, n)
  {
  }

  // ----- Connections -----

  /** A connection starts the service behind the socket when it is down, and does nothing when it is not. */
  lemma ConnectionStarts(s: Sup, id: nat, k: Kernel, service: Name)
    requires id < |s.sockets| && s.sockets[id].service == service && s.shutdown.None? && LetsAll(k)
    ensures Startable(s, service) ==> Up(OnSocket(s, id, k), service)
    ensures Busy(s, service) || service !in s.instances ==> OnSocket(s, id, k) == s
  {
    hide Start, Unopposed;
    if Startable(s, service) { StartBringsUp(s, service, k); }
  }

  // ----- Timers -----

  /** A deadline for the firing of `n` on the clock it was chosen for: from `now`, or at a moment of the calendar. */
  predicate Armed(t: Sup, n: Name, next: Next, now: nat)
  {
    match next
    case After(delay) => Entry(now + delay, TimerElapsed(n)) in t.heap
    case AtMoment(at) => Entry(at, TimerElapsed(n)) in t.wallHeap
  }

  lemma ArmArms(s: Sup, n: Name, next: Next, now: nat)
    ensures var t := Arm(s, n, Some(next), now);
            && Armed(t, n, next, now) && n in t.nextElapse && t.nextElapse[n] == next
            && t.instances == s.instances && t.shutdown == s.shutdown && t.cgroups == s.cgroups
  {
  }

  /** Starting a timer unit makes it active and arms its first firing. */
  lemma TimerStartArms(s: Sup, n: Name, k: Kernel)
    requires s.shutdown.None? && Startable(s, n) && s.instances[n].unit.IsTimer() && s.instances[n].unit.Valid()
    ensures var t, a := Start(s, n, k), k(s.asked);
            var first := s.instances[n].unit.kind.schedule.First(a.wall);
            && Up(t, n) && first.Some? && Armed(t, n, first.value, a.now)
            && n in t.nextElapse && t.nextElapse[n] == first.value
  {
    hide Start, Arm, Unopposed, Schedule.First;
    StartUnopposed(s, n, k);
    var a := k(s.asked);
    var i := s.instances[n];
    ArmArms(Put(Drew(s, k), n, i.EnteredActive(a.now)), n, i.unit.kind.schedule.First(a.wall).value, a.now);
  }

  lemma {:induction false} StopConflictsKeepsMoments(s: Sup, names: seq<Name>, k: Kernel)
    ensures StopConflicts(s, names, k).wallHeap == s.wallHeap
    decreases |names|
  {
    if names != [] {
      var mid := if Busy(s, names[0]) then Stop(s, names[0], Requested, k) else s;
      StopKeepsMoments(s, names[0], k);
      hide Stop;
      StopConflictsKeepsMoments(mid, names[1..], k);
    }
  }

  lemma StopKeepsMoments(s: Sup, n: Name, k: Kernel)
    ensures Stop(s, n, Requested, k).wallHeap == s.wallHeap
  {
    hide Push;
  }

  lemma ActivateKeepsMoments(s: Sup, n: Name, k: Kernel)
    ensures s.wallHeap <= Activate(s, n, k).wallHeap
  {
  }

  /** No start takes a firing back. */
  lemma StartKeepsFirings(s: Sup, x: Name, k: Kernel, n: Name, next: Next, now: nat)
    requires Armed(s, n, next, now)
    ensures Armed(Start(s, x, k), n, next, now)
  {
    hide StopConflicts, Activate, ConflictingWith, InOrder;
    StartTidy(s, x, k);
    if s.shutdown.None? {
      StopConflictsKeepsMoments(s, ConflictingWith(s, x), k);
      ActivateKeepsMoments(StopConflicts(s, ConflictingWith(s, x), k), x, k);
    }
  }

  /**
   * A timer that fires arms its next firing, if it recurs, whatever comes of starting its service; and its service is
   * started when it is down and left exactly as it is when it is not.
   */
  lemma TimerFires(s: Sup, n: Name, k: Kernel)
    requires s.shutdown.None? && n in s.instances && s.instances[n].unit.IsTimer()
    ensures var t, a := Fire(s, TimerElapsed(n), k), k(s.asked);
            var timer := s.instances[n].unit.kind;
            var next := timer.schedule.Following(a.wall);
            && (next.Some? <==> timer.schedule.Recurring())
            && (next.Some? ==> Armed(t, n, next.value, a.now))
            && (Startable(s, timer.starts) && LetsAll(k) ==> Up(t, timer.starts))
            && (Busy(s, timer.starts) ==> t.instances == s.instances)
  {
    hide Start, Arm, Unopposed, Schedule.Following, Armed, LetsAll;
    var a := k(s.asked);
    var timer := s.instances[n].unit.kind;
    var next := timer.schedule.Following(a.wall);
    var mid := Arm(Drew(s, k), n, next, a.now);
    ArmLeavesUnits(Drew(s, k), n, next, a.now);
    if next.Some? {
      ArmArms(Drew(s, k), n, next.value, a.now);
      StartKeepsFirings(mid, timer.starts, k, n, next.value, a.now);
    }
    if Startable(s, timer.starts) && LetsAll(k) {
      UnopposedStays(s, mid, timer.starts);
      StartBringsUp(mid, timer.starts, k);
    }
  }

  lemma ArmLeavesUnits(s: Sup, n: Name, next: Option<Next>, now: nat)
    ensures var t := Arm(s, n, next, now);
            SameUnits(s, t) && t.instances == s.instances && t.shutdown == s.shutdown
  {
  }
}
