/** The alarms end the waits: an alarm that is handled ends what it was armed for, whatever else is in its batch. */
module WaitsEnd {
  import opened Names
  import opened Wrappers
  import opened Units
  import opened Services
  import opened Alarms
  import opened Calendars
  import opened Supervision
  import opened SupervisionSafety
  import opened SupervisionTheorems
  import opened Boot

  // ----- What a batch can do to one service -----

  /**
   * What handling alarms does to one service: a stop under way goes on, a unit that is up is left alone or stopped, and
   * nothing is put in backoff.
   */
  ghost predicate Steadies(s: Sup, t: Sup, n: Name)
  {
    && n in s.instances && n in t.instances && t.instances[n].unit == s.instances[n].unit
    && t.shutdown == s.shutdown && s.asked <= t.asked
    && (s.instances[n].state.Deactivating? ==>
          t.instances[n].state.Deactivating? && (s.instances[n].killed ==> t.instances[n].killed))
    && (Up(s, n) ==> t.instances[n] == s.instances[n] || t.instances[n].state.Deactivating?)
    && (!s.instances[n].state.Restarting? ==> !t.instances[n].state.Restarting?)
  }

  predicate IsServiceOf(s: Sup, n: Name)
  {
    n in s.instances && s.instances[n].unit.IsService()
  }

  lemma SteadiesTransitive(s: Sup, t: Sup, u: Sup, n: Name)
    requires Steadies(s, t, n) && Steadies(t, u, n)
    ensures Steadies(s, u, n)
  {
  }

  lemma StopSteadies(s: Sup, x: Name, cause: StopCause, k: Kernel, n: Name)
    requires IsServiceOf(s, n)
    ensures Steadies(s, Stop(s, x, cause, k), n)
  {
    StopTouches(s, x, cause, k);
  }

  lemma {:induction false} StopConflictsSteadies(s: Sup, names: seq<Name>, k: Kernel, n: Name)
    requires IsServiceOf(s, n)
    ensures Steadies(s, StopConflicts(s, names, k), n)
    decreases |names|
  {
    hide Stop;
    if names != [] {
      var mid := if Busy(s, names[0]) then Stop(s, names[0], Requested, k) else s;
      StopSteadies(s, names[0], Requested, k, n);
      StopConflictsSteadies(mid, names[1..], k, n);
      SteadiesTransitive(s, mid, StopConflicts(s, names, k), n);
    }
  }

  lemma ActivateAsks(s: Sup, n: Name, k: Kernel)
    ensures s.asked <= Activate(s, n, k).asked
  {
  }

  /** A start of some other unit, or of this one when it is not up and not stopping. */
  lemma StartSteadies(s: Sup, x: Name, k: Kernel, n: Name)
    requires IsServiceOf(s, n) && (x == n ==> !Up(s, n) && !s.instances[n].state.Deactivating?)
    ensures Steadies(s, Start(s, x, k), n)
  {
    hide StopConflicts, Activate, ConflictingWith;
    if s.shutdown.None? {
      var mid := StopConflicts(s, ConflictingWith(s, x), k);
      StopConflictsSteadies(s, ConflictingWith(s, x), k, n);
      ActivateTouches(mid, x, k);
      ActivateAsks(mid, x, k);
    }
  }

  lemma ArmSteadies(s: Sup, x: Name, next: Option<Next>, now: nat, n: Name)
    requires IsServiceOf(s, n)
    ensures Steadies(s, Arm(s, x, next, now), n)
  {
  }

  lemma TimerSteadies(s: Sup, x: Name, k: Kernel, n: Name)
    requires IsServiceOf(s, n)
    ensures Steadies(s, OnTimerElapsed(s, x, k), n)
  {
    hide Start, Arm, Steadies;
    var a, drew := k(s.asked), Drew(s, k);
    DrewSteadies(s, k, n);
    if x in s.instances && s.instances[x].unit.IsTimer() && s.shutdown.None? {
      var timer := s.instances[x].unit.kind;
      var mid := Arm(drew, x, timer.schedule.Following(a.wall), a.now);
      ArmSteadies(drew, x, timer.schedule.Following(a.wall), a.now, n);
      SteadiesTransitive(s, drew, mid, n);
      if timer.starts in mid.instances && !Busy(mid, timer.starts) {
        StartSteadies(mid, timer.starts, k, n);
        SteadiesTransitive(s, mid, Start(mid, timer.starts, k), n);
      }
    }
  }

  lemma DrewSteadies(s: Sup, k: Kernel, n: Name)
    requires IsServiceOf(s, n)
    ensures Steadies(s, Drew(s, k), n)
  {
  }

  lemma CheckSteadies(s: Sup, x: Name, k: Kernel, n: Name)
    requires IsServiceOf(s, n)
    ensures Steadies(s, OnWatchdogCheck(s, x, k), n)
  {
    hide Stop;
    StopSteadies(Drew(s, k), x, Watchdog, k, n);
  }

  lemma FireSteadies(s: Sup, alarm: Alarm, k: Kernel, n: Name)
    requires IsServiceOf(s, n)
    ensures Steadies(s, Fire(s, alarm, k), n)
  {
    hide Start, Stop, OnTimerElapsed, OnWatchdogCheck;
    match alarm
    case RestartDue(x) => if x in s.instances && s.instances[x].state.Restarting? { StartSteadies(s, x, k, n); }
    case WatchdogCheck(x) => CheckSteadies(s, x, k, n);
    case StopTimeout(x) =>
    case TimerElapsed(x) => TimerSteadies(s, x, k, n);
    case StartTimeout(x) => StopSteadies(s, x, Watchdog, k, n);
  }

  // ----- What an alarm is armed for -----

  /**
   * The wait that an alarm bounds: an activation, a stop with its kill still unused, a backoff, or an active service
   * whose ping is overdue at every answer the clock has still to give.
   */
  ghost predicate Waiting(s: Sup, alarm: Alarm, k: Kernel)
  {
    var n := alarm.who;
    n in s.instances &&
    match alarm
    case StartTimeout(_) => s.instances[n].state.Activating?
    case StopTimeout(_) => s.instances[n].state.Deactivating? && !s.instances[n].killed
    case RestartDue(_) => s.instances[n].state.Restarting?
    case WatchdogCheck(_) => Silent(s, n, k)
    case TimerElapsed(_) => false
  }

  ghost predicate Silent(s: Sup, n: Name, k: Kernel)
    requires n in s.instances
  {
    && s.instances[n].state.Active? && s.instances[n].Watchdog().Some?
    && forall i | i >= s.asked :: s.instances[n].WatchdogExpired(s.instances[n].Watchdog().value, k(i).now)
  }

  /** What the alarm leaves: a stop under way, a kill used, or no backoff. */
  predicate Over(s: Sup, alarm: Alarm)
  {
    var n := alarm.who;
    n in s.instances &&
    match alarm
    case StartTimeout(_) => s.instances[n].state.Deactivating?
    case StopTimeout(_) => s.instances[n].state.Deactivating? && s.instances[n].killed
    case RestartDue(_) => !s.instances[n].state.Restarting?
    case WatchdogCheck(_) => s.instances[n].state.Deactivating?
    case TimerElapsed(_) => true
  }

  lemma OverIsNotWaiting(s: Sup, alarm: Alarm, k: Kernel)
    requires Over(s, alarm)
    ensures !Waiting(s, alarm, k)
  {
  }

  /** The alarm itself ends its wait. */
  lemma FireEnds(s: Sup, alarm: Alarm, k: Kernel)
    requires IsServiceOf(s, alarm.who) && (alarm.RestartDue? ==> s.shutdown.None?) && Waiting(s, alarm, k)
    ensures Over(Fire(s, alarm, k), alarm)
  {
    hide StopConflicts, Activate;
    if alarm.RestartDue? { RestartAlarmEndsBackoff(s, alarm.who, k); }
  }

  /** Nothing that leaves the unit alone or stops it takes it back from there. */
  lemma SteadiedStays(s: Sup, t: Sup, alarm: Alarm, k: Kernel)
    requires Steadies(s, t, alarm.who)
    ensures Over(s, alarm) ==> Over(t, alarm)
    ensures Waiting(s, alarm, k) ==> Waiting(t, alarm, k) || Over(t, alarm)
  {
  }

  lemma SteadiedService(s: Sup, t: Sup, n: Name)
    requires Steadies(s, t, n) && IsServiceOf(s, n)
    ensures IsServiceOf(t, n) && t.shutdown == s.shutdown
  {
  }

  /** Whatever else is in the batch, and wherever in it the alarm comes. */
  lemma {:induction false} BatchEnds(s: Sup, alarms: seq<Alarm>, alarm: Alarm, k: Kernel)
    requires IsServiceOf(s, alarm.who) && (alarm.RestartDue? ==> s.shutdown.None?)
    requires Over(s, alarm) || (alarm in alarms && Waiting(s, alarm, k))
    ensures Over(FireAll(s, alarms, k), alarm)
    decreases |alarms|
  {
    hide Fire, Steadies, Over, Waiting, IsServiceOf;
    if alarms != [] {
      var mid := Fire(s, alarms[0], k);
      FireSteadies(s, alarms[0], k, alarm.who);
      SteadiedService(s, mid, alarm.who);
      SteadiedStays(s, mid, alarm, k);
      if alarms[0] == alarm && !Over(s, alarm) { FireEnds(s, alarm, k); }
      BatchEnds(mid, alarms[1..], alarm, k);
    }
  }

  /** An event that hands out the alarm of a wait ends the wait. */
  lemma AlarmEndsWait(s: Sup, fired: seq<Entry>, left: multiset<Entry>, k: Kernel, e: Entry)
    requires Safe(s, [], []) && Waiting(s, e.alarm, k) && e in fired
    ensures Over(Step(s, TimerEvent(fired, left), k), e.alarm)
  {
    hide FireAll, Over;
    WaitingIsSafe(s, e.alarm, k);
    var i :| 0 <= i < |fired| && fired[i] == e;
    assert AlarmsOf(fired)[i] == e.alarm;
    BatchEnds(Drew(s, k).(heap := left), AlarmsOf(fired), e.alarm, k);
  }

  /** Only services wait, and nothing is in backoff once a shutdown has begun. */
  lemma WaitingIsSafe(s: Sup, alarm: Alarm, k: Kernel)
    requires Safe(s, [], []) && Waiting(s, alarm, k)
    ensures IsServiceOf(s, alarm.who) && (alarm.RestartDue? ==> s.shutdown.None?)
  {
    assert Watched(DueOf(s, [], []), alarm.who, s.instances[alarm.who]);
  }

  // ----- Over a run -----

  /** A deadline stays queued until an event hands it out. */
  lemma StaysQueued(s: Sup, event: Event, k: Kernel, e: Entry)
    requires Possible(s, event, k) && e in s.heap
    ensures e in Step(s, event, k).heap || (event.TimerEvent? && e in event.fired)
    ensures event.TimerEvent? && e.at <= k(s.asked).now ==> e in event.fired
  {
    hide Step;
    if event.TimerEvent? { ExpiryIsExact(s.heap, k(s.asked).now, event.fired, event.left, e); }
    if IsReload(event) { ReloadQueuesNothing(s, event, k); } else { StepTidy(s, event, k); }
  }

  lemma ReloadQueuesNothing(s: Sup, event: Event, k: Kernel)
    requires IsReload(event)
    ensures Step(s, event, k).heap == s.heap
  {
  }

  /** Event `j` is a timer event at which the clock has come to `at`. */
  predicate RingsPast(s: Sup, events: seq<Event>, k: Kernel, j: nat, at: nat)
  {
    j < |events| && events[j].TimerEvent? && at <= k(Run(s, events[..j], k).asked).now
  }

  /** The wait has ended at one of the first `last` event boundaries. */
  ghost predicate EndsBy(s: Sup, events: seq<Event>, k: Kernel, alarm: Alarm, last: nat)
  {
    exists i: nat :: i <= last && i <= |events| && !Waiting(Run(s, events[..i], k), alarm, k)
  }

  lemma RunHead(s: Sup, events: seq<Event>, k: Kernel, i: nat)
    requires 0 < i <= |events|
    ensures Run(s, events[..i], k) == Run(Step(s, events[0], k), events[1..][..i - 1], k)
  {
    hide Step;
    assert events[..i][1..] == events[1..][..i - 1];
  }

  lemma EndsLater(s: Sup, events: seq<Event>, k: Kernel, alarm: Alarm, last: nat)
    requires events != [] && EndsBy(Step(s, events[0], k), events[1..], k, alarm, last)
    ensures EndsBy(s, events, k, alarm, last + 1)
  {
    hide Step, Run, Waiting;
    var i: nat :| i <= last && i <= |events[1..]|
        && !Waiting(Run(Step(s, events[0], k), events[1..][..i], k), alarm, k);
    RunHead(s, events, k, i + 1);
    assert !Waiting(Run(s, events[..i + 1], k), alarm, k);
  }

  lemma EndsAtOnce(s: Sup, events: seq<Event>, k: Kernel, alarm: Alarm)
    requires events != [] && !Waiting(Step(s, events[0], k), alarm, k)
    ensures EndsBy(s, events, k, alarm, 1)
  {
    hide Step, Waiting;
    RunHead(s, events, k, 1);
    assert !Waiting(Run(s, events[..1], k), alarm, k);
  }

  lemma EndsNoLater(s: Sup, events: seq<Event>, k: Kernel, alarm: Alarm, last: nat, later: nat)
    requires EndsBy(s, events, k, alarm, last) && last <= later
    ensures EndsBy(s, events, k, alarm, later)
  {
  }

  lemma {:induction false} QueuedAlarmEnds(s: Sup, events: seq<Event>, k: Kernel, e: Entry, j: nat)
    requires Safe(s, [], []) && PossibleRun(s, events, k) && e in s.heap && Waiting(s, e.alarm, k)
    requires RingsPast(s, events, k, j, e.at)
    ensures EndsBy(s, events, k, e.alarm, j + 1)
    decreases j
  {
    hide Step, Possible, Safe, Waiting, EndsBy;
    var mid := Step(s, events[0], k);
    StepKeeps(s, events[0], k);
    StaysQueued(s, events[0], k, e);
    if events[0].TimerEvent? && e in events[0].fired {
      AlarmEndsWait(s, events[0].fired, events[0].left, k, e);
      OverIsNotWaiting(mid, e.alarm, k);
    }
    if !Waiting(mid, e.alarm, k) {
      EndsAtOnce(s, events, k, e.alarm);
      EndsNoLater(s, events, k, e.alarm, 1, j + 1);
    } else {
      RunHead(s, events, k, j);
      QueuedAlarmEnds(mid, events[1..], k, e, j - 1);
      EndsLater(s, events, k, e.alarm, j);
    }
  }

  /** The longest the unit's own definition lets this wait go on. */
  function BoundOf(u: Unit, alarm: Alarm): nat
  {
    if !u.IsService() then 0
    else
      match alarm
      case StartTimeout(_) => u.kind.service.startSec
      case StopTimeout(_) => u.kind.service.stopSec
      case RestartDue(_) => LongestBackoff(u)
      case WatchdogCheck(_) => if u.kind.service.watchdogSec.Some? then u.kind.service.watchdogSec.value else 0
      case TimerElapsed(_) => 0
  }

  /** A wait is owed its alarm within the unit's own bound. */
  lemma WaitingIsOwed(s: Sup, alarm: Alarm, k: Kernel)
    requires Safe(s, [], []) && Waiting(s, alarm, k)
    ensures alarm.who in s.instances
    ensures HoldsBy(s.heap, alarm, s.clock + BoundOf(s.instances[alarm.who].unit, alarm))
  {
    assert Watched(DueOf(s, [], []), alarm.who, s.instances[alarm.who]);
  }

  /**
   * No wait outlasts its bound. Take any moment of any run at which a unit waits: an activation, a stop with its kill
   * unused, a backoff, or a silence of an active service that must ping. By the first timer event at which the clock
   * has come to that moment plus the unit's own bound, the wait has ended.
   */
  lemma NoWaitOutlastsItsBound(s: Sup, before: seq<Event>, after: seq<Event>, k: Kernel, alarm: Alarm, j: nat)
    requires Initial(s) && PossibleRun(s, before + after, k) && Waiting(Run(s, before, k), alarm, k)
    requires var t := Run(s, before, k);
             RingsPast(t, after, k, j, t.clock + BoundOf(t.instances[alarm.who].unit, alarm))
    ensures EndsBy(Run(s, before, k), after, k, alarm, j + 1)
  {
    hide Step, Waiting, Run, PossibleRun;
    var t := Run(s, before, k);
    RunAppend(s, before, after, k);
    assert Safe(s, [], []);
    RunKeeps(s, before, k);
    WaitingIsOwed(t, alarm, k);
    var bound := t.clock + BoundOf(t.instances[alarm.who].unit, alarm);
    var at: nat :| at <= bound && Entry(at, alarm) in t.heap;
    QueuedAlarmEnds(t, after, k, Entry(at, alarm), j);
  }
}
