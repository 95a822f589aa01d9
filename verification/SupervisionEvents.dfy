/** The remaining events, and the supervisor's main theorems over every run. */
module SupervisionEvents {
  import opened Names
  import opened Services
  import opened Alarms
  import opened Supervision
  import opened SupervisionSafety
  import opened SupervisionRuns

  // ----- Alarms: the batch is popped first and handled afterwards -----

  /** An alarm that has been dealt with may leave the batch. */
  lemma DropAlarm(s: Sup, alarm: Alarm, rest: seq<Alarm>, wallBatch: seq<Alarm>)
    requires Safe(s, [alarm] + rest, wallBatch)
    requires alarm.who in s.instances ==> Watched(DueOf(s, rest, wallBatch), alarm.who, s.instances[alarm.who])
    ensures Safe(s, rest, wallBatch)
  {
    forall x | x in s.instances ensures Watched(DueOf(s, rest, wallBatch), x, s.instances[x]) {
      assert Watched(DueOf(s, [alarm] + rest, wallBatch), x, s.instances[x]);
      if x != alarm.who {
        assert forall a: Alarm | a.who == x && a in [alarm] + rest :: a in rest;
      }
    }
  }

  lemma DropWallAlarm(s: Sup, alarm: Alarm, batch: seq<Alarm>, rest: seq<Alarm>)
    requires Safe(s, batch, [alarm] + rest)
    requires alarm.who in s.instances ==> Watched(DueOf(s, batch, rest), alarm.who, s.instances[alarm.who])
    ensures Safe(s, batch, rest)
  {
    forall x | x in s.instances ensures Watched(DueOf(s, batch, rest), x, s.instances[x]) {
      assert Watched(DueOf(s, batch, [alarm] + rest), x, s.instances[x]);
      if x != alarm.who {
        assert forall a: Alarm | a.who == x && a in [alarm] + rest :: a in rest;
      }
    }
  }

  /** A batch only helps. */
  lemma BatchCovers(s: Sup, alarm: Alarm, rest: seq<Alarm>, wallBatch: seq<Alarm>, n: Name, r: Runtime)
    requires Watched(DueOf(s, [alarm] + rest, wallBatch), n, r)
    requires match alarm
             case RestartDue(w) => w == n ==> !r.state.Restarting?
             case WatchdogCheck(w) =>
               w == n && r.state.Active? && r.Watchdog().Some? ==>
                 HoldsBy(s.heap, alarm, s.clock + r.Watchdog().value)
             case StopTimeout(w) => w == n && r.state.Deactivating? ==> r.killed
             case StartTimeout(w) => w == n ==> !r.state.Activating?
             case TimerElapsed(w) =>
               w == n && r.state.Active? && r.unit.IsTimer() && r.unit.kind.schedule.Recurring() ==>
                 Holds(s.heap, alarm) || Holds(s.wallHeap, alarm)
    ensures Watched(DueOf(s, rest, wallBatch), n, r)
  {
    assert forall a: Alarm | a in [alarm] + rest :: a == alarm || a in rest;
  }

  lemma RestartKeeps(s: Sup, n: Name, k: Kernel, rest: seq<Alarm>)
    requires Safe(s, [RestartDue(n)] + rest, [])
    ensures Safe(Fire(s, RestartDue(n), k), rest, []) && Keeps(s, Fire(s, RestartDue(n), k))
  {
    var alarm, t := RestartDue(n), Fire(s, RestartDue(n), k);
    var batch := [alarm] + rest;
    SameKeeps(s, s, batch, []);
    if n in s.instances && s.instances[n].state.Restarting? {
      StartSafe(s, n, k, batch, []);
    }
    if n in t.instances {
      assert Watched(DueOf(t, batch, []), n, t.instances[n]);
      BatchCovers(t, alarm, rest, [], n, t.instances[n]);
    }
    DropAlarm(t, alarm, rest, []);
  }

  lemma StartTimeoutKeeps(s: Sup, n: Name, k: Kernel, rest: seq<Alarm>)
    requires Safe(s, [StartTimeout(n)] + rest, [])
    ensures Safe(OnStartTimeout(s, n, k), rest, []) && Keeps(s, OnStartTimeout(s, n, k))
  {
    var alarm, t := StartTimeout(n), OnStartTimeout(s, n, k);
    var batch := [alarm] + rest;
    SameKeeps(s, s, batch, []);
    if n in s.instances && s.instances[n].state.Activating? {
      StopKeeps(s, n, Watchdog, k, batch, []);
      StopTouches(s, n, Watchdog, k);
    }
    if n in t.instances {
      assert Watched(DueOf(t, batch, []), n, t.instances[n]);
      BatchCovers(t, alarm, rest, [], n, t.instances[n]);
    }
    DropAlarm(t, alarm, rest, []);
  }

  lemma StopTimeoutKeeps(s: Sup, n: Name, rest: seq<Alarm>)
    requires Safe(s, [StopTimeout(n)] + rest, [])
    ensures Safe(OnStopTimeout(s, n), rest, []) && Keeps(s, OnStopTimeout(s, n))
  {
    var alarm, t := StopTimeout(n), OnStopTimeout(s, n);
    var batch := [alarm] + rest;
    SameKeeps(s, s, batch, []);
    if n in s.instances {
      assert Watched(DueOf(s, batch, []), n, s.instances[n]);
      if s.instances[n].state.Deactivating? {
        PutTouches(s, t, n, s.instances[n].StopTimedOut());
        ChangeSafe(s, t, n, batch, []);
      }
      assert Watched(DueOf(t, batch, []), n, t.instances[n]);
      BatchCovers(t, alarm, rest, [], n, t.instances[n]);
    }
    DropAlarm(t, alarm, rest, []);
  }

  /** A check that does not stop the unit has armed the next one. */
  lemma CheckedSafe(s: Sup, n: Name, k: Kernel, batch: seq<Alarm>)
    requires Safe(s, batch, [])
    ensures var t := OnWatchdogCheck(s, n, k);
            && Safe(t, batch, []) && Keeps(s, t)
            && (n in t.instances && t.instances[n].state.Active? && t.instances[n].Watchdog().Some? ==>
                  HoldsBy(t.heap, Alarm.WatchdogCheck(n), t.clock + t.instances[n].Watchdog().value))
  {
    hide Stop, Safe, Keeps, Covers, HoldsBy, Holds, Push;
    var t := OnWatchdogCheck(s, n, k);
    var now, drew := k(s.asked).now, Drew(s, k);
    SameKeeps(s, drew, batch, []);
    if n in s.instances && s.instances[n].Watchdog().Some? && s.instances[n].state.Active? {
      if s.instances[n].WatchdogExpired(s.instances[n].Watchdog().value, now) {
        StopKeeps(drew, n, Watchdog, k, batch, []);
        StopTouches(drew, n, Watchdog, k);
        KeepsTransitive(s, drew, t);
      } else {
        EnqueueCovers(drew, t, s.instances[n].Watchdog().value, Alarm.WatchdogCheck(n), now, batch, []);
        MoreDeadlinesKeep(drew, t, batch, []);
        KeepsTransitive(s, drew, t);
      }
    }
  }

  lemma WatchdogCheckKeeps(s: Sup, n: Name, k: Kernel, rest: seq<Alarm>)
    requires Safe(s, [Alarm.WatchdogCheck(n)] + rest, [])
    ensures Safe(OnWatchdogCheck(s, n, k), rest, []) && Keeps(s, OnWatchdogCheck(s, n, k))
  {
    hide OnWatchdogCheck, Keeps, Exclusive, HoldsBy, Holds, Watched;
    var alarm, t := Alarm.WatchdogCheck(n), OnWatchdogCheck(s, n, k);
    var batch := [alarm] + rest;
    CheckedSafe(s, n, k, batch);
    if n in t.instances {
      assert Watched(DueOf(t, batch, []), n, t.instances[n]);
      BatchCovers(t, alarm, rest, [], n, t.instances[n]);
    }
    DropAlarm(t, alarm, rest, []);
  }

  /** Arming something more keeps everything. */
  lemma MoreDeadlinesKeep(s: Sup, t: Sup, batch: seq<Alarm>, wallBatch: seq<Alarm>)
    requires Safe(s, batch, wallBatch)
    requires t.instances == s.instances && t.shutdown == s.shutdown
    requires Covers(DueOf(t, batch, wallBatch), DueOf(s, batch, wallBatch)) && s.clock <= t.clock
    ensures Safe(t, batch, wallBatch) && Keeps(s, t)
  {
    var mid := t.(heap := s.heap, wallHeap := s.wallHeap);
    SameKeeps(s, mid, batch, wallBatch);
    forall x | x in t.instances ensures Watched(DueOf(t, batch, wallBatch), x, t.instances[x]) {
      assert Watched(DueOf(s, batch, wallBatch), x, s.instances[x]);
    }
    assert forall a, b :: Up(t, a) && Up(t, b) && Conflict(t, a, b) ==> Up(mid, a) && Up(mid, b) && Conflict(mid, a, b);
  }

  /** The timer has been re-armed, and the service it names not started yet. */
  function Rearmed(s: Sup, n: Name, a: Answer): Sup
    requires n in s.instances && s.instances[n].unit.IsTimer()
  {
    Arm(s, n, s.instances[n].unit.kind.schedule.Following(a.wall), a.now)
  }

  lemma RearmedKeeps(s: Sup, n: Name, a: Answer, batch: seq<Alarm>, wallBatch: seq<Alarm>)
    requires Safe(s, batch, wallBatch) && n in s.instances && s.instances[n].unit.IsTimer()
    ensures var t := Rearmed(s, n, a);
            && Safe(t, batch, wallBatch) && Keeps(s, t) && t.instances == s.instances
            && (s.instances[n].unit.kind.schedule.Recurring() ==>
                 Holds(t.heap, TimerElapsed(n)) || Holds(t.wallHeap, TimerElapsed(n)))
  {
    ArmCovers(s, n, s.instances[n].unit.kind.schedule.Following(a.wall), a.now, batch, wallBatch);
    MoreDeadlinesKeep(s, Rearmed(s, n, a), batch, wallBatch);
  }

  lemma TimerStartKeeps(s: Sup, starts: Name, k: Kernel, batch: seq<Alarm>, wallBatch: seq<Alarm>)
    requires Safe(s, batch, wallBatch)
    ensures var t := if starts !in s.instances || Busy(s, starts) then s else Start(s, starts, k);
            Safe(t, batch, wallBatch) && Keeps(s, t)
  {
    SameKeeps(s, s, batch, wallBatch);
    StartKeeps(s, starts, k, batch, wallBatch);
  }

  lemma TimerElapsedKeeps(s: Sup, n: Name, k: Kernel, rest: seq<Alarm>)
    requires Safe(s, [TimerElapsed(n)] + rest, [])
    ensures Safe(OnTimerElapsed(s, n, k), rest, []) && Keeps(s, OnTimerElapsed(s, n, k))
  {
    var alarm, batch := TimerElapsed(n), [TimerElapsed(n)] + rest;
    var a, drew := k(s.asked), Drew(s, k);
    SameKeeps(s, drew, batch, []);
    var fires := n in s.instances && s.instances[n].unit.IsTimer() && s.shutdown.None?;
    if fires { RearmedKeeps(drew, n, a, batch, []); }
    var mid := if fires then Rearmed(drew, n, a) else drew;
    if n in mid.instances {
      assert Watched(DueOf(mid, batch, []), n, mid.instances[n]);
      BatchCovers(mid, alarm, rest, [], n, mid.instances[n]);
    }
    DropAlarm(mid, alarm, rest, []);
    KeepsTransitive(s, drew, mid);
    if fires {
      TimerStartKeeps(mid, s.instances[n].unit.kind.starts, k, rest, []);
      KeepsTransitive(s, mid, OnTimerElapsed(s, n, k));
    }
  }

  lemma WallTimerKeeps(s: Sup, n: Name, k: Kernel, rest: seq<Alarm>)
    requires Safe(s, [], [TimerElapsed(n)] + rest)
    ensures Safe(OnTimerElapsed(s, n, k), [], rest) && Keeps(s, OnTimerElapsed(s, n, k))
  {
    var alarm, batch := TimerElapsed(n), [TimerElapsed(n)] + rest;
    var a, drew := k(s.asked), Drew(s, k);
    SameKeeps(s, drew, [], batch);
    var fires := n in s.instances && s.instances[n].unit.IsTimer() && s.shutdown.None?;
    if fires { RearmedKeeps(drew, n, a, [], batch); }
    var mid := if fires then Rearmed(drew, n, a) else drew;
    if n in mid.instances {
      assert Watched(DueOf(mid, [], batch), n, mid.instances[n]);
    }
    DropWallAlarm(mid, alarm, [], rest);
    KeepsTransitive(s, drew, mid);
    if fires {
      TimerStartKeeps(mid, s.instances[n].unit.kind.starts, k, [], rest);
      KeepsTransitive(s, mid, OnTimerElapsed(s, n, k));
    }
  }

  lemma FireKeeps(s: Sup, alarm: Alarm, k: Kernel, rest: seq<Alarm>)
    requires Safe(s, [alarm] + rest, [])
    ensures Safe(Fire(s, alarm, k), rest, []) && Keeps(s, Fire(s, alarm, k))
  {
    match alarm
    case RestartDue(n) => RestartKeeps(s, n, k, rest);
    case WatchdogCheck(n) => WatchdogCheckKeeps(s, n, k, rest);
    case StopTimeout(n) => StopTimeoutKeeps(s, n, rest);
    case TimerElapsed(n) => TimerElapsedKeeps(s, n, k, rest);
    case StartTimeout(n) => StartTimeoutKeeps(s, n, k, rest);
  }

  lemma {:induction false} FireAllKeeps(s: Sup, alarms: seq<Alarm>, k: Kernel)
    requires Safe(s, alarms, [])
    ensures Safe(FireAll(s, alarms, k), [], []) && Keeps(s, FireAll(s, alarms, k))
    decreases |alarms|
  {
    if alarms == [] {
      SameKeeps(s, s, [], []);
    } else {
      assert alarms == [alarms[0]] + alarms[1..];
      var mid := Fire(s, alarms[0], k);
      FireKeeps(s, alarms[0], k, alarms[1..]);
      FireAllKeeps(mid, alarms[1..], k);
      KeepsTransitive(s, mid, FireAll(s, alarms, k));
    }
  }

  lemma {:induction false} FireWallKeeps(s: Sup, alarms: seq<Alarm>, k: Kernel)
    requires Safe(s, [], alarms)
    ensures Safe(FireWall(s, alarms, k), [], []) && Keeps(s, FireWall(s, alarms, k))
    decreases |alarms|
  {
    if alarms == [] {
      SameKeeps(s, s, [], []);
    } else {
      var alarm, rest := alarms[0], alarms[1..];
      assert alarms == [alarm] + rest;
      var mid := if alarm.TimerElapsed? then OnTimerElapsed(s, alarm.who, k) else s;
      if alarm.TimerElapsed? {
        WallTimerKeeps(s, alarm.who, k, rest);
      } else {
        SameKeeps(s, s, [], alarms);
        if alarm.who in s.instances { assert Watched(DueOf(s, [], alarms), alarm.who, s.instances[alarm.who]); }
        DropWallAlarm(s, alarm, [], rest);
      }
      FireWallKeeps(mid, rest, k);
      KeepsTransitive(s, mid, FireWall(s, alarms, k));
    }
  }

  /** Popping what is due moves it from the queue to the batch. */
  lemma PoppedIsSafe(s: Sup, now: nat, fired: seq<Entry>, left: multiset<Entry>)
    requires Safe(s, [], []) && IsExpiry(s.heap, now, fired, left)
    ensures Safe(s.(heap := left), AlarmsOf(fired), [])
  {
    var t := s.(heap := left);
    forall x | x in t.instances ensures Watched(DueOf(t, AlarmsOf(fired), []), x, t.instances[x]) {
      assert Watched(DueOf(s, [], []), x, s.instances[x]);
      forall a, latest: nat | HoldsBy(s.heap, a, latest) ensures HoldsBy(left, a, latest) || a in AlarmsOf(fired) {
        ExpiryLosesNothing(s.heap, now, fired, left, a);
      }
      ExpiryLosesNothing(s.heap, now, fired, left, TimerElapsed(x));
    }
    assert forall a, b :: Up(t, a) && Up(t, b) && Conflict(t, a, b) ==> Up(s, a) && Up(s, b) && Conflict(s, a, b);
  }

  lemma WallPoppedIsSafe(s: Sup, now: nat, fired: seq<Entry>, left: multiset<Entry>)
    requires Safe(s, [], []) && IsExpiry(s.wallHeap, now, fired, left)
    ensures Safe(s.(wallHeap := left), [], AlarmsOf(fired))
  {
    var t := s.(wallHeap := left);
    forall x | x in t.instances ensures Watched(DueOf(t, [], AlarmsOf(fired)), x, t.instances[x]) {
      assert Watched(DueOf(s, [], []), x, s.instances[x]);
      ExpiryLosesNothing(s.wallHeap, now, fired, left, TimerElapsed(x));
    }
    assert forall a, b :: Up(t, a) && Up(t, b) && Conflict(t, a, b) ==> Up(s, a) && Up(s, b) && Conflict(s, a, b);
  }
}
