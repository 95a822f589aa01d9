/** In which order a shutdown stops things: the boot order backwards, and then whatever boot did not start. */
module ShutdownOrder {
  import opened Names
  import opened Wrappers
  import opened Services
  import opened Alarms
  import opened Graph
  import opened Resolver
  import opened Supervision
  import opened SupervisionSafety
  import opened Boot

  lemma {:induction false} ReverseAt(q: seq<Name>, i: nat)
    requires i < |q|
    ensures |Reverse(q)| == |q| && Reverse(q)[|q| - 1 - i] == q[i]
  {
    if i > 0 {
      ReverseAt(q[1..], i - 1);
    } else if |q| > 1 {
      ReverseAt(q[1..], 0);
    }
  }

  lemma NothingReversed()
    ensures Reverse([]) == []
  {
  }

  /** First the resolved order from its last unit to its first; what comes after that is not in it. */
  lemma StopsBackwards(s: Sup)
    ensures var q := StopOrder(s);
            && |s.order| <= |q|
            && (forall i: nat | i < |s.order| :: q[|s.order| - 1 - i] == s.order[i])
            && forall j: nat | |s.order| <= j < |q| :: q[j] in s.instances && q[j] !in s.order
  {
    hide Reverse, Missing, Sorted;
    var back := Reverse(s.order);
    var rest := Missing(s.order, Sorted(s.instances.Keys));
    assert StopOrder(s) == back + rest;
    hide StopOrder;
    if s.order == [] {
      NothingReversed();
    } else {
      ReverseAt(s.order, 0);
    }
    forall i: nat | i < |s.order| ensures back[|s.order| - 1 - i] == s.order[i] {
      ReverseAt(s.order, i);
    }
    forall j: nat | |s.order| <= j < |back + rest| ensures (back + rest)[j] in rest {
      assert (back + rest)[j] == rest[j - |back|];
    }
  }

  /** So what a planned unit was started after is told to stop only after the unit itself. */
  lemma StopsBeforeWhatItIsAfter(units: UnitSet, order: seq<Name>, s: Sup, n: Name, dep: Name)
    requires IsPlan(units, DEFAULT_UNIT, order) && s.order == order
    requires n in order && dep in order && n in units && dep in units[n].deps.after
    ensures var i := |order| - 1 - IndexOf(order, n);
            var j := |order| - 1 - IndexOf(order, dep);
            0 <= i < j < |StopOrder(s)| && StopOrder(s)[i] == n && StopOrder(s)[j] == dep
  {
    hide StopOrder;
    StopsBackwards(s);
    EdgeClimbs(units, Closure(units, DEFAULT_UNIT), order, dep, n);
    assert order[IndexOf(order, n)] == n && order[IndexOf(order, dep)] == dep;
  }

  // ----- The order is the order of the requests -----

  lemma {:induction false} StopEachAsksInTurn(s: Sup, names: seq<Name>, k: Kernel, i: nat)
    requires i < |names| && names[i] !in names[..i] && names[i] in s.instances
    requires s.instances[names[i]].unit.IsService() && Up(s, names[i])
    ensures var deadline := k(s.asked + i).now + s.instances[names[i]].unit.kind.service.stopSec;
            Entry(deadline, Alarm.StopTimeout(names[i])) in StopEach(s, names, k).heap
    decreases |names|
  {
    hide Stop;
    var mid := Stop(s, names[0], Requested, k);
    StopAsksOnce(s, names[0], k);
    if i == 0 {
      StopIsTimed(s, names[0], k);
      StopEachArms(mid, names[1..], k);
    } else {
      assert names[i] != names[0] && names[1..][i - 1] == names[i];
      StopTouches(s, names[0], Requested, k);
      assert names[1..][..i - 1] == names[1..i];
      assert forall j | 0 <= j < i - 1 :: names[1..i][j] == names[..i][j + 1];
      StopEachAsksInTurn(mid, names[1..], k, i - 1);
    }
  }

  lemma StopAsksOnce(s: Sup, n: Name, k: Kernel)
    ensures Stop(s, n, Requested, k).asked == s.asked + 1
  {
  }

  lemma StopIsTimed(s: Sup, n: Name, k: Kernel)
    requires n in s.instances && s.instances[n].unit.IsService() && Up(s, n)
    ensures Entry(k(s.asked).now + s.instances[n].unit.kind.service.stopSec, Alarm.StopTimeout(n))
            in Stop(s, n, Requested, k).heap
  {
  }

  lemma StopEachArms(s: Sup, names: seq<Name>, k: Kernel)
    ensures s.heap <= StopEach(s, names, k).heap
  {
    hide StopEach;
    StopEachTidy(s, names, k);
  }

  /** Where in the stopping order a unit is. */
  function TurnToStop(s: Sup, n: Name): (i: nat)
    requires n in s.instances
    ensures i < |StopOrder(s)| && StopOrder(s)[i] == n && n !in StopOrder(s)[..i]
  {
    IndexOf(StopOrder(s), n)
  }

  /**
   * Every service that is up when a shutdown begins is given its own `stop-sec` from the moment its turn comes: the
   * unit at place `i` of the stopping order is asked with the clock's answer number `i` from the beginning.
   */
  lemma ShutdownAsksInOrder(s: Sup, action: Action, k: Kernel, n: Name)
    requires s.shutdown.None? && n in s.instances && s.instances[n].unit.IsService() && Up(s, n)
    ensures var deadline := k(s.asked + 1 + TurnToStop(s, n)).now + s.instances[n].unit.kind.service.stopSec;
            Entry(deadline, Alarm.StopTimeout(n)) in BeginShutdown(s, action, k).heap
  {
    hide StopEach, StopOrder, TurnToStop;
    var begun := Drew(s, k).(shutdown := Some(Shutdown(action, k(s.asked).now)));
    SameStopOrder(s, begun);
    StopEachAsksInTurn(begun, StopOrder(s), k, TurnToStop(s, n));
  }

  lemma SameStopOrder(s: Sup, t: Sup)
    requires t.order == s.order && t.instances == s.instances
    ensures StopOrder(t) == StopOrder(s)
  {
  }
}
