/** Deadlines: one queue per clock, popped earliest first. */
module Alarms {
  import opened Names

  datatype Alarm =
    | RestartDue(who: Name)
    | WatchdogCheck(who: Name)
    | StopTimeout(who: Name)
    | TimerElapsed(who: Name)
    | StartTimeout(who: Name)

  /** Ordered by `at` alone: nanoseconds on the monotonic queue, seconds on the wall-clock one. */
  datatype Entry = Entry(at: nat, alarm: Alarm)

  /** Some deadline for `a` is outstanding. */
  ghost predicate Holds(queue: multiset<Entry>, a: Alarm)
  {
    exists at: nat :: Entry(at, a) in queue
  }

  /** Some deadline for `a` is outstanding, and it comes no later than `latest`. */
  ghost predicate HoldsBy(queue: multiset<Entry>, a: Alarm, latest: nat)
  {
    exists at: nat :: at <= latest && Entry(at, a) in queue
  }

  function Push(queue: multiset<Entry>, e: Entry): (r: multiset<Entry>)
    ensures Holds(r, e.alarm)
    ensures forall a | Holds(queue, a) :: Holds(r, a)
    ensures forall latest: nat | e.at <= latest :: HoldsBy(r, e.alarm, latest)
    ensures forall a, latest: nat | HoldsBy(queue, a, latest) :: HoldsBy(r, a, latest)
  {
    PushKeeps(queue, e);
    assert forall a | Holds(queue, a) :: Holds(queue + multiset{e}, a) by {
      forall a | Holds(queue, a) ensures Holds(queue + multiset{e}, a) {
        var at: nat :| Entry(at, a) in queue;
        assert Entry(at, a) in queue + multiset{e};
      }
    }
    assert Entry(e.at, e.alarm) in queue + multiset{e};
    queue + multiset{e}
  }

  predicate InTimeOrder(fired: seq<Entry>)
  {
    forall i, j | 0 <= i < j < |fired| :: fired[i].at <= fired[j].at
  }

  /** `fired` is what a queue gives up at `now`: everything due and nothing else, earliest first, ties in any order. */
  ghost predicate IsExpiry(queue: multiset<Entry>, now: nat, fired: seq<Entry>, left: multiset<Entry>)
  {
    && queue == multiset(fired) + left
    && InTimeOrder(fired)
    && (forall e | e in fired :: e.at <= now)
    && (forall e | e in left :: e.at > now)
  }

  /** What an expiry leaves behind is determined by what was due. */
  lemma ExpiryIsExact(queue: multiset<Entry>, now: nat, fired: seq<Entry>, left: multiset<Entry>, e: Entry)
    requires IsExpiry(queue, now, fired, left)
    ensures e.at <= now ==> multiset(fired)[e] == queue[e] && left[e] == 0
    ensures e.at > now ==> left[e] == queue[e] && multiset(fired)[e] == 0
  {
    assert e in multiset(fired) <==> e in fired;
  }

  function AlarmsOf(fired: seq<Entry>): (alarms: seq<Alarm>)
    ensures |alarms| == |fired|
    ensures forall i | 0 <= i < |fired| :: alarms[i] == fired[i].alarm
  {
    seq(|fired|, i requires 0 <= i < |fired| => fired[i].alarm)
  }

  lemma PushKeeps(queue: multiset<Entry>, e: Entry)
    ensures forall latest: nat | e.at <= latest :: HoldsBy(queue + multiset{e}, e.alarm, latest)
    ensures forall a, latest: nat | HoldsBy(queue, a, latest) :: HoldsBy(queue + multiset{e}, a, latest)
  {
    var r := queue + multiset{e};
    assert Entry(e.at, e.alarm) in r;
    forall a, latest: nat | HoldsBy(queue, a, latest) ensures HoldsBy(r, a, latest) {
      var at: nat :| at <= latest && Entry(at, a) in queue;
      assert Entry(at, a) in r;
    }
  }

  /** No deadline is lost or put off: it is either still queued or in the batch that was handed out. */
  lemma ExpiryLosesNothing(queue: multiset<Entry>, now: nat, fired: seq<Entry>, left: multiset<Entry>, a: Alarm)
    requires IsExpiry(queue, now, fired, left)
    ensures forall latest: nat | HoldsBy(queue, a, latest) :: HoldsBy(left, a, latest) || a in AlarmsOf(fired)
    ensures Holds(queue, a) ==> Holds(left, a) || a in AlarmsOf(fired)
  {
    forall at: nat | Entry(at, a) in queue && Entry(at, a) !in left ensures a in AlarmsOf(fired) {
      assert Entry(at, a) in multiset(fired);
      var i :| 0 <= i < |fired| && fired[i] == Entry(at, a);
      assert AlarmsOf(fired)[i] == a;
    }
  }

  predicate IsEarliest(e: Entry, queue: multiset<Entry>)
  {
    e in queue && forall f | f in queue :: e.at <= f.at
  }

  lemma {:induction false} EarliestExists(queue: multiset<Entry>)
    requires queue != multiset{}
    ensures exists e :: IsEarliest(e, queue)
    decreases |queue|
  {
    var x :| x in queue;
    var rest := queue - multiset{x};
    assert queue == rest + multiset{x};
    if rest == multiset{} {
      OneMore(x, x, rest, queue);
    } else {
      EarliestExists(rest);
      var y :| IsEarliest(y, rest);
      OneMore(x, y, rest, queue);
    }
  }

  lemma OneMore(x: Entry, y: Entry, rest: multiset<Entry>, queue: multiset<Entry>)
    requires queue == rest + multiset{x} && (rest == multiset{} || IsEarliest(y, rest))
    ensures exists e :: IsEarliest(e, queue)
  {
    var e := if rest == multiset{} || x.at <= y.at then x else y;
    assert forall f | f in queue :: f == x || f in rest;
    assert IsEarliest(e, queue);
  }

  class Timers {
    var heap: multiset<Entry>
    var wallHeap: multiset<Entry>

    constructor ()
      ensures heap == multiset{} && wallHeap == multiset{}
    {
      heap, wallHeap := multiset{}, multiset{};
    }

    method Schedule(delay: nat, alarm: Alarm, now: nat)
      modifies this`heap
      ensures heap == Push(old(heap), Entry(now + delay, alarm))
    {
      heap := Push(heap, Entry(now + delay, alarm));
    }

    method ScheduleAt(at: nat, alarm: Alarm)
      modifies this`wallHeap
      ensures wallHeap == Push(old(wallHeap), Entry(at, alarm))
    {
      wallHeap := Push(wallHeap, Entry(at, alarm));
    }

    method Expired(now: nat) returns (fired: seq<Entry>)
      modifies this`heap
      ensures IsExpiry(old(heap), now, fired, heap)
    {
      fired, heap := PopDue(heap, now);
    }

    /** A clock step makes the read fail once: nothing is popped and the deadlines stay the moments they were. */
    method WallExpired(now: nat, stepped: bool) returns (fired: seq<Entry>)
      modifies this`wallHeap
      ensures stepped ==> fired == [] && wallHeap == old(wallHeap)
      ensures !stepped ==> IsExpiry(old(wallHeap), now, fired, wallHeap)
    {
      if stepped {
        return [];
      }
      fired, wallHeap := PopDue(wallHeap, now);
    }
  }

  /** Halfway through an expiry: what has come out is due, in order, and no later than anything that is left. */
  ghost predicate Draining(queue: multiset<Entry>, now: nat, fired: seq<Entry>, left: multiset<Entry>)
  {
    && queue == multiset(fired) + left
    && InTimeOrder(fired)
    && (forall e | e in fired :: e.at <= now)
    && (forall e, f | e in fired && f in left :: e.at <= f.at)
  }

  lemma EarliestComesOut(queue: multiset<Entry>, now: nat, fired: seq<Entry>, left: multiset<Entry>, e: Entry)
    requires Draining(queue, now, fired, left) && IsEarliest(e, left) && e.at <= now
    ensures Draining(queue, now, fired + [e], left - multiset{e})
  {
    var more, rest := fired + [e], left - multiset{e};
    assert forall f | f in more :: f in fired || f == e;
    assert forall f | f in rest :: f in left;
  }

  method PopDue(queue: multiset<Entry>, now: nat) returns (fired: seq<Entry>, left: multiset<Entry>)
    ensures IsExpiry(queue, now, fired, left)
  {
    fired, left := [], queue;
    while left != multiset{}
      invariant Draining(queue, now, fired, left)
      decreases |left|
    {
      EarliestExists(left);
      var e :| e in left && IsEarliest(e, left);
      if e.at > now {
        break;
      }
      EarliestComesOut(queue, now, fired, left, e);
      left := left - multiset{e};
      fired := fired + [e];
    }
  }
}
