/** When a service counts as up: what a notify service says, and what a forking one leaves behind. */
module Readiness {
  import opened Names
  import opened Wrappers
  import opened Services
  import opened Alarms
  import opened Supervision
  import opened SupervisionSafety

  // ----- Who is heard -----

  /** `p` is the process of `n` and of no other unit. */
  ghost predicate Owns(s: Sup, n: Name, p: nat)
  {
    && n in s.instances && s.instances[n].child == Some(p)
    && forall x | x in s.instances && x != n :: s.instances[x].child != Some(p)
  }

  lemma OwnerIsFound(s: Sup, n: Name, p: nat)
    requires Owns(s, n, p)
    ensures UnitForPid(s, p) == Some(n)
  {
    hide FindPid;
  }

  /** What the unit says with message `i`, at the moment the clock then answers. */
  predicate SaysReady(messages: seq<Message>, i: nat, p: nat)
  {
    i < |messages| && messages[i].pid == p && messages[i].ready
  }

  ghost predicate Readied(messages: seq<Message>, p: nat)
  {
    exists i: nat :: SaysReady(messages, i, p)
  }

  lemma ReadiedLater(messages: seq<Message>, p: nat)
    requires messages != []
    ensures Readied(messages, p) <==> SaysReady(messages, 0, p) || Readied(messages[1..], p)
  {
    if i: nat :| SaysReady(messages, i, p) && i > 0 {
      assert SaysReady(messages[1..], i - 1, p);
    }
    if i: nat :| SaysReady(messages[1..], i, p) {
      assert SaysReady(messages, i + 1, p);
    }
  }

  /** One message and every unit: who is known by which pid never changes, and only a unit that was activating moves. */
  lemma ReceiveMoves(s: Sup, m: Message, k: Kernel, n: Name)
    requires n in s.instances
    ensures var t := Receive(s, m, k);
            && t.instances.Keys == s.instances.Keys
            && (forall x | x in s.instances :: t.instances[x].child == s.instances[x].child)
            && t.instances[n].unit == s.instances[n].unit && t.asked == s.asked + 1
            && (!s.instances[n].state.Activating? ==> t.instances[n].state == s.instances[n].state)
            && (s.instances[n].child != Some(m.pid) ==> t.instances[n] == s.instances[n])
  {
    hide Heard, Become, UnitForPid;
    var drew := Drew(s, k);
    match UnitForPid(drew, m.pid)
    case None =>
    case Some(x) => BecomeMoves(drew, x, Heard(drew.instances[x], m, k(s.asked).now), m.ready, k(s.asked).now, n);
  }

  lemma BecomeMoves(s: Sup, x: Name, i: Runtime, ready: bool, now: nat, n: Name)
    requires n in s.instances && x in s.instances && i.unit == s.instances[x].unit
    requires i.state == s.instances[x].state && i.child == s.instances[x].child
    ensures var t := Become(s, x, i, ready, now);
            && t.instances.Keys == s.instances.Keys
            && (forall y | y in s.instances :: t.instances[y].child == s.instances[y].child)
            && t.instances[n].unit == s.instances[n].unit && t.asked == s.asked
            && (!s.instances[n].state.Activating? ==> t.instances[n].state == s.instances[n].state)
            && (n != x ==> t.instances[n] == s.instances[n])
  {
    hide Push;
  }

  /** What a message does to the unit whose process sent it. */
  lemma ReceiveReaches(s: Sup, m: Message, k: Kernel, n: Name)
    requires Owns(s, n, m.pid)
    ensures var t, i, now := Receive(s, m, k), s.instances[n], k(s.asked).now;
            n in t.instances &&
            var r := t.instances[n];
            && r.state == (if i.state.Activating? && m.ready then Active else i.state)
            && r.lastPing == (if m.watchdog || (i.state.Activating? && m.ready) then Some(now) else i.lastPing)
            && r.status == (if m.status.Some? then m.status else i.status)
            && (i.state.Activating? && m.ready ==> r.reached && r.activeSince == Some(now))
            && (i.state.Activating? && m.ready && i.Watchdog().Some? ==>
                  Entry(now + i.Watchdog().value, Alarm.WatchdogCheck(n)) in t.heap)
  {
    hide Heard, Become, UnitForPid;
    var i, now := s.instances[n], k(s.asked).now;
    OwnerIsFound(Drew(s, k), n, m.pid);
    BecomeReaches(Drew(s, k), n, Heard(i, m, now), m.ready, now);
    BecomeArms(Drew(s, k), n, Heard(i, m, now), m.ready, now);
    HeardSays(i, m, now);
  }

  lemma HeardSays(i: Runtime, m: Message, now: nat)
    ensures var r := Heard(i, m, now);
            && r.lastPing == (if m.watchdog then Some(now) else i.lastPing)
            && r.status == (if m.status.Some? then m.status else i.status)
  {
  }

  lemma BecomeReaches(s: Sup, n: Name, i: Runtime, ready: bool, now: nat)
    requires n in s.instances
    ensures var t := Become(s, n, i, ready, now); var up := ready && i.state.Activating?;
            n in t.instances &&
            var r := t.instances[n];
            && r.state == (if up then Active else i.state) && r.status == i.status
            && r.lastPing == (if up then Some(now) else i.lastPing)
            && (up ==> r.reached && r.activeSince == Some(now))
  {
    hide Push;
  }

  lemma BecomeArms(s: Sup, n: Name, i: Runtime, ready: bool, now: nat)
    ensures ready && i.state.Activating? && i.Watchdog().Some? ==>
              Entry(now + i.Watchdog().value, Alarm.WatchdogCheck(n)) in Become(s, n, i, ready, now).heap
  {
  }

  lemma OwnsStays(s: Sup, m: Message, k: Kernel, n: Name, p: nat)
    requires Owns(s, n, p)
    ensures Owns(Receive(s, m, k), n, p)
  {
    hide Receive;
    ReceiveMoves(s, m, k, n);
  }

  /**
   * An activating service whose process is its own is Active after any messages exactly when one of them came from that
   * process and said READY=1. Otherwise it is activating still.
   */
  lemma {:induction false} ReadyExactlyWhenItSaysSo(s: Sup, messages: seq<Message>, k: Kernel, n: Name, p: nat)
    requires Owns(s, n, p) && s.instances[n].state.Activating?
    ensures var t := ReceiveAll(s, messages, k);
            n in t.instances && t.instances[n].state == if Readied(messages, p) then Active else Activating
    decreases |messages|
  {
    hide Receive, Owns, Readied;
    OwnsIsKnown(s, n, p);
    if messages == [] {
      NobodySpoke(p);
    } else {
      var m := messages[0];
      var mid := Receive(s, m, k);
      OwnsStays(s, m, k, n, p);
      OwnsIsKnown(mid, n, p);
      ReadiedLater(messages, p);
      ReceiveMoves(s, m, k, n);
      if m.pid == p {
        ReceiveReaches(s, m, k, n);
      }
      if mid.instances[n].state.Activating? {
        ReadyExactlyWhenItSaysSo(mid, messages[1..], k, n, p);
      } else {
        NoMessageMovesOthers(mid, messages[1..], k, n);
      }
    }
  }

  lemma NobodySpoke(p: nat)
    ensures !Readied([], p)
  {
  }

  lemma OwnsIsKnown(s: Sup, n: Name, p: nat)
    requires Owns(s, n, p)
    ensures n in s.instances && s.instances[n].child == Some(p)
  {
  }

  /** No message moves a unit in any other state, whoever sends it and whatever it says. */
  lemma {:induction false} NoMessageMovesOthers(s: Sup, messages: seq<Message>, k: Kernel, n: Name)
    requires n in s.instances && !s.instances[n].state.Activating?
    ensures var t := ReceiveAll(s, messages, k);
            n in t.instances && t.instances[n].state == s.instances[n].state
    decreases |messages|
  {
    hide Receive;
    if messages != [] {
      ReceiveMoves(s, messages[0], k, n);
      NoMessageMovesOthers(Receive(s, messages[0], k), messages[1..], k, n);
    }
  }

  /** Messages from other processes leave the unit exactly as it was. */
  lemma {:induction false} StrangersChangeNothing(s: Sup, messages: seq<Message>, k: Kernel, n: Name)
    requires n in s.instances && forall i | 0 <= i < |messages| :: s.instances[n].child != Some(messages[i].pid)
    ensures var t := ReceiveAll(s, messages, k);
            n in t.instances && t.instances[n] == s.instances[n]
    decreases |messages|
  {
    hide Receive;
    if messages != [] {
      ReceiveMoves(s, messages[0], k, n);
      StrangersChangeNothing(Receive(s, messages[0], k), messages[1..], k, n);
    }
  }

  // ----- Pings -----

  /** Message `i` is a sign of life that the unit's process sends: a ping, or its first READY=1. */
  predicate IsPing(messages: seq<Message>, i: nat, p: nat)
  {
    i < |messages| && messages[i].pid == p && messages[i].watchdog
  }

  /** Message `i` is the last ping of `p`, and no READY=1 of its comes after. */
  ghost predicate LastPing(messages: seq<Message>, i: nat, p: nat)
  {
    IsPing(messages, i, p) && forall j | i < j < |messages| && messages[j].pid == p :: !messages[j].watchdog
  }

  /**
   * Each message draws one answer from the clock. An active service's last ping is the answer drawn with the last of
   * its WATCHDOG=1 messages, and what it was if there are none.
   */
  lemma {:induction false} PingsCount(s: Sup, messages: seq<Message>, k: Kernel, n: Name, p: nat)
    requires Owns(s, n, p) && !s.instances[n].state.Activating?
    ensures var t := ReceiveAll(s, messages, k);
            && n in t.instances
            && (forall i: nat | LastPing(messages, i, p) :: t.instances[n].lastPing == Some(k(s.asked + i).now))
            && ((forall i: nat :: !IsPing(messages, i, p)) ==> t.instances[n].lastPing == s.instances[n].lastPing)
    decreases |messages|
  {
    hide Receive, Owns;
    OwnsIsKnown(s, n, p);
    if messages != [] {
      var m := messages[0];
      var mid := Receive(s, m, k);
      OwnsStays(s, m, k, n, p);
      OwnsIsKnown(mid, n, p);
      ReceiveMoves(s, m, k, n);
      if m.pid == p {
        ReceiveReaches(s, m, k, n);
      }
      var rest := messages[1..];
      PingsCount(mid, rest, k, n, p);
      forall i: nat | LastPing(messages, i, p)
        ensures ReceiveAll(s, messages, k).instances[n].lastPing == Some(k(s.asked + i).now)
      {
        if i == 0 {
          forall j: nat ensures !IsPing(rest, j, p) {
            assert j < |rest| ==> rest[j] == messages[j + 1];
          }
        } else {
          assert forall j | 0 <= j < |rest| :: rest[j] == messages[j + 1];
          assert LastPing(rest, i - 1, p);
        }
      }
      if forall i: nat :: !IsPing(messages, i, p) {
        assert !IsPing(messages, 0, p);
        forall j: nat ensures !IsPing(rest, j, p) {
          assert !IsPing(messages, j + 1, p);
        }
      }
    }
  }

  // ----- Silence -----

  /** A service that is up and told to stop keeps its process and its history, and the reason it was told. */
  lemma StopBegins(s: Sup, n: Name, cause: StopCause, k: Kernel)
    requires n in s.instances && s.instances[n].unit.IsService() && Up(s, n)
    ensures var t := Stop(s, n, cause, k);
            && n in t.instances && t.instances[n] == s.instances[n].EnteredDeactivating(cause)
            && t.pendingRestart == s.pendingRestart && t.shutdown == s.shutdown && t.cgroups == s.cgroups
            && t.asked == s.asked + 1 && Touches(s, t, n)
  {
    hide Push;
    StopTouches(s, n, cause, k);
  }

  /**
   * A watchdog check stops an active service exactly when more than one interval has passed since its last ping. One
   * that has pinged is left exactly as it was, with the next check armed one interval on.
   */
  lemma CheckStopsExactlyTheSilent(s: Sup, n: Name, k: Kernel, since: nat)
    requires n in s.instances && s.instances[n].state.Active? && s.instances[n].lastPing == Some(since)
    requires s.instances[n].unit.IsService() && s.instances[n].unit.kind.service.watchdogSec.Some?
    ensures var t, now := Fire(s, Alarm.WatchdogCheck(n), k), k(s.asked).now;
            var interval := s.instances[n].unit.kind.service.watchdogSec.value;
            n in t.instances &&
            if now > since + interval
            then t.instances[n].state.Deactivating? && t.instances[n].stopCause == Some(StopCause.Watchdog)
            else t.instances[n] == s.instances[n] && Entry(now + interval, Alarm.WatchdogCheck(n)) in t.heap
  {
    hide Stop;
    StopBegins(Drew(s, k), n, Watchdog, k);
  }

  // ----- Forking -----

  /**
   * A forking service whose first process is gone while it was activating is Active exactly when that process exited
   * cleanly and left something in the unit's own cgroup. Otherwise it is Failed, and no restart is scheduled.
   */
  lemma ForkingIsReadyExactlyWhen(s: Sup, n: Name, p: nat, exit: Exit, k: Kernel)
    requires Owns(s, n, p) && s.instances[n].state.Activating?
    requires s.instances[n].unit.IsService() && s.instances[n].unit.kind.service.ty.Forking?
    ensures var t := Reap(s, p, exit, k);
            && n in t.instances && t.instances[n].child == None && t.heap == s.heap
            && t.instances[n].state ==
               if exit == Clean && n in s.cgroups && k(s.asked).populated then Active else Failed
  {
    hide UnitForPid, ForkingParentExited, Settle, FinishDeactivation, Runtime.OnExit;
    OwnerIsFound(Drew(s, k), n, p);
    ForkedDecides(Drew(s, k), n, exit, k(s.asked));
  }

  lemma ForkedDecides(s: Sup, n: Name, exit: Exit, a: Answer)
    requires n in s.instances
    ensures var t := ForkingParentExited(s, n, exit, a);
            && n in t.instances && t.instances[n].child == None && t.heap == s.heap
            && t.instances[n].state == if exit == Clean && n in s.cgroups && a.populated then Active else Failed
  {
  }
}
