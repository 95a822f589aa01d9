/** Which processes the supervisor still knows: when starting a unit forgets the one it was running. */
module Tracking {
  import opened Names
  import opened Wrappers
  import opened Services
  import opened Supervision
  import opened SupervisionSafety

  /** `p` is the process of `n` and of no other unit. */
  ghost predicate RunsAs(s: Sup, n: Name, p: nat)
  {
    && n in s.instances && s.instances[n].unit.IsService() && s.instances[n].child == Some(p)
    && forall x | x in s.instances && x != n :: s.instances[x].child != Some(p)
  }

  /** Stopping a unit does not forget its process: the exit has still to be reaped. */
  lemma StopStillTracks(s: Sup, x: Name, cause: StopCause, k: Kernel, n: Name, p: nat)
    requires RunsAs(s, n, p) && !s.instances[n].state.Restarting?
    ensures RunsAs(Stop(s, x, cause, k), n, p) && !Stop(s, x, cause, k).instances[n].state.Restarting?
  {
    hide Stop;
    StopTouches(s, x, cause, k);
    if x in s.instances { StopKeepsChild(s, x, cause, k); }
  }

  lemma StopKeepsChild(s: Sup, n: Name, cause: StopCause, k: Kernel)
    requires n in s.instances
    ensures var t, i := Stop(s, n, cause, k), s.instances[n];
            && n in t.instances && !t.instances[n].state.Restarting?
            && (t.instances[n].child == i.child || t.instances[n].child == None)
            && (i.unit.IsService() && !i.state.Restarting? ==> t.instances[n].child == i.child)
  {
  }

  lemma {:induction false} StopConflictsStillTracks(s: Sup, names: seq<Name>, k: Kernel, n: Name, p: nat)
    requires RunsAs(s, n, p) && !s.instances[n].state.Restarting?
    ensures RunsAs(StopConflicts(s, names, k), n, p)
    decreases |names|
  {
    hide Stop, RunsAs;
    if names != [] {
      StopStillTracks(s, names[0], Requested, k, n, p);
      StopConflictsStillTracks(if Busy(s, names[0]) then Stop(s, names[0], Requested, k) else s, names[1..], k, n, p);
    }
  }

  /** The unit's place in the launch that a start comes to: what is left once its conflicts have been told to stop. */
  function Cleared(s: Sup, n: Name, k: Kernel): Sup
  {
    StopConflicts(s, ConflictingWith(s, n), k)
  }

  /** A launch gives the unit the new process, or none if it fails, whatever it had. */
  lemma ActivateTracks(s: Sup, n: Name, k: Kernel, p: nat)
    requires RunsAs(s, n, p)
    ensures var a, t := k(s.asked), Activate(s, n, k);
            && n in t.instances
            && t.instances[n].child == (if Prepared(s, n, s.instances[n].unit.kind.service, a) then a.spawned else None)
            && forall x | x in t.instances && x != n :: t.instances[x].child != Some(p)
  {
    ActivateTouches(s, n, k);
  }

  /**
   * Starting a service that is running a process of its own forgets that process, however the start goes, unless the
   * kernel gives the new process the number of the old one.
   */
  lemma StartForgetsExactlyWhen(s: Sup, n: Name, k: Kernel, p: nat)
    requires s.shutdown.None? && RunsAs(s, n, p) && !s.instances[n].state.Restarting?
    ensures var mid := Cleared(s, n, k);
            && n in mid.instances && mid.instances[n].unit.IsService()
            && (UnitForPid(Start(s, n, k), p) == Some(n) <==>
                  Prepared(mid, n, mid.instances[n].unit.kind.service, k(mid.asked)) && k(mid.asked).spawned == Some(p))
            && (UnitForPid(Start(s, n, k), p) != Some(n) ==> UnitForPid(Start(s, n, k), p) == None)
  {
    hide StopConflicts, Activate, ConflictingWith, Prepared;
    var mid := Cleared(s, n, k);
    StopConflictsStillTracks(s, ConflictingWith(s, n), k, n, p);
    ActivateTracks(mid, n, k, p);
  }

  /**
   * A control request to start a service that is up and running loses sight of its process: the process is not stopped,
   * and its exit, when it comes, belongs to no unit.
   */
  lemma StartRequestForgets(s: Sup, n: Name, k: Kernel, p: nat, exit: Exit)
    requires s.shutdown.None? && RunsAs(s, n, p) && Up(s, n)
    requires forall i: nat :: k(i).spawned != Some(p)
    ensures var t := Handle(s, StartRequest(n), k).0;
            UnitForPid(t, p) == None && Reap(t, p, exit, k) == Drew(t, k)
  {
    hide Start, UnitForPid, Handle, Reap, Prepared;
    StartForgetsExactlyWhen(s, n, k, p);
    RequestStarts(s, n, k);
    NobodysExit(Start(s, n, k), p, exit, k);
  }

  lemma RequestStarts(s: Sup, n: Name, k: Kernel)
    requires s.shutdown.None? && n in s.instances
    ensures Handle(s, StartRequest(n), k) == (Start(s, n, k), Accepted)
  {
    hide Start, Stop, Reload, RestartWhenStopped;
  }

  lemma NobodysExit(t: Sup, p: nat, exit: Exit, k: Kernel)
    requires UnitForPid(t, p).None?
    ensures Reap(t, p, exit, k) == Drew(t, k)
  {
  }
}
