/** What a reload leaves behind: the directory's definitions for everything that is not running. */
module Reloads {
  import opened Names
  import opened Units
  import opened Services
  import opened Supervision
  import opened SupervisionSafety
  import opened Requirements
  import opened Tracking

  /**
   * A reload that is accepted is the directory for every unit that was not running: known afterwards if and only if the
   * directory has it, with exactly the directory's definition, fresh if that is new or changed and the instance it was
   * if it is the same. A unit that was running is what it was.
   */
  lemma ReloadAppliesTheDirectory(s: Sup, d: Directory, n: Name)
    requires Reload(s, d).1 == Accepted
    ensures var t := Reload(s, d).0.instances;
            && (n in t <==> n in d.units || Busy(s, n))
            && (Busy(s, n) ==> t[n] == s.instances[n])
            && (n in t && !Busy(s, n) ==>
                  && t[n].unit == d.units[n]
                  && t[n] == if n in s.instances && s.instances[n].unit == d.units[n] then s.instances[n]
                             else NewRuntime(d.units[n]))
  {
  }

  /** It is refused exactly when the directory could not be loaded, and then changes nothing. */
  lemma ReloadIsAllOrNothing(s: Sup, d: Directory)
    ensures Reload(s, d).1 == LoadErrors <==> d.broken
    ensures Reload(s, d).1 == Accepted <==> !d.broken
    ensures d.broken ==> Reload(s, d).0 == s
  {
  }

  /** A service that is new, or changed and not running, and whose cgroup the kernel would make. */
  predicate Makes(s: Sup, d: Directory, n: Name)
  {
    && n in d.units && d.units[n].IsService() && n in d.creatable
    && !Busy(s, n) && (n in s.instances ==> s.instances[n].unit != d.units[n])
  }

  lemma {:induction false} MadeAre(s: Sup, d: Directory, names: seq<Name>, n: Name)
    requires forall x | x in names :: x in d.units
    ensures n in NewCgroups(s.instances, d, names) <==> n in names && Makes(s, d, n)
    decreases |names|
  {
    if names != [] {
      MadeAre(s, d, names[1..], n);
      assert n in names <==> n == names[0] || n in names[1..];
    }
  }

  /** Each of those has a cgroup afterwards; every cgroup there was keeps its number, and no other unit gets one. */
  lemma ReloadMakesCgroups(s: Sup, d: Directory)
    requires Reload(s, d).1 == Accepted
    ensures var t := Reload(s, d).0;
            && s.cgroups <= t.cgroups
            && forall n :: n in t.cgroups[|s.cgroups|..] <==> Makes(s, d, n)
  {
    var names := Sorted(d.units.Keys);
    forall n ensures n in NewCgroups(s.instances, d, names) <==> Makes(s, d, n) {
      MadeAre(s, d, names, n);
    }
    var t := Reload(s, d).0;
    assert t.cgroups[|s.cgroups|..] == NewCgroups(s.instances, d, names);
  }

  /** Nothing else moves: what is queued, armed, waiting to restart, bound or going down stays so. */
  lemma ReloadLeavesTheRest(s: Sup, d: Directory)
    ensures var t := Reload(s, d).0;
            t == s.(instances := t.instances, cgroups := t.cgroups)
  {
  }

  /**
   * So an edited definition is the one the next start runs: a control start after the reload brings up what the
   * directory says now, when nothing excludes it and the kernel lets the start happen.
   */
  lemma EditTakesEffect(s: Sup, d: Directory, n: Name, v: Unit, k: Kernel)
    requires Reload(s, d).1 == Accepted && n in d.units && d.units[n] == v && !Busy(s, n) && s.shutdown.None?
    requires Unopposed(Reload(s, d).0, n) && LetsAll(k)
    requires v.IsService() && v.kind.service.limited ==> n in Reload(s, d).0.cgroups
    ensures var u := Handle(Reload(s, d).0, StartRequest(n), k).0;
            && Up(u, n) && u.instances[n].unit == v && (u.instances[n].state.Activating? <==> Waits(v))
  {
    hide Reload, Start, Activate, Unopposed;
    var t := Reload(s, d).0;
    ReloadAppliesTheDirectory(s, d, n);
    ReloadLeavesTheRest(s, d);
    IdleAsApplied(s, d, n);
    StartUnopposed(t, n, k);
    ActivateDecides(t, n, k);
    RequestStarts(t, n, k);
  }

  lemma IdleAsApplied(s: Sup, d: Directory, n: Name)
    requires Reload(s, d).1 == Accepted && n in d.units && !Busy(s, n)
    ensures n in Reload(s, d).0.instances && Reload(s, d).0.instances[n].Idle()
  {
  }
}
