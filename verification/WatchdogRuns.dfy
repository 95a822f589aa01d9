/** The policy feeding real hardware: a timer that resets the machine unless it is written to in time. */
module WatchdogRuns {
  import opened Names
  import opened Numbers
  import opened Wrappers
  import opened Watchdogs

  /** A device that opens: the timeout the driver reports, and the one it counts, in nanoseconds. */
  datatype Device = Device(applied: Option<nat>, timeout: nat)
  {
    /** A timeout that is reported is the one counted; a driver that reports none counts at least two seconds. */
    predicate Honest()
    {
      if applied.Some? && applied.value > 0 then timeout == applied.value * SECOND else timeout >= 2 * SECOND
    }
  }

  /** One turn of the loop; `device` is what opening would find. */
  datatype Round = Round(now: nat, booted: bool, goingDown: bool, device: Option<Device>)

  /** `armed` is the timeout the hardware counts since `written`, once the device has been opened. */
  datatype Machine = Machine(policy: Feeding, now: nat, armed: Option<nat>, written: nat, reset: bool)

  function Initial(config: Config): Machine
  {
    Machine(NewFeeding(config), 0, None, 0, false)
  }

  function Decide(f: Feeding, r: Round): (Feeding, Tick)
  {
    (if r.goingDown then f.GoingDown() else f).Ticked(r.now, r.booted)
  }

  predicate RunsOut(m: Machine, now: nat)
  {
    m.armed.Some? && now >= m.written + m.armed.value
  }

  function Turn(m: Machine, r: Round): Machine
  {
    var (f, tick) := Decide(m.policy, r);
    var m := Machine(f, r.now, m.armed, m.written, m.reset || RunsOut(m, r.now));
    match tick.action
    case Nothing => m
    case Pet => m.(written := r.now)
    case Open =>
      match r.device
      case None => m.(policy := f.OpenFailed(r.now))
      case Some(d) => m.(policy := f.Opened(r.now, d.applied), armed := Some(d.timeout), written := r.now)
  }

  function Turns(m: Machine, rounds: seq<Round>): Machine
  {
    if rounds == [] then m else Turn(Turns(m, rounds[..|rounds| - 1]), rounds[|rounds| - 1])
  }

  /**
   * The clock does not go back, and while the device is open the loop comes round less than one interval after
   * it asked to.
   */
  predicate Timely(m: Machine, r: Round)
  {
    && r.now >= m.now
    && (r.device.Some? ==> r.device.value.Honest())
    && (m.policy.open && m.policy.NextWake(m.now).Some? ==>
         r.now < m.now + m.policy.NextWake(m.now).value + m.policy.interval)
  }

  predicate TimelyRun(m: Machine, rounds: seq<Round>)
  {
    rounds == [] ||
    (TimelyRun(m, rounds[..|rounds| - 1]) && Timely(Turns(m, rounds[..|rounds| - 1]), rounds[|rounds| - 1]))
  }

  // ----- Fed until starved -----

  predicate Starved(m: Machine)
  {
    m.policy.open && m.policy.boot.Overdue?
  }

  /** What every turn of a timely loop keeps. */
  predicate Fed(m: Machine)
  {
    && m.policy.Sound()
    && (m.armed.Some? <==> m.policy.open)
    && (m.policy.open ==>
          && m.policy.lastPet == Some(m.written) && m.written <= m.now
          && 2 * m.policy.interval <= m.armed.value
          && (!m.policy.boot.Overdue? ==> m.now < m.written + m.policy.interval))
    && (m.reset <==> Starved(m) && RunsOut(m, m.now))
  }

  lemma TurnKeepsFed(m: Machine, r: Round)
    requires Fed(m) && Timely(m, r)
    ensures Fed(Turn(m, r))
  {
    if m.policy.open {
      OpenTurnKeepsFed(m, r);
    } else {
      ShutTurnKeepsFed(m, r);
    }
  }

  lemma ShutTurnKeepsFed(m: Machine, r: Round)
    requires Fed(m) && Timely(m, r) && !m.policy.open
    ensures Fed(Turn(m, r))
  {
  }

  /** With the device open and the boot not overdue, the loop asks to come round no later than the next pet. */
  lemma WakesForPet(f: Feeding, now: nat, last: nat)
    requires f.open && !f.boot.Overdue? && f.lastPet == Some(last) && last <= now < last + f.interval
    ensures f.NextWake(now).Some? && now + f.NextWake(now).value <= last + f.interval
  {
  }

  lemma OpenTurnKeepsFed(m: Machine, r: Round)
    requires Fed(m) && Timely(m, r) && m.policy.open
    ensures Fed(Turn(m, r))
  {
    hide Feeding.NextWake;
    if !m.policy.boot.Overdue? {
      WakesForPet(m.policy, m.now, m.written);
    }
  }

  lemma {:induction false} RunKeepsFed(m: Machine, rounds: seq<Round>)
    requires Fed(m) && TimelyRun(m, rounds)
    ensures Fed(Turns(m, rounds))
  {
    hide Fed, Turn, Timely;
    if rounds != [] {
      RunKeepsFed(m, rounds[..|rounds| - 1]);
      TurnKeepsFed(Turns(m, rounds[..|rounds| - 1]), rounds[|rounds| - 1]);
    }
  }

  /**
   * From the start, a timely loop's machine is reset exactly when the boot went overdue and one whole timeout
   * has passed since the last write.
   */
  lemma ResetExactlyWhenStarved(config: Config, rounds: seq<Round>)
    requires config.timeout > 0 && TimelyRun(Initial(config), rounds)
    ensures var m := Turns(Initial(config), rounds);
            m.reset <==> Starved(m) && RunsOut(m, m.now)
  {
    RunKeepsFed(Initial(config), rounds);
  }

  /**
   * Once starved, nothing is ever written again, however the loop comes round: the reset comes one timeout after
   * the last write.
   */
  lemma {:induction false} StarvedForGood(m: Machine, rounds: seq<Round>)
    requires Starved(m)
    ensures var n := Turns(m, rounds); Starved(n) && n.written == m.written && n.armed == m.armed
  {
    if rounds != [] {
      StarvedForGood(m, rounds[..|rounds| - 1]);
    }
  }

  // ----- The boot deadline -----

  /** Round `i` finds the deadline passed, with the boot unit not up by then and no shutdown begun. */
  ghost predicate Missed(rounds: seq<Round>, within: nat, i: nat)
    requires i < |rounds|
  {
    rounds[i].now >= within && forall j | 0 <= j <= i :: !rounds[j].booted && !rounds[j].goingDown
  }

  ghost predicate MissedDeadline(rounds: seq<Round>, within: nat)
  {
    exists i: nat :: i < |rounds| && Missed(rounds, within, i)
  }

  ghost predicate CameUp(rounds: seq<Round>)
  {
    exists i: nat :: i < |rounds| && rounds[i].booted
  }

  ghost predicate WentDown(rounds: seq<Round>)
  {
    exists i: nat :: i < |rounds| && rounds[i].goingDown
  }

  /** What the rounds so far decide about the boot, whatever happened to the device. */
  ghost predicate Verdict(f: Feeding, config: Config, rounds: seq<Round>)
  {
    && f.config == config
    && (f.shuttingDown <==> WentDown(rounds))
    && (f.boot.Overdue? <==> config.boot.Some? && MissedDeadline(rounds, config.boot.value.within))
    && (f.boot.Confirmed? <==>
          config.boot.None? || (CameUp(rounds) && !MissedDeadline(rounds, config.boot.value.within)))
  }

  lemma MissedOneMore(rounds: seq<Round>, r: Round, within: nat)
    ensures MissedDeadline(rounds + [r], within) <==>
              MissedDeadline(rounds, within) || Missed(rounds + [r], within, |rounds|)
    ensures CameUp(rounds + [r]) <==> CameUp(rounds) || r.booted
  {
    var more := rounds + [r];
    forall i: nat | i < |rounds| ensures Missed(more, within, i) <==> Missed(rounds, within, i) {
      assert forall j | 0 <= j <= i :: more[j] == rounds[j];
    }
    if i: nat :| i < |rounds| && rounds[i].booted {
      assert more[i].booted;
    }
    if i: nat :| i < |rounds| && Missed(rounds, within, i) {
      assert Missed(more, within, i);
    }
    assert more[|rounds|] == r;
  }

  /**
   * The boot ends up overdue exactly when some round missed the deadline, and confirmed exactly when the unit
   * came up and none had.
   */
  lemma {:induction false} BootVerdict(config: Config, rounds: seq<Round>)
    ensures Verdict(Turns(Initial(config), rounds).policy, config, rounds)
  {
    if rounds != [] {
      var before := rounds[..|rounds| - 1];
      var r := rounds[|rounds| - 1];
      BootVerdict(config, before);
      assert rounds == before + [r];
      BootStep(Turns(Initial(config), before), config, before, r);
    }
  }

  lemma TurnDecidesBoot(m: Machine, r: Round)
    ensures var f, g := m.policy, Turn(m, r).policy;
            && g.config == f.config
            && (g.shuttingDown <==> f.shuttingDown || r.goingDown)
            && g.boot == if !f.boot.Pending? then f.boot
                         else if r.booted then Confirmed
                         else if f.config.boot.Some? && !g.shuttingDown && r.now >= f.config.boot.value.within
                         then Overdue
                         else Pending
  {
  }

  lemma DownOneMore(rounds: seq<Round>, r: Round)
    ensures WentDown(rounds + [r]) <==> WentDown(rounds) || r.goingDown
  {
    assert (rounds + [r])[|rounds|] == r;
    if i: nat :| i < |rounds| && rounds[i].goingDown {
      assert (rounds + [r])[i].goingDown;
    }
  }

  lemma BootStep(m: Machine, config: Config, before: seq<Round>, r: Round)
    requires Verdict(m.policy, config, before)
    ensures Verdict(Turn(m, r).policy, config, before + [r])
  {
    hide Turn;
    var after := before + [r];
    TurnDecidesBoot(m, r);
    DownOneMore(before, r);
    if config.boot.Some? {
      MissedOneMore(before, r, config.boot.value.within);
      assert forall j | 0 <= j < |before| :: after[j] == before[j];
      assert after[|before|] == r;
    }
  }

  /** The turn writes to the device: a pet, or the write that opening it is. */
  predicate Writes(m: Machine, r: Round)
  {
    var action := Decide(m.policy, r).1.action;
    action.Pet? || (action.Open? && r.device.Some?)
  }

  lemma {:induction false} TurnsAppend(m: Machine, first: seq<Round>, second: seq<Round>)
    ensures Turns(m, first + second) == Turns(Turns(m, first), second)
    decreases |second|
  {
    hide Turn;
    if second == [] {
      AppendNothing(first);
    } else {
      var n := |second| - 1;
      assert (first + second)[..|first| + n] == first + second[..n];
      TurnsAppend(m, first, second[..n]);
    }
  }

  lemma TurnsOneMore(m: Machine, rounds: seq<Round>, r: Round)
    ensures Turns(m, rounds + [r]) == Turn(Turns(m, rounds), r)
  {
    assert (rounds + [r])[..|rounds|] == rounds;
  }

  /**
   * A write at or past the deadline means that the unit had come up or a shutdown had begun before any round missed the
   * deadline; or else it is the write that opens the device, late, and nothing is ever written after it.
   */
  lemma LateWriteIsJustifiedOrTheLast(config: Config, rounds: seq<Round>, r: Round, later: seq<Round>)
    requires config.boot.Some? && r.now >= config.boot.value.within && Writes(Turns(Initial(config), rounds), r)
    ensures if !MissedDeadline(rounds + [r], config.boot.value.within)
            then CameUp(rounds + [r]) || WentDown(rounds + [r])
            else !Turns(Initial(config), rounds).policy.open
                 && Turns(Initial(config), rounds + [r] + later).written == r.now
  {
    var m := Turns(Initial(config), rounds);
    var n := Turn(m, r);
    TurnsOneMore(Initial(config), rounds, r);
    BootVerdict(config, rounds + [r]);
    TurnsAppend(Initial(config), rounds + [r], later);
    WritingLeaves(m, r);
    if Starved(n) {
      StarvedForGood(n, later);
    } else {
      LateRoundDecides(rounds, r, config.boot.value.within);
    }
  }

  lemma LateRoundDecides(rounds: seq<Round>, r: Round, within: nat)
    requires r.now >= within && !MissedDeadline(rounds + [r], within)
    ensures CameUp(rounds + [r]) || WentDown(rounds + [r])
  {
    var all := rounds + [r];
    assert !Missed(all, within, |rounds|);
    var j: nat :| j <= |rounds| && (all[j].booted || all[j].goingDown);
  }

  /** After a write the device is open; one that finds the boot overdue is the one that opened it. */
  lemma WritingLeaves(m: Machine, r: Round)
    requires Writes(m, r)
    ensures var n := Turn(m, r);
            n.policy.open && n.written == r.now && (n.policy.boot.Overdue? ==> !m.policy.open)
  {
  }

  // ----- The object in its loop -----

  /**
   * The object carried through the loop's turns, as `tick` carries it, with the hardware beside it. Its machine is
   * reset, in a timely loop, exactly when the object has the device open and the boot overdue, and the timeout that the
   * hardware counts has passed since the last write.
   */
  method Feed(config: Config, rounds: seq<Round>)
    returns (policy: Policy, armed: Option<nat>, written: nat, reset: bool)
    ensures var m := Turns(Initial(config), rounds);
            policy.Value() == m.policy && armed == m.armed && written == m.written && reset == m.reset
    ensures rounds != [] && config.timeout > 0 && TimelyRun(Initial(config), rounds) ==>
              (reset <==> && policy.open && policy.boot == Overdue
                          && armed.Some? && rounds[|rounds| - 1].now >= written + armed.value)
    ensures policy.shuttingDown <==> WentDown(rounds)
    ensures policy.boot == Overdue <==> config.boot.Some? && MissedDeadline(rounds, config.boot.value.within)
  {
    hide Feeding.Ticked;
    policy := new Policy(config);
    armed, written, reset := None, 0, false;
    ghost var start := Initial(config);
    for i := 0 to |rounds|
      invariant fresh(policy)
      invariant var m := Turns(start, rounds[..i]);
                policy.Value() == m.policy && armed == m.armed && written == m.written && reset == m.reset
    {
      var r := rounds[i];
      TakeOneMore(rounds, i);
      TurnsOneMore(start, rounds[..i], r);
      reset := reset || (armed.Some? && r.now >= written + armed.value);
      if r.goingDown {
        policy.BeginShutdown();
      }
      var tick := policy.DoTick(r.now, r.booted);
      match tick.action {
        case Nothing =>
        case Pet =>
          written := r.now;
        case Open =>
          match r.device {
            case None =>
              policy.DeviceMissing(r.now);
            case Some(d) =>
              policy.DeviceOpened(r.now, d.applied);
              armed, written := Some(d.timeout), r.now;
          }
      }
    }
    TakeAll(rounds);
    BootVerdict(config, rounds);
    if rounds != [] {
      TurnsAt(start, rounds);
      if config.timeout > 0 && TimelyRun(start, rounds) { ResetExactlyWhenStarved(config, rounds); }
    }
  }

  lemma TurnsAt(m: Machine, rounds: seq<Round>)
    requires rounds != []
    ensures Turns(m, rounds).now == rounds[|rounds| - 1].now
  {
  }
}
