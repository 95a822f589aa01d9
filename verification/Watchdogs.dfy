/**
 * The hardware watchdog: what is configured, when to write to the device, and when to stop. Times are
 * nanoseconds since start.
 */
module Watchdogs {
  import opened Numbers
  import opened Wrappers

  const MAX_TIMEOUT_SECS: nat := 0x7FFF_FFFF
  const DEFAULT_DEVICE := "/dev/watchdog0"

  // ----- Configuration -----

  datatype Settings = Settings(
    device: Option<string>,
    timeout: Option<nat>,
    bootUnit: Option<string>,
    boot: Option<nat>
  )
  {
    /** This, with whatever it leaves unsaid taken from `base`. */
    function Over(base: Settings): Settings
    {
      Settings(Or(device, base.device), Or(timeout, base.timeout), Or(bootUnit, base.bootUnit), Or(boot, base.boot))
    }
  }

  datatype Boot = Boot(unit: string, within: nat)

  datatype Config = Config(device: string, timeout: nat, boot: Option<Boot>)

  datatype ConfigError = BadTimeout | BootWithoutUnit | UnitWithoutBoot

  function Resolve(s: Settings): Result<Option<Config>, ConfigError>
  {
    if s.timeout.None? || s.timeout.value == 0 then Ok(None)
    else if s.timeout.value % SECOND != 0 || s.timeout.value / SECOND > MAX_TIMEOUT_SECS then Err(BadTimeout)
    else
      var within := if s.boot == Some(0) then None else s.boot;
      var device := if s.device.Some? then s.device.value else DEFAULT_DEVICE;
      var config := Config(device, s.timeout.value / SECOND, None);
      match (within, s.bootUnit)
      case (None, None) => Ok(Some(config))
      case (None, Some(_)) => if s.boot.Some? then Ok(Some(config)) else Err(UnitWithoutBoot)
      case (Some(_), None) => Err(BootWithoutUnit)
      case (Some(w), Some(unit)) => Ok(Some(config.(boot := Some(Boot(unit, w)))))
  }

  /** One key on the command line turns the watchdog off whatever the file says, broken boot keys included. */
  lemma CommandLineTurnsItOff(cmdline: Settings, file: Settings)
    requires cmdline.timeout == Some(0)
    ensures Resolve(cmdline.Over(file)) == Ok(None)
  {
  }

  /** What both sources together say, and whether it can be had. */
  predicate Acceptable(s: Settings)
  {
    && s.timeout.Some? && s.timeout.value > 0
    && s.timeout.value % SECOND == 0 && s.timeout.value <= MAX_TIMEOUT_SECS * SECOND
    && (s.boot.Some? && s.boot.value > 0 ==> s.bootUnit.Some?)
    && (s.bootUnit.Some? ==> s.boot.Some?)
  }

  /**
   * A configuration results exactly from a timeout of whole seconds in range with a boot unit and a deadline given
   * together. It is what was asked for: the timeout, the device, and the unit that has to come up with the time it has,
   * which a deadline of zero turns off. No timeout, or one of zero, is no watchdog; anything else is refused.
   */
  lemma ResolvesWhatWasAsked(s: Settings)
    ensures Resolve(s) == Ok(None) <==> s.timeout.None? || s.timeout.value == 0
    ensures (Resolve(s).Ok? && Resolve(s).value.Some?) <==> Acceptable(s)
    ensures Acceptable(s) ==>
              var c := Resolve(s).value.value;
              && c.timeout * SECOND == s.timeout.value
              && c.device == (if s.device.Some? then s.device.value else DEFAULT_DEVICE)
              && (c.boot.Some? <==> s.boot.Some? && s.boot.value > 0)
              && (c.boot.Some? ==> s.bootUnit == Some(c.boot.value.unit) && s.boot == Some(c.boot.value.within))
  {
  }

  /** The command line has the say in everything it mentions, and the file in the rest. */
  lemma CommandLineComesFirst(cmdline: Settings, file: Settings)
    ensures var s := cmdline.Over(file);
            && (if cmdline.device.Some? then s.device == cmdline.device else s.device == file.device)
            && (if cmdline.timeout.Some? then s.timeout == cmdline.timeout else s.timeout == file.timeout)
            && (if cmdline.bootUnit.Some? then s.bootUnit == cmdline.bootUnit else s.bootUnit == file.bootUnit)
            && (if cmdline.boot.Some? then s.boot == cmdline.boot else s.boot == file.boot)
  {
  }

  // ----- The policy -----

  datatype BootState = Confirmed | Pending | Overdue

  datatype Action = Nothing | Open | Pet

  datatype Event = BootConfirmed | BootOverdue

  datatype Tick = Tick(action: Action, event: Option<Event>)

  /** Twice per timeout. */
  function PetInterval(secs: nat): (r: nat)
    ensures 2 * r == secs * SECOND
  {
    secs * SECOND / 2
  }

  function Wait(at: nat, now: nat): nat
  {
    if at <= now then 0 else at - now
  }

  function Sooner(a: Option<nat>, wait: nat): Option<nat>
  {
    match a
    case None => Some(wait)
    case Some(w) => Some(if w <= wait then w else wait)
  }

  datatype Feeding = Feeding(
    config: Config,
    boot: BootState,
    open: bool,
    interval: nat,
    lastPet: Option<nat>,
    lastTry: Option<nat>,
    shuttingDown: bool
  )
  {
    predicate Due(last: Option<nat>, now: nat)
    {
      last.None? || Wait(now, last.value) >= interval
    }

    function Opened(now: nat, applied: Option<nat>): Feeding
    {
      this.(open := true,
            lastPet := Some(now),
            interval := if applied.Some? && applied.value > 0 then PetInterval(applied.value) else SECOND)
    }

    function OpenFailed(now: nat): Feeding
    {
      this.(lastTry := Some(now))
    }

    function GoingDown(): Feeding
    {
      this.(shuttingDown := true)
    }

    function BootUpdated(now: nat, booted: bool): (Feeding, Option<Event>)
    {
      if !boot.Pending? then (this, None)
      else if booted then (this.(boot := Confirmed), Some(BootConfirmed))
      else if config.boot.Some? && !shuttingDown && now >= config.boot.value.within
      then (this.(boot := Overdue), Some(BootOverdue))
      else (this, None)
    }

    function Ticked(now: nat, booted: bool): (Feeding, Tick)
    {
      var (f, event) := BootUpdated(now, booted);
      if !open then
        if Due(lastTry, now) then (f.(lastTry := Some(now)), Tick(Open, event)) else (f, Tick(Nothing, event))
      else if f.boot.Overdue? then (f, Tick(Nothing, event))
      else if Due(lastPet, now) then (f.(lastPet := Some(now)), Tick(Pet, event))
      else (f, Tick(Nothing, event))
    }

    function NextWake(now: nat): Option<nat>
    {
      var device :=
        if !open then Sooner(None, if lastTry.None? then 0 else Wait(lastTry.value + interval, now))
        else if !boot.Overdue? then Sooner(None, if lastPet.None? then 0 else Wait(lastPet.value + interval, now))
        else None;
      if boot.Pending? && !shuttingDown && config.boot.Some? then Sooner(device, Wait(config.boot.value.within, now))
      else device
    }

    /** What every policy built from a resolved configuration keeps. */
    predicate Sound()
    {
      && interval > 0
      && config.timeout > 0
      && (open ==> lastPet.Some?)
      && (boot.Pending? ==> config.boot.Some?)
    }
  }

  function NewFeeding(config: Config): Feeding
  {
    var boot := if config.boot.Some? then Pending else Confirmed;
    Feeding(config, boot, false, PetInterval(config.timeout), None, None, false)
  }

  lemma ResolvedIsSound(s: Settings)
    requires Resolve(s).Ok? && Resolve(s).value.Some?
    ensures NewFeeding(Resolve(s).value.value).Sound()
    ensures Resolve(s).value.value.timeout * SECOND == s.timeout.value
    ensures Resolve(s).value.value.boot.Some? ==> Resolve(s).value.value.boot.value.within > 0
  {
  }

  // ----- The same policy as the object the loop keeps -----

  class Policy {
    const config: Config
    var boot: BootState
    var open: bool
    var interval: nat
    var lastPet: Option<nat>
    var lastTry: Option<nat>
    var shuttingDown: bool

    function Value(): Feeding
      reads this
    {
      Feeding(config, boot, open, interval, lastPet, lastTry, shuttingDown)
    }

    constructor (config: Config)
      ensures Value() == NewFeeding(config)
    {
      this.config := config;
      boot := match config.boot {
        case Some(_) => Pending
        case None => Confirmed
      };
      open, interval := false, PetInterval(config.timeout);
      lastPet, lastTry, shuttingDown := None, None, false;
    }

    method DeviceOpened(now: nat, applied: Option<nat>)
      modifies this
      ensures Value() == old(Value()).Opened(now, applied)
    {
      open := true;
      lastPet := Some(now);
      if applied.Some? && applied.value > 0 {
        interval := PetInterval(applied.value);
      } else {
        interval := SECOND;
      }
    }

    method DeviceMissing(now: nat)
      modifies this
      ensures Value() == old(Value()).OpenFailed(now)
    {
      lastTry := Some(now);
    }

    method BeginShutdown()
      modifies this
      ensures Value() == old(Value()).GoingDown()
    {
      shuttingDown := true;
    }

    method UpdateBoot(now: nat, booted: bool) returns (event: Option<Event>)
      modifies this`boot
      ensures (Value(), event) == old(Value()).BootUpdated(now, booted)
    {
      if boot != Pending {
        return None;
      }
      if booted {
        boot := Confirmed;
        return Some(BootConfirmed);
      }
      if config.boot.None? {
        return None;
      }
      if !shuttingDown && now >= config.boot.value.within {
        boot := Overdue;
        return Some(BootOverdue);
      }
      return None;
    }

    /** Decide, and record the decision as done. */
    method DoTick(now: nat, booted: bool) returns (tick: Tick)
      modifies this
      ensures (Value(), tick) == old(Value()).Ticked(now, booted)
    {
      var event := UpdateBoot(now, booted);
      var action := Nothing;
      if !open {
        if Value().Due(lastTry, now) {
          lastTry := Some(now);
          action := Open;
        }
      } else if boot == Overdue {
      } else if Value().Due(lastPet, now) {
        lastPet := Some(now);
        action := Pet;
      }
      return Tick(action, event);
    }

    method SleepBound(now: nat) returns (wait: Option<nat>)
      ensures wait == Value().NextWake(now)
    {
      wait := None;
      if !open {
        wait := Sooner(wait, Wait(if lastTry.Some? then lastTry.value + interval else now, now));
      } else if boot != Overdue {
        wait := Sooner(wait, Wait(if lastPet.Some? then lastPet.value + interval else now, now));
      }
      if boot == Pending && !shuttingDown && config.boot.Some? {
        wait := Sooner(wait, Wait(config.boot.value.within, now));
      }
    }
  }

  // ----- The wait is exact -----

  /** A tick at this moment, with the boot unit not up, does and reports nothing. */
  predicate Quiet(f: Feeding, now: nat)
  {
    f.Ticked(now, false).1 == Tick(Nothing, None)
  }

  ghost predicate QuietUntil(f: Feeding, now: nat, end: nat)
  {
    forall t | now <= t < end :: Quiet(f, t)
  }

  /** A quiet tick leaves the policy as it was, so a wake-up for something else does not move the next one. */
  lemma QuietChangesNothing(f: Feeding, now: nat)
    ensures Quiet(f, now) ==> f.Ticked(now, false).0 == f
  {
  }

  /** Where the device stands: the moment it is next due something, if it ever is. */
  function DeviceAt(f: Feeding): Option<nat>
  {
    if !f.open then Some(if f.lastTry.Some? then f.lastTry.value + f.interval else 0)
    else if f.boot.Overdue? then None
    else Some(if f.lastPet.Some? then f.lastPet.value + f.interval else 0)
  }

  function BootAt(f: Feeding): Option<nat>
  {
    if f.boot.Pending? && !f.shuttingDown && f.config.boot.Some? then Some(f.config.boot.value.within) else None
  }

  lemma QuietBefore(f: Feeding, t: nat)
    requires f.Sound()
    ensures Quiet(f, t) <==> (DeviceAt(f).Some? ==> t < DeviceAt(f).value) && (BootAt(f).Some? ==> t < BootAt(f).value)
  {
  }

  /**
   * What a tick decides, exactly: an open device is written to once an interval has passed since the last write, and
   * never once the boot is overdue; one that is not open is tried at once and then once an interval after each try.
   */
  lemma TickActsExactlyWhen(f: Feeding, now: nat, booted: bool)
    requires f.Sound()
    ensures var (g, tick) := f.Ticked(now, booted);
            && (tick.action == Open <==> !f.open && (f.lastTry.Some? ==> now >= f.lastTry.value + f.interval))
            && (tick.action == Pet <==> f.open && !g.boot.Overdue? && now >= f.lastPet.value + f.interval)
            && (tick.action == Open ==> g.lastTry == Some(now)) && (tick.action == Pet ==> g.lastPet == Some(now))
            && (tick.event == Some(BootConfirmed) <==> f.boot.Pending? && booted)
            && (tick.event == Some(BootOverdue) <==>
                  f.boot.Pending? && !booted && !f.shuttingDown && now >= f.config.boot.value.within)
  {
  }

  lemma WakesAtTheSooner(f: Feeding, now: nat)
    ensures f.NextWake(now) ==
            match (DeviceAt(f), BootAt(f))
            case (None, None) => None
            case (Some(d), None) => Some(Wait(d, now))
            case (None, Some(b)) => Some(Wait(b, now))
            case (Some(d), Some(b)) => Some(if Wait(d, now) <= Wait(b, now) then Wait(d, now) else Wait(b, now))
  {
  }

  /**
   * `NextWake` is `Some(w)` exactly when `now + w` is the first moment a tick has anything to do, and `None`
   * exactly when there is none.
   */
  lemma NextWakeIsExact(f: Feeding, now: nat, w: nat)
    requires f.Sound()
    ensures f.NextWake(now) == Some(w) <==> !Quiet(f, now + w) && QuietUntil(f, now, now + w)
    ensures f.NextWake(now) == None <==> forall t | t >= now :: Quiet(f, t)
  {
    hide Feeding.NextWake, Feeding.Ticked;
    WakesAtTheSooner(f, now);
    forall t: nat
      ensures Quiet(f, t) <==>
              (DeviceAt(f).Some? ==> t < DeviceAt(f).value) && (BootAt(f).Some? ==> t < BootAt(f).value)
    {
      QuietBefore(f, t);
    }
    hide Quiet;
    match f.NextWake(now) {
      case None =>
        assert Quiet(f, now + w);
      case Some(v) =>
        assert !Quiet(f, now + v) && QuietUntil(f, now, now + v);
    }
  }
}
