/** A parsed unit: the parts of it that decide what the supervisor does. */
module Units {
  import opened Names
  import opened Wrappers
  import Calendars

  /** `requires` is a reserved word here, hence `needs`. */
  datatype Deps = Deps(needs: seq<Name>, wants: seq<Name>, after: seq<Name>, before: seq<Name>, conflicts: seq<Name>)

  datatype ServiceType = Simple | Forking | Oneshot | Notify

  datatype RestartPolicy = Never | Always | OnFailure | OnAbnormal

  datatype Output = Console | Log | Discard

  /** Durations are nanoseconds. `limited` says whether `[resources]` declares anything. */
  datatype Service = Service(
    ty: ServiceType,
    restart: RestartPolicy,
    restartSec: nat,
    startSec: nat,
    stopSec: nat,
    watchdogSec: Option<nat>,
    output: Output,
    limited: bool
  )

  datatype Kind =
    | ServiceKind(service: Service)
    | TargetKind
    | SocketKind(activates: Name)
    | TimerKind(schedule: Calendars.Schedule, starts: Name)

  datatype Unit = Unit(deps: Deps, kind: Kind)
  {
    predicate IsService() { kind.ServiceKind? }
    predicate IsSocket() { kind.SocketKind? }
    predicate IsTimer() { kind.TimerKind? }

    /** What the parser refuses: a watchdog on anything but a notify service, and an unusable schedule. */
    predicate Valid()
    {
      && (kind.ServiceKind? && kind.service.watchdogSec.Some? ==> kind.service.ty.Notify?)
      && (kind.TimerKind? ==> kind.schedule.Valid())
    }
  }

  predicate AllValid(units: map<Name, Unit>)
  {
    forall n | n in units :: units[n].Valid()
  }
}
