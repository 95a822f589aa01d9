/** When a timer next elapses: calendar moments and schedules. */
module Calendars {
  import opened Numbers
  import opened Wrappers

  const MINUTE: nat := 60
  const HOUR: nat := 3600
  const DAY: nat := 86400

  datatype Calendar =
    | Hourly
    | Daily
    | Weekly
    | At(hour: nat, minute: nat, second: nat)

  /** The ranges the parser enforces. */
  predicate InRange(c: Calendar)
  {
    c.At? ==> c.hour <= 23 && c.minute <= 59 && c.second <= 59
  }

  /** Whether the schedule names the second `t`, read off the calendar. Day 0 was a Thursday. */
  predicate Names(c: Calendar, t: nat)
  {
    match c
    case Hourly => t % HOUR == 0
    case Daily => t % DAY == 0
    case Weekly => t % DAY == 0 && (t / DAY) % 7 == 4
    case At(hour, minute, second) =>
      t % DAY / HOUR == hour && t % HOUR / MINUTE == minute && t % MINUTE == second
  }

  function RoundUp(now: nat, step: nat): (r: nat)
    requires step > 0
    ensures now <= r < now + step && r % step == 0
  {
    var past := now % step;
    if past == 0 then now
    else
      QuotientIs(now + (step - past), now / step + 1, 0, step);
      now + (step - past)
  }

  lemma TimesAtLeastOne(gap: int, step: nat)
    requires gap >= 1
    ensures gap * step >= step
  {
  }

  /** Division with remainder has one answer. */
  lemma QuotientIs(x: nat, q: nat, r: nat, step: nat)
    requires r < step && x == q * step + r
    ensures x / step == q && x % step == r
  {
    var gap := q - x / step;
    assert gap * step == x % step - r;
    if gap >= 1 { TimesAtLeastOne(gap, step); }
    if gap <= -1 { TimesAtLeastOne(-gap, step); }
  }

  /** `next_at`. Every intermediate value stays below `now + 10 * DAY`, the bound under which `u64` cannot overflow. */
  function NextAt(c: Calendar, now: nat): (r: nat)
    ensures now <= r && (InRange(c) ==> r < now + 7 * DAY)
  {
    match c
    case Hourly => RoundUp(now, HOUR)
    case Daily => RoundUp(now, DAY)
    case Weekly =>
      var monday := 4 * DAY;
      RoundUp(now + (7 * DAY - monday), 7 * DAY) - (7 * DAY - monday)
    case At(hour, minute, second) =>
      var offset := hour * HOUR + minute * MINUTE + second;
      var midnight := now - now % DAY;
      if midnight + offset >= now then midnight + offset else midnight + DAY + offset
  }

  /** Two distinct multiples of a step are at least a step apart. */
  lemma StepApart(a: nat, b: nat, step: nat)
    requires step > 0 && a % step == 0 && b % step == 0 && a < b
    ensures a + step <= b
  {
    var gap := b / step - a / step;
    assert gap * step == b - a;
    if gap >= 1 { TimesAtLeastOne(gap, step); }
  }

  /** A Monday midnight, three days on, is a whole number of weeks after the epoch; and conversely. */
  lemma WeeklyShift(t: nat)
    ensures Names(Weekly, t) <==> (t + 3 * DAY) % (7 * DAY) == 0
  {
    var d, s := t / DAY, t % DAY;
    assert t == d * DAY + s;
    var w, e := (d + 3) / 7, (d + 3) % 7;
    assert t + 3 * DAY == w * (7 * DAY) + (e * DAY + s);
    assert (t + 3 * DAY) % (7 * DAY) == e * DAY + s;
    assert e == 0 <==> d % 7 == 4;
  }

  /** A time of day is one number of seconds past midnight. */
  lemma TimeOfDay(c: Calendar, t: nat)
    requires InRange(c) && c.At?
    ensures Names(c, t) <==> t % DAY == c.hour * HOUR + c.minute * MINUTE + c.second
  {
    var s := t % DAY;
    QuotientIs(t, t / DAY * 24 + s / HOUR, s % HOUR, HOUR);
    QuotientIs(t, t / HOUR * 60 + t % HOUR / MINUTE, t % HOUR % MINUTE, MINUTE);
  }

  lemma NextTimeOfDayIsExact(c: Calendar, now: nat)
    requires InRange(c) && c.At?
    ensures Names(c, NextAt(c, now))
    ensures forall t: nat | now <= t < NextAt(c, now) :: !Names(c, t)
  {
    var r := NextAt(c, now);
    var offset := c.hour * HOUR + c.minute * MINUTE + c.second;
    var midnight := now - now % DAY;
    TimeOfDay(c, r);
    QuotientIs(r, if midnight + offset >= now then now / DAY else now / DAY + 1, offset, DAY);
    forall t: nat | now <= t < r ensures !Names(c, t) {
      TimeOfDay(c, t);
      if t < midnight + DAY {
        QuotientIs(t, now / DAY, t - midnight, DAY);
      } else {
        QuotientIs(t, now / DAY + 1, t - midnight - DAY, DAY);
      }
    }
  }

  /** `NextAt` is the least second at or after `now` that the schedule names. */
  lemma NextAtIsExact(c: Calendar, now: nat)
    requires InRange(c)
    ensures Names(c, NextAt(c, now)) && now <= NextAt(c, now)
    ensures forall t: nat | now <= t < NextAt(c, now) :: !Names(c, t)
  {
    var r := NextAt(c, now);
    match c
    case Hourly =>
      forall t: nat | now <= t < r ensures !Names(c, t) {
        if t % HOUR == 0 { StepApart(t, r, HOUR); }
      }
    case Daily =>
      forall t: nat | now <= t < r ensures !Names(c, t) {
        if t % DAY == 0 { StepApart(t, r, DAY); }
      }
    case Weekly =>
      WeeklyShift(r);
      forall t: nat | now <= t < r ensures !Names(c, t) {
        WeeklyShift(t);
        if Names(c, t) { StepApart(t + 3 * DAY, r + 3 * DAY, 7 * DAY); }
      }
    case At(_, _, _) =>
      NextTimeOfDayIsExact(c, now);
  }

  /** `calendar_at`: the next moment strictly after `now`, with the `saturating_add` left out below the bound. */
  function CalendarAt(c: Calendar, now: nat): (r: nat)
    ensures now < r
  {
    NextAt(c, now + 1)
  }

  /** The `n`-th firing of a timer that re-arms itself each time it fires. */
  function Firing(c: Calendar, now: nat, n: nat): (r: nat)
    ensures now < r
    decreases n
  {
    if n == 0 then CalendarAt(c, now) else Firing(c, CalendarAt(c, now), n - 1)
  }

  lemma {:induction false} FiringStep(c: Calendar, now: nat, n: nat)
    requires InRange(c)
    ensures Firing(c, now, n + 1) == CalendarAt(c, Firing(c, now, n))
    decreases n
  {
    if n > 0 { FiringStep(c, CalendarAt(c, now), n - 1); }
  }

  lemma {:induction false} FiringIsNamed(c: Calendar, now: nat, n: nat)
    requires InRange(c)
    ensures Names(c, Firing(c, now, n))
    decreases n
  {
    if n == 0 { NextAtIsExact(c, now + 1); } else { FiringIsNamed(c, CalendarAt(c, now), n - 1); }
  }

  lemma {:induction false} FiringsIncrease(c: Calendar, now: nat, m: nat, n: nat)
    requires InRange(c) && m < n
    ensures Firing(c, now, m) < Firing(c, now, n)
    decreases n
  {
    FiringStep(c, now, n - 1);
    if m < n - 1 { FiringsIncrease(c, now, m, n - 1); }
  }

  /** Which firing the named moment `t` is. */
  lemma {:induction false} FiringReaches(c: Calendar, now: nat, t: nat) returns (n: nat)
    requires InRange(c) && now < t && Names(c, t)
    ensures Firing(c, now, n) == t
    decreases t - now
  {
    NextAtIsExact(c, now + 1);
    var first := CalendarAt(c, now);
    if first == t {
      n := 0;
    } else {
      var later := FiringReaches(c, first, t);
      n := later + 1;
    }
  }

  /**
   * A calendar timer fires at every named moment after it was armed, at no
   * other, once each, in order.
   */
  lemma EveryMomentFiresOnce(c: Calendar, now: nat, t: nat)
    requires InRange(c)
    ensures now < t && Names(c, t) <==> exists n: nat :: Firing(c, now, n) == t
    ensures forall m: nat, n: nat | Firing(c, now, m) == t && Firing(c, now, n) == t :: m == n
  {
    if now < t && Names(c, t) {
      var n := FiringReaches(c, now, t);
    }
    forall n: nat | Firing(c, now, n) == t ensures now < t && Names(c, t) {
      FiringIsNamed(c, now, n);
    }
    forall m: nat, n: nat | Firing(c, now, m) == t && Firing(c, now, n) == t ensures m == n {
      if m < n { FiringsIncrease(c, now, m, n); }
      if n < m { FiringsIncrease(c, now, n, m); }
    }
  }

  // ----- Firings handled late -----

  /** The moment the `i`-th handling re-arms from: when the timer was armed, then when each firing was handled. */
  function ArmedAt(now: nat, handled: seq<nat>, i: nat): nat
    requires i <= |handled|
  {
    if i == 0 then now else handled[i - 1]
  }

  function Deadline(c: Calendar, now: nat, handled: seq<nat>, i: nat): (r: nat)
    requires i <= |handled|
    ensures ArmedAt(now, handled, i) < r
  {
    CalendarAt(c, ArmedAt(now, handled, i))
  }

  /** No firing is handled before it is due. */
  predicate HandledInTurn(c: Calendar, now: nat, handled: seq<nat>)
  {
    forall i {:trigger Deadline(c, now, handled, i)} | 0 <= i < |handled| :: Deadline(c, now, handled, i) <= handled[i]
  }

  /** `t` went by between a firing coming due and being handled. */
  predicate SleptThrough(c: Calendar, now: nat, handled: seq<nat>, t: nat)
  {
    exists i: nat :: i < |handled| && Deadline(c, now, handled, i) < t <= handled[i]
  }

  predicate FiredFor(c: Calendar, now: nat, handled: seq<nat>, t: nat)
  {
    exists i: nat :: i < |handled| && Deadline(c, now, handled, i) == t
  }

  lemma ArmedNext(now: nat, handled: seq<nat>, i: nat)
    requires i < |handled|
    ensures ArmedAt(now, handled, i + 1) == handled[i]
  {
  }

  lemma {:induction false} ArmingsIncrease(c: Calendar, now: nat, handled: seq<nat>, i: nat, j: nat)
    requires HandledInTurn(c, now, handled) && i < j <= |handled|
    ensures Deadline(c, now, handled, i) <= ArmedAt(now, handled, j)
    decreases j
  {
    hide Deadline, ArmedAt;
    ArmedNext(now, handled, j - 1);
    assert Deadline(c, now, handled, j - 1) <= handled[j - 1];
    if i < j - 1 {
      ArmingsIncrease(c, now, handled, i, j - 1);
    }
  }

  lemma DeadlineIsNext(c: Calendar, now: nat, handled: seq<nat>, i: nat)
    requires InRange(c) && i <= |handled|
    ensures Names(c, Deadline(c, now, handled, i))
    ensures forall t: nat | ArmedAt(now, handled, i) < t < Deadline(c, now, handled, i) :: !Names(c, t)
  {
    hide Names, NextAt;
    NextAtIsExact(c, ArmedAt(now, handled, i) + 1);
  }

  /** Which arming a moment falls after. */
  lemma {:induction false} ArmingBefore(now: nat, handled: seq<nat>, t: nat, n: nat) returns (i: nat)
    requires n < |handled| && now < t <= handled[n]
    ensures i <= n && ArmedAt(now, handled, i) < t <= handled[i]
    decreases n
  {
    if n == 0 || handled[n - 1] < t {
      i := n;
    } else {
      i := ArmingBefore(now, handled, t, n - 1);
    }
  }

  /**
   * However late each firing is handled, a calendar timer fires for exactly the named moments that did not go by
   * between an earlier firing coming due and being handled, each once and in order.
   */
  lemma LateWakeupsSkip(c: Calendar, now: nat, handled: seq<nat>, t: nat)
    requires InRange(c) && HandledInTurn(c, now, handled) && handled != [] && now < t <= handled[|handled| - 1]
    ensures FiredFor(c, now, handled, t) <==> Names(c, t) && !SleptThrough(c, now, handled, t)
    ensures forall i: nat, j: nat | i < j < |handled| :: Deadline(c, now, handled, i) < Deadline(c, now, handled, j)
  {
    hide Names, Deadline, ArmedAt;
    forall i: nat, j: nat | i < j < |handled| ensures Deadline(c, now, handled, i) < Deadline(c, now, handled, j) {
      ArmingsIncrease(c, now, handled, i, j);
    }
    if FiredFor(c, now, handled, t) {
      FiredIsNotSlept(c, now, handled, t);
    }
    if Names(c, t) {
      var i := ArmingBefore(now, handled, t, |handled| - 1);
      DeadlineIsNext(c, now, handled, i);
      assert Deadline(c, now, handled, i) <= t;
    }
  }

  lemma FiredIsNotSlept(c: Calendar, now: nat, handled: seq<nat>, t: nat)
    requires InRange(c) && HandledInTurn(c, now, handled) && FiredFor(c, now, handled, t)
    ensures Names(c, t) && !SleptThrough(c, now, handled, t)
  {
    hide Names, Deadline, ArmedAt;
    var j: nat :| j < |handled| && Deadline(c, now, handled, j) == t;
    DeadlineIsNext(c, now, handled, j);
    forall i: nat | i < |handled| && Deadline(c, now, handled, i) < t ensures handled[i] < t {
      if j < i {
        ArmingsIncrease(c, now, handled, j, i);
      } else if i < j {
        ArmedNext(now, handled, i);
        if i + 1 < j {
          ArmingsIncrease(c, now, handled, i + 1, j);
        }
      }
    }
  }

  /** Everything a `[timer]` says. Durations are nanoseconds. */
  datatype Schedule = Schedule(onBoot: Option<nat>, interval: Option<nat>, calendar: Option<Calendar>)
  {
    predicate Valid()
    {
      (calendar.Some? ==> InRange(calendar.value)) &&
      (onBoot.Some? || interval.Some? || calendar.Some?)
    }

    /** Fires again after every firing, rather than once. */
    predicate Recurring()
    {
      interval.Some? || calendar.Some?
    }

    function NextMoment(now: nat): (at: Option<nat>)
      ensures at.Some? <==> calendar.Some?
    {
      if calendar.Some? then Some(CalendarAt(calendar.value, now)) else None
    }

    /** A schedule that is not empty always has a first firing. */
    function First(now: nat): (next: Option<Next>)
      ensures Valid() ==> next.Some?
    {
      Sooner(if onBoot.Some? then onBoot else interval, NextMoment(now), now)
    }

    /** A firing is followed by another exactly when the schedule recurs. */
    function Following(now: nat): (next: Option<Next>)
      ensures next.Some? <==> Recurring()
    {
      Sooner(interval, NextMoment(now), now)
    }
  }

  /** Which clock a firing waits on. */
  datatype Next = After(delay: nat) | AtMoment(at: nat)

  /** The wall-clock second a firing is due, as `sooner` compares them. */
  function DueAt(next: Next, now: nat): nat
  {
    match next
    case After(delay) => now + delay / SECOND
    case AtMoment(at) => at
  }

  /** Whichever comes first, on the clock it belongs to. */
  function Sooner(delay: Option<nat>, at: Option<nat>, now: nat): (next: Option<Next>)
    ensures next.Some? <==> delay.Some? || at.Some?
    ensures next.Some? ==>
              || (delay.Some? && next.value == After(delay.value))
              || (at.Some? && next.value == AtMoment(at.value))
    ensures next.Some? && delay.Some? ==> DueAt(next.value, now) <= DueAt(After(delay.value), now)
    ensures next.Some? && at.Some? ==> DueAt(next.value, now) <= at.value
  {
    match (delay, at)
    case (Some(d), Some(a)) =>
      if now + d / SECOND <= a then Some(After(d)) else Some(AtMoment(a))
    case (Some(d), None) => Some(After(d))
    case (None, Some(a)) => Some(AtMoment(a))
    case (None, None) => None
  }

  /**
   * `on-boot` is for the first firing alone: where it is given, `interval` has no say in that firing, and where it is
   * not, the first firing is like any other. Every later firing is the sooner of the interval and the calendar's next
   * moment, whatever `on-boot` says.
   */
  lemma OnBootIsForTheFirst(s: Schedule, now: nat)
    ensures s.onBoot.Some? ==> s.First(now) == Schedule(None, s.onBoot, s.calendar).Following(now)
    ensures s.onBoot.Some? && s.calendar.None? ==> s.First(now) == Some(After(s.onBoot.value))
    ensures s.onBoot.None? ==> s.First(now) == s.Following(now)
    ensures s.Following(now) == Schedule(None, s.interval, s.calendar).Following(now)
    ensures s.interval.Some? && s.calendar.None? ==> s.Following(now) == Some(After(s.interval.value))
    ensures s.interval.None? && s.calendar.Some? ==>
              s.Following(now) == Some(AtMoment(CalendarAt(s.calendar.value, now)))
    ensures s.interval.Some? && s.calendar.Some? ==>
              var delay, moment := After(s.interval.value), AtMoment(CalendarAt(s.calendar.value, now));
              s.Following(now) == Some(if DueAt(delay, now) <= DueAt(moment, now) then delay else moment)
  {
  }
}
