/** Numbers that more than one part relies on. */
module Numbers {
  const U64_MAX: nat := 0xFFFF_FFFF_FFFF_FFFF

  /** Nanoseconds in a second: durations are kept in nanoseconds, wall-clock moments in seconds. */
  const SECOND: nat := 1_000_000_000
}
