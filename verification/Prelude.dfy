/** What every part of the model shares: options, instants, and distances between levels. */
module Prelude {

  datatype Option<+T> = None | Some(value: T)

  /** Instants and durations are counted in nanoseconds, the resolution of a monotonic clock. */
  const SECOND: nat := 1_000_000_000

  /** The time elapsed since `at`: zero, not negative, for an instant still to come. */
  function Since(now: nat, at: nat): nat {
    if at <= now then now - at else 0
  }

  function Min(a: nat, b: nat): nat {
    if a <= b then a else b
  }

  /** How far apart two levels are. */
  function AbsDiff(a: nat, b: nat): nat {
    if a <= b then b - a else a - b
  }
}
