/** Optional values and results that carry an error, used by every other module. */
module Wrappers {

  datatype Option<+T> = None | Some(value: T)

  datatype Result<+T, +E> = Ok(value: T) | Err(error: E)

}

/** Instants are whole microseconds since the epoch, which is exactly what a `datetime` can hold. */
module Instants {

  type Instant = int

  const HOUR: int := 3_600_000_000
  const DAY: int := 86_400_000_000

  /** The UTC calendar date of an instant, as a day number. */
  function Date(t: Instant): (d: int)
    ensures Midnight(d) <= t < Midnight(d + 1)
  {
    t / 86_400_000_000
  }

  /** The first instant of a date. */
  function Midnight(date: int): Instant {
    date * 86_400_000_000
  }
}
