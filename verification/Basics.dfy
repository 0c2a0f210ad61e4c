/** Values shared by every module: optional values and time. */
module Basics {
  datatype Option<+T> = None | Some(value: T)

  /** An instant or a duration, in nanoseconds; instants count from the Unix epoch. */
  type Time = int

  const SECOND: Time := 1_000_000_000

  /** Go's zero instant (1 January of year 1), which means "not set". */
  const ZERO_TIME: Time := -62_135_596_800 * SECOND

  /** The instant `time.Unix(0, 1)` that marks an invalidated session as expired. */
  const LONG_AGO: Time := 1

  /** 1969 years of the Gregorian calendar lie between the zero instant and the epoch. */
  lemma {:induction false} ZeroTimeIsYearOne()
    ensures ZERO_TIME == -(1969 * 365 + 1969 / 4 - 1969 / 100 + 1969 / 400) * 86_400 * 1_000_000_000
  {
  }
}
