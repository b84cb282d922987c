/** Main-state and substate names.

    The component only compares names for equality, with each other and with a
    fixed list of spellings. A name is therefore represented by a code: each of these
    spellings has the code below that it stands beside, and every other text has a
    code of its own from 17 on. */
module Names {

  datatype Option<+T> = None | Some(value: T)

  newtype Name = n: int | 0 <= n

  const INIT: Name := 0 // "Init"
  const ALIVE: Name := 1 // "Alive"
  const NEUTRAL: Name := 2 // "Neutral"
  const SHUTDOWN: Name := 3 // "Shutdown"
  const FATAL_ERROR: Name := 4 // "FatalError"
  const DEACTIVATED: Name := 5 // "Deactivated"
  const DEACTIVATED_LOWER: Name := 6 // "deactivated"
  const INIT_LOWER: Name := 7 // "init"
  const ALIVE_LOWER: Name := 8 // "alive"
  const NEUTRAL_LOWER: Name := 9 // "neutral"
  const SHUTDOWN_LOWER: Name := 10 // "shutdown"
  const FATAL_ERROR_LOWER: Name := 11 // "fatalerror"
  const FATAL_ERROR_CAMEL: Name := 12 // "fatalError"
  const NONNEUTRAL_LOWER: Name := 13 // "nonneutral"
  const NONNEUTRAL_CAMEL: Name := 14 // "nonNeutral"
  const NONNEUTRAL: Name := 15 // "NonNeutral"
  const EMPTY: Name := 16 // ""
}
