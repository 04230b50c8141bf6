// Instants and lengths of time are whole microseconds.
module Instants {
  const MINUTE: int := 60_000_000
  const HOUR: int := 3_600_000_000
  const DAY: int := 86_400_000_000
}
