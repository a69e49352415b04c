/** Game-wide settings (script.js lines 1-4) and two integer helpers. */
module Settings {

  /** Curries to eat before a run ends. */
  const QUOTA: int := 100

  /** Largest representable play time in milliseconds: 99 minutes 59.999 seconds. */
  const MAX_TICK: int := (99 * 60 + 59) * 1000 + 999

  function Min(a: int, b: int): int {
    if a <= b then a else b
  }

  function Max(a: int, b: int): int {
    if a >= b then a else b
  }
}
