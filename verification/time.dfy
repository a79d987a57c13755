/** Clock ticks of the embassy time driver. An `Instant` is a number of ticks since boot,
    a `Duration` a number of ticks; both are unbounded here. */
module Time {

  /** embassy-time's default tick rate. */
  const TICK_HZ: nat := 1_000_000

  function Secs(s: nat): nat {
    s * TICK_HZ
  }

  function Millis(ms: nat): nat {
    ms * (TICK_HZ / 1000)
  }

  /** The units fit together, and whole seconds are what is left of a duration in seconds. */
  lemma Units(s: nat, rest: nat)
    requires rest < 1_000_000
    ensures Secs(s) == Millis(1000 * s) == 1_000_000 * s
    ensures AsSecs(Secs(s) + rest) == s
  {
  }

  function Max(a: nat, b: nat): nat {
    if a <= b then b else a
  }

  /** `Duration::as_secs`: whole seconds, rounded down. */
  function AsSecs(ticks: nat): nat {
    ticks / TICK_HZ
  }
}
