/** Unsigned counters that stay at their largest value, as Rust's `saturating_add` keeps them. */
module Saturating {
  const U32_MAX: nat := 0xFFFF_FFFF
  const U64_MAX: nat := 0xFFFF_FFFF_FFFF_FFFF

  /** `saturating_add(1)` at the given width. */
  function SaturatingInc(n: nat, max: nat): nat {
    if n < max then n + 1 else n
  }

  /** What a counter reads after `n` increments from zero. */
  function Saturated(n: nat, max: nat): nat {
    if n < max then n else max
  }
}
