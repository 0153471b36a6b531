/** The saturating 64-bit counters that several components keep. */
module Counters {
  const MAX: nat := 0xFFFF_FFFF_FFFF_FFFF

  /** What a counter shows of a true count. */
  function Capped(n: nat): nat {
    if n <= MAX then n else MAX
  }

  function SaturatingAdd(a: nat, b: nat): nat {
    Capped(a + b)
  }
}
