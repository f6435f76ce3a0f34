/** The two storage tiers, and pairs of values held one per tier. */
module Tiers {
  datatype Tier = Slc | Tlc

  function Other(tier: Tier): Tier { if tier.Slc? then Tlc else Slc }

  datatype Pair<T> = Pair(slc: T, tlc: T) {
    function At(tier: Tier): T { if tier.Slc? then slc else tlc }
    function With(tier: Tier, x: T): Pair<T> { if tier.Slc? then Pair(x, tlc) else Pair(slc, x) }
  }
}
