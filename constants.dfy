/** Protocol constants declared in the program's interface description (src/dlmm/idl.ts). */
module Constants {

  /** One basis point is 1/BASIS_POINT_MAX. */
  const BASIS_POINT_MAX: int := 10000

  /** Fixed-point unit of fee rates. */
  const FEE_PRECISION: int := 1000000000

  /** Largest fee rate, 10% of FEE_PRECISION. */
  const MAX_FEE_RATE: int := 100000000

  /** Largest protocol share of a fee, in basis points (25%). */
  const MAX_PROTOCOL_SHARE: int := 2500

  /** Number of bins held by one bin array (page). */
  const MAX_BIN_PER_ARRAY: int := 70

  const MIN_BIN_ID: int := -443636
  const MAX_BIN_ID: int := 443636
}
