/** The 32-bit stream timestamp of units.h. */
module StreamUnits {
  const RANGE: int := 0x1_0000_0000
  const HALF: int := 0x8000_0000

  type Timestamp = x: nat | x < RANGE
}
