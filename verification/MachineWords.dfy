/** Bounds of 64-bit integers. */
module MachineWords {
  const TWO63 := 0x8000_0000_0000_0000
  const TWO64 := 0x1_0000_0000_0000_0000
}
