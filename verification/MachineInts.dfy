/** The fixed-width unsigned integers of the C sources, as ranges of int.
    Arithmetic that may wrap is reduced explicitly where the source performs it. */
module MachineInts {
  const TWO_8: int := 0x100
  const TWO_32: int := 0x1_0000_0000
  const TWO_64: int := 0x1_0000_0000_0000_0000

  type u8 = x: int | 0 <= x < TWO_8
  type u32 = x: int | 0 <= x < TWO_32
  type u64 = x: int | 0 <= x < TWO_64
}
