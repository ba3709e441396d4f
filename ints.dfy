/** The fixed-width unsigned integers of the C++ interfaces. */
module Ints {

  /** uint32_t: the schema and column indices of a column source. */
  newtype u32 = x: int | 0 <= x < 0x1_0000_0000

  /** uint64_t: row counts and row positions of a data handler. */
  newtype u64 = x: int | 0 <= x < 0x1_0000_0000_0000_0000
}
