/** Column types the two entry tables share (migrations/000003 and 000007). */
module Columns {
  datatype Status = Active | Superseded | Deleted

  /** `duration_minutes INT`: a value outside 32 bits makes the insert fail. */
  predicate FitsInt4(n: int) {
    -0x8000_0000 <= n <= 0x7FFF_FFFF
  }
}
