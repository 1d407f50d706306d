/** Types shared by the crates (`crates/seed-core/src/contracts.rs`). */
module Contracts {
  /** Mnemonic length. The compatibility crate's own two-case enum is the same type here. */
  datatype WordCount = Twelve | TwentyFour
}
