/** The normalized output unit shared by both chains. */
module Holdings {
  import opened Wrappers

  /**
   * A decimal amount `units / 10^scale`, held exactly. The source turns it into a
   * JavaScript number with `parseFloat`; only its sign is ever tested.
   */
  datatype Amount = Amount(units: int, scale: nat) {
    /** `amount > 0`: a positive integer scaled down by a power of ten stays positive. */
    predicate Positive() {
      units > 0
    }
  }

  /** `{symbol, balance, logo}`, one displayed token. */
  datatype Holding = Holding(symbol: string, balance: Amount, logo: Option<string>)
}
