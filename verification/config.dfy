/**
 * The configuration the calculator consumes, as it looks once the two CSV
 * tables have been read: one row per module and one row per tier. Each cell
 * that the program passes to Python's `float()` is represented by the outcome
 * of that conversion, so that the conversion's failure is an explicit case.
 */
module Config {
  import opened Results

  /**
   * One row of the tier table, after `float()` has been tried on each cell:
   * `None` means the conversion raised. A threshold that does not convert is
   * how the configuration spells "no upper bound".
   */
  datatype RawRow = RawRow(threshold: Option<real>, price: Option<real>)

  /** A tier row together with the name of the module it belongs to. */
  datatype TierRecord = TierRecord(owner: string, row: RawRow)

  /**
   * The unit-price cell of a module row: empty (pandas reads it as NaN),
   * a number, or text that `float()` rejects.
   */
  datatype PriceCell = Blank | Number(value: real) | Text

  /** One row of the module table. `typeLabel` is the raw pricing-type cell. */
  datatype ModuleRow = ModuleRow(name: string, typeLabel: string, unitPrice: PriceCell)

  /** The exceptions the cost computation can raise. */
  datatype PricingError =
    | MalformedTierPrice   // a tier row whose price `float()` rejects
    | MalformedUnitPrice   // a flat module whose unit price `float()` rejects
    | NoCostColumn         // the cost column of an empty breakdown does not exist
}
