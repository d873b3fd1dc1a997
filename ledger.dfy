/**
  The records the calculator consumes and produces: ledger entries, the
  caller's options, the options once defaults are applied, and the five
  formatted metrics.
 */
module Ledger {
  import opened Wrappers

  /**
    One ledger row. `totalValue` is a whole number of currency units; the three
    descriptive fields are carried along but read by no metric.
   */
  datatype Entry = Entry(
    category: string,
    accountType: string,
    valueType: string,
    totalValue: int,
    accountName: Option<string>,
    accountCode: Option<string>,
    accountCurrency: Option<string>)

  /** The options a caller may pass; an absent field keeps its default. */
  datatype Options = Options(currencySymbol: Option<string>, decimalPlaces: Option<nat>)

  /** The options after defaults are applied: every field present. */
  datatype Config = Config(currencySymbol: string, decimalPlaces: nat)

  /** The five display strings, in the order they are reported. */
  datatype MetricsResult = MetricsResult(
    revenue: string,
    expenses: string,
    grossProfitMargin: string,
    netProfitMargin: string,
    workingCapitalRatio: string)
}
