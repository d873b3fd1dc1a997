# Accounting metrics calculator, modelled in Dafny

The calculator takes a list of ledger entries and two display options. It reduces the entries to five figures and renders each figure as text:

- **revenue:** the sum over the entries in category `revenue`;
- **expenses:** the sum over the entries in category `expense`;
- **gross profit margin:** the sales debits over revenue;
- **net profit margin:** (revenue − expenses) over revenue;
- **working capital ratio:** current assets over current liabilities.

The two amounts are rendered as a currency symbol followed by the comma-grouped integer. The three ratios are rendered as percentages with a configurable number of decimal places.

The source class is pure. Its constructor stores the entries and the options once, and no method changes them:

- the five figure methods are filter-and-sum chains and conditional divisions;
- the two formatters build template strings from `toLocaleString` and `toFixed`;
- `calculateMetrics` builds an object literal from the formatted figures.

The model mirrors this:

- The class is the immutable datatype `Metrics.Calculator(data, options)`, and its methods are member functions.
- The constructor is `Metrics.NewCalculator`. It resolves the caller's `Options` into a `Config` with both fields present.

Files:

- `wrappers.dfy`: the `Option` type.
- `ledger.dfy`: the records (`Entry`, `Options`, `Config`, `MetricsResult`).
- `decimal.dfy`: decimal digit strings and their values.
- `number_format.dfy`: the two JavaScript number-to-text conversions the calculator uses, each paired with a reader:
  - `Number.prototype.toFixed`, following ECMAScript section 21.1.3.3;
  - `Number.prototype.toLocaleString` for integers in the en-US locale.
- `metrics.dfy`: the calculator and its properties.
- `fixtures.dfy`: the scenarios of the repository's test suite, evaluated in the model.

Modelling choices:

- **Entry values.** `total_value` is an `int`, so every sum is exact and `Math.round` on it is the identity.
- **Ratios.** The ratios are exact `real`s.
- **Filter and sum.** Each filter-and-sum is modelled literally: `Filter` keeps the selected rows in order and `SumValues` folds them from the left. Each is proved equal to the single-pass reference `SelectedSum`.
- **Filter conditions.** The gross margin's filter matches account type `sales` and value type `debit` in any category, exactly as written in the source.
- **Unrecognised entries.** An entry with an unrecognised account type or value type is not excluded from every metric. The revenue and expense filters (src/index.ts:37, 44) test only the category, so such an entry in category `revenue` or `expense` is still counted. The model follows the code here, not the intent that unrecognised entries are ignored everywhere.
- **Division by zero.** Each division-by-zero guard is an explicit branch:
  - both margins return 0 when revenue is 0;
  - the working capital ratio returns 0 when liabilities are at most 0.
- **Ratio contracts.** The contracts state a ratio `r` as `IsQuotient(r, n, d)`, meaning `r * d == n`. `QuotientIsUnique` shows that this pins `r` down.

## Model

| member | source | states |
|---|---|---|
| Metrics.NewCalculator | src/index.ts:13-20 | the entries are kept as given; an absent currency symbol becomes "$" and absent decimal places become 1; a given option overrides its default |
| Metrics.Calculator.FormatCurrency | src/index.ts:23-27 | the text is the currency symbol followed by en-US grouped digits with no leading zero (unless the amount is 0) and a "-" exactly when the value is negative, and those digits read back (via `ParseLocaleInt`) as exactly the value |
| Metrics.CurrencyTextIsDetermined | src/index.ts:23-27 | any text meeting the currency contract is the text `FormatCurrency` returns, so the contract admits one text per value |
| Metrics.Calculator.FormatPercentage | src/index.ts:30-32 | the text ends in "%"; the rest starts with "-" exactly when value·100 < 0, has an integer part with no leading zero unless it is "0", has exactly `decimalPlaces` fraction digits, and reads back as the integer nearest to \|value·100\|·10^places (the larger on a tie) with the value's sign |
| Metrics.PercentageTextIsDetermined | src/index.ts:30-32 | any text meeting the percentage contract is the text `FormatPercentage` returns |
| Metrics.PercentDigitsAreDetermined | src/index.ts:31 | a text in `toFixed` form followed by "%", signed as x and reading as x, is `x.toFixed(places)` followed by "%" |
| Metrics.Calculator.CalculateRevenue | src/index.ts:35-39 | equals the sum of `totalValue` over the entries in category "revenue", whatever their value type; non-negative when every value is; 0 when no entry is in that category |
| Metrics.Calculator.CalculateExpenses | src/index.ts:42-46 | equals the sum over the entries in category "expense"; non-negative when every value is; 0 when none is in that category |
| Metrics.Selects | src/index.ts:37-112 | the filter conditions, one per selector: category "revenue" (line 37), category "expense" (44), type "sales" and value type "debit" in any category (56-57), current asset debits and credits (78-84, 88-94), current liability credits and debits (101-104, 109-112) |
| Metrics.Filter | src/index.ts:36-37 | an entry is in the result exactly when it is in the input and the selector accepts it; the result is no longer than the input |
| Metrics.FilterKeepsMultiplicity | src/index.ts:36-37 | every selected entry occurs in the result as often as in the input, and every other entry not at all |
| Metrics.FilterAppend | src/index.ts:36-37 | filtering a concatenation is the concatenation of the filtered parts, so the filter keeps the input order |
| Metrics.SumValues | src/index.ts:38 | the `reduce` from 0 adding each row's value, left to right (the same fold at lines 45, 59, 85, 95, 106 and 114); its properties are stated by `SumValuesAppend` and `FilterSumIsSelectedSum` |
| Metrics.FilterSumIsSelectedSum | src/index.ts:36-38 | the filter-then-reduce chain equals the single-pass conditional sum `SelectedSum` for every selector |
| Metrics.SumValuesAppend | src/index.ts:38 | the left-fold sum of a concatenation is the sum of the two parts |
| Metrics.SelectedSumAppend | src/index.ts:36-38 | every selected sum distributes over concatenation of entry lists |
| Metrics.SelectedSumBounds | src/index.ts:36-38 | a selected sum is 0 when no entry is selected, and non-negative when all values are non-negative |
| Metrics.Calculator.CalculateGrossProfitMargin | src/index.ts:49-62 | 0 when revenue is 0; otherwise the quotient of the sales-debit sum (type "sales", value type "debit", any category) by revenue |
| Metrics.GrossMarginIgnoresCategory | src/index.ts:54-59 | changing only the categories of the entries never changes the gross profit margin |
| Metrics.Calculator.CalculateNetProfitMargin | src/index.ts:65-70 | 0 when revenue is 0, whatever the expenses; otherwise the quotient (revenue − expenses) / revenue, unclamped; for positive revenue it is negative exactly when expenses exceed revenue and above 1 exactly when expenses are negative |
| Metrics.Calculator.Assets | src/index.ts:75-95 | debits minus credits over asset entries of type current, bank or current_accounts_receivable, equal to the per-entry signed balance `NetBalance` |
| Metrics.Calculator.Liabilities | src/index.ts:98-114 | credits minus debits over liability entries of type current or current_accounts_payable, equal to the per-entry signed balance `NetBalance` |
| Metrics.NetBalanceSplits | src/index.ts:75-114 | the per-entry signed balance equals the difference of the two filtered sums |
| Metrics.Calculator.CalculateWorkingCapitalRatio | src/index.ts:116 | 0 when liabilities are at most 0; otherwise the quotient of assets by liabilities |
| Metrics.RatioWhenPositive | src/index.ts:116 | the conditional division: 0 for a divisor at most 0, otherwise the quotient |
| Metrics.NoLiabilitiesMeansZeroRatio | src/index.ts:98-116 | when no entry is selected by either liability filter (in particular when there is no liability entry at all) the working capital ratio is 0 |
| Metrics.Calculator.CalculateMetrics | src/index.ts:120-134 | each of the five fields shows the corresponding figure in canonical form: the two amounts as currency text, the three ratios as percentage text with the configured places |
| Metrics.ReportIsDetermined | src/index.ts:120-134 | a report whose five fields meet the contract of `CalculateMetrics` (`ShowsReport`) is the calculator's own report |
| Metrics.QuotientSign | src/index.ts:69 | for a positive divisor, the quotient is negative exactly when the numerator is, and above 1 exactly when the numerator exceeds the divisor; nothing is stated for a negative divisor |
| Metrics.QuotientIsUnique | src/index.ts:61 | for a non-zero divisor at most one number is the quotient, so the ratio contracts determine the ratios |
| Metrics.TotalsDistribute | src/index.ts:35-114 | revenue, expenses, the sales-debit sum, assets and liabilities of a concatenated list are the sums of those of its parts |
| Metrics.UnrecognisedEntriesAreIgnored | src/index.ts:37-112 | an entry outside the four categories revenue, expense, assets and liability that is not a sales debit is selected by no filter; so is an entry outside revenue and expense whose value type no filter names, or whose account type no filter names; a sales debit is always selected, whatever its category |
| Metrics.IgnoredEntryChangesNoMetric | src/index.ts:35-134 | inserting an entry that no filter selects, anywhere in the list, leaves revenue, expenses, the gross margin at every revenue, the working capital ratio and the whole report unchanged |
| Metrics.IgnoredEntryKeepsTotals | src/index.ts:35-114 | inserting an entry that no filter selects leaves revenue, expenses, the sales-debit sum, assets and liabilities unchanged |
| Metrics.IgnoredEntryKeepsSum | src/index.ts:36-38 | inserting an entry that no filter selects leaves each of the seven filtered sums unchanged |
| Metrics.SameTotalsSameRatios | src/index.ts:49-117 | calculators that agree on the sales-debit sum, assets and liabilities agree on both ratios |
| Metrics.SameTotalsSameReport | src/index.ts:120-134 | calculators with the same options and the same totals produce the same report |
| Metrics.SelectedSumReadsFiguresOnly | src/index.ts:36-38 | a selected sum depends only on category, type, value type and value of each entry |
| Metrics.DescriptiveFieldsAreNotRead | src/index.ts:120-134 | account name, code and currency never influence the report |
| Decimal.NatToString | src/index.ts:24-31 | the decimal digits of n, with no leading zero unless the text is "0" (`Canonical`); it starts with '0' only for 0 |
| Decimal.StringToNatOfNatToString | src/index.ts:24-31 | reading back the digits of n gives n |
| NumberFormat.RoundHalfUp | src/index.ts:31 | the result is the integer nearest to its argument, the larger one on a tie |
| NumberFormat.PadLeft | src/index.ts:31 | zero-padding to a width: at least the width and the input's length, exactly the width when the input is shorter, the input itself otherwise, and the same value |
| NumberFormat.ToFixed | src/index.ts:31 | the text starts with "-" exactly when x < 0; after the sign, its integer part has no leading zero unless it is "0" and is followed by exactly f fraction digits; it reads back as the integer nearest to \|x\|·10^f (the larger on a tie) with the sign of x |
| NumberFormat.ToFixedIsDetermined | src/index.ts:31 | any text meeting the contract of `ToFixed` for x and f is `ToFixed(x, f)` |
| NumberFormat.NearestIsUnique | src/index.ts:31 | at most one integer is the nearest-with-sign reading of x at f places |
| NumberFormat.FixedFormIsUnique | src/index.ts:31 | two unsigned texts in `toFixed` form that read as the same number are equal |
| NumberFormat.FixedError | src/index.ts:31 | the number `x.toFixed(f)` denotes is within half a unit in its last place of x |
| NumberFormat.PlaceDecimalPoint | src/index.ts:31 | for a digit string with no leading zero, the point is inserted f places from the right with zero-padding so that the integer part is exactly "0" or has no leading zero; the text reads back as the same integer |
| NumberFormat.ThreeDigits | src/index.ts:24-26 | a number below 1000 as exactly three digits, zero-padded, reading back as the number |
| NumberFormat.GroupThousands | src/index.ts:24-26 | the text is well grouped: one to three leading digits, then comma-separated groups of exactly three; it starts with 0 only when it is "0" and the number is 0 |
| NumberFormat.GroupedIsDetermined | src/index.ts:24-26 | a well-grouped text without a leading zero is the grouped text of the number it reads as |
| NumberFormat.ParseGrouped | src/index.ts:24-26 | the reader accepts exactly the well-grouped strings |
| NumberFormat.ParseGroupedOfGroupThousands | src/index.ts:24-26 | reading back the grouped text of n gives n |
| NumberFormat.IntToLocaleString | src/index.ts:24-26 | the text starts with "-" exactly when the integer is negative (never "-0"), the rest is grouped without a leading zero, and it reads back as exactly the integer |
| NumberFormat.LocaleIsDetermined | src/index.ts:24-26 | any text in that form reading as v is `IntToLocaleString(v)` |
| Decimal.CanonicalIsUnique | src/index.ts:24-31 | two digit strings without leading zeros that denote the same number are equal |
| Fixtures.SampleFigures | tests/index.test.ts:70-86 | for the nine sample rows, revenue is 150000 and expenses 40000 (assets 110000, liabilities 30000) |
| Fixtures.SampleRatios | tests/index.test.ts:88-127 | for the sample rows the gross margin is 2/3, the net margin 11/15 and the working capital ratio 11/3 |
| Fixtures.SampleReport | tests/index.test.ts:130-139 | with default options the report reads "$150,000", "$40,000", "66.7%", "73.3%", "366.7%" |
| Fixtures.CustomOptionsReport | tests/index.test.ts:141-151 | with "€" and 2 places the revenue reads "€150,000" and the gross margin "66.67%" |
| Fixtures.ZeroRevenueReport | tests/index.test.ts:155-170 | with a single expense row the revenue reads "$0" and both margins read "0.0%" |
| Fixtures.ZeroLiabilitiesReport | tests/index.test.ts:172-191 | with no liability rows the working capital ratio reads "0.0%" |

## Left out

- `main` (src/index.ts:137 onwards) is left out: it reads `data.json`, parses JSON, logs and exits, which is all I/O.
- IEEE-754 arithmetic is left out. The ratios are exact rationals and `toFixed` rounds them exactly, so where a binary double lands on the other side of a rounding tie the source may print a different last digit.
- `NumberFormat.ToFixed` does not model `toFixed` for |x| ≥ 10^21, where JavaScript switches to exponent notation. It also does not model the RangeError for a negative `decimalPlaces` or one above 100, nor the truncation of a fractional `decimalPlaces`; `decimalPlaces` is a natural number here.
- `NumberFormat.IntToLocaleString` models only the en-US locale, whose grouping the tests assert. Other locales' separators and digit sets are left out.
- `Metrics.Calculator.FormatCurrency` takes an integer. `Math.round` on a fractional value is left out, because entry values are whole numbers and the amounts are sums of them.
- `Metrics.NewCalculator` does not model an option key present with the value `undefined`. The object spread would then override the default with `undefined`; here an option is either absent or given.
- Malformed entries are left out: missing fields, non-numeric values and NaN. The core has no handling for them.
- The constructor keeps a reference to the caller's array (src/index.ts:14), so a caller that mutates the array afterwards changes what later calls compute. The model holds an immutable copy of the entries taken at construction, so this aliasing is not modelled.
- Repeated calls give identical results by construction. The calculator is an immutable value and its members are functions, so no separate lemma states this.
