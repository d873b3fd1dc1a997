/**
  The accounting metrics calculator: five figures computed from a list of
  ledger entries, each a filter followed by a sum, and their rendering as
  currency and percentage text.

  The calculator keeps its entries and its resolved options unchanged after
  construction and every operation only reads them, so it is an immutable
  value here and each operation a function of it.
 */
module Metrics {
  import opened Wrappers
  import opened Ledger
  import opened NumberFormat

  const DefaultCurrencySymbol: string := "$"
  const DefaultDecimalPlaces: nat := 1

  /** Account types counted as current assets and as current liabilities. */
  const CurrentAssetTypes: seq<string> := ["current", "bank", "current_accounts_receivable"]
  const CurrentLiabilityTypes: seq<string> := ["current", "current_accounts_payable"]

  /** The options object `{}`: every option left at its default. */
  const NoOptions: Options := Options(None, None)

  // ---------------------------------------------------------------------------
  // Row selection and summation
  // ---------------------------------------------------------------------------

  /** The row filters the metrics are built from. */
  datatype Selector =
    | InCategory(category: string)
    | SalesDebit
    | CurrentAsset(side: string)
    | CurrentLiability(side: string)

  predicate Selects(s: Selector, e: Entry) {
    match s
    case InCategory(c) => e.category == c
    case SalesDebit => e.accountType == "sales" && e.valueType == "debit"
    case CurrentAsset(side) =>
      e.category == "assets" && e.valueType == side && e.accountType in CurrentAssetTypes
    case CurrentLiability(side) =>
      e.category == "liability" && e.valueType == side && e.accountType in CurrentLiabilityTypes
  }

  /** The selected rows, in their original order. */
  function Filter(data: seq<Entry>, s: Selector): (rows: seq<Entry>)
    ensures |rows| <= |data|
    ensures forall e :: e in rows <==> e in data && Selects(s, e)
  {
    if data == [] then []
    else (if Selects(s, data[0]) then [data[0]] else []) + Filter(data[1..], s)
  }

  /** Filtering keeps every selected entry as often as it occurs, and drops every other one. */
  lemma {:induction false} FilterKeepsMultiplicity(data: seq<Entry>, s: Selector)
    ensures forall e :: multiset(Filter(data, s))[e] == if Selects(s, e) then multiset(data)[e] else 0
    decreases |data|
  {
    if data != [] {
      FilterKeepsMultiplicity(data[1..], s);
      assert data == [data[0]] + data[1..];
    }
  }

  /** Filtering a concatenation filters each part and keeps them in order. */
  lemma {:induction false} FilterAppend(a: seq<Entry>, b: seq<Entry>, s: Selector)
    ensures Filter(a + b, s) == Filter(a, s) + Filter(b, s)
    decreases |a|
  {
    if a != [] {
      assert (a + b)[0] == a[0] && (a + b)[1..] == a[1..] + b;
      FilterAppend(a[1..], b, s);
      var head := if Selects(s, a[0]) then [a[0]] else [];
      assert Filter(a, s) == head + Filter(a[1..], s);
      assert Filter(a + b, s) == head + (Filter(a[1..], s) + Filter(b, s));
    } else {
      assert a + b == b;
    }
  }

  /** Adds up the values of `rows` from the first to the last, starting at 0. */
  function SumValues(rows: seq<Entry>): int {
    if rows == [] then 0 else SumValues(rows[..|rows| - 1]) + rows[|rows| - 1].totalValue
  }

  /** Reference definition: one pass adding the value of every selected entry. */
  function SelectedSum(data: seq<Entry>, s: Selector): int {
    if data == [] then 0
    else (if Selects(s, data[0]) then data[0].totalValue else 0) + SelectedSum(data[1..], s)
  }

  /** Reference definition: per entry, `+value` on the `plus` side and `-value` on the `minus` side. */
  function NetBalance(data: seq<Entry>, plus: Selector, minus: Selector): int {
    if data == [] then 0
    else
      (if Selects(plus, data[0]) then data[0].totalValue else 0)
      - (if Selects(minus, data[0]) then data[0].totalValue else 0)
      + NetBalance(data[1..], plus, minus)
  }

  lemma {:induction false} SumValuesAppend(a: seq<Entry>, b: seq<Entry>)
    ensures SumValues(a + b) == SumValues(a) + SumValues(b)
    decreases |b|
  {
    if b != [] {
      assert (a + b)[..|a + b| - 1] == a + b[..|b| - 1];
      SumValuesAppend(a, b[..|b| - 1]);
    } else {
      assert a + b == a;
    }
  }

  /** Filtering then summing is the single-pass conditional sum. */
  lemma {:induction false} FilterSumIsSelectedSum(data: seq<Entry>, s: Selector)
    ensures SumValues(Filter(data, s)) == SelectedSum(data, s)
    decreases |data|
  {
    if data != [] {
      var head := if Selects(s, data[0]) then [data[0]] else [];
      SumValuesAppend(head, Filter(data[1..], s));
      assert SumValues([data[0]]) == SumValues([]) + data[0].totalValue;
      FilterSumIsSelectedSum(data[1..], s);
    }
  }

  /** Every selected sum distributes over concatenation of entry lists. */
  lemma {:induction false} SelectedSumAppend(a: seq<Entry>, b: seq<Entry>, s: Selector)
    ensures SelectedSum(a + b, s) == SelectedSum(a, s) + SelectedSum(b, s)
    decreases |a|
  {
    if a == [] {
      assert a + b == b;
    } else {
      assert (a + b)[1..] == a[1..] + b;
      SelectedSumAppend(a[1..], b, s);
    }
  }

  /** A selected sum is 0 when nothing is selected, and never negative when no value is. */
  lemma {:induction false} SelectedSumBounds(data: seq<Entry>, s: Selector)
    ensures (forall i :: 0 <= i < |data| ==> !Selects(s, data[i])) ==> SelectedSum(data, s) == 0
    ensures (forall i :: 0 <= i < |data| ==> data[i].totalValue >= 0) ==> SelectedSum(data, s) >= 0
    decreases |data|
  {
    if data != [] {
      SelectedSumBounds(data[1..], s);
      assert forall i :: 0 <= i < |data| - 1 ==> data[1..][i] == data[i + 1];
    }
  }

  /** The net balance is the `plus` sum less the `minus` sum. */
  lemma {:induction false} NetBalanceSplits(data: seq<Entry>, plus: Selector, minus: Selector)
    ensures NetBalance(data, plus, minus) == SelectedSum(data, plus) - SelectedSum(data, minus)
    decreases |data|
  {
    if data != [] {
      NetBalanceSplits(data[1..], plus, minus);
    }
  }

  // ---------------------------------------------------------------------------
  // Text forms of the figures
  // ---------------------------------------------------------------------------

  /**
    `s` is `symbol` followed by the en-US text of the integer `value`: comma
    grouped, no leading zero, a minus sign exactly when `value` is negative.
   */
  predicate ShowsCurrency(s: string, symbol: string, value: int) {
    && |symbol| <= |s| && s[..|symbol|] == symbol
    && LocaleForm(s[|symbol|..])
    && ParseLocaleInt(s[|symbol|..]) == Some(value)
  }

  /**
    `s` is a decimal with exactly `places` fraction digits followed by "%", and
    denotes `ratio * 100` rounded to that many places as `toFixed` rounds: no
    leading zero in the integer part, a minus sign exactly when `ratio < 0`.
   */
  predicate ShowsPercentage(s: string, ratio: real, places: nat) {
    && 2 <= |s| && s[|s| - 1] == '%'
    && SignedFixedForm(s[..|s| - 1], places)
    && (s[0] == '-' <==> ratio * 100.0 < 0.0)
    && ParseFixed(s[..|s| - 1], places).Some?
    && NearestFixed(ParseFixed(s[..|s| - 1], places).value, ratio * 100.0, places)
  }

  /** `q` is `n` divided by `d` (for `d != 0`, exactly one `q` qualifies). */
  predicate IsQuotient(q: real, n: int, d: int) {
    q * d as real == n as real
  }

  lemma QuotientTimesDivisor(x: real, y: real)
    requires y != 0.0
    ensures (x / y) * y == x
  {
  }

  // ---------------------------------------------------------------------------
  // The calculator
  // ---------------------------------------------------------------------------

  datatype Calculator = Calculator(data: seq<Entry>, options: Config) {

    /** Currency text: the symbol, then the rounded value with thousands separators. */
    function FormatCurrency(value: int): (s: string)
      ensures ShowsCurrency(s, options.currencySymbol, value)
    {
      var symbol := options.currencySymbol;
      var s := symbol + IntToLocaleString(value);
      assert s[..|symbol|] == symbol && s[|symbol|..] == IntToLocaleString(value);
      s
    }

    /** Percentage text: the value times 100 with `decimalPlaces` fraction digits, then "%". */
    function FormatPercentage(value: real): (s: string)
      ensures ShowsPercentage(s, value, options.decimalPlaces)
    {
      var digits := ToFixed(value * 100.0, options.decimalPlaces);
      var s := digits + "%";
      assert s[..|s| - 1] == digits;
      s
    }

    function CalculateRevenue(): (r: int)
      ensures r == SelectedSum(data, InCategory("revenue"))
      ensures (forall i :: 0 <= i < |data| ==> data[i].totalValue >= 0) ==> r >= 0
      ensures (forall i :: 0 <= i < |data| ==> data[i].category != "revenue") ==> r == 0
    {
      FilterSumIsSelectedSum(data, InCategory("revenue"));
      SelectedSumBounds(data, InCategory("revenue"));
      SumValues(Filter(data, InCategory("revenue")))
    }

    function CalculateExpenses(): (r: int)
      ensures r == SelectedSum(data, InCategory("expense"))
      ensures (forall i :: 0 <= i < |data| ==> data[i].totalValue >= 0) ==> r >= 0
      ensures (forall i :: 0 <= i < |data| ==> data[i].category != "expense") ==> r == 0
    {
      FilterSumIsSelectedSum(data, InCategory("expense"));
      SelectedSumBounds(data, InCategory("expense"));
      SumValues(Filter(data, InCategory("expense")))
    }

    /** Sales debits as a fraction of `revenue`; 0 when `revenue` is 0. */
    function CalculateGrossProfitMargin(revenue: int): (r: real)
      ensures revenue == 0 ==> r == 0.0
      ensures revenue != 0 ==> IsQuotient(r, SelectedSum(data, SalesDebit), revenue)
    {
      if revenue == 0 then 0.0
      else
        var salesDebit := SumValues(Filter(data, SalesDebit));
        FilterSumIsSelectedSum(data, SalesDebit);
        QuotientTimesDivisor(salesDebit as real, revenue as real);
        salesDebit as real / revenue as real
    }

    /** What is left of `revenue` after `expenses`, as a fraction of `revenue`; 0 when `revenue` is 0. */
    function CalculateNetProfitMargin(revenue: int, expenses: int): (r: real)
      ensures revenue == 0 ==> r == 0.0
      ensures revenue != 0 ==> IsQuotient(r, revenue - expenses, revenue)
      ensures revenue > 0 ==> (r < 0.0 <==> expenses > revenue)
      ensures revenue > 0 ==> (r > 1.0 <==> expenses < 0)
    {
      if revenue == 0 then 0.0
      else
        var r := (revenue - expenses) as real / revenue as real;
        QuotientTimesDivisor((revenue - expenses) as real, revenue as real);
        QuotientSign((revenue - expenses) as real, revenue as real);
        r
    }

    /** Current assets: debits less credits on the current asset accounts. */
    function Assets(): (a: int)
      ensures a == NetBalance(data, CurrentAsset("debit"), CurrentAsset("credit"))
    {
      FilterSumIsSelectedSum(data, CurrentAsset("debit"));
      FilterSumIsSelectedSum(data, CurrentAsset("credit"));
      NetBalanceSplits(data, CurrentAsset("debit"), CurrentAsset("credit"));
      SumValues(Filter(data, CurrentAsset("debit"))) - SumValues(Filter(data, CurrentAsset("credit")))
    }

    /** Current liabilities: credits less debits on the current liability accounts. */
    function Liabilities(): (l: int)
      ensures l == NetBalance(data, CurrentLiability("credit"), CurrentLiability("debit"))
    {
      FilterSumIsSelectedSum(data, CurrentLiability("credit"));
      FilterSumIsSelectedSum(data, CurrentLiability("debit"));
      NetBalanceSplits(data, CurrentLiability("credit"), CurrentLiability("debit"));
      SumValues(Filter(data, CurrentLiability("credit"))) - SumValues(Filter(data, CurrentLiability("debit")))
    }

    /** Assets over liabilities; 0 unless liabilities are positive. */
    function CalculateWorkingCapitalRatio(): (r: real)
      ensures Liabilities() <= 0 ==> r == 0.0
      ensures Liabilities() > 0 ==> IsQuotient(r, Assets(), Liabilities())
    {
      RatioWhenPositive(Assets(), Liabilities())
    }

    /** Each of the five fields of `m` shows the corresponding figure of this calculator. */
    predicate ShowsReport(m: MetricsResult) {
      && ShowsCurrency(m.revenue, options.currencySymbol, CalculateRevenue())
      && ShowsCurrency(m.expenses, options.currencySymbol, CalculateExpenses())
      && ShowsPercentage(m.grossProfitMargin,
                         CalculateGrossProfitMargin(CalculateRevenue()), options.decimalPlaces)
      && ShowsPercentage(m.netProfitMargin,
                         CalculateNetProfitMargin(CalculateRevenue(), CalculateExpenses()),
                         options.decimalPlaces)
      && ShowsPercentage(m.workingCapitalRatio, CalculateWorkingCapitalRatio(), options.decimalPlaces)
    }

    function CalculateMetrics(): (m: MetricsResult)
      ensures ShowsReport(m)
    {
      var revenue := CalculateRevenue();
      var expenses := CalculateExpenses();
      var grossProfitMargin := CalculateGrossProfitMargin(revenue);
      var netProfitMargin := CalculateNetProfitMargin(revenue, expenses);
      var workingCapitalRatio := CalculateWorkingCapitalRatio();
      MetricsResult(
        FormatCurrency(revenue),
        FormatCurrency(expenses),
        FormatPercentage(grossProfitMargin),
        FormatPercentage(netProfitMargin),
        FormatPercentage(workingCapitalRatio))
    }
  }

  /** The currency contract admits exactly one text: the one `FormatCurrency` returns. */
  lemma CurrencyTextIsDetermined(c: Calculator, s: string, value: int)
    requires ShowsCurrency(s, c.options.currencySymbol, value)
    ensures s == c.FormatCurrency(value)
  {
    var symbol := c.options.currencySymbol;
    LocaleIsDetermined(s[|symbol|..], value);
    assert s == symbol + s[|symbol|..];
  }

  /** The percentage contract admits exactly one text: the one `FormatPercentage` returns. */
  lemma PercentageTextIsDetermined(c: Calculator, s: string, ratio: real)
    requires ShowsPercentage(s, ratio, c.options.decimalPlaces)
    ensures s == c.FormatPercentage(ratio)
  {
    PercentDigitsAreDetermined(s, ratio * 100.0, c.options.decimalPlaces);
  }

  /** A percentage text is the `toFixed` text of `x` followed by "%" when it is in the form `toFixed` writes and reads as `x`. */
  lemma PercentDigitsAreDetermined(s: string, x: real, places: nat)
    requires 2 <= |s| && s[|s| - 1] == '%' && (s[0] == '-' <==> x < 0.0)
    requires SignedFixedForm(s[..|s| - 1], places) && ParseFixed(s[..|s| - 1], places).Some?
    requires NearestFixed(ParseFixed(s[..|s| - 1], places).value, x, places)
    ensures s == ToFixed(x, places) + "%"
  {
    var digits := s[..|s| - 1];
    assert s == digits + [s[|s| - 1]];
    assert 1 <= |digits| && digits[0] == s[0];
    ToFixedIsDetermined(digits, x, places);
  }

  /**
    The contract of `CalculateMetrics` pins the report down: any report whose
    five texts show the five figures is the calculator's own report.
   */
  lemma ReportIsDetermined(c: Calculator, m: MetricsResult)
    ensures c.ShowsReport(m) ==> m == c.CalculateMetrics()
  {
    if c.ShowsReport(m) {
      var revenue := c.CalculateRevenue();
      var expenses := c.CalculateExpenses();
      CurrencyTextIsDetermined(c, m.revenue, revenue);
      CurrencyTextIsDetermined(c, m.expenses, expenses);
      PercentageTextIsDetermined(c, m.grossProfitMargin, c.CalculateGrossProfitMargin(revenue));
      PercentageTextIsDetermined(c, m.netProfitMargin, c.CalculateNetProfitMargin(revenue, expenses));
      PercentageTextIsDetermined(c, m.workingCapitalRatio, c.CalculateWorkingCapitalRatio());
    }
  }


  /** `assets / liabilities` when `liabilities > 0`, otherwise 0. */
  function RatioWhenPositive(assets: int, liabilities: int): (r: real)
    ensures liabilities <= 0 ==> r == 0.0
    ensures liabilities > 0 ==> IsQuotient(r, assets, liabilities)
  {
    if liabilities > 0 then
      QuotientTimesDivisor(assets as real, liabilities as real);
      assets as real / liabilities as real
    else
      0.0
  }

  lemma QuotientSign(x: real, y: real)
    requires y != 0.0
    ensures y > 0.0 ==> (x / y < 0.0 <==> x < 0.0)
    ensures y > 0.0 ==> (x / y > 1.0 <==> x > y)
  {
    QuotientTimesDivisor(x, y);
  }

  /** The constructor: the entries as given, each option either the caller's or its default. */
  function NewCalculator(data: seq<Entry>, options: Options): (c: Calculator)
    ensures c.data == data
    ensures options.currencySymbol.None? ==> c.options.currencySymbol == DefaultCurrencySymbol
    ensures options.currencySymbol.Some? ==> c.options.currencySymbol == options.currencySymbol.value
    ensures options.decimalPlaces.None? ==> c.options.decimalPlaces == DefaultDecimalPlaces
    ensures options.decimalPlaces.Some? ==> c.options.decimalPlaces == options.decimalPlaces.value
  {
    var symbol := match options.currencySymbol
      case Some(given) => given
      case None => DefaultCurrencySymbol;
    var places := match options.decimalPlaces
      case Some(given) => given
      case None => DefaultDecimalPlaces;
    Calculator(data, Config(symbol, places))
  }

  // ---------------------------------------------------------------------------
  // Properties of the calculator
  // ---------------------------------------------------------------------------

  /** For a non-zero divisor `IsQuotient` pins down a single value. */
  lemma QuotientIsUnique(q1: real, q2: real, n: int, d: int)
    requires d != 0 && IsQuotient(q1, n, d) && IsQuotient(q2, n, d)
    ensures q1 == q2
  {
    assert (q1 - q2) * d as real == 0.0;
  }

  /** An entry that no metric's filter selects. */
  predicate Ignored(e: Entry) {
    && !Selects(InCategory("revenue"), e)
    && !Selects(InCategory("expense"), e)
    && !Selects(SalesDebit, e)
    && !Selects(CurrentAsset("debit"), e)
    && !Selects(CurrentAsset("credit"), e)
    && !Selects(CurrentLiability("credit"), e)
    && !Selects(CurrentLiability("debit"), e)
  }

  /**
    An entry outside the four categories that is not a sales debit is ignored,
    and so is an entry outside revenue and expense whose value type or account
    type no filter names. The revenue and expense filters look at the category
    only, so an entry in those categories counts whatever its types. The
    sales-debit filter does not look at the category, so a sales debit is never
    ignored, whatever its category.
   */
  lemma UnrecognisedEntriesAreIgnored(e: Entry)
    ensures (&& e.category !in ["revenue", "expense", "assets", "liability"]
             && !(e.accountType == "sales" && e.valueType == "debit")) ==> Ignored(e)
    ensures (&& e.category !in ["revenue", "expense"]
             && e.valueType !in ["debit", "credit"]) ==> Ignored(e)
    ensures (&& e.category !in ["revenue", "expense"]
             && e.accountType != "sales"
             && e.accountType !in CurrentAssetTypes
             && e.accountType !in CurrentLiabilityTypes) ==> Ignored(e)
    ensures e.accountType == "sales" && e.valueType == "debit" ==> !Ignored(e)
  {
  }

  /** Every figure the metrics divide or format is additive over concatenated entry lists. */
  lemma TotalsDistribute(a: seq<Entry>, b: seq<Entry>, options: Config)
    ensures var ca, cb, cab := Calculator(a, options), Calculator(b, options), Calculator(a + b, options);
      && cab.CalculateRevenue() == ca.CalculateRevenue() + cb.CalculateRevenue()
      && cab.CalculateExpenses() == ca.CalculateExpenses() + cb.CalculateExpenses()
      && SelectedSum(a + b, SalesDebit) == SelectedSum(a, SalesDebit) + SelectedSum(b, SalesDebit)
      && cab.Assets() == ca.Assets() + cb.Assets()
      && cab.Liabilities() == ca.Liabilities() + cb.Liabilities()
  {
    SelectedSumAppend(a, b, InCategory("revenue"));
    SelectedSumAppend(a, b, InCategory("expense"));
    SelectedSumAppend(a, b, SalesDebit);
    SelectedSumAppend(a, b, CurrentAsset("debit"));
    SelectedSumAppend(a, b, CurrentAsset("credit"));
    SelectedSumAppend(a, b, CurrentLiability("credit"));
    SelectedSumAppend(a, b, CurrentLiability("debit"));
    NetBalanceSplits(a, CurrentAsset("debit"), CurrentAsset("credit"));
    NetBalanceSplits(b, CurrentAsset("debit"), CurrentAsset("credit"));
    NetBalanceSplits(a + b, CurrentAsset("debit"), CurrentAsset("credit"));
    NetBalanceSplits(a, CurrentLiability("credit"), CurrentLiability("debit"));
    NetBalanceSplits(b, CurrentLiability("credit"), CurrentLiability("debit"));
    NetBalanceSplits(a + b, CurrentLiability("credit"), CurrentLiability("debit"));
  }

  /** Calculators that agree on the sales debits and on the current accounts agree on every ratio. */
  lemma SameTotalsSameRatios(c: Calculator, c': Calculator)
    requires SelectedSum(c.data, SalesDebit) == SelectedSum(c'.data, SalesDebit)
    requires c.Assets() == c'.Assets() && c.Liabilities() == c'.Liabilities()
    ensures forall revenue :: c.CalculateGrossProfitMargin(revenue) == c'.CalculateGrossProfitMargin(revenue)
    ensures c.CalculateWorkingCapitalRatio() == c'.CalculateWorkingCapitalRatio()
  {
    forall revenue: int
      ensures c.CalculateGrossProfitMargin(revenue) == c'.CalculateGrossProfitMargin(revenue)
    {
      if revenue != 0 {
        QuotientIsUnique(c.CalculateGrossProfitMargin(revenue), c'.CalculateGrossProfitMargin(revenue),
                         SelectedSum(c.data, SalesDebit), revenue);
      }
    }
    assert c.CalculateWorkingCapitalRatio() == RatioWhenPositive(c'.Assets(), c'.Liabilities());
  }

  /** Calculators that agree on the options and on every total produce the same report. */
  lemma SameTotalsSameReport(c: Calculator, c': Calculator)
    requires c.options == c'.options
    requires c.CalculateRevenue() == c'.CalculateRevenue()
    requires c.CalculateExpenses() == c'.CalculateExpenses()
    requires SelectedSum(c.data, SalesDebit) == SelectedSum(c'.data, SalesDebit)
    requires c.Assets() == c'.Assets() && c.Liabilities() == c'.Liabilities()
    ensures forall revenue :: c.CalculateGrossProfitMargin(revenue) == c'.CalculateGrossProfitMargin(revenue)
    ensures c.CalculateWorkingCapitalRatio() == c'.CalculateWorkingCapitalRatio()
    ensures c.CalculateMetrics() == c'.CalculateMetrics()
  {
    SameTotalsSameRatios(c, c');
    var revenue, expenses := c.CalculateRevenue(), c.CalculateExpenses();
    var gross := c.CalculateGrossProfitMargin(revenue);
    var net := c.CalculateNetProfitMargin(revenue, expenses);
    var ratio := c.CalculateWorkingCapitalRatio();
    assert gross == c'.CalculateGrossProfitMargin(revenue);
    assert net == c'.CalculateNetProfitMargin(revenue, expenses);
    assert c.CalculateMetrics() == MetricsResult(c.FormatCurrency(revenue), c.FormatCurrency(expenses),
      c.FormatPercentage(gross), c.FormatPercentage(net), c.FormatPercentage(ratio));
    assert c'.CalculateMetrics() == MetricsResult(c'.FormatCurrency(revenue), c'.FormatCurrency(expenses),
      c'.FormatPercentage(gross), c'.FormatPercentage(net), c'.FormatPercentage(ratio));
    assert c.FormatCurrency(revenue) == c'.FormatCurrency(revenue);
    assert c.FormatCurrency(expenses) == c'.FormatCurrency(expenses);
    assert c.FormatPercentage(gross) == c'.FormatPercentage(gross);
    assert c.FormatPercentage(net) == c'.FormatPercentage(net);
    assert c.FormatPercentage(ratio) == c'.FormatPercentage(ratio);
  }

  lemma IgnoredEntryAddsNothing(e: Entry, s: Selector)
    requires Ignored(e)
    requires s in [InCategory("revenue"), InCategory("expense"), SalesDebit,
                   CurrentAsset("debit"), CurrentAsset("credit"),
                   CurrentLiability("credit"), CurrentLiability("debit")]
    ensures SelectedSum([e], s) == 0
  {
    assert [e][1..] == [];
  }

  /** Inserting an ignored entry anywhere changes no figure and no line of the report. */
  lemma {:induction false} IgnoredEntryChangesNoMetric(data: seq<Entry>, i: nat, e: Entry, options: Config)
    requires i <= |data| && Ignored(e)
    ensures var c, c' := Calculator(data, options), Calculator(data[..i] + [e] + data[i..], options);
      && c'.CalculateRevenue() == c.CalculateRevenue()
      && c'.CalculateExpenses() == c.CalculateExpenses()
      && (forall revenue :: c'.CalculateGrossProfitMargin(revenue) == c.CalculateGrossProfitMargin(revenue))
      && c'.CalculateWorkingCapitalRatio() == c.CalculateWorkingCapitalRatio()
      && c'.CalculateMetrics() == c.CalculateMetrics()
  {
    var c, c' := Calculator(data, options), Calculator(data[..i] + [e] + data[i..], options);
    IgnoredEntryKeepsTotals(data, i, e, options);
    SameTotalsSameReport(c', c);
  }

  /** The totals behind every metric are unchanged by inserting an ignored entry. */
  lemma IgnoredEntryKeepsTotals(data: seq<Entry>, i: nat, e: Entry, options: Config)
    requires i <= |data| && Ignored(e)
    ensures var c, c' := Calculator(data, options), Calculator(data[..i] + [e] + data[i..], options);
      && c'.CalculateRevenue() == c.CalculateRevenue()
      && c'.CalculateExpenses() == c.CalculateExpenses()
      && SelectedSum(c'.data, SalesDebit) == SelectedSum(c.data, SalesDebit)
      && c'.Assets() == c.Assets() && c'.Liabilities() == c.Liabilities()
  {
    var d' := data[..i] + [e] + data[i..];
    IgnoredEntryKeepsSum(data, i, e, InCategory("revenue"));
    IgnoredEntryKeepsSum(data, i, e, InCategory("expense"));
    IgnoredEntryKeepsSum(data, i, e, SalesDebit);
    IgnoredEntryKeepsSum(data, i, e, CurrentAsset("debit"));
    IgnoredEntryKeepsSum(data, i, e, CurrentAsset("credit"));
    IgnoredEntryKeepsSum(data, i, e, CurrentLiability("credit"));
    IgnoredEntryKeepsSum(data, i, e, CurrentLiability("debit"));
    NetBalanceSplits(data, CurrentAsset("debit"), CurrentAsset("credit"));
    NetBalanceSplits(d', CurrentAsset("debit"), CurrentAsset("credit"));
    NetBalanceSplits(data, CurrentLiability("credit"), CurrentLiability("debit"));
    NetBalanceSplits(d', CurrentLiability("credit"), CurrentLiability("debit"));
  }

  /** One selected sum is unchanged by inserting an ignored entry. */
  lemma IgnoredEntryKeepsSum(data: seq<Entry>, i: nat, e: Entry, s: Selector)
    requires i <= |data| && Ignored(e)
    requires s in [InCategory("revenue"), InCategory("expense"), SalesDebit,
                   CurrentAsset("debit"), CurrentAsset("credit"),
                   CurrentLiability("credit"), CurrentLiability("debit")]
    ensures SelectedSum(data[..i] + [e] + data[i..], s) == SelectedSum(data, s)
  {
    var front, back := data[..i], data[i..];
    assert front + back == data;
    IgnoredEntryAddsNothing(e, s);
    SelectedSumAppend(front, [e], s);
    SelectedSumAppend(front + [e], back, s);
    SelectedSumAppend(front, back, s);
  }

  /** Two entries that agree on everything a metric reads. */
  predicate SameFigures(e: Entry, e': Entry) {
    && e.category == e'.category
    && e.accountType == e'.accountType
    && e.valueType == e'.valueType
    && e.totalValue == e'.totalValue
  }

  lemma {:induction false} SelectedSumReadsFiguresOnly(data: seq<Entry>, data': seq<Entry>, s: Selector)
    requires |data| == |data'|
    requires forall i :: 0 <= i < |data| ==> SameFigures(data[i], data'[i])
    ensures SelectedSum(data, s) == SelectedSum(data', s)
    decreases |data|
  {
    if data != [] {
      assert SameFigures(data[0], data'[0]);
      SelectedSumReadsFiguresOnly(data[1..], data'[1..], s);
    }
  }

  /** Account name, code and currency are carried but never read. */
  lemma DescriptiveFieldsAreNotRead(data: seq<Entry>, data': seq<Entry>, options: Config)
    requires |data| == |data'|
    requires forall i :: 0 <= i < |data| ==> SameFigures(data[i], data'[i])
    ensures Calculator(data, options).CalculateMetrics() == Calculator(data', options).CalculateMetrics()
  {
    SelectedSumReadsFiguresOnly(data, data', InCategory("revenue"));
    SelectedSumReadsFiguresOnly(data, data', InCategory("expense"));
    SelectedSumReadsFiguresOnly(data, data', SalesDebit);
    SelectedSumReadsFiguresOnly(data, data', CurrentAsset("debit"));
    SelectedSumReadsFiguresOnly(data, data', CurrentAsset("credit"));
    SelectedSumReadsFiguresOnly(data, data', CurrentLiability("credit"));
    SelectedSumReadsFiguresOnly(data, data', CurrentLiability("debit"));
    NetBalanceSplits(data, CurrentAsset("debit"), CurrentAsset("credit"));
    NetBalanceSplits(data', CurrentAsset("debit"), CurrentAsset("credit"));
    NetBalanceSplits(data, CurrentLiability("credit"), CurrentLiability("debit"));
    NetBalanceSplits(data', CurrentLiability("credit"), CurrentLiability("debit"));
    SameTotalsSameReport(Calculator(data, options), Calculator(data', options));
  }

  /** With no entry on a current liability account (in particular, no liability entry at all) the ratio is 0. */
  lemma NoLiabilitiesMeansZeroRatio(c: Calculator)
    requires forall i :: 0 <= i < |c.data| ==>
               !Selects(CurrentLiability("credit"), c.data[i]) && !Selects(CurrentLiability("debit"), c.data[i])
    ensures c.CalculateWorkingCapitalRatio() == 0.0
  {
    SelectedSumBounds(c.data, CurrentLiability("credit"));
    SelectedSumBounds(c.data, CurrentLiability("debit"));
    NetBalanceSplits(c.data, CurrentLiability("credit"), CurrentLiability("debit"));
  }

  /** Two entries that differ at most in their category. */
  predicate SameButCategory(e: Entry, e': Entry) {
    && e.accountType == e'.accountType
    && e.valueType == e'.valueType
    && e.totalValue == e'.totalValue
  }

  /** The gross profit margin's numerator does not look at the category. */
  lemma {:induction false} GrossMarginIgnoresCategory(data: seq<Entry>, data': seq<Entry>, options: Config, revenue: int)
    requires |data| == |data'|
    requires forall i :: 0 <= i < |data| ==> SameButCategory(data[i], data'[i])
    ensures Calculator(data, options).CalculateGrossProfitMargin(revenue)
            == Calculator(data', options).CalculateGrossProfitMargin(revenue)
    decreases |data|
  {
    if revenue != 0 {
      SalesDebitIgnoresCategory(data, data');
      QuotientIsUnique(Calculator(data, options).CalculateGrossProfitMargin(revenue),
                       Calculator(data', options).CalculateGrossProfitMargin(revenue),
                       SelectedSum(data, SalesDebit), revenue);
    }
  }

  lemma {:induction false} SalesDebitIgnoresCategory(data: seq<Entry>, data': seq<Entry>)
    requires |data| == |data'|
    requires forall i :: 0 <= i < |data| ==> SameButCategory(data[i], data'[i])
    ensures SelectedSum(data, SalesDebit) == SelectedSum(data', SalesDebit)
    decreases |data|
  {
    if data != [] {
      assert SameButCategory(data[0], data'[0]);
      SalesDebitIgnoresCategory(data[1..], data'[1..]);
    }
  }
}
