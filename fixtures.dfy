/** The calculator's documented scenarios, checked against the model. */
module Fixtures {
  import opened Wrappers
  import opened Ledger
  import opened Metrics
  import opened Decimal
  import opened NumberFormat

  function Row(category: string, accountType: string, valueType: string, totalValue: int): Entry {
    Entry(category, accountType, valueType, totalValue, None, None, None)
  }

  /** Two revenue rows, two expense rows, three asset rows and two liability rows. */
  function SampleData(): seq<Entry> {
    [
    Row("revenue", "sales", "debit", 100000),
    Row("revenue", "services", "debit", 50000),
    Row("expense", "operational", "credit", 30000),
    Row("expense", "marketing", "credit", 10000),
    Row("assets", "current", "debit", 80000),
    Row("assets", "bank", "debit", 50000),
    Row("assets", "current_accounts_receivable", "credit", 20000),
    Row("liability", "current", "credit", 40000),
    Row("liability", "current_accounts_payable", "debit", 10000)
    ]
  }

  /** The figures behind the sample report, whatever the options. */
  lemma SampleFigures(c: Calculator)
    requires c.data == SampleData()
    ensures c.CalculateRevenue() == 150000
    ensures c.CalculateExpenses() == 40000
    ensures c.Assets() == 110000
    ensures c.Liabilities() == 30000
  {
    assert SelectedSum(SampleData(), InCategory("revenue")) == 150000;
    assert SelectedSum(SampleData(), InCategory("expense")) == 40000;
    SampleCurrentAssets();
    SampleCurrentLiabilities();
    NetBalanceSplits(SampleData(), CurrentAsset("debit"), CurrentAsset("credit"));
    NetBalanceSplits(SampleData(), CurrentLiability("credit"), CurrentLiability("debit"));
  }

  /** The current asset totals on each side. */
  lemma SampleCurrentAssets()
    ensures SelectedSum(SampleData(), CurrentAsset("debit")) == 130000
    ensures SelectedSum(SampleData(), CurrentAsset("credit")) == 20000
  {
    assert SelectedSum(SampleData()[4..], CurrentAsset("debit")) == 130000;
    assert SelectedSum(SampleData()[4..], CurrentAsset("credit")) == 20000;
  }

  /** The current liability totals on each side. */
  lemma SampleCurrentLiabilities()
    ensures SelectedSum(SampleData(), CurrentLiability("credit")) == 40000
    ensures SelectedSum(SampleData(), CurrentLiability("debit")) == 10000
  {
    assert SelectedSum(SampleData()[7..], CurrentLiability("credit")) == 40000;
    assert SelectedSum(SampleData()[7..], CurrentLiability("debit")) == 10000;
  }

  /** The sales debits behind the gross margin. */
  lemma SampleSalesDebit()
    ensures SelectedSum(SampleData(), SalesDebit) == 100000
  {
    assert SelectedSum(SampleData(), SalesDebit) == 100000;
  }

  /** The three ratios of the sample data, whatever the options. */
  lemma SampleRatios(c: Calculator)
    requires c.data == SampleData()
    ensures c.CalculateGrossProfitMargin(c.CalculateRevenue()) == 2.0 / 3.0
    ensures c.CalculateNetProfitMargin(c.CalculateRevenue(), c.CalculateExpenses()) == 11.0 / 15.0
    ensures c.CalculateWorkingCapitalRatio() == 11.0 / 3.0
  {
    SampleFigures(c);
    SampleSalesDebit();
    QuotientIsUnique(c.CalculateGrossProfitMargin(150000), 2.0 / 3.0, 100000, 150000);
    QuotientIsUnique(c.CalculateNetProfitMargin(150000, 40000), 11.0 / 15.0, 110000, 150000);
    QuotientIsUnique(c.CalculateWorkingCapitalRatio(), 11.0 / 3.0, 110000, 30000);
  }

  /** `toFixed` of a non-negative number is its rounded integer's digits with the point placed. */
  lemma NonNegativeToFixed(x: real, f: nat, n: nat)
    requires x >= 0.0 && RoundHalfUp(Abs(x) * Scale(f)) == n
    ensures ToFixed(x, f) == PlaceDecimalPoint(NatToString(n), f)
  {
  }

  /** `(2/3 * 100).toFixed(1)`. */
  lemma GrossMarginDigits()
    ensures ToFixed(2.0 / 3.0 * 100.0, 1) == "66.7"
  {
    assert Abs(2.0 / 3.0 * 100.0) * Scale(1) == 2000.0 / 3.0;
    assert RoundHalfUp(2000.0 / 3.0) == 667;
    NonNegativeToFixed(2.0 / 3.0 * 100.0, 1, 667);
    assert NatToString(667) == "667";
    assert PlaceDecimalPoint("667", 1) == "66.7";
  }

  /** `(2/3 * 100).toFixed(2)`. */
  lemma GrossMarginTwoPlaces()
    ensures ToFixed(2.0 / 3.0 * 100.0, 2) == "66.67"
  {
    assert Pow10(2) == 100;
    assert Abs(2.0 / 3.0 * 100.0) * Scale(2) == 20000.0 / 3.0;
    assert RoundHalfUp(20000.0 / 3.0) == 6667;
    NonNegativeToFixed(2.0 / 3.0 * 100.0, 2, 6667);
    assert NatToString(6667) == "6667";
    assert PlaceDecimalPoint("6667", 2) == "66.67";
  }

  /** `(11/15 * 100).toFixed(1)`. */
  lemma NetMarginDigits()
    ensures ToFixed(11.0 / 15.0 * 100.0, 1) == "73.3"
  {
    assert Abs(11.0 / 15.0 * 100.0) * Scale(1) == 2200.0 / 3.0;
    assert RoundHalfUp(2200.0 / 3.0) == 733;
    NonNegativeToFixed(11.0 / 15.0 * 100.0, 1, 733);
    assert NatToString(733) == "733";
    assert PlaceDecimalPoint("733", 1) == "73.3";
  }

  /** `(11/3 * 100).toFixed(1)`. */
  lemma CapitalRatioDigits()
    ensures ToFixed(11.0 / 3.0 * 100.0, 1) == "366.7"
  {
    assert Abs(11.0 / 3.0 * 100.0) * Scale(1) == 11000.0 / 3.0;
    assert RoundHalfUp(11000.0 / 3.0) == 3667;
    NonNegativeToFixed(11.0 / 3.0 * 100.0, 1, 3667);
    assert NatToString(3667) == "3667";
    assert PlaceDecimalPoint("3667", 1) == "366.7";
  }

  /** The en-US text of a non-negative integer is its grouped digits, unsigned. */
  lemma NonNegativeLocale(n: nat)
    ensures IntToLocaleString(n) == GroupThousands(n)
  {
  }

  /** The sample revenue, grouped in thousands. */
  lemma RevenueDigits()
    ensures IntToLocaleString(150000) == "150,000"
  {
    NonNegativeLocale(150000);
    assert NatToString(150) == "150";
    assert GroupThousands(150) == "150";
    assert ThreeDigits(0) == "000";
    assert GroupThousands(150000) == "150" + "," + "000";
  }

  /** The sample expenses, grouped in thousands. */
  lemma ExpensesDigits()
    ensures IntToLocaleString(40000) == "40,000"
  {
    NonNegativeLocale(40000);
    assert NatToString(40) == "40";
    assert GroupThousands(40) == "40";
    assert ThreeDigits(0) == "000";
    assert GroupThousands(40000) == "40" + "," + "000";
  }

  /** The sample report with default options. */
  lemma SampleReport()
    ensures NewCalculator(SampleData(), NoOptions).CalculateMetrics()
            == MetricsResult("$150,000", "$40,000", "66.7%", "73.3%", "366.7%")
  {
    var c := NewCalculator(SampleData(), NoOptions);
    assert c.options == Config("$", 1);
    SampleFigures(c);
    SampleRatios(c);
    DefaultAmounts(c);
    DefaultGrossMargin(c);
    DefaultNetMargin(c);
    DefaultCapitalRatio(c);
  }

  /** With the default options the sample amounts read as in the report. */
  lemma DefaultAmounts(c: Calculator)
    requires c.options == Config("$", 1)
    ensures c.FormatCurrency(150000) == "$150,000"
    ensures c.FormatCurrency(40000) == "$40,000"
  {
    RevenueDigits();
    ExpensesDigits();
  }

  /** With the default options the sample gross margin reads as in the report. */
  lemma DefaultGrossMargin(c: Calculator)
    requires c.options == Config("$", 1)
    ensures c.FormatPercentage(2.0 / 3.0) == "66.7%"
  {
    GrossMarginDigits();
  }

  /** With the default options the sample net margin reads as in the report. */
  lemma DefaultNetMargin(c: Calculator)
    requires c.options == Config("$", 1)
    ensures c.FormatPercentage(11.0 / 15.0) == "73.3%"
  {
    NetMarginDigits();
  }

  /** With the default options the sample working capital ratio reads as in the report. */
  lemma DefaultCapitalRatio(c: Calculator)
    requires c.options == Config("$", 1)
    ensures c.FormatPercentage(11.0 / 3.0) == "366.7%"
  {
    CapitalRatioDigits();
  }

  /** The sample report with the options `{ currencySymbol: "€", decimalPlaces: 2 }`. */
  lemma CustomOptionsReport()
    ensures NewCalculator(SampleData(), Options(Some("€"), Some(2))).CalculateMetrics().revenue == "€150,000"
    ensures NewCalculator(SampleData(), Options(Some("€"), Some(2))).CalculateMetrics().grossProfitMargin == "66.67%"
  {
    var c := NewCalculator(SampleData(), Options(Some("€"), Some(2)));
    assert c.options == Config("€", 2);
    SampleFigures(c);
    SampleRatios(c);
    CustomRevenue(c);
    CustomGrossMargin(c);
  }

  /** With the euro sign the sample revenue reads as in the report. */
  lemma CustomRevenue(c: Calculator)
    requires c.options.currencySymbol == "€"
    ensures c.FormatCurrency(150000) == "€150,000"
  {
    RevenueDigits();
  }

  /** With two places the sample gross margin reads as in the report. */
  lemma CustomGrossMargin(c: Calculator)
    requires c.options.decimalPlaces == 2
    ensures c.FormatPercentage(2.0 / 3.0) == "66.67%"
  {
    GrossMarginTwoPlaces();
  }

  /** One expense row and nothing else. */
  function ZeroRevenueData(): seq<Entry> {
    [Row("expense", "operational", "credit", 10000)]
  }

  /** With no revenue both margins fall back to 0 and read "0.0%". */
  lemma ZeroRevenueReport()
    ensures NewCalculator(ZeroRevenueData(), NoOptions).CalculateMetrics().revenue == "$0"
    ensures NewCalculator(ZeroRevenueData(), NoOptions).CalculateMetrics().grossProfitMargin == "0.0%"
    ensures NewCalculator(ZeroRevenueData(), NoOptions).CalculateMetrics().netProfitMargin == "0.0%"
  {
    var c := NewCalculator(ZeroRevenueData(), NoOptions);
    assert c.options == Config("$", 1);
    assert SelectedSum(ZeroRevenueData(), InCategory("revenue")) == 0;
    assert c.CalculateRevenue() == 0;
    ZeroTexts(c);
  }

  /** With the default options 0 reads "$0" and "0.0%". */
  lemma ZeroTexts(c: Calculator)
    requires c.options == Config("$", 1)
    ensures c.FormatCurrency(0) == "$0"
    ensures c.FormatPercentage(0.0) == "0.0%"
  {
    assert IntToLocaleString(0) == "0";
    assert RoundHalfUp(Abs(0.0 * 100.0) * Scale(1)) == 0;
    assert PlaceDecimalPoint("0", 1) == "0.0";
  }

  /** A sale and a current asset, but no liability rows. */
  function ZeroLiabilitiesData(): seq<Entry> {
    [
    Row("revenue", "sales", "debit", 100000),
    Row("assets", "current", "debit", 50000)
    ]
  }

  /** With no current liabilities the working capital ratio falls back to 0 and reads "0.0%". */
  lemma ZeroLiabilitiesReport()
    ensures NewCalculator(ZeroLiabilitiesData(), NoOptions).CalculateMetrics().workingCapitalRatio == "0.0%"
  {
    var c := NewCalculator(ZeroLiabilitiesData(), NoOptions);
    assert c.options == Config("$", 1);
    assert SelectedSum(ZeroLiabilitiesData(), CurrentLiability("credit")) == 0;
    assert SelectedSum(ZeroLiabilitiesData(), CurrentLiability("debit")) == 0;
    NetBalanceSplits(ZeroLiabilitiesData(), CurrentLiability("credit"), CurrentLiability("debit"));
    assert c.Liabilities() == 0;
    ZeroTexts(c);
  }
}
