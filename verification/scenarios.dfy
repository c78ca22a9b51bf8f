/**
  Small tables worked through the model, showing its figures on concrete
  data: a three-row table with an unparseable date, and ties.
 */
module Scenarios {
  import opened Lex
  import opened Months
  import opened Table
  import opened Groups
  import opened Report
  import opened Wrappers

  /** Three sales, the last with an unparseable date. */
  const Sales: seq<Transaction> := [
    Transaction("A", "X", 100, Timestamp(2024, 1, 5)),
    Transaction("B", "X", 200, Timestamp(2024, 2, 10)),
    Transaction("A", "Y", 50, NaT)]

  const Jan: Record := Record("A", "X", 100, "2024-01")
  const Feb: Record := Record("B", "X", 200, "2024-02")
  const Unknown: Record := Record("A", "Y", 50, "NaT")

  lemma YearDigits()
    ensures Digits(2024, 4) == "2024"
  {
    assert Digits(2, 1) == "2";
    assert Digits(20, 2) == "20";
    assert Digits(202, 3) == "202";
  }

  lemma MonthDigits()
    ensures Digits(1, 2) == "01" && Digits(2, 2) == "02"
  {
    assert Digits(0, 1) == "0";
  }

  lemma SalesPrepared()
    ensures Prepare(Sales) == [Jan, Feb, Unknown]
  {
    YearDigits();
    MonthDigits();
    assert Label(Timestamp(2024, 1, 5)) == "2024-01";
    assert Label(Timestamp(2024, 2, 10)) == "2024-02";
  }

  /** The category rollup of the three-row table, before sorting. */
  lemma SalesCategories()
    ensures Group([Jan, Feb, Unknown], Category, AfterDiscount) == [Entry("A", 150), Entry("B", 200)]
  {
    assert [Jan, Feb, Unknown][1..] == [Feb, Unknown] && [Feb, Unknown][1..] == [Unknown];
    assert Less("A", "B") && !Less("B", "A");
    assert Group([Unknown], Category, AfterDiscount) == [Entry("A", 50)];
    assert AddTo([Entry("A", 50)], "B", 200) == [Entry("A", 50), Entry("B", 200)];
  }

  /** Total sales and the best-selling category of the three-row table. */
  lemma SalesSummary()
    ensures TotalSales(Prepare(Sales)) == 350
    ensures TransactionCount(Prepare(Sales)) == 3
    ensures TopCategory(Prepare(Sales)) == Some("B")
  {
    SalesPrepared();
    SalesCategories();
    assert [Jan, Feb, Unknown][1..] == [Feb, Unknown] && [Feb, Unknown][1..] == [Unknown];
    assert Total([Unknown], AfterDiscount) == 50;
    assert Total([Feb, Unknown], AfterDiscount) == 250;
  }

  /** The payment methods of the three-row table, grouped and counted. */
  lemma SalesPayments()
    ensures Group([Jan, Feb, Unknown], PaymentMethod, Rows) == [Entry("X", 2), Entry("Y", 1)]
  {
    assert [Jan, Feb, Unknown][1..] == [Feb, Unknown] && [Feb, Unknown][1..] == [Unknown];
    assert Less("X", "Y") && !Less("Y", "X");
    assert Group([Unknown], PaymentMethod, Rows) == [Entry("Y", 1)];
    assert AddTo([Entry("Y", 1)], "X", 1) == [Entry("X", 1), Entry("Y", 1)];
    assert AddTo([Entry("X", 1), Entry("Y", 1)], "X", 1) == [Entry("X", 2), Entry("Y", 1)];
  }

  /** Two of the three sales are paid with "X", which is the most used method. */
  lemma SalesPaymentMethod()
    ensures TopPaymentMethod(Prepare(Sales)) == Some("X")
  {
    SalesPrepared();
    SalesPayments();
    assert MaxIndex([Entry("X", 2), Entry("Y", 1)]) == 0;
  }

  lemma SalesLabelsAscend()
    ensures Less("2024-01", "2024-02") && Less("2024-02", "NaT")
  {
    assert "2024-01"[1..] == "024-01" && "2024-02"[1..] == "024-02";
  }

  /** The last two rows fall into February and the "NaT" bucket. */
  lemma LaterMonths()
    ensures Group([Feb, Unknown], Month, AfterDiscount) == [Entry("2024-02", 200), Entry("NaT", 50)]
  {
    assert [Feb, Unknown][1..] == [Unknown];
    SalesLabelsAscend();
    assert Group([Unknown], Month, AfterDiscount) == [Entry("NaT", 50)];
    assert AddTo([Entry("NaT", 50)], "2024-02", 200) == [Entry("2024-02", 200), Entry("NaT", 50)];
  }

  /** January sorts before both later buckets, so it is inserted at the front. */
  lemma JanuaryFirst()
    ensures AddTo([Entry("2024-02", 200), Entry("NaT", 50)], "2024-01", 100)
      == [Entry("2024-01", 100), Entry("2024-02", 200), Entry("NaT", 50)]
  {
    SalesLabelsAscend();
  }

  /** The monthly chart of the three-row table ends with the "NaT" bucket. */
  lemma SalesMonths()
    ensures MonthlyRollup(Prepare(Sales)) == [Entry("2024-01", 100), Entry("2024-02", 200), Entry("NaT", 50)]
  {
    SalesPrepared();
    LaterMonths();
    JanuaryFirst();
    assert [Jan, Feb, Unknown][1..] == [Feb, Unknown];
  }

  /** In the three-row table the peak month is February. */
  lemma SalesPeak()
    ensures PeakMonth(Prepare(Sales)) == Some("2024-02")
  {
    SalesMonths();
    var months := [Entry("2024-01", 100), Entry("2024-02", 200), Entry("NaT", 50)];
    assert months[..2][..1] == [months[0]];
    assert MaxIndex(months[..2]) == 1;
    assert MaxIndex(months) == 1;
  }

  /** Leaving out the "NaT" bucket of the three-row table's months. */
  lemma SalesDatedMonths()
    ensures DatedMonths(MonthlyRollup(Prepare(Sales))) == [Entry("2024-01", 100), Entry("2024-02", 200)]
  {
    SalesMonths();
    var months := [Entry("2024-01", 100), Entry("2024-02", 200), Entry("NaT", 50)];
    assert months[1..] == [months[1], months[2]] && months[2..] == [Entry("NaT", 50)];
    assert DatedMonths(months[2..]) == [];
    assert DatedMonths(months[1..]) == [months[1]];
  }

  /**
    The header of the three-row table as written ends at "NaT", while the
    corrected range ends at "2024-02".
   */
  lemma SalesRange()
    ensures MonthRangeAsWritten(Prepare(Sales)) == Some(("2024-01", "NaT"))
    ensures MonthRange(Prepare(Sales)) == Some(("2024-01", "2024-02"))
  {
    SalesMonths();
    SalesDatedMonths();
  }

  /** The dashboard built from the three-row table prints "2024-01 hingga NaT" in its header. */
  lemma SalesHeader()
    ensures Build(Sales).Ok?
    ensures Build(Sales).value.monthRange == Some(("2024-01", "NaT"))
  {
    SalesRange();
    assert Build(Sales).value == Figures(Prepare(Sales));
  }

  const Sport: Record := Record("Sport", "Transfer", 70, "2022-05")
  const Food: Record := Record("Food", "COD", 70, "2022-05")

  /** Two categories with equal totals: `idxmax` picks the one whose name sorts first. */
  lemma TiedCategories()
    ensures TopCategory([Sport, Food]) == Some("Food")
  {
    assert [Sport, Food][1..] == [Food];
    assert Less("Food", "Sport") && !Less("Sport", "Food");
    assert Group([Food], Category, AfterDiscount) == [Entry("Food", 70)];
    assert AddTo([Entry("Food", 70)], "Sport", 70) == [Entry("Food", 70), Entry("Sport", 70)];
    assert Group([Sport, Food], Category, AfterDiscount) == [Entry("Food", 70), Entry("Sport", 70)];
  }

  /** The payment methods of the tied table, grouped and counted. */
  lemma TiedPaymentGroup()
    ensures Group([Sport, Food], PaymentMethod, Rows) == [Entry("COD", 1), Entry("Transfer", 1)]
  {
    assert [Sport, Food][1..] == [Food];
    assert Less("COD", "Transfer") && !Less("Transfer", "COD");
    assert Group([Food], PaymentMethod, Rows) == [Entry("COD", 1)];
    assert AddTo([Entry("COD", 1)], "Transfer", 1) == [Entry("COD", 1), Entry("Transfer", 1)];
  }

  /** Two methods used once each: `mode()[0]` picks the smaller name. */
  lemma TiedPaymentMethods()
    ensures TopPaymentMethod([Sport, Food]) == Some("COD")
  {
    TiedPaymentGroup();
    assert MaxIndex([Entry("COD", 1), Entry("Transfer", 1)]) == 0;
  }

  /**
    With only two methods the "Lainnya" slice is 0, and still present. The
    two methods tie, so only which names appear is fixed, not their order.
   */
  lemma TiedPaymentChart()
    ensures var c := PaymentChart(PaymentShares([Sport, Food]));
      && |c| == 3
      && c[0].fraction == 0.5 && c[1].fraction == 0.5
      && {c[0].name, c[1].name} == {"COD", "Transfer"}
      && c[2] == Share(OtherLabel, 0.0)
  {
    TiedPaymentGroup();
    TiedShares();
    var s := [Share("COD", 0.5), Share("Transfer", 0.5)];
    assert PaymentShares([Sport, Food]) == s;
    assert s[2..] == [];
  }

  lemma TiedShares()
    ensures Normalize(SortDesc([Entry("COD", 1), Entry("Transfer", 1)]), 2) ==
      [Share("COD", 0.5), Share("Transfer", 0.5)]
  {
    var g := [Entry("COD", 1), Entry("Transfer", 1)];
    assert SortDesc(g[1..]) == g[1..];
    assert SortDesc(g) == g;
    assert Normalize(g[1..], 2) == [Share("Transfer", 0.5)];
  }
}
