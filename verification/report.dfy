/**
  The figures the sales dashboard computes from the transaction table:
  the summary cards, the three chart tables and the insight list.
 */
module Report {
  import opened Lex
  import opened Months
  import opened Table
  import opened Groups
  import opened Wrappers

  /** How many payment methods the donut chart shows on their own. */
  const TopMethods: nat := 6
  /** The label of the synthetic "other" slice of the donut chart. */
  const OtherLabel: string := "Lainnya"
  /** How many categories the insight list names. */
  const TopCategoryCount: nat := 5

  function Min(a: nat, b: nat): nat {
    if a <= b then a else b
  }

  // ---------------------------------------------------------------------
  // Summary cards

  /** `df['after_discount'].sum()` */
  function TotalSales(rows: seq<Record>): int {
    Total(rows, AfterDiscount)
  }

  /** `len(df)` */
  function TransactionCount(rows: seq<Record>): nat {
    |rows|
  }

  /** `df.groupby('category')['after_discount'].sum().idxmax()`; pandas raises on an empty table. */
  function TopCategory(rows: seq<Record>): Option<string> {
    ArgMax(rows, Category, AfterDiscount)
  }

  /** `df['payment_method'].mode()[0]`; pandas raises on an empty table. */
  function TopPaymentMethod(rows: seq<Record>): Option<string> {
    ArgMax(rows, PaymentMethod, Rows)
  }

  /** The best-selling category has the largest total, and is the first such name. */
  lemma TopCategoryIsLargest(rows: seq<Record>)
    ensures TopCategory(rows).Some? <==> rows != []
    ensures TopCategory(rows).Some? ==>
      var c := TopCategory(rows).value;
      && c in KeysOf(rows, Category)
      && forall c' :: c' in KeysOf(rows, Category) ==>
           && TotalFor(rows, Category, AfterDiscount, c') <= TotalFor(rows, Category, AfterDiscount, c)
           && (TotalFor(rows, Category, AfterDiscount, c') == TotalFor(rows, Category, AfterDiscount, c) ==> LessEq(c, c'))
  {
    ArgMaxIsTop(rows, Category, AfterDiscount);
  }

  /** The most used payment method is a mode, and the smallest of the modes. */
  lemma TopPaymentMethodIsMode(rows: seq<Record>)
    ensures TopPaymentMethod(rows).Some? <==> rows != []
    ensures TopPaymentMethod(rows).Some? ==>
      var p := TopPaymentMethod(rows).value;
      && p in KeysOf(rows, PaymentMethod)
      && forall p' :: p' in KeysOf(rows, PaymentMethod) ==>
           && CountOf(rows, PaymentMethod, p') <= CountOf(rows, PaymentMethod, p)
           && (CountOf(rows, PaymentMethod, p') == CountOf(rows, PaymentMethod, p) ==> LessEq(p, p'))
  {
    ArgMaxIsTop(rows, PaymentMethod, Rows);
    forall k {:trigger CountOf(rows, PaymentMethod, k)} ensures TotalFor(rows, PaymentMethod, Rows, k) == CountOf(rows, PaymentMethod, k) {
      RowsMeasureCounts(rows, PaymentMethod, k);
    }
  }

  // ---------------------------------------------------------------------
  // Chart 1: sales per category

  /** `groupby('category').sum().sort_values(by='after_discount', ascending=False)` */
  function CategoryRollup(rows: seq<Record>): seq<Entry> {
    SortDesc(Group(rows, Category, AfterDiscount))
  }

  /**
    One entry per category, each with that category's summed amount, in
    non-increasing order of amount; together they add up to total sales.
   */
  lemma CategoryRollupSpec(rows: seq<Record>)
    ensures var r := CategoryRollup(rows);
      && |r| == |KeysOf(rows, Category)|
      && KeySet(r) == KeysOf(rows, Category)
      && DistinctKeys(r)
      && NonIncreasing(r)
      && (forall i :: 0 <= i < |r| ==> r[i].total == TotalFor(rows, Category, AfterDiscount, r[i].key))
      && SumTotals(r) == TotalSales(rows)
  {
    var g := Group(rows, Category, AfterDiscount);
    var r := CategoryRollup(rows);
    AscendingDistinct(g);
    SortDescDistinct(g);
    GroupSize(rows, Category, AfterDiscount);
    forall i | 0 <= i < |r|
      ensures r[i].total == TotalFor(rows, Category, AfterDiscount, r[i].key)
    {
      assert r[i] in multiset(g);
      var j :| 0 <= j < |g| && g[j] == r[i];
      GroupEntry(rows, Category, AfterDiscount, j);
    }
  }

  // ---------------------------------------------------------------------
  // Chart 2: payment-method shares

  /** A slice of the donut chart: a payment method and its fraction of all rows. */
  datatype Share = Share(name: string, fraction: real)

  function SumShares(s: seq<Share>): real {
    if s == [] then 0.0 else s[0].fraction + SumShares(s[1..])
  }

  predicate SharesNonIncreasing(s: seq<Share>) {
    forall i, j :: 0 <= i < j < |s| ==> s[i].fraction >= s[j].fraction
  }

  /** Divides every count by `n`: `normalize=True`. */
  function Normalize(g: seq<Entry>, n: nat): (s: seq<Share>)
    requires n > 0
    ensures |s| == |g|
    ensures forall i :: 0 <= i < |g| ==> s[i] == Share(g[i].key, g[i].total as real / n as real)
    ensures SumShares(s) == SumTotals(g) as real / n as real
  {
    if g == [] then []
    else
      var rest := Normalize(g[1..], n);
      var head := Share(g[0].key, g[0].total as real / n as real);
      assert forall i :: 1 <= i < |g| ==> ([head] + rest)[i] == rest[i - 1] && g[i] == g[1..][i - 1];
      AddFractions(g[0].total as real, SumTotals(g[1..]) as real, n as real);
      [head] + rest
  }

  /** `df['payment_method'].value_counts(normalize=True)`: the `df_pie` table. */
  function PaymentShares(rows: seq<Record>): seq<Share> {
    if rows == [] then [] else Normalize(SortDesc(Group(rows, PaymentMethod, Rows)), |rows|)
  }

  /** One share per payment method: every method has a share, and no method has two. */
  lemma PaymentSharesSpec(rows: seq<Record>)
    ensures var s := PaymentShares(rows);
      && |s| == |KeysOf(rows, PaymentMethod)|
      && (forall i :: 0 <= i < |s| ==> s[i].name in KeysOf(rows, PaymentMethod))
      && (forall p :: p in KeysOf(rows, PaymentMethod) ==> exists i :: 0 <= i < |s| && s[i].name == p)
      && (forall i, j :: 0 <= i < j < |s| ==> s[i].name != s[j].name)
  {
    if rows != [] {
      SortedKeys(rows, PaymentMethod, Rows);
      NormalizeKeys(SortDesc(Group(rows, PaymentMethod, Rows)), |rows|, KeysOf(rows, PaymentMethod));
    } else {
      assert KeysOf(rows, PaymentMethod) == {};
    }
  }

  /** Normalizing keeps each entry's key as the share's name. */
  lemma NormalizeKeys(g: seq<Entry>, n: nat, keys: set<string>)
    requires n > 0
    requires |g| == |keys| && DistinctKeys(g)
    requires forall i :: 0 <= i < |g| ==> g[i].key in keys
    requires forall p :: p in keys ==> exists i :: 0 <= i < |g| && g[i].key == p
    ensures var s := Normalize(g, n);
      && |s| == |keys|
      && (forall i :: 0 <= i < |s| ==> s[i].name in keys)
      && (forall p :: p in keys ==> exists i :: 0 <= i < |s| && s[i].name == p)
      && (forall i, j :: 0 <= i < j < |s| ==> s[i].name != s[j].name)
  {
    var s := Normalize(g, n);
    assert forall i :: 0 <= i < |s| ==> s[i].name == g[i].key;
    forall p | p in keys
      ensures exists i :: 0 <= i < |s| && s[i].name == p
    {
      var i :| 0 <= i < |g| && g[i].key == p;
      assert s[i].name == p;
    }
  }

  /** A sorted group table holds each key of its column exactly once. */
  lemma SortedKeys(rows: seq<Record>, col: Column, m: Measure)
    ensures var sorted := SortDesc(Group(rows, col, m));
      && |sorted| == |KeysOf(rows, col)|
      && (forall i :: 0 <= i < |sorted| ==> sorted[i].key in KeysOf(rows, col))
      && (forall p :: p in KeysOf(rows, col) ==> exists i :: 0 <= i < |sorted| && sorted[i].key == p)
      && DistinctKeys(sorted)
  {
    var g := Group(rows, col, m);
    var sorted := SortDesc(g);
    AscendingDistinct(g);
    SortDescDistinct(g);
    GroupSize(rows, col, m);
    forall p | p in KeysOf(rows, col)
      ensures exists i :: 0 <= i < |sorted| && sorted[i].key == p
    {
      KeySetMember(sorted, p);
    }
    forall i | 0 <= i < |sorted|
      ensures sorted[i].key in KeysOf(rows, col)
    {
      KeySetMember(sorted, sorted[i].key);
    }
  }

  /**
    Each share is its method's number of rows divided by the number of all
    rows; the shares come in non-increasing order and add up to 1.
   */
  lemma PaymentSharesFractions(rows: seq<Record>)
    ensures var s := PaymentShares(rows);
      && (forall i :: 0 <= i < |s| ==> s[i].fraction == CountOf(rows, PaymentMethod, s[i].name) as real / |rows| as real)
      && SharesNonIncreasing(s)
      && (rows != [] ==> SumShares(s) == 1.0)
  {
    if rows != [] {
      var sorted := SortDesc(Group(rows, PaymentMethod, Rows));
      var s := PaymentShares(rows);
      var n := |rows| as real;
      forall i | 0 <= i < |s|
        ensures s[i].fraction == CountOf(rows, PaymentMethod, s[i].name) as real / n
      {
        SortedEntry(rows, PaymentMethod, Rows, i);
        RowsMeasureCounts(rows, PaymentMethod, s[i].name);
      }
      forall i, j | 0 <= i < j < |s|
        ensures s[i].fraction >= s[j].fraction
      {
        FractionMono(sorted[j].total as real, sorted[i].total as real, n);
      }
      RowsMeasureCounts(rows, PaymentMethod, "");
      FractionSelf(n);
    }
  }

  /** An entry of a sorted group table still holds its key's total. */
  lemma SortedEntry(rows: seq<Record>, col: Column, m: Measure, i: nat)
    requires i < |SortDesc(Group(rows, col, m))|
    ensures SortDesc(Group(rows, col, m))[i].key in KeysOf(rows, col)
    ensures SortDesc(Group(rows, col, m))[i].total == TotalFor(rows, col, m, SortDesc(Group(rows, col, m))[i].key)
  {
    var g := Group(rows, col, m);
    var sorted := SortDesc(g);
    assert sorted[i] in multiset(g);
    var j :| 0 <= j < |g| && g[j] == sorted[i];
    GroupEntry(rows, col, m, j);
  }

  lemma AddFractions(a: real, b: real, n: real)
    requires n > 0.0
    ensures a / n + b / n == (a + b) / n
  {
  }

  lemma FractionMono(a: real, b: real, n: real)
    requires n > 0.0 && a <= b
    ensures a / n <= b / n
  {
  }

  lemma FractionSelf(n: real)
    requires n > 0.0
    ensures n / n == 1.0
  {
  }

  /** The share `df_pie.iloc[0]` shows in the insight list; there is none for an empty table. */
  function TopPaymentShare(rows: seq<Record>): Option<real> {
    var s := PaymentShares(rows);
    if s == [] then None else Some(s[0].fraction)
  }

  /**
    The share shown is the largest share, and it is the share of the most
    used payment method.
   */
  lemma TopPaymentShareSpec(rows: seq<Record>)
    ensures TopPaymentShare(rows).Some? <==> rows != []
    ensures TopPaymentShare(rows).Some? ==>
      && (forall i :: 0 <= i < |PaymentShares(rows)| ==> PaymentShares(rows)[i].fraction <= TopPaymentShare(rows).value)
      && TopPaymentShare(rows).value == CountOf(rows, PaymentMethod, TopPaymentMethod(rows).value) as real / |rows| as real
  {
    var s := PaymentShares(rows);
    PaymentSharesSpec(rows);
    PaymentSharesFractions(rows);
    TopPaymentMethodIsMode(rows);
    if rows != [] {
      assert Key(rows[0], PaymentMethod) in KeysOf(rows, PaymentMethod);
      var p := TopPaymentMethod(rows).value;
      var j :| 0 <= j < |s| && s[j].name == p;
      var c0, cp := CountOf(rows, PaymentMethod, s[0].name), CountOf(rows, PaymentMethod, p);
      assert s[0].fraction >= s[j].fraction;
      assert c0 <= cp;
      FractionMono(c0 as real, cp as real, |rows| as real);
    }
  }

  lemma {:induction false} SumSharesConcat(a: seq<Share>, b: seq<Share>)
    ensures SumShares(a + b) == SumShares(a) + SumShares(b)
  {
    if a != [] {
      assert (a + b)[1..] == a[1..] + b;
      SumSharesConcat(a[1..], b);
    } else {
      assert a + b == b;
    }
  }

  /**
    `df_final`: the first six shares as they are, then one "Lainnya" slice
    holding the sum of the shares from position six on (0 when there are
    at most six methods).
   */
  function PaymentChart(shares: seq<Share>): (chart: seq<Share>)
    ensures |chart| == Min(TopMethods, |shares|) + 1
    ensures chart[..|chart| - 1] == shares[..Min(TopMethods, |shares|)]
    ensures chart[|chart| - 1].name == OtherLabel
    ensures chart[|chart| - 1].fraction == SumShares(shares[Min(TopMethods, |shares|)..])
    ensures |shares| <= TopMethods ==> chart[|chart| - 1].fraction == 0.0
    ensures SumShares(chart) == SumShares(shares)
  {
    var t := Min(TopMethods, |shares|);
    var chart := shares[..t] + [Share(OtherLabel, SumShares(shares[t..]))];
    SumSharesConcat(shares[..t], [Share(OtherLabel, SumShares(shares[t..]))]);
    SumSharesConcat(shares[..t], shares[t..]);
    assert shares[..t] + shares[t..] == shares;
    assert chart[..|chart| - 1] == shares[..t];
    chart
  }

  /** The donut chart's slices add up to 1, and "Lainnya" is 1 minus the shown methods. */
  lemma PaymentChartSumsToOne(rows: seq<Record>)
    requires rows != []
    ensures var chart := PaymentChart(PaymentShares(rows));
      && SumShares(chart) == 1.0
      && chart[|chart| - 1].fraction == 1.0 - SumShares(chart[..|chart| - 1])
  {
    var chart := PaymentChart(PaymentShares(rows));
    PaymentSharesFractions(rows);
    SumSharesConcat(chart[..|chart| - 1], [chart[|chart| - 1]]);
    assert chart[..|chart| - 1] + [chart[|chart| - 1]] == chart;
  }

  // ---------------------------------------------------------------------
  // Chart 3: sales per month

  /** `df.groupby(['bulan'], as_index=False)['after_discount'].sum()` */
  function MonthlyRollup(rows: seq<Record>): seq<Entry> {
    Group(rows, Month, AfterDiscount)
  }

  /**
    One entry per month label, in strictly ascending label order, each with
    that month's summed amount; together they add up to total sales.
   */
  lemma MonthlyRollupSpec(rows: seq<Record>)
    ensures var r := MonthlyRollup(rows);
      && |r| == |KeysOf(rows, Month)|
      && KeySet(r) == KeysOf(rows, Month)
      && Ascending(r)
      && (forall i :: 0 <= i < |r| ==> r[i].total == TotalFor(rows, Month, AfterDiscount, r[i].key))
      && SumTotals(r) == TotalSales(rows)
  {
    GroupSize(rows, Month, AfterDiscount);
    forall i | 0 <= i < |MonthlyRollup(rows)|
      ensures MonthlyRollup(rows)[i].total == TotalFor(rows, Month, AfterDiscount, MonthlyRollup(rows)[i].key)
    {
      GroupEntry(rows, Month, AfterDiscount, i);
    }
  }

  /** Rows share a month bucket exactly when their dates fall in the same calendar month. */
  lemma MonthBucketsAreCalendarMonths(txs: seq<Transaction>, i: nat, j: nat)
    requires i < |txs| && j < |txs|
    ensures Prepare(txs)[i].month == Prepare(txs)[j].month <==> SameMonth(txs[i].registered, txs[j].registered)
  {
    LabelSameMonth(txs[i].registered, txs[j].registered);
  }

  /** Every month label in the prepared table is the label of some row's date. */
  lemma PreparedMonth(txs: seq<Transaction>, k: string)
    requires k in KeysOf(Prepare(txs), Month)
    ensures exists t :: t in txs && Label(t.registered) == k
  {
    KeysOfMember(Prepare(txs), Month, k);
    var i :| 0 <= i < |txs| && Key(Prepare(txs)[i], Month) == k;
    assert txs[i] in txs;
  }

  /**
    The monthly chart runs in calendar order: an earlier entry's rows all
    fall in an earlier month than a later entry's rows, and the "NaT"
    bucket of unparseable dates, when present, is the last entry.
   */
  lemma MonthlyRollupInCalendarOrder(txs: seq<Transaction>)
    ensures var r := MonthlyRollup(Prepare(txs));
      && (forall i, j, a, b ::
            (0 <= i < j < |r| && a in txs && b in txs &&
             Label(a.registered) == r[i].key && Label(b.registered) == r[j].key) ==>
            MonthBefore(a.registered, b.registered))
      && (forall i :: 0 <= i < |r| && r[i].key == NaTLabel ==> i == |r| - 1)
  {
    var rows := Prepare(txs);
    var r := MonthlyRollup(rows);
    forall i, j, a, b | 0 <= i < j < |r| && a in txs && b in txs &&
        Label(a.registered) == r[i].key && Label(b.registered) == r[j].key
      ensures MonthBefore(a.registered, b.registered)
    {
      LabelOrder(a.registered, b.registered);
    }
    forall i | 0 <= i < |r| && r[i].key == NaTLabel
      ensures i == |r| - 1
    {
      if i < |r| - 1 {
        KeySetMember(r, r[i + 1].key);
        PreparedMonth(txs, r[i + 1].key);
        var b :| b in txs && Label(b.registered) == r[i + 1].key;
        LabelOrder(NaT, b.registered);
      }
    }
  }

  // ---------------------------------------------------------------------
  // Insight list

  /** `df_kat.head(5)` */
  function TopCategories(rows: seq<Record>): seq<Entry> {
    var r := CategoryRollup(rows);
    r[..Min(TopCategoryCount, |r|)]
  }

  /**
    The first five entries of the category chart (fewer when there are
    fewer categories), and no category left out sells more than one listed.
   */
  lemma TopCategoriesSpec(rows: seq<Record>)
    ensures var t := TopCategories(rows);
      var r := CategoryRollup(rows);
      && |t| == Min(TopCategoryCount, |KeysOf(rows, Category)|)
      && t == r[..|t|]
      && forall i, j :: 0 <= i < |t| <= j < |r| ==> r[j].total <= t[i].total
  {
    CategoryRollupSpec(rows);
  }

  /** `total_penjualan / total_transaksi if total_transaksi > 0 else 0` */
  function AveragePerTransaction(rows: seq<Record>): real {
    if TransactionCount(rows) > 0 then TotalSales(rows) as real / TransactionCount(rows) as real else 0.0
  }

  /**
    The average times the number of rows gives back total sales, it is 0
    for an empty table, and it lies between the smallest and the largest
    amount of any row.
   */
  lemma AverageSpec(rows: seq<Record>, lo: int, hi: int)
    requires forall i :: 0 <= i < |rows| ==> lo <= rows[i].afterDiscount <= hi
    ensures rows == [] ==> AveragePerTransaction(rows) == 0.0
    ensures rows != [] ==> AveragePerTransaction(rows) * (|rows| as real) == TotalSales(rows) as real
    ensures rows != [] ==> lo as real <= AveragePerTransaction(rows) <= hi as real
  {
    if rows != [] {
      var n := |rows| as real;
      TotalBounds(rows, lo, hi);
      assert (|rows| * lo) as real == n * lo as real;
      assert (|rows| * hi) as real == n * hi as real;
      FractionBounds(TotalSales(rows) as real, n, lo as real, hi as real);
    }
  }

  lemma FractionBounds(t: real, n: real, lo: real, hi: real)
    requires n > 0.0 && n * lo <= t <= n * hi
    ensures lo <= t / n <= hi
    ensures (t / n) * n == t
  {
  }

  lemma {:induction false} TotalBounds(rows: seq<Record>, lo: int, hi: int)
    requires forall i :: 0 <= i < |rows| ==> lo <= rows[i].afterDiscount <= hi
    ensures |rows| * lo <= TotalSales(rows) <= |rows| * hi
  {
    if rows != [] {
      TotalBounds(rows[1..], lo, hi);
      assert |rows| * lo == lo + |rows[1..]| * lo;
      assert |rows| * hi == hi + |rows[1..]| * hi;
    }
  }

  /** `df_bulan.loc[df_bulan['after_discount'].idxmax()]['bulan']`; pandas raises on an empty table. */
  function PeakMonth(rows: seq<Record>): Option<string> {
    ArgMax(rows, Month, AfterDiscount)
  }

  /**
    The peak month has the largest monthly total, and is the earliest such
    label. The "NaT" bucket takes part like any other month.
   */
  lemma PeakMonthIsLargest(rows: seq<Record>)
    ensures PeakMonth(rows).Some? <==> rows != []
    ensures PeakMonth(rows).Some? ==>
      var p := PeakMonth(rows).value;
      && p in KeySet(MonthlyRollup(rows))
      && forall i :: 0 <= i < |MonthlyRollup(rows)| ==>
           && MonthlyRollup(rows)[i].total <= TotalFor(rows, Month, AfterDiscount, p)
           && (MonthlyRollup(rows)[i].total == TotalFor(rows, Month, AfterDiscount, p) ==> LessEq(p, MonthlyRollup(rows)[i].key))
  {
    ArgMaxIsTop(rows, Month, AfterDiscount);
    MonthlyRollupSpec(rows);
    forall i | 0 <= i < |MonthlyRollup(rows)|
      ensures MonthlyRollup(rows)[i].key in KeysOf(rows, Month)
    {
      KeySetMember(MonthlyRollup(rows), MonthlyRollup(rows)[i].key);
    }
  }

  // ---------------------------------------------------------------------
  // Header: the month range of the data

  /**
    `df['bulan'].min()` and `df['bulan'].max()` as the header prints them.
    The column holds "NaT" for unparseable dates, and "NaT" sorts after
    every "YYYY-MM" label, so it takes part in the range.
   */
  function MonthRangeAsWritten(rows: seq<Record>): Option<(string, string)> {
    var g := MonthlyRollup(rows);
    if g == [] then None else Some((g[0].key, g[|g| - 1].key))
  }

  /** The range runs from the smallest month label to the largest, "NaT" included. */
  lemma MonthRangeAsWrittenSpec(rows: seq<Record>)
    ensures MonthRangeAsWritten(rows).Some? <==> rows != []
    ensures MonthRangeAsWritten(rows).Some? ==>
      var (lo, hi) := MonthRangeAsWritten(rows).value;
      && lo in KeysOf(rows, Month) && hi in KeysOf(rows, Month)
      && forall k :: k in KeysOf(rows, Month) ==> LessEq(lo, k) && LessEq(k, hi)
  {
    var g := MonthlyRollup(rows);
    if rows != [] {
      assert Key(rows[0], Month) in KeysOf(rows, Month);
      AscendingRange(g);
    }
  }

  /**
    As written, one row with an unparseable date is enough for the header
    to read "... hingga NaT": the end of the range is "NaT".
   */
  lemma HeaderEndsAtNaT(txs: seq<Transaction>)
    requires exists t :: t in txs && t.registered.NaT?
    ensures MonthRangeAsWritten(Prepare(txs)).Some?
    ensures MonthRangeAsWritten(Prepare(txs)).value.1 == NaTLabel
  {
    var rows := Prepare(txs);
    var t :| t in txs && t.registered.NaT?;
    var i :| 0 <= i < |txs| && txs[i] == t;
    assert Key(rows[i], Month) == NaTLabel;
    KeysOfMember(rows, Month, NaTLabel);
    MonthRangeAsWrittenSpec(rows);
    var hi := MonthRangeAsWritten(rows).value.1;
    assert LessEq(NaTLabel, hi);
    PreparedMonth(txs, hi);
    var b :| b in txs && Label(b.registered) == hi;
    LabelOrder(NaT, b.registered);
  }

  /** The month labels other than "NaT", in the same order. */
  function DatedMonths(g: seq<Entry>): (r: seq<Entry>)
    requires Ascending(g)
    ensures Ascending(r)
    ensures KeySet(r) == KeySet(g) - {NaTLabel}
  {
    if g == [] then []
    else
      var rest := DatedMonths(g[1..]);
      if g[0].key == NaTLabel then rest
      else
        KeySetMember(rest, g[0].key);
        forall i | 0 <= i < |rest| ensures Less(g[0].key, rest[i].key) {
          KeySetMember(rest, rest[i].key);
          KeySetMember(g[1..], rest[i].key);
          var j :| 0 <= j < |g[1..]| && g[1..][j].key == rest[i].key;
          assert g[j + 1].key == rest[i].key;
        }
        [g[0]] + rest
  }

  /**
    The month range the header means to show: from the earliest to the
    latest month that has a real date, leaving the "NaT" bucket out; no
    range when no row has a parseable date.
   */
  function MonthRange(rows: seq<Record>): Option<(string, string)> {
    var d := DatedMonths(MonthlyRollup(rows));
    if d == [] then None else Some((d[0].key, d[|d| - 1].key))
  }

  /**
    The range exists exactly when some row has a real month, its ends are
    real months of the table, and every real month lies between them.
   */
  lemma MonthRangeSpec(rows: seq<Record>)
    ensures MonthRange(rows).Some? <==> exists k :: k in KeysOf(rows, Month) && k != NaTLabel
    ensures MonthRange(rows).Some? ==>
      var (lo, hi) := MonthRange(rows).value;
      && lo in KeysOf(rows, Month) && hi in KeysOf(rows, Month)
      && lo != NaTLabel && hi != NaTLabel
      && forall k :: k in KeysOf(rows, Month) && k != NaTLabel ==> LessEq(lo, k) && LessEq(k, hi)
  {
    var d := DatedMonths(MonthlyRollup(rows));
    assert KeySet(d) == KeysOf(rows, Month) - {NaTLabel};
    if d != [] {
      AscendingRange(d);
    } else {
      assert KeysOf(rows, Month) - {NaTLabel} == {};
    }
  }

  /** The first and last keys of an ascending table bound all of its keys. */
  lemma AscendingRange(g: seq<Entry>)
    requires Ascending(g) && g != []
    ensures g[0].key in KeySet(g) && g[|g| - 1].key in KeySet(g)
    ensures forall k :: k in KeySet(g) ==> LessEq(g[0].key, k) && LessEq(k, g[|g| - 1].key)
  {
    KeySetMember(g, g[0].key);
    KeySetMember(g, g[|g| - 1].key);
    forall k | k in KeySet(g)
      ensures LessEq(g[0].key, k) && LessEq(k, g[|g| - 1].key)
    {
      KeySetMember(g, k);
      var i :| 0 <= i < |g| && g[i].key == k;
      if 0 < i {
        assert Less(g[0].key, g[i].key);
      }
      if i < |g| - 1 {
        assert Less(g[i].key, g[|g| - 1].key);
      }
    }
  }

  /** For a prepared table the corrected range runs between real calendar months. */
  lemma MonthRangeIsCalendar(txs: seq<Transaction>)
    ensures MonthRange(Prepare(txs)).Some? <==> exists t :: t in txs && t.registered.Timestamp?
    ensures MonthRange(Prepare(txs)).Some? ==>
      var (lo, hi) := MonthRange(Prepare(txs)).value;
      forall t :: t in txs && t.registered.Timestamp? ==>
        && (Label(t.registered) == lo || Less(lo, Label(t.registered)))
        && (Label(t.registered) == hi || Less(Label(t.registered), hi))
  {
    var rows := Prepare(txs);
    MonthRangeSpec(rows);
    forall t | t in txs
      ensures Label(t.registered) in KeysOf(rows, Month)
      ensures t.registered.Timestamp? <==> Label(t.registered) != NaTLabel
    {
      var i :| 0 <= i < |txs| && txs[i] == t;
      assert Key(rows[i], Month) == Label(t.registered);
      KeysOfMember(rows, Month, Label(t.registered));
      LabelShape(t.registered);
    }
    if exists k :: k in KeysOf(rows, Month) && k != NaTLabel {
      var k :| k in KeysOf(rows, Month) && k != NaTLabel;
      PreparedMonth(txs, k);
      var t :| t in txs && Label(t.registered) == k;
      LabelShape(t.registered);
    }
  }

  // ---------------------------------------------------------------------
  // The whole dashboard

  /** Why the script stops: `idxmax` of an empty table raises `ValueError`. */
  datatype ScriptError = EmptyTable

  /** Every figure the dashboard shows; `monthRange` is the header's range as the script prints it. */
  datatype Dashboard = Dashboard(
    monthRange: Option<(string, string)>,
    totalSales: int,
    transactions: nat,
    topCategory: string,
    topPaymentMethod: string,
    categories: seq<Entry>,
    payments: seq<Share>,
    months: seq<Entry>,
    topCategories: seq<Entry>,
    average: real,
    peakMonth: string,
    topPaymentShare: real)

  /** The figures of a non-empty table. */
  function Figures(rows: seq<Record>): Dashboard
    requires rows != []
  {
    ArgMaxIsTop(rows, Category, AfterDiscount);
    ArgMaxIsTop(rows, PaymentMethod, Rows);
    ArgMaxIsTop(rows, Month, AfterDiscount);
    TopPaymentShareSpec(rows);
    Dashboard(
      MonthRangeAsWritten(rows),
      TotalSales(rows),
      TransactionCount(rows),
      TopCategory(rows).value,
      TopPaymentMethod(rows).value,
      CategoryRollup(rows),
      PaymentChart(PaymentShares(rows)),
      MonthlyRollup(rows),
      TopCategories(rows),
      AveragePerTransaction(rows),
      PeakMonth(rows).value,
      TopPaymentShare(rows).value)
  }

  /** Runs the script from the parsed table to the figures it renders; it fails only for an empty table. */
  function Build(txs: seq<Transaction>): (r: Result<Dashboard, ScriptError>)
    ensures r.Err? <==> txs == []
  {
    var rows := Prepare(txs);
    if rows == [] then Err(EmptyTable) else Ok(Figures(rows))
  }

  /**
    The header shows the first and last point of the monthly chart: two
    month labels of the table between which every label lies, and it ends
    at "NaT" as soon as one date did not parse.
   */
  lemma DashboardHeader(txs: seq<Transaction>)
    requires txs != []
    ensures var d := Build(txs).value;
      && d.months != []
      && d.monthRange == Some((d.months[0].key, d.months[|d.months| - 1].key))
      && d.monthRange.value.0 in KeysOf(Prepare(txs), Month)
      && d.monthRange.value.1 in KeysOf(Prepare(txs), Month)
      && (forall k :: k in KeysOf(Prepare(txs), Month) ==> LessEq(d.monthRange.value.0, k) && LessEq(k, d.monthRange.value.1))
      && ((exists t :: t in txs && t.registered.NaT?) ==> d.monthRange.value.1 == NaTLabel)
  {
    var rows := Prepare(txs);
    var d := Build(txs).value;
    assert d.monthRange == MonthRangeAsWritten(rows) && d.months == MonthlyRollup(rows);
    MonthRangeAsWrittenSpec(rows);
    if exists t :: t in txs && t.registered.NaT? {
      HeaderEndsAtNaT(txs);
    }
  }

  /** The summary cards: the charts add up to total sales, and the average is total over count. */
  lemma DashboardTotals(txs: seq<Transaction>)
    requires txs != []
    ensures var d := Build(txs).value;
      && d.transactions == |txs|
      && d.totalSales == SumTotals(d.categories) == SumTotals(d.months)
      && d.average == d.totalSales as real / d.transactions as real
  {
    var rows := Prepare(txs);
    var d := Build(txs).value;
    assert d.categories == CategoryRollup(rows) && d.months == MonthlyRollup(rows);
    assert d.totalSales == TotalSales(rows) && d.transactions == |rows|;
    assert d.average == AveragePerTransaction(rows);
    CategoryRollupSpec(rows);
    MonthlyRollupSpec(rows);
  }

  /**
    The donut chart adds up to one and ends with "Lainnya"; the insight
    list's share is the chart's first slice.
   */
  lemma DashboardPayments(txs: seq<Transaction>)
    requires txs != []
    ensures var d := Build(txs).value;
      && SumShares(d.payments) == 1.0
      && d.payments[|d.payments| - 1].name == OtherLabel
      && d.topPaymentShare == d.payments[0].fraction
  {
    var rows := Prepare(txs);
    var d := Build(txs).value;
    assert d.payments == PaymentChart(PaymentShares(rows));
    assert d.topPaymentShare == TopPaymentShare(rows).value;
    PaymentChartSumsToOne(rows);
    TopPaymentShareSpec(rows);
  }

  /**
    The best-selling category card shows the first bar's amount, and the
    insight list's categories are the first bars.
   */
  lemma DashboardInsights(txs: seq<Transaction>)
    requires txs != []
    ensures var d := Build(txs).value;
      && d.categories != [] && Lookup(d.categories, d.topCategory) == d.categories[0].total
      && d.topCategories == d.categories[..Min(TopCategoryCount, |d.categories|)]
  {
    var rows := Prepare(txs);
    var d := Build(txs).value;
    assert d.categories == CategoryRollup(rows);
    assert d.topCategory == TopCategory(rows).value;
    assert d.topCategories == TopCategories(rows);
    TopCategoryLeadsChart(rows);
  }

  /** The peak month of the insight list has the largest point of the monthly chart. */
  lemma DashboardPeak(txs: seq<Transaction>)
    requires txs != []
    ensures var d := Build(txs).value;
      && d.peakMonth in KeySet(d.months)
      && (forall i :: 0 <= i < |d.months| ==> d.months[i].total <= Lookup(d.months, d.peakMonth))
  {
    var rows := Prepare(txs);
    assert Build(txs).value == Figures(rows);
    PeakLeadsChart(rows);
  }

  /** The peak month's point is the highest point of the monthly chart. */
  lemma PeakLeadsChart(rows: seq<Record>)
    requires rows != []
    ensures PeakMonth(rows).Some?
    ensures var g, p := MonthlyRollup(rows), PeakMonth(rows).value;
      && p in KeySet(g)
      && forall i :: 0 <= i < |g| ==> g[i].total <= Lookup(g, p)
  {
    PeakMonthIsLargest(rows);
  }

  /** The best-selling category card shows the amount of the first bar of the category chart. */
  lemma TopCategoryLeadsChart(rows: seq<Record>)
    requires rows != []
    ensures CategoryRollup(rows) != []
    ensures Lookup(CategoryRollup(rows), TopCategory(rows).value) == CategoryRollup(rows)[0].total
  {
    var r := CategoryRollup(rows);
    var c := TopCategory(rows).value;
    TopCategoryIsLargest(rows);
    CategoryRollupSpec(rows);
    KeySetMember(r, c);
    var j :| 0 <= j < |r| && r[j].key == c;
    LookupAt(r, j);
    KeySetMember(r, r[0].key);
    assert r[0].total >= r[j].total;
  }
}
