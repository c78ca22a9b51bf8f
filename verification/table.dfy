/**
  The transaction table: one row per sale, with the columns the report
  reads. Amounts are whole Rupiah.
 */
module Table {
  import opened Months

  /** A row as loaded from the CSV file, with its date already parsed. */
  datatype Transaction = Transaction(
    category: string,
    paymentMethod: string,
    afterDiscount: int,
    registered: RegisteredDate)

  /** A row after the `bulan` column has been added. */
  datatype Record = Record(
    category: string,
    paymentMethod: string,
    afterDiscount: int,
    month: string)

  /** The columns the report groups by. */
  datatype Column = Category | PaymentMethod | Month

  /** What a group accumulates: the summed amount, or the number of rows. */
  datatype Measure = AfterDiscount | Rows

  function Key(r: Record, col: Column): string {
    match col
    case Category => r.category
    case PaymentMethod => r.paymentMethod
    case Month => r.month
  }

  function Value(r: Record, m: Measure): int {
    match m
    case AfterDiscount => r.afterDiscount
    case Rows => 1
  }

  /** Adds the `bulan` column: every row keeps its fields and gains its month label. */
  function Prepare(txs: seq<Transaction>): (rows: seq<Record>)
    ensures |rows| == |txs|
    ensures forall i :: 0 <= i < |txs| ==>
      && rows[i].category == txs[i].category
      && rows[i].paymentMethod == txs[i].paymentMethod
      && rows[i].afterDiscount == txs[i].afterDiscount
      && rows[i].month == Label(txs[i].registered)
  {
    seq(|txs|, i requires 0 <= i < |txs| =>
      Record(txs[i].category, txs[i].paymentMethod, txs[i].afterDiscount, Label(txs[i].registered)))
  }

  /** The measure summed over every row. */
  function Total(rows: seq<Record>, m: Measure): int {
    if rows == [] then 0 else Value(rows[0], m) + Total(rows[1..], m)
  }

  /** The measure summed over the rows whose column `col` holds `k`. */
  function TotalFor(rows: seq<Record>, col: Column, m: Measure, k: string): int {
    if rows == [] then 0
    else (if Key(rows[0], col) == k then Value(rows[0], m) else 0) + TotalFor(rows[1..], col, m, k)
  }

  /** The distinct values of column `col`. */
  function KeysOf(rows: seq<Record>, col: Column): set<string> {
    if rows == [] then {} else {Key(rows[0], col)} + KeysOf(rows[1..], col)
  }

  /** Number of rows whose column `col` holds `k`. */
  function CountOf(rows: seq<Record>, col: Column, k: string): nat {
    if rows == [] then 0
    else (if Key(rows[0], col) == k then 1 else 0) + CountOf(rows[1..], col, k)
  }

  lemma {:induction false} KeysOfMember(rows: seq<Record>, col: Column, k: string)
    ensures k in KeysOf(rows, col) <==> exists i :: 0 <= i < |rows| && Key(rows[i], col) == k
  {
    if rows != [] {
      KeysOfMember(rows[1..], col, k);
      if exists i :: 0 <= i < |rows| && Key(rows[i], col) == k {
        var i :| 0 <= i < |rows| && Key(rows[i], col) == k;
        if i > 0 {
          assert Key(rows[1..][i - 1], col) == k;
        }
      }
      if exists i :: 0 <= i < |rows[1..]| && Key(rows[1..][i], col) == k {
        var i :| 0 <= i < |rows[1..]| && Key(rows[1..][i], col) == k;
        assert Key(rows[i + 1], col) == k;
      }
    }
  }

  /** Counting rows is summing the `Rows` measure. */
  lemma {:induction false} RowsMeasureCounts(rows: seq<Record>, col: Column, k: string)
    ensures Total(rows, Rows) == |rows|
    ensures TotalFor(rows, col, Rows, k) == CountOf(rows, col, k)
  {
    if rows != [] {
      RowsMeasureCounts(rows[1..], col, k);
    }
  }
}
