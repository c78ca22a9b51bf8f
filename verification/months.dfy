/**
  The derived `bulan` (month) column: a registration date truncated to its
  calendar month and written as the string "YYYY-MM", or the string "NaT"
  when the date could not be parsed. Parsing itself is not modelled: a
  date arrives already parsed, or as `NaT`.
 */
module Months {
  import opened Lex

  type Year = y: int | 0 <= y <= 9999
  type MonthOfYear = m: int | 1 <= m <= 12 witness 1
  type DayOfMonth = d: int | 1 <= d <= 31 witness 1

  /** A parsed `registered_date`, or pandas' not-a-time for an unparseable one. */
  datatype RegisteredDate = NaT | Timestamp(year: Year, month: MonthOfYear, day: DayOfMonth)

  /** The label pandas prints for "not a time". */
  const NaTLabel: string := "NaT"

  function Pow10(w: nat): (p: nat)
    ensures p > 0
  {
    if w == 0 then 1 else 10 * Pow10(w - 1)
  }

  function DigitChar(d: nat): (c: char)
    requires d < 10
    ensures '0' <= c <= '9'
  {
    ('0' as int + d) as char
  }

  /** `n` written in decimal with exactly `w` digits, most significant first, zero-padded. */
  function Digits(n: nat, w: nat): (s: string)
    requires n < Pow10(w)
    ensures |s| == w
    ensures forall i :: 0 <= i < |s| ==> '0' <= s[i] <= '9'
  {
    if w == 0 then []
    else Digits(n / 10, w - 1) + [DigitChar(n % 10)]
  }

  /** The month label of a date: `to_period('M')` followed by `astype(str)`. */
  function Label(d: RegisteredDate): (s: string)
  {
    match d
    case NaT => NaTLabel
    case Timestamp(y, m, _) => Digits(y, 4) + "-" + Digits(m, 2)
  }

  /** Two dates fall in the same bucket of the monthly rollup. */
  predicate SameMonth(a: RegisteredDate, b: RegisteredDate) {
    match (a, b)
    case (NaT, NaT) => true
    case (Timestamp(y1, m1, _), Timestamp(y2, m2, _)) => y1 == y2 && m1 == m2
    case _ => false
  }

  /** Calendar order of months, with every real month before "not a time". */
  predicate MonthBefore(a: RegisteredDate, b: RegisteredDate) {
    match (a, b)
    case (Timestamp(y1, m1, _), Timestamp(y2, m2, _)) => y1 < y2 || (y1 == y2 && m1 < m2)
    case (Timestamp(_, _, _), NaT) => true
    case (NaT, _) => false
  }

  // ---------------------------------------------------------------------
  // Fixed-width decimal strings compare like the numbers they denote

  lemma {:induction false} DigitsOrder(a: nat, b: nat, w: nat)
    requires a < Pow10(w) && b < Pow10(w)
    ensures Less(Digits(a, w), Digits(b, w)) <==> a < b
    ensures Digits(a, w) == Digits(b, w) <==> a == b
  {
    if w == 0 {
      LessIrreflexive([]);
    } else {
      var ha, hb := Digits(a / 10, w - 1), Digits(b / 10, w - 1);
      var ca, cb := DigitChar(a % 10), DigitChar(b % 10);
      DigitsOrder(a / 10, b / 10, w - 1);
      LessConcat(ha, [ca], hb, [cb]);
      if ha == hb && ca == cb {
        assert Digits(a, w) == Digits(b, w);
      }
      if Digits(a, w) == Digits(b, w) {
        assert Digits(a, w)[..w - 1] == ha && Digits(b, w)[..w - 1] == hb;
        assert Digits(a, w)[w - 1] == ca && Digits(b, w)[w - 1] == cb;
      }
    }
  }

  // ---------------------------------------------------------------------
  // What the labels promise

  /**
    Sorting month labels as strings, which is what `groupby` does, puts
    them in calendar order, and "NaT" after every real month.
   */
  lemma LabelOrder(a: RegisteredDate, b: RegisteredDate)
    ensures Less(Label(a), Label(b)) <==> MonthBefore(a, b)
  {
    match (a, b)
    case (NaT, NaT) =>
      LessIrreflexive(NaTLabel);
    case (NaT, Timestamp(_, _, _)) =>
      assert Label(b)[0] <= '9' < 'N' == Label(a)[0];
    case (Timestamp(_, _, _), NaT) =>
      assert Label(a)[0] <= '9' < 'N' == Label(b)[0];
    case (Timestamp(y1, m1, _), Timestamp(y2, m2, _)) =>
      assert Label(a) == Digits(y1, 4) + ("-" + Digits(m1, 2));
      assert Label(b) == Digits(y2, 4) + ("-" + Digits(m2, 2));
      LessConcat(Digits(y1, 4), "-" + Digits(m1, 2), Digits(y2, 4), "-" + Digits(m2, 2));
      LessConcat("-", Digits(m1, 2), "-", Digits(m2, 2));
      DigitsOrder(y1, y2, 4);
      DigitsOrder(m1, m2, 2);
  }

  /** Two dates share a label exactly when they fall in the same month. */
  lemma LabelSameMonth(a: RegisteredDate, b: RegisteredDate)
    ensures Label(a) == Label(b) <==> SameMonth(a, b)
  {
    LabelOrder(a, b);
    LabelOrder(b, a);
    if Label(a) != Label(b) {
      LessTotal(Label(a), Label(b));
    } else {
      LessIrreflexive(Label(a));
    }
  }

  /** A real month's label has the shape "YYYY-MM"; "NaT" has not. */
  lemma LabelShape(d: RegisteredDate)
    ensures d.Timestamp? ==> |Label(d)| == 7 && Label(d)[4] == '-'
    ensures d.Timestamp? ==> forall i :: 0 <= i < 7 && i != 4 ==> '0' <= Label(d)[i] <= '9'
    ensures d.NaT? <==> Label(d) == NaTLabel
  {
    if d.Timestamp? {
      var y, m := Digits(d.year, 4), Digits(d.month, 2);
      assert Label(d) == y + "-" + m;
      assert Label(d)[0] == y[0];
    }
  }
}
