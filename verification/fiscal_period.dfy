/**
 * The fiscal period deriver of data_processing.py: a financial year that
 * starts on 1 July, the quarter of a month inside it, and the composite label
 * "FY<year><quarter>" used as a cohort key.
 */
module FiscalPeriod {
  import opened Wrappers

  /** A calendar month number as a date carries it. */
  type Month = m: int | 1 <= m <= 12 witness 1

  /** A calendar date reduced to the two parts the deriver reads. */
  datatype Date = Date(year: int, month: Month)

  /** The sentinel returned for a month number above 12. */
  const InvalidMonth: string := "Invalid Month"

  /** The four quarter codes of a financial year. */
  const Quarters: set<string> := {"Q1", "Q2", "Q3", "Q4"}

  /**
   * get_financial_quarter: the quarter of a month in a July-to-June year.
   * Every month number up to 3, including zero and negative numbers, is
   * reported as Q3; only numbers above 12 give the sentinel.
   */
  function FinancialQuarter(month: int): (q: string)
    ensures q in Quarters || q == InvalidMonth
    ensures q == InvalidMonth <==> month > 12
    ensures month <= 3 ==> q == "Q3"
  {
    if month <= 3 then "Q3"
    else if month <= 6 then "Q4"
    else if month <= 9 then "Q1"
    else if month <= 12 then "Q2"
    else InvalidMonth
  }

  /** get_financial_year: the calendar year in which the date's financial year began. */
  function FinancialYear(d: Date): (fy: int)
    ensures fy == d.year || fy == d.year - 1
    ensures fy == d.year <==> d.month >= 7
  {
    if d.month >= 7 then d.year else d.year - 1
  }

  /**
   * A reference reading of the quarter table: counting months from July
   * (July is position 0), the quarter number is position / 3 + 1.
   */
  lemma FinancialQuarterByPosition(month: Month)
    ensures FinancialQuarter(month) == ['Q', DigitChar((month + 5) % 12 / 3 + 1)]
  {
  }

  /**
   * The financial year is the calendar year of the latest 1 July on or before
   * the date: counted in months, the date lies in the twelve months that start
   * with July of that year.
   */
  lemma FinancialYearStartsInJuly(d: Date)
    ensures FinancialYear(d) * 12 + 7 <= d.year * 12 + d.month < (FinancialYear(d) + 1) * 12 + 7
  {
  }

  /**
   * For a real month, the first half of a financial year (Q1, Q2) lies in the
   * calendar year that names it and the second half (Q3, Q4) in the next one.
   */
  lemma QuarterAgreesWithYear(d: Date)
    ensures FinancialQuarter(d.month) in {"Q1", "Q2"} <==> FinancialYear(d) == d.year
    ensures FinancialQuarter(d.month) in {"Q3", "Q4"} <==> FinancialYear(d) == d.year - 1
  {
  }

  // ---------------------------------------------------------------------------
  // Decimal rendering of an integer, as Python's f-string writes it, and its
  // inverse.

  function DigitChar(d: int): (c: char)
    requires 0 <= d < 10
    ensures '0' <= c <= '9'
  {
    ('0' as int + d) as char
  }

  function DigitValue(c: char): (d: nat)
    requires '0' <= c <= '9'
    ensures d < 10 && DigitChar(d) == c
  {
    c as int - '0' as int
  }

  predicate AllDigits(s: string) {
    forall i :: 0 <= i < |s| ==> '0' <= s[i] <= '9'
  }

  /** The decimal digits of a natural number, most significant first, no leading zero. */
  function NatToDecimal(n: nat): (s: string)
    ensures |s| >= 1 && AllDigits(s)
    ensures s[0] == '0' ==> n == 0
  {
    if n < 10 then [DigitChar(n)] else NatToDecimal(n / 10) + [DigitChar(n % 10)]
  }

  /** How f"{n}" writes an int: a minus sign for negatives, then the digits. */
  function IntToDecimal(n: int): (s: string)
    ensures |s| >= 1
  {
    if n < 0 then "-" + NatToDecimal(-n) else NatToDecimal(n)
  }

  /** The number a string of decimal digits denotes. */
  function DigitsValue(s: string): nat
    requires AllDigits(s)
  {
    if s == [] then 0 else DigitsValue(s[..|s| - 1]) * 10 + DigitValue(s[|s| - 1])
  }

  /** Reads back what IntToDecimal writes; anything else is None. */
  function ParseInt(s: string): Option<int> {
    if |s| >= 2 && s[0] == '-' && AllDigits(s[1..]) then Some(-(DigitsValue(s[1..]) as int))
    else if |s| >= 1 && AllDigits(s) then Some(DigitsValue(s))
    else None
  }

  lemma {:induction false} NatToDecimalRoundTrip(n: nat)
    ensures DigitsValue(NatToDecimal(n)) == n
  {
    var s := NatToDecimal(n);
    if n >= 10 {
      NatToDecimalRoundTrip(n / 10);
      assert s[..|s| - 1] == NatToDecimal(n / 10);
    }
  }

  /** Every integer's decimal rendering parses back to that integer. */
  lemma {:induction false} IntToDecimalRoundTrip(n: int)
    ensures ParseInt(IntToDecimal(n)) == Some(n)
  {
    var s := IntToDecimal(n);
    if n < 0 {
      var digits := NatToDecimal(-n);
      NatToDecimalRoundTrip(-n);
      assert s == "-" + digits;
      assert s[1..] == digits;
      assert AllDigits(s[1..]) && |s| >= 2 && s[0] == '-';
    } else {
      NatToDecimalRoundTrip(n);
      assert s == NatToDecimal(n);
      assert AllDigits(s) && s[0] != '-';
    }
  }

  // ---------------------------------------------------------------------------
  // The composite label.

  /**
   * get_financial_year_quarter: "FY", the year in decimal and the quarter,
   * with no separator. The quarter is not checked, so the sentinel composes
   * into a label too.
   */
  function FinancialYearQuarter(fy: int, quarter: string): (text: string)
    ensures |text| >= 3 + |quarter|
    ensures text[..2] == "FY" && text[|text| - |quarter|..] == quarter
  {
    "FY" + IntToDecimal(fy) + quarter
  }

  /**
   * A label starts with "FY", ends with its quarter, and what lies between
   * reads back as the year.
   */
  lemma LabelParts(fy: int, quarter: string)
    ensures var text := FinancialYearQuarter(fy, quarter);
            && |text| == 2 + |IntToDecimal(fy)| + |quarter|
            && text[..2] == "FY"
            && text[|text| - |quarter|..] == quarter
            && ParseInt(text[2..|text| - |quarter|]) == Some(fy)
  {
    var text := FinancialYearQuarter(fy, quarter);
    IntToDecimalRoundTrip(fy);
    assert text[2..|text| - |quarter|] == IntToDecimal(fy);
  }

  /** Splits a label of a valid quarter back into its year and quarter. */
  function ParseLabel(text: string): Option<(int, string)> {
    if |text| >= 5 && text[..2] == "FY" && text[|text| - 2..] in Quarters then
      match ParseInt(text[2..|text| - 2])
      case Some(fy) => Some((fy, text[|text| - 2..]))
      case None => None
    else None
  }

  /** A label built from a valid quarter parses back into the year and the quarter. */
  lemma LabelRoundTrip(fy: int, quarter: string)
    requires quarter in Quarters
    ensures ParseLabel(FinancialYearQuarter(fy, quarter)) == Some((fy, quarter))
  {
    LabelParts(fy, quarter);
  }

  /** Distinct (year, quarter) pairs never share a label. */
  lemma LabelInjective(fy1: int, q1: string, fy2: int, q2: string)
    requires q1 in Quarters && q2 in Quarters
    requires FinancialYearQuarter(fy1, q1) == FinancialYearQuarter(fy2, q2)
    ensures fy1 == fy2 && q1 == q2
  {
    LabelRoundTrip(fy1, q1);
    LabelRoundTrip(fy2, q2);
  }

  /** The worked example of the label format. */
  lemma LabelExample()
    ensures FinancialYearQuarter(2022, "Q4") == "FY2022Q4"
  {
  }

  /** The shape FY<digits>Q<1-4>. */
  predicate IsQuarterLabel(text: string) {
    && |text| >= 5
    && text[..2] == "FY"
    && AllDigits(text[2..|text| - 2])
    && text[|text| - 2] == 'Q'
    && '1' <= text[|text| - 1] <= '4'
  }

  /**
   * The label the deriver gives a date from year 1 on has the shape
   * FY<digits>Q<1-4> and parses back into the date's financial year and quarter.
   */
  lemma DateLabelShape(d: Date)
    requires d.year >= 1
    ensures IsQuarterLabel(FinancialYearQuarter(FinancialYear(d), FinancialQuarter(d.month)))
    ensures ParseLabel(FinancialYearQuarter(FinancialYear(d), FinancialQuarter(d.month)))
         == Some((FinancialYear(d), FinancialQuarter(d.month)))
  {
    var fy, q := FinancialYear(d), FinancialQuarter(d.month);
    var text := FinancialYearQuarter(fy, q);
    assert text == "FY" + NatToDecimal(fy) + q;
    assert text[2..|text| - 2] == NatToDecimal(fy);
    LabelRoundTrip(fy, q);
  }
}
