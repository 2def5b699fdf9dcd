/** The daily price series the analysis reads: one bar per trading day. */
module Bars {

  /** A value that may be missing, as a NaN cell of a data frame is. */
  datatype Option<T> = None | Some(value: T)

  /**
   * One trading day. Prices are exact reals (the data frame holds floats);
   * the date is a day number, so "one day later" is `date + 1`.
   */
  datatype Bar = Bar(date: int, open: real, high: real, low: real, close: real, volume: nat)

  function Abs(x: real): real
  {
    if x < 0.0 then -x else x
  }

  /**
   * The price ordering a data provider delivers inside one bar. The analysis
   * never checks it; the properties that need it take it as a precondition.
   */
  predicate WellFormed(b: Bar)
  {
    b.low <= b.open <= b.high && b.low <= b.close <= b.high
  }

  /** Dates strictly increase along the series: it is sorted and has no duplicate day. */
  predicate DatesIncreasing(s: seq<Bar>)
  {
    forall i, j | 0 <= i < j < |s| :: s[i].date < s[j].date
  }
}
