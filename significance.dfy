/**
 * The significance classifier: a bar of the working set is a significant
 * candle when its true range exceeds MULTIPLIER times its average true range.
 */
module Significance {
  import opened Volatility

  /** The factor applied to the average true range (the literal 1.2, exactly 6/5). */
  const MULTIPLIER: real := 1.2

  /** Strict comparison: a true range exactly at the threshold is not significant. */
  predicate IsSignificant(r: Row)
    ensures r.tr == MULTIPLIER * r.atr ==> !IsSignificant(r)
    ensures IsSignificant(r) && r.atr >= 0.0 ==> r.tr > r.atr
  {
    r.tr > MULTIPLIER * r.atr
  }

  /** The significant candles of the working set, in their original order. */
  function SignificantCandles(data: seq<Row>): (candles: seq<Row>)
    ensures |candles| <= |data|
    ensures forall r :: r in candles <==> r in data && IsSignificant(r)
  {
    if data == [] then []
    else
      var rest := SignificantCandles(data[1..]);
      assert forall r :: r in data <==> r == data[0] || r in data[1..];
      if IsSignificant(data[0]) then [data[0]] + rest else rest
  }

  /** Filtering keeps the working set's date order. */
  lemma {:induction false} SignificantCandlesAscending(data: seq<Row>)
    requires RowsAscending(data)
    ensures RowsAscending(SignificantCandles(data))
    decreases |data|
  {
    if data != [] {
      var tail := data[1..];
      SignificantCandlesAscending(tail);
      var rest := SignificantCandles(tail);
      forall r | r in rest ensures data[0].bar.date < r.bar.date {
        var j :| 0 <= j < |tail| && tail[j] == r;
        assert r == data[j + 1];
      }
    }
  }
}
