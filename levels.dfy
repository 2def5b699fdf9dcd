/**
 * The level scanner: the high of a significant candle is an unbroken
 * resistance when no later bar of the working set trades above it, and its
 * low an unbroken support when no later bar trades below it.
 */
module Levels {
  import opened Volatility

  /** A recorded level: the origin candle's date with its high (resistance) or low (support). */
  datatype Level = Level(date: int, price: real)

  /**
   * The rows dated from `from` to `to`, both ends included, in their order:
   * label slicing of a frame indexed by date.
   */
  function Between(data: seq<Row>, from: int, to: int): (sub: seq<Row>)
    ensures |sub| <= |data|
    ensures forall r :: r in sub <==> r in data && from <= r.bar.date <= to
  {
    if data == [] then []
    else
      var rest := Between(data[1..], from, to);
      assert forall r :: r in data <==> r == data[0] || r in data[1..];
      if from <= data[0].bar.date <= to then [data[0]] + rest else rest
  }

  /** The slice keeps the rows in their order: date-ordered rows give a date-ordered slice. */
  lemma {:induction false} BetweenAscending(data: seq<Row>, from: int, to: int)
    requires RowsAscending(data)
    ensures RowsAscending(Between(data, from, to))
    decreases |data|
  {
    if data != [] {
      var tail := data[1..];
      BetweenAscending(tail, from, to);
      var rest := Between(tail, from, to);
      forall r | r in rest ensures data[0].bar.date < r.bar.date {
        var j :| 0 <= j < |tail| && tail[j] == r;
        assert r == data[j + 1];
      }
    }
  }

  /** Some row's high is strictly above `price`. */
  predicate AnyHigher(sub: seq<Row>, price: real)
  {
    exists k | 0 <= k < |sub| :: sub[k].bar.high > price
  }

  /** Some row's low is strictly below `price`. */
  predicate AnyLower(sub: seq<Row>, price: real)
  {
    exists k | 0 <= k < |sub| :: sub[k].bar.low < price
  }

  /** No row of `data` dated after the candle has a higher high. */
  predicate HighUnbroken(data: seq<Row>, candle: Row)
  {
    forall k | 0 <= k < |data| && data[k].bar.date > candle.bar.date :: data[k].bar.high <= candle.bar.high
  }

  /** No row of `data` dated after the candle has a lower low. */
  predicate LowUnbroken(data: seq<Row>, candle: Row)
  {
    forall k | 0 <= k < |data| && data[k].bar.date > candle.bar.date :: data[k].bar.low >= candle.bar.low
  }

  /** The resistance list the scan should produce: one entry per candle whose high stands, in candle order. */
  function ResistanceLevels(data: seq<Row>, candles: seq<Row>): (levels: seq<Level>)
    ensures |levels| <= |candles|
  {
    if candles == [] then []
    else
      var c := candles[|candles| - 1];
      ResistanceLevels(data, candles[..|candles| - 1])
        + (if HighUnbroken(data, c) then [Level(c.bar.date, c.bar.high)] else [])
  }

  /** The support list the scan should produce: one entry per candle whose low stands, in candle order. */
  function SupportLevels(data: seq<Row>, candles: seq<Row>): (levels: seq<Level>)
    ensures |levels| <= |candles|
  {
    if candles == [] then []
    else
      var c := candles[|candles| - 1];
      SupportLevels(data, candles[..|candles| - 1])
        + (if LowUnbroken(data, c) then [Level(c.bar.date, c.bar.low)] else [])
  }

  /**
   * With integer day numbers and every row on or before the end date, the
   * rows from the day after the candle to the end date are exactly the rows
   * dated after the candle.
   */
  lemma SubsequentIsLater(data: seq<Row>, candle: Row, endDate: int)
    requires forall k | 0 <= k < |data| :: data[k].bar.date <= endDate
    ensures AnyHigher(Between(data, candle.bar.date + 1, endDate), candle.bar.high) <==> !HighUnbroken(data, candle)
    ensures AnyLower(Between(data, candle.bar.date + 1, endDate), candle.bar.low) <==> !LowUnbroken(data, candle)
  {
    var sub := Between(data, candle.bar.date + 1, endDate);
    assert AnyHigher(sub, candle.bar.high) ==> !HighUnbroken(data, candle) by {
      if AnyHigher(sub, candle.bar.high) {
        var k :| 0 <= k < |sub| && sub[k].bar.high > candle.bar.high;
        assert sub[k] in sub;
        var j :| 0 <= j < |data| && data[j] == sub[k];
      }
    }
    assert !HighUnbroken(data, candle) ==> AnyHigher(sub, candle.bar.high) by {
      if !HighUnbroken(data, candle) {
        var j :| 0 <= j < |data| && data[j].bar.date > candle.bar.date && data[j].bar.high > candle.bar.high;
        assert data[j] in sub;
        var k :| 0 <= k < |sub| && sub[k] == data[j];
      }
    }
    assert AnyLower(sub, candle.bar.low) ==> !LowUnbroken(data, candle) by {
      if AnyLower(sub, candle.bar.low) {
        var k :| 0 <= k < |sub| && sub[k].bar.low < candle.bar.low;
        assert sub[k] in sub;
        var j :| 0 <= j < |data| && data[j] == sub[k];
      }
    }
    assert !LowUnbroken(data, candle) ==> AnyLower(sub, candle.bar.low) by {
      if !LowUnbroken(data, candle) {
        var j :| 0 <= j < |data| && data[j].bar.date > candle.bar.date && data[j].bar.low < candle.bar.low;
        assert data[j] in sub;
        var k :| 0 <= k < |sub| && sub[k] == data[j];
      }
    }
  }

  /**
   * The scan: for each candle in order, take the rows from the next day to
   * the end date and record the candle's high unless one of them trades
   * above it, and its low unless one of them trades below it. The rows are
   * in date order: a label slice is a date range only on a sorted index.
   */
  method ScanLevels(data: seq<Row>, candles: seq<Row>, endDate: int)
    returns (resistance: seq<Level>, support: seq<Level>)
    requires RowsAscending(data)
    requires forall k | 0 <= k < |data| :: data[k].bar.date <= endDate
    ensures resistance == ResistanceLevels(data, candles)
    ensures support == SupportLevels(data, candles)
  {
    resistance, support := [], [];
    for i := 0 to |candles|
      invariant resistance == ResistanceLevels(data, candles[..i])
      invariant support == SupportLevels(data, candles[..i])
    {
      var candle := candles[i];
      var subsequent := Between(data, candle.bar.date + 1, endDate);
      SubsequentIsLater(data, candle, endDate);
      assert candles[..i + 1][..i] == candles[..i];
      if !AnyHigher(subsequent, candle.bar.high) {
        resistance := resistance + [Level(candle.bar.date, candle.bar.high)];
      }
      if !AnyLower(subsequent, candle.bar.low) {
        support := support + [Level(candle.bar.date, candle.bar.low)];
      }
    }
    assert candles[..|candles|] == candles;
  }

  /** (d, p) is a resistance entry exactly when some candle dated d with high p has an unbroken high. */
  lemma {:induction false} ResistanceLevelsMembership(data: seq<Row>, candles: seq<Row>, lv: Level)
    ensures lv in ResistanceLevels(data, candles) <==>
      exists c :: c in candles && HighUnbroken(data, c) && lv == Level(c.bar.date, c.bar.high)
    decreases |candles|
  {
    if candles != [] {
      var init, last := candles[..|candles| - 1], candles[|candles| - 1];
      ResistanceLevelsMembership(data, init, lv);
      assert candles == init + [last];
      assert forall c :: c in candles <==> c in init || c == last;
    }
  }

  /** (d, p) is a support entry exactly when some candle dated d with low p has an unbroken low. */
  lemma {:induction false} SupportLevelsMembership(data: seq<Row>, candles: seq<Row>, lv: Level)
    ensures lv in SupportLevels(data, candles) <==>
      exists c :: c in candles && LowUnbroken(data, c) && lv == Level(c.bar.date, c.bar.low)
    decreases |candles|
  {
    if candles != [] {
      var init, last := candles[..|candles| - 1], candles[|candles| - 1];
      SupportLevelsMembership(data, init, lv);
      assert candles == init + [last];
      assert forall c :: c in candles <==> c in init || c == last;
    }
  }

  predicate LevelsAscending(levels: seq<Level>)
  {
    forall i, j | 0 <= i < j < |levels| :: levels[i].date < levels[j].date
  }

  /** Candles in date order give the resistance list in date order. */
  lemma {:induction false} ResistanceLevelsAscending(data: seq<Row>, candles: seq<Row>)
    requires RowsAscending(candles)
    ensures LevelsAscending(ResistanceLevels(data, candles))
    decreases |candles|
  {
    if candles != [] {
      var init, last := candles[..|candles| - 1], candles[|candles| - 1];
      ResistanceLevelsAscending(data, init);
      var res := ResistanceLevels(data, init);
      assert forall i | 0 <= i < |res| :: res[i].date < last.bar.date by {
        forall i | 0 <= i < |res| ensures res[i].date < last.bar.date {
          ResistanceLevelsMembership(data, init, res[i]);
          var c :| c in init && HighUnbroken(data, c) && res[i] == Level(c.bar.date, c.bar.high);
          var j :| 0 <= j < |init| && init[j] == c;
        }
      }
    }
  }

  /** Candles in date order give the support list in date order. */
  lemma {:induction false} SupportLevelsAscending(data: seq<Row>, candles: seq<Row>)
    requires RowsAscending(candles)
    ensures LevelsAscending(SupportLevels(data, candles))
    decreases |candles|
  {
    if candles != [] {
      var init, last := candles[..|candles| - 1], candles[|candles| - 1];
      SupportLevelsAscending(data, init);
      var sup := SupportLevels(data, init);
      assert forall i | 0 <= i < |sup| :: sup[i].date < last.bar.date by {
        forall i | 0 <= i < |sup| ensures sup[i].date < last.bar.date {
          SupportLevelsMembership(data, init, sup[i]);
          var c :| c in init && LowUnbroken(data, c) && sup[i] == Level(c.bar.date, c.bar.low);
          var j :| 0 <= j < |init| && init[j] == c;
        }
      }
    }
  }

  /** A candle that is the last row has no later rows, so both its levels stand. */
  lemma LastRowYieldsBothLevels(data: seq<Row>, candles: seq<Row>)
    requires RowsAscending(data)
    requires |data| > 0 && data[|data| - 1] in candles
    ensures Level(data[|data| - 1].bar.date, data[|data| - 1].bar.high) in ResistanceLevels(data, candles)
    ensures Level(data[|data| - 1].bar.date, data[|data| - 1].bar.low) in SupportLevels(data, candles)
  {
    var last := data[|data| - 1];
    ResistanceLevelsMembership(data, candles, Level(last.bar.date, last.bar.high));
    SupportLevelsMembership(data, candles, Level(last.bar.date, last.bar.low));
  }

  /**
   * The two decisions are independent: a candle whose high is exceeded the
   * next day records no resistance, yet still records its support when that
   * day's low stays at or above its own.
   */
  lemma BrokenHighKeepsSupport(candle: Row, next: Row)
    requires candle.bar.date < next.bar.date
    requires next.bar.high > candle.bar.high && next.bar.low >= candle.bar.low
    ensures ResistanceLevels([candle, next], [candle]) == []
    ensures SupportLevels([candle, next], [candle]) == [Level(candle.bar.date, candle.bar.low)]
  {
    assert [candle][..0] == [];
    assert !HighUnbroken([candle, next], candle) by {
      assert [candle, next][1] == next;
    }
  }

  function Max(a: real, b: real): real
  {
    if a < b then b else a
  }

  function Min(a: real, b: real): real
  {
    if a < b then a else b
  }

  /** The highest high among rows i.. of `data`. */
  function SuffixMaxHigh(data: seq<Row>, i: nat): real
    requires i < |data|
    decreases |data| - i
  {
    if i == |data| - 1 then data[i].bar.high else Max(data[i].bar.high, SuffixMaxHigh(data, i + 1))
  }

  /** The lowest low among rows i.. of `data`. */
  function SuffixMinLow(data: seq<Row>, i: nat): real
    requires i < |data|
    decreases |data| - i
  {
    if i == |data| - 1 then data[i].bar.low else Min(data[i].bar.low, SuffixMinLow(data, i + 1))
  }

  lemma {:induction false} SuffixMaxHighBound(data: seq<Row>, i: nat, price: real)
    requires i < |data|
    ensures SuffixMaxHigh(data, i) <= price <==> forall k | i <= k < |data| :: data[k].bar.high <= price
    decreases |data| - i
  {
    if i < |data| - 1 {
      SuffixMaxHighBound(data, i + 1, price);
    }
  }

  lemma {:induction false} SuffixMinLowBound(data: seq<Row>, i: nat, price: real)
    requires i < |data|
    ensures SuffixMinLow(data, i) >= price <==> forall k | i <= k < |data| :: data[k].bar.low >= price
    decreases |data| - i
  {
    if i < |data| - 1 {
      SuffixMinLowBound(data, i + 1, price);
    }
  }

  /**
   * The per-candle rescan agrees with the suffix-extremum formulation: row i
   * holds as resistance iff it is the last row or the highest later high is
   * at most its own, and as support iff it is the last row or the lowest
   * later low is at least its own.
   */
  lemma UnbrokenBySuffixExtremes(data: seq<Row>, i: nat)
    requires RowsAscending(data)
    requires i < |data|
    ensures HighUnbroken(data, data[i]) <==> i == |data| - 1 || SuffixMaxHigh(data, i + 1) <= data[i].bar.high
    ensures LowUnbroken(data, data[i]) <==> i == |data| - 1 || SuffixMinLow(data, i + 1) >= data[i].bar.low
  {
    if i < |data| - 1 {
      SuffixMaxHighBound(data, i + 1, data[i].bar.high);
      SuffixMinLowBound(data, i + 1, data[i].bar.low);
    }
  }
}
