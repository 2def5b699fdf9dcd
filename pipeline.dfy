/**
 * The whole analysis of one downloaded series: true range and average true
 * range, the drop of bars without an average, the significance filter and
 * the level scan, with what the result means in terms of the series itself.
 */
module Pipeline {
  import opened Bars
  import opened Volatility
  import opened Significance
  import opened Levels

  /** What the analysis hands to the display: the working set, its significant candles and both level lists. */
  datatype Report = Report(data: seq<Row>, significant: seq<Row>, resistance: seq<Level>, support: seq<Level>)

  /** An empty download stops the analysis with an error message; otherwise it produces a report. */
  datatype Outcome = NoData | Done(report: Report)

  /**
   * The report for a series. A series shorter than WINDOW is not an error:
   * it leaves an empty working set and so no candles and no levels.
   */
  function ReportOf(series: seq<Bar>): (r: Report)
    ensures |series| < WINDOW ==> r.data == [] && r.significant == [] && r.resistance == [] && r.support == []
    ensures |r.significant| <= |r.data| && |r.resistance| <= |r.significant| && |r.support| <= |r.significant|
  {
    var data := WorkingSet(series);
    var significant := SignificantCandles(data);
    Report(data, significant, ResistanceLevels(data, significant), SupportLevels(data, significant))
  }

  /**
   * Runs the stages in order. The download comes in date order, which the
   * label slices of the scan need, and every bar lies on or before the end
   * date, so the end of each scanned slice cuts nothing off.
   */
  method Analyze(series: seq<Bar>, endDate: int) returns (outcome: Outcome)
    requires DatesIncreasing(series)
    requires forall i | 0 <= i < |series| :: series[i].date <= endDate
    ensures outcome == if series == [] then NoData else Done(ReportOf(series))
  {
    if series == [] {
      return NoData;
    }
    var data := WorkingSet(series);
    WorkingSetRows(series);
    var significant := SignificantCandles(data);
    var resistance, support := ScanLevels(data, significant, endDate);
    outcome := Done(Report(data, significant, resistance, support));
  }

  /**
   * A candle of the report is bar j of the series with j >= WINDOW - 1 (so
   * its average true range is defined) whose true range is strictly above
   * MULTIPLIER times that average.
   */
  lemma SignificantCharacterized(s: seq<Bar>, r: Row)
    ensures r in ReportOf(s).significant <==>
      exists j {:trigger TrueRange(s, j)} | WINDOW - 1 <= j < |s| ::
        && r == Row(s[j], TrueRange(s, j), Atr(s, j).value)
        && TrueRange(s, j) > MULTIPLIER * Atr(s, j).value
  {
    var data := WorkingSet(s);
    WorkingSetRows(s);
    if r in ReportOf(s).significant {
      var i :| 0 <= i < |data| && data[i] == r;
      assert r == Row(s[i + WINDOW - 1], TrueRange(s, i + WINDOW - 1), Atr(s, i + WINDOW - 1).value);
    }
    if exists j {:trigger TrueRange(s, j)} | WINDOW - 1 <= j < |s| ::
        && r == Row(s[j], TrueRange(s, j), Atr(s, j).value)
        && TrueRange(s, j) > MULTIPLIER * Atr(s, j).value
    {
      var j :| WINDOW - 1 <= j < |s|
        && r == Row(s[j], TrueRange(s, j), Atr(s, j).value)
        && TrueRange(s, j) > MULTIPLIER * Atr(s, j).value;
      assert data[j - (WINDOW - 1)] == r;
    }
  }

  /**
   * For rows that are the bars of a series from index `offset` on, "no later
   * row" is "no later bar of the series".
   */
  lemma UnbrokenShifted(data: seq<Row>, s: seq<Bar>, offset: nat, j: nat)
    requires DatesIncreasing(s)
    requires |data| + offset == |s|
    requires forall k | 0 <= k < |data| :: data[k].bar == s[k + offset]
    requires offset <= j < |s|
    ensures HighUnbroken(data, data[j - offset]) <==> forall k | j < k < |s| :: s[k].high <= s[j].high
    ensures LowUnbroken(data, data[j - offset]) <==> forall k | j < k < |s| :: s[k].low >= s[j].low
  {
    var c := data[j - offset];
    assert c.bar == s[j];
    if HighUnbroken(data, c) {
      forall k | j < k < |s| ensures s[k].high <= s[j].high {
        assert data[k - offset].bar == s[k];
      }
    }
    if forall k | j < k < |s| :: s[k].high <= s[j].high {
      forall k | 0 <= k < |data| && data[k].bar.date > c.bar.date ensures data[k].bar.high <= c.bar.high {
        assert data[k].bar == s[k + offset];
      }
    }
    if LowUnbroken(data, c) {
      forall k | j < k < |s| ensures s[k].low >= s[j].low {
        assert data[k - offset].bar == s[k];
      }
    }
    if forall k | j < k < |s| :: s[k].low >= s[j].low {
      forall k | 0 <= k < |data| && data[k].bar.date > c.bar.date ensures data[k].bar.low >= c.bar.low {
        assert data[k].bar == s[k + offset];
      }
    }
  }

  /** On the working set of a series, "no later row" is "no later bar of the series". */
  lemma UnbrokenInSeries(s: seq<Bar>, j: nat)
    requires DatesIncreasing(s)
    requires WINDOW - 1 <= j < |s|
    ensures HighUnbroken(WorkingSet(s), WorkingSet(s)[j - (WINDOW - 1)]) <==>
      forall k | j < k < |s| :: s[k].high <= s[j].high
    ensures LowUnbroken(WorkingSet(s), WorkingSet(s)[j - (WINDOW - 1)]) <==>
      forall k | j < k < |s| :: s[k].low >= s[j].low
  {
    var data := WorkingSet(s);
    WorkingSetRows(s);
    assert forall k | 0 <= k < |data| :: data[k].bar == s[k + (WINDOW - 1)];
    UnbrokenShifted(data, s, WINDOW - 1, j);
  }

  /** Every resistance entry is the high of a significant bar that no later bar has a higher high. */
  lemma ResistanceSound(s: seq<Bar>, lv: Level)
    requires DatesIncreasing(s)
    requires lv in ReportOf(s).resistance
    ensures exists j {:trigger TrueRange(s, j)} | WINDOW - 1 <= j < |s| ::
        && TrueRange(s, j) > MULTIPLIER * Atr(s, j).value
        && (forall k | j < k < |s| :: s[k].high <= s[j].high)
        && lv == Level(s[j].date, s[j].high)
  {
    var data := WorkingSet(s);
    var significant := SignificantCandles(data);
    assert exists i | 0 <= i < |data| ::
      data[i] in significant && HighUnbroken(data, data[i]) && lv == Level(data[i].bar.date, data[i].bar.high)
    by {
      ResistanceLevelsMembership(data, significant, lv);
      var c :| c in significant && HighUnbroken(data, c) && lv == Level(c.bar.date, c.bar.high);
      var i :| 0 <= i < |data| && data[i] == c;
    }
    var i :| 0 <= i < |data| &&
      data[i] in significant && HighUnbroken(data, data[i]) && lv == Level(data[i].bar.date, data[i].bar.high);
    var j := i + (WINDOW - 1);
    assert TrueRange(s, j) > MULTIPLIER * Atr(s, j).value
      && (forall k | j < k < |s| :: s[k].high <= s[j].high)
      && lv == Level(s[j].date, s[j].high)
    by {
      WorkingSetRows(s);
      assert data[i] == Row(s[j], TrueRange(s, j), Atr(s, j).value);
      assert IsSignificant(data[i]);
      UnbrokenInSeries(s, j);
    }
  }

  /** The high of every significant bar that no later bar has a higher high is a resistance entry. */
  lemma ResistanceComplete(s: seq<Bar>, j: nat)
    requires DatesIncreasing(s)
    requires WINDOW - 1 <= j < |s|
    requires TrueRange(s, j) > MULTIPLIER * Atr(s, j).value
    requires forall k | j < k < |s| :: s[k].high <= s[j].high
    ensures Level(s[j].date, s[j].high) in ReportOf(s).resistance
  {
    var data := WorkingSet(s);
    var significant := SignificantCandles(data);
    var c := data[j - (WINDOW - 1)];
    WorkingSetRows(s);
    assert c == Row(s[j], TrueRange(s, j), Atr(s, j).value);
    assert IsSignificant(c);
    UnbrokenInSeries(s, j);
    assert c in significant;
    ResistanceLevelsMembership(data, significant, Level(s[j].date, s[j].high));
  }

  /**
   * (d, p) is an unbroken resistance of the series exactly when bar j, dated d
   * with high p, is a significant candle and no later bar has a higher high.
   */
  lemma ResistanceCharacterized(s: seq<Bar>, lv: Level)
    requires DatesIncreasing(s)
    ensures lv in ReportOf(s).resistance <==>
      exists j {:trigger TrueRange(s, j)} | WINDOW - 1 <= j < |s| ::
        && TrueRange(s, j) > MULTIPLIER * Atr(s, j).value
        && (forall k | j < k < |s| :: s[k].high <= s[j].high)
        && lv == Level(s[j].date, s[j].high)
  {
    if lv in ReportOf(s).resistance {
      ResistanceSound(s, lv);
    }
    if exists j {:trigger TrueRange(s, j)} | WINDOW - 1 <= j < |s| ::
        && TrueRange(s, j) > MULTIPLIER * Atr(s, j).value
        && (forall k | j < k < |s| :: s[k].high <= s[j].high)
        && lv == Level(s[j].date, s[j].high)
    {
      var j :| WINDOW - 1 <= j < |s|
        && TrueRange(s, j) > MULTIPLIER * Atr(s, j).value
        && (forall k | j < k < |s| :: s[k].high <= s[j].high)
        && lv == Level(s[j].date, s[j].high);
      ResistanceComplete(s, j);
    }
  }

  /** Every support entry is the low of a significant bar that no later bar has a lower low. */
  lemma SupportSound(s: seq<Bar>, lv: Level)
    requires DatesIncreasing(s)
    requires lv in ReportOf(s).support
    ensures exists j {:trigger TrueRange(s, j)} | WINDOW - 1 <= j < |s| ::
        && TrueRange(s, j) > MULTIPLIER * Atr(s, j).value
        && (forall k | j < k < |s| :: s[k].low >= s[j].low)
        && lv == Level(s[j].date, s[j].low)
  {
    var data := WorkingSet(s);
    var significant := SignificantCandles(data);
    assert exists i | 0 <= i < |data| ::
      data[i] in significant && LowUnbroken(data, data[i]) && lv == Level(data[i].bar.date, data[i].bar.low)
    by {
      SupportLevelsMembership(data, significant, lv);
      var c :| c in significant && LowUnbroken(data, c) && lv == Level(c.bar.date, c.bar.low);
      var i :| 0 <= i < |data| && data[i] == c;
    }
    var i :| 0 <= i < |data| &&
      data[i] in significant && LowUnbroken(data, data[i]) && lv == Level(data[i].bar.date, data[i].bar.low);
    var j := i + (WINDOW - 1);
    assert TrueRange(s, j) > MULTIPLIER * Atr(s, j).value
      && (forall k | j < k < |s| :: s[k].low >= s[j].low)
      && lv == Level(s[j].date, s[j].low)
    by {
      WorkingSetRows(s);
      assert data[i] == Row(s[j], TrueRange(s, j), Atr(s, j).value);
      assert IsSignificant(data[i]);
      UnbrokenInSeries(s, j);
    }
  }

  /** The low of every significant bar that no later bar has a lower low is a support entry. */
  lemma SupportComplete(s: seq<Bar>, j: nat)
    requires DatesIncreasing(s)
    requires WINDOW - 1 <= j < |s|
    requires TrueRange(s, j) > MULTIPLIER * Atr(s, j).value
    requires forall k | j < k < |s| :: s[k].low >= s[j].low
    ensures Level(s[j].date, s[j].low) in ReportOf(s).support
  {
    var data := WorkingSet(s);
    var significant := SignificantCandles(data);
    var c := data[j - (WINDOW - 1)];
    WorkingSetRows(s);
    assert c == Row(s[j], TrueRange(s, j), Atr(s, j).value);
    assert IsSignificant(c);
    UnbrokenInSeries(s, j);
    assert c in significant;
    SupportLevelsMembership(data, significant, Level(s[j].date, s[j].low));
  }

  /**
   * (d, p) is an unbroken support of the series exactly when bar j, dated d
   * with low p, is a significant candle and no later bar has a lower low.
   */
  lemma SupportCharacterized(s: seq<Bar>, lv: Level)
    requires DatesIncreasing(s)
    ensures lv in ReportOf(s).support <==>
      exists j {:trigger TrueRange(s, j)} | WINDOW - 1 <= j < |s| ::
        && TrueRange(s, j) > MULTIPLIER * Atr(s, j).value
        && (forall k | j < k < |s| :: s[k].low >= s[j].low)
        && lv == Level(s[j].date, s[j].low)
  {
    if lv in ReportOf(s).support {
      SupportSound(s, lv);
    }
    if exists j {:trigger TrueRange(s, j)} | WINDOW - 1 <= j < |s| ::
        && TrueRange(s, j) > MULTIPLIER * Atr(s, j).value
        && (forall k | j < k < |s| :: s[k].low >= s[j].low)
        && lv == Level(s[j].date, s[j].low)
    {
      var j :| WINDOW - 1 <= j < |s|
        && TrueRange(s, j) > MULTIPLIER * Atr(s, j).value
        && (forall k | j < k < |s| :: s[k].low >= s[j].low)
        && lv == Level(s[j].date, s[j].low);
      SupportComplete(s, j);
    }
  }

  /** Both level lists come out in ascending date order. */
  lemma ReportLevelsAscending(s: seq<Bar>)
    requires DatesIncreasing(s)
    ensures LevelsAscending(ReportOf(s).resistance)
    ensures LevelsAscending(ReportOf(s).support)
  {
    var data := WorkingSet(s);
    WorkingSetRows(s);
    SignificantCandlesAscending(data);
    ResistanceLevelsAscending(data, SignificantCandles(data));
    SupportLevelsAscending(data, SignificantCandles(data));
  }
}
