# Significant candles and unbroken support/resistance levels

This project models the analysis at the heart of the Streamlit app that
finds "significant candles" in a daily price series and the unbroken
resistance and support levels they leave. The analysis has three stages.

1. **Volatility** (`volatility.dfy`). For each bar, the true range is the
   largest of high − low, |high − previous close| and |low − previous close|.
   The first bar has no previous close, so its two shifted terms are missing.
   The average true range (ATR) is the mean true range over the trailing 14
   bars, and it is missing for the first 13 bars. Bars without an ATR are
   dropped, and what remains is the working set.
2. **Significance** (`significance.dfy`). A bar of the working set is a
   significant candle when its true range is strictly greater than 1.2 times
   its ATR.
3. **Levels** (`levels.dfy`). The scan visits the significant candles in
   order and takes the rows dated from the next day to the end date.
   - It records the candle's (date, high) as a resistance level when no such
     row has a higher high.
   - It records the candle's (date, low) as a support level when no such row
     has a lower low.

`pipeline.dfy` puts the stages together as `Analyze`. An empty download
ends with `NoData`, the model of the app's error message. Any other
series gives the report that `ReportOf` defines. The lemmas in that file
state each output in terms of the input series alone:

- which bars are significant;
- which (date, price) pairs are resistance or support levels, in both
  directions;
- that both level lists are in date order.

Modelling choices:

- Prices are exact `real`s, so the literal 1.2 is exactly 6/5 (`MULTIPLIER`).
- Dates are integer day numbers, so "the day after the candle" is `date + 1`.
- A NaN cell is `None` of `Bars.Option`. The row-wise maximum that skips
  NaN cells is `Volatility.MaxPresent`.
- The frame's column updates and the in-place `dropna` are pure
  functions over sequences. The level scan, a loop that appends to two
  lists, is the method `Levels.ScanLevels`. Its loop invariants tie it to
  the functions `ResistanceLevels` and `SupportLevels` that define both lists.

## Model

| member | source | states |
|---|---|---|
| Volatility.MaxPresent | streamlit_app.py:33 | The row maximum is missing exactly when every cell is missing; otherwise it is one of the cells and at least every present cell |
| Volatility.TrueRange | streamlit_app.py:30-33 | The true range of a bar is at least its high − low, and on the first bar, which has no previous close, it is exactly high − low |
| Volatility.TrueRangeIsMaximum | streamlit_app.py:30-33 | On bars after the first the true range is at least both gaps to the previous close; it always equals one of its three components; it is non-negative when high ≥ low; on a well-formed bar it covers the close-to-close move |
| Volatility.RollingMean | streamlit_app.py:34 | The 14-row rolling mean is defined exactly from row 13 on (missing before) |
| Volatility.Atr | streamlit_app.py:34 | The average true range of bar i is defined exactly when i ≥ 13, as the rolling mean of the true-range column |
| Volatility.RollingMeanStep | streamlit_app.py:34 | Moving the window by one row changes the mean by (new value − dropped value) / 14, so the per-row mean agrees with the incremental rolling formulation |
| Volatility.RollingMeanWithin | streamlit_app.py:34 | The mean lies between any lower and upper bound of the 14 values in its window |
| Volatility.AtrNonNegative | streamlit_app.py:30-34 | When every bar has high ≥ low, every defined ATR is non-negative |
| Volatility.DropUndefined | streamlit_app.py:37 | Dropping the rows without an average never adds rows, and leaves nothing exactly when every average is missing |
| Volatility.DropUndefinedKeepsDefined | streamlit_app.py:37 | A row survives the drop exactly when its bar, true range and present average appear in the input |
| Volatility.DropUndefinedSkipsPrefix | streamlit_app.py:37 | Dropping rows whose ATR is missing, when those rows form a prefix of length k, leaves exactly the remaining rows in order, each with its own ATR value |
| Volatility.WorkingSet | streamlit_app.py:30-37 | The working set has no rows when the series has fewer than 14 bars, and otherwise one row per bar from index 13 on |
| Volatility.WorkingSetRows | streamlit_app.py:30-37 | Row j of the working set is bar j + 13 with its own true range and ATR; date-ordered bars give a date-ordered working set |
| Significance.IsSignificant | streamlit_app.py:41 | The comparison is strict: a true range exactly 1.2 × the average is not significant; a significant bar with a non-negative average has a true range above that average |
| Significance.SignificantCandles | streamlit_app.py:41 | A row is a significant candle exactly when it is in the working set and its true range is strictly above 1.2 × its ATR; there are never more candles than rows |
| Significance.SignificantCandlesAscending | streamlit_app.py:41 | The filter keeps the working set's date order |
| Levels.Between | streamlit_app.py:56 | The label slice holds exactly the rows dated from the lower to the upper bound inclusive, and never more rows than the frame |
| Levels.BetweenAscending | streamlit_app.py:56 | The slice keeps the rows' order: date-ordered rows give a date-ordered slice |
| Levels.SubsequentIsLater | streamlit_app.py:56-63 | When every row is dated on or before the end date, some row of the slice from the next day breaks the high (low) exactly when the high (low) is not unbroken by the rows dated after the candle |
| Levels.ResistanceLevels | streamlit_app.py:48-60 | The resistance list the scan must produce, one entry per candle whose high stands, in candle order; never more entries than candles |
| Levels.SupportLevels | streamlit_app.py:48-64 | The support list the scan must produce, one entry per candle whose low stands, in candle order; never more entries than candles |
| Levels.ScanLevels | streamlit_app.py:48-64 | The scan's two lists are exactly ResistanceLevels and SupportLevels of the candles, one entry per candle whose high (low) stands, in candle order |
| Levels.ResistanceLevelsMembership | streamlit_app.py:51-60 | (d, p) is a resistance entry exactly when some candle dated d with high p has no later row with a higher high |
| Levels.SupportLevelsMembership | streamlit_app.py:51-64 | (d, p) is a support entry exactly when some candle dated d with low p has no later row with a lower low |
| Levels.ResistanceLevelsAscending | streamlit_app.py:51-60 | Candles in date order give a resistance list in strictly increasing date order |
| Levels.SupportLevelsAscending | streamlit_app.py:51-64 | Candles in date order give a support list in strictly increasing date order |
| Levels.LastRowYieldsBothLevels | streamlit_app.py:56-64 | A significant candle that is the last row of the working set records both its resistance and its support, since no row is later |
| Levels.BrokenHighKeepsSupport | streamlit_app.py:59-64 | In a working set of the candle and one later row, a later high above the candle's removes the resistance entry while a later low that is not lower keeps the support entry: the two decisions are independent |
| Levels.SuffixMaxHighBound | streamlit_app.py:59 | The highest high of rows i.. is at most p exactly when every one of those highs is at most p |
| Levels.SuffixMinLowBound | streamlit_app.py:63 | The lowest low of rows i.. is at least p exactly when every one of those lows is at least p |
| Levels.UnbrokenBySuffixExtremes | streamlit_app.py:56-64 | On date-ordered rows, the rescan's decision for row i agrees with the suffix formulation: resistance iff it is the last row or the highest later high is at most its high, support iff it is the last row or the lowest later low is at least its low |
| Pipeline.ReportOf | streamlit_app.py:30-64 | A series of fewer than 14 bars gives an empty working set, no candles and no levels (not an error); there are never more candles than rows, nor more levels of either kind than candles |
| Pipeline.Analyze | streamlit_app.py:24-64 | An empty download ends with NoData; any other series gives exactly the report of working set, candles, resistance and support lists |
| Pipeline.SignificantCharacterized | streamlit_app.py:30-41 | A row is a significant candle exactly when it is bar j of the series, with j ≥ 13, its true range and ATR, and that true range is strictly above 1.2 × that ATR |
| Pipeline.UnbrokenShifted | streamlit_app.py:56-64 | When the rows carry the series' bars from some offset on, a row's high (low) is unbroken within the rows exactly when no later bar of the series breaks it |
| Pipeline.UnbrokenInSeries | streamlit_app.py:37-64 | A working-set row's high (low) is unbroken exactly when no later bar of the date-ordered series has a higher high (lower low) |
| Pipeline.ResistanceSound | streamlit_app.py:41-60 | Every resistance entry is the (date, high) of a significant bar j ≥ 13 whose high no later bar exceeds |
| Pipeline.ResistanceComplete | streamlit_app.py:41-60 | Every significant bar j ≥ 13 whose high no later bar exceeds yields a resistance entry |
| Pipeline.ResistanceCharacterized | streamlit_app.py:41-60 | (d, p) is a resistance entry exactly when it is the (date, high) of a significant bar whose high no later bar exceeds |
| Pipeline.SupportSound | streamlit_app.py:41-64 | Every support entry is the (date, low) of a significant bar j ≥ 13 whose low no later bar undercuts |
| Pipeline.SupportComplete | streamlit_app.py:41-64 | Every significant bar j ≥ 13 whose low no later bar undercuts yields a support entry |
| Pipeline.SupportCharacterized | streamlit_app.py:41-64 | (d, p) is a support entry exactly when it is the (date, low) of a significant bar whose low no later bar undercuts |
| Pipeline.ReportLevelsAscending | streamlit_app.py:51-64 | For a date-ordered series both level lists come out in strictly increasing date order |

## Left out

- The Streamlit user interface is not modelled: title, inputs, error and stop calls, expanders, tables and messages (streamlit_app.py:6-13, 25-26, 66-93). An empty download is the `NoData` outcome.
- The `yfinance` download (streamlit_app.py:21) is a network call. The series is a parameter of `Analyze`.
- The 60-day calendar window (streamlit_app.py:17-18) is not modelled. Dates are integer day numbers. `Analyze` and `ScanLevels` require every bar to be dated on or before the end date, which holds for what the download returns.
- The slice from the day after a candle to the end date (streamlit_app.py:56) is modelled as a date filter. A label slice is a date range only on a date-sorted index, so `Analyze` and `ScanLevels` require the bars in strictly increasing date order, as the download delivers them; unsorted input is not modelled.
- Floating-point rounding in the subtractions, the rolling mean and the 1.2 literal is not modelled. All arithmetic is on exact reals.
- The two-decimal display formatting (streamlit_app.py:70, 76, 81, 88) is presentation only.
- The multi-level column layout that some library versions return for a single ticker is not modelled. Each bar has plain open, high, low, close and volume fields.
- The code never checks the price ordering inside a bar, so the model does not either. The lemmas that need high ≥ low, or a well-formed bar, take it as a precondition.
- The app does not reject a series shorter than 14 bars: the drop leaves an empty working set and no results (`Pipeline.ReportOf`).
- Bars before index 13 can never be significant candles: they have no average true range and are dropped before the filter (`Pipeline.SignificantCharacterized`).
- Repeating the analysis on the same input gives the same report. Everything is a deterministic function of the series, so no separate idempotence lemma is stated.
