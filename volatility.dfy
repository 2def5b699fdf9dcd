/**
 * The volatility estimator: per-bar true range, its 14-bar trailing mean
 * (the average true range), and the working set of bars that have one.
 */
module Volatility {
  import opened Bars

  /** Length of the rolling window of the average true range. */
  const WINDOW: nat := 14

  /**
   * Row-wise maximum across columns that skips missing cells, as a data
   * frame's maximum along the column axis does; all cells missing gives a
   * missing result.
   */
  function MaxPresent(xs: seq<Option<real>>): (m: Option<real>)
    ensures m.None? <==> forall k | 0 <= k < |xs| :: xs[k].None?
    ensures m.Some? ==> m in xs
    ensures m.Some? ==> forall k | 0 <= k < |xs| && xs[k].Some? :: xs[k].value <= m.value
  {
    if xs == [] then None
    else
      var rest := MaxPresent(xs[1..]);
      assert forall k | 1 <= k < |xs| :: xs[k] == xs[1..][k - 1];
      if xs[0].None? then rest
      else if rest.Some? && rest.value > xs[0].value then rest
      else xs[0]
  }

  /** The previous bar's close; the first bar has none (the shifted column holds NaN there). */
  function PrevClose(s: seq<Bar>, i: nat): Option<real>
    requires i < |s|
  {
    if i == 0 then None else Some(s[i - 1].close)
  }

  /** |x - y|, missing when y is (NaN propagates through subtraction and abs). */
  function AbsGap(x: real, y: Option<real>): Option<real>
  {
    match y
    case None => None
    case Some(v) => Some(Abs(x - v))
  }

  /**
   * True range of bar i: the largest of high - low, |high - previous close|
   * and |low - previous close|, the last two absent on the first bar.
   */
  function TrueRange(s: seq<Bar>, i: nat): (tr: real)
    requires i < |s|
    ensures tr >= s[i].high - s[i].low
    ensures i == 0 ==> tr == s[i].high - s[i].low
  {
    var pc := PrevClose(s, i);
    var cells := [Some(s[i].high - s[i].low), AbsGap(s[i].high, pc), AbsGap(s[i].low, pc)];
    assert cells[0].Some?;
    assert i == 0 ==> cells[1].None? && cells[2].None?;
    MaxPresent(cells).value
  }

  /**
   * After the first bar the true range also bounds both gaps to the previous
   * close, and it always equals one of its components. So it is non-negative
   * when high >= low, and on a well-formed bar it covers the close-to-close
   * move.
   */
  lemma TrueRangeIsMaximum(s: seq<Bar>, i: nat)
    requires i < |s|
    ensures i > 0 ==> TrueRange(s, i) >= Abs(s[i].high - s[i - 1].close)
    ensures i > 0 ==> TrueRange(s, i) >= Abs(s[i].low - s[i - 1].close)
    ensures || TrueRange(s, i) == s[i].high - s[i].low
            || (i > 0 && TrueRange(s, i) == Abs(s[i].high - s[i - 1].close))
            || (i > 0 && TrueRange(s, i) == Abs(s[i].low - s[i - 1].close))
    ensures s[i].low <= s[i].high ==> TrueRange(s, i) >= 0.0
    ensures i > 0 && WellFormed(s[i]) ==> TrueRange(s, i) >= Abs(s[i].close - s[i - 1].close)
  {
    var pc := PrevClose(s, i);
    var cells := [Some(s[i].high - s[i].low), AbsGap(s[i].high, pc), AbsGap(s[i].low, pc)];
    assert cells[0].Some?;
    assert i > 0 ==> cells[1] == Some(Abs(s[i].high - s[i - 1].close));
    assert i > 0 ==> cells[2] == Some(Abs(s[i].low - s[i - 1].close));
  }

  /** The true-range column of the whole series. */
  function TrueRanges(s: seq<Bar>): seq<real>
  {
    seq(|s|, i requires 0 <= i < |s| => TrueRange(s, i))
  }

  function Sum(xs: seq<real>): real
  {
    if xs == [] then 0.0 else Sum(xs[..|xs| - 1]) + xs[|xs| - 1]
  }

  lemma {:induction false} SumConcat(a: seq<real>, b: seq<real>)
    ensures Sum(a + b) == Sum(a) + Sum(b)
    decreases |b|
  {
    if b == [] {
      assert a + b == a;
    } else {
      var b' := b[..|b| - 1];
      assert (a + b)[..|a + b| - 1] == a + b';
      SumConcat(a, b');
    }
  }

  /** A sum of n values that are all at least lo is at least n * lo. */
  lemma {:induction false} SumAtLeast(xs: seq<real>, lo: real)
    requires forall k | 0 <= k < |xs| :: lo <= xs[k]
    ensures |xs| as real * lo <= Sum(xs)
    decreases |xs|
  {
    if xs != [] {
      var init := xs[..|xs| - 1];
      SumAtLeast(init, lo);
      var n := |init| as real;
      assert |xs| as real * lo == n * lo + lo;
    }
  }

  /** A sum of n values that are all at most hi is at most n * hi. */
  lemma {:induction false} SumAtMost(xs: seq<real>, hi: real)
    requires forall k | 0 <= k < |xs| :: xs[k] <= hi
    ensures Sum(xs) <= |xs| as real * hi
    decreases |xs|
  {
    if xs != [] {
      var init := xs[..|xs| - 1];
      SumAtMost(init, hi);
      var n := |init| as real;
      assert |xs| as real * hi == n * hi + hi;
    }
  }

  /**
   * The trailing mean of a column over WINDOW rows, as a rolling window of
   * that length with its default minimum count computes it: missing for the
   * first WINDOW - 1 rows, then the plain mean of the WINDOW values ending at
   * row i.
   */
  function RollingMean(t: seq<real>, i: nat): (m: Option<real>)
    requires i < |t|
    ensures m.Some? <==> i >= WINDOW - 1
  {
    if i < WINDOW - 1 then None else Some(Sum(t[i - (WINDOW - 1) .. i + 1]) / WINDOW as real)
  }

  /** Average true range at bar i: the rolling mean of the true-range column. */
  function Atr(s: seq<Bar>, i: nat): (atr: Option<real>)
    requires i < |s|
    ensures atr.Some? <==> i >= WINDOW - 1
  {
    RollingMean(TrueRanges(s), i)
  }

  /**
   * The per-index mean agrees with the incremental formulation: moving the
   * window by one row adds the new value's share and drops the oldest one's.
   */
  lemma RollingMeanStep(t: seq<real>, i: nat)
    requires WINDOW <= i < |t|
    ensures RollingMean(t, i).value == RollingMean(t, i - 1).value + (t[i] - t[i - WINDOW]) / WINDOW as real
  {
    var prev, cur := t[i - WINDOW .. i], t[i - (WINDOW - 1) .. i + 1];
    var mid := t[i - (WINDOW - 1) .. i];
    assert Sum(prev) == t[i - WINDOW] + Sum(mid) by {
      assert prev == [t[i - WINDOW]] + mid;
      SumConcat([t[i - WINDOW]], mid);
      assert [t[i - WINDOW]][..0] == [];
    }
    assert Sum(cur) == Sum(mid) + t[i] by {
      assert cur[..WINDOW - 1] == mid;
    }
  }

  /** The mean lies between the smallest and the largest value of its window. */
  lemma RollingMeanWithin(t: seq<real>, i: nat, lo: real, hi: real)
    requires WINDOW - 1 <= i < |t|
    ensures (forall k | i - (WINDOW - 1) <= k <= i :: lo <= t[k]) ==> lo <= RollingMean(t, i).value
    ensures (forall k | i - (WINDOW - 1) <= k <= i :: t[k] <= hi) ==> RollingMean(t, i).value <= hi
  {
    var w := t[i - (WINDOW - 1) .. i + 1];
    if forall k | i - (WINDOW - 1) <= k <= i :: lo <= t[k] {
      assert forall k | 0 <= k < |w| :: lo <= w[k] by {
        forall k | 0 <= k < |w| ensures lo <= w[k] {
          assert w[k] == t[i - (WINDOW - 1) + k];
        }
      }
      SumAtLeast(w, lo);
    }
    if forall k | i - (WINDOW - 1) <= k <= i :: t[k] <= hi {
      assert forall k | 0 <= k < |w| :: w[k] <= hi by {
        forall k | 0 <= k < |w| ensures w[k] <= hi {
          assert w[k] == t[i - (WINDOW - 1) + k];
        }
      }
      SumAtMost(w, hi);
    }
  }

  /** Bars whose high is not below their low give a non-negative average true range. */
  lemma AtrNonNegative(s: seq<Bar>, i: nat)
    requires WINDOW - 1 <= i < |s|
    requires forall k | 0 <= k < |s| :: s[k].low <= s[k].high
    ensures Atr(s, i).value >= 0.0
  {
    var t := TrueRanges(s);
    forall k | i - (WINDOW - 1) <= k <= i ensures 0.0 <= t[k] {
      TrueRangeIsMaximum(s, k);
    }
    RollingMeanWithin(t, i, 0.0, 0.0);
  }

  /** A bar with the columns derived for it; `atr` is missing for the first WINDOW - 1 bars. */
  datatype Annotated = Annotated(bar: Bar, tr: real, atr: Option<real>)

  /** A bar of the working set: every derived column is present. */
  datatype Row = Row(bar: Bar, tr: real, atr: real)

  /** The series with its true-range and average-true-range columns added. */
  function Annotate(s: seq<Bar>): seq<Annotated>
  {
    seq(|s|, i requires 0 <= i < |s| => Annotated(s[i], TrueRange(s, i), Atr(s, i)))
  }

  /** Drops the rows whose average true range is missing, keeping the others in order. */
  function DropUndefined(a: seq<Annotated>): (rows: seq<Row>)
    ensures |rows| <= |a|
    ensures rows == [] <==> forall k | 0 <= k < |a| :: a[k].atr.None?
  {
    if a == [] then []
    else
      assert forall k | 1 <= k < |a| :: a[k] == a[1..][k - 1];
      match a[0].atr
      case None => DropUndefined(a[1..])
      case Some(atr) => [Row(a[0].bar, a[0].tr, atr)] + DropUndefined(a[1..])
  }

  /** A row survives the drop exactly when its bar appears in the input with that average present. */
  lemma {:induction false} DropUndefinedKeepsDefined(a: seq<Annotated>)
    ensures forall r :: r in DropUndefined(a) <==> Annotated(r.bar, r.tr, Some(r.atr)) in a
    decreases |a|
  {
    if a != [] {
      DropUndefinedKeepsDefined(a[1..]);
      assert forall x :: x in a <==> x == a[0] || x in a[1..];
    }
  }

  /** When the missing averages form a prefix of length k, dropping them leaves exactly the rest. */
  lemma {:induction false} DropUndefinedSkipsPrefix(a: seq<Annotated>, k: nat)
    requires k <= |a|
    requires forall j | 0 <= j < k :: a[j].atr.None?
    requires forall j | k <= j < |a| :: a[j].atr.Some?
    ensures |DropUndefined(a)| == |a| - k
    ensures forall j | 0 <= j < |a| - k ::
      DropUndefined(a)[j] == Row(a[k + j].bar, a[k + j].tr, a[k + j].atr.value)
    decreases |a|
  {
    if a != [] {
      var tail := a[1..];
      assert forall j | 1 <= j < |a| :: a[j] == tail[j - 1];
      if k > 0 {
        DropUndefinedSkipsPrefix(tail, k - 1);
      } else {
        DropUndefinedSkipsPrefix(tail, 0);
      }
    }
  }

  /** Rows dated in strictly increasing order. */
  predicate RowsAscending(data: seq<Row>)
  {
    forall i, j | 0 <= i < j < |data| :: data[i].bar.date < data[j].bar.date
  }

  /**
   * The working set after the rows without an average true range are
   * dropped. A series shorter than WINDOW leaves nothing.
   */
  function WorkingSet(s: seq<Bar>): (data: seq<Row>)
    ensures |data| == if |s| < WINDOW then 0 else |s| - (WINDOW - 1)
  {
    var a := Annotate(s);
    DropUndefinedSkipsPrefix(a, if |s| < WINDOW - 1 then |s| else WINDOW - 1);
    DropUndefined(a)
  }

  /**
   * Row j of the working set is bar j + WINDOW - 1 of the series, carrying
   * that bar's true range and average true range; so the working set keeps
   * the series' date order.
   */
  lemma WorkingSetRows(s: seq<Bar>)
    ensures forall j | 0 <= j < |WorkingSet(s)| ::
      WorkingSet(s)[j] == Row(s[j + WINDOW - 1], TrueRange(s, j + WINDOW - 1), Atr(s, j + WINDOW - 1).value)
    ensures DatesIncreasing(s) ==> RowsAscending(WorkingSet(s))
  {
    DropUndefinedSkipsPrefix(Annotate(s), if |s| < WINDOW - 1 then |s| else WINDOW - 1);
  }
}
