/**
 * The evaluation part of `forecast_prophet_optimized`: the two windows the
 * error metrics compare, and the comparison table built from the group and
 * the post-processed forecast. Index arithmetic follows pandas `iloc`
 * (Python slice semantics) and the table column assignment follows pandas
 * index-label alignment, as the source does.
 */
module Evaluation {
  import opened Options
  import opened Prep

  /** `make_future_dataframe(periods=30)`: rows forecast past the history. */
  const Horizon: nat := 30

  /** `iloc[-30:]` and `iloc[:30]`: the evaluation window. */
  const Window: nat := 30

  function Min(a: int, b: int): int {
    if a <= b then a else b
  }

  /**
   * Python's normalisation of a slice bound `k` for a sequence of length
   * `len`: a negative bound counts from the end, and the result is clipped
   * to `[0, len]`. Note that `-0` is `0`, the start.
   */
  function SliceBound(len: nat, k: int): (b: nat)
    ensures b <= len
  {
    if k < 0 then (if len + k < 0 then 0 else len + k)
    else if k > len then len
    else k
  }

  /** `s.iloc[k:]` */
  function ILocFrom<T>(s: seq<T>, k: int): seq<T> {
    s[SliceBound(|s|, k)..]
  }

  /** `s.iloc[:k]` */
  function ILocTo<T>(s: seq<T>, k: int): seq<T> {
    s[..SliceBound(|s|, k)]
  }

  /** `subset['y'].iloc[-30:]`: the actual values the metrics use. */
  function ActualWindow(y: seq<real>): seq<real> {
    ILocFrom(y, -(Window as int))
  }

  /** `forecast['yhat'].iloc[-len(subset):].iloc[:30]`, with `n` = `len(subset)`. */
  function PredictionWindow(yhat: seq<real>, n: nat): seq<real> {
    ILocTo(ILocFrom(yhat, -(n as int)), Window)
  }

  /** Index of the first observation in the actual window. */
  function ActualWindowStart(n: nat): nat {
    SliceBound(n, -(Window as int))
  }

  /** Index of the first forecast row in the prediction window. */
  function PredictionWindowStart(n: nat): nat {
    SliceBound(n + Horizon, -(n as int))
  }

  /** The actual window is the last min(30, n) observations. */
  lemma ActualWindowIsTrailing(y: seq<real>)
    ensures |ActualWindow(y)| == Min(Window, |y|)
    ensures ActualWindow(y) == y[|y| - Min(Window, |y|)..]
    ensures ActualWindow(y) == y[ActualWindowStart(|y|)..]
  {
  }

  /**
   * For a non-empty group and a forecast of n + 30 rows, the prediction
   * window is forecast rows [30, 30 + min(30, n)), whatever n is.
   */
  lemma PredictionWindowSpan(yhat: seq<real>, n: nat)
    requires n >= 1 && |yhat| == n + Horizon
    ensures PredictionWindowStart(n) == Horizon
    ensures PredictionWindow(yhat, n) == yhat[Horizon..Horizon + Min(Window, n)]
  {
  }

  /** Both windows have the same length for every non-empty group. */
  lemma WindowsSameLength(y: seq<real>, yhat: seq<real>)
    requires |y| >= 1 && |yhat| == |y| + Horizon
    ensures |ActualWindow(y)| == |PredictionWindow(yhat, |y|)| == Min(Window, |y|)
  {
    ActualWindowIsTrailing(y);
    PredictionWindowSpan(yhat, |y|);
  }

  /**
   * Forecast row i < n is the fitted value at the date of observation i, so
   * the two windows compare the same dates only when they start at the same
   * row: exactly when the group has 60 observations.
   */
  lemma WindowsAlignedIff(n: nat)
    requires n >= 1
    ensures ActualWindowStart(n) == PredictionWindowStart(n) <==> n == 60
  {
  }

  /**
   * With no observations, `iloc[-0:]` is the whole forecast: the windows
   * then have 0 and 30 rows.
   */
  lemma EmptySeriesWindows(yhat: seq<real>)
    requires |yhat| == Horizon
    ensures ActualWindow([]) == []
    ensures PredictionWindow(yhat, 0) == yhat
  {
  }

  // ------------------------------------------------------ comparison table

  /** A row of a group together with its index label in `grouped_data`. */
  datatype Labelled = Labelled(index: nat, sale: Sale)

  /** A row of `table_df`; `None` stands for NaN. */
  datatype TableRow = TableRow(
    ds: int, plant: int, material: int, y: real,
    predicted: Option<real>, difference: Option<real>, percentage: Option<real>)

  /**
   * `table_df['Predicted Quantity'] = forecast['yhat'].iloc[:n]`: the right
   * side has labels 0 .. n-1 and the assignment aligns on labels, so a row
   * whose label is not among them gets NaN.
   */
  function PredictedAt(yhat: seq<real>, n: nat, index: nat): Option<real> {
    var head := ILocTo(yhat, n);
    if index < |head| then Some(head[index]) else None
  }

  /** `y - predicted`; NaN propagates. */
  function Difference(y: real, predicted: Option<real>): Option<real> {
    if predicted.None? then None else Some(y - predicted.value)
  }

  /** `difference / y * 100`; undefined when `y` is 0 or the difference is NaN. */
  function Percentage(y: real, difference: Option<real>): Option<real> {
    if difference.None? || y == 0.0 then None else Some(difference.value / y * 100.0)
  }

  function MakeRow(x: Labelled, yhat: seq<real>, n: nat): TableRow {
    var p := PredictedAt(yhat, n, x.index);
    var d := Difference(x.sale.quantity, p);
    TableRow(x.sale.date, x.sale.plant, x.sale.material, x.sale.quantity, p, d, Percentage(x.sale.quantity, d))
  }

  /** Lines 100-104: the comparison table of a group and its forecast. */
  function Table(subset: seq<Labelled>, yhat: seq<real>): (t: seq<TableRow>)
    ensures |t| == |subset|
    ensures forall i :: 0 <= i < |t| ==>
      && t[i].ds == subset[i].sale.date
      && t[i].plant == subset[i].sale.plant
      && t[i].material == subset[i].sale.material
      && t[i].y == subset[i].sale.quantity
  {
    seq(|subset|, i requires 0 <= i < |subset| => MakeRow(subset[i], yhat, |subset|))
  }

  /**
   * The row labelled L is predicted `yhat[L]` when L < n, and NaN
   * otherwise.
   */
  lemma TablePredicted(subset: seq<Labelled>, yhat: seq<real>, i: nat)
    requires |yhat| >= |subset| && i < |subset|
    ensures Table(subset, yhat)[i].predicted ==
      if subset[i].index < |subset| then Some(yhat[subset[i].index]) else None
  {
  }

  /**
   * Difference and percentage are defined exactly when they can be, and
   * invert back to the prediction.
   */
  lemma TableDifferences(subset: seq<Labelled>, yhat: seq<real>, i: nat)
    requires i < |subset|
    ensures var r := Table(subset, yhat)[i];
      && (r.difference.Some? <==> r.predicted.Some?)
      && (r.percentage.None? <==> r.y == 0.0 || r.predicted.None?)
      && (r.predicted.Some? ==> r.predicted.value + r.difference.value == r.y)
      && (r.percentage.Some? ==> r.predicted.value == r.y - r.percentage.value * r.y / 100.0)
  {
    var r := Table(subset, yhat)[i];
    if r.percentage.Some? {
      var y, d := r.y, r.difference.value;
      assert r.percentage.value == d / y * 100.0;
      assert r.percentage.value * y / 100.0 == d;
    }
  }

  /** A table built from a non-negative forecast predicts nothing negative. */
  lemma TableNonNegative(subset: seq<Labelled>, yhat: seq<real>)
    requires forall j :: 0 <= j < |yhat| ==> yhat[j] >= 0.0
    ensures forall i :: 0 <= i < |subset| ==>
      Table(subset, yhat)[i].predicted.Some? ==> Table(subset, yhat)[i].predicted.value >= 0.0
  {
  }

  /**
   * When the labels are the positions 0 .. n-1, each row gets the forecast
   * of its own position.
   */
  lemma TablePositional(subset: seq<Labelled>, yhat: seq<real>)
    requires |yhat| >= |subset|
    requires forall i :: 0 <= i < |subset| ==> subset[i].index == i
    ensures forall i :: 0 <= i < |subset| ==> Table(subset, yhat)[i].predicted == Some(yhat[i])
  {
  }

  /**
   * Conversely, a row whose label is not its position gets another row's
   * forecast, or none: with a forecast that differs from row to row, it never
   * gets the forecast of its own position.
   */
  lemma TableMisaligned(subset: seq<Labelled>, yhat: seq<real>, i: nat)
    requires |yhat| >= |subset| && i < |subset|
    requires forall a, b :: 0 <= a < b < |subset| ==> yhat[a] != yhat[b]
    requires subset[i].index != i
    ensures Table(subset, yhat)[i].predicted != Some(yhat[i])
  {
    TablePredicted(subset, yhat, i);
    var l := subset[i].index;
    if l < |subset| {
      if l < i {
        assert yhat[l] != yhat[i];
      } else {
        assert yhat[i] != yhat[l];
      }
    }
  }

  /**
   * With a forecast that differs from row to row, every row gets the forecast
   * of its own position exactly when the labels are 0 .. n-1.
   */
  lemma TablePositionalIff(subset: seq<Labelled>, yhat: seq<real>)
    requires |yhat| >= |subset|
    requires forall a, b :: 0 <= a < b < |subset| ==> yhat[a] != yhat[b]
    ensures (forall i :: 0 <= i < |subset| ==> Table(subset, yhat)[i].predicted == Some(yhat[i]))
        <==> (forall i :: 0 <= i < |subset| ==> subset[i].index == i)
  {
    if forall i :: 0 <= i < |subset| ==> subset[i].index == i {
      TablePositional(subset, yhat);
    } else {
      var i :| 0 <= i < |subset| && subset[i].index != i;
      TableMisaligned(subset, yhat, i);
    }
  }
}
