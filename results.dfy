/**
 * `compute_forecasts`: one result per (plant, material) group of
 * `grouped_data`, stored under the key "{plant}_{material}"; and the part of
 * `forecast_prophet_optimized` that runs on one group once the fitted model
 * has produced its `yhat` column.
 */
module Results {
  import opened Options
  import opened Prep
  import opened Calendar
  import opened Evaluation

  // ------------------------------------------------------ decimal strings

  function DigitChar(d: nat): char
    requires d < 10
  {
    ('0' as int + d) as char
  }

  function DigitValue(c: char): int {
    c as int - '0' as int
  }

  /** Python's `str` of a non-negative integer. */
  function NatToString(n: nat): string {
    if n < 10 then [DigitChar(n)] else NatToString(n / 10) + [DigitChar(n % 10)]
  }

  /** Python's `str` of an integer: a minus sign, then the digits. */
  function IntToString(i: int): string {
    if i < 0 then "-" + NatToString(-i) else NatToString(i)
  }

  lemma {:induction false} NatToStringDigits(n: nat)
    ensures |NatToString(n)| >= 1
    ensures forall j :: 0 <= j < |NatToString(n)| ==> '0' <= NatToString(n)[j] <= '9'
  {
    if n >= 10 {
      NatToStringDigits(n / 10);
    }
  }

  /** A decimal string is a minus sign or a digit, then digits; never '_'. */
  lemma IntToStringChars(i: int)
    ensures |IntToString(i)| >= 1
    ensures forall j :: 0 <= j < |IntToString(i)| ==> IntToString(i)[j] == '-' || '0' <= IntToString(i)[j] <= '9'
  {
    NatToStringDigits(if i < 0 then -i else i);
  }

  function ParseNat(s: string): int {
    if s == [] then 0 else 10 * ParseNat(s[..|s| - 1]) + DigitValue(s[|s| - 1])
  }

  function ParseInt(s: string): int {
    if |s| > 0 && s[0] == '-' then -ParseNat(s[1..]) else ParseNat(s)
  }

  lemma {:induction false} ParseNatToString(n: nat)
    ensures ParseNat(NatToString(n)) == n
  {
    if n >= 10 {
      var s := NatToString(n);
      assert s[..|s| - 1] == NatToString(n / 10);
      ParseNatToString(n / 10);
    }
  }

  /** Reading back the decimal string gives the integer. */
  lemma ParseIntToString(i: int)
    ensures ParseInt(IntToString(i)) == i
  {
    if i < 0 {
      NatToStringDigits(-i);
      assert IntToString(i)[1..] == NatToString(-i);
      ParseNatToString(-i);
    } else {
      NatToStringDigits(i);
      ParseNatToString(i);
    }
  }

  // ------------------------------------------------------------ the groups

  datatype Pair = Pair(plant: int, material: int)

  function PairOf(s: Sale): Pair {
    Pair(s.plant, s.material)
  }

  /** `f"{plant}_{material}"` */
  function GroupKey(p: Pair): string {
    IntToString(p.plant) + "_" + IntToString(p.material)
  }

  /** Position of the first '_' in `s`, or `|s|` when there is none. */
  function FirstUnderscore(s: string): nat {
    if s == [] || s[0] == '_' then 0 else 1 + FirstUnderscore(s[1..])
  }

  lemma {:induction false} FirstUnderscoreAfter(a: string, rest: string)
    requires forall j :: 0 <= j < |a| ==> a[j] != '_'
    ensures FirstUnderscore(a + "_" + rest) == |a|
  {
    if a != [] {
      assert (a + "_" + rest)[1..] == a[1..] + "_" + rest;
      FirstUnderscoreAfter(a[1..], rest);
    }
  }

  /** Distinct groups get distinct keys, so no group overwrites another. */
  lemma GroupKeyInjective(p: Pair, q: Pair)
    ensures GroupKey(p) == GroupKey(q) <==> p == q
  {
    if GroupKey(p) == GroupKey(q) {
      var k := GroupKey(p);
      var a, b := IntToString(p.plant), IntToString(q.plant);
      IntToStringChars(p.plant);
      IntToStringChars(q.plant);
      FirstUnderscoreAfter(a, IntToString(p.material));
      FirstUnderscoreAfter(b, IntToString(q.material));
      assert a == k[..|a|] == b;
      assert IntToString(p.material) == k[|a| + 1..] == IntToString(q.material);
      ParseIntToString(p.plant);
      ParseIntToString(q.plant);
      ParseIntToString(p.material);
      ParseIntToString(q.material);
    }
  }

  predicate PairLess(a: Pair, b: Pair) {
    a.plant < b.plant || (a.plant == b.plant && a.material < b.material)
  }

  ghost predicate PairsSorted(ps: seq<Pair>) {
    forall i, j :: 0 <= i < j < |ps| ==> PairLess(ps[i], ps[j])
  }

  /** Adds a group to a sorted list of distinct groups, unless it is there. */
  function AddPair(ps: seq<Pair>, p: Pair): (r: seq<Pair>)
    requires PairsSorted(ps)
    ensures PairsSorted(r)
    ensures forall q :: q in r <==> q in ps || q == p
  {
    if ps == [] then [p]
    else if ps[0] == p then ps
    else if PairLess(p, ps[0]) then [p] + ps
    else
      var rest := AddPair(ps[1..], p);
      assert forall q :: q in ps <==> q == ps[0] || q in ps[1..] by {
        assert ps == [ps[0]] + ps[1..];
      }
      assert forall q :: q in ps[1..] ==> PairLess(ps[0], q);
      assert forall j :: 0 <= j < |rest| ==> PairLess(ps[0], rest[j]) by {
        forall j | 0 <= j < |rest| ensures PairLess(ps[0], rest[j]) {
          assert rest[j] in rest;
        }
      }
      [ps[0]] + rest
  }

  /** `data.groupby(['Plant', 'Material'])`: every group once, in key order. */
  function Groups(data: seq<Sale>): (ps: seq<Pair>)
    ensures PairsSorted(ps)
    ensures forall p :: p in ps <==> exists i :: 0 <= i < |data| && PairOf(data[i]) == p
  {
    if data == [] then []
    else
      var rest := Groups(data[1..]);
      assert forall i :: 1 <= i < |data| ==> data[1..][i - 1] == data[i];
      AddPair(rest, PairOf(data[0]))
  }

  /** The rows of `data` among the first `n` that belong to group `p`, with their labels. */
  function SubsetUpTo(data: seq<Sale>, p: Pair, n: nat): (r: seq<Labelled>)
    requires n <= |data|
    ensures forall i :: 0 <= i < |r| ==>
      r[i].index < n && data[r[i].index] == r[i].sale && PairOf(r[i].sale) == p
    ensures forall i, j :: 0 <= i < j < |r| ==> r[i].index < r[j].index
    ensures forall k :: 0 <= k < n && PairOf(data[k]) == p ==> exists i :: 0 <= i < |r| && r[i].index == k
  {
    if n == 0 then []
    else
      var rest := SubsetUpTo(data, p, n - 1);
      if PairOf(data[n - 1]) == p then
        var r := rest + [Labelled(n - 1, data[n - 1])];
        assert r[|rest|].index == n - 1;
        assert forall i :: 0 <= i < |rest| ==> r[i] == rest[i];
        r
      else rest
  }

  /**
   * The `group` frame of a group: its rows of `grouped_data`, in order, each
   * keeping its index label from `reset_index()` (its position there).
   */
  function Subset(data: seq<Sale>, p: Pair): (r: seq<Labelled>)
    ensures forall i :: 0 <= i < |r| ==>
      r[i].index < |data| && data[r[i].index] == r[i].sale && PairOf(r[i].sale) == p
    ensures forall i, j :: 0 <= i < j < |r| ==> r[i].index < r[j].index
    ensures forall k :: 0 <= k < |data| && PairOf(data[k]) == p ==> exists i :: 0 <= i < |r| && r[i].index == k
  {
    SubsetUpTo(data, p, |data|)
  }

  /** A row's label is never smaller than its position inside its group. */
  lemma {:induction false} SubsetIndexAtLeastPosition(data: seq<Sale>, p: Pair, i: nat)
    requires i < |Subset(data, p)|
    ensures Subset(data, p)[i].index >= i
  {
    if i > 0 {
      SubsetIndexAtLeastPosition(data, p, i - 1);
    }
  }

  /** Dates that strictly increase down a group: the model's history dates. */
  ghost predicate DatesIncrease(subset: seq<Labelled>) {
    forall i, j :: 0 <= i < j < |subset| ==> subset[i].sale.date < subset[j].sale.date
  }

  /**
   * Within a group of an aggregated table the dates strictly increase, so
   * they are the sorted distinct history dates of the fitted model.
   */
  lemma SubsetDatesIncrease(data: seq<Sale>, p: Pair)
    requires StrictlySorted(data)
    ensures DatesIncrease(Subset(data, p))
  {
    var r := Subset(data, p);
    forall i, j | 0 <= i < j < |r| ensures r[i].sale.date < r[j].sale.date {
      assert KeyLess(KeyOf(data[r[i].index]), KeyOf(data[r[j].index]));
    }
  }

  // --------------------------------------------------- one group's result

  function Sales(subset: seq<Labelled>): (s: seq<Sale>)
    ensures |s| == |subset|
  {
    seq(|subset|, i requires 0 <= i < |subset| => subset[i].sale)
  }

  function Ys(subset: seq<Labelled>): (y: seq<real>)
    ensures |y| == |subset|
  {
    seq(|subset|, i requires 0 <= i < |subset| => subset[i].sale.quantity)
  }

  function Yhats(f: seq<Point>): (y: seq<real>)
    ensures |y| == |f|
  {
    seq(|f|, i requires 0 <= i < |f| => f[i].yhat)
  }

  /**
   * `make_future_dataframe(periods=30)` and `predict`: the group's dates
   * followed by the 30 days after the last one, each with the model's
   * `yhat`. The dates strictly increase, as the history dates do.
   */
  function ForecastFrame(subset: seq<Labelled>, yhat: seq<real>): (f: seq<Point>)
    requires |subset| >= 1 && |yhat| == |subset| + Horizon
    requires DatesIncrease(subset)
    ensures |f| == |yhat|
    ensures forall i :: 0 <= i < |f| ==> f[i].yhat == yhat[i]
    ensures forall i :: 0 <= i < |subset| ==> f[i].ds == subset[i].sale.date
    ensures forall i :: |subset| <= i < |f| ==> f[i].ds == f[i - 1].ds + 1
    ensures forall i, j :: 0 <= i < j < |f| ==> f[i].ds < f[j].ds
  {
    var n := |subset|;
    var f := seq(|yhat|, i requires 0 <= i < |yhat| =>
      Point(if i < n then subset[i].sale.date else subset[n - 1].sale.date + (i - n + 1), yhat[i]));
    assert forall i, j :: 0 <= i < j < |f| ==> f[i].ds < f[j].ds by {
      forall i, j | 0 <= i < j < |f| ensures f[i].ds < f[j].ds {
        if j < n {
        } else if i < n {
          assert i == n - 1 || subset[i].sale.date < subset[n - 1].sale.date;
        }
      }
    }
    f
  }

  /** What the model keeps of a group's result bundle. */
  datatype GroupResult = GroupResult(table: seq<TableRow>, actual: seq<real>, predicted: seq<real>)

  /** The result of one group, given the `yhat` column the fitted model predicted. */
  function EvaluateGroup(subset: seq<Labelled>, yhat: seq<real>): GroupResult
    requires |subset| >= 1 && |yhat| == |subset| + Horizon
    requires DatesIncrease(subset)
  {
    var adjusted := Yhats(PostProcessed(ForecastFrame(subset, yhat), subset[0].sale.plant));
    GroupResult(Table(subset, adjusted), ActualWindow(Ys(subset)), PredictionWindow(adjusted, |subset|))
  }

  /**
   * In a group's result: no prediction is negative; the row labelled L < n
   * gets the post-processed forecast for the date of the group's L-th
   * observation, which is 0 when the plant is closed that day and on open
   * days it is the clamped model value; the other rows get none; and the
   * two metric windows have equal length.
   */
  lemma EvaluateGroupSpec(subset: seq<Labelled>, yhat: seq<real>)
    requires |subset| >= 1 && |yhat| == |subset| + Horizon
    requires DatesIncrease(subset)
    ensures var r := EvaluateGroup(subset, yhat);
      && |r.table| == |subset|
      && |r.actual| == |r.predicted| == Min(Window, |subset|)
      && (forall i :: 0 <= i < |subset| ==> r.table[i].predicted.Some? ==> r.table[i].predicted.value >= 0.0)
      && (forall i :: 0 <= i < |subset| ==> (r.table[i].predicted.Some? <==> subset[i].index < |subset|))
      && (forall i :: (0 <= i < |subset| && subset[i].index < |subset| &&
            Closed(subset[0].sale.plant, subset[subset[i].index].sale.date)) ==>
            r.table[i].predicted == Some(0.0))
      && (forall i :: (0 <= i < |subset| && subset[i].index < |subset| &&
            !Closed(subset[0].sale.plant, subset[subset[i].index].sale.date)) ==>
            r.table[i].predicted == Some(if yhat[subset[i].index] < 0.0 then 0.0 else yhat[subset[i].index]))
  {
    var n := |subset|;
    var plant := subset[0].sale.plant;
    var frame := ForecastFrame(subset, yhat);
    var adjusted := Yhats(PostProcessed(frame, plant));
    PostProcessedSpec(frame, plant);
    TableNonNegative(subset, adjusted);
    WindowsSameLength(Ys(subset), adjusted);
    forall i | 0 <= i < n
      ensures Table(subset, adjusted)[i].predicted.Some? <==> subset[i].index < n
    {
      TablePredicted(subset, adjusted, i);
    }
    forall i | 0 <= i < n && subset[i].index < n && Closed(plant, subset[subset[i].index].sale.date)
      ensures Table(subset, adjusted)[i].predicted == Some(0.0)
    {
      TablePredicted(subset, adjusted, i);
      assert frame[subset[i].index].ds == subset[subset[i].index].sale.date;
    }
    forall i | 0 <= i < n && subset[i].index < n && !Closed(plant, subset[subset[i].index].sale.date)
      ensures Table(subset, adjusted)[i].predicted ==
        Some(if yhat[subset[i].index] < 0.0 then 0.0 else yhat[subset[i].index])
    {
      TablePredicted(subset, adjusted, i);
      assert frame[subset[i].index] == Point(subset[subset[i].index].sale.date, yhat[subset[i].index]);
    }
  }

  /**
   * Lines 86-104 of `forecast_prophet_optimized` on one group, with the
   * forecast frame post-processed in place.
   */
  method ForecastProphetOptimized(subset: seq<Labelled>, yhat: seq<real>) returns (res: GroupResult)
    requires |subset| >= 1 && |yhat| == |subset| + Horizon
    requires DatesIncrease(subset)
    ensures res == EvaluateGroup(subset, yhat)
  {
    var plant := subset[0].sale.plant;
    var frame := ForecastFrame(subset, yhat);
    var forecast := new Point[|frame|](i requires 0 <= i < |frame| => frame[i]);
    assert forecast[..] == frame;
    PostProcess(forecast, plant);
    var adjusted := Yhats(forecast[..]);
    var tableDf := Table(subset, adjusted);
    res := GroupResult(tableDf, ActualWindow(Ys(subset)), PredictionWindow(adjusted, |subset|));
  }

  /** A group that `groupby` yields has at least one row. */
  lemma GroupNonEmpty(data: seq<Sale>, p: Pair)
    requires p in Groups(data)
    ensures |Subset(data, p)| >= 1
  {
    var row :| 0 <= row < |data| && PairOf(data[row]) == p;
    var s := Subset(data, p);
    var g :| 0 <= g < |s| && s[g].index == row;
  }

  // ------------------------------------------------------ the forecaster

  /**
   * The tuned and fitted model, as a function of a group's rows: `None`
   * when fitting raises, otherwise one `yhat` per history date and one per
   * day of the horizon.
   */
  ghost predicate Forecaster(predict: seq<Sale> -> Option<seq<real>>) {
    forall s :: predict(s).Some? ==> |predict(s).value| == |s| + Horizon
  }

  /** `Prophet.fit` raises on a history of fewer than two rows. */
  const MinFitRows: nat := 2

  /** A forecaster that, like `Prophet.fit`, refuses a too-short history. */
  ghost predicate RefusesShortHistory(predict: seq<Sale> -> Option<seq<real>>) {
    forall s :: |s| < MinFitRows ==> predict(s).None?
  }

  /** A group's result, or `None` when fitting its model raises. */
  function GroupOutcome(data: seq<Sale>, p: Pair, predict: seq<Sale> -> Option<seq<real>>): Option<GroupResult>
    requires StrictlySorted(data) && Forecaster(predict)
    requires p in Groups(data)
  {
    var subset := Subset(data, p);
    GroupNonEmpty(data, p);
    SubsetDatesIncrease(data, p);
    var fit := predict(Sales(subset));
    if fit.None? then None else Some(EvaluateGroup(subset, fit.value))
  }

  // ------------------------------------------------------- the dictionary

  /**
   * The dictionary after storing `values[j]` under `keys[j]` for each j < n,
   * in turn; the first missing value aborts the whole loop.
   */
  function Stored<K, V>(keys: seq<K>, values: seq<Option<V>>, n: nat): Option<map<K, V>>
    requires |keys| == |values| && n <= |keys|
  {
    if n == 0 then Some(map[])
    else
      var m := Stored(keys, values, n - 1);
      if m.None? || values[n - 1].None? then None
      else Some(m.value[keys[n - 1] := values[n - 1].value])
  }

  /**
   * Storing under distinct keys succeeds exactly when no value is missing,
   * and then keeps every entry: one per key.
   */
  lemma {:induction false} StoredDistinct<K, V>(keys: seq<K>, values: seq<Option<V>>, n: nat)
    requires |keys| == |values| && n <= |keys|
    requires forall i, j :: 0 <= i < j < |keys| ==> keys[i] != keys[j]
    ensures Stored(keys, values, n).Some? <==> forall j :: 0 <= j < n ==> values[j].Some?
    ensures Stored(keys, values, n).Some? ==>
      var m := Stored(keys, values, n).value;
      && (forall j :: 0 <= j < n ==> keys[j] in m && m[keys[j]] == values[j].value)
      && (forall k :: k in m ==> exists j :: 0 <= j < n && keys[j] == k)
      && |m| == n
  {
    if n > 0 {
      StoredDistinct(keys, values, n - 1);
      if Stored(keys, values, n - 1).Some? {
        assert keys[n - 1] !in Stored(keys, values, n - 1).value;
      }
    }
  }

  /** The key of each group, in `groupby` order; no two are equal. */
  function GroupKeys(groups: seq<Pair>): (keys: seq<string>)
    requires PairsSorted(groups)
    ensures |keys| == |groups|
    ensures forall i, j :: 0 <= i < j < |keys| ==> keys[i] != keys[j]
  {
    var keys := seq(|groups|, i requires 0 <= i < |groups| => GroupKey(groups[i]));
    assert forall i, j :: 0 <= i < j < |keys| ==> keys[i] != keys[j] by {
      forall i, j | 0 <= i < j < |keys| ensures keys[i] != keys[j] {
        GroupKeyInjective(groups[i], groups[j]);
      }
    }
    keys
  }

  /** Each group's outcome, in `groupby` order. */
  function Outcomes(data: seq<Sale>, predict: seq<Sale> -> Option<seq<real>>): (r: seq<Option<GroupResult>>)
    requires StrictlySorted(data) && Forecaster(predict)
    ensures |r| == |Groups(data)|
  {
    var groups := Groups(data);
    seq(|groups|, i requires 0 <= i < |groups| => GroupOutcome(data, groups[i], predict))
  }

  /** What `compute_forecasts` returns: the dictionary, or `None` when it raises. */
  function Forecasts(data: seq<Sale>, predict: seq<Sale> -> Option<seq<real>>): Option<map<string, GroupResult>>
    requires StrictlySorted(data) && Forecaster(predict)
  {
    Stored(GroupKeys(Groups(data)), Outcomes(data, predict), |Groups(data)|)
  }

  /**
   * `compute_forecasts` returns a dictionary exactly when every group's model
   * fits; the dictionary then has exactly one entry per group, stored under
   * "{plant}_{material}" and holding that group's result: no group
   * overwrites another.
   */
  lemma ResultsSpec(data: seq<Sale>, predict: seq<Sale> -> Option<seq<real>>)
    requires StrictlySorted(data) && Forecaster(predict)
    ensures Forecasts(data, predict).Some? <==> forall p :: p in Groups(data) ==> GroupOutcome(data, p, predict).Some?
    ensures Forecasts(data, predict).Some? ==>
      var m := Forecasts(data, predict).value;
      && (forall p :: p in Groups(data) ==> GroupKey(p) in m && Some(m[GroupKey(p)]) == GroupOutcome(data, p, predict))
      && (forall k :: k in m ==> exists p :: p in Groups(data) && GroupKey(p) == k)
      && |m| == |Groups(data)|
  {
    var groups := Groups(data);
    var keys, outcomes := GroupKeys(groups), Outcomes(data, predict);
    StoredDistinct(keys, outcomes, |groups|);
    if forall p :: p in groups ==> GroupOutcome(data, p, predict).Some? {
      forall j | 0 <= j < |groups| ensures outcomes[j].Some? {
        assert groups[j] in groups;
      }
      var m := Forecasts(data, predict).value;
      forall p | p in groups
        ensures GroupKey(p) in m && Some(m[GroupKey(p)]) == GroupOutcome(data, p, predict)
      {
        var j :| 0 <= j < |groups| && groups[j] == p;
        assert keys[j] == GroupKey(p);
        assert outcomes[j] == GroupOutcome(data, p, predict);
      }
      forall k | k in m ensures exists p :: p in groups && GroupKey(p) == k {
        var j :| 0 <= j < |groups| && keys[j] == k;
        assert groups[j] in groups;
      }
    } else {
      var p :| p in groups && GroupOutcome(data, p, predict).None?;
      var j :| 0 <= j < |groups| && groups[j] == p;
      assert outcomes[j].None?;
    }
  }

  /**
   * No per-group isolation: a group too short for `Prophet.fit` makes
   * `compute_forecasts` raise, so no dictionary is returned at all.
   */
  lemma ShortGroupAborts(data: seq<Sale>, predict: seq<Sale> -> Option<seq<real>>, p: Pair)
    requires StrictlySorted(data) && Forecaster(predict) && RefusesShortHistory(predict)
    requires p in Groups(data) && |Subset(data, p)| < MinFitRows
    ensures Forecasts(data, predict).None?
  {
    assert |Sales(Subset(data, p))| < MinFitRows;
    ResultsSpec(data, predict);
  }

  /** One iteration of the loop: the `i`-th group's frame, forecast and result. */
  method ForecastGroup(data: seq<Sale>, i: nat, predict: seq<Sale> -> Option<seq<real>>)
    returns (res: Option<GroupResult>)
    requires StrictlySorted(data) && Forecaster(predict)
    requires i < |Groups(data)|
    ensures res == Outcomes(data, predict)[i]
  {
    var p := Groups(data)[i];
    var group := Subset(data, p);
    var fit := predict(Sales(group));
    if fit.None? {
      return None;
    }
    GroupNonEmpty(data, p);
    SubsetDatesIncrease(data, p);
    var r := ForecastProphetOptimized(group, fit.value);
    res := Some(r);
  }

  /**
   * `compute_forecasts`: `predict` stands for the tuned and fitted model of
   * a group. The loop fills the dictionary group by group and stops at the
   * first group whose model does not fit; since the keys of distinct groups
   * differ, a completed loop leaves one entry per group holding that
   * group's result.
   */
  method ComputeForecasts(data: seq<Sale>, predict: seq<Sale> -> Option<seq<real>>)
    returns (results: Option<map<string, GroupResult>>)
    requires StrictlySorted(data) && Forecaster(predict)
    ensures results == Forecasts(data, predict)
  {
    var groups := Groups(data);
    var keys := GroupKeys(groups);
    ghost var outcomes := Outcomes(data, predict);
    var dict: map<string, GroupResult> := map[];
    for i := 0 to |groups|
      invariant Stored(keys, outcomes, i) == Some(dict)
    {
      var res := ForecastGroup(data, i, predict);
      if res.None? {
        StoredDistinct(keys, outcomes, |groups|);
        return None;
      }
      dict := dict[keys[i] := res.value];
    }
    results := Some(dict);
  }

  /** Every key of the results names a group of allow-listed material. */
  lemma ResultsSelected(raw: seq<RawRow>)
    ensures forall p :: p in Groups(Prepare(raw)) ==> p.material in SelectedMaterials
  {
    PrepareSelected(raw);
    forall p | p in Groups(Prepare(raw)) ensures p.material in SelectedMaterials {
      var i :| 0 <= i < |Prepare(raw)| && PairOf(Prepare(raw)[i]) == p;
      assert Prepare(raw)[i] in Prepare(raw);
    }
  }
}
