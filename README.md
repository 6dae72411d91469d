# Sales forecasting per plant and material: the script's own logic

`fboptuna.py` loads daily sales records and keeps materials 101 and 102. It
sums the quantity per day, plant and material. For every (plant, material)
group it tunes and fits a forecasting model, then forecasts 30 days past the
group's history. It zeroes the days the plant is closed and clamps negative
predictions to 0. It compares the last 30 observations (fewer in a shorter
group) with a window of the forecast of the same length, builds a
comparison table, and stores the bundle under `"{plant}_{material}"`.

This project models the deterministic part of that pipeline in Dafny:

- `Prep` (`prep.dfy`) covers lines 15-23. It models the allow-list filter
  (`isin`), `dropna`, and the `groupby(...).agg({'Quantity': 'sum'})` that
  produces `grouped_data`. A raw row has `Option` fields, where `None` is
  NaN. `grouped_data` is a sequence sorted strictly by (date, plant, material).
- `Calendar` (`calendar.dfy`) covers lines 88-93. It models the
  operating-calendar rule and the clamp. Both are methods that overwrite an
  `array` of forecast points in place. Each method is proved equal to a
  function of the old contents, and the properties are proved about those
  functions.
- `Evaluation` (`evaluation.dfy`) covers lines 95-104. It models the `iloc`
  index arithmetic with Python's slice rules, including `-0`. It also models
  the comparison table. Line 101 assigns by index label, not by position, so
  a row labelled L gets `yhat[L]` when L < n and NaN otherwise.
- `Results` (`results.dfy`) covers lines 56-116. It models the
  `groupby(['Plant', 'Material'])` loop of `compute_forecasts`, the per-group
  part of `forecast_prophet_optimized` once the model has produced `yhat`,
  and the decimal string key `"{plant}_{material}"`. The loop stops at the
  first group whose model cannot be fitted and returns no dictionary.

Dates are day numbers counted from 1970-01-01, which was a Thursday. So the
pandas weekday (Monday = 0) is `(day + 3) % 7`. Quantities and forecasts are
`real`. The tuned and fitted model is a parameter `predict`. It returns `None`
when fitting raises. Otherwise it returns one `yhat` per history date plus
30 more. `Prophet.fit` refuses a history of fewer than two rows, and
`RefusesShortHistory` states this about `predict`.

The code never checks how many rows a group has. Groups with 2 to 29
rows get shorter windows (`min(30, n)` rows each). A one-row group makes
`Prophet.fit` raise. The code has no per-group failure handling, so that
error ends `compute_forecasts` without a result (`ShortGroupAborts`). The
evaluation windows are compared as written, so they cover the same dates
only when a group has exactly 60 rows (`WindowsAlignedIff`).

## Model

| member | source | states |
|---|---|---|
| Prep.SelectMaterials | fboptuna.py:15-16 | every kept row has material 101 or 102; each input row with such a material is kept as often as it occurs, and no other row is kept |
| Prep.SelectMaterialsAppend | fboptuna.py:16 | the filter distributes over concatenation, so it keeps relative order |
| Prep.DropIncomplete | fboptuna.py:19 | the kept rows, read back as raw rows, are exactly the input rows with all fields present, with their multiplicities |
| Prep.DropIncompleteAppend | fboptuna.py:19 | `dropna` distributes over concatenation, so it keeps relative order |
| Prep.DropIncompleteOrigin | fboptuna.py:19 | every kept row comes from an input row with the same field values |
| Prep.Insert | fboptuna.py:22 | adding a row to a strictly key-sorted grouping keeps it strictly sorted, and its key set gains exactly the row's key |
| Prep.Aggregate | fboptuna.py:22-23 | the grouped table is strictly sorted by (date, plant, material), so it has one row per key, and its keys are exactly the input's keys |
| Prep.SumForInsert | fboptuna.py:22 | adding a row raises the sum of its own key by its quantity and leaves the sums of other keys unchanged |
| Prep.AggregateSumFor | fboptuna.py:22 | aggregation keeps the quantity sum of every key |
| Prep.SumForSorted | fboptuna.py:22-23 | in a strictly sorted grouping, a row's quantity is the whole sum for its key |
| Prep.AggregateRows | fboptuna.py:22-23 | there is exactly one output row per distinct input key, and its `y` is the sum of the quantities of the input rows with that key |
| Prep.AggregateTotal | fboptuna.py:22 | the total quantity is conserved |
| Prep.AggregateOfSorted | fboptuna.py:22 | aggregating an already aggregated table returns it unchanged |
| Prep.AggregateIdempotent | fboptuna.py:22-23 | re-aggregating `grouped_data` leaves it unchanged |
| Prep.Prepare | fboptuna.py:15-23 | `grouped_data` is strictly sorted by (date, plant, material), so it has one row per key |
| Prep.PrepareSelected | fboptuna.py:15-23 | every row of `grouped_data` has an allow-listed material, and its key is the key of some complete input row |
| Prep.PrepareKeysComplete | fboptuna.py:15-23 | every complete input row with an allow-listed material has its key in `grouped_data` |
| Calendar.Weekday | fboptuna.py:89-91 | the pandas weekday of a day number is always between 0 (Monday) and 6 (Sunday) |
| Calendar.Closed | fboptuna.py:88-91 | the closing rule, whose meaning `ClosedDays` states |
| Calendar.PostProcessed | fboptuna.py:88-93 | the weekday rule, then the clamp; `PostProcessedSpec` states what it does |
| Calendar.ClosedDays | fboptuna.py:88-91 | plant 101 is closed on weekdays 5 and 6; every other plant is closed on weekday 6 only |
| Calendar.WeekdayNext | fboptuna.py:89 | the derived weekday advances by one per day and repeats every 7 days |
| Calendar.ZeroClosed | fboptuna.py:88-91 | closed days get `yhat` 0; other rows are unchanged; no date changes |
| Calendar.Clamp | fboptuna.py:93 | no `yhat` is negative afterwards; non-negative values are unchanged; negative values become 0 |
| Calendar.PostProcessedSpec | fboptuna.py:88-93 | after both steps, closed days are 0, nothing is negative, and open days keep their value clamped at 0 |
| Calendar.ClampIdempotent | fboptuna.py:93 | clamping twice equals clamping once |
| Calendar.ClampZeroClosedCommute | fboptuna.py:88-93 | the clamp and the weekday rule commute, so zeros from the weekday rule stay 0 |
| Calendar.PostProcessedIdempotent | fboptuna.py:88-93 | post-processing twice equals post-processing once |
| Calendar.WeekdayPlantSubsumes | fboptuna.py:88-91 | the plant-101 rule zeroes everything the Sunday rule zeroes |
| Calendar.ZeroClosedDays | fboptuna.py:88-91 | the in-place loop leaves the array equal to `ZeroClosed` of its old contents |
| Calendar.ClampNegatives | fboptuna.py:93 | the in-place loop leaves the array equal to `Clamp` of its old contents |
| Calendar.PostProcess | fboptuna.py:88-93 | the array ends as both steps, in the source's order, applied to its old contents |
| Evaluation.SliceBound | fboptuna.py:95-96 | a Python slice bound, after normalising negatives and clipping, lies within the sequence |
| Evaluation.ActualWindow | fboptuna.py:95-96 | `y.iloc[-30:]`; `ActualWindowIsTrailing` states what it holds |
| Evaluation.PredictionWindow | fboptuna.py:95-96 | `yhat.iloc[-n:].iloc[:30]`; `PredictionWindowSpan` states which rows it holds |
| Evaluation.ActualWindowIsTrailing | fboptuna.py:95-96 | `y.iloc[-30:]` is the last min(30, n) observations |
| Evaluation.PredictionWindowSpan | fboptuna.py:95-96 | for n >= 1 and a forecast of n + 30 rows, `iloc[-n:].iloc[:30]` is forecast rows [30, 30 + min(30, n)) |
| Evaluation.WindowsSameLength | fboptuna.py:95-96 | for every non-empty group, both windows have min(30, n) rows |
| Evaluation.WindowsAlignedIff | fboptuna.py:95-96 | the two windows start at the same row if and only if n = 60 |
| Evaluation.EmptySeriesWindows | fboptuna.py:95-96 | with n = 0, `iloc[-0:]` keeps the whole forecast, so the windows have 0 and 30 rows |
| Evaluation.PredictedAt | fboptuna.py:101 | label alignment against `yhat.iloc[:n]`; `TablePredicted` states the result |
| Evaluation.Difference | fboptuna.py:102 | `y - predicted`, NaN when the prediction is NaN; `TableDifferences` states it |
| Evaluation.Percentage | fboptuna.py:103 | `difference / y * 100`, NaN when undefined; `TableDifferences` states it |
| Evaluation.Table | fboptuna.py:100-104 | the table has the rows of the group in the same order, with their date, plant, material and `y` |
| Evaluation.TablePredicted | fboptuna.py:101 | the row labelled L is predicted `yhat[L]` when L < n, and NaN otherwise |
| Evaluation.TableDifferences | fboptuna.py:102-103 | a difference exists exactly when a prediction does; the percentage is NaN exactly when `y` = 0 or the prediction is NaN; both give back the prediction |
| Evaluation.TableNonNegative | fboptuna.py:93-101 | a non-negative forecast gives no negative predicted quantity |
| Evaluation.TablePositional | fboptuna.py:101 | when the labels are 0 .. n-1, each row gets the forecast at its own position |
| Evaluation.TableMisaligned | fboptuna.py:101 | with a forecast that differs from row to row, a row whose label is not its position never gets the forecast at its own position |
| Evaluation.TablePositionalIff | fboptuna.py:101 | with a forecast that differs from row to row, every row gets the forecast at its own position if and only if the labels are 0 .. n-1 |
| Results.IntToString | fboptuna.py:113 | Python's `str` of an integer; `ParseIntToString` and `IntToStringChars` state its properties |
| Results.ParseIntToString | fboptuna.py:113 | the decimal string of an integer reads back as that integer |
| Results.IntToStringChars | fboptuna.py:113 | a decimal string is non-empty and holds only a sign and digits, never `_` |
| Results.GroupKey | fboptuna.py:113 | the key `"{plant}_{material}"`; `GroupKeyInjective` states that it identifies the group |
| Results.GroupKeyInjective | fboptuna.py:113 | two groups have the same key `"{plant}_{material}"` if and only if they are the same group |
| Results.AddPair | fboptuna.py:112 | adding a group to a sorted list of distinct groups keeps it sorted and adds exactly that group |
| Results.Groups | fboptuna.py:112 | `groupby` yields each (plant, material) present in the data exactly once, in sorted order |
| Results.Subset | fboptuna.py:112 | a group's frame holds exactly the rows of that group, in order, each with its label in `grouped_data` |
| Results.SubsetIndexAtLeastPosition | fboptuna.py:101-112 | a row's label is never below its position in its group |
| Results.SubsetDatesIncrease | fboptuna.py:22-112 | within a group of `grouped_data` the dates strictly increase, so they are the history dates of the fitted model |
| Results.ForecastFrame | fboptuna.py:84-86 | the forecast frame has the group's dates, then the 30 following days, each with its own `yhat`, and its dates strictly increase |
| Results.GroupNonEmpty | fboptuna.py:60-112 | every group that `groupby` yields has a first row |
| Results.EvaluateGroup | fboptuna.py:88-104 | the result of one group, given its `yhat`; `EvaluateGroupSpec` states its properties |
| Results.EvaluateGroupSpec | fboptuna.py:88-104 | in a group's result, no prediction is negative; a row gets a prediction exactly when its label is below n; that prediction is 0 on the plant's closed days and the clamped model value otherwise; both windows have min(30, n) rows |
| Results.ForecastProphetOptimized | fboptuna.py:86-106 | building the forecast frame, post-processing it in place and building the table and windows gives the group's specified result |
| Results.GroupOutcome | fboptuna.py:56-106 | `forecast_prophet_optimized(group)`: `None` when fitting raises, otherwise the group's result; `ResultsSpec` and `EvaluateGroupSpec` state its properties |
| Results.Stored | fboptuna.py:111-115 | the dictionary filled key by key, stopping at the first missing value; `StoredDistinct` states its properties |
| Results.Outcomes | fboptuna.py:112-114 | one outcome per group, in `groupby` order |
| Results.StoredDistinct | fboptuna.py:111-115 | storing values under distinct keys gives a dictionary exactly when no value is missing, and then it has one entry per key, each holding its own value |
| Results.GroupKeys | fboptuna.py:112-113 | the keys of the groups are pairwise distinct |
| Results.Forecasts | fboptuna.py:110-116 | what `compute_forecasts` returns; `ResultsSpec` states its properties |
| Results.ResultsSpec | fboptuna.py:110-116 | a dictionary is returned exactly when every group's model fits, and it then has exactly one entry per group, under that group's key and holding that group's result |
| Results.ShortGroupAborts | fboptuna.py:50-58 | a group with fewer than two rows, which `Prophet.fit` refuses, means no dictionary is returned at all |
| Results.ForecastGroup | fboptuna.py:112-114 | one loop iteration computes the outcome of the i-th group: its result, or a failed fit |
| Results.ComputeForecasts | fboptuna.py:110-116 | the loop builds exactly the specified dictionary, or stops with none at the first group whose fit fails |
| Results.ResultsSelected | fboptuna.py:15-112 | every group in the results has an allow-listed material |

## Left out

- Prophet model construction, fitting and prediction (lines 37-52, 77-86) are foreign library calls. They are the parameter `predict`. It returns `None` for a fit that raises, and otherwise the `yhat` column for the group's history dates plus 30 more. The other forecast columns are not modelled.
- Results.ComputeForecasts: the only failure modelled is a fit that raises (`predict` returning `None`), such as `Prophet.fit` on a one-row group (`ShortGroupAborts`). Any such error ends the whole loop. No other exception is modelled.
- The Optuna search (lines 25-58, the objective, `create_study` and the 30 trials) is black-box numeric search. It is not modelled, and neither is `best_params`. The model describes a run in which the search yields a fitted model. As written, lines 28-30 pass more positional bounds than Optuna's `suggest_float(name, low, high, *, step, log)` and `suggest_int(name, low, high, ...)` accept. `study.optimize` re-raises errors by default, so every trial would raise before line 88 is reached, and `compute_forecasts` would return nothing for any non-empty data.
- The RMSE and MAE values (scikit-learn, `sqrt`, lines 54 and 95-96) are floating-point numerics. Only the two windows they compare are modelled.
- The Plotly figure (line 97), all Streamlit UI and session state, and the `@st.cache` decorator (lines 109, 118-149) are UI and framework plumbing. They are not modelled.
- CSV loading and `pd.to_datetime` (lines 11-12) are I/O and library parsing. Dates enter the model as whole day numbers. The model assumes dates with no time of day. The source groups by exact timestamp, so two times on one day would be two keys there.
- Prep.DropIncomplete: a raw row has only the four used columns. A NaN in any other CSV column would also drop the row in the source.
- Prep.Aggregate: sums are exact `real` sums. Floating-point rounding and summation order are not modelled.
- Evaluation.Table: when `y` is 0, the model gives `None`. pandas gives ±inf for a non-zero difference and NaN for 0/0.
- Results.GroupKey: this assumes the Plant and Material columns hold integers. pandas reads a column that has any missing value (a `None` plant or material in a raw row) as float64. That type survives `isin`, `dropna` and `groupby`, so every key would then print as `101.0_...` in the source.
- Results.ComputeForecasts: the result is a `map`, so the insertion order of the Python dict (sorted group order) is not part of its contract.
