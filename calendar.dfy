/**
 * Post-processing of a forecast frame in `forecast_prophet_optimized`:
 * the plant's operating calendar zeroes the days it is closed, then every
 * negative prediction is clamped to zero. Both steps overwrite the `yhat`
 * column of the frame in place.
 */
module Calendar {

  /** One forecast row: its day number (days since 1970-01-01) and `yhat`. */
  datatype Point = Point(ds: int, yhat: real)

  /** The plant with a five-day week; every other plant closes on Sunday only. */
  const WeekdayPlant := 101

  /**
   * pandas `dt.weekday`: Monday is 0 and Sunday is 6. Day 0, 1970-01-01,
   * was a Thursday.
   */
  function Weekday(day: int): (w: int)
    ensures 0 <= w < 7
  {
    (day + 3) % 7
  }

  /** The next day is the next weekday, Sunday wrapping to Monday. */
  lemma WeekdayNext(day: int)
    ensures Weekday(day + 1) == (Weekday(day) + 1) % 7
    ensures Weekday(day + 7) == Weekday(day)
  {
  }

  /** The days on which a plant does not operate. */
  predicate Closed(plant: int, day: int) {
    if plant == WeekdayPlant then Weekday(day) >= 5 else Weekday(day) == 6
  }

  /** The frame after the plant's closed days have `yhat` set to 0. */
  function ZeroClosed(f: seq<Point>, plant: int): (r: seq<Point>)
    ensures |r| == |f|
    ensures forall i :: 0 <= i < |f| ==> r[i].ds == f[i].ds
    ensures forall i :: 0 <= i < |f| && Closed(plant, f[i].ds) ==> r[i].yhat == 0.0
    ensures forall i :: 0 <= i < |f| && !Closed(plant, f[i].ds) ==> r[i] == f[i]
  {
    seq(|f|, i requires 0 <= i < |f| => if Closed(plant, f[i].ds) then f[i].(yhat := 0.0) else f[i])
  }

  /** The frame after every negative `yhat` is replaced by 0. */
  function Clamp(f: seq<Point>): (r: seq<Point>)
    ensures |r| == |f|
    ensures forall i :: 0 <= i < |f| ==> r[i].ds == f[i].ds && r[i].yhat >= 0.0
    ensures forall i :: 0 <= i < |f| && f[i].yhat >= 0.0 ==> r[i] == f[i]
    ensures forall i :: 0 <= i < |f| && f[i].yhat < 0.0 ==> r[i].yhat == 0.0
  {
    seq(|f|, i requires 0 <= i < |f| => if f[i].yhat < 0.0 then f[i].(yhat := 0.0) else f[i])
  }

  /** Both steps, in the order of the source. */
  function PostProcessed(f: seq<Point>, plant: int): seq<Point> {
    Clamp(ZeroClosed(f, plant))
  }

  /**
   * After post-processing: closed days are 0, no value is negative, open
   * days keep a non-negative forecast unchanged, and nothing but `yhat`
   * changes.
   */
  lemma PostProcessedSpec(f: seq<Point>, plant: int)
    ensures |PostProcessed(f, plant)| == |f|
    ensures forall i :: 0 <= i < |f| ==> PostProcessed(f, plant)[i].ds == f[i].ds
    ensures forall i :: 0 <= i < |f| ==> PostProcessed(f, plant)[i].yhat >= 0.0
    ensures forall i :: 0 <= i < |f| && Closed(plant, f[i].ds) ==> PostProcessed(f, plant)[i].yhat == 0.0
    ensures forall i :: 0 <= i < |f| && !Closed(plant, f[i].ds) ==>
      PostProcessed(f, plant)[i].yhat == if f[i].yhat < 0.0 then 0.0 else f[i].yhat
  {
  }

  /** Plant 101 is closed on Saturday and Sunday; any other plant on Sunday only. */
  lemma ClosedDays(plant: int, day: int)
    ensures plant == 101 ==> (Closed(plant, day) <==> Weekday(day) == 5 || Weekday(day) == 6)
    ensures plant != 101 ==> (Closed(plant, day) <==> Weekday(day) == 6)
  {
  }

  /** Clamping twice is clamping once. */
  lemma ClampIdempotent(f: seq<Point>)
    ensures Clamp(Clamp(f)) == Clamp(f)
  {
  }

  /** The two steps commute: the clamp never turns a zero into anything else. */
  lemma ClampZeroClosedCommute(f: seq<Point>, plant: int)
    ensures Clamp(ZeroClosed(f, plant)) == ZeroClosed(Clamp(f), plant)
  {
  }

  /** Post-processing an already post-processed frame changes nothing. */
  lemma PostProcessedIdempotent(f: seq<Point>, plant: int)
    ensures PostProcessed(PostProcessed(f, plant), plant) == PostProcessed(f, plant)
  {
  }

  /** The five-day rule zeroes everything the Sunday rule zeroes, and more. */
  lemma WeekdayPlantSubsumes(f: seq<Point>, plant: int)
    requires plant != WeekdayPlant
    ensures ZeroClosed(ZeroClosed(f, plant), WeekdayPlant) == ZeroClosed(f, WeekdayPlant)
  {
  }

  // ------------------------------------------------------------- in place

  /** `forecast.loc[<closed day>, 'yhat'] = 0`, lines 88-91. */
  method ZeroClosedDays(forecast: array<Point>, plant: int)
    modifies forecast
    ensures forecast[..] == ZeroClosed(old(forecast[..]), plant)
  {
    var i := 0;
    while i < forecast.Length
      invariant 0 <= i <= forecast.Length
      invariant forall j :: 0 <= j < i ==> forecast[j] == ZeroClosed(old(forecast[..]), plant)[j]
      invariant forall j :: i <= j < forecast.Length ==> forecast[j] == old(forecast[j])
    {
      if Closed(plant, forecast[i].ds) {
        forecast[i] := forecast[i].(yhat := 0.0);
      }
      i := i + 1;
    }
  }

  /** `forecast.loc[forecast['yhat'] < 0, 'yhat'] = 0`, line 93. */
  method ClampNegatives(forecast: array<Point>)
    modifies forecast
    ensures forecast[..] == Clamp(old(forecast[..]))
  {
    var i := 0;
    while i < forecast.Length
      invariant 0 <= i <= forecast.Length
      invariant forall j :: 0 <= j < i ==> forecast[j] == Clamp(old(forecast[..]))[j]
      invariant forall j :: i <= j < forecast.Length ==> forecast[j] == old(forecast[j])
    {
      if forecast[i].yhat < 0.0 {
        forecast[i] := forecast[i].(yhat := 0.0);
      }
      i := i + 1;
    }
  }

  /** Lines 88-93 on a forecast frame. */
  method PostProcess(forecast: array<Point>, plant: int)
    modifies forecast
    ensures forecast[..] == PostProcessed(old(forecast[..]), plant)
  {
    ZeroClosedDays(forecast, plant);
    ClampNegatives(forecast);
  }
}
