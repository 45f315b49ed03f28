/** The linear-trend forecaster of the predictions page and the chart series
    that joins the actual trend points with the six predicted ones. */
module Predictions {
  import opened Numbers
  import CarbonCalculations

  // ---------------------------------------------------------------------
  // The four `reduce` folds, over indices x = 0 .. n-1 and values y = emissions[x]

  /** Σx over x = 0 .. n-1. */
  function XSum(n: nat): real
  {
    if n == 0 then 0.0 else XSum(n - 1) + (n - 1) as real
  }

  /** Σx² over x = 0 .. n-1. */
  function X2Sum(n: nat): real
  {
    if n == 0 then 0.0 else X2Sum(n - 1) + ((n - 1) as real) * ((n - 1) as real)
  }

  /** Σy. */
  function YSum(ys: seq<real>): real
  {
    if ys == [] then 0.0 else YSum(ys[..|ys| - 1]) + ys[|ys| - 1]
  }

  /** Σxy. */
  function XYSum(ys: seq<real>): real
  {
    if ys == [] then 0.0 else XYSum(ys[..|ys| - 1]) + ((|ys| - 1) as real) * ys[|ys| - 1]
  }

  /** n·Σx² − (Σx)². */
  function Denominator(n: nat): real
  {
    (n as real) * X2Sum(n) - XSum(n) * XSum(n)
  }

  lemma {:induction false} XSumClosedForm(n: nat)
    ensures XSum(n) == (n as real) * ((n as real) - 1.0) / 2.0
  {
    if n > 0 {
      XSumClosedForm(n - 1);
    }
  }

  lemma {:induction false} X2SumClosedForm(n: nat)
    ensures X2Sum(n) == (n as real) * ((n as real) - 1.0) * (2.0 * (n as real) - 1.0) / 6.0
  {
    if n > 0 {
      X2SumClosedForm(n - 1);
    }
  }

  /** With two or more points the slope's denominator is n²(n²−1)/12 > 0. */
  lemma DenominatorPositive(n: nat)
    requires n >= 2
    ensures Denominator(n) > 0.0
  {
    XSumClosedForm(n);
    X2SumClosedForm(n);
    var m := n as real;
    assert Denominator(n) == m * m * (m * m - 1.0) / 12.0;
    assert m * m >= 4.0;
    assert m * m * (m * m - 1.0) >= 12.0;
  }

  /** The least-squares slope `(n·Σxy − Σx·Σy) / (n·Σx² − (Σx)²)` from the four sums. */
  function SlopeOf(n: real, sx: real, sx2: real, y: real, xy: real): real
    requires n * sx2 - sx * sx != 0.0
  {
    (n * xy - sx * y) / (n * sx2 - sx * sx)
  }

  /** The intercept `(Σy − slope·Σx) / n`. */
  function InterceptOf(n: real, sx: real, y: real, slope: real): real
    requires n != 0.0
  {
    (y - slope * sx) / n
  }

  function Slope(ys: seq<real>): real
    requires |ys| >= 2
  {
    DenominatorPositive(|ys|);
    SlopeOf(|ys| as real, XSum(|ys|), X2Sum(|ys|), YSum(ys), XYSum(ys))
  }

  function Intercept(ys: seq<real>): real
    requires |ys| >= 2
  {
    InterceptOf(|ys| as real, XSum(|ys|), YSum(ys), Slope(ys))
  }

  /** The line a + b·x at x, clamped below at zero. */
  function ClampedLine(a: real, b: real, x: real): (v: real)
    ensures v >= 0.0 && v >= a + b * x
    ensures v == 0.0 || v == a + b * x
  {
    Max(0.0, a + b * x)
  }

  /** The fitted line at x = n + k, clamped below at zero. */
  function ForecastAt(ys: seq<real>, k: nat): (v: real)
    requires |ys| >= 2
    ensures v >= 0.0
  {
    ClampedLine(Intercept(ys), Slope(ys), (|ys| + k) as real)
  }

  /** The forecast: nothing for fewer than two points, otherwise the fitted line
      at x = n .. n+5, clamped below at zero. */
  function Forecast(ys: seq<real>): (f: seq<real>)
    ensures |f| == if |ys| < 2 then 0 else 6
    ensures forall k :: 0 <= k < |f| ==> f[k] == ForecastAt(ys, k) >= 0.0
  {
    if |ys| < 2 then [] else seq(6, k requires 0 <= k < 6 => ForecastAt(ys, k))
  }

  method PredictFutureEmissions(emissions: seq<real>) returns (predictions: seq<real>)
    ensures predictions == Forecast(emissions)
  {
    var n := |emissions|;
    if n < 2 {
      return [];
    }
    var slope := Slope(emissions);
    var intercept := Intercept(emissions);
    predictions := [];
    for i := n to n + 6
      invariant |predictions| == i - n
      invariant forall k :: 0 <= k < i - n ==> predictions[k] == ForecastAt(emissions, k)
    {
      predictions := predictions + [ClampedLine(intercept, slope, i as real)];
    }
    assert |predictions| == |Forecast(emissions)|;
  }

  /** Dropping the last point of a line leaves a line. */
  lemma PrefixOfLine(ys: seq<real>, init: seq<real>, a: real, b: real)
    requires ys != [] && init == ys[..|ys| - 1]
    requires forall i :: 0 <= i < |ys| ==> ys[i] == a + b * (i as real)
    ensures forall i :: 0 <= i < |init| ==> init[i] == a + b * (i as real)
    ensures ys[|ys| - 1] == a + b * (|init| as real)
  {
  }

  lemma {:induction false} YSumOfLine(ys: seq<real>, a: real, b: real)
    requires forall i :: 0 <= i < |ys| ==> ys[i] == a + b * (i as real)
    ensures YSum(ys) == (|ys| as real) * a + b * XSum(|ys|)
  {
    if ys != [] {
      var init := ys[..|ys| - 1];
      PrefixOfLine(ys, init, a, b);
      YSumOfLine(init, a, b);
      YStep((|ys| - 1) as real, a, b, ys[|ys| - 1], YSum(init), XSum(|ys| - 1), YSum(ys), XSum(|ys|));
    }
  }

  lemma {:induction false} XYSumOfLine(ys: seq<real>, a: real, b: real)
    requires forall i :: 0 <= i < |ys| ==> ys[i] == a + b * (i as real)
    ensures XYSum(ys) == a * XSum(|ys|) + b * X2Sum(|ys|)
  {
    if ys != [] {
      var init := ys[..|ys| - 1];
      PrefixOfLine(ys, init, a, b);
      XYSumOfLine(init, a, b);
      var m := (|ys| - 1) as real;
      XYStep(m, a, b, ys[|ys| - 1], XYSum(init), XSum(|ys| - 1), X2Sum(|ys| - 1),
             XYSum(ys), XSum(|ys|), X2Sum(|ys|));
    }
  }

  /** One step of YSumOfLine: appending the point (m, a + b·m). */
  lemma YStep(m: real, a: real, b: real, y: real, y0: real, sx0: real, y1: real, sx1: real)
    requires y == a + b * m
    requires y0 == m * a + b * sx0
    requires y1 == y0 + y && sx1 == sx0 + m
    ensures y1 == (m + 1.0) * a + b * sx1
  {
  }

  /** One step of XYSumOfLine: appending the point (m, a + b·m). */
  lemma XYStep(m: real, a: real, b: real, y: real, xy0: real, sx0: real, sx20: real,
               xy1: real, sx1: real, sx21: real)
    requires y == a + b * m
    requires xy0 == a * sx0 + b * sx20
    requires xy1 == xy0 + m * y
    requires sx1 == sx0 + m && sx21 == sx20 + m * m
    ensures xy1 == a * sx1 + b * sx21
  {
  }

  /** The algebra of fitting a line: sums taken on y = a + b·x give back the slope b. */
  lemma SlopeAlgebra(n: real, sx: real, sx2: real, y: real, xy: real, a: real, b: real)
    requires n * sx2 - sx * sx > 0.0
    requires y == n * a + b * sx && xy == a * sx + b * sx2
    ensures SlopeOf(n, sx, sx2, y, xy) == b
  {
    assert n * xy - sx * y == b * (n * sx2 - sx * sx);
  }

  /** ... and, given that slope, the intercept a. */
  lemma InterceptAlgebra(n: real, sx: real, y: real, a: real, b: real)
    requires n > 0.0 && y == n * a + b * sx
    ensures InterceptOf(n, sx, y, b) == a
  {
    assert y - b * sx == n * a;
  }

  /** Points on a line y = a + b·x are fitted exactly. */
  lemma CollinearFit(ys: seq<real>, a: real, b: real)
    requires |ys| >= 2
    requires forall i :: 0 <= i < |ys| ==> ys[i] == a + b * (i as real)
    ensures Slope(ys) == b && Intercept(ys) == a
  {
    SumsOfLine(ys, a, b);
    FitOverSums(ys, |ys| as real, XSum(|ys|), X2Sum(|ys|), YSum(ys), XYSum(ys), a, b);
  }

  /** n, Σx, Σx², Σy and Σxy are the sums that points on the line y = a + b·x give. */
  predicate LineSums(n: real, sx: real, sx2: real, y: real, xy: real, a: real, b: real)
  {
    y == n * a + b * sx && xy == a * sx + b * sx2
  }

  /** Collinear points give the sums of their line. */
  lemma SumsOfLine(ys: seq<real>, a: real, b: real)
    requires forall i :: 0 <= i < |ys| ==> ys[i] == a + b * (i as real)
    ensures LineSums(|ys| as real, XSum(|ys|), X2Sum(|ys|), YSum(ys), XYSum(ys), a, b)
  {
    YSumOfLine(ys, a, b);
    XYSumOfLine(ys, a, b);
  }

  /** Sums of a line, named, are fitted by that line. */
  lemma FitOverSums(ys: seq<real>, n: real, sx: real, sx2: real, y: real, xy: real, a: real, b: real)
    requires |ys| >= 2
    requires n == |ys| as real && sx == XSum(|ys|) && sx2 == X2Sum(|ys|) && y == YSum(ys) && xy == XYSum(ys)
    requires LineSums(n, sx, sx2, y, xy, a, b)
    ensures Slope(ys) == b && Intercept(ys) == a
  {
    DenominatorOverSums(ys, n, sx, sx2);
    SlopeAlgebra(n, sx, sx2, y, xy, a, b);
    SlopeOverSums(ys, n, sx, sx2, y, xy, b);
    InterceptAlgebra(n, sx, y, a, b);
    InterceptOverSums(ys, n, sx, y, a, b);
  }

  /** The slope's denominator, over the sums of two or more points, is positive. */
  lemma DenominatorOverSums(ys: seq<real>, n: real, sx: real, sx2: real)
    requires |ys| >= 2
    requires n == |ys| as real && sx == XSum(|ys|) && sx2 == X2Sum(|ys|)
    ensures n > 0.0 && n * sx2 - sx * sx > 0.0
  {
    DenominatorPositive(|ys|);
  }

  /** Slope(ys) is SlopeOf taken over the sums of ys. */
  lemma SlopeOverSums(ys: seq<real>, n: real, sx: real, sx2: real, y: real, xy: real, slope: real)
    requires |ys| >= 2
    requires n == |ys| as real && sx == XSum(|ys|) && sx2 == X2Sum(|ys|) && y == YSum(ys) && xy == XYSum(ys)
    requires n * sx2 - sx * sx > 0.0 && SlopeOf(n, sx, sx2, y, xy) == slope
    ensures Slope(ys) == slope
  {
  }

  /** Intercept(ys) is InterceptOf taken over the sums of ys and its slope. */
  lemma InterceptOverSums(ys: seq<real>, n: real, sx: real, y: real, intercept: real, slope: real)
    requires |ys| >= 2
    requires n == |ys| as real && sx == XSum(|ys|) && y == YSum(ys)
    requires Slope(ys) == slope && InterceptOf(n, sx, y, slope) == intercept
    ensures Intercept(ys) == intercept
  {
  }

  /** [10, 20, 30] fits slope 10 and intercept 10 and continues 40 .. 90. */
  lemma ForecastOfIncreasingSeries()
    ensures Forecast([10.0, 20.0, 30.0]) == [40.0, 50.0, 60.0, 70.0, 80.0, 90.0]
  {
    var ys := [10.0, 20.0, 30.0];
    CollinearFit(ys, 10.0, 10.0);
    var expected := [40.0, 50.0, 60.0, 70.0, 80.0, 90.0];
    forall k | 0 <= k < 6 ensures Forecast(ys)[k] == expected[k] {
      assert Forecast(ys)[k] == ClampedLine(10.0, 10.0, (3 + k) as real);
    }
  }

  /** [30, 20, 10] would go negative from x = 4 on; every value is clamped to 0. */
  lemma ForecastOfDecreasingSeries()
    ensures Forecast([30.0, 20.0, 10.0]) == [0.0, 0.0, 0.0, 0.0, 0.0, 0.0]
  {
    var ys := [30.0, 20.0, 10.0];
    CollinearFit(ys, 30.0, -10.0);
    forall k | 0 <= k < 6 ensures Forecast(ys)[k] == 0.0 {
      assert Forecast(ys)[k] == ClampedLine(30.0, -10.0, (3 + k) as real);
    }
  }

  // ---------------------------------------------------------------------
  // The chart series

  /** A chart value: `null`, a number, or the NaN that rounding `undefined` gives. */
  datatype Reading = Null | Num(value: real) | NotANumber

  datatype ChartPoint = ChartPoint(month: string, actual: Reading, predicted: Reading)

  const FutureMonths: seq<string> := ["Jul", "Aug", "Sep", "Oct", "Nov", "Dec"]

  /** `Math.round(predictions[k] * 100) / 100`: NaN when predictions has no k-th element. */
  function PredictedReading(predictions: seq<real>, k: nat): Reading
  {
    if k < |predictions| then Num(Round2(predictions[k])) else NotANumber
  }

  method CombinedData(trendData: seq<CarbonCalculations.MonthlyTrend>, predictions: seq<real>)
    returns (points: seq<ChartPoint>)
    ensures |points| == |trendData| + |FutureMonths|
    ensures forall i :: 0 <= i < |trendData| ==>
      points[i] == ChartPoint(trendData[i].month, Num(trendData[i].emissions), Null)
    ensures forall k :: 0 <= k < |FutureMonths| ==>
      points[|trendData| + k].month == FutureMonths[k]
      && points[|trendData| + k].predicted == PredictedReading(predictions, k)
    ensures points[|trendData|].actual
         == if trendData == [] then Null else Num(trendData[|trendData| - 1].emissions)
    ensures forall i :: |trendData| < i < |points| ==> points[i].actual == Null
  {
    var actual := seq(|trendData|, i requires 0 <= i < |trendData| =>
      ChartPoint(trendData[i].month, Num(trendData[i].emissions), Null));
    var predicted := seq(|FutureMonths|, k requires 0 <= k < |FutureMonths| =>
      ChartPoint(FutureMonths[k], Null, PredictedReading(predictions, k)));
    if |actual| > 0 && |predicted| > 0 {
      predicted := predicted[0 := predicted[0].(actual := actual[|actual| - 1].actual)];
    }
    points := actual + predicted;
  }

  /** With at least two trend points every predicted chart value is a number;
      with fewer, every one is NaN. */
  lemma PredictedReadingsDefined(ys: seq<real>, k: nat)
    requires k < |FutureMonths|
    ensures PredictedReading(Forecast(ys), k).Num? <==> |ys| >= 2
    ensures PredictedReading(Forecast(ys), k).Num? ==> PredictedReading(Forecast(ys), k).value >= 0.0
  {
    if |ys| >= 2 {
      Round2NonNegative(Forecast(ys)[k]);
    }
  }
}
