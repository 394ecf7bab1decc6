/** The arithmetic of src/capacity.rs over real numbers: least squares, the disk forecast and down-sampling. */
module Capacity {
  import opened Wrappers

  datatype Sample = Sample(ts: nat, used: nat, total: nat)

  // ----- sums over the samples -----

  function SumX(rows: seq<Sample>): real {
    if rows == [] then 0.0 else SumX(rows[..|rows| - 1]) + rows[|rows| - 1].ts as real
  }

  function SumY(rows: seq<Sample>): real {
    if rows == [] then 0.0 else SumY(rows[..|rows| - 1]) + rows[|rows| - 1].used as real
  }

  /** Multiplication and squaring under a name, so that long sums of products can be treated as sums. */
  function Times(k: real, x: real): real {
    k * x
  }

  function Sq(x: real): real {
    Times(x, x)
  }

  lemma {:induction false} SignOfSquare(x: real)
    ensures Sq(x) >= 0.0 && (x != 0.0 ==> Sq(x) > 0.0) && (x == 0.0 ==> Sq(x) == 0.0)
  {
    if x > 0.0 {
      PositiveTimes(x, x);
    } else if x < 0.0 {
      PositiveTimes(-x, -x);
      NegatedTimes(x);
    }
  }

  lemma {:induction false} PositiveTimes(k: real, x: real)
    requires k > 0.0 && x >= 0.0
    ensures Times(k, x) >= 0.0 && Times(x, k) >= 0.0
    ensures x > 0.0 ==> Times(k, x) > 0.0 && Times(x, k) > 0.0
  {
  }

  lemma {:induction false} NegatedTimes(x: real)
    ensures Times(-x, -x) == Times(x, x)
  {
  }

  /** The sum of (x - p)(y - q). */
  function Sxy(rows: seq<Sample>, p: real, q: real): real {
    if rows == [] then 0.0
    else
      var r := rows[|rows| - 1];
      Sxy(rows[..|rows| - 1], p, q) + Times(r.ts as real - p, r.used as real - q)
  }

  function Sxx(rows: seq<Sample>, p: real): (s: real)
    ensures s >= 0.0
  {
    if rows == [] then 0.0
    else
      var d := rows[|rows| - 1].ts as real - p;
      SignOfSquare(d);
      Sxx(rows[..|rows| - 1], p) + Sq(d)
  }

  function MeanX(rows: seq<Sample>): real
    requires rows != []
  {
    SumX(rows) / |rows| as real
  }

  function MeanY(rows: seq<Sample>): real
    requires rows != []
  {
    SumY(rows) / |rows| as real
  }

  /** The slope of the least-squares line, if it is determined. */
  function Slope(rows: seq<Sample>): Option<real> {
    if |rows| < 2 then None
    else
      var den := Sxx(rows, MeanX(rows));
      if den <= 0.0 then None else Some(Sxy(rows, MeanX(rows), MeanY(rows)) / den)
  }

  method LsSlopePerSec(rows: seq<Sample>) returns (r: Option<real>)
    ensures r == Slope(rows)
  {
    var n := |rows|;
    if n < 2 {
      return None;
    }
    var xs, ys, sx, sy := Columns(rows);
    var xm, ym := sx / n as real, sy / n as real;
    var num, den := Moments(rows, xs, ys, xm, ym);
    if den <= 0.0 {
      return None;
    }
    r := Some(num / den);
  }

  ghost predicate AreColumns(rows: seq<Sample>, xs: seq<real>, ys: seq<real>) {
    && |xs| == |ys| == |rows|
    && forall k :: 0 <= k < |rows| ==> xs[k] == rows[k].ts as real && ys[k] == rows[k].used as real
  }

  method Columns(rows: seq<Sample>) returns (xs: seq<real>, ys: seq<real>, sx: real, sy: real)
    ensures AreColumns(rows, xs, ys) && sx == SumX(rows) && sy == SumY(rows)
  {
    xs, ys, sx, sy := [], [], 0.0, 0.0;
    for i := 0 to |rows|
      invariant AreColumns(rows[..i], xs, ys) && sx == SumX(rows[..i]) && sy == SumY(rows[..i])
    {
      assert rows[..i + 1][..i] == rows[..i];
      xs, ys := xs + [rows[i].ts as real], ys + [rows[i].used as real];
      sx, sy := sx + xs[i], sy + ys[i];
    }
    assert rows[..|rows|] == rows;
  }

  /** The loop over the centred coordinates. */
  method Moments(rows: seq<Sample>, xs: seq<real>, ys: seq<real>, xm: real, ym: real) returns (num: real, den: real)
    requires AreColumns(rows, xs, ys)
    ensures num == Sxy(rows, xm, ym) && den == Sxx(rows, xm)
  {
    num, den := 0.0, 0.0;
    for i := 0 to |rows|
      invariant num == Sxy(rows[..i], xm, ym) && den == Sxx(rows[..i], xm)
    {
      assert rows[..i + 1][..i] == rows[..i];
      var xc, yc := xs[i] - xm, ys[i] - ym;
      num := num + xc * yc;
      den := den + xc * xc;
    }
    assert rows[..|rows|] == rows;
  }

  // ----- optimality -----

  /** The sum of squared residuals of the line y = a x + c. */
  ghost function Cost(rows: seq<Sample>, a: real, c: real): real {
    if rows == [] then 0.0
    else
      var r := rows[|rows| - 1];
      Cost(rows[..|rows| - 1], a, c) + Sq(r.used as real - Times(a, r.ts as real) - c)
  }

  ghost function Syy(rows: seq<Sample>, q: real): real {
    if rows == [] then 0.0 else Syy(rows[..|rows| - 1], q) + Sq(rows[|rows| - 1].used as real - q)
  }

  /** The sum of (y - q) - a (x - p). */
  ghost function Deviation(rows: seq<Sample>, p: real, q: real, a: real): real {
    if rows == [] then 0.0
    else
      var r := rows[|rows| - 1];
      Deviation(rows[..|rows| - 1], p, q, a) + (r.used as real - q - Times(a, r.ts as real - p))
  }

  lemma {:induction false} Distribute(k: real, x: real, y: real)
    ensures Times(k, x + y) == Times(k, x) + Times(k, y)
  {
  }

  lemma {:induction false} SquareOfSum(u: real, v: real)
    ensures Sq(u + v) == Sq(u) + 2.0 * Times(u, v) + Sq(v)
  {
  }

  /** One squared residual, expanded around the centre, with u = y - q and v = x - p. */
  lemma {:induction false} OneResidual(u: real, v: real, a: real, d: real)
    ensures Sq(u - Times(a, v) + d)
      == Sq(u) + Times(-2.0 * a, Times(v, u)) + Times(Sq(a), Sq(v)) + Times(2.0 * d, u - Times(a, v)) + Sq(d)
  {
    var w := u - Times(a, v);
    SquareOfSum(w, d);
    SquareOfSum(u, -Times(a, v));
    assert 2.0 * Times(u, -Times(a, v)) == Times(-2.0 * a, Times(v, u));
    assert Sq(-Times(a, v)) == Times(Sq(a), Sq(v));
    assert 2.0 * Times(w, d) == Times(2.0 * d, w);
  }

  lemma {:induction false} ZeroTimes(k: real)
    ensures Times(k, 0.0) == 0.0
  {
  }

  /** The cost of any line, expanded around any centre (p, q). */
  lemma {:induction false} CostAround(rows: seq<Sample>, p: real, q: real, a: real, c: real, d: real)
    requires d == q - Times(a, p) - c
    ensures Cost(rows, a, c) == Syy(rows, q) + Times(-2.0 * a, Sxy(rows, p, q)) + Times(Sq(a), Sxx(rows, p))
      + Times(2.0 * d, Deviation(rows, p, q, a)) + Times(Sq(d), |rows| as real)
  {
    hide Times, Sq;
    if rows != [] {
      var init, r := rows[..|rows| - 1], rows[|rows| - 1];
      var x, y := r.ts as real, r.used as real;
      var u, v := y - q, x - p;
      CostAround(init, p, q, a, c, d);
      Distribute(-2.0 * a, Sxy(init, p, q), Times(v, u));
      Distribute(Sq(a), Sxx(init, p), Sq(v));
      Distribute(2.0 * d, Deviation(init, p, q, a), u - Times(a, v));
      Distribute(Sq(d), |init| as real, 1.0);
      UnitTimes(Sq(d));
      OneResidual(u, v, a, d);
      Distribute(a, v, p);
      assert y - Times(a, x) - c == u - Times(a, v) + d;
    } else {
      ZeroTimes(-2.0 * a);
      ZeroTimes(Sq(a));
      ZeroTimes(2.0 * d);
      ZeroTimes(Sq(d));
    }
  }

  lemma {:induction false} UnitTimes(k: real)
    ensures Times(k, 1.0) == k
  {
  }

  /** Around the means the deviations cancel. */
  lemma {:induction false} DeviationIs(rows: seq<Sample>, p: real, q: real, a: real)
    ensures Deviation(rows, p, q, a)
      == (SumY(rows) - Times(q, |rows| as real)) - Times(a, SumX(rows) - Times(p, |rows| as real))
  {
    hide Times;
    if rows != [] {
      var init, r := rows[..|rows| - 1], rows[|rows| - 1];
      DeviationIs(init, p, q, a);
      Distribute(q, |init| as real, 1.0);
      Distribute(p, |init| as real, 1.0);
      UnitTimes(p);
      UnitTimes(q);
      Distribute(a, SumX(init) - Times(p, |init| as real), r.ts as real - p);
    } else {
      ZeroTimes(p);
      ZeroTimes(q);
      ZeroTimes(a);
    }
  }

  lemma {:induction false} MeanTimes(s: real, n: real)
    requires n > 0.0
    ensures Times(s / n, n) == s
  {
  }

  lemma {:induction false} CentredCost(rows: seq<Sample>, a: real, c: real, d: real)
    requires rows != [] && d == MeanY(rows) - Times(a, MeanX(rows)) - c
    ensures Cost(rows, a, c) == Syy(rows, MeanY(rows)) + Times(-2.0 * a, Sxy(rows, MeanX(rows), MeanY(rows)))
      + Times(Sq(a), Sxx(rows, MeanX(rows))) + Times(Sq(d), |rows| as real)
  {
    hide Cost, Syy, Sxy, Sxx, Times, Sq, SumX, SumY;
    var p, q := MeanX(rows), MeanY(rows);
    CostAround(rows, p, q, a, c, d);
    DeviationIs(rows, p, q, a);
    MeanTimes(SumX(rows), |rows| as real);
    MeanTimes(SumY(rows), |rows| as real);
    ZeroTimes(a);
    ZeroTimes(2.0 * d);
  }

  /** Completing the square. */
  lemma {:induction false} CompleteSquare(a: real, s: real, num: real, den: real)
    requires den > 0.0 && s == num / den
    ensures Times(-2.0 * a, num) + Times(Sq(a), den)
      == Times(-2.0 * s, num) + Times(Sq(s), den) + Times(den, Sq(a - s))
  {
    assert num == s * den;
    SquareOfSum(a, -s);
    assert Sq(a - s) == a * a - 2.0 * (a * s) + s * s;
    assert Times(den, Sq(a - s)) == den * (a * a) - 2.0 * (den * (a * s)) + den * (s * s);
  }

  ghost function Intercept(rows: seq<Sample>, a: real): real
    requires rows != []
  {
    MeanY(rows) - Times(a, MeanX(rows))
  }

  /** The returned slope, with the intercept through the means, minimises the sum of squared residuals
      over all lines, and every line of the same cost has that slope and intercept. */
  lemma {:induction false} SlopeMinimises(rows: seq<Sample>, a: real, c: real)
    requires Slope(rows).Some?
    ensures var s := Slope(rows).value;
      Cost(rows, s, Intercept(rows, s)) <= Cost(rows, a, c)
    ensures var s := Slope(rows).value;
      Cost(rows, s, Intercept(rows, s)) == Cost(rows, a, c) ==> a == s && c == Intercept(rows, s)
  {
    hide Cost, Syy, Sxy, Sxx, MeanX, MeanY, Times, Sq;
    var s := Slope(rows).value;
    var num, den, n := Sxy(rows, MeanX(rows), MeanY(rows)), Sxx(rows, MeanX(rows)), |rows| as real;
    var d := MeanY(rows) - Times(a, MeanX(rows)) - c;
    CentredCost(rows, a, c, d);
    CentredCost(rows, s, Intercept(rows, s), 0.0);
    CompleteSquare(a, s, num, den);
    SignOfSquare(a - s);
    SignOfSquare(d);
    PositiveTimes(den, Sq(a - s));
    PositiveTimes(n, Sq(d));
    assert Times(Sq(0.0), n) == 0.0 by {
      NothingTimes(n);
    }
  }

  lemma {:induction false} NothingTimes(n: real)
    ensures Times(Sq(0.0), n) == 0.0
  {
  }

  /** There is a slope exactly when two samples differ in time. */
  lemma {:induction false} SlopeIff(rows: seq<Sample>)
    ensures Slope(rows).Some? <==> exists i, j :: 0 <= i < j < |rows| && rows[i].ts != rows[j].ts
  {
    if rows != [] {
      SxxZeroIff(rows, MeanX(rows));
      if Sxx(rows, MeanX(rows)) > 0.0 && forall i :: 0 < i < |rows| ==> rows[i].ts == rows[0].ts {
        SumOfEqual(rows);
      }
    }
  }

  lemma {:induction false} SxxZeroIff(rows: seq<Sample>, p: real)
    ensures Sxx(rows, p) == 0.0 <==> forall i :: 0 <= i < |rows| ==> rows[i].ts as real == p
  {
    if rows != [] {
      hide Sq;
      var init := rows[..|rows| - 1];
      SxxZeroIff(init, p);
      SignOfSquare(rows[|rows| - 1].ts as real - p);
      assert forall i :: 0 <= i < |init| ==> init[i] == rows[i];
      if Sxx(rows, p) == 0.0 {
        forall i | 0 <= i < |rows| ensures rows[i].ts as real == p {
          if i < |init| {
            assert init[i].ts as real == p;
          }
        }
      }
    }
  }

  lemma {:induction false} SumOfEqual(rows: seq<Sample>)
    requires rows != [] && forall i :: 0 < i < |rows| ==> rows[i].ts == rows[0].ts
    ensures SumX(rows) == Times(rows[0].ts as real, |rows| as real) && MeanX(rows) == rows[0].ts as real
    decreases |rows|
  {
    if |rows| > 1 {
      SumOfEqual(rows[..|rows| - 1]);
      Distribute(rows[0].ts as real, |rows| as real - 1.0, 1.0);
    } else {
      assert rows[..0] == [];
    }
  }

  // ----- shifting the clock -----

  function Shift(rows: seq<Sample>, t: nat): (r: seq<Sample>)
    ensures |r| == |rows| && forall i :: 0 <= i < |r| ==> r[i] == rows[i].(ts := rows[i].ts + t)
  {
    seq(|rows|, i requires 0 <= i < |rows| => rows[i].(ts := rows[i].ts + t))
  }

  lemma {:induction false} ShiftInit(rows: seq<Sample>, t: nat)
    requires rows != []
    ensures var moved := Shift(rows, t);
      && moved != [] && moved[..|moved| - 1] == Shift(rows[..|rows| - 1], t)
      && moved[|moved| - 1].ts as real == rows[|rows| - 1].ts as real + t as real
      && moved[|moved| - 1].used == rows[|rows| - 1].used
  {
    assert Shift(rows, t)[..|rows| - 1] == Shift(rows[..|rows| - 1], t);
  }

  lemma {:induction false} ShiftSums(rows: seq<Sample>, t: nat)
    ensures SumX(Shift(rows, t)) == SumX(rows) + Times(t as real, |rows| as real) && SumY(Shift(rows, t)) == SumY(rows)
  {
    if rows != [] {
      hide Shift;
      var init := rows[..|rows| - 1];
      ShiftSums(init, t);
      ShiftInit(rows, t);
      Distribute(t as real, |init| as real, 1.0);
      UnitTimes(t as real);
    } else {
      ZeroTimes(t as real);
    }
  }

  lemma {:induction false} ShiftMoments(rows: seq<Sample>, t: nat, p: real, moved: real, q: real)
    requires moved == p + t as real
    ensures Sxy(Shift(rows, t), moved, q) == Sxy(rows, p, q)
    ensures Sxx(Shift(rows, t), moved) == Sxx(rows, p)
  {
    if rows != [] {
      hide Shift, Times, Sq;
      var s := Shift(rows, t);
      ShiftMoments(rows[..|rows| - 1], t, p, moved, q);
      ShiftInit(rows, t);
      ShiftOne(s[|s| - 1], rows[|rows| - 1], t, p, moved, q);
    }
  }

  lemma {:induction false} ShiftOne(s: Sample, r: Sample, t: nat, p: real, moved: real, q: real)
    requires moved == p + t as real && s.ts as real == r.ts as real + t as real && s.used == r.used
    ensures Times(s.ts as real - moved, s.used as real - q) == Times(r.ts as real - p, r.used as real - q)
    ensures Sq(s.ts as real - moved) == Sq(r.ts as real - p)
  {
    hide Times, Sq;
    assert s.ts as real - moved == r.ts as real - p;
  }

  /** Moving the clock does not change the slope. */
  lemma {:induction false} SlopeIgnoresTheClock(rows: seq<Sample>, t: nat)
    ensures Slope(Shift(rows, t)) == Slope(rows)
  {
    if |rows| >= 2 {
      hide SumX, SumY, Sxy, Sxx;
      var n, moved := |rows| as real, Shift(rows, t);
      ShiftSums(rows, t);
      MeanMoves(SumX(rows), SumX(moved), t as real, n);
      ShiftMoments(rows, t, MeanX(rows), MeanX(moved), MeanY(rows));
    }
  }

  lemma {:induction false} MeanMoves(s: real, moved: real, t: real, n: real)
    requires n > 0.0 && moved == s + Times(t, n)
    ensures moved / n == s / n + t
  {
  }

  // ----- the forecast -----

  datatype Forecast =
    | Insufficient(n: nat, span: nat)
    | Known(n: nat, span: nat, growthBytesPerDay: int, days: Option<int>, forecastAt: Option<int>)

  /** Rounds to the nearest integer, halves away from zero. */
  function Round(x: real): (r: int)
    ensures -0.5 <= r as real - x <= 0.5
    ensures r as real - x == 0.5 ==> x > 0.0
    ensures r as real - x == -0.5 ==> x < 0.0
  {
    if x >= 0.0 then (x + 0.5).Floor else -((0.5 - x).Floor)
  }

  function Distance(i: int, x: real): real {
    if i as real < x then x - i as real else i as real - x
  }

  function Ceil(x: real): int {
    -((-x).Floor)
  }

  function Span(rows: seq<Sample>): nat {
    if rows == [] || rows[|rows| - 1].ts < rows[0].ts then 0 else rows[|rows| - 1].ts - rows[0].ts
  }

  function ForecastSeries(rows: seq<Sample>): Forecast {
    var n, span := |rows|, Span(rows);
    if n < 7 || span < 72 * 3600 then Insufficient(n, span)
    else
      var last := rows[n - 1];
      if last.total == 0 || Slope(rows).None? then Insufficient(n, span)
      else
        var growth := Slope(rows).value * 86400.0;
        if growth <= 0.0 then Known(n, span, Round(growth), None, None)
        else
          var need := 0.9 * last.total as real - last.used as real;
          if need <= 0.0 then Known(n, span, Round(growth), Some(0), Some(last.ts))
          else
            var d := Ceil(need / growth);
            Known(n, span, Round(growth), Some(d), Some(last.ts + d * 86400))
  }

  /** After `d` days of linear growth from the last sample, 90% of the disk is used. */
  ghost predicate FullAfter(last: Sample, growth: real, d: int) {
    last.used as real + Times(d as real, growth) >= 0.9 * last.total as real
  }

  lemma {:induction false} CeilIsLeast(need: real, growth: real, d: int)
    requires growth > 0.0
    ensures Times(d as real, growth) >= need <==> d >= Ceil(need / growth)
  {
    var q := need / growth;
    assert Times(q, growth) == need by {
      MeanTimes(need, growth);
    }
    OrderOfTimes(q, d as real, growth);
    OrderOfTimes(d as real, q, growth);
  }

  lemma {:induction false} OrderOfTimes(x: real, y: real, g: real)
    requires g > 0.0
    ensures x < y ==> Times(x, g) < Times(y, g)
  {
    if x < y {
      PositiveTimes(g, y - x);
      Distribute(g, y, -x);
      assert Times(g, y - x) == Times(y, g) - Times(x, g);
    }
  }

  /** The forecast exists exactly when the disk grows; it is the least whole non-negative day at which 90%
      of the disk is used, and its time is that many days after the last sample. */
  lemma {:induction false} DaysAreLeast(rows: seq<Sample>)
    requires ForecastSeries(rows).Known?
    ensures var growth, f, last := Slope(rows).value * 86400.0, ForecastSeries(rows), rows[|rows| - 1];
      && (f.days.Some? <==> growth > 0.0)
      && (f.days.Some? ==>
        && f.days.value >= 0 && FullAfter(last, growth, f.days.value)
        && (forall e: nat :: FullAfter(last, growth, e) ==> f.days.value <= e)
        && f.forecastAt == Some(last.ts + f.days.value * 86400))
  {
    hide Slope, Ceil, Times;
    var growth, f, last := Slope(rows).value * 86400.0, ForecastSeries(rows), rows[|rows| - 1];
    if growth > 0.0 {
      var need := 0.9 * last.total as real - last.used as real;
      forall e: int ensures FullAfter(last, growth, e) <==> e >= Ceil(need / growth) {
        CeilIsLeast(need, growth, e);
      }
      CeilIsLeast(need, growth, 0);
      ZeroDays(growth);
    }
  }

  lemma {:induction false} ZeroDays(growth: real)
    ensures Times(0 as real, growth) == 0.0
  {
  }

  /** The forecast is made from the growth before rounding: a positive growth below half a byte a day is
      shown as zero and still forecast, and this is the only case in which the two disagree. */
  lemma {:induction false} RoundedGrowthDisagreesIff(rows: seq<Sample>)
    requires ForecastSeries(rows).Known?
    ensures var growth, f := Slope(rows).value * 86400.0, ForecastSeries(rows);
      f.growthBytesPerDay <= 0 && f.days.Some? <==> 0.0 < growth < 0.5
  {
    hide Slope, Ceil;
  }

  lemma {:induction false} RoundIsNearest(x: real, i: int)
    ensures Distance(Round(x), x) <= Distance(i, x)
  {
    hide Round;
    var r := Round(x);
    if i < r {
      assert i as real <= r as real - 1.0;
    } else if i > r {
      assert i as real >= r as real + 1.0;
    }
  }

  /** The growth shown is the nearest whole number of bytes. */
  lemma {:induction false} GrowthIsNearest(rows: seq<Sample>, i: int)
    requires ForecastSeries(rows).Known?
    ensures var growth := Slope(rows).value * 86400.0;
      Distance(ForecastSeries(rows).growthBytesPerDay, growth) <= Distance(i, growth)
  {
    hide Slope, Ceil, Distance, Round;
    RoundIsNearest(Slope(rows).value * 86400.0, i);
  }

  // ----- down-sampling -----

  function Stride(n: nat, cap: nat): (s: nat)
    requires cap >= 1
  {
    (n + cap - 1) / cap
  }

  /** How many points a stride leaves when the last sample is kept. */
  function Points(n: nat, stride: nat): nat
    requires n >= 1 && stride >= 1
  {
    (n - 1) / stride + 1
  }

  lemma {:induction false} DivideIff(x: nat, s: nat, q: nat)
    requires s >= 1
    ensures x / s < q <==> x < q * s
  {
    var d, m := x / s, x % s;
    assert x == d * s + m;
    if d < q {
      assert (d + 1) * s <= q * s;
    } else {
      assert q * s <= d * s;
    }
  }

  /** The stride is the least one that respects the cap. */
  lemma {:induction false} StrideIsLeast(n: nat, cap: nat, t: nat)
    requires cap >= 1 && n >= 1 && t >= 1
    ensures Stride(n, cap) >= 1
    ensures Points(n, t) <= cap <==> t >= Stride(n, cap)
  {
    DivideIff(n + cap - 1, cap, 1);
    DivideIff(n - 1, t, cap);
    DivideIff(n + cap - 1, cap, t + 1);
    assert cap * t == t * cap && (t + 1) * cap == t * cap + cap;
  }

  function Offset(n: nat, stride: nat): (o: nat)
    requires n >= 1 && stride >= 1
    ensures o < stride
  {
    (n - 1) % stride
  }

  ghost predicate PointAt(rows: seq<Sample>, offset: nat, stride: nat, k: nat, r: Sample) {
    offset + k * stride < |rows| && r == rows[offset + k * stride]
  }

  /** Point `m` exists exactly when it is one of the `Points`, and the last of them is the last sample. */
  lemma {:induction false} StepFits(n: nat, stride: nat, m: nat)
    requires n >= 1 && stride >= 1
    ensures Offset(n, stride) + m * stride < n <==> m < Points(n, stride)
    ensures m + 1 == Points(n, stride) ==> Offset(n, stride) + m * stride == n - 1
  {
    var last, offset := (n - 1) / stride, Offset(n, stride);
    assert n - 1 == last * stride + offset;
    if m <= last {
      assert m * stride <= last * stride;
    } else {
      assert m * stride >= (last + 1) * stride == last * stride + stride;
    }
  }

  /** The output is the input when it fits. Otherwise it walks the input with the least stride that respects
      the cap, skips fewer than one stride at the start and ends with the last sample. */
  method Downsample(rows: seq<Sample>, max: nat) returns (out: seq<Sample>)
    ensures |rows| <= Cap(max) ==> out == rows
    ensures |rows| > Cap(max) ==> IsWalk(rows, Stride(|rows|, Cap(max)), out) && out[|out| - 1] == rows[|rows| - 1]
    ensures |out| <= Cap(max)
  {
    hide Points, Offset, IsWalk;
    var n := |rows|;
    var cap := if max < 1 then 1 else max;
    if n <= cap {
      return rows;
    }
    var stride := (n + cap - 1) / cap;
    StrideIsLeast(n, cap, stride);
    out := Walk(rows, stride, Offset(n, stride));
  }

  function Cap(max: nat): (c: nat)
    ensures c >= 1
  {
    if max < 1 then 1 else max
  }

  ghost predicate IsWalk(rows: seq<Sample>, stride: nat, out: seq<Sample>) {
    rows != [] && stride >= 1 && |out| == Points(|rows|, stride)
      && forall k: nat :: k < |out| ==> PointAt(rows, Offset(|rows|, stride), stride, k, out[k])
  }

  /** The loop that takes every `stride`-th sample. */
  method Walk(rows: seq<Sample>, stride: nat, offset: nat) returns (out: seq<Sample>)
    requires rows != [] && stride >= 1 && offset == Offset(|rows|, stride)
    ensures IsWalk(rows, stride, out) && |out| == Points(|rows|, stride)
    ensures |out| >= 1 && out[|out| - 1] == rows[|rows| - 1]
  {
    hide Points, Offset, PointAt;
    out := [];
    var i := offset;
    StepFits(|rows|, stride, 0);
    while i < |rows|
      invariant |out| <= Points(|rows|, stride) && i == offset + |out| * stride
      invariant forall k: nat :: k < |out| ==> PointAt(rows, offset, stride, k, out[k])
      invariant |out| > 0 && |out| == Points(|rows|, stride) ==> out[|out| - 1] == rows[|rows| - 1]
      decreases |rows| - i
    {
      StepFits(|rows|, stride, |out|);
      IsPoint(rows, offset, stride, |out|, i);
      NextIndex(offset, stride, |out|);
      out := out + [rows[i]];
      i := i + stride;
    }
    StepFits(|rows|, stride, |out|);
    AtLeastOne(|rows|, stride);
  }

  lemma {:induction false} IsPoint(rows: seq<Sample>, offset: nat, stride: nat, k: nat, i: nat)
    requires i == offset + k * stride && i < |rows|
    ensures PointAt(rows, offset, stride, k, rows[i])
  {
  }

  lemma {:induction false} NextIndex(offset: nat, stride: nat, k: nat)
    ensures offset + k * stride + stride == offset + (k + 1) * stride
  {
  }

  lemma {:induction false} AtLeastOne(n: nat, stride: nat)
    requires n >= 1 && stride >= 1
    ensures Points(n, stride) >= 1
  {
  }
}
