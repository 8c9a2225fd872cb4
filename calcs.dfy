/** The rolling-return engine (`psf_library/calcs.py`): cumulative returns,
    trailing-window returns, their annualisation, rolling volatility and the
    rolling Sharpe ratio, all aligned to the input's dates. */
module Calcs {
  import opened Wrappers
  import opened Dates
  import opened Frames
  import opened Floats
  import opened Series

  const TradingDaysPerYear: int := 252

  /** `x - 1` on a value that may be NaN. */
  function LessOne(v: Option<real>): Option<real> {
    if v.None? then None else Some(v.value - 1.0)
  }

  /** `(1 + r).cumprod() - 1`: the compounded return from the first row to each row. */
  function CumulativeReturn(rs: seq<real>): (c: seq<real>)
    ensures |c| == |rs|
  {
    var p := CumProd(Growth(rs));
    seq(|rs|, t requires 0 <= t < |rs| => p[t] - 1.0)
  }

  /** `compute_col_cumulative(df, col)`. */
  function ComputeColCumulative(f: Frame, col: string): (r: Outcome<seq<real>>)
    requires WellFormed(f)
    ensures r.Ok? <==> col in f.names && Numeric(Column(f, col)).Ok?
    ensures r.Err? ==> r.error == (if col in f.names then TypeError else KeyError(col))
    ensures r.Ok? ==> |r.value| == |f.rows|
  {
    var cells :- Lookup(f, col);
    var rs :- Numeric(cells);
    Ok(CumulativeReturn(rs))
  }

  /** Every column other than `date` is numeric. */
  predicate AllNumeric(g: Frame)
    requires WellFormed(g)
  {
    forall n :: n in g.names ==> Numeric(Column(g, n)).Ok?
  }

  /** `compute_df_cumulative(df)`: drop `date`, then compound every other column. */
  function ComputeDfCumulative(f: Frame): (r: Outcome<Frame>)
    requires WellFormed(f)
    ensures r.Ok? ==> WellFormed(r.value) && r.value.names == Without(f.names, "date")
    ensures r.Ok? ==> |r.value.rows| == |f.rows|
  {
    var g :- DropColumn(f, "date");
    if AllNumeric(g) then
      Ok(Frame(g.names, seq(|g.rows|, i requires 0 <= i < |g.rows| =>
        map n | n in g.names :: Num(CumulativeReturn(Numeric(Column(g, n)).value)[i]))))
    else Err(TypeError)
  }

  /** `annualized_return(df, col, date1, date2)`: the cumulative series raised to
      `365 / days`, where `days` is the whole-day difference of the two dates. */
  function AnnualizedReturn(ops: FloatOps, f: Frame, col: string, date1: Date, date2: Date): (r: Outcome<seq<Option<real>>>)
    requires WellFormed(f) && Valid(date1) && Valid(date2)
    ensures r.Ok? <==> ComputeColCumulative(f, col).Ok? && date1 != date2
    ensures r.Ok? ==> |r.value| == |f.rows|
    ensures ComputeColCumulative(f, col).Ok? && date1 == date2 ==> r == Err(ZeroDivisionError)
  {
    DaysBetweenZero(date1, date2);
    var cumulative :- ComputeColCumulative(f, col);
    var days := DaysBetween(date1, date2);
    if days == 0 then Err(ZeroDivisionError)
    else Ok(seq(|cumulative|, t requires 0 <= t < |cumulative| =>
      LessOne(ops.pow(1.0 + cumulative[t], 365.0 / days as real))))
  }

  /** `z_score(df, col)`: the last value's distance from the mean in standard
      deviations; NaN (None) when the deviation is undefined or zero. */
  function ZScore(ops: FloatOps, f: Frame, col: string): (r: Outcome<Option<real>>)
    requires WellFormed(f)
    ensures r.Err? <==> col !in f.names || |f.rows| == 0 || Numeric(Column(f, col)).Err?
    ensures r.Err? && col in f.names && |f.rows| == 0 ==> r.error == IndexError
    ensures r.Ok? && r.value.Some? ==> |f.rows| >= 2
  {
    var cells :- Lookup(f, col);
    if |cells| == 0 then Err(IndexError)
    else
      var xs :- Numeric(cells);
      match SampleStd(ops, xs)
      case None => Ok(None)
      case Some(sd) => if sd == 0.0 then Ok(None) else Ok(Some((xs[|xs| - 1] - Mean(xs)) / sd))
  }

  // ---------------------------------------------------------------------------
  // compute_rolling_returns

  datatype RollingRow = RollingRow(
    date: Cell,
    cumulativeReturn: real,
    rollingCumulativeReturn: Option<real>,
    annualizedReturn: Option<real>,
    rollingVolatility: Option<real>,
    rollingSharpe: Option<real>)

  /** The engine's output: the date index and one row per date. */
  datatype RollingFrame = RollingFrame(index: seq<Cell>, rows: seq<RollingRow>)

  /** `(1 + r).rolling(days).apply(np.prod, raw=True) - 1`. */
  function RollingProduct(rs: seq<real>, days: nat): (c: seq<Option<real>>)
    requires days >= 1
    ensures |c| == |rs|
  {
    var g := Growth(rs);
    seq(|rs|, t requires 0 <= t < |rs| =>
      match Window(g, days, t)
      case None => None
      case Some(w) => Some(Prod(w) - 1.0))
  }

  /** `(1 + total) ** (252 / days) - 1` for one row. */
  function Annualize(ops: FloatOps, total: Option<real>, days: nat): Option<real>
    requires days >= 1
  {
    if total.None? then None
    else LessOne(ops.pow(1.0 + total.value, (TradingDaysPerYear as real) / (days as real)))
  }

  function Annualized(ops: FloatOps, total: seq<Option<real>>, days: nat): (c: seq<Option<real>>)
    requires days >= 1
    ensures |c| == |total|
  {
    seq(|total|, t requires 0 <= t < |total| => Annualize(ops, total[t], days))
  }

  /** `r.rolling(days).std() * np.sqrt(252)`. */
  function Volatility(ops: FloatOps, rs: seq<real>, days: nat): (c: seq<Option<real>>)
    requires days >= 1
    ensures |c| == |rs|
  {
    seq(|rs|, t requires 0 <= t < |rs| =>
      match Window(rs, days, t)
      case None => None
      case Some(w) =>
        match SampleStd(ops, w)
        case None => None
        case Some(sd) => Some(sd * ops.sqrt252))
  }

  /** `(annualized - risk_free_rate) / volatility` for one row; a zero
      volatility gives no finite ratio. */
  function ExcessRatio(annualized: Option<real>, riskFreeRate: real, volatility: Option<real>): Option<real> {
    if annualized.None? || volatility.None? || volatility.value == 0.0 then None
    else Some((annualized.value - riskFreeRate) / volatility.value)
  }

  function Sharpe(annualized: seq<Option<real>>, riskFreeRate: real, volatility: seq<Option<real>>): (c: seq<Option<real>>)
    requires |annualized| == |volatility|
    ensures |c| == |annualized|
  {
    seq(|annualized|, t requires 0 <= t < |annualized| => ExcessRatio(annualized[t], riskFreeRate, volatility[t]))
  }

  /** The series the engine reads: the frame's second column (`df.columns[1]`),
      looked up after `date` has become the index, used in arithmetic. */
  function ReturnSeries(f: Frame): (r: Outcome<seq<real>>)
    requires WellFormed(f)
    ensures r.Ok? ==> |f.names| >= 2 && "date" in f.names && f.names[1] != "date"
    ensures r.Ok? ==> r == Numeric(Column(f, f.names[1]))
    ensures |f.names| < 2 ==> r == Err(IndexError)
    ensures |f.names| >= 2 && ("date" !in f.names || f.names[1] == "date") ==> r == Err(KeyError("date"))
    ensures |f.names| >= 2 && "date" in f.names && f.names[1] != "date" ==> r == Numeric(Column(f, f.names[1]))
  {
    if |f.names| < 2 then Err(IndexError)
    else if "date" !in f.names || f.names[1] == "date" then Err(KeyError("date"))
    else Numeric(Column(f, f.names[1]))
  }

  /** The five derived columns for a validated series and window, side by side
      with the date index (the DataFrame built at the end of the engine). */
  function RollingTable(ops: FloatOps, index: seq<Cell>, rs: seq<real>, days: nat, riskFreeRate: real): (out: RollingFrame)
    requires days >= 1 && |index| == |rs|
    ensures out.index == index && |out.rows| == |rs|
  {
    var rollingTotal := RollingProduct(rs, days);
    var rollingAnnualized := Annualized(ops, rollingTotal, days);
    var rollingVolatility := Volatility(ops, rs, days);
    var cumulative := CumulativeReturn(rs);
    var rollingCumulative := RollingProduct(rs, days);
    var rollingSharpe := Sharpe(rollingAnnualized, riskFreeRate, rollingVolatility);
    RollingFrame(index, seq(|rs|, t requires 0 <= t < |rs| =>
      RollingRow(index[t], cumulative[t], rollingCumulative[t], rollingAnnualized[t],
                 rollingVolatility[t], rollingSharpe[t])))
  }

  /** `compute_rolling_returns(df, time_period, risk_free_rate)`. */
  function ComputeRollingReturns(ops: FloatOps, f: Frame, timePeriod: int, riskFreeRate: real): (r: Outcome<RollingFrame>)
    requires WellFormed(f)
    ensures r.Ok? <==> ReturnSeries(f).Ok? && timePeriod >= 1
    ensures ReturnSeries(f).Ok? && timePeriod < 0 ==> r == Err(ValueError)
    ensures ReturnSeries(f).Ok? && timePeriod == 0 ==> r == Err(ZeroDivisionError)
    ensures r.Ok? ==> |r.value.index| == |r.value.rows| == |f.rows|
    ensures r.Ok? ==> r.value.index == Column(f, "date")
    ensures r.Ok? ==> forall t :: 0 <= t < |r.value.rows| ==> r.value.rows[t].date == r.value.index[t]
  {
    var rs :- ReturnSeries(f);
    var days := timePeriod * TradingDaysPerYear;
    if days < 0 then Err(ValueError)
    else if days == 0 then Err(ZeroDivisionError)
    else Ok(RollingTable(ops, Column(f, "date"), rs, days, riskFreeRate))
  }

  /** A successful run is the table of the validated series and window. */
  lemma EngineIsTable(ops: FloatOps, f: Frame, timePeriod: int, riskFreeRate: real)
    requires WellFormed(f) && ComputeRollingReturns(ops, f, timePeriod, riskFreeRate).Ok?
    ensures timePeriod * TradingDaysPerYear >= 1 && |Column(f, "date")| == |ReturnSeries(f).value|
    ensures ComputeRollingReturns(ops, f, timePeriod, riskFreeRate).value ==
              RollingTable(ops, Column(f, "date"), ReturnSeries(f).value, timePeriod * TradingDaysPerYear, riskFreeRate)
  {
  }

  /** Row `t` of the engine's output, column by column. */
  lemma EngineRow(ops: FloatOps, f: Frame, timePeriod: int, riskFreeRate: real, t: nat)
    requires WellFormed(f) && ComputeRollingReturns(ops, f, timePeriod, riskFreeRate).Ok?
    requires t < |f.rows|
    ensures var rs := ReturnSeries(f).value;
            var days := timePeriod * TradingDaysPerYear;
            var row := ComputeRollingReturns(ops, f, timePeriod, riskFreeRate).value.rows[t];
            && |rs| == |f.rows| && days >= 1
            && row.cumulativeReturn == CumulativeReturn(rs)[t]
            && row.rollingCumulativeReturn == RollingProduct(rs, days)[t]
            && row.annualizedReturn == Annualize(ops, RollingProduct(rs, days)[t], days)
            && row.rollingVolatility == Volatility(ops, rs, days)[t]
            && row.rollingSharpe == ExcessRatio(row.annualizedReturn, riskFreeRate, row.rollingVolatility)
  {
  }

  // ---------------------------------------------------------------------------
  // Properties of the derived series

  /** Row `t` of the cumulative return compounds the growth factors of rows `0..t`. */
  lemma CumulativeIsPrefixProduct(rs: seq<real>, t: nat)
    requires t < |rs|
    ensures CumulativeReturn(rs)[t] == Prod(Growth(rs)[..t + 1]) - 1.0
  {
    CumProdIsPrefixProduct(Growth(rs), t);
  }

  /** One step of compounding: a return `r` carries the cumulative return `prev` to `next`. */
  predicate Compounds(prev: real, r: real, next: real) {
    1.0 + next == (1.0 + prev) * (1.0 + r)
  }

  /** The first row is the first return; each later row compounds the previous one. */
  lemma CumulativeRecurrence(rs: seq<real>, t: nat)
    requires t < |rs|
    ensures t == 0 ==> CumulativeReturn(rs)[0] == rs[0]
    ensures t > 0 ==> Compounds(CumulativeReturn(rs)[t - 1], rs[t], CumulativeReturn(rs)[t])
  {
    var g := Growth(rs);
    CumulativeIsPrefixProduct(rs, t);
    if t > 0 {
      CumulativeIsPrefixProduct(rs, t - 1);
      assert g[..t + 1][..t] == g[..t];
    } else {
      assert g[..1][..0] == [];
    }
  }

  /** Row `t` of the trailing-window return compounds the growth factors of
      rows `t + 1 - days..t`, and is undefined before the window fills. */
  lemma RollingProductAt(rs: seq<real>, days: nat, t: nat)
    requires days >= 1 && t < |rs|
    ensures RollingProduct(rs, days)[t] ==
              if t + 1 >= days then Some(Prod(Growth(rs)[t + 1 - days..t + 1]) - 1.0) else None
  {
  }

  /** A trailing-window return is the part of the cumulative return earned in
      the window: it equals the cumulative return on the first complete row, and
      later it is what carries row `t - days` to row `t`. */
  lemma RollingFromCumulative(rs: seq<real>, days: nat, t: nat)
    requires days >= 1 && t < |rs| && t + 1 >= days
    ensures RollingProduct(rs, days)[t].Some?
    ensures t + 1 == days ==> RollingProduct(rs, days)[t] == Some(CumulativeReturn(rs)[t])
    ensures t >= days ==> Compounds(CumulativeReturn(rs)[t - days], RollingProduct(rs, days)[t].value, CumulativeReturn(rs)[t])
  {
    var g := Growth(rs);
    CumulativeIsPrefixProduct(rs, t);
    if t + 1 == days {
      assert g[t + 1 - days..t + 1] == g[..t + 1];
    } else {
      CumulativeIsPrefixProduct(rs, t - days);
      var before, w := g[..t + 1 - days], g[t + 1 - days..t + 1];
      assert before + w == g[..t + 1];
      ProdConcat(before, w);
      assert RollingProduct(rs, days)[t] == Some(Prod(w) - 1.0);
      assert CumulativeReturn(rs)[t - days] == Prod(before) - 1.0;
      assert CumulativeReturn(rs)[t] == Prod(before) * Prod(w) - 1.0;
    }
  }

  /** For a constant return `r`, row `t` of the cumulative return is `(1 + r)^(t + 1) - 1`. */
  lemma CumulativeOfConstant(rs: seq<real>, r: real, t: nat)
    requires t < |rs| && forall i :: 0 <= i < |rs| ==> rs[i] == r
    ensures CumulativeReturn(rs)[t] == Power(1.0 + r, t + 1) - 1.0
  {
    CumulativeIsPrefixProduct(rs, t);
    ProdOfConstant(Growth(rs)[..t + 1], 1.0 + r);
  }

  /** For a constant return `r` every complete window compounds to
      `(1 + r)^days - 1` and, when the deviation of a constant is zero, has zero
      volatility. */
  lemma RollingOfConstant(ops: FloatOps, rs: seq<real>, r: real, days: nat, t: nat)
    requires days >= 1 && t < |rs| && forall i :: 0 <= i < |rs| ==> rs[i] == r
    ensures t + 1 >= days ==> RollingProduct(rs, days)[t] == Some(Power(1.0 + r, days) - 1.0)
    ensures days >= 2 && t + 1 >= days && ConstantHasZeroStd(ops) ==> Volatility(ops, rs, days)[t] == Some(0.0)
  {
    if t + 1 >= days {
      ProdOfConstant(Growth(rs)[t + 1 - days..t + 1], 1.0 + r);
      var w := rs[t + 1 - days..t + 1];
      assert Window(rs, days, t) == Some(w);
      assert Constant(w);
    }
  }

  /** With all returns positive the cumulative return strictly increases. */
  lemma {:induction false} CumulativeIncreasing(rs: seq<real>, s: nat, t: nat)
    requires s < t < |rs|
    requires forall i :: 0 <= i < |rs| ==> rs[i] > 0.0
    ensures CumulativeReturn(rs)[s] < CumulativeReturn(rs)[t]
  {
    var c := CumulativeReturn(rs);
    CumulativeRecurrence(rs, t);
    CumulativeIsPrefixProduct(rs, t - 1);
    ProdAtLeastOne(Growth(rs)[..t]);
    assert 1.0 + c[t - 1] >= 1.0;
    assert c[t] - c[t - 1] == (1.0 + c[t - 1]) * rs[t];
    if s < t - 1 {
      CumulativeIncreasing(rs, s, t - 1);
    }
  }

  /** The Sharpe value after raising the risk-free rate by `delta`. */
  predicate ShiftedDown(before: real, after: real, delta: real, volatility: real)
    requires volatility != 0.0
  {
    after == before - delta / volatility
  }

  /** Raising the risk-free rate by `delta` keeps a ratio defined exactly where it
      was and lowers it by `delta / volatility`. */
  lemma ExcessRatioShift(annualized: Option<real>, riskFreeRate: real, delta: real, volatility: Option<real>)
    ensures ExcessRatio(annualized, riskFreeRate + delta, volatility).Some? == ExcessRatio(annualized, riskFreeRate, volatility).Some?
    ensures ExcessRatio(annualized, riskFreeRate, volatility).Some? ==>
              ShiftedDown(ExcessRatio(annualized, riskFreeRate, volatility).value,
                          ExcessRatio(annualized, riskFreeRate + delta, volatility).value, delta, volatility.value)
  {
    if ExcessRatio(annualized, riskFreeRate, volatility).Some? {
      var x, v := annualized.value, volatility.value;
      assert (x - (riskFreeRate + delta)) / v == (x - riskFreeRate) / v - delta / v;
    }
  }

  // ---------------------------------------------------------------------------
  // Properties of compute_rolling_returns

  /** The cumulative column compounds from the first row, independent of the window. */
  lemma EngineCumulativeColumn(ops: FloatOps, f: Frame, timePeriod: int, riskFreeRate: real, t: nat)
    requires WellFormed(f) && ComputeRollingReturns(ops, f, timePeriod, riskFreeRate).Ok?
    requires t < |f.rows|
    ensures var rs := ReturnSeries(f).value;
            var rows := ComputeRollingReturns(ops, f, timePeriod, riskFreeRate).value.rows;
            && rows[t].cumulativeReturn == Prod(Growth(rs)[..t + 1]) - 1.0
            && (t == 0 ==> rows[0].cumulativeReturn == rs[0])
            && (t > 0 ==> Compounds(rows[t - 1].cumulativeReturn, rs[t], rows[t].cumulativeReturn))
  {
    var rs := ReturnSeries(f).value;
    EngineRow(ops, f, timePeriod, riskFreeRate, t);
    if t > 0 {
      EngineRow(ops, f, timePeriod, riskFreeRate, t - 1);
    }
    CumulativeIsPrefixProduct(rs, t);
    CumulativeRecurrence(rs, t);
  }

  /** The rolling cumulative column of the table: undefined before the window
      fills, the compounded window afterwards, equal to the cumulative column on
      the first complete row, and the source of the annualised column. */
  lemma TableRollingColumn(ops: FloatOps, index: seq<Cell>, rs: seq<real>, days: nat, riskFreeRate: real, t: nat)
    requires days >= 1 && |index| == |rs| && t < |rs|
    ensures var rows := RollingTable(ops, index, rs, days, riskFreeRate).rows;
            && (rows[t].rollingCumulativeReturn.None? <==> t + 1 < days)
            && (t + 1 >= days ==> rows[t].rollingCumulativeReturn == Some(Prod(Growth(rs)[t + 1 - days..t + 1]) - 1.0))
            && (t + 1 == days ==> rows[t].rollingCumulativeReturn == Some(rows[t].cumulativeReturn))
            && (t >= days ==> Compounds(rows[t - days].cumulativeReturn, rows[t].rollingCumulativeReturn.value,
                                        rows[t].cumulativeReturn))
            && rows[t].annualizedReturn == Annualize(ops, rows[t].rollingCumulativeReturn, days)
  {
    RollingProductAt(rs, days, t);
    if t + 1 >= days {
      RollingFromCumulative(rs, days, t);
    }
  }

  /** A series shorter than the window has no rolling value on any row. */
  lemma ShortSeriesHasNoRollingValues(ops: FloatOps, f: Frame, timePeriod: int, riskFreeRate: real)
    requires WellFormed(f) && ComputeRollingReturns(ops, f, timePeriod, riskFreeRate).Ok?
    requires |f.rows| < timePeriod * TradingDaysPerYear
    ensures forall row :: row in ComputeRollingReturns(ops, f, timePeriod, riskFreeRate).value.rows ==>
              && row.rollingCumulativeReturn.None? && row.annualizedReturn.None?
              && row.rollingVolatility.None? && row.rollingSharpe.None?
  {
    var rows := ComputeRollingReturns(ops, f, timePeriod, riskFreeRate).value.rows;
    forall row | row in rows
      ensures row.rollingCumulativeReturn.None? && row.annualizedReturn.None?
      ensures row.rollingVolatility.None? && row.rollingSharpe.None?
    {
      var t :| 0 <= t < |rows| && rows[t] == row;
      EngineRow(ops, f, timePeriod, riskFreeRate, t);
    }
  }

  /** With a one-year window the exponent `252 / days` is 1, so the annualised
      column is the rolling cumulative column. */
  lemma OneYearAnnualizedIsRolling(ops: FloatOps, f: Frame, riskFreeRate: real)
    requires WellFormed(f) && ComputeRollingReturns(ops, f, 1, riskFreeRate).Ok?
    requires ExponentOneIsExact(ops)
    ensures forall row :: row in ComputeRollingReturns(ops, f, 1, riskFreeRate).value.rows ==>
              row.annualizedReturn == row.rollingCumulativeReturn
  {
    var rows := ComputeRollingReturns(ops, f, 1, riskFreeRate).value.rows;
    forall row | row in rows ensures row.annualizedReturn == row.rollingCumulativeReturn {
      var t :| 0 <= t < |rows| && rows[t] == row;
      EngineRow(ops, f, 1, riskFreeRate, t);
      assert (TradingDaysPerYear as real) / (TradingDaysPerYear as real) == 1.0;
    }
  }

  /** On a window of two or more days the volatility is defined exactly on the
      complete windows, and the annualised return only there; with no return
      below -100% and a power defined on non-negative bases, everywhere there. */
  lemma WindowsDefined(ops: FloatOps, rs: seq<real>, days: nat, t: nat)
    requires days >= 2 && t < |rs|
    ensures Volatility(ops, rs, days)[t].Some? <==> t + 1 >= days
    ensures Annualize(ops, RollingProduct(rs, days)[t], days).Some? ==> t + 1 >= days
    ensures PowDefinedOnNonNegative(ops) && (forall i :: 0 <= i < |rs| ==> rs[i] >= -1.0) && t + 1 >= days ==>
              Annualize(ops, RollingProduct(rs, days)[t], days).Some?
  {
    if t + 1 >= days && forall i :: 0 <= i < |rs| ==> rs[i] >= -1.0 {
      ProdNonNegative(Growth(rs)[t + 1 - days..t + 1]);
    }
  }

  /** Volatility is defined exactly on the rows whose window is complete; the
      annualised return only there, and everywhere there when no return is
      below -100%; the Sharpe ratio wherever both are defined and the volatility
      is not zero. */
  lemma RollingDefinedOnCompleteWindows(ops: FloatOps, f: Frame, timePeriod: int, riskFreeRate: real, t: nat)
    requires WellFormed(f) && ComputeRollingReturns(ops, f, timePeriod, riskFreeRate).Ok?
    requires t < |f.rows|
    ensures var days := timePeriod * TradingDaysPerYear;
            var row := ComputeRollingReturns(ops, f, timePeriod, riskFreeRate).value.rows[t];
            && (row.rollingVolatility.Some? <==> t + 1 >= days)
            && (row.annualizedReturn.Some? ==> t + 1 >= days)
            && (row.rollingSharpe.Some? <==> row.annualizedReturn.Some? && row.rollingVolatility.Some?
                                             && row.rollingVolatility.value != 0.0)
    ensures var days := timePeriod * TradingDaysPerYear;
            var rs := ReturnSeries(f).value;
            var row := ComputeRollingReturns(ops, f, timePeriod, riskFreeRate).value.rows[t];
            PowDefinedOnNonNegative(ops) && (forall i :: 0 <= i < |rs| ==> rs[i] >= -1.0) && t + 1 >= days ==>
              row.annualizedReturn.Some?
  {
    EngineRow(ops, f, timePeriod, riskFreeRate, t);
    WindowsDefined(ops, ReturnSeries(f).value, timePeriod * TradingDaysPerYear, t);
  }

  /** Raising the risk-free rate by `delta` lowers every defined Sharpe value by
      `delta / volatility` and changes nothing else. */
  lemma SharpeShiftsWithRiskFreeRate(ops: FloatOps, f: Frame, timePeriod: int, riskFreeRate: real, delta: real, t: nat)
    requires WellFormed(f) && ComputeRollingReturns(ops, f, timePeriod, riskFreeRate).Ok?
    requires t < |f.rows|
    ensures ComputeRollingReturns(ops, f, timePeriod, riskFreeRate + delta).Ok?
    ensures var a := ComputeRollingReturns(ops, f, timePeriod, riskFreeRate).value;
            var b := ComputeRollingReturns(ops, f, timePeriod, riskFreeRate + delta).value;
            && a.index == b.index
            && b.rows[t] == a.rows[t].(rollingSharpe := b.rows[t].rollingSharpe)
            && b.rows[t].rollingSharpe.Some? == a.rows[t].rollingSharpe.Some?
            && (a.rows[t].rollingSharpe.Some? ==>
                  ShiftedDown(a.rows[t].rollingSharpe.value, b.rows[t].rollingSharpe.value, delta,
                              a.rows[t].rollingVolatility.value))
  {
    EngineRow(ops, f, timePeriod, riskFreeRate, t);
    EngineRow(ops, f, timePeriod, riskFreeRate + delta, t);
    var row := ComputeRollingReturns(ops, f, timePeriod, riskFreeRate).value.rows[t];
    ExcessRatioShift(row.annualizedReturn, riskFreeRate, delta, row.rollingVolatility);
  }

  /** The same on the engine's output table. */
  lemma ConstantTableRow(ops: FloatOps, index: seq<Cell>, rs: seq<real>, days: nat, riskFreeRate: real, r: real, t: nat)
    requires days >= 1 && |index| == |rs| && t < |rs|
    requires forall i :: 0 <= i < |rs| ==> rs[i] == r
    ensures var row := RollingTable(ops, index, rs, days, riskFreeRate).rows[t];
            && row.cumulativeReturn == Power(1.0 + r, t + 1) - 1.0
            && (t + 1 >= days ==> row.rollingCumulativeReturn == Some(Power(1.0 + r, days) - 1.0))
            && (days >= 2 && t + 1 >= days && ConstantHasZeroStd(ops) ==> row.rollingVolatility == Some(0.0) && row.rollingSharpe.None?)
  {
    CumulativeOfConstant(rs, r, t);
    RollingOfConstant(ops, rs, r, days, t);
  }

  /** For a constant return `r` every complete window compounds to
      `(1 + r)^days - 1`, its volatility is zero, and so no Sharpe value is defined. */
  lemma ConstantReturnsScenario(ops: FloatOps, f: Frame, timePeriod: int, riskFreeRate: real, r: real, t: nat)
    requires WellFormed(f) && ComputeRollingReturns(ops, f, timePeriod, riskFreeRate).Ok?
    requires t < |f.rows|
    requires forall i :: 0 <= i < |ReturnSeries(f).value| ==> ReturnSeries(f).value[i] == r
    ensures var days := timePeriod * TradingDaysPerYear;
            var row := ComputeRollingReturns(ops, f, timePeriod, riskFreeRate).value.rows[t];
            && row.cumulativeReturn == Power(1.0 + r, t + 1) - 1.0
            && (t + 1 >= days ==> row.rollingCumulativeReturn == Some(Power(1.0 + r, days) - 1.0))
            && (t + 1 >= days && ConstantHasZeroStd(ops) ==> row.rollingVolatility == Some(0.0) && row.rollingSharpe.None?)
  {
    EngineIsTable(ops, f, timePeriod, riskFreeRate);
    ConstantTableRow(ops, Column(f, "date"), ReturnSeries(f).value, timePeriod * TradingDaysPerYear, riskFreeRate, r, t);
  }
}
