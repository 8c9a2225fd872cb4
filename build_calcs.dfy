/** The copy of the cumulative helpers shipped in the built package
    (`python_library/build/lib/psf_library/calcs.py`). Here the cumulative
    return is defined directly as the product over each prefix of the growth
    factors, and the whole-frame version applies that column helper to each
    column; the lemmas show that this copy computes exactly what the running
    product of the top-level module computes. */
module BuildCalcs {
  import opened Wrappers
  import opened Dates
  import opened Frames
  import opened Floats
  import opened Series
  import Calcs

  /** Row `t`: the product of `1 + r` over rows `0..t`, less one. */
  function PrefixReturns(rs: seq<real>): (c: seq<real>)
    ensures |c| == |rs|
  {
    seq(|rs|, t requires 0 <= t < |rs| => Prod(Growth(rs)[..t + 1]) - 1.0)
  }

  /** `compute_col_cumulative(df, col)`. */
  function ComputeColCumulative(f: Frame, col: string): (r: Outcome<seq<real>>)
    requires WellFormed(f)
    ensures r.Ok? <==> col in f.names && Numeric(Column(f, col)).Ok?
    ensures r.Err? ==> r.error == (if col in f.names then TypeError else KeyError(col))
    ensures r.Ok? ==> |r.value| == |f.rows|
  {
    var cells :- Lookup(f, col);
    var rs :- Numeric(cells);
    Ok(PrefixReturns(rs))
  }

  /** `compute_df_cumulative(df)`: drop `date`, then the column helper on every remaining column. */
  function ComputeDfCumulative(f: Frame): (r: Outcome<Frame>)
    requires WellFormed(f)
    ensures r.Ok? ==> WellFormed(r.value)
  {
    var g :- DropColumn(f, "date");
    if forall n :: n in g.names ==> ComputeColCumulative(g, n).Ok? then
      Ok(Frame(g.names, seq(|g.rows|, i requires 0 <= i < |g.rows| =>
        map n | n in g.names :: Num(ComputeColCumulative(g, n).value[i]))))
    else Err(TypeError)
  }

  /** `annualized_return(df, col, date1, date2)` of this copy. */
  function AnnualizedReturn(ops: FloatOps, f: Frame, col: string, date1: Date, date2: Date): (r: Outcome<seq<Option<real>>>)
    requires WellFormed(f) && Valid(date1) && Valid(date2)
    ensures r.Ok? <==> ComputeColCumulative(f, col).Ok? && date1 != date2
    ensures r.Ok? ==> |r.value| == |f.rows|
    ensures ComputeColCumulative(f, col).Ok? && date1 == date2 ==> r == Err(ZeroDivisionError)
  {
    DaysBetweenZero(date1, date2);
    var cumulative :- ComputeColCumulative(f, col);
    var days := DaysBetween(date1, date2);
    if days == 0 then Err(ZeroDivisionError)
    else Ok(seq(|cumulative|, t requires 0 <= t < |cumulative| =>
      Calcs.LessOne(ops.pow(1.0 + cumulative[t], 365.0 / days as real))))
  }

  // ---------------------------------------------------------------------------
  // The two copies agree

  /** The prefix products are the running product of the top-level copy. */
  lemma PrefixReturnsIsCumulative(rs: seq<real>)
    ensures PrefixReturns(rs) == Calcs.CumulativeReturn(rs)
  {
    forall t | 0 <= t < |rs| ensures PrefixReturns(rs)[t] == Calcs.CumulativeReturn(rs)[t] {
      Calcs.CumulativeIsPrefixProduct(rs, t);
    }
  }

  lemma ColCumulativeCopiesAgree(f: Frame, col: string)
    requires WellFormed(f)
    ensures ComputeColCumulative(f, col) == Calcs.ComputeColCumulative(f, col)
  {
    if col in f.names && Numeric(Column(f, col)).Ok? {
      PrefixReturnsIsCumulative(Numeric(Column(f, col)).value);
    }
  }

  lemma DfCumulativeCopiesAgree(f: Frame)
    requires WellFormed(f)
    ensures ComputeDfCumulative(f) == Calcs.ComputeDfCumulative(f)
  {
    if "date" in f.names {
      var g := DropColumn(f, "date").value;
      forall n | n in g.names ensures ComputeColCumulative(g, n) == Calcs.ComputeColCumulative(g, n) {
        ColCumulativeCopiesAgree(g, n);
      }
      if Calcs.AllNumeric(g) {
        var a := ComputeDfCumulative(f).value;
        var b := Calcs.ComputeDfCumulative(f).value;
        forall i | 0 <= i < |g.rows| ensures a.rows[i] == b.rows[i] {
          forall n | n in g.names ensures a.rows[i][n] == b.rows[i][n] {
            PrefixReturnsIsCumulative(Numeric(Column(g, n)).value);
          }
          assert a.rows[i].Keys == b.rows[i].Keys;
        }
        assert a.rows == b.rows;
      }
    }
  }

  lemma AnnualizedReturnCopiesAgree(ops: FloatOps, f: Frame, col: string, date1: Date, date2: Date)
    requires WellFormed(f) && Valid(date1) && Valid(date2)
    ensures AnnualizedReturn(ops, f, col, date1, date2) == Calcs.AnnualizedReturn(ops, f, col, date1, date2)
  {
    ColCumulativeCopiesAgree(f, col);
  }

  // ---------------------------------------------------------------------------
  // Properties of this copy

  /** One entry per row; the first is the first return and each later one
      compounds the previous entry with that row's return. */
  lemma ColCumulativeEntries(f: Frame, col: string, t: nat)
    requires WellFormed(f) && ComputeColCumulative(f, col).Ok? && t < |f.rows|
    ensures var rs := Numeric(Column(f, col)).value;
            var c := ComputeColCumulative(f, col).value;
            && (t == 0 ==> c[0] == rs[0])
            && (t > 0 ==> Calcs.Compounds(c[t - 1], rs[t], c[t]))
  {
    var rs := Numeric(Column(f, col)).value;
    PrefixReturnsIsCumulative(rs);
    Calcs.CumulativeRecurrence(rs, t);
  }

  /** A constant return `r` compounds to `(1 + r)^(t + 1) - 1` at row `t`. */
  lemma ColCumulativeOfConstant(f: Frame, col: string, r: real, t: nat)
    requires WellFormed(f) && ComputeColCumulative(f, col).Ok? && t < |f.rows|
    requires forall i :: 0 <= i < |f.rows| ==> AsReal(f.rows[i][col]).value == r
    ensures ComputeColCumulative(f, col).value[t] == Power(1.0 + r, t + 1) - 1.0
  {
    var rs := Numeric(Column(f, col)).value;
    ProdOfConstant(Growth(rs)[..t + 1], 1.0 + r);
  }

  /** All-zero returns give an all-zero cumulative return. */
  lemma ColCumulativeOfZeros(f: Frame, col: string)
    requires WellFormed(f) && ComputeColCumulative(f, col).Ok?
    requires forall i :: 0 <= i < |f.rows| ==> AsReal(f.rows[i][col]).value == 0.0
    ensures forall t :: 0 <= t < |f.rows| ==> ComputeColCumulative(f, col).value[t] == 0.0
  {
    forall t | 0 <= t < |f.rows| ensures ComputeColCumulative(f, col).value[t] == 0.0 {
      ColCumulativeOfConstant(f, col, 0.0, t);
      PowerOfOne(t + 1);
    }
  }

  /** The frame helper drops `date` and nothing else, keeps the row count, and
      holds in each remaining column the column helper's result for it; it fails
      with a KeyError without `date` and a TypeError when a column is not numeric. */
  lemma DfCumulativeColumnwise(f: Frame)
    requires WellFormed(f)
    ensures ComputeDfCumulative(f).Ok? <==>
              "date" in f.names && forall n :: n in f.names && n != "date" ==> ComputeColCumulative(f, n).Ok?
    ensures "date" !in f.names ==> ComputeDfCumulative(f) == Err(KeyError("date"))
    ensures "date" in f.names && ComputeDfCumulative(f).Err? ==> ComputeDfCumulative(f) == Err(TypeError)
    ensures ComputeDfCumulative(f).Ok? ==>
              var g := ComputeDfCumulative(f).value;
              && g.names == Frames.Without(f.names, "date")
              && |g.rows| == |f.rows|
              && forall i, n :: 0 <= i < |f.rows| && n in g.names ==>
                   n != "date" && g.rows[i][n] == Num(ComputeColCumulative(f, n).value[i])
  {
    if "date" in f.names {
      var g := DropColumn(f, "date").value;
      forall n | n in g.names ensures n in f.names && n != "date" && Column(g, n) == Column(f, n) {
        assert n in NameSet(g.names);
      }
      forall n | n in f.names && n != "date" ensures n in g.names {
        assert n in NameSet(f.names) - {"date"};
        assert n in NameSet(g.names);
      }
    }
  }

  /** The day count is `date2 - date1` in whole days, and a zero count fails. */
  lemma AnnualizedSameDayFails(ops: FloatOps, f: Frame, col: string, date: Date)
    requires WellFormed(f) && Valid(date)
    ensures AnnualizedReturn(ops, f, col, date, date) ==
              if ComputeColCumulative(f, col).Ok? then Err(ZeroDivisionError)
              else Err(ComputeColCumulative(f, col).error)
  {
  }

  /** Dates exactly 365 days apart give the exponent 1, so the cumulative series
      comes back unchanged wherever the power is exact at 1. */
  lemma AnnualizedOverOneYear(ops: FloatOps, f: Frame, col: string, date1: Date, date2: Date)
    requires WellFormed(f) && Valid(date1) && Valid(date2)
    requires ComputeColCumulative(f, col).Ok? && DaysBetween(date1, date2) == 365
    requires ExponentOneIsExact(ops)
    ensures AnnualizedReturn(ops, f, col, date1, date2).Ok?
    ensures forall t :: 0 <= t < |f.rows| ==>
              AnnualizedReturn(ops, f, col, date1, date2).value[t] == Some(ComputeColCumulative(f, col).value[t])
  {
    var c := ComputeColCumulative(f, col).value;
    forall t | 0 <= t < |f.rows|
      ensures AnnualizedReturn(ops, f, col, date1, date2).value[t] == Some(c[t])
    {
      assert 365.0 / 365 as real == 1.0;
      assert ops.pow(1.0 + c[t], 1.0) == Some(1.0 + c[t]);
    }
  }
}
