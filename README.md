# PSFDashboard analytics core, modelled in Dafny

PSFDashboard is a small Python package. A portfolio dashboard uses it to turn daily
security returns into tables and charts. This project models its computational core
and proves properties of that model:

- **Rolling-return engine** (`psf_library/calcs.py`), in module `Calcs`:
  - `compute_rolling_returns`, which turns a date-indexed series of daily returns into five aligned columns: cumulative return, trailing-window return, its annualised form, rolling volatility and rolling Sharpe ratio;
  - the cumulative helpers `compute_col_cumulative` and `compute_df_cumulative`;
  - `annualized_return` and `z_score`.
- **Duplicate helper copy** (`python_library/build/lib/psf_library/calcs.py`), in module `BuildCalcs`. The Python copy repeats the same `cumprod` expressions. The Dafny module defines them independently, in closed form (a product over each prefix), and lemmas show that both copies compute the same results.
- **Table preparation** (`python_library/build/lib/psf_library/cleaning.py`), in module `Cleaning`:
  - `unique_values`, an order-preserving dedupe followed by a Python slice;
  - `data_prep`, which writes `date`, the value column, `year` and `quarter` into the caller's frame in place, then returns the rows of one security with a `"Q<quarter> <year>"` label;
  - `prep_dfs` and `process_indices`, the loops that fill dictionaries keyed by security;
  - `get_last_day_each_quarter`, which adds `year` and `quarter` in place, keeps the last trading day of each quarter and optionally slices the result.

Supporting modules:

| module | contents |
|---|---|
| `Wrappers` | `Option`, and `Outcome`, a result type whose error side is the Python exception raised (`KeyError`, `IndexError`, `TypeError`, `ValueError`, `ZeroDivisionError`, a parse error) |
| `Frames` | a DataFrame as column names plus rows of cells |
| `Series` | sums, products, means and trailing windows over `seq<real>` |
| `Dates` | calendar dates with the pandas quarter `(month - 1) / 3 + 1` and the whole-day difference |
| `Decimal` | Python's `str()` of a natural number |
| `Seqs` | sequence helpers: dedupe, filter, subsequence, Python slicing |
| `Floats` | the floating-point primitives, passed in as parameters |

Modelling choices:

- NaN is `None` in an `Option<real>`. A raised exception is the `Err` side of `Outcome`.
- `compute_rolling_returns` works on a copy of its argument, so it is modelled as a pure function; the caller's frame cannot change.
- The caller's frame, which `data_prep` and `get_last_day_each_quarter` change in place, is the class `Cleaning.Table`. `Cleaning.Table.SetColumn` models `df[name] = values`.
- The loops of `prep_dfs` and `process_indices` are methods with loop invariants. They are proved against the functions `SeenAt`, `Steps` and `Accumulate`:
  - `SeenAt(j)` is the frame that iteration `j` sees;
  - `Steps` is the outcome of each iteration;
  - `Accumulate` folds those outcomes into the three dictionaries, and the first exception ends the call.
- `process_indices` calls `data_prep` on the caller's frame. Each iteration therefore sees the frame prepared by the one before it, and only the first calculation runs on the unprepared frame. The model keeps that order.
- With `calc == 'annualized return'`, `process_indices` always raises. `annualized_return` returns a whole series, and `f"{val:.2f}"` cannot format one. The model keeps this behaviour (`Cleaning.AnnualizedCalcRaises`).

## Model

| member | source | states |
|---|---|---|
| Calcs.ComputeColCumulative | psf_library/calcs.py:14-15 | returns one value per row; raises KeyError when the column is missing and TypeError when it is not numeric, and succeeds otherwise |
| Calcs.ComputeDfCumulative | psf_library/calcs.py:10-11 | on success drops exactly the `date` column and keeps the row count |
| Calcs.AnnualizedReturn | psf_library/calcs.py:18-24 | defined exactly when the cumulative series is defined and the two dates differ; equal dates raise ZeroDivisionError; one value per row |
| Calcs.ZScore | psf_library/calcs.py:66-67 | raises exactly when the column is missing, empty (`iloc[-1]` raises IndexError) or not numeric; a finite value needs at least two rows |
| Calcs.ReturnSeries | psf_library/calcs.py:28-35 | the series is `df.columns[1]`, looked up after `date` has become the index: IndexError with fewer than two columns, KeyError when `date` is missing or is that column, otherwise the numeric values of that column (TypeError when it is not numeric) |
| Calcs.ComputeRollingReturns | psf_library/calcs.py:27-63 | succeeds exactly when the return series exists and `time_period >= 1` (a negative window raises ValueError, a zero one ZeroDivisionError); one output row per input row; the index is the input's date column in order, and each row's `date` equals its index entry |
| Calcs.CumulativeIsPrefixProduct | psf_library/calcs.py:46 | `cumulative_return[t]` is the product of `1 + r` over rows `0..t`, less one |
| Calcs.CumulativeRecurrence | psf_library/calcs.py:46 | row 0 equals `r[0]`, and `1 + cum[t] = (1 + cum[t-1]) * (1 + r[t])` |
| Calcs.EngineCumulativeColumn | psf_library/calcs.py:46-57 | the engine's cumulative column is the prefix product and follows the recurrence, whatever the window |
| Calcs.RollingFromCumulative | psf_library/calcs.py:37-49 | on the first complete row the window return equals the cumulative return; later, the cumulative return at `t - days` compounded with the window return gives the cumulative return at `t` |
| Calcs.TableRollingColumn | psf_library/calcs.py:37-59 | in the table, `rolling_cumulative_return` is undefined exactly before the window fills and is the window product afterwards; it equals `cumulative_return` on the first complete row; `annualized_return` is computed from that same column |
| Calcs.ShortSeriesHasNoRollingValues | psf_library/calcs.py:30-52 | a series shorter than the window leaves every rolling column undefined on every row |
| Calcs.OneYearAnnualizedIsRolling | psf_library/calcs.py:30-40 | with `time_period = 1` the exponent `252 / days` is 1, so `annualized_return` equals `rolling_cumulative_return` on every row |
| Calcs.WindowsDefined | psf_library/calcs.py:40-43 | the volatility is defined exactly on complete windows, and the annualised return only there; with no return below -100% it is defined there too |
| Calcs.RollingDefinedOnCompleteWindows | psf_library/calcs.py:40-52 | on the engine's rows: volatility is defined exactly on complete windows; the annualised return only there; the Sharpe value exactly where both are defined and the volatility is non-zero |
| Calcs.ExcessRatioShift | psf_library/calcs.py:52 | raising the risk-free rate by `delta` keeps a Sharpe value defined exactly where it was and lowers it by `delta / volatility` |
| Calcs.SharpeShiftsWithRiskFreeRate | psf_library/calcs.py:52-63 | on the engine's output the same shift changes only `rolling_sharpe`: every other column and the index are unchanged |
| Calcs.CumulativeOfConstant | psf_library/calcs.py:46 | a constant return `r` gives cumulative return `(1 + r)^(t+1) - 1` at row `t` |
| Calcs.RollingOfConstant | psf_library/calcs.py:43-49 | for a constant return every complete window compounds to `(1 + r)^days - 1`, and its volatility is zero when the deviation of a constant is zero |
| Calcs.ConstantTableRow | psf_library/calcs.py:37-61 | the constant-return facts row by row of the table, with no Sharpe value on a zero-volatility window |
| Calcs.ConstantReturnsScenario | psf_library/calcs.py:27-63 | the same facts on the engine's output |
| Calcs.CumulativeIncreasing | psf_library/calcs.py:46 | with every return positive, the cumulative return strictly increases |
| BuildCalcs.ComputeColCumulative | python_library/build/lib/psf_library/calcs.py:12-13 | returns one value per row; KeyError for a missing column, TypeError for a non-numeric one |
| BuildCalcs.AnnualizedReturn | python_library/build/lib/psf_library/calcs.py:16-22 | defined exactly when the cumulative series is defined and the dates differ; equal dates raise ZeroDivisionError |
| BuildCalcs.PrefixReturnsIsCumulative | python_library/build/lib/psf_library/calcs.py:13 | the closed-form prefix product equals the running product `cumprod` of the top-level module |
| BuildCalcs.ColCumulativeCopiesAgree | python_library/build/lib/psf_library/calcs.py:12-13 | `compute_col_cumulative` of the build copy returns exactly what the top-level one returns, errors included |
| BuildCalcs.DfCumulativeCopiesAgree | python_library/build/lib/psf_library/calcs.py:8-9 | `compute_df_cumulative` of the two copies agrees on every frame |
| BuildCalcs.AnnualizedReturnCopiesAgree | python_library/build/lib/psf_library/calcs.py:16-22 | `annualized_return` of the two copies agrees on every input |
| BuildCalcs.ColCumulativeEntries | python_library/build/lib/psf_library/calcs.py:12-13 | entry 0 is `r[0]`, and each later entry compounds the previous one with that row's return |
| BuildCalcs.ColCumulativeOfConstant | python_library/build/lib/psf_library/calcs.py:13 | a constant return `r` gives `(1 + r)^(t+1) - 1` at entry `t` |
| BuildCalcs.ColCumulativeOfZeros | python_library/build/lib/psf_library/calcs.py:13 | all-zero returns give all-zero cumulative returns |
| BuildCalcs.DfCumulativeColumnwise | python_library/build/lib/psf_library/calcs.py:8-9 | succeeds exactly when `date` exists and every other column is numeric (KeyError or TypeError otherwise); drops only `date`, keeps the row count, and each remaining column is that column's own cumulative series |
| BuildCalcs.AnnualizedSameDayFails | python_library/build/lib/psf_library/calcs.py:19-22 | with `date1 == date2`, `365 / days` divides by zero: ZeroDivisionError, or the cumulative helper's own error first |
| BuildCalcs.AnnualizedOverOneYear | python_library/build/lib/psf_library/calcs.py:19-22 | over exactly 365 days the exponent is 1, and the result is the cumulative series unchanged |
| Cleaning.Table.SetColumn | python_library/build/lib/psf_library/cleaning.py:38-42 | `df[name] = values` replaces the caller's frame by the frame with that column overwritten or appended |
| Cleaning.UniqueValues | python_library/build/lib/psf_library/cleaning.py:22-24 | raises KeyError exactly when the column is missing |
| Cleaning.UniqueValuesContents | python_library/build/lib/psf_library/cleaning.py:22-24 | no duplicates; values in order of first appearance; with no `number`, every distinct value of the column; otherwise the Python slice `[:number]` of that list |
| Cleaning.ToFloat32 | python_library/build/lib/psf_library/cleaning.py:39 | `astype('float32')` yields a number; it raises TypeError on a date and ValueError on text that does not parse |
| Cleaning.ParseDates | python_library/build/lib/psf_library/cleaning.py:38 | `pd.to_datetime(df['date'])` raises KeyError without a `date` column and a parse error on a bad cell; otherwise one valid date per row, each the parse of its cell |
| Cleaning.CastColumn | python_library/build/lib/psf_library/cleaning.py:39 | succeeds exactly when the column exists and every cell converts; each value is that cell's conversion |
| Cleaning.PrepColumns | python_library/build/lib/psf_library/cleaning.py:38-42 | when the four assignments complete, every row holds a valid date and its year and quarter |
| Cleaning.DataPrep | python_library/build/lib/psf_library/cleaning.py:36-51 | changes the caller's frame to `AfterPrep` of it (the assignments that completed before any exception) and returns `DataPrepResult` |
| Cleaning.PrepIdempotent | python_library/build/lib/psf_library/cleaning.py:38-42 | a second `data_prep` leaves the caller's frame as the first left it and sees the same prepared columns |
| Cleaning.AfterPrepKeepsOtherColumns | python_library/build/lib/psf_library/cleaning.py:38-42 | `data_prep` keeps the row count; it changes no column but `date`, the value column, `year` and `quarter`; it adds no label but `year` and `quarter`; it changes nothing when the dates do not parse |
| Cleaning.PrepColumnsKeepsOthers | python_library/build/lib/psf_library/cleaning.py:38-42 | when all four assignments complete, the labels gain exactly `year` and `quarter`, and every other column is kept |
| Cleaning.DatesOnlyKeepsOthers | python_library/build/lib/psf_library/cleaning.py:38 | when only the date assignment completes, only `date` has changed |
| Cleaning.AfterPrepOnSuccess | python_library/build/lib/psf_library/cleaning.py:38-42 | after a complete preparation, `date` holds the parsed dates and the value column holds the float32 values |
| Cleaning.SecuritySubsetRows | python_library/build/lib/psf_library/cleaning.py:44-49 | KeyError without a `security` column; otherwise exactly the rows of that security, in input order, each with `quarter_year` = `"Q" + str(quarter) + " " + str(year)` |
| Cleaning.QuarterLabelRoundTrip | python_library/build/lib/psf_library/cleaning.py:47-49 | the label `"Q<quarter> <year>"` can be read back into its quarter and year |
| Cleaning.QuarterLabelInjective | python_library/build/lib/psf_library/cleaning.py:47-49 | different (quarter, year) pairs get different labels |
| Cleaning.DataPrepRows | python_library/build/lib/psf_library/cleaning.py:36-51 | once the columns are prepared, `data_prep` returns the security subset of the prepared frame |
| Cleaning.DataPrepFailsAlike | python_library/build/lib/psf_library/cleaning.py:36-51 | whether `data_prep` raises, and which exception, does not depend on the security asked for |
| Cleaning.SeenAtSettles | python_library/build/lib/psf_library/cleaning.py:57-58 | every call after the first sees the frame the first call left and returns what a call on the original frame returns |
| Cleaning.SubsetOfIsDataPrep | python_library/build/lib/psf_library/cleaning.py:54-60 | the dictionary built from the prepared frame has exactly the listed keys, each mapped to `data_prep` of that key |
| Cleaning.PrepDfs | python_library/build/lib/psf_library/cleaning.py:54-60 | raises exactly when the first `data_prep` raises, with that exception; otherwise the keys are exactly `index_list` and each value is `data_prep(df, index, column_name)` on the original frame; the caller's frame is left prepared |
| Cleaning.ColumnMean | python_library/build/lib/psf_library/cleaning.py:77 | KeyError or TypeError for a missing or non-numeric column; NaN exactly on an empty subset; otherwise the mean times the row count is the column's sum |
| Cleaning.CalculateCases | python_library/build/lib/psf_library/cleaning.py:72-81 | KeyError without `security`; `'z-score'` gives the z-score and `'mean'` the mean of the security's rows; `'annualized return'` raises; any other name gives 0 |
| Cleaning.ProcessIndices | python_library/build/lib/psf_library/cleaning.py:63-91 | returns the fold of the iterations' outcomes over `index_list`; leaves the caller's frame prepared once the first calculation has returned |
| Cleaning.AccumulateStep | python_library/build/lib/psf_library/cleaning.py:70-89 | a returning iteration stores its three entries under its index; a raising one ends the call with its exception |
| Cleaning.FailureSticks | python_library/build/lib/psf_library/cleaning.py:70-89 | once an iteration raises, later iterations change nothing |
| Cleaning.AccumulateOutcome | python_library/build/lib/psf_library/cleaning.py:70-91 | the call returns exactly when every iteration returns; otherwise it raises the exception of the first iteration that raised |
| Cleaning.AccumulateEntries | python_library/build/lib/psf_library/cleaning.py:83-89 | the three dictionaries have exactly the indexes as keys; for a repeated index, the entries come from its last iteration |
| Cleaning.ProcessOutcome | python_library/build/lib/psf_library/cleaning.py:63-91 | `process_indices` returns exactly when every iteration, on the frame it sees, returns; otherwise it raises the first exception |
| Cleaning.ProcessEntries | python_library/build/lib/psf_library/cleaning.py:63-91 | on return, `prepared_dfs` has exactly the keys of `index_list`, each `data_prep` of the original frame; `calculation` holds, for each index, the calculation on the frame its last iteration saw |
| Cleaning.StepStored | python_library/build/lib/psf_library/cleaning.py:72-89 | what an iteration stores is its calculation and its `data_prep` result, and 0 for an unrecognised name |
| Cleaning.UnrecognisedCalcIsZero | python_library/build/lib/psf_library/cleaning.py:80-86 | with an unrecognised `calc`, every index maps to 0 in `calculation` and in its one-cell table |
| Cleaning.AnnualizedCalcRaises | python_library/build/lib/psf_library/cleaning.py:78-83 | with `calc == 'annualized return'` and a non-empty index list, the call always raises |
| Cleaning.LatestInQuarter | python_library/build/lib/psf_library/cleaning.py:102 | the group maximum: a date of the same quarter, no earlier than the given one, and no earlier than any other row's date in that quarter |
| Cleaning.QuarterColumns | python_library/build/lib/psf_library/cleaning.py:95-99 | raises exactly when the dates do not parse; otherwise every row holds a valid date and its year and quarter |
| Cleaning.QuarterColumnsEffect | python_library/build/lib/psf_library/cleaning.py:95-99 | `get_last_day_each_quarter` changes the caller's frame only in `date`, `year` and `quarter`; it keeps the row count and leaves the frame unchanged when the dates do not parse |
| Cleaning.GetLastDayEachQuarter | python_library/build/lib/psf_library/cleaning.py:94-110 | changes the caller's frame to `AfterQuarterColumns` of it and returns `LastDayEachQuarter` |
| Cleaning.LastDayEachQuarter | python_library/build/lib/psf_library/cleaning.py:94-110 | raises exactly when the dates do not parse |
| Cleaning.QuarterEndIff | python_library/build/lib/psf_library/cleaning.py:102-104 | a row is kept exactly when no row of its quarter has a later date |
| Cleaning.QuarterEndsAreLatest | python_library/build/lib/psf_library/cleaning.py:102-104 | the kept rows are an order-preserving subsequence of the input; each has the latest date of its (year, quarter); every row with that latest date is kept |
| Cleaning.EveryQuarterRepresented | python_library/build/lib/psf_library/cleaning.py:102-104 | every (year, quarter) present in the input has a kept row, dated at that quarter's maximum |
| Cleaning.LastDayEachQuarterRows | python_library/build/lib/psf_library/cleaning.py:107-110 | with both bounds the result is `filtered.iloc[start_idx:end_idx]` (Python slice semantics); otherwise it is all the filtered rows |
| Cleaning.LastDayEachQuarterDated | python_library/build/lib/psf_library/cleaning.py:98-104 | every returned row is an input row with a valid date and a quarter in 1..4 |

## Left out

- Floating point: pandas `std` (ddof = 1), `np.sqrt(252)`, fractional powers and the float32 rounding are parameters (`Floats.FloatOps`). The few facts some lemmas need are named laws, required only there: `x ** 1.0 == x`, a power of a non-negative base is defined, the deviation of a constant is zero, and float32 rounding is idempotent. Sums and products are exact real arithmetic.
- Calcs.ExcessRatio: a zero volatility gives no value (None). pandas gives `inf` or `NaN` there, so the model does not separate infinities from NaN.
- Calcs.ZScore: a zero standard deviation gives no value (None). In pandas the numerator is then zero too, so the result is NaN, except when rounding leaves a tiny non-zero numerator and pandas gives `inf`; the model does not separate that case.
- Cleaning.ProcessIndices: requires float32 rounding to be idempotent. Without that law, a later iteration's `data_prep` could round the already-rounded column again.
- Cleaning.PrepDfs: requires float32 rounding to be idempotent, for the same reason.
- Cleaning.Calculate: uses `Calcs.ZScore` for `z_score`. The build copy's `z_score` (python_library/build/lib/psf_library/calcs.py:25-26) is textually identical and is not modelled separately.
- The `f"{val:.2f}"` formatting in `process_indices`: `calculation` and the one-cell tables hold the unformatted value. `to_percent` and `to_ratio` are not modelled either.
- Parsing: `pd.to_datetime` and the string side of `astype('float32')` are parameters (`Cleaning.Parsers`). CSV loading is not modelled.
- `data_info` (printing) and `color_selection` (random sampling) are not modelled.
- Plotting (`python_library/build/lib/psf_library/plotting.py`) and the dashboard callbacks (`dashboard.py`) are not part of this model.
- pandas `groupby`, `rolling` and `unique` are modelled only through their stated results: group maximum, trailing windows, first-appearance order.
- Dates are (year, month, day) triples without time of day or time zone.
