/** The data-preparation helpers of `python_library/build/lib/psf_library/cleaning.py`:
    listing a column's distinct values, preparing one security's rows with a
    quarter label, splitting a table by security, the per-security summary
    value, and keeping the last trading day of each quarter. `data_prep` and
    `get_last_day_each_quarter` assign columns of the caller's DataFrame in
    place; that DataFrame is the `Table` object below. */
module Cleaning {
  import opened Wrappers
  import opened Dates
  import opened Seqs
  import opened Decimal
  import opened Frames
  import opened Floats
  import opened Series
  import Calcs
  import BuildCalcs

  /** The conversions pandas performs on values it has to parse; each is a
      parameter of the model and answers None where pandas raises. */
  datatype Parsers = Parsers(
    dateFromText: string -> Option<Date>,   // `pd.to_datetime` on a string
    dateFromNumber: real -> Option<Date>,   // `pd.to_datetime` on a number (an epoch offset)
    floatFromText: string -> Option<real>)  // `astype('float32')` on a string, before rounding

  // ---------------------------------------------------------------------------
  // The caller's DataFrame, updated in place

  class Table {
    var names: seq<string>
    var rows: seq<Row>

    function Snapshot(): Frame
      reads this
    {
      Frame(names, rows)
    }

    predicate Valid()
      reads this
    {
      WellFormed(Snapshot())
    }

    constructor (f: Frame)
      requires WellFormed(f)
      ensures Valid() && Snapshot() == f
    {
      names := f.names;
      rows := f.rows;
    }

    /** `df[name] = vals`. */
    method SetColumn(name: string, vals: seq<Cell>)
      requires Valid() && |vals| == |rows|
      modifies this
      ensures Valid()
      ensures Snapshot() == Frames.SetColumn(old(Snapshot()), name, vals)
    {
      var g := Frames.SetColumn(Snapshot(), name, vals);
      names := g.names;
      rows := g.rows;
    }
  }

  // ---------------------------------------------------------------------------
  // unique_values

  /** `unique_values(df, column, number)`: `df[column].unique().tolist()[:number]`. */
  function UniqueValues(f: Frame, column: string, number: Option<int>): (r: Outcome<seq<Cell>>)
    requires WellFormed(f)
    ensures r.Err? <==> column !in f.names
    ensures r.Err? ==> r.error == KeyError(column)
  {
    var cells :- Lookup(f, column);
    Ok(PySlice(Dedupe(cells), None, number))
  }

  /** The list holds no value twice, in order of first appearance; without a
      bound it holds every value of the column, with a bound `k >= 0` the first
      `k` of them (all when there are fewer), and with `k < 0` all but the last `-k`. */
  lemma UniqueValuesContents(f: Frame, column: string, number: Option<int>)
    requires WellFormed(f) && column in f.names
    ensures var u := UniqueValues(f, column, number).value;
            var d := Dedupe(Column(f, column));
            && Distinct(u)
            && (forall i, j :: 0 <= i < j < |u| ==> IndexOf(Column(f, column), u[i]) < IndexOf(Column(f, column), u[j]))
            && (number.None? ==> u == d && forall i :: 0 <= i < |f.rows| ==> f.rows[i][column] in u)
            && (number.Some? && number.value >= 0 ==> u == d[..if number.value <= |d| then number.value else |d|])
            && (number.Some? && number.value < 0 ==> u == d[..if -number.value <= |d| then |d| + number.value else 0])
  {
    var cells := Column(f, column);
    var d := Dedupe(cells);
    DedupeOrder(cells);
    if number.Some? {
      PySlicePrefix(d, number.value);
    }
    var u := UniqueValues(f, column, number).value;
    assert u <= d;
    forall i, j | 0 <= i < j < |u| ensures u[i] != u[j] && IndexOf(cells, u[i]) < IndexOf(cells, u[j]) {
      assert u[i] == d[i] && u[j] == d[j];
    }
  }

  // ---------------------------------------------------------------------------
  // Conversions of a column

  /** `pd.to_datetime` on one cell. */
  function ToDatetime(ps: Parsers, c: Cell): (r: Outcome<Date>)
    ensures r.Ok? ==> Valid(r.value)
    ensures r.Err? ==> r.error == ParseError
    ensures c.When? && Valid(c.date) ==> r == Ok(c.date)
  {
    var parsed := match c
      case When(d) => Some(d)
      case Text(s) => ps.dateFromText(s)
      case Num(x) => ps.dateFromNumber(x)
      case Int(i) => ps.dateFromNumber(i as real);
    if parsed.Some? && Valid(parsed.value) then Ok(parsed.value) else Err(ParseError)
  }

  /** `astype('float32')` on one cell: a number is rounded to float32, a string
      is read as a number first, and a date cannot be cast. */
  function ToFloat32(ops: FloatOps, ps: Parsers, c: Cell): (r: Outcome<Cell>)
    ensures r.Ok? ==> r.value.Num?
    ensures r.Err? <==> c.When? || (c.Text? && ps.floatFromText(c.s).None?)
    ensures r.Err? ==> r.error == (if c.When? then TypeError else ValueError)
  {
    match c
    case Num(x) => Ok(Num(ops.float32(x)))
    case Int(i) => Ok(Num(ops.float32(i as real)))
    case Text(s) => if ps.floatFromText(s).Some? then Ok(Num(ops.float32(ps.floatFromText(s).value))) else Err(ValueError)
    case When(_) => Err(TypeError)
  }

  /** Casting a cast value again gives the same value when float32 rounding is idempotent. */
  lemma ToFloat32Twice(ops: FloatOps, ps: Parsers, c: Cell)
    requires Float32Idempotent(ops) && ToFloat32(ops, ps, c).Ok?
    ensures ToFloat32(ops, ps, ToFloat32(ops, ps, c).value) == ToFloat32(ops, ps, c)
  {
    var x := match c
      case Num(x) => x
      case Int(i) => i as real
      case Text(s) => ps.floatFromText(s).value
      case When(_) => 0.0;
    assert ToFloat32(ops, ps, c) == Ok(Num(ops.float32(x)));
    assert ops.float32(ops.float32(x)) == ops.float32(x);
  }

  /** Apply a conversion to every element; the first failure is the result. */
  function ConvertAll<A, B>(xs: seq<A>, conv: A -> Outcome<B>): (r: Outcome<seq<B>>)
    ensures r.Ok? <==> forall i :: 0 <= i < |xs| ==> conv(xs[i]).Ok?
    ensures r.Ok? ==> |r.value| == |xs| && forall i :: 0 <= i < |xs| ==> r.value[i] == conv(xs[i]).value
    ensures r.Err? ==> exists i :: 0 <= i < |xs| && conv(xs[i]) == Err(r.error)
  {
    if xs == [] then Ok([])
    else
      match conv(xs[0])
      case Err(e) => Err(e)
      case Ok(y) =>
        match ConvertAll(xs[1..], conv)
        case Err(e) => Err(e)
        case Ok(ys) =>
          assert forall i :: 1 <= i < |xs| ==> xs[i] == xs[1..][i - 1];
          Ok([y] + ys)
  }

  /** `pd.to_datetime(df['date'])`. */
  function ParseDates(ps: Parsers, f: Frame): (r: Outcome<seq<Date>>)
    requires WellFormed(f)
    ensures r.Err? ==> r.error == (if "date" in f.names then ParseError else KeyError("date"))
    ensures r.Ok? <==> "date" in f.names && forall i :: 0 <= i < |f.rows| ==> ToDatetime(ps, f.rows[i]["date"]).Ok?
    ensures r.Ok? ==> |r.value| == |f.rows|
    ensures r.Ok? ==> forall i :: 0 <= i < |f.rows| ==> Valid(r.value[i]) && ToDatetime(ps, f.rows[i]["date"]) == Ok(r.value[i])
  {
    var cells :- Lookup(f, "date");
    ConvertAll(cells, c => ToDatetime(ps, c))
  }

  /** `df[col].astype('float32')`. */
  function CastColumn(ops: FloatOps, ps: Parsers, f: Frame, col: string): (r: Outcome<seq<Cell>>)
    requires WellFormed(f)
    ensures r.Ok? <==> col in f.names && forall i :: 0 <= i < |f.rows| ==> ToFloat32(ops, ps, f.rows[i][col]).Ok?
    ensures col !in f.names ==> r == Err(KeyError(col))
    ensures r.Ok? ==> |r.value| == |f.rows|
    ensures r.Ok? ==> forall i :: 0 <= i < |f.rows| ==> ToFloat32(ops, ps, f.rows[i][col]) == Ok(r.value[i])
  {
    var cells :- Lookup(f, col);
    ConvertAll(cells, c => ToFloat32(ops, ps, c))
  }

  function WhenCells(ds: seq<Date>): (c: seq<Cell>)
    ensures |c| == |ds| && forall i :: 0 <= i < |ds| ==> c[i] == When(ds[i])
  {
    seq(|ds|, i requires 0 <= i < |ds| => When(ds[i]))
  }

  /** `df['year'] = df['date'].dt.year; df['quarter'] = df['date'].dt.quarter`. */
  function WithYearQuarter(f: Frame, ds: seq<Date>): (g: Frame)
    requires WellFormed(f) && |ds| == |f.rows| && forall i :: 0 <= i < |ds| ==> Valid(ds[i])
    ensures WellFormed(g) && |g.rows| == |f.rows|
  {
    Frames.SetColumn(Frames.SetColumn(f, "year", YearCells(ds)), "quarter", QuarterCells(ds))
  }

  /** `df['date'].dt.year`. */
  function YearCells(ds: seq<Date>): (c: seq<Cell>)
    ensures |c| == |ds| && forall i :: 0 <= i < |ds| ==> c[i] == Int(ds[i].year)
  {
    seq(|ds|, i requires 0 <= i < |ds| => Int(ds[i].year))
  }

  /** `df['date'].dt.quarter`. */
  function QuarterCells(ds: seq<Date>): (c: seq<Cell>)
    requires forall i :: 0 <= i < |ds| ==> Valid(ds[i])
    ensures |c| == |ds| && forall i :: 0 <= i < |ds| ==> Valid(ds[i]) && c[i] == Int(Quarter(ds[i]))
  {
    seq(|ds|, i requires 0 <= i < |ds| && Valid(ds[i]) => Int(Quarter(ds[i])))
  }

  /** Same year and quarter. */
  predicate SameQuarter(a: Date, b: Date)
    requires Valid(a) && Valid(b)
  {
    a.year == b.year && Quarter(a) == Quarter(b)
  }

  /** A row after the date, year and quarter assignments. */
  predicate Dated(row: Row) {
    && "date" in row && row["date"].When? && Valid(row["date"].date)
    && "year" in row && row["year"] == Int(row["date"].date.year)
    && "quarter" in row && row["quarter"] == Int(Quarter(row["date"].date))
  }

  /** A frame whose every row is `Dated`. */
  predicate Prepped(g: Frame) {
    WellFormed(g) && "date" in g.names && "year" in g.names && "quarter" in g.names
    && forall row :: row in g.rows ==> Dated(row)
  }

  // ---------------------------------------------------------------------------
  // data_prep

  /** Lines 38-42 of `data_prep` on a value: the prepared frame, or the exception raised. */
  function PrepColumns(ops: FloatOps, ps: Parsers, f: Frame, col: string): (r: Outcome<Frame>)
    requires WellFormed(f)
    ensures r.Ok? ==> Prepped(r.value) && |r.value.rows| == |f.rows|
  {
    var ds :- ParseDates(ps, f);
    var f1 := Frames.SetColumn(f, "date", WhenCells(ds));
    var vals :- CastColumn(ops, ps, f1, col);
    CastKeepsDates(ops, ps, f, col, ds, vals);
    YearQuarterPrepped(Frames.SetColumn(f1, col, vals), ds);
    Ok(WithYearQuarter(Frames.SetColumn(f1, col, vals), ds))
  }

  /** After `df['date'] = pd.to_datetime(df['date'])` the column holds the parsed dates. */
  lemma DatesAssigned(ps: Parsers, f: Frame, ds: seq<Date>)
    requires WellFormed(f) && ParseDates(ps, f) == Ok(ds)
    ensures var f1 := Frames.SetColumn(f, "date", WhenCells(ds));
            && "date" in f1.names && |ds| == |f1.rows|
            && forall i :: 0 <= i < |ds| ==> Valid(ds[i]) && f1.rows[i]["date"] == When(ds[i])
  {
  }

  /** A cast that succeeds leaves the parsed dates in place: a date column cannot be cast. */
  lemma CastKeepsDates(ops: FloatOps, ps: Parsers, f: Frame, col: string, ds: seq<Date>, vals: seq<Cell>)
    requires WellFormed(f) && ParseDates(ps, f) == Ok(ds)
    requires CastColumn(ops, ps, Frames.SetColumn(f, "date", WhenCells(ds)), col) == Ok(vals)
    ensures var f2 := Frames.SetColumn(Frames.SetColumn(f, "date", WhenCells(ds)), col, vals);
            && "date" in f2.names && |ds| == |f2.rows|
            && forall i :: 0 <= i < |ds| ==> Valid(ds[i]) && f2.rows[i]["date"] == When(ds[i])
  {
    DatesAssigned(ps, f, ds);
    var f1 := Frames.SetColumn(f, "date", WhenCells(ds));
    if |ds| > 0 {
      assert ToFloat32(ops, ps, f1.rows[0][col]).Ok?;
    }
  }

  /** Assigning the year and quarter of valid dates held in `date` gives a prepared frame. */
  lemma YearQuarterPrepped(f: Frame, ds: seq<Date>)
    requires WellFormed(f) && "date" in f.names && |ds| == |f.rows|
    requires forall i :: 0 <= i < |ds| ==> Valid(ds[i]) && f.rows[i]["date"] == When(ds[i])
    ensures Prepped(WithYearQuarter(f, ds)) && |WithYearQuarter(f, ds).rows| == |f.rows|
  {
    var g := WithYearQuarter(f, ds);
    forall row | row in g.rows ensures Dated(row) {
      var i :| 0 <= i < |g.rows| && g.rows[i] == row;
      assert f.rows[i]["date"] == When(ds[i]);
    }
  }

  /** The caller's frame after `data_prep` returns or raises: unchanged when the
      dates do not parse, with only the parsed dates in place when the cast
      fails, and fully prepared otherwise. */
  function AfterPrep(ops: FloatOps, ps: Parsers, f: Frame, col: string): (g: Frame)
    requires WellFormed(f)
    ensures WellFormed(g) && |g.rows| == |f.rows|
  {
    match PrepColumns(ops, ps, f, col)
    case Ok(g) => g
    case Err(_) =>
      match ParseDates(ps, f)
      case Ok(ds) => Frames.SetColumn(f, "date", WhenCells(ds))
      case Err(_) => f
  }

  /** The mask `df['security'] == security`. */
  function IsSecurity(security: string): Row -> bool {
    (row: Row) => "security" in row && row["security"] == Text(security)
  }

  /** `df[df['security'] == security]`: the rows for one security, in order. */
  function SecurityRows(g: Frame, security: string): (r: Outcome<Frame>)
    requires WellFormed(g)
    ensures r.Err? <==> "security" !in g.names
    ensures r.Err? ==> r.error == KeyError("security")
    ensures r.Ok? ==> WellFormed(r.value) && r.value.names == g.names
    ensures r.Ok? ==> forall row :: row in r.value.rows ==> row in g.rows && row["security"] == Text(security)
    ensures r.Ok? ==> forall i :: 0 <= i < |g.rows| && g.rows[i]["security"] == Text(security) ==> g.rows[i] in r.value.rows
  {
    if "security" !in g.names then Err(KeyError("security"))
    else
      assert forall i :: 0 <= i < |g.rows| ==> "security" in g.rows[i];
      Ok(SelectRows(g, IsSecurity(security)))
  }

  /** `"Q" + str(quarter) + " " + str(year)`. */
  function QuarterLabel(quarter: nat, year: nat): string {
    "Q" + NatToString(quarter) + " " + NatToString(year)
  }

  /** Reads a quarter label back into (quarter, year). */
  function ParseQuarterLabel(s: string): Option<(nat, nat)> {
    if |s| < 1 || s[0] != 'Q' || ' ' !in s[1..] then None
    else
      var k := IndexOf(s[1..], ' ') + 1;
      var q, y := s[1..k], s[k + 1..];
      if (forall i :: 0 <= i < |q| ==> IsDigit(q[i])) && (forall i :: 0 <= i < |y| ==> IsDigit(y[i]))
      then Some((ParseNat(q), ParseNat(y)))
      else None
  }

  lemma QuarterLabelRoundTrip(quarter: nat, year: nat)
    ensures ParseQuarterLabel(QuarterLabel(quarter, year)) == Some((quarter, year))
  {
    var qs, ys := NatToString(quarter), NatToString(year);
    var s := QuarterLabel(quarter, year);
    assert s[1..] == qs + " " + ys;
    assert ' ' !in qs;
    assert s[1..][|qs|] == ' ';
    var k := IndexOf(s[1..], ' ') + 1;
    assert k == |qs| + 1;
    assert s[1..k] == qs;
    assert s[k + 1..] == ys;
    ParseNatToString(quarter);
    ParseNatToString(year);
  }

  /** Different (quarter, year) pairs get different labels. */
  lemma QuarterLabelInjective(q1: nat, y1: nat, q2: nat, y2: nat)
    requires QuarterLabel(q1, y1) == QuarterLabel(q2, y2)
    ensures q1 == q2 && y1 == y2
  {
    QuarterLabelRoundTrip(q1, y1);
    QuarterLabelRoundTrip(q2, y2);
  }

  /** Lines 47-49 on one prepared row. */
  function LabelRow(row: Row): (r: Row)
    requires Dated(row)
  {
    var d := row["date"].date;
    row["quarter" := Text(NatToString(Quarter(d)))]["year" := Text(NatToString(d.year))]
       ["quarter_year" := Text(QuarterLabel(Quarter(d), d.year))]
  }

  /** Lines 44-49 of `data_prep`: the rows of one security, with text quarter and
      year and the combined label. */
  function SecuritySubset(g: Frame, security: string): (r: Outcome<Frame>)
    requires Prepped(g)
    ensures r.Ok? <==> "security" in g.names
    ensures r.Ok? ==> WellFormed(r.value)
  {
    var s :- SecurityRows(g, security);
    var quarters := seq(|s.rows|, i requires 0 <= i < |s.rows| => Text(NatToString(s.rows[i]["quarter"].i)));
    var years := seq(|s.rows|, i requires 0 <= i < |s.rows| => Text(NatToString(s.rows[i]["year"].i)));
    var s1 := Frames.SetColumn(Frames.SetColumn(s, "quarter", quarters), "year", years);
    var labels := seq(|s1.rows|, i requires 0 <= i < |s1.rows| =>
      Text("Q" + s1.rows[i]["quarter"].s + " " + s1.rows[i]["year"].s));
    Ok(Frames.SetColumn(s1, "quarter_year", labels))
  }

  /** What `data_prep(df, security, col)` returns. */
  function DataPrepResult(ops: FloatOps, ps: Parsers, f: Frame, security: string, col: string): (r: Outcome<Frame>)
    requires WellFormed(f)
    ensures r.Ok? ==> WellFormed(r.value)
  {
    var g :- PrepColumns(ops, ps, f, col);
    SecuritySubset(g, security)
  }

  /** `data_prep(df, security, col)`, assigning into the caller's table. */
  method DataPrep(ops: FloatOps, ps: Parsers, table: Table, security: string, col: string) returns (r: Outcome<Frame>)
    requires table.Valid()
    modifies table
    ensures table.Valid()
    ensures table.Snapshot() == AfterPrep(ops, ps, old(table.Snapshot()), col)
    ensures r == DataPrepResult(ops, ps, old(table.Snapshot()), security, col)
  {
    var dates := ParseDates(ps, table.Snapshot());
    if dates.Err? {
      return Err(dates.error);
    }
    var ds := dates.value;
    table.SetColumn("date", WhenCells(ds));
    var cast := CastColumn(ops, ps, table.Snapshot(), col);
    if cast.Err? {
      return Err(cast.error);
    }
    table.SetColumn(col, cast.value);
    table.SetColumn("year", YearCells(ds));
    table.SetColumn("quarter", QuarterCells(ds));
    r := SecuritySubset(table.Snapshot(), security);
  }

  // ---------------------------------------------------------------------------
  // Properties of data_prep

  /** Parsing a column of valid dates gives those dates back. */
  lemma ParseDatesOfDates(ps: Parsers, g: Frame, ds: seq<Date>)
    requires WellFormed(g) && "date" in g.names && |ds| == |g.rows|
    requires forall i :: 0 <= i < |ds| ==> Valid(ds[i]) && g.rows[i]["date"] == When(ds[i])
    ensures ParseDates(ps, g) == Ok(ds)
  {
    assert ParseDates(ps, g).value == ds;
  }

  /** Assigning the year, quarter and `col` again on a prepared frame restores it,
      when `col` is `year` or `quarter` or is given its own values. */
  lemma WithYearQuarterAgain(g: Frame, ds: seq<Date>, col: string, vals: seq<Cell>)
    requires Prepped(g) && |ds| == |g.rows| && |vals| == |g.rows| && col in g.names
    requires forall i :: 0 <= i < |ds| ==> g.rows[i]["date"] == When(ds[i])
    requires col == "year" || col == "quarter" || forall i :: 0 <= i < |vals| ==> vals[i] == g.rows[i][col]
    ensures forall i :: 0 <= i < |ds| ==> Valid(ds[i])
    ensures WithYearQuarter(Frames.SetColumn(g, col, vals), ds) == g
  {
    forall i | 0 <= i < |ds| ensures Valid(ds[i]) {
      assert Dated(g.rows[i]);
    }
    var h := WithYearQuarter(Frames.SetColumn(g, col, vals), ds);
    forall i | 0 <= i < |g.rows| ensures h.rows[i] == g.rows[i] {
      assert Dated(g.rows[i]);
      assert h.rows[i].Keys == g.rows[i].Keys;
    }
    assert h.rows == g.rows;
  }

  /** A prepared frame whose `col` already holds float32 values is a fixed
      point of lines 38-42. */
  lemma FixedPoint(ops: FloatOps, ps: Parsers, g: Frame, col: string, ds: seq<Date>)
    requires Prepped(g) && col in g.names && |ds| == |g.rows|
    requires forall i :: 0 <= i < |ds| ==> g.rows[i]["date"] == When(ds[i])
    requires col == "year" || col == "quarter" ||
             forall i :: 0 <= i < |g.rows| ==> g.rows[i][col].Num? && ops.float32(g.rows[i][col].x) == g.rows[i][col].x
    ensures PrepColumns(ops, ps, g, col) == Ok(g)
  {
    forall i | 0 <= i < |ds| ensures Valid(ds[i]) {
      assert Dated(g.rows[i]);
    }
    ParseDatesOfDates(ps, g, ds);
    SetColumnSame(g, "date", WhenCells(ds));
    var again := CastColumn(ops, ps, g, col);
    assert again.Ok? by {
      forall i | 0 <= i < |g.rows| ensures ToFloat32(ops, ps, g.rows[i][col]).Ok? {
        assert Dated(g.rows[i]);
      }
    }
    WithYearQuarterAgain(g, ds, col, again.value);
  }

  /** A frame prepared by lines 38-42 is prepared again without change. */
  lemma PreparedIsFixed(ops: FloatOps, ps: Parsers, f: Frame, col: string)
    requires WellFormed(f) && Float32Idempotent(ops) && PrepColumns(ops, ps, f, col).Ok?
    ensures var g := PrepColumns(ops, ps, f, col).value;
            PrepColumns(ops, ps, g, col) == Ok(g)
  {
    var ds := ParseDates(ps, f).value;
    var f1 := Frames.SetColumn(f, "date", WhenCells(ds));
    var cast := CastColumn(ops, ps, f1, col);
    var g := PrepColumns(ops, ps, f, col).value;
    assert g == WithYearQuarter(Frames.SetColumn(f1, col, cast.value), ds);
    forall i | 0 <= i < |g.rows| ensures g.rows[i]["date"] == When(ds[i]) {
    }
    if col != "year" && col != "quarter" {
      forall i | 0 <= i < |g.rows|
        ensures g.rows[i][col].Num? && ops.float32(g.rows[i][col].x) == g.rows[i][col].x
      {
        ToFloat32Twice(ops, ps, f1.rows[i][col]);
      }
    }
    FixedPoint(ops, ps, g, col, ds);
  }

  /** When the cast fails, the frame left behind fails the same way again. */
  lemma CastFailureIsFixed(ops: FloatOps, ps: Parsers, f: Frame, col: string)
    requires WellFormed(f) && ParseDates(ps, f).Ok? && PrepColumns(ops, ps, f, col).Err?
    ensures var f1 := Frames.SetColumn(f, "date", WhenCells(ParseDates(ps, f).value));
            && PrepColumns(ops, ps, f1, col) == PrepColumns(ops, ps, f, col)
            && AfterPrep(ops, ps, f1, col) == f1
  {
    var ds := ParseDates(ps, f).value;
    var f1 := Frames.SetColumn(f, "date", WhenCells(ds));
    ParseDatesOfDates(ps, f1, ds);
    SetColumnSame(f1, "date", WhenCells(ds));
  }

  /** Lines 38-42 of `data_prep`, run on the frame they leave behind, raise the
      same exception or produce the same frame, and leave that frame as it was,
      given that float32 rounding is idempotent. */
  lemma PrepIdempotent(ops: FloatOps, ps: Parsers, f: Frame, col: string)
    requires WellFormed(f) && Float32Idempotent(ops)
    ensures PrepColumns(ops, ps, AfterPrep(ops, ps, f, col), col) == PrepColumns(ops, ps, f, col)
    ensures AfterPrep(ops, ps, AfterPrep(ops, ps, f, col), col) == AfterPrep(ops, ps, f, col)
  {
    if PrepColumns(ops, ps, f, col).Ok? {
      PreparedIsFixed(ops, ps, f, col);
    } else if ParseDates(ps, f).Ok? {
      CastFailureIsFixed(ops, ps, f, col);
    }
  }

  /** `data_prep` keeps the caller's rows and changes no column other than
      `date`, `col`, `year` and `quarter`; of the labels it adds only `year`
      and `quarter`; when the dates do not parse, nothing has changed. */
  lemma AfterPrepKeepsOtherColumns(ops: FloatOps, ps: Parsers, f: Frame, col: string)
    requires WellFormed(f)
    ensures var g := AfterPrep(ops, ps, f, col);
            && |g.rows| == |f.rows|
            && (g.names == f.names || g.names == WithName(WithName(f.names, "year"), "quarter"))
            && forall i, n :: 0 <= i < |f.rows| && n in f.names && n !in {"date", col, "year", "quarter"} ==>
                 g.rows[i][n] == f.rows[i][n]
    ensures ParseDates(ps, f).Err? ==> AfterPrep(ops, ps, f, col) == f
  {
    if PrepColumns(ops, ps, f, col).Ok? {
      PrepColumnsKeepsOthers(ops, ps, f, col);
    } else if ParseDates(ps, f).Ok? {
      DatesOnlyKeepsOthers(ps, f, ParseDates(ps, f).value);
    }
  }

  /** The four assignments of lines 38-42 touch only their own columns. */
  lemma PrepColumnsKeepsOthers(ops: FloatOps, ps: Parsers, f: Frame, col: string)
    requires WellFormed(f) && PrepColumns(ops, ps, f, col).Ok?
    ensures var g := PrepColumns(ops, ps, f, col).value;
            && g.names == WithName(WithName(f.names, "year"), "quarter")
            && forall i, n :: 0 <= i < |f.rows| && n in f.names && n !in {"date", col, "year", "quarter"} ==>
                 g.rows[i][n] == f.rows[i][n]
  {
    var ds := ParseDates(ps, f).value;
    var f1 := Frames.SetColumn(f, "date", WhenCells(ds));
    assert f1.names == f.names;
    var vals := CastColumn(ops, ps, f1, col).value;
    var f2 := Frames.SetColumn(f1, col, vals);
    assert f2.names == f.names;
    var f3 := Frames.SetColumn(f2, "year", YearCells(ds));
    var g := Frames.SetColumn(f3, "quarter", QuarterCells(ds));
    assert PrepColumns(ops, ps, f, col).value == g;
    forall i, n | 0 <= i < |f.rows| && n in f.names && n !in {"date", col, "year", "quarter"}
      ensures g.rows[i][n] == f.rows[i][n]
    {
      assert g.rows[i][n] == f3.rows[i][n] == f2.rows[i][n] == f1.rows[i][n];
    }
  }

  /** When the dates parse but the cast fails, only `date` has changed. */
  lemma DatesOnlyKeepsOthers(ps: Parsers, f: Frame, ds: seq<Date>)
    requires WellFormed(f) && ParseDates(ps, f) == Ok(ds)
    ensures var g := Frames.SetColumn(f, "date", WhenCells(ds));
            && g.names == f.names
            && forall i, n :: 0 <= i < |f.rows| && n in f.names && n != "date" ==> g.rows[i][n] == f.rows[i][n]
  {
  }

  /** When lines 38-42 complete, `date` holds the parsed dates, `col` the
      float32 values, and `year` and `quarter` the parts of each date. */
  lemma AfterPrepOnSuccess(ops: FloatOps, ps: Parsers, f: Frame, col: string)
    requires WellFormed(f) && PrepColumns(ops, ps, f, col).Ok?
    ensures var g := AfterPrep(ops, ps, f, col);
            var ds := ParseDates(ps, f).value;
            && g.names == WithName(WithName(f.names, "year"), "quarter")
            && Prepped(g)
            && forall i :: 0 <= i < |f.rows| ==>
                 && g.rows[i]["date"] == When(ds[i])
                 && (col !in {"year", "quarter"} ==> ToFloat32(ops, ps, f.rows[i][col]) == Ok(g.rows[i][col]))
  {
    var ds := ParseDates(ps, f).value;
    var f1 := Frames.SetColumn(f, "date", WhenCells(ds));
    assert f1.names == f.names;
    var cast := CastColumn(ops, ps, f1, col);
    var g := AfterPrep(ops, ps, f, col);
    assert g == WithYearQuarter(Frames.SetColumn(f1, col, cast.value), ds);
    forall i | 0 <= i < |f.rows|
      ensures g.rows[i]["date"] == When(ds[i])
      ensures col !in {"year", "quarter"} ==> ToFloat32(ops, ps, f.rows[i][col]) == Ok(g.rows[i][col])
    {
      assert ToFloat32(ops, ps, f1.rows[i][col]) == Ok(cast.value[i]);
      assert f1.rows[i]["date"] == When(ds[i]);
    }
  }

  /** Lines 44-49 on a prepared frame: the rows of the security, in order, each
      labelled; a KeyError without a `security` column. */
  lemma SecuritySubsetRows(g: Frame, security: string)
    requires Prepped(g)
    ensures var r := SecuritySubset(g, security);
            && (r.Err? <==> "security" !in g.names)
            && (r.Err? ==> r.error == KeyError("security"))
            && (r.Ok? ==>
                  var kept := Filter(g.rows, IsSecurity(security));
                  && IsSubsequence(kept, g.rows)
                  && r.value.names == WithName(g.names, "quarter_year")
                  && |r.value.rows| == |kept|
                  && forall i :: 0 <= i < |kept| ==>
                       && kept[i]["security"] == Text(security)
                       && Dated(kept[i])
                       && r.value.rows[i] == LabelRow(kept[i])
                       && r.value.rows[i]["quarter_year"]
                            == Text(QuarterLabel(Quarter(kept[i]["date"].date), kept[i]["date"].date.year)))
  {
    if "security" in g.names {
      var kept := Filter(g.rows, IsSecurity(security));
      FilterIsSubsequence(g.rows, IsSecurity(security));
      forall i | 0 <= i < |kept| ensures Dated(kept[i]) && kept[i]["security"] == Text(security) {
        assert kept[i] in g.rows;
      }
    }
  }

  /** `data_prep` returns exactly the prepared rows whose `security` is the
      argument, in their order, each with its quarter and year as text and the
      label `"Q<quarter> <year>"`; without a `security` column it raises a KeyError. */
  lemma DataPrepRows(ops: FloatOps, ps: Parsers, f: Frame, security: string, col: string)
    requires WellFormed(f) && PrepColumns(ops, ps, f, col).Ok?
    ensures var g := PrepColumns(ops, ps, f, col).value;
            && DataPrepResult(ops, ps, f, security, col) == SecuritySubset(g, security)
            && g.names == WithName(WithName(f.names, "year"), "quarter")
            && ("security" in g.names <==> "security" in f.names)
  {
    var g := PrepColumns(ops, ps, f, col).value;
    AfterPrepOnSuccess(ops, ps, f, col);
    assert NameSet(g.names) == NameSet(f.names) + {"year", "quarter"};
  }

  // ---------------------------------------------------------------------------
  // prep_dfs

  /** The caller's frame as a loop that calls `data_prep` once per iteration
      finds it at iteration `j`: the original first, then what the first call left. */
  function SeenAt(ops: FloatOps, ps: Parsers, f: Frame, col: string, j: nat): (g: Frame)
    requires WellFormed(f)
    ensures WellFormed(g) && |g.rows| == |f.rows|
  {
    if j == 0 then f else AfterPrep(ops, ps, f, col)
  }

  /** Given that float32 rounding is idempotent, each call after the first
      leaves the frame as the first left it and returns what a call on the
      original frame returns. */
  lemma SeenAtSettles(ops: FloatOps, ps: Parsers, f: Frame, security: string, col: string, j: nat)
    requires WellFormed(f) && Float32Idempotent(ops)
    ensures AfterPrep(ops, ps, SeenAt(ops, ps, f, col, j), col) == SeenAt(ops, ps, f, col, j + 1)
    ensures DataPrepResult(ops, ps, SeenAt(ops, ps, f, col, j), security, col) == DataPrepResult(ops, ps, f, security, col)
  {
    if j > 0 {
      PrepIdempotent(ops, ps, f, col);
      SamePrepSameResult(ops, ps, AfterPrep(ops, ps, f, col), f, security, col);
    }
  }

  /** Given that float32 rounding is idempotent, the frame a call leaves is the
      frame the next call sees. */
  lemma SeenAtNext(ops: FloatOps, ps: Parsers, f: Frame, col: string, j: nat)
    requires WellFormed(f) && Float32Idempotent(ops)
    ensures AfterPrep(ops, ps, SeenAt(ops, ps, f, col, j), col) == SeenAt(ops, ps, f, col, j + 1)
  {
    if j > 0 {
      PrepIdempotent(ops, ps, f, col);
    }
  }

  lemma SamePrepSameResult(ops: FloatOps, ps: Parsers, a: Frame, b: Frame, security: string, col: string)
    requires WellFormed(a) && WellFormed(b) && PrepColumns(ops, ps, a, col) == PrepColumns(ops, ps, b, col)
    ensures DataPrepResult(ops, ps, a, security, col) == DataPrepResult(ops, ps, b, security, col)
  {
  }

  /** Whether `data_prep` raises, and which exception, does not depend on the security. */
  lemma DataPrepFailsAlike(ops: FloatOps, ps: Parsers, f: Frame, a: string, b: string, col: string)
    requires WellFormed(f)
    ensures DataPrepResult(ops, ps, f, a, col).Err? <==> DataPrepResult(ops, ps, f, b, col).Err?
    ensures DataPrepResult(ops, ps, f, a, col).Err? ==> DataPrepResult(ops, ps, f, a, col) == DataPrepResult(ops, ps, f, b, col)
  {
    if PrepColumns(ops, ps, f, col).Ok? {
      var g := PrepColumns(ops, ps, f, col).value;
      SecuritySubsetRows(g, a);
      SecuritySubsetRows(g, b);
    }
  }

  /** `data_prep` returns exactly when lines 38-42 complete and the prepared
      frame has a `security` column, and then returns that frame's subset. */
  lemma DataPrepReturns(ops: FloatOps, ps: Parsers, f: Frame, security: string, col: string)
    requires WellFormed(f)
    ensures DataPrepResult(ops, ps, f, security, col).Ok? <==>
              PrepColumns(ops, ps, f, col).Ok? && "security" in PrepColumns(ops, ps, f, col).value.names
    ensures DataPrepResult(ops, ps, f, security, col).Ok? ==>
              DataPrepResult(ops, ps, f, security, col) == SecuritySubset(PrepColumns(ops, ps, f, col).value, security)
  {
  }

  /** `k => data_prep(df, k, col)` once lines 38-42 have produced `g`. */
  function SubsetOf(g: Frame): string -> Frame
    requires Prepped(g) && "security" in g.names
  {
    k => SecuritySubset(g, k).value
  }

  /** The dictionary built of the values of `SubsetOf` holds, under each of
      its keys, what `data_prep` returns for it. */
  lemma SubsetOfIsDataPrep(ops: FloatOps, ps: Parsers, f: Frame, keys: seq<string>, col: string)
    requires WellFormed(f) && PrepColumns(ops, ps, f, col).Ok? && "security" in PrepColumns(ops, ps, f, col).value.names
    ensures var m := MapFrom(keys, SubsetOf(PrepColumns(ops, ps, f, col).value));
            && m.Keys == set k | k in keys
            && forall k :: k in m ==> Ok(m[k]) == DataPrepResult(ops, ps, f, k, col)
  {
    var sub := SubsetOf(PrepColumns(ops, ps, f, col).value);
    MapFromContents(keys, sub);
    forall k | k in MapFrom(keys, sub) ensures Ok(MapFrom(keys, sub)[k]) == DataPrepResult(ops, ps, f, k, col) {
      DataPrepReturns(ops, ps, f, k, col);
    }
  }

  /** `prep_dfs(df, index_list, column_name)`: one `data_prep` per index, in
      order, each on the frame the previous calls left. Given that float32
      rounding is idempotent, the dictionary maps each index to what
      `data_prep` returns for it on the original frame; the frame is left as
      one call leaves it; and the loop raises exactly when the first call does. */
  method PrepDfs(ops: FloatOps, ps: Parsers, table: Table, indexList: seq<string>, col: string)
    returns (r: Outcome<map<string, Frame>>)
    requires table.Valid() && Float32Idempotent(ops)
    modifies table
    ensures table.Valid()
    ensures table.Snapshot() == SeenAt(ops, ps, old(table.Snapshot()), col, |indexList|)
    ensures r.Err? <==> |indexList| > 0 && DataPrepResult(ops, ps, old(table.Snapshot()), indexList[0], col).Err?
    ensures r.Err? ==> Err(r.error) == DataPrepResult(ops, ps, old(table.Snapshot()), indexList[0], col)
    ensures r.Ok? ==> r.value.Keys == set k | k in indexList
    ensures r.Ok? ==> forall k :: k in r.value ==> Ok(r.value[k]) == DataPrepResult(ops, ps, old(table.Snapshot()), k, col)
  {
    ghost var f0 := table.Snapshot();
    var prepared: map<string, Frame> := map[];
    var j := 0;
    while j < |indexList|
      invariant 0 <= j <= |indexList|
      invariant table.Valid() && table.Snapshot() == SeenAt(ops, ps, f0, col, j)
      invariant PrepsSoFar(ops, ps, f0, col, indexList, j, prepared)
    {
      var step := PrepStep(ops, ps, table, f0, indexList, j, col, prepared);
      if step.Err? {
        return step;
      }
      prepared := step.value;
      j := j + 1;
    }
    if j > 0 {
      assert indexList[..j] == indexList;
      SubsetOfIsDataPrep(ops, ps, f0, indexList, col);
    }
    return Ok(prepared);
  }

  /** What the loop in `prep_dfs` has stored after `j` iterations: nothing yet,
      or the rows of each index seen so far, cut from the frame prepared once. */
  predicate PrepsSoFar(ops: FloatOps, ps: Parsers, f0: Frame, col: string, indexList: seq<string>, j: nat,
                       prepared: map<string, Frame>)
    requires WellFormed(f0) && j <= |indexList|
  {
    && (j == 0 ==> prepared == map[])
    && (j > 0 ==> && DataPrepResult(ops, ps, f0, indexList[0], col).Ok?
                  && PrepColumns(ops, ps, f0, col).Ok? && "security" in PrepColumns(ops, ps, f0, col).value.names
                  && prepared == MapFrom(indexList[..j], SubsetOf(PrepColumns(ops, ps, f0, col).value)))
  }

  /** Iteration `j` of the loop in `prep_dfs`: `data_prep` for `indexList[j]`
      on the caller's frame; only the first iteration can raise. */
  method PrepStep(ops: FloatOps, ps: Parsers, table: Table, ghost f0: Frame, indexList: seq<string>, j: nat, col: string,
                  prepared: map<string, Frame>)
    returns (r: Outcome<map<string, Frame>>)
    requires WellFormed(f0) && Float32Idempotent(ops) && j < |indexList|
    requires table.Valid() && table.Snapshot() == SeenAt(ops, ps, f0, col, j)
    requires PrepsSoFar(ops, ps, f0, col, indexList, j, prepared)
    modifies table
    ensures table.Valid() && table.Snapshot() == SeenAt(ops, ps, f0, col, j + 1)
    ensures r.Err? ==> j == 0 && Err(r.error) == DataPrepResult(ops, ps, f0, indexList[0], col)
    ensures r.Ok? ==> PrepsSoFar(ops, ps, f0, col, indexList, j + 1, r.value)
  {
    SeenAtSettles(ops, ps, f0, indexList[j], col, j);
    DataPrepFailsAlike(ops, ps, f0, indexList[0], indexList[j], col);
    DataPrepReturns(ops, ps, f0, indexList[j], col);
    var p := DataPrep(ops, ps, table, indexList[j], col);
    if p.Err? {
      return Err(p.error);
    }
    MapFromStep(indexList, j, indexList[..j + 1], SubsetOf(PrepColumns(ops, ps, f0, col).value));
    r := Ok(prepared[indexList[j] := p.value]);
  }

  // ---------------------------------------------------------------------------
  // process_indices

  /** `df[col].mean()`: NaN (None) on no rows, a TypeError on a non-numeric column. */
  function ColumnMean(f: Frame, col: string): (r: Outcome<Option<real>>)
    requires WellFormed(f)
    ensures r.Err? <==> col !in f.names || Numeric(Column(f, col)).Err?
    ensures r.Err? ==> r.error == (if col in f.names then TypeError else KeyError(col))
    ensures r.Ok? ==> (r.value.Some? <==> |f.rows| > 0)
    ensures r.Ok? && r.value.Some? ==> r.value.value * (|f.rows| as real) == Sum(Numeric(Column(f, col)).value)
  {
    var cells :- Lookup(f, col);
    var xs :- Numeric(cells);
    if |xs| == 0 then Ok(None)
    else
      MeanTimesLength(xs);
      Ok(Some(Mean(xs)))
  }

  /** The value `process_indices` computes for one index before formatting it
      with `f"{val:.2f}"`; None stands for NaN. A Series cannot be formatted
      that way, so the `annualized return` branch always raises, with the
      error of `annualized_return` itself when it raises first. */
  function Calculate(ops: FloatOps, g: Frame, security: string, col: string, calcName: Option<string>,
                     date1: Option<Date>, date2: Option<Date>): (r: Outcome<Option<real>>)
    requires WellFormed(g)
    requires date1.Some? ==> Valid(date1.value)
    requires date2.Some? ==> Valid(date2.value)
  {
    var sub :- SecurityRows(g, security);
    if calcName == Some("z-score") then Calcs.ZScore(ops, sub, col)
    else if calcName == Some("mean") then ColumnMean(sub, col)
    else if calcName == Some("annualized return") then
      if date1.None? || date2.None? then
        var cumulative :- BuildCalcs.ComputeColCumulative(sub, col);
        Err(TypeError)
      else
        var annualized :- BuildCalcs.AnnualizedReturn(ops, sub, col, date1.value, date2.value);
        Err(TypeError)
    else Ok(Some(0.0))
  }
  /** The cases of one calculation: the missing `security` column, the three
      recognised names and the default of 0. */
  lemma CalculateCases(ops: FloatOps, g: Frame, security: string, col: string, calcName: Option<string>,
                       date1: Option<Date>, date2: Option<Date>)
    requires WellFormed(g)
    requires date1.Some? ==> Valid(date1.value)
    requires date2.Some? ==> Valid(date2.value)
    ensures var r := Calculate(ops, g, security, col, calcName, date1, date2);
            && ("security" !in g.names ==> r == Err(KeyError("security")))
            && (calcName == Some("annualized return") ==> r.Err?)
            && ("security" in g.names && calcName !in {Some("z-score"), Some("mean"), Some("annualized return")} ==> r == Ok(Some(0.0)))
            && ("security" in g.names && calcName == Some("mean") ==> r == ColumnMean(SecurityRows(g, security).value, col))
            && ("security" in g.names && calcName == Some("z-score") ==> r == Calcs.ZScore(ops, SecurityRows(g, security).value, col))
  {
  }


  /** `pd.DataFrame({calc: [val]})`: a one-cell table headed by the name of the calculation. */
  datatype SummaryTable = SummaryTable(heading: Option<string>, value: Option<real>)

  /** The three dictionaries `process_indices` returns. */
  datatype Processed = Processed(
    calculation: map<string, Option<real>>,
    tables: map<string, SummaryTable>,
    prepared: map<string, Frame>)

  /** What iteration `j` of the loop in `process_indices` produces from the
      frame `g` it sees: the value for index `k`, then the rows `data_prep`
      returns for it; the first exception ends the iteration. */
  function StepResult(ops: FloatOps, ps: Parsers, g: Frame, k: string, col: string, calcName: Option<string>,
                      date1: Option<Date>, date2: Option<Date>): Outcome<(Option<real>, Frame)>
    requires WellFormed(g)
    requires date1.Some? ==> Valid(date1.value)
    requires date2.Some? ==> Valid(date2.value)
  {
    var val :- Calculate(ops, g, k, col, calcName, date1, date2);
    var p :- DataPrepResult(ops, ps, g, k, col);
    Ok((val, p))
  }

  /** The outcomes of the first `n` iterations, each on the frame as the earlier ones left it. */
  function Steps(ops: FloatOps, ps: Parsers, f: Frame, col: string, keys: seq<string>, calcName: Option<string>,
                 date1: Option<Date>, date2: Option<Date>, n: nat): (r: seq<Outcome<(Option<real>, Frame)>>)
    requires WellFormed(f) && n <= |keys|
    requires date1.Some? ==> Valid(date1.value)
    requires date2.Some? ==> Valid(date2.value)
    ensures |r| == n
  {
    seq(n, j requires 0 <= j < n => StepResult(ops, ps, SeenAt(ops, ps, f, col, j), keys[j], col, calcName, date1, date2))
  }

  lemma StepsAt(ops: FloatOps, ps: Parsers, f: Frame, col: string, keys: seq<string>, calcName: Option<string>,
                date1: Option<Date>, date2: Option<Date>, n: nat, j: nat)
    requires WellFormed(f) && j < n <= |keys|
    requires date1.Some? ==> Valid(date1.value)
    requires date2.Some? ==> Valid(date2.value)
    ensures Steps(ops, ps, f, col, keys, calcName, date1, date2, n)[j]
            == StepResult(ops, ps, SeenAt(ops, ps, f, col, j), keys[j], col, calcName, date1, date2)
  {
  }

  /** The dictionaries after the first `n` iterations, given each iteration's
      outcome: a returning iteration stores under its index, overwriting an
      earlier entry for the same index, and the first exception ends the call. */
  function Accumulate(keys: seq<string>, calcName: Option<string>, steps: seq<Outcome<(Option<real>, Frame)>>, n: nat): Outcome<Processed>
    requires n <= |keys| == |steps|
    decreases n
  {
    if n == 0 then Ok(Processed(map[], map[], map[]))
    else
      var out :- Accumulate(keys, calcName, steps, n - 1);
      var step :- steps[n - 1];
      var k := keys[n - 1];
      Ok(Processed(out.calculation[k := step.0], out.tables[k := SummaryTable(calcName, step.0)], out.prepared[k := step.1]))
  }

  /** The frame `process_indices` leaves behind: prepared once the first
      calculation has returned, untouched otherwise. */
  function LeftFrame(ops: FloatOps, ps: Parsers, f: Frame, keys: seq<string>, col: string,
                     calcName: Option<string>, date1: Option<Date>, date2: Option<Date>): Frame
    requires WellFormed(f)
    requires date1.Some? ==> Valid(date1.value)
    requires date2.Some? ==> Valid(date2.value)
  {
    if |keys| > 0 && Calculate(ops, f, keys[0], col, calcName, date1, date2).Ok? then AfterPrep(ops, ps, f, col) else f
  }

  /** `process_indices(df, index_list, column_name, calc, date1, date2)`: for
      each index, the summary value on that index's rows, its one-cell table,
      and `data_prep` of it, which prepares the caller's frame in place. The
      frame is prepared once the first calculation has returned. */
  method ProcessIndices(ops: FloatOps, ps: Parsers, table: Table, indexList: seq<string>, col: string,
                        calcName: Option<string>, date1: Option<Date>, date2: Option<Date>)
    returns (r: Outcome<Processed>)
    requires table.Valid() && Float32Idempotent(ops)
    requires date1.Some? ==> Valid(date1.value)
    requires date2.Some? ==> Valid(date2.value)
    modifies table
    ensures table.Valid()
    ensures table.Snapshot() == LeftFrame(ops, ps, old(table.Snapshot()), indexList, col, calcName, date1, date2)
    ensures r == Accumulate(indexList, calcName, Steps(ops, ps, old(table.Snapshot()), col, indexList, calcName, date1, date2, |indexList|), |indexList|)
  {
    ghost var f0 := table.Snapshot();
    ghost var steps := Steps(ops, ps, f0, col, indexList, calcName, date1, date2, |indexList|);
    var out := Processed(map[], map[], map[]);
    var j := 0;
    while j < |indexList|
      invariant 0 <= j <= |indexList|
      invariant table.Valid() && table.Snapshot() == SeenAt(ops, ps, f0, col, j)
      invariant j > 0 ==> Calculate(ops, f0, indexList[0], col, calcName, date1, date2).Ok?
      invariant Accumulate(indexList, calcName, steps, j) == Ok(out)
    {
      var step := ProcessStep(ops, ps, table, f0, indexList, j, col, calcName, date1, date2, out);
      if step.Err? {
        return step;
      }
      out := step.value;
      j := j + 1;
    }
    r := Ok(out);
  }

  /** Iteration `j` of the loop in `process_indices`, given what the earlier
      iterations stored: either the dictionaries with `indexList[j]` added, or
      the exception that ends the call. */
  method ProcessStep(ops: FloatOps, ps: Parsers, table: Table, ghost f0: Frame, indexList: seq<string>, j: nat, col: string,
                     calcName: Option<string>, date1: Option<Date>, date2: Option<Date>, out: Processed)
    returns (r: Outcome<Processed>)
    requires WellFormed(f0) && Float32Idempotent(ops) && j < |indexList|
    requires date1.Some? ==> Valid(date1.value)
    requires date2.Some? ==> Valid(date2.value)
    requires table.Valid() && table.Snapshot() == SeenAt(ops, ps, f0, col, j)
    requires j > 0 ==> Calculate(ops, f0, indexList[0], col, calcName, date1, date2).Ok?
    requires Accumulate(indexList, calcName, Steps(ops, ps, f0, col, indexList, calcName, date1, date2, |indexList|), j) == Ok(out)
    modifies table
    ensures table.Valid()
    ensures r.Ok? ==> Accumulate(indexList, calcName, Steps(ops, ps, f0, col, indexList, calcName, date1, date2, |indexList|), j + 1) == r
    ensures r.Err? ==> Accumulate(indexList, calcName, Steps(ops, ps, f0, col, indexList, calcName, date1, date2, |indexList|), |indexList|) == r
    ensures r.Ok? ==> table.Snapshot() == SeenAt(ops, ps, f0, col, j + 1) && Calculate(ops, f0, indexList[0], col, calcName, date1, date2).Ok?
    ensures r.Err? ==> table.Snapshot() == LeftFrame(ops, ps, f0, indexList, col, calcName, date1, date2)
  {
    ghost var steps := Steps(ops, ps, f0, col, indexList, calcName, date1, date2, |indexList|);
    var k := indexList[j];
    SeenAtNext(ops, ps, f0, col, j);
    StepsAt(ops, ps, f0, col, indexList, calcName, date1, date2, |indexList|, j);
    var step := ProcessOne(ops, ps, table, k, col, calcName, date1, date2);
    AccumulateStep(indexList, calcName, steps, j, out);
    if step.Err? {
      return Err(step.error);
    }
    r := Ok(Processed(out.calculation[k := step.value.0], out.tables[k := SummaryTable(calcName, step.value.0)],
                      out.prepared[k := step.value.1]));
  }

  /** One pass of the loop in `process_indices`: the calculation for index
      `k`, then, when it returns, `data_prep` on the caller's frame. */
  method ProcessOne(ops: FloatOps, ps: Parsers, table: Table, k: string, col: string,
                    calcName: Option<string>, date1: Option<Date>, date2: Option<Date>)
    returns (step: Outcome<(Option<real>, Frame)>)
    requires table.Valid()
    requires date1.Some? ==> Valid(date1.value)
    requires date2.Some? ==> Valid(date2.value)
    modifies table
    ensures table.Valid()
    ensures step == StepResult(ops, ps, old(table.Snapshot()), k, col, calcName, date1, date2)
    ensures table.Snapshot() ==
              if Calculate(ops, old(table.Snapshot()), k, col, calcName, date1, date2).Ok?
              then AfterPrep(ops, ps, old(table.Snapshot()), col) else old(table.Snapshot())
  {
    var val := Calculate(ops, table.Snapshot(), k, col, calcName, date1, date2);
    if val.Err? {
      return Err(val.error);
    }
    var p := DataPrep(ops, ps, table, k, col);
    if p.Err? {
      return Err(p.error);
    }
    return Ok((val.value, p.value));
  }

  /** One more iteration: a returning one stores under its index, a raising
      one ends the call with its exception. */
  lemma AccumulateStep(keys: seq<string>, calcName: Option<string>, steps: seq<Outcome<(Option<real>, Frame)>>, j: nat, out: Processed)
    requires j < |keys| == |steps|
    requires Accumulate(keys, calcName, steps, j) == Ok(out)
    ensures steps[j].Err? ==> Accumulate(keys, calcName, steps, |keys|) == Err(steps[j].error)
    ensures steps[j].Ok? ==>
              Accumulate(keys, calcName, steps, j + 1)
              == Ok(Processed(out.calculation[keys[j] := steps[j].value.0],
                              out.tables[keys[j] := SummaryTable(calcName, steps[j].value.0)],
                              out.prepared[keys[j] := steps[j].value.1]))
  {
    if steps[j].Err? {
      FailureSticks(keys, calcName, steps, j + 1, |keys|);
    }
  }

  /** Once an iteration raises, the later ones do not run. */
  lemma {:induction false} FailureSticks(keys: seq<string>, calcName: Option<string>, steps: seq<Outcome<(Option<real>, Frame)>>,
                                         n: nat, m: nat)
    requires n <= m <= |keys| == |steps|
    requires Accumulate(keys, calcName, steps, n).Err?
    ensures Accumulate(keys, calcName, steps, m) == Accumulate(keys, calcName, steps, n)
    decreases m
  {
    if m > n {
      FailureSticks(keys, calcName, steps, n, m - 1);
    }
  }

  /** The loop returns exactly when every iteration returns; otherwise it raises
      what the first iteration that fails raises. */
  lemma {:induction false} AccumulateOutcome(keys: seq<string>, calcName: Option<string>, steps: seq<Outcome<(Option<real>, Frame)>>, n: nat)
    requires n <= |keys| == |steps|
    ensures var r := Accumulate(keys, calcName, steps, n);
            && (r.Ok? <==> forall j :: 0 <= j < n ==> steps[j].Ok?)
            && (r.Err? ==> exists j :: 0 <= j < n && (forall i :: 0 <= i < j ==> steps[i].Ok?) && steps[j] == Err(r.error))
    decreases n
  {
    if n > 0 {
      AccumulateOutcome(keys, calcName, steps, n - 1);
    }
  }

  /** On success each dictionary has the first `n` indexes as its keys, and
      under each index sits what the last iteration for that index produced:
      its value, the one-cell table holding it, and its prepared rows. */
  lemma {:induction false} AccumulateEntries(keys: seq<string>, calcName: Option<string>, steps: seq<Outcome<(Option<real>, Frame)>>, n: nat)
    requires n <= |keys| == |steps|
    requires Accumulate(keys, calcName, steps, n).Ok?
    ensures var out := Accumulate(keys, calcName, steps, n).value;
            && out.calculation.Keys == (set k | k in keys[..n])
            && out.tables.Keys == out.calculation.Keys
            && out.prepared.Keys == out.calculation.Keys
            && forall k :: k in out.calculation ==>
                 && k in keys[..n]
                 && var step := steps[LastIndexOf(keys[..n], k)];
                    && step.Ok?
                    && out.calculation[k] == step.value.0
                    && out.tables[k] == SummaryTable(calcName, step.value.0)
                    && out.prepared[k] == step.value.1
    decreases n
  {
    if n > 0 {
      AccumulateEntries(keys, calcName, steps, n - 1);
      ElementsStep(keys, n - 1, keys[..n]);
      var out := Accumulate(keys, calcName, steps, n).value;
      forall k | k in out.calculation
        ensures k in keys[..n]
        ensures var step := steps[LastIndexOf(keys[..n], k)];
                && step.Ok?
                && out.calculation[k] == step.value.0
                && out.tables[k] == SummaryTable(calcName, step.value.0)
                && out.prepared[k] == step.value.1
      {
        LastIndexOfStep(keys, n, k);
      }
    } else {
      assert keys[..0] == [];
    }
  }

  /** One iteration returns exactly when the calculation and then `data_prep`
      return, and raises what the first of them to fail raises. */
  lemma StepResultCases(ops: FloatOps, ps: Parsers, g: Frame, k: string, col: string, calcName: Option<string>,
                        date1: Option<Date>, date2: Option<Date>)
    requires WellFormed(g)
    requires date1.Some? ==> Valid(date1.value)
    requires date2.Some? ==> Valid(date2.value)
    ensures var step := StepResult(ops, ps, g, k, col, calcName, date1, date2);
            var val := Calculate(ops, g, k, col, calcName, date1, date2);
            && (step.Ok? <==> val.Ok? && DataPrepResult(ops, ps, g, k, col).Ok?)
            && (val.Err? ==> step == Err(val.error))
            && (val.Ok? ==> step == (var p :- DataPrepResult(ops, ps, g, k, col); Ok((val.value, p))))
  {
  }

  /** `process_indices` returns exactly when every iteration returns, each on
      the frame as the earlier iterations left it; otherwise it raises what the
      first failing iteration raises. */
  lemma ProcessOutcome(ops: FloatOps, ps: Parsers, f: Frame, col: string, keys: seq<string>,
                       calcName: Option<string>, date1: Option<Date>, date2: Option<Date>)
    requires WellFormed(f)
    requires date1.Some? ==> Valid(date1.value)
    requires date2.Some? ==> Valid(date2.value)
    ensures var r := Accumulate(keys, calcName, Steps(ops, ps, f, col, keys, calcName, date1, date2, |keys|), |keys|);
            && (r.Ok? <==> forall j :: 0 <= j < |keys| ==>
                             StepResult(ops, ps, SeenAt(ops, ps, f, col, j), keys[j], col, calcName, date1, date2).Ok?)
            && (r.Err? ==> exists j :: (&& 0 <= j < |keys|
                                        && (forall i :: 0 <= i < j ==>
                                              StepResult(ops, ps, SeenAt(ops, ps, f, col, i), keys[i], col, calcName, date1, date2).Ok?)
                                        && StepResult(ops, ps, SeenAt(ops, ps, f, col, j), keys[j], col, calcName, date1, date2) == Err(r.error)))
  {
    var steps := Steps(ops, ps, f, col, keys, calcName, date1, date2, |keys|);
    AccumulateOutcome(keys, calcName, steps, |keys|);
    forall j | 0 <= j < |keys|
      ensures steps[j] == StepResult(ops, ps, SeenAt(ops, ps, f, col, j), keys[j], col, calcName, date1, date2)
    {
      StepsAt(ops, ps, f, col, keys, calcName, date1, date2, |keys|, j);
    }
  }

  /** Given that float32 rounding is idempotent, under each index the prepared
      rows are what `data_prep` returns for it on the caller's original frame,
      as `prep_dfs` stores them, and the value is the calculation on the frame
      as the last iteration for that index found it. */
  lemma ProcessEntries(ops: FloatOps, ps: Parsers, f: Frame, col: string, keys: seq<string>,
                       calcName: Option<string>, date1: Option<Date>, date2: Option<Date>)
    requires WellFormed(f) && Float32Idempotent(ops)
    requires date1.Some? ==> Valid(date1.value)
    requires date2.Some? ==> Valid(date2.value)
    requires Accumulate(keys, calcName, Steps(ops, ps, f, col, keys, calcName, date1, date2, |keys|), |keys|).Ok?
    ensures var out := Accumulate(keys, calcName, Steps(ops, ps, f, col, keys, calcName, date1, date2, |keys|), |keys|).value;
            && out.prepared.Keys == (set k | k in keys)
            && forall k :: k in keys ==>
                 && k in out.prepared && k in out.calculation
                 && Ok(out.prepared[k]) == DataPrepResult(ops, ps, f, k, col)
                 && Ok(out.calculation[k]) == Calculate(ops, SeenAt(ops, ps, f, col, LastIndexOf(keys, k)), k, col, calcName, date1, date2)
  {
    var steps := Steps(ops, ps, f, col, keys, calcName, date1, date2, |keys|);
    AccumulateEntries(keys, calcName, steps, |keys|);
    assert keys[..|keys|] == keys;
    var out := Accumulate(keys, calcName, steps, |keys|).value;
    forall k | k in keys
      ensures k in out.prepared && k in out.calculation
      ensures Ok(out.prepared[k]) == DataPrepResult(ops, ps, f, k, col)
      ensures Ok(out.calculation[k]) == Calculate(ops, SeenAt(ops, ps, f, col, LastIndexOf(keys, k)), k, col, calcName, date1, date2)
    {
      var i := LastIndexOf(keys, k);
      StepsAt(ops, ps, f, col, keys, calcName, date1, date2, |keys|, i);
      StepStored(ops, ps, f, col, k, calcName, date1, date2, i, steps[i].value);
    }
  }

  /** What a returning iteration stores: the calculation on the frame it saw
      and, given idempotent float32 rounding, `data_prep` of the original frame;
      for an unrecognised calculation name, 0. */
  lemma StepStored(ops: FloatOps, ps: Parsers, f: Frame, col: string, k: string, calcName: Option<string>,
                   date1: Option<Date>, date2: Option<Date>, i: nat, v: (Option<real>, Frame))
    requires WellFormed(f)
    requires date1.Some? ==> Valid(date1.value)
    requires date2.Some? ==> Valid(date2.value)
    requires StepResult(ops, ps, SeenAt(ops, ps, f, col, i), k, col, calcName, date1, date2) == Ok(v)
    ensures Ok(v.0) == Calculate(ops, SeenAt(ops, ps, f, col, i), k, col, calcName, date1, date2)
    ensures Float32Idempotent(ops) ==> Ok(v.1) == DataPrepResult(ops, ps, f, k, col)
    ensures calcName !in {Some("z-score"), Some("mean"), Some("annualized return")} ==> v.0 == Some(0.0)
  {
    CalculateCases(ops, SeenAt(ops, ps, f, col, i), k, col, calcName, date1, date2);
    if Float32Idempotent(ops) {
      SeenAtSettles(ops, ps, f, k, col, i);
    }
  }

  /** A calculation name other than the three recognised ones stores 0 under every index. */
  lemma UnrecognisedCalcIsZero(ops: FloatOps, ps: Parsers, f: Frame, col: string, keys: seq<string>,
                               calcName: Option<string>, date1: Option<Date>, date2: Option<Date>)
    requires WellFormed(f)
    requires date1.Some? ==> Valid(date1.value)
    requires date2.Some? ==> Valid(date2.value)
    requires calcName !in {Some("z-score"), Some("mean"), Some("annualized return")}
    requires Accumulate(keys, calcName, Steps(ops, ps, f, col, keys, calcName, date1, date2, |keys|), |keys|).Ok?
    ensures var out := Accumulate(keys, calcName, Steps(ops, ps, f, col, keys, calcName, date1, date2, |keys|), |keys|).value;
            forall k :: k in keys ==>
              && k in out.calculation && k in out.tables
              && out.calculation[k] == Some(0.0) && out.tables[k] == SummaryTable(calcName, Some(0.0))
  {
    var steps := Steps(ops, ps, f, col, keys, calcName, date1, date2, |keys|);
    AccumulateEntries(keys, calcName, steps, |keys|);
    assert keys[..|keys|] == keys;
    var out := Accumulate(keys, calcName, steps, |keys|).value;
    forall k | k in keys ensures k in out.calculation && out.calculation[k] == Some(0.0) {
      var i := LastIndexOf(keys, k);
      StepsAt(ops, ps, f, col, keys, calcName, date1, date2, |keys|, i);
      StepStored(ops, ps, f, col, k, calcName, date1, date2, i, steps[i].value);
    }
  }

  /** With `calc='annualized return'` and at least one index the call always raises. */
  lemma AnnualizedCalcRaises(ops: FloatOps, ps: Parsers, f: Frame, col: string, keys: seq<string>,
                             date1: Option<Date>, date2: Option<Date>)
    requires WellFormed(f) && |keys| > 0
    requires date1.Some? ==> Valid(date1.value)
    requires date2.Some? ==> Valid(date2.value)
    ensures Accumulate(keys, Some("annualized return"), Steps(ops, ps, f, col, keys, Some("annualized return"), date1, date2, |keys|), |keys|).Err?
  {
    var steps := Steps(ops, ps, f, col, keys, Some("annualized return"), date1, date2, |keys|);
    AccumulateOutcome(keys, Some("annualized return"), steps, |keys|);
    StepsAt(ops, ps, f, col, keys, Some("annualized return"), date1, date2, |keys|, 0);
    CalculateCases(ops, f, keys[0], col, Some("annualized return"), date1, date2);
  }

  // ---------------------------------------------------------------------------
  // get_last_day_each_quarter

  /** The parsed date of a row, if it has one. */
  function DateOf(row: Row): (d: Option<Date>)
    ensures d.Some? ==> Valid(d.value)
  {
    if "date" in row && row["date"].When? && Valid(row["date"].date) then Some(row["date"].date) else None
  }

  /** `groupby(['year', 'quarter'])['date'].transform('max')` for a row dated `d`:
      the latest date among the rows of `d`'s quarter, `d` included. */
  function LatestInQuarter(rows: seq<Row>, d: Date): (m: Date)
    requires Valid(d)
    ensures Valid(m) && SameQuarter(m, d) && NotAfter(d, m)
    ensures m == d || exists i :: 0 <= i < |rows| && DateOf(rows[i]) == Some(m)
    ensures forall i :: 0 <= i < |rows| && DateOf(rows[i]).Some? && SameQuarter(DateOf(rows[i]).value, d) ==>
              NotAfter(DateOf(rows[i]).value, m)
  {
    if rows == [] then d
    else
      var n := |rows| - 1;
      var m := LatestInQuarter(rows[..n], d);
      assert forall i :: 0 <= i < n ==> rows[..n][i] == rows[i];
      var last := DateOf(rows[n]);
      if last.Some? && SameQuarter(last.value, d) then Later(m, last.value) else m
  }

  /** The mask `df['date'] == last_dates`. */
  function IsQuarterEnd(rows: seq<Row>): Row -> bool {
    row => DateOf(row).Some? && LatestInQuarter(rows, DateOf(row).value) == DateOf(row).value
  }

  /** `df[df['date'] == last_dates]`: the rows dated on the last day seen in their quarter. */
  function QuarterEnds(rows: seq<Row>): (r: seq<Row>)
    ensures |r| <= |rows|
  {
    Filter(rows, IsQuarterEnd(rows))
  }

  /** Lines 95-99: the date column parsed, then the year and quarter of each date. */
  function QuarterColumns(ps: Parsers, f: Frame): (r: Outcome<Frame>)
    requires WellFormed(f)
    ensures r.Ok? ==> Prepped(r.value) && |r.value.rows| == |f.rows|
    ensures r.Err? <==> ParseDates(ps, f).Err?
  {
    var ds :- ParseDates(ps, f);
    DatesAssigned(ps, f, ds);
    YearQuarterPrepped(Frames.SetColumn(f, "date", WhenCells(ds)), ds);
    Ok(WithYearQuarter(Frames.SetColumn(f, "date", WhenCells(ds)), ds))
  }

  /** The caller's frame after `get_last_day_each_quarter` returns or raises. */
  function AfterQuarterColumns(ps: Parsers, f: Frame): (g: Frame)
    requires WellFormed(f)
    ensures WellFormed(g) && |g.rows| == |f.rows|
  {
    match QuarterColumns(ps, f)
    case Ok(g) => g
    case Err(_) => f
  }

  /** What `get_last_day_each_quarter(df, start_idx, end_idx)` returns. */
  function LastDayEachQuarter(ps: Parsers, f: Frame, startIdx: Option<int>, endIdx: Option<int>): (r: Outcome<Frame>)
    requires WellFormed(f)
    ensures r.Err? <==> ParseDates(ps, f).Err?
    ensures r.Ok? ==> WellFormed(r.value)
  {
    var g :- QuarterColumns(ps, f);
    var filtered := SelectRows(g, IsQuarterEnd(g.rows));
    if startIdx.Some? && endIdx.Some? then Ok(SliceRows(filtered, startIdx, endIdx))
    else Ok(filtered)
  }

  /** `get_last_day_each_quarter(df, start_idx, end_idx)`, assigning into the caller's table. */
  method GetLastDayEachQuarter(ps: Parsers, table: Table, startIdx: Option<int>, endIdx: Option<int>)
    returns (r: Outcome<Frame>)
    requires table.Valid()
    modifies table
    ensures table.Valid()
    ensures table.Snapshot() == AfterQuarterColumns(ps, old(table.Snapshot()))
    ensures r == LastDayEachQuarter(ps, old(table.Snapshot()), startIdx, endIdx)
  {
    var dates := ParseDates(ps, table.Snapshot());
    if dates.Err? {
      return Err(dates.error);
    }
    var ds := dates.value;
    table.SetColumn("date", WhenCells(ds));
    table.SetColumn("year", YearCells(ds));
    table.SetColumn("quarter", QuarterCells(ds));
    var filtered := SelectRows(table.Snapshot(), IsQuarterEnd(table.rows));
    if startIdx.Some? && endIdx.Some? {
      r := Ok(SliceRows(filtered, startIdx, endIdx));
    } else {
      r := Ok(filtered);
    }
  }

  // ---------------------------------------------------------------------------
  // Properties of get_last_day_each_quarter

  /** Chronological order is antisymmetric. */
  lemma NotAfterAntisymmetric(a: Date, b: Date)
    requires NotAfter(a, b) && NotAfter(b, a)
    ensures a == b
  {
  }

  /** A row is a quarter end exactly when no row of its quarter is dated later. */
  lemma {:induction false} QuarterEndIff(rows: seq<Row>, row: Row)
    requires DateOf(row).Some?
    ensures IsQuarterEnd(rows)(row) <==>
              forall i :: 0 <= i < |rows| && DateOf(rows[i]).Some? && SameQuarter(DateOf(rows[i]).value, DateOf(row).value) ==>
                NotAfter(DateOf(rows[i]).value, DateOf(row).value)
  {
    var d := DateOf(row).value;
    var m := LatestInQuarter(rows, d);
    if m != d {
      var i :| 0 <= i < |rows| && DateOf(rows[i]) == Some(m);
      if NotAfter(m, d) {
        NotAfterAntisymmetric(m, d);
      }
    }
  }

  /** The kept rows are, in order, the rows whose date is the latest of their
      quarter; every row they leave out has a later row in its quarter. */
  lemma {:induction false} QuarterEndsAreLatest(rows: seq<Row>)
    ensures IsSubsequence(QuarterEnds(rows), rows)
    ensures forall row :: row in QuarterEnds(rows) ==>
              && DateOf(row).Some?
              && forall i :: 0 <= i < |rows| && DateOf(rows[i]).Some? && SameQuarter(DateOf(rows[i]).value, DateOf(row).value) ==>
                   NotAfter(DateOf(rows[i]).value, DateOf(row).value)
    ensures forall row :: (&& row in rows && DateOf(row).Some?
                           && forall i :: 0 <= i < |rows| && DateOf(rows[i]).Some? && SameQuarter(DateOf(rows[i]).value, DateOf(row).value) ==>
                                NotAfter(DateOf(rows[i]).value, DateOf(row).value)) ==>
              row in QuarterEnds(rows)
  {
    FilterIsSubsequence(rows, IsQuarterEnd(rows));
    forall row | row in QuarterEnds(rows)
      ensures DateOf(row).Some?
      ensures forall i :: 0 <= i < |rows| && DateOf(rows[i]).Some? && SameQuarter(DateOf(rows[i]).value, DateOf(row).value) ==>
                NotAfter(DateOf(rows[i]).value, DateOf(row).value)
    {
      QuarterEndIff(rows, row);
    }
    forall row | row in rows && DateOf(row).Some? &&
        (forall i :: 0 <= i < |rows| && DateOf(rows[i]).Some? && SameQuarter(DateOf(rows[i]).value, DateOf(row).value) ==>
           NotAfter(DateOf(rows[i]).value, DateOf(row).value))
      ensures row in QuarterEnds(rows)
    {
      QuarterEndIff(rows, row);
    }
  }

  /** Every (year, quarter) of a dated row is represented by a kept row carrying
      that quarter's latest date. */
  lemma {:induction false} EveryQuarterRepresented(rows: seq<Row>, i: nat)
    requires i < |rows| && DateOf(rows[i]).Some?
    ensures exists row :: row in QuarterEnds(rows) &&
              DateOf(row) == Some(LatestInQuarter(rows, DateOf(rows[i]).value)) &&
              SameQuarter(DateOf(row).value, DateOf(rows[i]).value)
  {
    var d := DateOf(rows[i]).value;
    var m := LatestInQuarter(rows, d);
    var k: nat := i;
    if m != d {
      k :| 0 <= k < |rows| && DateOf(rows[k]) == Some(m);
    }
    var row := rows[k];
    assert DateOf(row) == Some(m);
    forall j | 0 <= j < |rows| && DateOf(rows[j]).Some? && SameQuarter(DateOf(rows[j]).value, m)
      ensures NotAfter(DateOf(rows[j]).value, m)
    {
      assert SameQuarter(DateOf(rows[j]).value, d);
    }
    QuarterEndIff(rows, row);
    assert IsQuarterEnd(rows)(row);
  }

  /** `get_last_day_each_quarter` raises exactly when the dates do not parse,
      leaving the caller's frame as it was; otherwise the frame gains the `year`
      and `quarter` of every date, holds the parsed dates, and keeps its rows
      and every other column. */
  lemma QuarterColumnsEffect(ps: Parsers, f: Frame)
    requires WellFormed(f)
    ensures ParseDates(ps, f).Err? ==> AfterQuarterColumns(ps, f) == f
    ensures ParseDates(ps, f).Ok? ==>
              var g := AfterQuarterColumns(ps, f);
              && g.names == WithName(WithName(f.names, "year"), "quarter")
              && |g.rows| == |f.rows|
              && (forall i, n :: 0 <= i < |f.rows| && n in f.names && n !in {"date", "year", "quarter"} ==>
                    g.rows[i][n] == f.rows[i][n])
              && (forall i :: 0 <= i < |f.rows| ==> g.rows[i]["date"] == When(ParseDates(ps, f).value[i]))
  {
    if ParseDates(ps, f).Ok? {
      var ds := ParseDates(ps, f).value;
      var f1 := Frames.SetColumn(f, "date", WhenCells(ds));
      assert f1.names == f.names;
    }
  }

  /** The result keeps the prepared frame's column labels. Without both
      bounds it is all the quarter-end rows; with both, Python's slice of them,
      which for in-range bounds is `filtered[start_idx:end_idx]`. */
  lemma LastDayEachQuarterRows(ps: Parsers, f: Frame, startIdx: Option<int>, endIdx: Option<int>)
    requires WellFormed(f) && QuarterColumns(ps, f).Ok?
    ensures var g := QuarterColumns(ps, f).value;
            var r := LastDayEachQuarter(ps, f, startIdx, endIdx).value;
            && r.names == g.names
            && (startIdx.None? || endIdx.None? ==> r.rows == QuarterEnds(g.rows))
            && (startIdx.Some? && endIdx.Some? ==> r.rows == PySlice(QuarterEnds(g.rows), startIdx, endIdx))
            && (startIdx.Some? && endIdx.Some? && 0 <= startIdx.value <= endIdx.value <= |QuarterEnds(g.rows)| ==>
                  r.rows == QuarterEnds(g.rows)[startIdx.value..endIdx.value])
  {
    var g := QuarterColumns(ps, f).value;
    if startIdx.Some? && endIdx.Some? && 0 <= startIdx.value <= endIdx.value <= |QuarterEnds(g.rows)| {
      PySliceInRange(QuarterEnds(g.rows), startIdx.value, endIdx.value);
    }
  }

  /** Every row of the result is a prepared row of the caller's frame, with a quarter in 1..4. */
  lemma LastDayEachQuarterDated(ps: Parsers, f: Frame, startIdx: Option<int>, endIdx: Option<int>)
    requires WellFormed(f) && QuarterColumns(ps, f).Ok?
    ensures var g := QuarterColumns(ps, f).value;
            var r := LastDayEachQuarter(ps, f, startIdx, endIdx).value;
            forall i :: 0 <= i < |r.rows| ==> r.rows[i] in g.rows && Dated(r.rows[i]) && 1 <= r.rows[i]["quarter"].i <= 4
  {
    var g := QuarterColumns(ps, f).value;
    var filtered := QuarterEnds(g.rows);
    var r := LastDayEachQuarter(ps, f, startIdx, endIdx).value;
    forall i | 0 <= i < |r.rows| ensures r.rows[i] in g.rows && Dated(r.rows[i]) && 1 <= r.rows[i]["quarter"].i <= 4 {
      assert r.rows[i] in filtered;
      assert r.rows[i] in g.rows;
    }
  }
}
