/** A pandas DataFrame as a value: an ordered list of distinct column names and
    a sequence of rows, each row a map from every column name to its cell. */
module Frames {
  import opened Wrappers
  import opened Dates
  import opened Seqs

  /** The exceptions the modelled code can raise. */
  datatype Error =
    | KeyError(key: string)   // a missing column label
    | IndexError              // a position past the end
    | TypeError               // arithmetic or formatting on the wrong kind of value
    | ValueError              // a rejected argument or an unconvertible value
    | ZeroDivisionError       // integer or float division by zero in Python
    | ParseError              // `pd.to_datetime` on a value that is not a date

  type Outcome<T> = Result<T, Error>

  datatype Cell = When(date: Date) | Num(x: real) | Int(i: int) | Text(s: string)

  type Row = map<string, Cell>

  datatype Frame = Frame(names: seq<string>, rows: seq<Row>)

  function NameSet(names: seq<string>): set<string> {
    set n | n in names
  }

  predicate WellFormed(f: Frame) {
    Distinct(f.names) && forall i :: 0 <= i < |f.rows| ==> f.rows[i].Keys == NameSet(f.names)
  }

  /** `df[name]` on a column that exists. */
  function Column(f: Frame, name: string): (c: seq<Cell>)
    requires WellFormed(f) && name in f.names
    ensures |c| == |f.rows|
    ensures forall i :: 0 <= i < |c| ==> c[i] == f.rows[i][name]
  {
    seq(|f.rows|, i requires 0 <= i < |f.rows| => f.rows[i][name])
  }

  /** `df[name]`, raising a KeyError when there is no such column. */
  function Lookup(f: Frame, name: string): (r: Outcome<seq<Cell>>)
    requires WellFormed(f)
    ensures r.Err? <==> name !in f.names
    ensures r.Err? ==> r.error == KeyError(name)
    ensures r.Ok? ==> r.value == Column(f, name)
  {
    if name in f.names then Ok(Column(f, name)) else Err(KeyError(name))
  }

  /** The number a cell holds when used in arithmetic (`1 + cell`). */
  function AsReal(c: Cell): (r: Outcome<real>)
    ensures r.Ok? <==> c.Num? || c.Int?
  {
    match c
    case Num(x) => Ok(x)
    case Int(i) => Ok(i as real)
    case _ => Err(TypeError)
  }

  /** A column used as a numeric series; any non-numeric cell raises a TypeError. */
  function Numeric(cells: seq<Cell>): (r: Outcome<seq<real>>)
    ensures r.Ok? <==> forall i :: 0 <= i < |cells| ==> AsReal(cells[i]).Ok?
    ensures r.Err? ==> r.error == TypeError
    ensures r.Ok? ==> |r.value| == |cells|
    ensures r.Ok? ==> forall i :: 0 <= i < |cells| ==> r.value[i] == AsReal(cells[i]).value
  {
    if cells == [] then Ok([])
    else
      match AsReal(cells[0])
      case Err(e) => Err(e)
      case Ok(x) =>
        match Numeric(cells[1..])
        case Err(e) => Err(e)
        case Ok(xs) => Ok([x] + xs)
  }

  /** The column labels after assigning to `name`: unchanged if present, appended otherwise. */
  function WithName(names: seq<string>, name: string): (r: seq<string>)
    ensures NameSet(r) == NameSet(names) + {name}
    ensures Distinct(names) ==> Distinct(r)
  {
    if name in names then names else names + [name]
  }

  /** `df[name] = vals`: overwrite the column if it exists, append it otherwise. */
  function SetColumn(f: Frame, name: string, vals: seq<Cell>): (g: Frame)
    requires WellFormed(f) && |vals| == |f.rows|
    ensures WellFormed(g) && |g.rows| == |f.rows|
    ensures g.names == WithName(f.names, name)
    ensures forall i :: 0 <= i < |g.rows| ==> g.rows[i] == f.rows[i][name := vals[i]]
  {
    Frame(WithName(f.names, name), seq(|f.rows|, i requires 0 <= i < |f.rows| => f.rows[i][name := vals[i]]))
  }

  /** Assigning a column the values it already holds changes nothing. */
  lemma SetColumnSame(f: Frame, name: string, vals: seq<Cell>)
    requires WellFormed(f) && |vals| == |f.rows| && name in f.names
    requires forall i :: 0 <= i < |f.rows| ==> f.rows[i][name] == vals[i]
    ensures SetColumn(f, name, vals) == f
  {
    var g := SetColumn(f, name, vals);
    forall i | 0 <= i < |f.rows| ensures g.rows[i] == f.rows[i] {
      assert g.rows[i].Keys == f.rows[i].Keys;
    }
    assert g.rows == f.rows;
  }

  /** A second assignment to the same column replaces the first. */
  lemma SetColumnTwice(f: Frame, name: string, a: seq<Cell>, b: seq<Cell>)
    requires WellFormed(f) && |a| == |f.rows| && |b| == |f.rows|
    ensures SetColumn(SetColumn(f, name, a), name, b) == SetColumn(f, name, b)
  {
    var g := SetColumn(SetColumn(f, name, a), name, b);
    var h := SetColumn(f, name, b);
    forall i | 0 <= i < |f.rows| ensures g.rows[i] == h.rows[i] {
      assert g.rows[i].Keys == h.rows[i].Keys;
    }
    assert g.rows == h.rows;
  }

  /** `names` without `name`, order kept. */
  function Without(names: seq<string>, name: string): (r: seq<string>)
    ensures NameSet(r) == NameSet(names) - {name}
    ensures Distinct(names) ==> Distinct(r)
  {
    if names == [] then []
    else
      var rest := Without(names[1..], name);
      assert NameSet(names) == {names[0]} + NameSet(names[1..]);
      if names[0] == name then rest
      else
        var r := [names[0]] + rest;
        assert NameSet(r) == {names[0]} + NameSet(rest);
        assert Distinct(names) ==> names[0] !in NameSet(rest);
        r
  }

  /** `df.drop(name, axis=1)`: KeyError when the column is absent. */
  function DropColumn(f: Frame, name: string): (r: Outcome<Frame>)
    requires WellFormed(f)
    ensures r.Err? <==> name !in f.names
    ensures r.Ok? ==> WellFormed(r.value) && r.value.names == Without(f.names, name)
    ensures r.Ok? ==> |r.value.rows| == |f.rows|
    ensures r.Ok? ==> forall i, n :: 0 <= i < |f.rows| && n in r.value.names ==> r.value.rows[i][n] == f.rows[i][n]
  {
    if name !in f.names then Err(KeyError(name))
    else Ok(Frame(Without(f.names, name), seq(|f.rows|, i requires 0 <= i < |f.rows| => f.rows[i] - {name})))
  }

  /** `df[mask]` for a row predicate: the rows satisfying it, in order, all columns kept. */
  function SelectRows(f: Frame, keep: Row -> bool): (g: Frame)
    requires WellFormed(f)
    ensures WellFormed(g) && g.names == f.names
    ensures g.rows == Filter(f.rows, keep)
  {
    Frame(f.names, Filter(f.rows, keep))
  }

  /** `df.iloc[start:stop]`: Python's slice of the rows, all columns kept. */
  function SliceRows(f: Frame, start: Option<int>, stop: Option<int>): (g: Frame)
    requires WellFormed(f)
    ensures WellFormed(g) && g.names == f.names
    ensures g.rows == PySlice(f.rows, start, stop)
  {
    Frame(f.names, PySlice(f.rows, start, stop))
  }
}
