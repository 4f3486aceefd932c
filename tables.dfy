/** The tabular values the normalisers work on: a pandas frame read with
    `dtype=str`, whose every cell is either a string or missing (NaN, or the
    None that a ragged split pads with), together with the column lookups
    `df["col"]` and `df.iloc[...]` that the cleaners use. */
module Tables {
  import opened Text

  datatype Option<+T> = None | Some(value: T)

  datatype Result<+T, +E> = Ok(value: T) | Err(error: E)

  /** A cell of a frame read with `dtype=str`. */
  datatype Cell = Str(s: string) | Missing

  /** Column names and rows; a frame is rectangular (`WellShaped`). */
  datatype Frame = Frame(columns: seq<string>, rows: seq<seq<Cell>>) {
    predicate WellShaped() {
      forall k :: 0 <= k < |rows| ==> |rows[k]| == |columns|
    }
  }

  /** `str(x)` as `Series.astype(str)` applies it: strings stay, a missing value prints as "nan". */
  function CellText(c: Cell): (r: string)
    ensures c.Str? ==> r == c.s
    ensures c.Missing? ==> r == "nan" && forall i :: 0 <= i < |r| ==> IsLowerLetter(r[i])
  {
    match c
    case Str(s) => s
    case Missing => "nan"
  }

  /** `lambda x: x.strip() if isinstance(x, str) else x`. */
  function TrimCell(c: Cell): (r: Cell)
    ensures r.Str? <==> c.Str?
    ensures r.Str? ==> IsTrimmed(r.s)
  {
    match c
    case Str(s) => TrimSpec(s); Str(Trim(s))
    case Missing => Missing
  }

  lemma TrimCellIdempotent(c: Cell)
    ensures TrimCell(TrimCell(c)) == TrimCell(c)
  {
    if c.Str? {
      TrimIdempotent(c.s);
    }
  }

  /** The position of the first `x` in `s`, if any. */
  function IndexOf<T(==)>(s: seq<T>, x: T): (r: Option<nat>)
    ensures r.Some? ==> r.value < |s| && s[r.value] == x && x !in s[..r.value]
    ensures r.None? <==> x !in s
    decreases |s|
  {
    if s == [] then None
    else if s[0] == x then Some(0)
    else
      match IndexOf(s[1..], x)
      case None => None
      case Some(k) =>
        assert s[..k + 1] == [s[0]] + s[1..][..k];
        Some(k + 1)
  }

  /** The values of column `j`, top to bottom (`df.iloc[:, j]`). */
  function Column(f: Frame, j: nat): (r: seq<Cell>)
    requires f.WellShaped() && j < |f.columns|
    ensures |r| == |f.rows|
    ensures forall k :: 0 <= k < |r| ==> r[k] == f.rows[k][j]
  {
    seq(|f.rows|, k requires 0 <= k < |f.rows| => f.rows[k][j])
  }

  /** `pd.to_datetime(..., errors="coerce")` on one cell, with the calendar
      parser given as `parseDate`: a missing cell becomes the invalid date. */
  function DateOf(c: Cell, parseDate: string -> Option<int>): (r: Option<int>)
    ensures c.Missing? ==> r.None?
    ensures c.Str? ==> r == parseDate(c.s)
  {
    match c
    case Str(s) => parseDate(s)
    case Missing => None
  }

  /** What the cleaners raise: a `KeyError` naming the absent columns,
      or the `ValueError` of `astype(float)` at the first unparseable row. */
  datatype CleanError = MissingColumns(names: seq<string>) | NotANumber(column: string, row: nat)

  /** The columns of a frame among `wanted` that it lacks, in `wanted`'s order. */
  function Absent(columns: seq<string>, wanted: seq<string>): (r: seq<string>)
    ensures forall x :: x in r <==> x in wanted && x !in columns
  {
    if wanted == [] then []
    else (if wanted[0] in columns then [] else [wanted[0]]) + Absent(columns, wanted[1..])
  }

}
