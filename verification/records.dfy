/** Attribute tables of the shapefiles: a header of column names and one row of cells per
    grid cell, as a GeoDataFrame holds them. */
module Records {
  import opened Wrappers
  import opened Sequences

  /** One attribute value: a number, an empty cell (NaN), or text that does not read as a number. */
  datatype Cell = Number(x: real) | Blank | Words(s: string)

  /** One row of the table: a cell per column, in header order. */
  type Row = seq<Cell>

  datatype Frame = Frame(columns: seq<string>, rows: seq<Row>)

  /** The row's cell in column `j`; a row shorter than the header reads as empty there. */
  function CellAt(row: Row, j: nat): Cell {
    if j < |row| then row[j] else Blank
  }

  function Named(name: string): string -> bool {
    (c: string) => c == name
  }

  /** `frame[name]` locates the column by name; a name that is not a column raises `KeyError`. */
  function ColumnIndex(frame: Frame, name: string): (r: Result<nat>)
    ensures r.Ok? ==> r.value < |frame.columns| && frame.columns[r.value] == name
    ensures r.Err? <==> name !in frame.columns
  {
    match FirstIndex(frame.columns, Named(name))
    case Some(j) => Ok(j)
    case None => Err("KeyError: " + name)
  }

  /** `pd.to_numeric(value, errors='coerce') * factor`: anything that is not a number becomes
      missing instead of raising, and a number is rescaled. */
  function Rescaled(c: Cell, factor: real): (r: Option<real>)
    ensures r.None? <==> !c.Number?
    ensures r.Some? ==> r.value == c.x * factor
  {
    match c
    case Number(x) => Some(x * factor)
    case _ => None
  }

  /** Rescaling by a non-zero factor loses nothing: the raw number is recovered by dividing back. */
  lemma RescaledInvertible(c: Cell, factor: real)
    requires factor != 0.0
    requires c.Number?
    ensures Rescaled(c, factor).value / factor == c.x
  {
  }
}
