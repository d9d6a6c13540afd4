/** Fig1: lower-casing the solar layer's header, choosing its value column for the display
    mode, and keeping only the cells with a positive value before they are binned. */
module SolarLayer {
  import opened Wrappers
  import opened Sequences
  import opened Records
  import Text
  import ChartData

  /** `field_map`: candidate column names per display mode, in preference order. */
  const FieldMap: map<string, seq<string>> := map[
    ChartData.UTILITY := ["jizhong_area", "jizhong_ar", "jizhong"],
    ChartData.DISTRIBUTED := ["fenbu_area", "fenbu"],
    ChartData.TOTAL := ["total_area", "total"]
  ]

  /** `field_map.get(PVtype, [])`. */
  function Candidates(pvType: string): seq<string> {
    if pvType in FieldMap then FieldMap[pvType] else []
  }

  /** `gdf.columns = [c.lower() for c in gdf.columns]`: the header is renamed, the rows stay. */
  function LowerColumns(frame: Frame): Frame {
    Frame(MapSeq(frame.columns, Text.Lower), frame.rows)
  }

  function PresentIn(columns: seq<string>): string -> bool {
    (f: string) => f in columns
  }

  /** The value field: the first candidate, in preference order, that is a column of the layer;
      an error when no candidate is. */
  function ResolveValueField(pvType: string, columns: seq<string>): (r: Result<string>)
    ensures r.Ok? ==> exists i :: 0 <= i < |Candidates(pvType)| && Candidates(pvType)[i] == r.value
                         && r.value in columns
                         && forall j :: 0 <= j < i ==> Candidates(pvType)[j] !in columns
    ensures r.Err? <==> forall f :: f in Candidates(pvType) ==> f !in columns
  {
    match First(Candidates(pvType), PresentIn(columns))
    case Some(f) => Ok(f)
    case None => Err("字段未找到")
  }

  /** A display mode outside the field map has no candidates, so resolution always fails. */
  lemma UnknownModeFails(pvType: string, columns: seq<string>)
    requires pvType != ChartData.UTILITY && pvType != ChartData.DISTRIBUTED && pvType != ChartData.TOTAL
    ensures ResolveValueField(pvType, columns).Err?
  {
  }

  predicate IsPositive(c: Cell) {
    c.Number? && c.x > 0.0
  }

  function PositiveAt(j: nat): Row -> bool {
    (row: Row) => IsPositive(CellAt(row, j))
  }

  predicate HasWordsAt(rows: seq<Row>, j: nat) {
    exists row :: row in rows && CellAt(row, j).Words?
  }

  /** `gdf[gdf[value_field] > 0]`: the rows whose value is a positive number, every copy of
      each, in layer order. An empty cell compares false and is dropped; a text cell makes the
      comparison raise, and so does a field that is not a column. */
  function PositiveRows(frame: Frame, field: string): (r: Result<seq<Row>>)
    ensures r.Err? <==> field !in frame.columns || HasWordsAt(frame.rows, ColumnIndex(frame, field).value)
    ensures r.Ok? ==> forall row ::
              multiset(r.value)[row]
              == if IsPositive(CellAt(row, ColumnIndex(frame, field).value)) then multiset(frame.rows)[row] else 0
  {
    match ColumnIndex(frame, field)
    case Err(e) => Err(e)
    case Ok(j) =>
      if HasWordsAt(frame.rows, j) then
        Err("'>' not supported between instances of 'str' and 'int'")
      else
        var kept := Filter(frame.rows, PositiveAt(j));
        assert forall row :: multiset(kept)[row] == if PositiveAt(j)(row) then multiset(frame.rows)[row] else 0 by {
          forall row
            ensures multiset(kept)[row] == if PositiveAt(j)(row) then multiset(frame.rows)[row] else 0
          {
            FilterMultiplicity(frame.rows, PositiveAt(j), row);
          }
        }
        Ok(kept)
  }

  /** The binned layer: its value field and the rows that are drawn. */
  datatype ValueLayer = ValueLayer(field: string, frame: Frame)

  /** The layer's preparation in Fig1, in script order: lower-case the header, resolve the value
      field among the lowered names, keep the rows with a positive value. */
  function PositiveLayer(pvType: string, frame: Frame): (r: Result<ValueLayer>)
    ensures var lowered := MapSeq(frame.columns, Text.Lower);
            r.Err? <==> ResolveValueField(pvType, lowered).Err?
                        || HasWordsAt(frame.rows, ColumnIndex(Frame(lowered, frame.rows), ResolveValueField(pvType, lowered).value).value)
    ensures r.Ok? ==> r.value.frame.columns == MapSeq(frame.columns, Text.Lower)
    ensures r.Ok? ==> r.value.field in Candidates(pvType) && r.value.field in r.value.frame.columns
    ensures r.Ok? ==> forall row ::
              multiset(r.value.frame.rows)[row]
              == if IsPositive(CellAt(row, ColumnIndex(r.value.frame, r.value.field).value)) then multiset(frame.rows)[row] else 0
  {
    var lowered := LowerColumns(frame);
    match ResolveValueField(pvType, lowered.columns)
    case Err(e) => Err(e)
    case Ok(field) =>
      match PositiveRows(lowered, field)
      case Err(e) => Err(e)
      case Ok(rows) => Ok(ValueLayer(field, Frame(lowered.columns, rows)))
  }

  /** The header's case does not matter: a layer whose column names differ only in letter case
      gives the same binned layer. */
  lemma LayerIgnoresHeaderCase(pvType: string, frame: Frame)
    ensures PositiveLayer(pvType, Frame(MapSeq(frame.columns, Text.Lower), frame.rows)) == PositiveLayer(pvType, frame)
  {
    forall i | 0 <= i < |frame.columns|
      ensures Text.Lower(Text.Lower(frame.columns[i])) == Text.Lower(frame.columns[i])
    {
      Text.LowerNormalises(frame.columns[i]);
    }
    assert LowerColumns(Frame(MapSeq(frame.columns, Text.Lower), frame.rows)) == LowerColumns(frame);
  }

  /** A header spelled "Total_Area" still feeds the total mode: the lowered name resolves and
      the row with a positive value is kept. */
  lemma MixedCaseHeaderKeepsRow()
    ensures PositiveLayer(ChartData.TOTAL, Frame(["Total_Area"], [[Number(5.0)]]))
            == Ok(ValueLayer("total_area", Frame(["total_area"], [[Number(5.0)]])))
  {
    var lowered := Frame(["total_area"], [[Number(5.0)]]);
    assert Text.Lower("Total_Area") == "total_area";
    assert LowerColumns(Frame(["Total_Area"], [[Number(5.0)]])) == lowered;
    assert ResolveValueField(ChartData.TOTAL, lowered.columns) == Ok("total_area");
    assert ColumnIndex(lowered, "total_area") == Ok(0);
    assert Filter([[Number(5.0)]], PositiveAt(0)) == [[Number(5.0)]];
    assert PositiveRows(lowered, "total_area") == Ok([[Number(5.0)]]);
  }
}
