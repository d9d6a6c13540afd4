/** Fig2: the per-cell attributes after preprocessing — irradiance converted to MJ/m² and the
    three PV areas converted to km². */
module SolarCells {
  import opened Wrappers
  import opened Records

  const IRRADIANCE := "光照强"
  const UTILITY_AREA := "jizhong_ar"
  const DISTRIBUTED_AREA := "fenbu_area"
  const TOTAL_AREA := "total_area"

  /** `* 12 / 1e6` on the irradiance column. */
  const IRRADIANCE_FACTOR: real := 12.0 / 1000000.0
  /** `* 0.2 / 1e6` on each area column. */
  const AREA_FACTOR: real := 0.2 / 1000000.0

  /** A grid cell's preprocessed attributes; `None` is a missing value. */
  datatype SolarCell = SolarCell(
    irradiance: Option<real>,
    utilArea: Option<real>,
    distArea: Option<real>,
    totalArea: Option<real>)

  /** Where the four preprocessed columns sit in the header. */
  datatype Located = Located(irradiance: nat, utilArea: nat, distArea: nat, totalArea: nat)

  /** The four preprocessed columns are all in the header. */
  predicate HasAttributes(frame: Frame) {
    IRRADIANCE in frame.columns && UTILITY_AREA in frame.columns
    && DISTRIBUTED_AREA in frame.columns && TOTAL_AREA in frame.columns
  }

  /** `solar_gdf[col]` for the four columns, in the order the script reads them; the first
      missing one raises `KeyError`. */
  function Locate(frame: Frame): (r: Result<Located>)
    ensures r.Err? <==> !HasAttributes(frame)
    ensures r.Ok? ==> && r.value.irradiance < |frame.columns| && frame.columns[r.value.irradiance] == IRRADIANCE
                      && r.value.utilArea < |frame.columns| && frame.columns[r.value.utilArea] == UTILITY_AREA
                      && r.value.distArea < |frame.columns| && frame.columns[r.value.distArea] == DISTRIBUTED_AREA
                      && r.value.totalArea < |frame.columns| && frame.columns[r.value.totalArea] == TOTAL_AREA
  {
    match (ColumnIndex(frame, IRRADIANCE), ColumnIndex(frame, UTILITY_AREA),
           ColumnIndex(frame, DISTRIBUTED_AREA), ColumnIndex(frame, TOTAL_AREA))
    case (Ok(i), Ok(u), Ok(d), Ok(t)) => Ok(Located(i, u, d, t))
    case (Err(e), _, _, _) => Err(e)
    case (_, Err(e), _, _) => Err(e)
    case (_, _, Err(e), _) => Err(e)
    case (_, _, _, Err(e)) => Err(e)
  }

  /** Preprocessing of one row: each of the four columns is coerced to a number (missing when
      it is not one) and rescaled by its column's factor. */
  function PreprocessRow(row: Row, at: Located): (cell: SolarCell)
    ensures cell.irradiance.Some? <==> CellAt(row, at.irradiance).Number?
    ensures cell.irradiance.Some? ==> cell.irradiance.value == CellAt(row, at.irradiance).x * 12.0 / 1000000.0
    ensures cell.utilArea.Some? <==> CellAt(row, at.utilArea).Number?
    ensures cell.utilArea.Some? ==> cell.utilArea.value == CellAt(row, at.utilArea).x * 0.2 / 1000000.0
    ensures cell.distArea.Some? <==> CellAt(row, at.distArea).Number?
    ensures cell.distArea.Some? ==> cell.distArea.value == CellAt(row, at.distArea).x * 0.2 / 1000000.0
    ensures cell.totalArea.Some? <==> CellAt(row, at.totalArea).Number?
    ensures cell.totalArea.Some? ==> cell.totalArea.value == CellAt(row, at.totalArea).x * 0.2 / 1000000.0
  {
    SolarCell(
      Rescaled(CellAt(row, at.irradiance), IRRADIANCE_FACTOR),
      Rescaled(CellAt(row, at.utilArea), AREA_FACTOR),
      Rescaled(CellAt(row, at.distArea), AREA_FACTOR),
      Rescaled(CellAt(row, at.totalArea), AREA_FACTOR))
  }

  /** Preprocessing a layer: an error when one of the four columns is missing, otherwise the
      layer converted row by row, keeping length and order. */
  function Preprocess(frame: Frame): (r: Result<seq<SolarCell>>)
    ensures r.Err? <==> !HasAttributes(frame)
    ensures r.Ok? ==> |r.value| == |frame.rows|
    ensures r.Ok? ==> forall i :: 0 <= i < |frame.rows| ==> r.value[i] == PreprocessRow(frame.rows[i], Locate(frame).value)
  {
    match Locate(frame)
    case Err(e) => Err(e)
    case Ok(at) => Ok(seq(|frame.rows|, i requires 0 <= i < |frame.rows| => PreprocessRow(frame.rows[i], at)))
  }

  /** Preprocessing is lossless on numbers: every raw number is recovered from its rescaled value,
      so rows with different raw attributes stay different. */
  lemma PreprocessInjective(a: Row, b: Row, at: Located)
    requires forall j :: j in [at.irradiance, at.utilArea, at.distArea, at.totalArea] ==>
               CellAt(a, j).Number? && CellAt(b, j).Number?
    requires PreprocessRow(a, at) == PreprocessRow(b, at)
    ensures forall j :: j in [at.irradiance, at.utilArea, at.distArea, at.totalArea] ==>
              CellAt(a, j) == CellAt(b, j)
  {
    forall j | j in [at.irradiance, at.utilArea, at.distArea, at.totalArea]
      ensures CellAt(a, j) == CellAt(b, j)
    {
      var f := if j == at.irradiance then IRRADIANCE_FACTOR else AREA_FACTOR;
      RescaledInvertible(CellAt(a, j), f);
      RescaledInvertible(CellAt(b, j), f);
    }
  }
}
