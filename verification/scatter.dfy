/** Fig2: the PV scatter layer — which cells become points, how many are drawn, and (in the
    first version of the figure) how large each marker is. */
module Scatter {
  import opened Sequences
  import opened SolarCells

  /** drawmapV2.py keeps cells with a total area above 1e-4 km² and draws at most 40000. */
  const V2_MIN_AREA: real := 0.0001
  const V2_MAX_POINTS: nat := 40000
  /** drawmap.py keeps cells with a total area above 1e-3 km² and draws at most 50000. */
  const MIN_AREA: real := 0.001
  const MAX_POINTS: nat := 50000

  /** A cell becomes a point when its total area is present and above the threshold. */
  predicate IsScatterPoint(c: SolarCell, threshold: real) {
    c.totalArea.Some? && c.totalArea.value > threshold
  }

  function AboveThreshold(threshold: real): SolarCell -> bool {
    (c: SolarCell) => IsScatterPoint(c, threshold)
  }

  /** `dropna(subset=['total_area'])` then `[total_area > threshold]`: exactly the cells with a
      present total area above the threshold, every copy of each, in layer order. */
  function ScatterPoints(cells: seq<SolarCell>, threshold: real): (r: seq<SolarCell>)
    ensures forall c :: c in r ==> c in cells && IsScatterPoint(c, threshold)
    ensures forall c :: c in cells && IsScatterPoint(c, threshold) ==> c in r
    ensures forall c :: multiset(r)[c] == if IsScatterPoint(c, threshold) then multiset(cells)[c] else 0
  {
    var r := Filter(cells, AboveThreshold(threshold));
    assert forall c :: multiset(r)[c] == if IsScatterPoint(c, threshold) then multiset(cells)[c] else 0 by {
      forall c
        ensures multiset(r)[c] == if IsScatterPoint(c, threshold) then multiset(cells)[c] else 0
      {
        FilterMultiplicity(cells, AboveThreshold(threshold), c);
      }
    }
    r
  }

  /** Down-sampling: above `limit` points, `sample(n=limit)` keeps `limit` of them; the random
      choice is the mask `keep`. At or below the limit every point is kept, in order. */
  function Cap<T>(points: seq<T>, limit: nat, keep: seq<bool>): (r: seq<T>)
    requires |keep| == |points|
    requires |points| > limit ==> CountTrue(keep) == limit
    ensures |r| == Min(|points|, limit)
    ensures multiset(r) <= multiset(points)
    ensures |points| <= limit ==> r == points
  {
    if |points| > limit then Keep(points, keep) else points
  }

  lemma SubMultisetMember<T>(a: seq<T>, b: seq<T>, x: T)
    requires multiset(a) <= multiset(b) && x in a
    ensures x in b
  {
    assert x in multiset(a);
  }

  /** Every drawn point is a cell of the layer above the area threshold; sampling never brings in
      a point the filter rejected. */
  lemma DrawnPointsQualify(cells: seq<SolarCell>, threshold: real, limit: nat, keep: seq<bool>)
    requires |keep| == |ScatterPoints(cells, threshold)|
    requires |ScatterPoints(cells, threshold)| > limit ==> CountTrue(keep) == limit
    ensures forall c :: c in Cap(ScatterPoints(cells, threshold), limit, keep) ==>
              c in cells && IsScatterPoint(c, threshold)
  {
    var points := ScatterPoints(cells, threshold);
    forall c | c in Cap(points, limit, keep) ensures c in cells && IsScatterPoint(c, threshold) {
      SubMultisetMember(Cap(points, limit, keep), points, c);
    }
  }

  /** The scatter layer of drawmapV2.py: the qualifying cells, at most 40000 of them. */
  function V2ScatterLayer(cells: seq<SolarCell>, keep: seq<bool>): (r: seq<SolarCell>)
    requires |keep| == |ScatterPoints(cells, V2_MIN_AREA)|
    requires |ScatterPoints(cells, V2_MIN_AREA)| > V2_MAX_POINTS ==> CountTrue(keep) == V2_MAX_POINTS
    ensures |r| <= V2_MAX_POINTS
    ensures forall c :: c in r ==> c in cells && IsScatterPoint(c, V2_MIN_AREA)
    ensures |ScatterPoints(cells, V2_MIN_AREA)| <= V2_MAX_POINTS ==>
              forall c :: c in cells && IsScatterPoint(c, V2_MIN_AREA) ==> c in r
  {
    DrawnPointsQualify(cells, V2_MIN_AREA, V2_MAX_POINTS, keep);
    Cap(ScatterPoints(cells, V2_MIN_AREA), V2_MAX_POINTS, keep)
  }

  /** The scatter layer of drawmap.py: the qualifying cells, at most 50000 of them. */
  function ScatterLayer(cells: seq<SolarCell>, keep: seq<bool>): (r: seq<SolarCell>)
    requires |keep| == |ScatterPoints(cells, MIN_AREA)|
    requires |ScatterPoints(cells, MIN_AREA)| > MAX_POINTS ==> CountTrue(keep) == MAX_POINTS
    ensures |r| <= MAX_POINTS
    ensures forall c :: c in r ==> c in cells && IsScatterPoint(c, MIN_AREA)
    ensures |ScatterPoints(cells, MIN_AREA)| <= MAX_POINTS ==>
              forall c :: c in cells && IsScatterPoint(c, MIN_AREA) ==> c in r
  {
    DrawnPointsQualify(cells, MIN_AREA, MAX_POINTS, keep);
    Cap(ScatterPoints(cells, MIN_AREA), MAX_POINTS, keep)
  }

  /** A stricter threshold keeps a subset of the points: every drawmap.py point is also a
      drawmapV2.py point before sampling. */
  lemma StricterThresholdKeepsFewer(cells: seq<SolarCell>)
    ensures forall c :: c in ScatterPoints(cells, MIN_AREA) ==> c in ScatterPoints(cells, V2_MIN_AREA)
  {
  }

  /** `scale_factor` in drawmap.py. */
  const SCALE_FACTOR: real := 1.0
  /** The base added so that no marker vanishes. */
  const BASE_SIZE: real := 0.5

  /** `series.max()` of a non-empty column. */
  function Largest(xs: seq<real>): (m: real)
    requires |xs| > 0
    ensures m in xs
    ensures forall i :: 0 <= i < |xs| ==> xs[i] <= m
  {
    if |xs| == 1 then xs[0]
    else
      var m := Largest(xs[1..]);
      assert forall i :: 1 <= i < |xs| ==> xs[i] == xs[1..][i - 1];
      if xs[0] > m then xs[0] else m
  }

  function TotalArea(c: SolarCell): real
    requires c.totalArea.Some?
  {
    c.totalArea.value
  }

  /** `area_sizes`: each point's total area relative to the largest, plus the base. */
  function MarkerSizes(points: seq<SolarCell>): (r: seq<real>)
    requires forall i :: 0 <= i < |points| ==> points[i].totalArea.Some? && points[i].totalArea.value > 0.0
    ensures |r| == |points|
    ensures forall i :: 0 <= i < |r| ==> BASE_SIZE < r[i] <= BASE_SIZE + SCALE_FACTOR
  {
    if |points| == 0 then []
    else
      var areas := Areas(points);
      var m := Largest(areas);
      var sizes := seq(|points|, i requires 0 <= i < |points| => areas[i] / m * SCALE_FACTOR + BASE_SIZE);
      assert forall i :: 0 <= i < |sizes| ==> BASE_SIZE < sizes[i] <= BASE_SIZE + SCALE_FACTOR by {
        forall i | 0 <= i < |sizes|
          ensures BASE_SIZE < sizes[i] <= BASE_SIZE + SCALE_FACTOR
        {
          RatioBounds(areas[i], m);
        }
      }
      sizes
  }

  /** `solar_points['total_area']`. */
  function Areas(points: seq<SolarCell>): (areas: seq<real>)
    requires forall i :: 0 <= i < |points| ==> points[i].totalArea.Some? && points[i].totalArea.value > 0.0
    ensures |areas| == |points|
    ensures forall i :: 0 <= i < |points| ==> areas[i] == TotalArea(points[i]) && areas[i] > 0.0
  {
    seq(|points|, i requires 0 <= i < |points| => TotalArea(points[i]))
  }

  lemma RatioBounds(a: real, m: real)
    requires 0.0 < a <= m
    ensures 0.0 < a / m <= 1.0
    ensures a / m == 1.0 <==> a == m
  {
  }

  lemma RatioMonotone(a: real, b: real, m: real)
    requires 0.0 < m && a <= b
    ensures a / m <= b / m
  {
  }

  /** The points drawmap.py sizes all have a positive total area. */
  lemma ScatterPointsHaveArea(cells: seq<SolarCell>)
    ensures forall i :: 0 <= i < |ScatterPoints(cells, MIN_AREA)| ==>
              ScatterPoints(cells, MIN_AREA)[i].totalArea.Some? && ScatterPoints(cells, MIN_AREA)[i].totalArea.value > 0.0
  {
    var points := ScatterPoints(cells, MIN_AREA);
    forall i | 0 <= i < |points| ensures points[i].totalArea.Some? && points[i].totalArea.value > 0.0 {
      assert points[i] in points;
    }
  }

  /** Marker sizes lie in (0.5, 1.5], follow the areas' order, and reach 1.5 exactly at the
      largest area. */
  lemma MarkerSizesBounds(points: seq<SolarCell>)
    requires forall i :: 0 <= i < |points| ==> points[i].totalArea.Some? && points[i].totalArea.value > 0.0
    ensures forall i :: 0 <= i < |points| ==> BASE_SIZE < MarkerSizes(points)[i] <= BASE_SIZE + SCALE_FACTOR
    ensures forall i, j :: 0 <= i < |points| && 0 <= j < |points| && TotalArea(points[i]) <= TotalArea(points[j]) ==>
              MarkerSizes(points)[i] <= MarkerSizes(points)[j]
    ensures forall i :: 0 <= i < |points| ==>
              (MarkerSizes(points)[i] == BASE_SIZE + SCALE_FACTOR
               <==> forall j :: 0 <= j < |points| ==> TotalArea(points[j]) <= TotalArea(points[i]))
  {
    if |points| > 0 {
      var areas := Areas(points);
      var m := Largest(areas);
      var sizes := MarkerSizes(points);
      assert forall i :: 0 <= i < |points| ==> sizes[i] == areas[i] / m * SCALE_FACTOR + BASE_SIZE;
      var k :| 0 <= k < |areas| && areas[k] == m;
      forall i | 0 <= i < |points|
        ensures BASE_SIZE < sizes[i] <= BASE_SIZE + SCALE_FACTOR
        ensures sizes[i] == BASE_SIZE + SCALE_FACTOR
                <==> forall j :: 0 <= j < |points| ==> TotalArea(points[j]) <= TotalArea(points[i])
      {
        RatioBounds(areas[i], m);
        if forall j :: 0 <= j < |points| ==> TotalArea(points[j]) <= TotalArea(points[i]) {
          assert areas[k] <= areas[i];
        }
      }
      forall i, j | 0 <= i < |points| && 0 <= j < |points| && TotalArea(points[i]) <= TotalArea(points[j])
        ensures sizes[i] <= sizes[j]
      {
        RatioMonotone(areas[i], areas[j], m);
      }
    }
  }
}
