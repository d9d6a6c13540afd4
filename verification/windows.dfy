/** The map windows each figure clips its layers to before projecting them to the Robinson
    projection, and the order of those two steps. */
module Windows {
  import opened Sequences

  /** `box(west, south, east, north)` in degrees. */
  datatype Window = Window(west: real, south: real, east: real, north: real)

  predicate Valid(w: Window) {
    w.west < w.east && w.south < w.north
  }

  /** The window stays off the ±180° meridian, where the projection would draw a seam line. */
  predicate SeamSafe(w: Window) {
    -180.0 < w.west && w.east < 180.0
  }

  /** drawmap.py: `box(-179.99, -57.99, 179.99, 89.99)`. */
  const DrawmapWindow := Window(-179.99, -57.99, 179.99, 89.99)
  /** drawmapV2.py: `box(-179.9, -58, 179.9, 85)`. */
  const V2Window := Window(-179.9, -58.0, 179.9, 85.0)
  /** draw_map_bar.py: `box(-180, -58, 180, 90)`, cutting off Antarctica only. */
  const Fig1Window := Window(-180.0, -58.0, 180.0, 90.0)

  /** `target_crs`, the Robinson projection, in all three map scripts. */
  const ROBINSON := "ESRI:54030"

  /** Both Fig2 windows are proper boxes strictly inside the seam; Fig1's is a proper box that
      reaches the seam. */
  lemma WindowConstants()
    ensures Valid(DrawmapWindow) && SeamSafe(DrawmapWindow)
    ensures Valid(V2Window) && SeamSafe(V2Window)
    ensures Valid(Fig1Window) && !SeamSafe(Fig1Window)
  {
  }

  datatype LonLat = LonLat(lon: real, lat: real)

  /** Clipping to a box keeps what lies in the closed box. */
  predicate Inside(p: LonLat, w: Window) {
    w.west <= p.lon <= w.east && w.south <= p.lat <= w.north
  }

  function InsideOf(w: Window): LonLat -> bool {
    (p: LonLat) => Inside(p, w)
  }

  /** `layer.clip(box)`, on the layer's vertices. */
  function ClipPoints(pts: seq<LonLat>, w: Window): (r: seq<LonLat>)
    ensures forall p :: p in r ==> p in pts && Inside(p, w)
    ensures forall p :: p in pts && Inside(p, w) ==> p in r
  {
    Filter(pts, InsideOf(w))
  }

  /** One step of a layer's preparation. */
  datatype Step = ClipTo(window: Window) | ProjectTo(crs: string)

  /** `layer.clip(window).to_crs(target_crs)`. */
  function ClipThenProject(w: Window): seq<Step> {
    [ClipTo(w), ProjectTo(ROBINSON)]
  }

  /** Both Fig2 scripts send the world and the solar layer through `clip(clean_bbox).to_crs(...)`. */
  const DrawmapWorld := ClipThenProject(DrawmapWindow)
  const DrawmapSolar := ClipThenProject(DrawmapWindow)
  const V2World := ClipThenProject(V2Window)
  const V2Solar := ClipThenProject(V2Window)
  /** draw_map_bar.py: the world layer is clipped, the solar layer only projected. */
  const Fig1World := ClipThenProject(Fig1Window)
  const Fig1Solar := [ProjectTo(ROBINSON)]

  /** The vertices handed to the first projection step: every clip before it applied. */
  function PointsAtProjection(steps: seq<Step>, pts: seq<LonLat>): (r: seq<LonLat>)
    ensures forall p :: p in r ==> p in pts
    decreases |steps|
  {
    if |steps| == 0 then pts
    else
      match steps[0]
      case ProjectTo(_) => pts
      case ClipTo(w) => PointsAtProjection(steps[1..], ClipPoints(pts, w))
  }

  /** Clipping first to a seam-safe window means no vertex on or beyond the ±180° meridian ever
      reaches the projection, whatever steps follow. */
  lemma {:induction false} ClipFirstAvoidsSeam(steps: seq<Step>, pts: seq<LonLat>)
    requires |steps| > 0 && steps[0].ClipTo? && SeamSafe(steps[0].window)
    ensures forall p :: p in PointsAtProjection(steps, pts) ==> -180.0 < p.lon < 180.0
  {
    var clipped := ClipPoints(pts, steps[0].window);
    assert PointsAtProjection(steps, pts) == PointsAtProjection(steps[1..], clipped);
  }

  /** Every Fig2 layer is clipped to its window before it is projected, so none of its vertices
      reaches the projection on the seam. */
  lemma Fig2LayersAvoidSeam(pts: seq<LonLat>)
    ensures forall p :: p in PointsAtProjection(DrawmapWorld, pts) ==> -180.0 < p.lon < 180.0
    ensures forall p :: p in PointsAtProjection(DrawmapSolar, pts) ==> -180.0 < p.lon < 180.0
    ensures forall p :: p in PointsAtProjection(V2World, pts) ==> -180.0 < p.lon < 180.0
    ensures forall p :: p in PointsAtProjection(V2Solar, pts) ==> -180.0 < p.lon < 180.0
  {
    ClipFirstAvoidsSeam(DrawmapWorld, pts);
    ClipFirstAvoidsSeam(V2World, pts);
  }

  /** In Fig1 a vertex on the 180° meridian reaches the projection in both layers: the world
      window includes the meridian and the solar layer is not clipped at all. */
  lemma Fig1LayersReachSeam()
    ensures LonLat(180.0, 0.0) in PointsAtProjection(Fig1World, [LonLat(180.0, 0.0)])
    ensures LonLat(180.0, 0.0) in PointsAtProjection(Fig1Solar, [LonLat(180.0, 0.0)])
  {
    var p := LonLat(180.0, 0.0);
    assert Inside(p, Fig1Window);
    assert PointsAtProjection(Fig1World, [p]) == PointsAtProjection([ProjectTo(ROBINSON)], ClipPoints([p], Fig1Window));
  }
}
