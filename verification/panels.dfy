/** Fig1: the per-region bar-chart panels laid over the map. Regions are visited in the
    fixed order of the placement table; each region with data gets its five largest rows
    and a vertical axis running from 0 to 1.25 times its tallest bar. */
module Panels {
  import opened Wrappers
  import opened Sequences
  import opened Ordering
  import opened ChartData

  /** A panel's rectangle in figure coordinates (left, bottom, width, height). */
  datatype Rect = Rect(left: real, bottom: real, width: real, height: real)

  /** The placement table, in the order the drawing loop visits it. */
  const ChartPositions: seq<(string, Rect)> := [
    ("North America", Rect(0.08, 0.60, 0.12, 0.23)),
    ("South America", Rect(0.19, 0.28, 0.12, 0.18)),
    ("Europe", Rect(0.36, 0.68, 0.12, 0.18)),
    ("Africa", Rect(0.43, 0.25, 0.12, 0.18)),
    ("Asia", Rect(0.85, 0.65, 0.12, 0.23)),
    ("Oceania", Rect(0.68, 0.21, 0.10, 0.23))
  ]

  const TOP_N := 5
  const HEADROOM := 1.25

  /** One drawn panel: its region, rectangle, bars (in table order) and the top of its y axis. */
  datatype Panel = Panel(region: string, rect: Rect, rows: seq<ChartRow>, yTop: real)

  function RegionIs(region: string): ChartRow -> bool {
    (row: ChartRow) => row.region == region
  }

  /** `chart_df[chart_df['Region'] == region]`. */
  function RegionRows(table: seq<ChartRow>, region: string): seq<ChartRow> {
    Filter(table, RegionIs(region))
  }

  /** `chart_df[chart_df['Region'] == region].head(5)`. */
  function TopRows(table: seq<ChartRow>, region: string): (r: seq<ChartRow>)
    ensures |r| == Min(TOP_N, |RegionRows(table, region)|)
    ensures forall i :: 0 <= i < |r| ==> r[i].region == region
    ensures r == RegionRows(table, region)[..|r|]
  {
    var rows := RegionRows(table, region);
    rows[..Min(TOP_N, |rows|)]
  }

  /** Top-N correctness: on a table sorted largest first, a region's panel rows are themselves
      sorted and none of the region's rows left out ranks above any row kept. */
  lemma TopRowsAreLargest(table: seq<ChartRow>, region: string)
    requires SortedBy(table, SortKey, Descending)
    ensures var top := TopRows(table, region);
            var rest := RegionRows(table, region)[|top|..];
            && SortedBy(top, SortKey, Descending)
            && forall i, j :: 0 <= i < |top| && 0 <= j < |rest| ==>
                 Precedes(Descending, SortKey(top[i]), SortKey(rest[j]))
  {
    var rows := RegionRows(table, region);
    FilterKeepsSorted(table, RegionIs(region), SortKey, Descending);
    SortedSplit(rows, SortKey, Descending, Min(TOP_N, |rows|));
  }

  /** The height of a bar: the value, or utility plus distributed capacity when stacked. */
  function BarHeight(row: ChartRow): Option<real> {
    match row
    case SingleRow(_, _, v) => v
    case StackedRow(_, _, d, u, _) => Some(u + d)
  }

  /** Does `x > m` hold between two floats? Any comparison with NaN is false. */
  predicate Exceeds(x: Option<real>, m: Option<real>) {
    x.Some? && m.Some? && x.value > m.value
  }

  /** Python's built-in `max` over a float array: the first element, replaced by each later
      element that compares greater. A NaN never replaces, and a NaN first element is kept. */
  function PyMax(hs: seq<Option<real>>): (r: Option<real>)
    requires |hs| > 0
    ensures r in hs
    ensures r.None? <==> hs[0].None?
    ensures r.Some? ==> forall i :: 0 <= i < |hs| && hs[i].Some? ==> hs[i].value <= r.value
  {
    if |hs| == 1 then hs[0]
    else
      var m := PyMax(hs[..|hs| - 1]);
      if Exceeds(hs[|hs| - 1], m) then hs[|hs| - 1] else m
  }

  /** On heights sorted largest first (NaN last), Python's `max` returns the first height. */
  lemma {:induction false} PyMaxOfSorted(hs: seq<Option<real>>)
    requires |hs| > 0
    requires forall i :: 0 <= i < |hs| ==> Precedes(Descending, hs[0], hs[i])
    ensures PyMax(hs) == hs[0]
    decreases |hs|
  {
    if |hs| > 1 {
      PyMaxOfSorted(hs[..|hs| - 1]);
    }
  }

  /** `ax_sub.set_ylim(0, max_h * 1.25)`; `None` when `max_h` is NaN, which matplotlib rejects. */
  function PanelTop(rows: seq<ChartRow>): (top: Option<real>)
    requires |rows| > 0
    ensures top.None? <==> BarHeight(rows[0]).None?
    ensures top.Some? ==> forall j :: 0 <= j < |rows| && BarHeight(rows[j]).Some? ==>
                            HEADROOM * BarHeight(rows[j]).value <= top.value
  {
    match PyMax(MapSeq(rows, BarHeight))
    case None => None
    case Some(h) => Some(HEADROOM * h)
  }

  /** The y-axis top is missing exactly when the first bar is NaN; otherwise it is 1.25 times
      the tallest bar, so every non-negative bar fits under it. */
  lemma PanelTopBounds(rows: seq<ChartRow>)
    requires |rows| > 0
    ensures PanelTop(rows).None? <==> BarHeight(rows[0]).None?
    ensures PanelTop(rows).Some? ==>
              exists i :: 0 <= i < |rows| && BarHeight(rows[i]).Some?
                          && PanelTop(rows).value == HEADROOM * BarHeight(rows[i]).value
                          && forall j :: 0 <= j < |rows| && BarHeight(rows[j]).Some? ==>
                               BarHeight(rows[j]).value <= BarHeight(rows[i]).value
    ensures PanelTop(rows).Some? ==>
              forall j :: 0 <= j < |rows| && BarHeight(rows[j]).Some? && BarHeight(rows[j]).value >= 0.0 ==>
                BarHeight(rows[j]).value <= PanelTop(rows).value
  {
    var hs := MapSeq(rows, BarHeight);
    if PyMax(hs).Some? {
      var i :| 0 <= i < |hs| && hs[i] == PyMax(hs);
    }
  }

  function RegionName(p: (string, Rect)): string { p.0 }

  function PanelRegion(p: Panel): string { p.region }

  function HasRows(table: seq<ChartRow>): string -> bool {
    (region: string) => |RegionRows(table, region)| > 0
  }

  /** The drawing loop over `positions`: a region with no rows is skipped, any other gets a
      panel, and a panel whose tallest bar is NaN aborts the figure. */
  function PanelsFor(table: seq<ChartRow>, positions: seq<(string, Rect)>): (r: Result<seq<Panel>>)
    ensures r.Ok? ==> |r.value| <= |positions|
    ensures r.Ok? ==> forall p :: p in r.value ==> 0 < |p.rows| <= TOP_N && p.rows == TopRows(table, p.region)
  {
    if |positions| == 0 then Ok([])
    else
      var region := positions[0].0;
      var rows := TopRows(table, region);
      var later := PanelsFor(table, positions[1..]);
      if |rows| == 0 then later
      else
        match PanelTop(rows)
        case None => Err("axis limits cannot be NaN")
        case Some(top) =>
          match later
          case Err(e) => Err(e)
          case Ok(ps) => Ok([Panel(region, positions[0].1, rows, top)] + ps)
  }

  /** Regions are visited in placement-table order and a region gets a panel exactly when it
      has rows: the panel regions are the table's regions with data, in table order. */
  lemma {:induction false} PanelsFollowTableOrder(table: seq<ChartRow>, positions: seq<(string, Rect)>)
    requires PanelsFor(table, positions).Ok?
    ensures MapSeq(PanelsFor(table, positions).value, PanelRegion)
            == Filter(MapSeq(positions, RegionName), HasRows(table))
    decreases |positions|
  {
    if |positions| > 0 {
      var region := positions[0].0;
      var rows := TopRows(table, region);
      var has := HasRows(table);
      MapCons(positions, RegionName);
      FilterCons(MapSeq(positions, RegionName), has);
      PanelsFollowTableOrder(table, positions[1..]);
      if |rows| > 0 {
        var ps := PanelsFor(table, positions[1..]).value;
        MapCons([Panel(region, positions[0].1, rows, PanelTop(rows).value)] + ps, PanelRegion);
      }
    }
  }

  /** Each panel sits at its region's rectangle, holds that region's top rows (one to five of
      them) and its y axis reaches 1.25 times its tallest bar. */
  lemma {:induction false} PanelsContent(table: seq<ChartRow>, positions: seq<(string, Rect)>)
    requires PanelsFor(table, positions).Ok?
    ensures forall p :: p in PanelsFor(table, positions).value ==>
              && (p.region, p.rect) in positions
              && p.rows == TopRows(table, p.region)
              && 0 < |p.rows| <= TOP_N
              && PanelTop(p.rows) == Some(p.yTop)
    decreases |positions|
  {
    if |positions| > 0 {
      PanelsContent(table, positions[1..]);
      assert forall q :: q in positions[1..] ==> q in positions;
    }
  }

  /** The figure fails exactly when some region with rows has a NaN tallest bar. */
  lemma {:induction false} PanelsFailOnNaN(table: seq<ChartRow>, positions: seq<(string, Rect)>)
    ensures PanelsFor(table, positions).Err? <==>
              exists i :: 0 <= i < |positions| && 0 < |TopRows(table, positions[i].0)|
                          && PanelTop(TopRows(table, positions[i].0)).None?
    decreases |positions|
  {
    if |positions| > 0 {
      PanelsFailOnNaN(table, positions[1..]);
      if PanelsFor(table, positions[1..]).Err? {
        var i :| 0 <= i < |positions[1..]| && 0 < |TopRows(table, positions[1..][i].0)|
                 && PanelTop(TopRows(table, positions[1..][i].0)).None?;
        assert positions[1..][i] == positions[i + 1];
      }
      if exists i :: 0 <= i < |positions| && 0 < |TopRows(table, positions[i].0)|
                     && PanelTop(TopRows(table, positions[i].0)).None? {
        var i :| 0 <= i < |positions| && 0 < |TopRows(table, positions[i].0)|
                 && PanelTop(TopRows(table, positions[i].0)).None?;
        if i > 0 {
          assert positions[1..][i - 1] == positions[i];
        }
      }
    }
  }

  /** The panels of the figure: one for each region of the placement table that has rows,
      in placement-table order. */
  function FigurePanels(table: seq<ChartRow>): (r: Result<seq<Panel>>)
    ensures r.Ok? ==> MapSeq(r.value, PanelRegion) == Filter(MapSeq(ChartPositions, RegionName), HasRows(table))
  {
    var r := PanelsFor(table, ChartPositions);
    assert r.Ok? ==> MapSeq(r.value, PanelRegion) == Filter(MapSeq(ChartPositions, RegionName), HasRows(table)) by {
      if r.Ok? {
        PanelsFollowTableOrder(table, ChartPositions);
      }
    }
    r
  }

  lemma TopRowsConsistent(table: seq<ChartRow>, region: string)
    requires Consistent(table)
    ensures Consistent(TopRows(table, region))
  {
    var top := TopRows(table, region);
    forall i | 0 <= i < |top|
      ensures top[i].StackedRow? ==> top[i].total == top[i].dist + top[i].util
    {
      assert top[i] in table;
    }
  }

  /** On consistent rows the bar heights are the sort keys. */
  lemma HeightsAreKeys(rows: seq<ChartRow>)
    requires Consistent(rows)
    ensures MapSeq(rows, BarHeight) == MapSeq(rows, SortKey)
  {
  }

  lemma TopRowsSorted(table: seq<ChartRow>, region: string)
    requires SortedBy(table, SortKey, Descending)
    ensures SortedBy(TopRows(table, region), SortKey, Descending)
  {
    var rows := RegionRows(table, region);
    FilterKeepsSorted(table, RegionIs(region), SortKey, Descending);
    SortedPrefix(rows, SortKey, Descending, |TopRows(table, region)|);
  }

  /** On consistent rows sorted largest first, the y-axis top is 1.25 times the first key. */
  lemma SortedPanelTop(rows: seq<ChartRow>)
    requires |rows| > 0
    requires Consistent(rows) && SortedBy(rows, SortKey, Descending)
    ensures PanelTop(rows) == if SortKey(rows[0]).None? then None else Some(HEADROOM * SortKey(rows[0]).value)
  {
    HeightsAreKeys(rows);
    var hs := MapSeq(rows, SortKey);
    assert forall i :: 0 <= i < |hs| ==> Precedes(Descending, hs[0], hs[i]);
    PyMaxOfSorted(hs);
  }

  /** On a consistent table sorted largest first, a region's y-axis top is 1.25 times the
      key of the region's first row, and is missing exactly when that key is. */
  lemma PanelTopIsFirstKey(table: seq<ChartRow>, region: string)
    requires SortedBy(table, SortKey, Descending) && Consistent(table)
    requires |RegionRows(table, region)| > 0
    ensures var first := SortKey(RegionRows(table, region)[0]);
            PanelTop(TopRows(table, region)) == if first.None? then None else Some(HEADROOM * first.value)
  {
    TopRowsConsistent(table, region);
    TopRowsSorted(table, region);
    SortedPanelTop(TopRows(table, region));
  }

  /** The key of a region's first row is the region's largest key (NaN only if all are). */
  lemma RegionFirstIsMax(table: seq<ChartRow>, region: string)
    requires SortedBy(table, SortKey, Descending)
    requires |RegionRows(table, region)| > 0
    ensures forall x :: x in RegionRows(table, region) ==>
              Precedes(Descending, SortKey(RegionRows(table, region)[0]), SortKey(x))
  {
    var rows := RegionRows(table, region);
    FilterKeepsSorted(table, RegionIs(region), SortKey, Descending);
    forall x | x in rows
      ensures Precedes(Descending, SortKey(rows[0]), SortKey(x))
    {
      SortedHeadLeads(rows, SortKey, Descending, x);
    }
  }

  /** Two sorted permutations of one table agree on the key heading each region. */
  lemma RegionHeadsAgree(t1: seq<ChartRow>, t2: seq<ChartRow>, region: string)
    requires SortedBy(t1, SortKey, Descending) && SortedBy(t2, SortKey, Descending)
    requires multiset(t1) == multiset(t2)
    requires |RegionRows(t1, region)| > 0
    ensures |RegionRows(t2, region)| > 0
    ensures SortKey(RegionRows(t1, region)[0]) == SortKey(RegionRows(t2, region)[0])
  {
    var r1 := RegionRows(t1, region);
    var r2 := RegionRows(t2, region);
    FilterRespectsPermutation(t1, t2, RegionIs(region));
    assert |multiset(r2)| == |multiset(r1)|;
    FilterKeepsSorted(t1, RegionIs(region), SortKey, Descending);
    FilterKeepsSorted(t2, RegionIs(region), SortKey, Descending);
    SortedHeadKeyUnique(r1, r2, SortKey, Descending);
  }

  /** Whichever order pandas leaves tied rows in, every region's y-axis top is the same:
      two sorted permutations of one consistent table give equal panel tops. */
  lemma PanelTopIgnoresTies(t1: seq<ChartRow>, t2: seq<ChartRow>, region: string)
    requires SortedBy(t1, SortKey, Descending) && SortedBy(t2, SortKey, Descending)
    requires Consistent(t1) && Consistent(t2)
    requires multiset(t1) == multiset(t2)
    requires |RegionRows(t1, region)| > 0
    ensures |RegionRows(t2, region)| > 0
    ensures PanelTop(TopRows(t1, region)) == PanelTop(TopRows(t2, region))
  {
    RegionHeadsAgree(t1, t2, region);
    PanelTopIsFirstKey(t1, region);
    PanelTopIsFirstKey(t2, region);
  }
}
