# PVplotHub figure pipelines in Dafny

PVplotHub draws two figures of global photovoltaic (PV) capacity.

- **Fig1 (`draw_map_bar.py`).** A Robinson-projected world map with a hex-binned PV layer. Small bar-chart panels sit over it, one per world region. Each panel shows the five nations with the most capacity, as single bars or as stacked utility-scale and distributed bars.
- **Fig2 (`drawmap.py`, `drawmapV2.py`).** A world map whose grid cells are coloured by solar irradiance class, with a scatter layer of PV cells on top.
- **Per-country plots (`drawnation.py`).** For nine countries, capacity is plotted against irradiance.

The drawing is done by library calls. This project models the data shaping the scripts write themselves, as pure functions over sequences of records:

- loading, joining and sorting the capacity table;
- choosing the top rows per region and scaling each panel's axis;
- resolving the value column and filtering the map layer;
- the irradiance breakpoints, colours and legend;
- coercing and rescaling attributes;
- the scatter filter, the sampling cap and marker sizes;
- the clip windows and the clip-then-project order;
- the per-country column resolution, sorting and file naming.

Modelling conventions:

- Floats are `real` and a NaN or empty cell is `None`.
- The pandas sort (`sort_values`, unstable, missing values last) is specified only as "sorted, and a permutation of its input". `Ordering.Sort` is one admissible outcome.
- `sample(n, random_state=42)` becomes a boolean mask parameter. It stands for the random choice.
- An error raised by `make_interp_spline` ends `drawnation.py`'s country loop: the plots saved before it stay, and no later country is drawn. `NationPlots.PlotsFor` records which country raised.
- Which side of a breakpoint a tie falls on is decided by the classification library. The classifier therefore takes a `Boundary` parameter, and every property about it is proved for both conventions.

Modules, one per file:

- `Wrappers`: `Option` and `Result`.
- `Sequences`: map, filter, first match, masks.
- `Ordering`: the sort.
- `Text`: ASCII lower, title and strip.
- `ChartData`: `load_chart_data`.
- `Panels`: the bar-chart loop of Fig1.
- `Records`: attribute cells and coercion.
- `SolarLayer`: Fig1 field resolution and the positive filter.
- `SolarCells`: Fig2 preprocessing.
- `Classes`: breakpoints, classifier and legend.
- `Scatter`: the scatter layer.
- `Windows`: clip windows and step order.
- `NationPlots`: `drawnation.py`.

Two behaviours of the scripts matter for the model:

- **Tie order.** The top-five selection inherits pandas' default sort, which is not stable. The model therefore does not promise that tied rows keep their original order. Instead, `Panels.PanelTopIgnoresTies` proves that the panel's axis top is the same whichever order tied rows end up in.
- **Fig1 clip window.** The clip window of Fig1 is `box(-180, -58, 180, 90)`. It reaches the ±180° meridian instead of staying strictly inside it, and Fig1's PV layer is projected without any clip. `Windows.Fig1LayersReachSeam` exhibits both. The two Fig2 scripts clip strictly inside the meridian before projecting (`Windows.Fig2LayersAvoidSeam`).

## Model

| member | source | states |
|---|---|---|
| ChartData.Normalise | Fig1/draw_map_bar.py:74 | each sheet row keeps its region and value, and its nation name is title-cased |
| ChartData.NormaliseIdempotent | Fig1/draw_map_bar.py:74 | title-casing the nation names twice is the same as doing it once |
| Text.TitleIdempotent | Fig1/draw_map_bar.py:74 | `str.title` is idempotent on ASCII text |
| Text.TitleIgnoresCase | Fig1/draw_map_bar.py:74 | "BRAZIL", "brazil" and "Brazil" title-case to the same name: the result depends only on the letters, not on their case |
| ChartData.OuterJoin | Fig1/draw_map_bar.py:78-80 | the merged rows are exactly these: each matching pair of distributed and utility rows; each distributed row with no utility partner (utility side 0); each utility row with no distributed partner (distributed side 0) |
| ChartData.OuterJoinCount | Fig1/draw_map_bar.py:78 | a key gets nd × nu merged rows when both sheets carry it (nd, nu rows each), and otherwise as many rows as the one sheet that carries it has |
| ChartData.OuterJoinOneRowPerKey | Fig1/draw_map_bar.py:78 | when neither sheet repeats a key, the merge has exactly one row for each key of either sheet and none for any other key |
| ChartData.OuterJoinTotals | Fig1/draw_map_bar.py:80 | every merged row is stacked and its total is distributed + utility |
| ChartData.OuterJoinKeys | Fig1/draw_map_bar.py:78 | every (Nation, Region) key of either sheet appears in the merge, and no other key does |
| ChartData.OuterJoinFillsMissingSide | Fig1/draw_map_bar.py:78-79 | a side with no row for the key contributes 0; a side with a row contributes that row's value, with an empty cell read as 0 |
| ChartData.LoadChartData | Fig1/draw_map_bar.py:66-88 | the stacked flag holds exactly in total mode; the table is sorted largest first with missing values last; it is a permutation of the merge (total mode), of the distributed sheet (distributed mode) or of the utility sheet (any other mode) |
| ChartData.LoadChartDataShape | Fig1/draw_map_bar.py:76-88 | all rows are stacked iff the mode is total; stacked totals equal their two sides; in total mode every key of either sheet has a row |
| ChartData.LoadChartDataRows | Fig1/draw_map_bar.py:76-88 | every table row is stacked exactly in total mode, and each stacked total is distributed + utility |
| ChartData.LoadChartDataKeys | Fig1/draw_map_bar.py:76-82 | in total mode every (Nation, Region) key of either normalised sheet has a row in the table |
| Ordering.Sort | Fig1/draw_map_bar.py:81 | the result is a permutation of the input, sorted by the key in the given direction, with missing keys last |
| Ordering.SortedHeadKeyUnique | Fig1/draw_map_bar.py:81 | any two sorted permutations of one table have the same first key, so the unstable sort cannot change it |
| Panels.TopRows | Fig1/draw_map_bar.py:193 | a region's panel rows are the first min(5, n) rows of that region, in table order |
| Panels.TopRowsAreLargest | Fig1/draw_map_bar.py:193 | on a table sorted largest first, the panel rows are sorted, and no row of the region left out ranks above a row kept |
| Panels.PanelTop | Fig1/draw_map_bar.py:207-216 | the y-axis top is missing exactly when the first bar is NaN; otherwise 1.25 × every present bar height is at most it |
| Panels.PyMax | Fig1/draw_map_bar.py:207-211 | Python's `max`: the result is one of the heights, at least every present height, and NaN exactly when the first height is NaN |
| Panels.PanelTopBounds | Fig1/draw_map_bar.py:207-216 | the y-axis top is missing iff the first bar is NaN; otherwise it is 1.25 × the tallest bar and every non-negative bar fits below it |
| Panels.PanelsFor | Fig1/draw_map_bar.py:191-216 | the loop yields at most one panel per placement entry, and each panel holds 1 to 5 rows, its region's top rows |
| Panels.FigurePanels | Fig1/draw_map_bar.py:191-194 | the figure's panels belong, in placement-table order, to exactly the regions that have rows |
| Panels.PanelsFollowTableOrder | Fig1/draw_map_bar.py:191-194 | panels appear for exactly the regions that have rows, in placement-table order |
| Panels.PanelsContent | Fig1/draw_map_bar.py:191-216 | each panel sits at its region's rectangle, holds 1 to 5 of that region's top rows, and has y-axis top 1.25 × its tallest bar |
| Panels.PanelsFailOnNaN | Fig1/draw_map_bar.py:207-216 | the figure fails exactly when some region with rows has a NaN y-axis top |
| Panels.PanelTopIsFirstKey | Fig1/draw_map_bar.py:193-216 | on the loaded table, a region's y-axis top is 1.25 × the key of its first row, which is the region's largest key (`Panels.RegionFirstIsMax`) |
| Panels.RegionFirstIsMax | Fig1/draw_map_bar.py:193-211 | on a table sorted largest first, a region's first row has the region's largest key |
| Panels.PanelTopIgnoresTies | Fig1/draw_map_bar.py:193-216 | any two sorted orders of the same consistent table give every region the same y-axis top |
| Text.Title | Fig1/draw_map_bar.py:74 | `str.title` keeps the length; its idempotence and case-insensitivity are `Text.TitleIdempotent` and `Text.TitleIgnoresCase` |
| Text.LowerNormalises | Fig1/draw_map_bar.py:95 | lower-cased column names contain no upper-case letter, and lowering again changes nothing |
| SolarLayer.ResolveValueField | Fig1/draw_map_bar.py:98-105 | the value field is the first candidate, in preference order, that is a column; an error iff no candidate is a column |
| SolarLayer.UnknownModeFails | Fig1/draw_map_bar.py:103-105 | a display mode outside the field map always fails to resolve |
| SolarLayer.PositiveRows | Fig1/draw_map_bar.py:114 | an error iff the field is not a column or some row's value cell is text; otherwise each row occurs as often as in the layer when its value is a positive number, and not at all otherwise |
| SolarLayer.PositiveLayer | Fig1/draw_map_bar.py:95-114 | the whole frame's header is lower-cased; an error iff no candidate is among the lowered names or the resolved column holds text; otherwise the field is a candidate and a lowered column, and the rows are the positive ones with their multiplicities |
| SolarLayer.LayerIgnoresHeaderCase | Fig1/draw_map_bar.py:95 | a layer whose column names differ only in letter case gives the same binned layer |
| SolarLayer.MixedCaseHeaderKeepsRow | Fig1/draw_map_bar.py:95-114 | a header spelled "Total_Area" resolves to `total_area` in total mode and keeps the row with a positive value |
| Records.ColumnIndex | Fig2/drawmapV2.py:36-38 | a column is found exactly when its name is in the header, at a position holding that name; any other name is a `KeyError` |
| Records.Rescaled | Fig2/drawmapV2.py:36-38 | a non-numeric cell becomes missing instead of raising; a number is multiplied by the factor |
| Records.RescaledInvertible | Fig2/drawmapV2.py:36-38 | dividing the rescaled value by the factor recovers the raw number |
| SolarCells.Locate | Fig2/drawmapV2.py:36-38 | an error (`KeyError`) iff one of the four columns is not in the header; otherwise each located index holds its column's name |
| SolarCells.PreprocessRow | Fig2/drawmapV2.py:36-38 | irradiance is missing iff its cell is not a number, else raw × 12 / 1e6; each of the three areas is missing iff its cell is not a number, else raw × 0.2 / 1e6 |
| SolarCells.Preprocess | Fig2/drawmap.py:42-44 | an error iff one of the four columns is missing; otherwise the layer is converted row by row, keeping its length and order |
| SolarCells.PreprocessInjective | Fig2/drawmapV2.py:36-38 | cells whose four raw attributes are numeric and differ stay different after preprocessing |
| Classes.ConstantsAgree | Fig2/drawmap.py:50-65 | the nine breakpoints strictly increase, and there are ten colours and ten labels, one per class |
| Classes.ClassIndex | Fig2/drawmapV2.py:41 | a value's class index is at most the number of breakpoints, so one of ten classes; `Classes.ClassIndexInClass` shows the value lies in that class |
| Classes.ClassIndexInClass | Fig2/drawmapV2.py:41 | with increasing breakpoints every value lies in the interval its class index names, under either boundary convention |
| Classes.InClassUnique | Fig2/drawmapV2.py:41 | the intervals do not overlap: a value lies in at most one class |
| Classes.ClassIndexMonotone | Fig2/drawmapV2.py:71-72 | a larger value never falls into a lower class |
| Classes.ClassIndexExtremes | Fig2/drawmapV2.py:41 | values below the first breakpoint are in class 0; values above the last are in the top class |
| Classes.Classify | Fig2/drawmapV2.py:71-72 | binary search over the breakpoints returns the value's class |
| Classes.ColourOf | Fig2/drawmapV2.py:41-79 | the colour a value is given is one of the ten colours |
| Classes.LabelsNameTheirClasses | Fig2/drawmapV2.py:41-57 | label c spells out class c's interval from the breakpoints: "<2500", "a-b", ">8000" |
| Classes.LegendHandles | Fig2/drawmapV2.py:103-106 | one patch per colour, patch i pairing colour i with label i; an index error iff there are fewer labels than colours |
| Classes.LegendIsComplete | Fig2/drawmapV2.py:103-106 | the legend built from the constants has ten patches, in class order |
| Classes.LegendDescribesValue | Fig2/drawmapV2.py:103-106 | for every irradiance value, the legend patch of its class shows colour i for class i (the painted colour when all ten classes occur in the layer) and a label naming the interval that contains the value |
| Scatter.ScatterPoints | Fig2/drawmapV2.py:83-84 | the points are exactly the cells with a present total area above the threshold; each qualifying cell occurs as often as in the layer, any other not at all |
| Scatter.Cap | Fig2/drawmapV2.py:88-89 | the result has min(n, limit) points, all drawn from the input; at or below the limit it is the input unchanged |
| Scatter.DrawnPointsQualify | Fig2/drawmapV2.py:83-89 | sampling never brings in a point the area filter rejected |
| Scatter.V2ScatterLayer | Fig2/drawmapV2.py:83-89 | at most 40000 points, each a cell with total area > 1e-4; when at most 40000 qualify, all of them are drawn |
| Scatter.ScatterLayer | Fig2/drawmap.py:108-142 | at most 50000 points, each a cell with total area > 1e-3; when at most 50000 qualify, all of them are drawn |
| Scatter.StricterThresholdKeepsFewer | Fig2/drawmap.py:110 | every point of the 1e-3 filter also passes the 1e-4 filter |
| Scatter.Largest | Fig2/drawmap.py:115 | `max()` of a non-empty column is one of its values and at least all of them |
| Scatter.ScatterPointsHaveArea | Fig2/drawmap.py:109-110 | every point that gets a marker size has a positive total area |
| Scatter.MarkerSizes | Fig2/drawmap.py:115-117 | one size per point, each in (0.5, 1.5] |
| Scatter.MarkerSizesBounds | Fig2/drawmap.py:114-117 | each size area/max + 0.5 lies in (0.5, 1.5]; sizes follow the order of the areas; a size is 1.5 exactly at the largest area |
| Windows.WindowConstants | Fig2/drawmap.py:33 | the Fig2 windows have west < east, south < north and longitudes strictly inside (-180, 180); the Fig1 window is a proper box that reaches ±180 |
| Windows.ClipPoints | Fig2/drawmap.py:36-37 | clipping keeps exactly the vertices inside the closed window |
| Windows.PointsAtProjection | Fig2/drawmap.py:36-37 | the projection receives a subset of the layer: only clips come before it |
| Windows.ClipFirstAvoidsSeam | Fig2/drawmap.py:36-37 | if the first step clips to a window strictly inside the meridian, no vertex on or beyond ±180° reaches the projection |
| Windows.Fig2LayersAvoidSeam | Fig2/drawmapV2.py:31-33 | the world and solar layers of both Fig2 scripts are clipped before projection, so no seam vertex is projected |
| Windows.Fig1LayersReachSeam | Fig1/draw_map_bar.py:110-115 | in Fig1 a vertex on the 180° meridian reaches the projection in both the world and the PV layer |
| Text.Strip | Fig2/drawnation.py:38 | the result is a contiguous part of the input, only whitespace is removed before and after it, and neither of its ends is whitespace |
| Text.StripIdempotent | Fig2/drawnation.py:38 | stripping the headers a second time changes nothing |
| NationPlots.Header | Fig2/drawnation.py:38 | one header name per column, none starting or ending with whitespace |
| NationPlots.HeaderNames | Fig2/drawnation.py:38 | header name i is column i's name with its surrounding whitespace stripped |
| NationPlots.ExportDistributionPlots | Fig2/drawnation.py:38-45 | nothing is processed exactly when no stripped header is the irradiance column |
| NationPlots.XIsSortedIrradiance | Fig2/drawnation.py:44-45 | x is the irradiance column reordered to be non-decreasing, with missing values last |
| NationPlots.SortKeepsRowsTogether | Fig2/drawnation.py:44-63 | after sorting, the i-th x value and the i-th value of any column come from the same original row |
| NationPlots.ResolveColumn | Fig2/drawnation.py:49-50 | the resolved column is the first one, in column order, whose name contains both the country and the kind; none iff no name contains both |
| NationPlots.MaskedX | Fig2/drawnation.py:66-69 | `x[mask]` has one irradiance value per present capacity value, each taken from x |
| NationPlots.MaskedXIsKeep | Fig2/drawnation.py:66-69 | `x[mask]` is x kept exactly at the rows where the capacity is present |
| Sequences.KeepAt | Fig2/drawnation.py:66-69 | a kept element i appears in the masked sequence at the position given by the number of kept elements before it |
| Sequences.KeepCovers | Fig2/drawnation.py:66-69 | every position of the masked sequence holds a kept element, so nothing else is there |
| Sequences.RankOfGrows | Fig2/drawnation.py:66-69 | a kept element comes before every later one, so the masked sequence keeps row order |

| NationPlots.MakeSeries | Fig2/drawnation.py:63-69 | an error iff the series has more than three present values and the spline rejects their irradiance values (a NaN or a repeat); otherwise it is drawn exactly when it has more than three present values |
| NationPlots.PlotOf | Fig2/drawnation.py:49-69 | no plot iff either column is missing; an error iff both resolve and the spline raises on either series; otherwise the plot is the country's |
| NationPlots.PlotsFor | Fig2/drawnation.py:47-54 | the loop stops, if at all, at one of the listed countries |
| NationPlots.PlotsFollowCountryOrder | Fig2/drawnation.py:47-69 | the loop runs up to the first country whose spline raises (or to the end), that country's plot is the error, and the countries plotted are exactly the resolvable ones before it, in list order |
| NationPlots.PlotsContent | Fig2/drawnation.py:47-93 | each plot uses the country's first matching columns and reads y from the sorted rows; a series is drawn iff it has more than 3 values; the file name is the country's |
| NationPlots.DrawnIgnoresSorting | Fig2/drawnation.py:63-67 | sorting the rows does not change how many values a column has, so it does not change which series are drawn |
| NationPlots.AcceptedIrradianceNeverAborts | Fig2/drawnation.py:47-69 | when the whole sorted x is finite and strictly increasing, no spline raises and every resolvable country is plotted, in list order |
| NationPlots.DistinctIrradianceExportsAll | Fig2/drawnation.py:38-69 | a sheet whose irradiance values are all present and pairwise different exports a plot for every resolvable country of the list |
| NationPlots.RepeatedIrradianceRaises | Fig2/drawnation.py:67-69 | irradiance 3000, 3000, 4000, 5000 under four present capacities passes the size test and then makes the spline raise |
| NationPlots.FileName | Fig2/drawnation.py:93 | the file name is the country followed by "_distribution.pdf" |
| NationPlots.FileNamesDistinct | Fig2/drawnation.py:93 | different countries get different file names |
| NationPlots.RunFileNamesDistinct | Fig2/drawnation.py:47-95 | a loop over a list without repeated countries saves files with pairwise different names |
| NationPlots.ExportFileNamesDistinct | Fig2/drawnation.py:22-95 | no two files of one export share a name, so no plot overwrites another |
| NationPlots.ClampNonNegative | Fig2/drawnation.py:70 | each clamped value is ≥ 0 and ≥ the input, and is either the input or 0 |
| NationPlots.ClampIdempotent | Fig2/drawnation.py:70 | clamping a clamped curve changes nothing |

## Left out

- File and spreadsheet loading, PDF output, directory creation and console messages are I/O. Sheets and layers are parameters, and the scripts' outputs are returned as values.
- Header normalisation in `load_chart_data` (`strip().capitalize()`) is not modelled. The loader is taken to deliver the Nation, Region and Value fields directly.
- `Text.Title`, `Text.Lower` and `Text.Strip` handle ASCII letters and ASCII whitespace only: space, \t, \n, \v, \f, \r and the separators \x1c-\x1f. Python's Unicode case mapping and whitespace set are wider.
- Layer cells hold a number, an empty cell or text (`Records.Words`). Parsing numeric strings is left to the loader. In `drawnation.py` a column is taken to hold only numbers or NaN.
- Duplicate column labels are not modelled. In the map scripts `gdf[name]` would return a frame instead of a column, and in `drawnation.py` two headers that strip to "光照" make `sort_values(by='光照')` raise `ValueError`. The model uses the first matching column instead (`Records.ColumnIndex`, `NationPlots.ExportDistributionPlots`).
- Projection, polygon clipping and centroids are library geometry on floats. Only the window constants are modelled, plus which vertices a closed box keeps and the order of the clip and projection steps.
- Fig1's hex binning, log colour scale and percentile bounds are left out, because they are numeric library internals. So are the optional projected map outline (switched off by a constant) and all styling.
- The `sort_values` calls (three in `load_chart_data`, one in `drawnation.py`) and the merge are specified up to the order of tied rows and the merge's output order, because pandas' default sort is not stable.
- NationPlots.ExportDistributionPlots: sorts with `Ordering.Sort`, one admissible order. Which countries are plotted, where the loop stops and which series are drawn do not depend on how tied rows are ordered. They depend only on the present counts and on whether the masked x values are all present and pairwise different. This independence is not proved; the y series of a plot may list tied rows in another order.
- `Classes.ColourOf` states only that a value's colour is one of the ten. The library maps class indices onto the colour list through a normalisation of the classes that actually occur. The model takes all ten classes to be present.
- Classes.LegendDescribesValue: patch i shows colour i, and that is the painted colour only when all ten classes occur in the layer. When some class is absent the library spreads the colour list over the classes present, and the model does not say which colour a value then gets.
- The automatic legend of `drawmap.py` is left out; only the manual legend of `drawmapV2.py` is modelled.
- `Scatter.Cap` does not say which points `sample` picks or in what order, because that is the random choice. Only the size and subset bounds are stated.
- `drawmap.py` computes the marker sizes but never passes them to the plot call. They are modelled as computed.
- `NationPlots.ClampNonNegative` is stated over the smoothed curve. Spline smoothing, the 300-point resampling grid and the gradient fills are float library numerics and are left out.
- Of `make_interp_spline` only the condition under which it raises is modelled: an x value that is NaN or not strictly greater than the one before. Its other checks cannot fail here, since more than three points always reach it with k = 3.
- Float rounding is not modelled; all arithmetic is exact over the reals.
