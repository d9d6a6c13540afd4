/** Fig2: the per-country distribution plots — irradiance on x, centralized and distributed
    capacity on y, one PDF per country that has both columns. */
module NationPlots {
  import opened Wrappers
  import opened Sequences
  import opened Ordering
  import Text

  /** The x column. */
  const IRRADIANCE := "光照"
  /** `COUNTRIES`, in processing order. */
  const Countries: seq<string> := ["China", "United States", "India", "Germany", "Japan", "Spain", "Australia", "Mexico", "Chile"]
  const COLOUR_CENTRAL := "#E63946"
  const COLOUR_DISTRIBUTED := "#1D3557"
  /** A series is smoothed only with more than this many present values. */
  const MIN_POINTS: nat := 3
  const FILE_SUFFIX := "_distribution.pdf"
  /** The kind words a capacity column name carries next to the country. */
  const CENTRALIZED := "集中式"
  const DISTRIBUTED := "分布式"

  /** One spreadsheet row: a value (or NaN) per column. */
  type Row = seq<Option<real>>

  datatype Sheet = Sheet(columns: seq<string>, rows: seq<Row>)

  /** The row's value in column `j`; a short row reads as missing there. */
  function CellAt(row: Row, j: nat): Option<real> {
    if j < |row| then row[j] else None
  }

  function CellOf(j: nat): Row -> Option<real> {
    (row: Row) => CellAt(row, j)
  }

  /** `df[columns[j]].values`. */
  function ColumnValues(rows: seq<Row>, j: nat): seq<Option<real>> {
    MapSeq(rows, CellOf(j))
  }

  /** `[str(c).strip() for c in df.columns]`. */
  function Header(sheet: Sheet): (r: seq<string>)
    ensures |r| == |sheet.columns|
    ensures forall i :: 0 <= i < |r| ==> Text.Stripped(r[i])
  {
    MapSeq(sheet.columns, Text.Strip)
  }

  /** Header name `i` is column `i`'s name with its surrounding whitespace removed, so a column
      written " 光照 " is found as the irradiance column. */
  lemma HeaderNames(sheet: Sheet, i: nat)
    requires i < |sheet.columns|
    ensures Header(sheet)[i] == Text.Strip(sheet.columns[i])
  {
  }

  function IsIrradiance(c: string): bool {
    c == IRRADIANCE
  }

  function Names(country: string, kind: string): string -> bool {
    (c: string) => IsInfix(country, c) && IsInfix(kind, c)
  }

  /** The first column, in column order, whose name contains both the country and the kind
      (either "国家 类别" or "类别 国家" matches). */
  function ResolveColumn(columns: seq<string>, country: string, kind: string): (r: Option<nat>)
    ensures r.Some? ==> r.value < |columns| && IsInfix(country, columns[r.value]) && IsInfix(kind, columns[r.value])
    ensures r.Some? ==> forall j :: 0 <= j < r.value ==> !(IsInfix(country, columns[j]) && IsInfix(kind, columns[j]))
    ensures r.None? <==> forall c :: c in columns ==> !(IsInfix(country, c) && IsInfix(kind, c))
  {
    FirstIndex(columns, Names(country, kind))
  }

  /** Both of the country's columns exist. */
  predicate Resolvable(columns: seq<string>, country: string) {
    ResolveColumn(columns, country, CENTRALIZED).Some?
    && ResolveColumn(columns, country, DISTRIBUTED).Some?
  }

  function ResolvableIn(columns: seq<string>): string -> bool {
    (country: string) => Resolvable(columns, country)
  }

  function IsPresent(v: Option<real>): bool {
    v.Some?
  }

  /** `len(x[~np.isnan(y)])`: how many rows have a value in the series. */
  function CountPresent(ys: seq<Option<real>>): nat {
    |Filter(ys, IsPresent)|
  }

  /** `x[mask]`: the irradiance of every row where the series has a value, in row order. */
  function MaskedX(xs: seq<Option<real>>, ys: seq<Option<real>>): (r: seq<Option<real>>)
    requires |xs| == |ys|
    ensures |r| == CountPresent(ys)
    ensures forall v :: v in r ==> v in xs
    decreases |xs|
  {
    if |xs| == 0 then []
    else
      FilterCons(ys, IsPresent);
      var tail := MaskedX(xs[1..], ys[1..]);
      assert forall v :: v in tail ==> v in xs by {
        forall v | v in tail ensures v in xs {
          assert v in xs[1..];
        }
      }
      if ys[0].Some? then [xs[0]] + tail else tail
  }

  lemma CountPresentCons(ys: seq<Option<real>>)
    requires |ys| > 0
    ensures CountPresent(ys) == (if ys[0].Some? then 1 else 0) + CountPresent(ys[1..])
  {
    FilterCons(ys, IsPresent);
  }

  lemma MaskedXCons(xs: seq<Option<real>>, ys: seq<Option<real>>)
    requires |xs| == |ys| && |xs| > 0
    ensures MaskedX(xs, ys) == (if ys[0].Some? then [xs[0]] else []) + MaskedX(xs[1..], ys[1..])
  {
  }

  /** `x[mask]` is `x` kept where the series has a value: by `Keep`'s contract and `KeepAt`,
      `KeepCovers` and `RankOfGrows`, the irradiance of exactly the present rows, in row order. */
  lemma {:induction false} MaskedXIsKeep(xs: seq<Option<real>>, ys: seq<Option<real>>)
    requires |xs| == |ys|
    ensures MaskedX(xs, ys) == Keep(xs, MapSeq(ys, IsPresent))
    decreases |xs|
  {
    if |xs| > 0 {
      MaskedXCons(xs, ys);
      MaskedXIsKeep(xs[1..], ys[1..]);
      assert MapSeq(ys, IsPresent)[1..] == MapSeq(ys[1..], IsPresent);
    }
  }

  /** What `make_interp_spline(x, y, k=3)` accepts for `x`: finite values (with the default
      `check_finite`, a NaN raises) in strictly increasing order (a repeated value raises). */
  predicate SplineAccepts(xs: seq<Option<real>>) {
    && (forall i :: 0 <= i < |xs| ==> xs[i].Some?)
    && (forall i, j :: 0 <= i < j < |xs| ==> xs[i].Some? && xs[j].Some? && xs[i].value < xs[j].value)
  }

  /** The series in column `j` passes the `len(x[mask]) > 3` test and the spline then raises. */
  predicate SplineRaises(rows: seq<Row>, k: nat, j: nat) {
    CountPresent(ColumnValues(rows, j)) > MIN_POINTS
    && !SplineAccepts(MaskedX(ColumnValues(rows, k), ColumnValues(rows, j)))
  }

  /** One capacity series of a country's plot. */
  datatype Series = Series(column: string, colour: string, legend: string, y: seq<Option<real>>, drawn: bool)

  /** The series in column `j` against the irradiance in column `k`: smoothed and drawn when
      it has more than three values, unless the spline raises on their irradiance values. */
  function MakeSeries(columns: seq<string>, rows: seq<Row>, k: nat, j: nat, colour: string, legend: string): (r: Result<Series>)
    requires j < |columns|
    ensures r.Err? <==> SplineRaises(rows, k, j)
    ensures r.Ok? ==> r.value.column == columns[j] && r.value.y == ColumnValues(rows, j)
    ensures r.Ok? ==> (r.value.drawn <==> CountPresent(r.value.y) > MIN_POINTS)
  {
    var ys := ColumnValues(rows, j);
    if CountPresent(ys) <= MIN_POINTS then
      Ok(Series(columns[j], colour, legend, ys, false))
    else if SplineAccepts(MaskedX(ColumnValues(rows, k), ys)) then
      Ok(Series(columns[j], colour, legend, ys, true))
    else
      Err("ValueError: make_interp_spline")
  }

  datatype CountryPlot = CountryPlot(country: string, centralized: Series, distributed: Series, fileName: string)

  function CountryOf(p: CountryPlot): string {
    p.country
  }

  /** `f"{country}_distribution.pdf"`. */
  function FileName(country: string): (name: string)
    ensures |name| == |country| + |FILE_SUFFIX|
    ensures name[..|country|] == country && name[|country|..] == FILE_SUFFIX
  {
    country + FILE_SUFFIX
  }

  /** The plot of one country: nothing when either of its columns is missing, an error when the
      spline raises on either series, the plot otherwise. */
  function PlotOf(country: string, columns: seq<string>, rows: seq<Row>, k: nat): (r: Result<Option<CountryPlot>>)
    ensures r == Ok(None) <==> !Resolvable(columns, country)
    ensures r.Err? <==> Resolvable(columns, country)
                        && (SplineRaises(rows, k, ResolveColumn(columns, country, CENTRALIZED).value)
                            || SplineRaises(rows, k, ResolveColumn(columns, country, DISTRIBUTED).value))
    ensures r.Ok? && r.value.Some? ==> r.value.value.country == country
  {
    match (ResolveColumn(columns, country, CENTRALIZED), ResolveColumn(columns, country, DISTRIBUTED))
    case (Some(c), Some(d)) =>
      (match MakeSeries(columns, rows, k, c, COLOUR_CENTRAL, "Centralized")
       case Err(e) => Err(e)
       case Ok(central) =>
         match MakeSeries(columns, rows, k, d, COLOUR_DISTRIBUTED, "Distributed")
         case Err(e) => Err(e)
         case Ok(distributed) => Ok(Some(CountryPlot(country, central, distributed, FileName(country)))))
    case _ => Ok(None)
  }

  /** The plots saved, and the position of the country whose spline raised, if one did. */
  datatype Run = Run(plots: seq<CountryPlot>, failed: Option<nat>)

  function Later(failed: Option<nat>): Option<nat> {
    match failed
    case None => None
    case Some(i) => Some(i + 1)
  }

  /** The loop over `countries`: a country that lacks either column is skipped, and a raise
      ends the loop, leaving the plots saved before it. */
  function PlotsFor(countries: seq<string>, columns: seq<string>, rows: seq<Row>, k: nat): (r: Run)
    ensures r.failed.Some? ==> r.failed.value < |countries|
    decreases |countries|
  {
    if |countries| == 0 then Run([], None)
    else
      match PlotOf(countries[0], columns, rows, k)
      case Err(_) => Run([], Some(0))
      case Ok(None) =>
        var rest := PlotsFor(countries[1..], columns, rows, k);
        Run(rest.plots, Later(rest.failed))
      case Ok(Some(p)) =>
        var rest := PlotsFor(countries[1..], columns, rows, k);
        Run([p] + rest.plots, Later(rest.failed))
  }

  /** What `export_distribution_plots` produces: nothing when the irradiance column is missing,
      otherwise the sorted rows, the x series and the run over the country list. */
  datatype Export = NoIrradiance | Exported(rows: seq<Row>, x: seq<Option<real>>, run: Run)

  /** The rows sorted by irradiance, ascending with missing values last, then the x series and
      the plots read from them. */
  function ExportDistributionPlots(sheet: Sheet): (r: Export)
    ensures r.NoIrradiance? <==> IRRADIANCE !in Header(sheet)
  {
    var columns := Header(sheet);
    match FirstIndex(columns, IsIrradiance)
    case None => NoIrradiance
    case Some(k) =>
      var rows := Sort(sheet.rows, CellOf(k), Ascending);
      Exported(rows, ColumnValues(rows, k), PlotsFor(Countries, columns, rows, k))
  }

  /** The index of the irradiance column, when there is one. */
  function IrradianceColumn(sheet: Sheet): Option<nat> {
    FirstIndex(Header(sheet), IsIrradiance)
  }

  function Identity(v: Option<real>): Option<real> {
    v
  }

  lemma MapKeepsSorted(rows: seq<Row>, k: nat)
    requires SortedBy(rows, CellOf(k), Ascending)
    ensures SortedBy(ColumnValues(rows, k), Identity, Ascending)
  {
    var xs := ColumnValues(rows, k);
    forall i, j | 0 <= i < j < |xs| ensures Precedes(Ascending, Identity(xs[i]), Identity(xs[j])) {
      assert xs[i] == CellOf(k)(rows[i]) && xs[j] == CellOf(k)(rows[j]);
    }
  }

  /** The x series is the irradiance column, reordered so that it does not decrease (missing
      values last). */
  lemma XIsSortedIrradiance(sheet: Sheet)
    requires IRRADIANCE in Header(sheet)
    ensures IrradianceColumn(sheet).Some?
    ensures SortedBy(ExportDistributionPlots(sheet).x, Identity, Ascending)
    ensures multiset(ExportDistributionPlots(sheet).x)
            == multiset(ColumnValues(sheet.rows, IrradianceColumn(sheet).value))
  {
    var k := IrradianceColumn(sheet).value;
    var rows := Sort(sheet.rows, CellOf(k), Ascending);
    MapKeepsSorted(rows, k);
    MapRespectsPermutation(rows, sheet.rows, CellOf(k));
  }

  lemma PermutedRowsTogether(rows: seq<Row>, sorted: seq<Row>, i: nat, k: nat, j: nat)
    requires multiset(sorted) == multiset(rows)
    requires i < |sorted|
    ensures exists row :: row in rows
              && CellAt(row, k) == ColumnValues(sorted, k)[i]
              && CellAt(row, j) == ColumnValues(sorted, j)[i]
  {
    assert sorted[i] in multiset(sorted);
    assert CellAt(sorted[i], k) == ColumnValues(sorted, k)[i];
  }

  /** Sorting moves whole rows: the i-th x value and the i-th value of any column come from the
      same original row. */
  lemma SortKeepsRowsTogether(sheet: Sheet, i: nat, j: nat)
    requires IRRADIANCE in Header(sheet)
    requires i < |sheet.rows|
    ensures IrradianceColumn(sheet).Some?
    ensures exists row :: row in sheet.rows
              && CellAt(row, IrradianceColumn(sheet).value) == ExportDistributionPlots(sheet).x[i]
              && CellAt(row, j) == ColumnValues(ExportDistributionPlots(sheet).rows, j)[i]
  {
    var k := IrradianceColumn(sheet).value;
    var sorted := Sort(sheet.rows, CellOf(k), Ascending);
    assert ExportDistributionPlots(sheet) == Exported(sorted, ColumnValues(sorted, k), PlotsFor(Countries, Header(sheet), sorted, k));
    PermutedRowsTogether(sheet.rows, sorted, i, k, j);
  }

  function Completes(columns: seq<string>, rows: seq<Row>, k: nat): string -> bool {
    (country: string) => PlotOf(country, columns, rows, k).Ok?
  }

  /** The loop visits the countries in list order until a spline raises: every country before
      the stopping point gives a plot or is skipped, the stopping country (if any) raised, and
      the plots saved are those of the resolvable countries before it, in list order. */
  lemma {:induction false} PlotsFollowCountryOrder(countries: seq<string>, columns: seq<string>, rows: seq<Row>, k: nat)
    ensures var r := PlotsFor(countries, columns, rows, k);
            var stop := if r.failed.Some? then r.failed.value else |countries|;
            && (forall i :: 0 <= i < stop ==> PlotOf(countries[i], columns, rows, k).Ok?)
            && (r.failed.Some? ==> PlotOf(countries[stop], columns, rows, k).Err?)
            && MapSeq(r.plots, CountryOf) == Filter(countries[..stop], ResolvableIn(columns))
    decreases |countries|
  {
    if |countries| == 0 {
      assert countries[..0] == [];
    } else {
      var rest := PlotsFor(countries[1..], columns, rows, k);
      PlotsFollowCountryOrder(countries[1..], columns, rows, k);
      var after := if rest.failed.Some? then rest.failed.value else |countries| - 1;
      match PlotOf(countries[0], columns, rows, k)
      case Err(_) =>
        assert countries[..0] == [];
        assert PlotsFor(countries, columns, rows, k) == Run([], Some(0));
      case Ok(o) =>
        var r := PlotsFor(countries, columns, rows, k);
        assert r == Run(if o.Some? then [o.value] + rest.plots else rest.plots, Later(rest.failed));
        assert (if r.failed.Some? then r.failed.value else |countries|) == after + 1;
        PrefixHolds(countries, Completes(columns, rows, k), after);
        if rest.failed.Some? {
          assert countries[after + 1] == countries[1..][after];
        }
        FilterPrefixStep(countries, ResolvableIn(columns), after);
        assert ResolvableIn(columns)(countries[0]) <==> o.Some?;
        PlotsStep(o, rest.plots, countries[0]);
        assert forall i :: 0 <= i < after + 1 ==> PlotOf(countries[i], columns, rows, k).Ok?;
        assert r.failed.Some? ==> PlotOf(countries[after + 1], columns, rows, k).Err?;
        assert MapSeq(r.plots, CountryOf) == Filter(countries[..after + 1], ResolvableIn(columns));
    }
  }

  lemma PlotsStep(o: Option<CountryPlot>, rest: seq<CountryPlot>, country: string)
    requires o.Some? ==> o.value.country == country
    ensures MapSeq(if o.Some? then [o.value] + rest else rest, CountryOf)
            == (if o.Some? then [country] else []) + MapSeq(rest, CountryOf)
  {
    if o.Some? {
      MapCons([o.value] + rest, CountryOf);
      assert ([o.value] + rest)[1..] == rest;
    }
  }

  lemma PrefixHolds<T>(s: seq<T>, p: T -> bool, after: nat)
    requires after < |s|
    requires p(s[0])
    requires forall i :: 0 <= i < after ==> p(s[1..][i])
    ensures forall i :: 0 <= i < after + 1 ==> p(s[i])
  {
    forall i | 0 < i < after + 1
      ensures p(s[i])
    {
      assert s[i] == s[1..][i - 1];
    }
  }

  lemma FilterPrefixStep<T>(s: seq<T>, p: T -> bool, after: nat)
    requires after < |s|
    ensures Filter(s[..after + 1], p) == (if p(s[0]) then [s[0]] else []) + Filter(s[1..][..after], p)
  {
    assert s[..after + 1][1..] == s[1..][..after];
    FilterCons(s[..after + 1], p);
  }

  /** Each saved plot uses the country's first matching centralized and distributed columns,
      reads them from the given rows, draws a series exactly when it has more than three
      values, and is saved under the country's file name. */
  lemma {:induction false} PlotsContent(countries: seq<string>, columns: seq<string>, rows: seq<Row>, k: nat)
    ensures forall p :: p in PlotsFor(countries, columns, rows, k).plots ==>
              && p.country in countries
              && ResolveColumn(columns, p.country, CENTRALIZED).Some?
              && ResolveColumn(columns, p.country, DISTRIBUTED).Some?
              && p.centralized.column == columns[ResolveColumn(columns, p.country, CENTRALIZED).value]
              && p.distributed.column == columns[ResolveColumn(columns, p.country, DISTRIBUTED).value]
              && p.centralized.y == ColumnValues(rows, ResolveColumn(columns, p.country, CENTRALIZED).value)
              && p.distributed.y == ColumnValues(rows, ResolveColumn(columns, p.country, DISTRIBUTED).value)
              && (p.centralized.drawn <==> CountPresent(p.centralized.y) > MIN_POINTS)
              && (p.distributed.drawn <==> CountPresent(p.distributed.y) > MIN_POINTS)
              && p.fileName == FileName(p.country)
    decreases |countries|
  {
    if |countries| > 0 {
      PlotsContent(countries[1..], columns, rows, k);
      assert forall c :: c in countries[1..] ==> c in countries;
    }
  }

  /** Sorting does not change whether a series is drawn: the number of present values is the same
      in the sorted and the unsorted column. */
  lemma DrawnIgnoresSorting(sheet: Sheet, j: nat)
    requires IRRADIANCE in Header(sheet)
    ensures CountPresent(ColumnValues(ExportDistributionPlots(sheet).rows, j))
            == CountPresent(ColumnValues(sheet.rows, j))
  {
    var sorted := ExportDistributionPlots(sheet).rows;
    MapRespectsPermutation(sorted, sheet.rows, CellOf(j));
    FilterRespectsPermutation(ColumnValues(sorted, j), ColumnValues(sheet.rows, j), IsPresent);
    assert |multiset(Filter(ColumnValues(sorted, j), IsPresent))| == |multiset(Filter(ColumnValues(sheet.rows, j), IsPresent))|;
  }

  /** Selecting rows keeps an accepted x accepted: a subsequence of a strictly increasing,
      NaN-free series is one too. */
  lemma {:induction false} MaskedKeepsAccepted(xs: seq<Option<real>>, ys: seq<Option<real>>)
    requires |xs| == |ys|
    requires SplineAccepts(xs)
    ensures SplineAccepts(MaskedX(xs, ys))
    decreases |xs|
  {
    if |xs| > 0 {
      assert SplineAccepts(xs[1..]);
      MaskedKeepsAccepted(xs[1..], ys[1..]);
      var tail := MaskedX(xs[1..], ys[1..]);
      forall v | v in tail
        ensures v.Some? && xs[0].value < v.value
      {
        var m :| 0 <= m < |xs[1..]| && xs[1..][m] == v;
        assert v == xs[m + 1];
      }
    }
  }

  /** An ascending irradiance column without NaN and without repeats is what the spline accepts. */
  lemma SortedDistinctAccepted(xs: seq<Option<real>>)
    requires SortedBy(xs, Identity, Ascending)
    requires None !in xs
    requires Distinct(xs)
    ensures SplineAccepts(xs)
  {
    forall i, j | 0 <= i < j < |xs|
      ensures xs[i].Some? && xs[j].Some? && xs[i].value < xs[j].value
    {
      assert xs[i] in xs && xs[j] in xs;
      assert Precedes(Ascending, Identity(xs[i]), Identity(xs[j]));
    }
    forall i | 0 <= i < |xs| ensures xs[i].Some? {
      assert xs[i] in xs;
    }
  }

  /** With an accepted irradiance column the spline never raises, so the loop runs to the end
      of the country list and every resolvable country gets its plot. */
  lemma AcceptedIrradianceNeverAborts(countries: seq<string>, columns: seq<string>, rows: seq<Row>, k: nat)
    requires SplineAccepts(ColumnValues(rows, k))
    ensures PlotsFor(countries, columns, rows, k).failed.None?
    ensures MapSeq(PlotsFor(countries, columns, rows, k).plots, CountryOf) == Filter(countries, ResolvableIn(columns))
  {
    forall j: nat
      ensures !SplineRaises(rows, k, j)
    {
      MaskedKeepsAccepted(ColumnValues(rows, k), ColumnValues(rows, j));
    }
    PlotsFollowCountryOrder(countries, columns, rows, k);
    assert countries[..|countries|] == countries;
  }

  lemma ExportUnfolds(sheet: Sheet)
    requires IRRADIANCE in Header(sheet)
    ensures IrradianceColumn(sheet).Some?
    ensures var k := IrradianceColumn(sheet).value;
            var sorted := Sort(sheet.rows, CellOf(k), Ascending);
            ExportDistributionPlots(sheet) == Exported(sorted, ColumnValues(sorted, k), PlotsFor(Countries, Header(sheet), sorted, k))
  {
  }

  /** A present, repeat-free irradiance column becomes, once sorted, an x the spline accepts. */
  lemma SortedIrradianceAccepted(sheet: Sheet)
    requires IRRADIANCE in Header(sheet)
    requires None !in ColumnValues(sheet.rows, IrradianceColumn(sheet).value)
    requires Distinct(ColumnValues(sheet.rows, IrradianceColumn(sheet).value))
    ensures SplineAccepts(ExportDistributionPlots(sheet).x)
  {
    ExportUnfolds(sheet);
    var k := IrradianceColumn(sheet).value;
    var sorted := Sort(sheet.rows, CellOf(k), Ascending);
    var x := ColumnValues(sorted, k);
    MapKeepsSorted(sorted, k);
    MapRespectsPermutation(sorted, sheet.rows, CellOf(k));
    assert None !in multiset(x);
    DistinctPermutation(ColumnValues(sheet.rows, k), x);
    SortedDistinctAccepted(x);
  }

  /** The converse of the abort: when every irradiance value is present and no two rows share
      one, no spline raises, and every resolvable country of the list gets its plot. */
  lemma DistinctIrradianceExportsAll(sheet: Sheet)
    requires IRRADIANCE in Header(sheet)
    requires None !in ColumnValues(sheet.rows, IrradianceColumn(sheet).value)
    requires Distinct(ColumnValues(sheet.rows, IrradianceColumn(sheet).value))
    ensures ExportDistributionPlots(sheet).run.failed.None?
    ensures MapSeq(ExportDistributionPlots(sheet).run.plots, CountryOf) == Filter(Countries, ResolvableIn(Header(sheet)))
  {
    ExportUnfolds(sheet);
    SortedIrradianceAccepted(sheet);
    var k := IrradianceColumn(sheet).value;
    var sorted := Sort(sheet.rows, CellOf(k), Ascending);
    AcceptedIrradianceNeverAborts(Countries, Header(sheet), sorted, k);
  }

  lemma {:induction false} AllPresentCount(xs: seq<Option<real>>, ys: seq<Option<real>>)
    requires |xs| == |ys|
    requires None !in ys
    ensures MaskedX(xs, ys) == xs
    decreases |xs|
  {
    if |xs| > 0 {
      assert ys[0] in ys;
      AllPresentCount(xs[1..], ys[1..]);
      assert xs == [xs[0]] + xs[1..];
    }
  }

  /** 光照 = 3000, 3000, 4000, 5000 with four present capacities: the size test passes, the
      repeated irradiance makes the spline raise, and the series is an error. */
  lemma RepeatedIrradianceRaises()
    ensures MakeSeries(["光照", "China 集中式"],
                       [[Some(3000.0), Some(1.0)], [Some(3000.0), Some(2.0)],
                        [Some(4000.0), Some(3.0)], [Some(5000.0), Some(4.0)]],
                       0, 1, COLOUR_CENTRAL, "Centralized").Err?
  {
    var rows := [[Some(3000.0), Some(1.0)], [Some(3000.0), Some(2.0)],
                 [Some(4000.0), Some(3.0)], [Some(5000.0), Some(4.0)]];
    var ys := ColumnValues(rows, 1);
    var xs := ColumnValues(rows, 0);
    assert ys == [Some(1.0), Some(2.0), Some(3.0), Some(4.0)];
    assert xs[0] == xs[1];
    AllPresentCount(xs, ys);
    assert CountPresent(ys) == 4;
  }

  /** Different countries get different file names, so no plot overwrites another. */
  lemma FileNamesDistinct(a: string, b: string)
    requires a != b
    ensures FileName(a) != FileName(b)
  {
    if |a| == |b| {
      assert FileName(a)[..|a|] == a && FileName(b)[..|b|] == b;
    } else {
      assert |FileName(a)| != |FileName(b)|;
    }
  }

  lemma CountriesDistinct()
    ensures Distinct(Countries)
  {
  }

  /** The plots saved from a list without repeated countries have pairwise different file
      names. */
  lemma RunFileNamesDistinct(countries: seq<string>, columns: seq<string>, rows: seq<Row>, k: nat)
    requires Distinct(countries)
    ensures var plots := PlotsFor(countries, columns, rows, k).plots;
            forall i, j :: 0 <= i < j < |plots| ==> plots[i].fileName != plots[j].fileName
  {
    var r := PlotsFor(countries, columns, rows, k);
    var stop := if r.failed.Some? then r.failed.value else |countries|;
    PlotsFollowCountryOrder(countries, columns, rows, k);
    PlotsContent(countries, columns, rows, k);
    assert Distinct(countries[..stop]);
    FilterKeepsDistinct(countries[..stop], ResolvableIn(columns));
    var names := MapSeq(r.plots, CountryOf);
    forall i, j | 0 <= i < j < |r.plots|
      ensures r.plots[i].fileName != r.plots[j].fileName
    {
      assert names[i] != names[j];
      assert r.plots[i] in r.plots && r.plots[j] in r.plots;
      FileNamesDistinct(r.plots[i].country, r.plots[j].country);
    }
  }

  /** No two files of one export share a name: the nine countries are distinct. */
  lemma ExportFileNamesDistinct(sheet: Sheet)
    requires IRRADIANCE in Header(sheet)
    ensures var plots := ExportDistributionPlots(sheet).run.plots;
            forall i, j :: 0 <= i < j < |plots| ==> plots[i].fileName != plots[j].fileName
  {
    var k := IrradianceColumn(sheet).value;
    var sorted := Sort(sheet.rows, CellOf(k), Ascending);
    assert ExportDistributionPlots(sheet).run == PlotsFor(Countries, Header(sheet), sorted, k);
    CountriesDistinct();
    RunFileNamesDistinct(Countries, Header(sheet), sorted, k);
  }

  /** `np.maximum(y_smooth, 0)`: negative overshoots of the smoothed curve become zero. */
  function ClampNonNegative(ys: seq<real>): (r: seq<real>)
    ensures |r| == |ys|
    ensures forall i :: 0 <= i < |ys| ==> r[i] >= 0.0 && r[i] >= ys[i]
    ensures forall i :: 0 <= i < |ys| ==> (r[i] == ys[i] || r[i] == 0.0)
  {
    seq(|ys|, i requires 0 <= i < |ys| => if ys[i] < 0.0 then 0.0 else ys[i])
  }

  /** Clamping leaves a non-negative curve unchanged, and so clamping twice is clamping once. */
  lemma ClampKeepsNonNegative(ys: seq<real>)
    requires forall i :: 0 <= i < |ys| ==> ys[i] >= 0.0
    ensures ClampNonNegative(ys) == ys
  {
  }

  lemma ClampIdempotent(ys: seq<real>)
    ensures ClampNonNegative(ClampNonNegative(ys)) == ClampNonNegative(ys)
  {
    ClampKeepsNonNegative(ClampNonNegative(ys));
  }
}
