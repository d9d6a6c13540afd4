/** Fig1: the capacity table behind the per-region bar charts (`load_chart_data`).
    Two sheets, distributed and utility-scale capacity per (Nation, Region), are
    normalised and then, depending on the display mode, either outer-joined and
    summed (stacked bars) or used alone (single bars); the result is sorted by the
    mode's value, largest first. */
module ChartData {
  import opened Wrappers
  import opened Sequences
  import opened Ordering
  import Text

  /** The three display modes of the figure; any other string falls to the utility branch. */
  const TOTAL := "总量"
  const DISTRIBUTED := "分布式"
  const UTILITY := "集中式"

  /** One sheet row after header normalisation; `value` is `None` for an empty cell. */
  datatype SheetRow = SheetRow(nation: string, region: string, value: Option<real>)

  /** One row of the chart table: a sheet row in single mode, a joined row in total mode. */
  datatype ChartRow =
    | SingleRow(nation: string, region: string, value: Option<real>)
    | StackedRow(nation: string, region: string, dist: real, util: real, total: real)

  /** The value the table is sorted by: `Value`, or `Value_total` in total mode. */
  function SortKey(row: ChartRow): Option<real> {
    match row
    case SingleRow(_, _, v) => v
    case StackedRow(_, _, _, _, t) => Some(t)
  }

  /** Nation names are title-cased; regions and values are untouched. */
  function Normalise(sheet: seq<SheetRow>): (r: seq<SheetRow>)
    ensures |r| == |sheet|
    ensures forall i :: 0 <= i < |r| ==>
              r[i] == SheetRow(Text.Title(sheet[i].nation), sheet[i].region, sheet[i].value)
  {
    MapSeq(sheet, (row: SheetRow) => row.(nation := Text.Title(row.nation)))
  }

  /** Normalising a normalised sheet changes nothing. */
  lemma NormaliseIdempotent(sheet: seq<SheetRow>)
    ensures Normalise(Normalise(sheet)) == Normalise(sheet)
  {
    forall i | 0 <= i < |sheet|
      ensures Normalise(Normalise(sheet))[i] == Normalise(sheet)[i]
    {
      Text.TitleIdempotent(sheet[i].nation);
    }
  }

  /** `fillna(0)`. */
  function Fill(v: Option<real>): real {
    if v.Some? then v.value else 0.0
  }

  predicate SameKey(a: SheetRow, b: SheetRow) {
    a.nation == b.nation && a.region == b.region
  }

  /** Some row of `sheet` carries the key (nation, region). */
  predicate HasKey(sheet: seq<SheetRow>, nation: string, region: string) {
    exists x :: x in sheet && x.nation == nation && x.region == region
  }

  /** The sheet rows carrying the key (nation, region). */
  function KeyIs(nation: string, region: string): SheetRow -> bool {
    (x: SheetRow) => x.nation == nation && x.region == region
  }

  /** The merged rows carrying the key (nation, region). */
  function RowKeyIs(nation: string, region: string): ChartRow -> bool {
    (m: ChartRow) => m.nation == nation && m.region == region
  }

  /** How many rows of a sheet carry the key. */
  function KeyCount(sheet: seq<SheetRow>, nation: string, region: string): nat {
    |Filter(sheet, KeyIs(nation, region))|
  }

  /** How many rows of a table carry the key. */
  function RowCount(table: seq<ChartRow>, nation: string, region: string): nat {
    |Filter(table, RowKeyIs(nation, region))|
  }

  /** A merged row whose two sides were both present. */
  function Joined(d: SheetRow, u: SheetRow): ChartRow {
    StackedRow(d.nation, d.region, Fill(d.value), Fill(u.value), Fill(d.value) + Fill(u.value))
  }

  /** A merged row with no utility-scale partner. */
  function DistOnly(d: SheetRow): ChartRow {
    StackedRow(d.nation, d.region, Fill(d.value), 0.0, Fill(d.value) + 0.0)
  }

  /** A merged row with no distributed partner. */
  function UtilOnly(u: SheetRow): ChartRow {
    StackedRow(u.nation, u.region, 0.0, Fill(u.value), 0.0 + Fill(u.value))
  }

  /** Membership in an outer join: a pair of rows sharing a key, or a row of one sheet
      whose key the other sheet lacks. */
  ghost predicate InOuterJoin(m: ChartRow, dist: seq<SheetRow>, util: seq<SheetRow>) {
    || (exists d, u :: d in dist && u in util && SameKey(d, u) && m == Joined(d, u))
    || (exists d :: d in dist && !HasKey(util, d.nation, d.region) && m == DistOnly(d))
    || (exists u :: u in util && !HasKey(dist, u.nation, u.region) && m == UtilOnly(u))
  }

  /** The merged rows a single distributed row contributes. */
  function MatchRows(d: SheetRow, util: seq<SheetRow>): (r: seq<ChartRow>)
    ensures forall m :: m in r ==>
              (exists u :: u in util && SameKey(d, u) && m == Joined(d, u))
              || (!HasKey(util, d.nation, d.region) && m == DistOnly(d))
    ensures forall u :: u in util && SameKey(d, u) ==> Joined(d, u) in r
    ensures !HasKey(util, d.nation, d.region) ==> DistOnly(d) in r
    ensures |r| == if KeyCount(util, d.nation, d.region) == 0 then 1 else KeyCount(util, d.nation, d.region)
    ensures forall m :: m in r ==> m.nation == d.nation && m.region == d.region
  {
    var partners := Filter(util, KeyIs(d.nation, d.region));
    if |partners| == 0 then
      [DistOnly(d)]
    else
      var r := MapSeq(partners, (u: SheetRow) => Joined(d, u));
      assert HasKey(util, d.nation, d.region) by {
        assert partners[0] in util && SameKey(d, partners[0]);
      }
      forall m | m in r
        ensures exists u :: u in util && SameKey(d, u) && m == Joined(d, u)
      {
        MapMember(partners, (u: SheetRow) => Joined(d, u), m);
      }
      forall u | u in util && SameKey(d, u)
        ensures Joined(d, u) in r
      {
        assert u in partners;
        MapMember(partners, (u: SheetRow) => Joined(d, u), Joined(d, u));
      }
      r
  }

  /** The merged rows of every distributed row, in sheet order. */
  function JoinLeft(dist: seq<SheetRow>, util: seq<SheetRow>): (r: seq<ChartRow>)
    ensures forall m :: m in r ==>
              (exists d, u :: d in dist && u in util && SameKey(d, u) && m == Joined(d, u))
              || (exists d :: d in dist && !HasKey(util, d.nation, d.region) && m == DistOnly(d))
    ensures forall d, u :: d in dist && u in util && SameKey(d, u) ==> Joined(d, u) in r
    ensures forall d :: d in dist && !HasKey(util, d.nation, d.region) ==> DistOnly(d) in r
  {
    if |dist| == 0 then []
    else
      var head := MatchRows(dist[0], util);
      var tail := JoinLeft(dist[1..], util);
      forall m | m in head + tail
        ensures || (exists d, u :: d in dist && u in util && SameKey(d, u) && m == Joined(d, u))
                || (exists d :: d in dist && !HasKey(util, d.nation, d.region) && m == DistOnly(d))
      {
        if m in head {
          assert dist[0] in dist;
        } else {
          assert forall d :: d in dist[1..] ==> d in dist;
        }
      }
      forall d, u | d in dist && u in util && SameKey(d, u)
        ensures Joined(d, u) in head + tail
      {
        if d != dist[0] {
          assert d in dist[1..];
        }
      }
      forall d | d in dist && !HasKey(util, d.nation, d.region)
        ensures DistOnly(d) in head + tail
      {
        if d != dist[0] {
          assert d in dist[1..];
        }
      }
      head + tail
  }

  function Unmatched(dist: seq<SheetRow>): SheetRow -> bool {
    (u: SheetRow) => !HasKey(dist, u.nation, u.region)
  }

  /** The utility rows with no distributed partner. */
  function JoinRight(dist: seq<SheetRow>, util: seq<SheetRow>): (r: seq<ChartRow>)
    ensures forall m :: m in r ==>
              exists u :: u in util && !HasKey(dist, u.nation, u.region) && m == UtilOnly(u)
    ensures forall u :: u in util && !HasKey(dist, u.nation, u.region) ==> UtilOnly(u) in r
  {
    var lonely := Filter(util, Unmatched(dist));
    var r := MapSeq(lonely, UtilOnly);
    forall m | m in r
      ensures exists u :: u in util && !HasKey(dist, u.nation, u.region) && m == UtilOnly(u)
    {
      MapMember(lonely, UtilOnly, m);
    }
    forall u | u in util && !HasKey(dist, u.nation, u.region)
      ensures UtilOnly(u) in r
    {
      assert u in lonely;
      MapMember(lonely, UtilOnly, UtilOnly(u));
    }
    r
  }

  /** `pd.merge(dist, util, on=['Nation', 'Region'], how='outer')` followed by `fillna(0)`
      and `Value_total = Value_dist + Value_util`. The rows are exactly the outer-join rows. */
  function OuterJoin(dist: seq<SheetRow>, util: seq<SheetRow>): (r: seq<ChartRow>)
    ensures forall m :: m in r ==> InOuterJoin(m, dist, util)
    ensures forall m :: InOuterJoin(m, dist, util) ==> m in r
  {
    JoinLeft(dist, util) + JoinRight(dist, util)
  }

  /** Every merged row is stacked and its total is the sum of its two sides. */
  lemma OuterJoinTotals(dist: seq<SheetRow>, util: seq<SheetRow>)
    ensures forall m :: m in OuterJoin(dist, util) ==> m.StackedRow? && m.total == m.dist + m.util
  {
  }

  lemma DistKeysKept(dist: seq<SheetRow>, util: seq<SheetRow>, x: SheetRow)
    requires x in dist
    ensures exists m :: m in OuterJoin(dist, util) && m.nation == x.nation && m.region == x.region
  {
    if HasKey(util, x.nation, x.region) {
      var u :| u in util && u.nation == x.nation && u.region == x.region;
      assert InOuterJoin(Joined(x, u), dist, util);
    } else {
      assert InOuterJoin(DistOnly(x), dist, util);
    }
  }

  lemma UtilKeysKept(dist: seq<SheetRow>, util: seq<SheetRow>, x: SheetRow)
    requires x in util
    ensures exists m :: m in OuterJoin(dist, util) && m.nation == x.nation && m.region == x.region
  {
    if HasKey(dist, x.nation, x.region) {
      var d :| d in dist && d.nation == x.nation && d.region == x.region;
      assert InOuterJoin(Joined(d, x), dist, util);
    } else {
      assert InOuterJoin(UtilOnly(x), dist, util);
    }
  }

  /** Every (Nation, Region) key of either sheet appears in the merge, and no other key does. */
  lemma OuterJoinKeys(dist: seq<SheetRow>, util: seq<SheetRow>)
    ensures forall x :: x in dist ==>
              exists m :: m in OuterJoin(dist, util) && m.nation == x.nation && m.region == x.region
    ensures forall x :: x in util ==>
              exists m :: m in OuterJoin(dist, util) && m.nation == x.nation && m.region == x.region
    ensures forall m :: m in OuterJoin(dist, util) ==>
              HasKey(dist, m.nation, m.region) || HasKey(util, m.nation, m.region)
  {
    forall x | x in dist
      ensures exists m :: m in OuterJoin(dist, util) && m.nation == x.nation && m.region == x.region
    {
      DistKeysKept(dist, util, x);
    }
    forall x | x in util
      ensures exists m :: m in OuterJoin(dist, util) && m.nation == x.nation && m.region == x.region
    {
      UtilKeysKept(dist, util, x);
    }
  }

  /** What one outer-join row takes from each side. */
  lemma MergedRowSides(m: ChartRow, dist: seq<SheetRow>, util: seq<SheetRow>)
    requires InOuterJoin(m, dist, util)
    ensures m.StackedRow?
    ensures !HasKey(util, m.nation, m.region) ==> m.util == 0.0
    ensures !HasKey(dist, m.nation, m.region) ==> m.dist == 0.0
    ensures HasKey(dist, m.nation, m.region) ==>
              exists d :: d in dist && d.nation == m.nation && d.region == m.region && m.dist == Fill(d.value)
    ensures HasKey(util, m.nation, m.region) ==>
              exists u :: u in util && u.nation == m.nation && u.region == m.region && m.util == Fill(u.value)
  {
    if exists d, u :: d in dist && u in util && SameKey(d, u) && m == Joined(d, u) {
      var d, u :| d in dist && u in util && SameKey(d, u) && m == Joined(d, u);
      assert u.nation == m.nation && u.region == m.region;
    } else if exists d :: d in dist && !HasKey(util, d.nation, d.region) && m == DistOnly(d) {
      var d :| d in dist && !HasKey(util, d.nation, d.region) && m == DistOnly(d);
      assert d.nation == m.nation && d.region == m.region;
    } else {
      var u :| u in util && !HasKey(dist, u.nation, u.region) && m == UtilOnly(u);
      assert u.nation == m.nation && u.region == m.region;
    }
  }

  /** A side that has no row for a key contributes 0 to that key's merged rows; a side that
      has one contributes that row's value (0 for an empty cell). */
  lemma OuterJoinFillsMissingSide(dist: seq<SheetRow>, util: seq<SheetRow>, m: ChartRow)
    requires m in OuterJoin(dist, util)
    ensures !HasKey(util, m.nation, m.region) ==> m.util == 0.0
    ensures !HasKey(dist, m.nation, m.region) ==> m.dist == 0.0
    ensures HasKey(dist, m.nation, m.region) ==>
              exists d :: d in dist && d.nation == m.nation && d.region == m.region && m.dist == Fill(d.value)
    ensures HasKey(util, m.nation, m.region) ==>
              exists u :: u in util && u.nation == m.nation && u.region == m.region && m.util == Fill(u.value)
  {
    MergedRowSides(m, dist, util);
  }

  /** A sheet has the key exactly when it has at least one row carrying it. */
  lemma HasKeyCount(sheet: seq<SheetRow>, nation: string, region: string)
    ensures HasKey(sheet, nation, region) <==> KeyCount(sheet, nation, region) > 0
  {
    if HasKey(sheet, nation, region) {
      var x :| x in sheet && x.nation == nation && x.region == region;
      assert x in Filter(sheet, KeyIs(nation, region));
    } else if KeyCount(sheet, nation, region) > 0 {
      assert Filter(sheet, KeyIs(nation, region))[0] in Filter(sheet, KeyIs(nation, region));
    }
  }

  /** One distributed row yields, for its own key, one merged row per partner (one row when
      it has none), and nothing for any other key. */
  lemma MatchRowsCount(d: SheetRow, util: seq<SheetRow>, nation: string, region: string)
    ensures RowCount(MatchRows(d, util), nation, region)
            == if d.nation == nation && d.region == region
               then (if KeyCount(util, nation, region) == 0 then 1 else KeyCount(util, nation, region))
               else 0
  {
    var r := MatchRows(d, util);
    if d.nation == nation && d.region == region {
      FilterAll(r, RowKeyIs(nation, region));
    } else {
      FilterNone(r, RowKeyIs(nation, region));
    }
  }

  /** The left part of the join holds, per key, one row per (distributed, utility) pair, or
      one per distributed row when the utility sheet lacks the key. */
  lemma {:induction false} JoinLeftCount(dist: seq<SheetRow>, util: seq<SheetRow>, nation: string, region: string)
    ensures var nu := KeyCount(util, nation, region);
            RowCount(JoinLeft(dist, util), nation, region)
            == KeyCount(dist, nation, region) * (if nu == 0 then 1 else nu)
    decreases |dist|
  {
    if |dist| > 0 {
      var nu := KeyCount(util, nation, region);
      var m: nat := if nu == 0 then 1 else nu;
      var first: nat := if KeyIs(nation, region)(dist[0]) then 1 else 0;
      JoinLeftStep(dist, util, nation, region);
      KeyCountCons(dist, nation, region);
      MatchRowsCount(dist[0], util, nation, region);
      JoinLeftCount(dist[1..], util, nation, region);
      CountStep(RowCount(JoinLeft(dist, util), nation, region), RowCount(MatchRows(dist[0], util), nation, region),
                RowCount(JoinLeft(dist[1..], util), nation, region),
                KeyCount(dist, nation, region), first, KeyCount(dist[1..], nation, region), m);
    }
  }

  lemma JoinLeftStep(dist: seq<SheetRow>, util: seq<SheetRow>, nation: string, region: string)
    requires |dist| > 0
    ensures RowCount(JoinLeft(dist, util), nation, region)
            == RowCount(MatchRows(dist[0], util), nation, region) + RowCount(JoinLeft(dist[1..], util), nation, region)
  {
    JoinLeftCons(dist, util);
    FilterConcat(MatchRows(dist[0], util), JoinLeft(dist[1..], util), RowKeyIs(nation, region));
  }

  lemma KeyCountCons(sheet: seq<SheetRow>, nation: string, region: string)
    requires |sheet| > 0
    ensures KeyCount(sheet, nation, region)
            == (if KeyIs(nation, region)(sheet[0]) then 1 else 0) + KeyCount(sheet[1..], nation, region)
  {
    FilterCons(sheet, KeyIs(nation, region));
  }

  lemma JoinLeftCons(dist: seq<SheetRow>, util: seq<SheetRow>)
    requires |dist| > 0
    ensures JoinLeft(dist, util) == MatchRows(dist[0], util) + JoinLeft(dist[1..], util)
  {
  }

  lemma CountStep(total: nat, head: nat, tail: nat, n: nat, first: nat, rest: nat, m: nat)
    requires total == head + tail && head == first * m && tail == rest * m && n == first + rest
    ensures total == n * m
  {
    assert (first + rest) * m == first * m + rest * m;
  }

  lemma JoinRightCons(dist: seq<SheetRow>, util: seq<SheetRow>)
    requires |util| > 0
    ensures JoinRight(dist, util)
            == (if Unmatched(dist)(util[0]) then [UtilOnly(util[0])] else []) + JoinRight(dist, util[1..])
  {
    FilterCons(util, Unmatched(dist));
    var tail := Filter(util[1..], Unmatched(dist));
    if Unmatched(dist)(util[0]) {
      MapConcat([util[0]], tail, UtilOnly);
    }
  }

  /** The right part of the join holds, per key, every utility row when the distributed sheet
      lacks the key, and nothing otherwise. */
  lemma {:induction false} JoinRightCount(dist: seq<SheetRow>, util: seq<SheetRow>, nation: string, region: string)
    ensures RowCount(JoinRight(dist, util), nation, region)
            == if HasKey(dist, nation, region) then 0 else KeyCount(util, nation, region)
    decreases |util|
  {
    if |util| > 0 {
      JoinRightStep(dist, util, nation, region);
      KeyCountCons(util, nation, region);
      JoinRightCount(dist, util[1..], nation, region);
    }
  }

  lemma JoinRightStep(dist: seq<SheetRow>, util: seq<SheetRow>, nation: string, region: string)
    requires |util| > 0
    ensures RowCount(JoinRight(dist, util), nation, region)
            == (if !HasKey(dist, nation, region) && KeyIs(nation, region)(util[0]) then 1 else 0)
               + RowCount(JoinRight(dist, util[1..]), nation, region)
  {
    JoinRightCons(dist, util);
    var u := util[0];
    var head := if Unmatched(dist)(u) then [UtilOnly(u)] else [];
    FilterConcat(head, JoinRight(dist, util[1..]), RowKeyIs(nation, region));
    if Unmatched(dist)(u) {
      assert Filter(head, RowKeyIs(nation, region)) == if KeyIs(nation, region)(u) then head else [];
    } else {
      assert Filter(head, RowKeyIs(nation, region)) == [];
      if KeyIs(nation, region)(u) {
        assert HasKey(dist, nation, region);
      }
    }
  }

  /** How many merged rows a key gets, as `pd.merge(how='outer')` makes them: one per matching
      (distributed, utility) pair when both sheets carry the key, and one per row of the only
      sheet that does otherwise. */
  lemma OuterJoinCount(dist: seq<SheetRow>, util: seq<SheetRow>, nation: string, region: string)
    ensures var nd := KeyCount(dist, nation, region);
            var nu := KeyCount(util, nation, region);
            RowCount(OuterJoin(dist, util), nation, region) == if nd > 0 && nu > 0 then nd * nu else nd + nu
  {
    FilterConcat(JoinLeft(dist, util), JoinRight(dist, util), RowKeyIs(nation, region));
    JoinLeftCount(dist, util, nation, region);
    JoinRightCount(dist, util, nation, region);
    HasKeyCount(dist, nation, region);
  }

  /** No two rows of the sheet share a (Nation, Region) key. */
  predicate UniqueKeys(sheet: seq<SheetRow>) {
    forall i, j :: 0 <= i < j < |sheet| ==> !SameKey(sheet[i], sheet[j])
  }

  lemma {:induction false} UniqueKeysCount(sheet: seq<SheetRow>, nation: string, region: string)
    requires UniqueKeys(sheet)
    ensures KeyCount(sheet, nation, region) <= 1
    decreases |sheet|
  {
    if |sheet| > 0 {
      FilterCons(sheet, KeyIs(nation, region));
      assert UniqueKeys(sheet[1..]);
      UniqueKeysCount(sheet[1..], nation, region);
      if KeyIs(nation, region)(sheet[0]) {
        forall x | x in sheet[1..] ensures !KeyIs(nation, region)(x) {
          var j :| 0 <= j < |sheet[1..]| && sheet[1..][j] == x;
          assert !SameKey(sheet[0], sheet[j + 1]);
        }
        FilterNone(sheet[1..], KeyIs(nation, region));
      }
    }
  }

  /** When neither sheet repeats a key, the merge has exactly one row per key of either sheet
      and no row for any other key. */
  lemma OuterJoinOneRowPerKey(dist: seq<SheetRow>, util: seq<SheetRow>, nation: string, region: string)
    requires UniqueKeys(dist) && UniqueKeys(util)
    ensures RowCount(OuterJoin(dist, util), nation, region)
            == if HasKey(dist, nation, region) || HasKey(util, nation, region) then 1 else 0
  {
    OuterJoinCount(dist, util, nation, region);
    UniqueKeysCount(dist, nation, region);
    UniqueKeysCount(util, nation, region);
    HasKeyCount(dist, nation, region);
    HasKeyCount(util, nation, region);
    var nd := KeyCount(dist, nation, region);
    var nu := KeyCount(util, nation, region);
    if nd > 0 && nu > 0 {
      assert nd == 1 && nu == 1;
      assert nd * nu == 1;
    }
  }

  /** `load_chart_data`: the chart table and the `is_stacked` flag. */
  function LoadChartData(pvType: string, dist: seq<SheetRow>, util: seq<SheetRow>): (r: (seq<ChartRow>, bool))
    ensures r.1 <==> pvType == TOTAL
    ensures SortedBy(r.0, SortKey, Descending)
    ensures pvType == TOTAL ==> multiset(r.0) == multiset(OuterJoin(Normalise(dist), Normalise(util)))
    ensures pvType == DISTRIBUTED ==> multiset(r.0) == multiset(MapSeq(Normalise(dist), AsSingle))
    ensures pvType != TOTAL && pvType != DISTRIBUTED ==>
              multiset(r.0) == multiset(MapSeq(Normalise(util), AsSingle))
  {
    var d := Normalise(dist);
    var u := Normalise(util);
    if pvType == TOTAL then
      (Sort(OuterJoin(d, u), SortKey, Descending), true)
    else if pvType == DISTRIBUTED then
      (Sort(MapSeq(d, AsSingle), SortKey, Descending), false)
    else
      (Sort(MapSeq(u, AsSingle), SortKey, Descending), false)
  }

  function AsSingle(row: SheetRow): ChartRow {
    SingleRow(row.nation, row.region, row.value)
  }

  /** Rows whose stacked total is the sum of their two sides. */
  predicate Consistent(table: seq<ChartRow>) {
    forall i :: 0 <= i < |table| ==> table[i].StackedRow? ==> table[i].total == table[i].dist + table[i].util
  }

  /** Every row of the table is stacked exactly in total mode, and stacked totals add up. */
  lemma LoadChartDataRows(pvType: string, dist: seq<SheetRow>, util: seq<SheetRow>)
    ensures var (table, stacked) := LoadChartData(pvType, dist, util);
            forall i :: 0 <= i < |table| ==>
              && table[i].StackedRow? == stacked
              && (table[i].StackedRow? ==> table[i].total == table[i].dist + table[i].util)
  {
    var (table, stacked) := LoadChartData(pvType, dist, util);
    var d := Normalise(dist);
    var u := Normalise(util);
    forall i | 0 <= i < |table|
      ensures table[i].StackedRow? == stacked
      ensures table[i].StackedRow? ==> table[i].total == table[i].dist + table[i].util
    {
      var m := table[i];
      assert m in multiset(table);
      if stacked {
        assert m in OuterJoin(d, u);
      } else if pvType == DISTRIBUTED {
        MapMember(d, AsSingle, m);
      } else {
        MapMember(u, AsSingle, m);
      }
    }
  }

  /** In total mode every key of either normalised sheet has a row in the table. */
  lemma LoadChartDataKeys(pvType: string, dist: seq<SheetRow>, util: seq<SheetRow>)
    requires pvType == TOTAL
    ensures forall x :: x in Normalise(dist) || x in Normalise(util) ==>
              exists m :: m in LoadChartData(pvType, dist, util).0 && m.nation == x.nation && m.region == x.region
  {
    var table := LoadChartData(pvType, dist, util).0;
    var d := Normalise(dist);
    var u := Normalise(util);
    OuterJoinKeys(d, u);
    forall x | x in d || x in u
      ensures exists m :: m in table && m.nation == x.nation && m.region == x.region
    {
      var m :| m in OuterJoin(d, u) && m.nation == x.nation && m.region == x.region;
      assert m in multiset(OuterJoin(d, u));
    }
  }

  /** In total mode the table holds stacked rows only, each with total = dist + util, and
      every (Nation, Region) key of either normalised sheet; in the single modes it holds
      no stacked row. Either way the table is `Consistent`. */
  lemma LoadChartDataShape(pvType: string, dist: seq<SheetRow>, util: seq<SheetRow>)
    ensures var (table, stacked) := LoadChartData(pvType, dist, util);
            && Consistent(table)
            && (forall i :: 0 <= i < |table| ==> table[i].StackedRow? == stacked)
            && (stacked ==> forall x :: x in Normalise(dist) || x in Normalise(util) ==>
                  exists m :: m in table && m.nation == x.nation && m.region == x.region)
  {
    LoadChartDataRows(pvType, dist, util);
    if pvType == TOTAL {
      LoadChartDataKeys(pvType, dist, util);
    }
  }
}
