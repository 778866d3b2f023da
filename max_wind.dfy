/**
 * The "Max. Wind" statistic of the caption: the largest observed speed among
 * the grid cells that lie in the bounding box and are not fill values.
 */
module MaxWind {
  import opened Geo

  /** The value `data_spd.filled()` writes into masked (missing) cells: 1e+20. */
  const Fill: real := 100000000000000000000.0

  /** The statistic: the maximum qualifying speed, or no data (shown as "0.0"). */
  datatype MaxWindResult = NoData | Max(value: real)

  /** The latitude, longitude and speed grids are parallel: equal shape, row by row. */
  predicate SameShape(lats: seq<seq<real>>, lons: seq<seq<real>>, spd: seq<seq<real>>)
  {
    |lats| == |lons| && |spd| == |lons| &&
    forall i :: 0 <= i < |lons| ==> |lats[i]| == |lons[i]| && |spd[i]| == |lons[i]|
  }

  /** A cell counts when it lies in the closed box and its speed is not the fill value. */
  predicate Qualifies(g: GeoRange, lat: real, lon: real, s: real)
  {
    InBox(g, lat, lon) && s != Fill
  }

  /** Cell (i, j) exists and counts. */
  predicate QualifyingCell(g: GeoRange, lats: seq<seq<real>>, lons: seq<seq<real>>,
                           spd: seq<seq<real>>, i: int, j: int)
    requires SameShape(lats, lons, spd)
  {
    0 <= i < |lons| && 0 <= j < |lons[i]| && Qualifies(g, lats[i][j], lons[i][j], spd[i][j])
  }

  /** The speeds of cells 0 .. n-1 of one row that count, in scan order. */
  function RowPicks(g: GeoRange, lat: seq<real>, lon: seq<real>, spd: seq<real>, n: nat): (r: seq<real>)
    requires |lat| == |lon| == |spd| && n <= |lon|
    ensures |r| <= n
    ensures forall k :: 0 <= k < |r| ==> r[k] != Fill
  {
    if n == 0 then []
    else RowPicks(g, lat, lon, spd, n - 1) +
         (if Qualifies(g, lat[n - 1], lon[n - 1], spd[n - 1]) then [spd[n - 1]] else [])
  }

  /** The list `dspd` after the scan of rows 0 .. m-1. */
  function Picks(g: GeoRange, lats: seq<seq<real>>, lons: seq<seq<real>>, spd: seq<seq<real>>, m: nat): (r: seq<real>)
    requires SameShape(lats, lons, spd) && m <= |lons|
    ensures forall k :: 0 <= k < |r| ==> r[k] != Fill
  {
    if m == 0 then []
    else Picks(g, lats, lons, spd, m - 1) + RowPicks(g, lats[m - 1], lons[m - 1], spd[m - 1], |lons[m - 1]|)
  }

  /** Python's `max` of a non-empty list: an element that no element exceeds. */
  function SeqMax(s: seq<real>): (m: real)
    requires |s| > 0
    ensures m in s
    ensures forall x :: x in s ==> x <= m
  {
    if |s| == 1 then s[0]
    else
      var rest := SeqMax(s[1..]);
      assert s == [s[0]] + s[1..];
      if s[0] >= rest then s[0] else rest
  }

  /** A value is picked from a row prefix exactly when some counting cell of it holds that value. */
  lemma {:induction false} RowPicksMembers(g: GeoRange, lat: seq<real>, lon: seq<real>, spd: seq<real>, n: nat, x: real)
    requires |lat| == |lon| == |spd| && n <= |lon|
    ensures x in RowPicks(g, lat, lon, spd, n) <==>
              exists j :: 0 <= j < n && Qualifies(g, lat[j], lon[j], spd[j]) && spd[j] == x
  {
    if n > 0 {
      RowPicksMembers(g, lat, lon, spd, n - 1, x);
    }
  }

  /** A value is in `dspd` after m rows exactly when some counting cell of those rows holds it. */
  lemma {:induction false} PicksMembers(g: GeoRange, lats: seq<seq<real>>, lons: seq<seq<real>>,
                                        spd: seq<seq<real>>, m: nat, x: real)
    requires SameShape(lats, lons, spd) && m <= |lons|
    ensures x in Picks(g, lats, lons, spd, m) <==>
              exists i, j :: i < m && QualifyingCell(g, lats, lons, spd, i, j) && spd[i][j] == x
  {
    if m > 0 {
      var r := m - 1;
      var prev := Picks(g, lats, lons, spd, r);
      var row := RowPicks(g, lats[r], lons[r], spd[r], |lons[r]|);
      assert Picks(g, lats, lons, spd, m) == prev + row;
      PicksMembers(g, lats, lons, spd, r, x);
      RowPicksMembers(g, lats[r], lons[r], spd[r], |lons[r]|, x);
      if x in row {
        var j :| 0 <= j < |lons[r]| && Qualifies(g, lats[r][j], lons[r][j], spd[r][j]) && spd[r][j] == x;
        assert QualifyingCell(g, lats, lons, spd, r, j);
      }
      if exists i, j :: i < m && QualifyingCell(g, lats, lons, spd, i, j) && spd[i][j] == x {
        var i, j :| i < m && QualifyingCell(g, lats, lons, spd, i, j) && spd[i][j] == x;
        if i < r {
          assert x in prev;
        } else {
          assert Qualifies(g, lats[r][j], lons[r][j], spd[r][j]) && spd[r][j] == x;
          assert x in row;
        }
      }
    }
  }

  /**
   * Only cells inside the box feed the statistic: two speed grids that agree on
   * every in-box cell give the same list `dspd`, whatever they hold elsewhere.
   */
  lemma {:induction false} PicksIgnoreOutside(g: GeoRange, lats: seq<seq<real>>, lons: seq<seq<real>>,
                                              spd: seq<seq<real>>, spd': seq<seq<real>>, m: nat)
    requires SameShape(lats, lons, spd) && SameShape(lats, lons, spd') && m <= |lons|
    requires forall i, j :: 0 <= i < |lons| && 0 <= j < |lons[i]| && InBox(g, lats[i][j], lons[i][j]) ==>
               spd[i][j] == spd'[i][j]
    ensures Picks(g, lats, lons, spd, m) == Picks(g, lats, lons, spd', m)
  {
    if m > 0 {
      PicksIgnoreOutside(g, lats, lons, spd, spd', m - 1);
      var r := m - 1;
      RowIgnoresOutside(g, lats[r], lons[r], spd[r], spd'[r], |lons[r]|);
    }
  }

  /** One row of `PicksIgnoreOutside`. */
  lemma {:induction false} RowIgnoresOutside(g: GeoRange, lat: seq<real>, lon: seq<real>,
                                             spd: seq<real>, spd': seq<real>, n: nat)
    requires |lat| == |lon| == |spd| == |spd'| && n <= |lon|
    requires forall j :: 0 <= j < |lon| && InBox(g, lat[j], lon[j]) ==> spd[j] == spd'[j]
    ensures RowPicks(g, lat, lon, spd, n) == RowPicks(g, lat, lon, spd', n)
  {
    if n > 0 {
      RowIgnoresOutside(g, lat, lon, spd, spd', n - 1);
    }
  }

  /**
   * The max-wind loop: scan every cell in row-major order, collect the speed of
   * each cell inside the closed box that is not the fill value, and report the
   * largest, or no data when nothing was collected.
   */
  method MaxWindInBox(g: GeoRange, lats: seq<seq<real>>, lons: seq<seq<real>>, spd: seq<seq<real>>)
    returns (r: MaxWindResult)
    requires SameShape(lats, lons, spd)
    ensures r.NoData? <==> !exists i, j :: QualifyingCell(g, lats, lons, spd, i, j)
    ensures r.Max? ==> exists i, j :: QualifyingCell(g, lats, lons, spd, i, j) && spd[i][j] == r.value
    ensures r.Max? ==> forall i, j :: QualifyingCell(g, lats, lons, spd, i, j) ==> spd[i][j] <= r.value
    ensures r.Max? ==> r.value != Fill
  {
    var dspd: seq<real> := [];
    for i := 0 to |lons|
      invariant dspd == Picks(g, lats, lons, spd, i)
    {
      for j := 0 to |lons[i]|
        invariant dspd == Picks(g, lats, lons, spd, i) + RowPicks(g, lats[i], lons[i], spd[i], j)
      {
        if lons[i][j] <= g.lonmax && lons[i][j] >= g.lonmin && lats[i][j] <= g.latmax && lats[i][j] >= g.latmin {
          if !(spd[i][j] == Fill) {
            dspd := dspd + [spd[i][j]];
          }
        }
      }
    }
    forall x | x in dspd
      ensures exists i, j :: QualifyingCell(g, lats, lons, spd, i, j) && spd[i][j] == x
    {
      PicksMembers(g, lats, lons, spd, |lons|, x);
    }
    forall i, j | QualifyingCell(g, lats, lons, spd, i, j)
      ensures spd[i][j] in dspd
    {
      PicksMembers(g, lats, lons, spd, |lons|, spd[i][j]);
    }
    if |dspd| > 0 {
      r := Max(SeqMax(dspd));
    } else {
      r := NoData;
    }
  }

  /**
   * A 2 x 2 grid with speeds 10, 20, fill and 30, all inside the box: the fill
   * cell is skipped and the statistic is 30.
   */
  lemma FillSkippedExample()
    ensures var g := GeoRange(0.0, 10.0, 0.0, 10.0);
            var lats := [[1.0, 1.0], [2.0, 2.0]];
            var lons := [[1.0, 2.0], [1.0, 2.0]];
            var spd := [[10.0, 20.0], [Fill, 30.0]];
            Picks(g, lats, lons, spd, 2) == [10.0, 20.0, 30.0] &&
            SeqMax(Picks(g, lats, lons, spd, 2)) == 30.0
  {
    var g := GeoRange(0.0, 10.0, 0.0, 10.0);
    var lats := [[1.0, 1.0], [2.0, 2.0]];
    var lons := [[1.0, 2.0], [1.0, 2.0]];
    var spd := [[10.0, 20.0], [Fill, 30.0]];
    assert RowPicks(g, lats[0], lons[0], spd[0], 1) == [10.0];
    assert RowPicks(g, lats[0], lons[0], spd[0], 2) == [10.0, 20.0];
    assert RowPicks(g, lats[1], lons[1], spd[1], 1) == [];
    assert RowPicks(g, lats[1], lons[1], spd[1], 2) == [30.0];
    assert Picks(g, lats, lons, spd, 1) == [10.0, 20.0];
    assert Picks(g, lats, lons, spd, 2) == [10.0, 20.0, 30.0];
    assert SeqMax([30.0]) == 30.0;
    assert [20.0, 30.0][1..] == [30.0];
    assert SeqMax([20.0, 30.0]) == 30.0;
    assert [10.0, 20.0, 30.0][1..] == [20.0, 30.0];
  }
}
