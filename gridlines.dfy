/**
 * The gridline block of the plotting routine as one sequence: generate the
 * ticks, choose the label alignment, fold the longitude ticks in place, and
 * emit the latitude and longitude label texts.
 */
module Gridlines {
  import opened Geo
  import opened Ticks
  import opened Alignment
  import opened TickFold
  import opened Labels

  /** A longitude tick of a box given in 0..360 is labelled and drawn at the meridian it came from. */
  lemma TickOfZeroTo360Box(g: GeoRange, t: int)
    requires 0.0 <= g.lonmin && g.lonmax <= 360.0
    requires g.lonmin < t as real < g.lonmax
    ensures LonLabelOf(Fold(t)).coord == t
    ensures LonDrawn(Fold(t), g)
    ensures ReadBack(Render(LonLabelOf(Fold(t)).name)) == Some(Fold(t))
  {
    LonLabelReadsBack(Fold(t));
  }

  /**
   * For a box whose longitudes are given in 0..360 (the convention of the
   * 180-centred map), every folded longitude tick gets exactly one label, in
   * order; the label reads back as the folded tick and sits at it, and its
   * containment coordinate is the tick before folding.
   */
  lemma LonLabelsOfZeroTo360Box(g: GeoRange)
    requires 0.0 <= g.lonmin && g.lonmax <= 360.0
    ensures var ticks := LonTicks(g);
            var xs := FoldAll(ticks);
            var texts := LonTexts(xs, g);
            |texts| == |ticks| &&
            forall k :: 0 <= k < |ticks| ==>
              texts[k] == LonPlaced(xs[k], g) && xs[k] == Fold(ticks[k]) &&
              LonLabelOf(xs[k]).coord == ticks[k] &&
              ReadBack(Render(texts[k].name)) == Some(xs[k])
  {
    var ticks := LonTicks(g);
    var xs := FoldAll(ticks);
    AxisTicksExact(g.lonmin, g.lonmax);
    forall k | 0 <= k < |ticks|
      ensures xs[k] == Fold(ticks[k]) && LonLabelOf(xs[k]).coord == ticks[k]
      ensures LonDrawn(xs[k], g) && ReadBack(Render(LonPlaced(xs[k], g).name)) == Some(xs[k])
    {
      assert ticks[k] in ticks;
      TickOfZeroTo360Box(g, ticks[k]);
    }
    LonTextsAllKept(xs, g);
  }

  /** Every latitude tick of a box gets its own label, in order. */
  lemma LatLabelsOfBox(g: GeoRange)
    ensures var ticks := LatTicks(g);
            |LatTexts(ticks, g)| == |ticks| &&
            forall k :: 0 <= k < |ticks| ==>
              LatTexts(ticks, g)[k] == LatPlaced(ticks[k], g) &&
              ReadBack(Render(LatTexts(ticks, g)[k].name)) == Some(ticks[k])
  {
    var ticks := LatTicks(g);
    AxisTicksExact(g.latmin, g.latmax);
    forall k | 0 <= k < |ticks| ensures g.latmin <= ticks[k] as real <= g.latmax {
      assert ticks[k] in ticks;
    }
    LatTextsAllKept(ticks, g);
    forall k | 0 <= k < |ticks| ensures ReadBack(Render(LatPlaced(ticks[k], g).name)) == Some(ticks[k]) {
      LatLabelReadsBack(ticks[k]);
    }
  }

  /** A tick at 190 degrees is drawn at -170, labelled "170°W", and kept by testing 190 against the box. */
  lemma AntimeridianTick()
    ensures Fold(190) == -170
    ensures LonLabelOf(-170) == LonLabel(DegreeLabel(170, West), 190)
    ensures Render(LonLabelOf(-170).name) == "170°W"
  {
  }

  /**
   * Lines 141-222 without the drawing: the gridline positions, the label
   * alignments and the texts of both label passes. Both tick arrays must be
   * non-empty, since the alignment heuristic reads their first and last ticks.
   */
  method Layout(g: GeoRange)
    returns (xticks: seq<int>, yticks: seq<int>, ha: string, va: string,
             latTexts: seq<Text>, lonTexts: seq<Text>)
    requires |LonTicks(g)| > 0 && |LatTicks(g)| > 0
    ensures yticks == LatTicks(g) && xticks == FoldAll(LonTicks(g))
    ensures ha == HorizontalAlign(LonTicks(g), g) && va == VerticalAlign(LatTicks(g), g)
    ensures latTexts == LatTexts(yticks, g) && lonTexts == LonTexts(xticks, g)
    ensures |latTexts| == |yticks|
    ensures 0.0 <= g.lonmin && g.lonmax <= 360.0 ==>
              |lonTexts| == |xticks| &&
              forall k :: 0 <= k < |xticks| ==>
                -180 < xticks[k] <= 180 && lonTexts[k].x == xticks[k] as real &&
                ReadBack(Render(lonTexts[k].name)) == Some(xticks[k])
  {
    var xs := LonTicks(g);
    yticks := LatTicks(g);
    ha := HorizontalAlign(xs, g);
    va := VerticalAlign(yticks, g);
    var arr := new int[|xs|](k requires 0 <= k < |xs| => xs[k]);
    assert arr[..] == xs;
    FoldInPlace(arr);
    xticks := arr[..];
    latTexts := LatLabels(yticks, g);
    lonTexts := LonLabels(xticks, g);
    LatLabelsOfBox(g);
    if 0.0 <= g.lonmin && g.lonmax <= 360.0 {
      LonLabelsOfZeroTo360Box(g);
      AxisTicksExact(g.lonmin, g.lonmax);
      forall k | 0 <= k < |xticks| ensures -180 < xticks[k] <= 180 {
        assert xs[k] in xs;
      }
    }
  }
}
