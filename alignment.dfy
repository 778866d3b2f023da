/**
 * Text alignment of the tick labels: a label whose tick sits just inside a
 * bound is aligned to hug that edge of the map, every other one is centred.
 */
module Alignment {
  import opened Geo
  import opened Ticks

  /** Which edge the outermost ticks of an axis crowd. */
  datatype Edge = NearMax | NearMin | Middle

  /**
   * `0.98 < tick / bound < 1`. numpy divides by a zero bound without raising
   * and gets an infinity or NaN, for which this test is false.
   */
  predicate JustBelowMax(tick: int, bound: real)
  {
    bound != 0.0 && 0.98 < tick as real / bound < 1.0
  }

  /** `1 <= tick / bound < 1.02`, false for a zero bound for the same reason. */
  predicate JustAboveMin(tick: int, bound: real)
  {
    bound != 0.0 && 1.0 <= tick as real / bound < 1.02
  }

  /** The alignment heuristic on one axis: the last tick is tested first, then the first one. */
  function EdgeOf(ticks: seq<int>, lo: real, hi: real): (e: Edge)
    requires |ticks| > 0
    ensures e == NearMax ==> hi != 0.0
    ensures e == NearMin ==> lo != 0.0
  {
    if JustBelowMax(ticks[|ticks| - 1], hi) then NearMax
    else if JustAboveMin(ticks[0], lo) then NearMin
    else Middle
  }

  /** `ha` for the longitude labels. */
  function HorizontalAlign(xticks: seq<int>, g: GeoRange): (ha: string)
    requires |xticks| > 0
    ensures ha in {"right", "left", "center"}
  {
    match EdgeOf(xticks, g.lonmin, g.lonmax)
    case NearMax => "right"
    case NearMin => "left"
    case Middle => "center"
  }

  /** `va` for the latitude labels. */
  function VerticalAlign(yticks: seq<int>, g: GeoRange): (va: string)
    requires |yticks| > 0
    ensures va in {"top", "bottom", "center"}
  {
    match EdgeOf(yticks, g.latmin, g.latmax)
    case NearMax => "top"
    case NearMin => "bottom"
    case Middle => "center"
  }

  /** Comparing a quotient with a constant, for a positive divisor. */
  lemma QuotientPositive(x: real, b: real, c: real)
    requires b > 0.0
    ensures x / b > c <==> x > c * b
    ensures x / b < c <==> x < c * b
    ensures x / b >= c <==> x >= c * b
  {
  }

  /** Comparing a quotient with a constant, for a negative divisor. */
  lemma QuotientNegative(x: real, b: real, c: real)
    requires b < 0.0
    ensures x / b > c <==> x < c * b
    ensures x / b < c <==> x > c * b
    ensures x / b >= c <==> x <= c * b
  {
  }

  /**
   * On ticks that lie strictly inside the bounds, the heuristic aligns to the
   * upper edge exactly when the upper bound is positive and the last tick lies
   * within 2% of it, and otherwise to the lower edge exactly when the lower
   * bound is positive and the first tick lies within 2% above it. A bound that
   * is zero or negative never moves the text away from the centre.
   */
  lemma {:induction false} EdgeOfInteriorTicks(ticks: seq<int>, lo: real, hi: real)
    requires |ticks| > 0
    requires forall k :: 0 <= k < |ticks| ==> lo < ticks[k] as real < hi
    ensures EdgeOf(ticks, lo, hi) == NearMax <==>
              hi > 0.0 && ticks[|ticks| - 1] as real > 0.98 * hi
    ensures EdgeOf(ticks, lo, hi) == NearMin <==>
              !(hi > 0.0 && ticks[|ticks| - 1] as real > 0.98 * hi) &&
              lo > 0.0 && (ticks[0] as real) < 1.02 * lo
    ensures hi <= 0.0 && lo <= 0.0 ==> EdgeOf(ticks, lo, hi) == Middle
  {
    var last, first := ticks[|ticks| - 1] as real, ticks[0] as real;
    if hi > 0.0 {
      QuotientPositive(last, hi, 0.98);
      QuotientPositive(last, hi, 1.0);
    } else if hi < 0.0 {
      QuotientNegative(last, hi, 0.98);
      QuotientNegative(last, hi, 1.0);
    }
    if lo > 0.0 {
      QuotientPositive(first, lo, 1.0);
      QuotientPositive(first, lo, 1.02);
    } else if lo < 0.0 {
      QuotientNegative(first, lo, 1.0);
      QuotientNegative(first, lo, 1.02);
    }
  }

  /** The same statement for the ticks the plotter generates for a box's axis. */
  lemma AxisEdge(lo: real, hi: real)
    requires |AxisTicks(lo, hi)| > 0
    ensures var s := AxisTicks(lo, hi);
            (EdgeOf(s, lo, hi) == NearMax <==> hi > 0.0 && s[|s| - 1] as real > 0.98 * hi) &&
            (EdgeOf(s, lo, hi) == NearMin <==>
               !(hi > 0.0 && s[|s| - 1] as real > 0.98 * hi) && lo > 0.0 && (s[0] as real) < 1.02 * lo)
  {
    var s := AxisTicks(lo, hi);
    AxisTicksExact(lo, hi);
    forall k | 0 <= k < |s| ensures lo < s[k] as real < hi {
      assert s[k] in s;
    }
    EdgeOfInteriorTicks(s, lo, hi);
  }

  /**
   * In the demonstration box the last longitude tick 164 is within 2% of 165,
   * so longitude labels are right-aligned; the latitude bounds are negative, so
   * latitude labels stay centred.
   */
  lemma DemoAlignment()
    ensures |LonTicks(Demo)| > 0 && HorizontalAlign(LonTicks(Demo), Demo) == "right"
    ensures |LatTicks(Demo)| > 0 && VerticalAlign(LatTicks(Demo), Demo) == "center"
  {
    DemoLonTicks();
    DemoLatTicks();
    assert 0.98 < 164.0 / 165.0 < 1.0 by {
      QuotientPositive(164.0, 165.0, 0.98);
      QuotientPositive(164.0, 165.0, 1.0);
    }
    EdgeOfInteriorTicks(LatTicks(Demo), -40.0, -25.0);
  }
}
