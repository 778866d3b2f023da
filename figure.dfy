/** Figure geometry derived from the bounding box. */
module Figure {
  import opened Geo

  /** `DEFAULT_WIDTH`: the fixed figure width. */
  const DefaultWidth: real := 5.0

  /** Moves a box by `dlat` and `dlon` degrees. */
  function Shift(g: GeoRange, dlat: real, dlon: real): GeoRange
  {
    GeoRange(g.latmin + dlat, g.latmax + dlat, g.lonmin + dlon, g.lonmax + dlon)
  }

  /** Multiplies every bound of a box by `k`. */
  function Scale(g: GeoRange, k: real): GeoRange
  {
    GeoRange(k * g.latmin, k * g.latmax, k * g.lonmin, k * g.lonmax)
  }

  /**
   * `calc_figsize`: the width stays `DefaultWidth` and the height follows the
   * box, so that height / width is the box's latitude / longitude extent ratio.
   * A degenerate longitude extent would divide by zero, so it is excluded.
   */
  function CalcFigsize(g: GeoRange): (size: (real, real))
    requires g.lonmax != g.lonmin
    ensures size.0 == DefaultWidth
    ensures size.1 / size.0 == (g.latmax - g.latmin) / (g.lonmax - g.lonmin)
    ensures size.1 * (g.lonmax - g.lonmin) == size.0 * (g.latmax - g.latmin)
    ensures g.latmin < g.latmax && g.lonmin < g.lonmax ==> size.1 > 0.0
  {
    var ratio := (g.latmax - g.latmin) / (g.lonmax - g.lonmin);
    (DefaultWidth, DefaultWidth * ratio)
  }

  /** Only the box's extent matters: moving it leaves the figure size alone. */
  lemma FigsizeShiftInvariant(g: GeoRange, dlat: real, dlon: real)
    requires g.lonmax != g.lonmin
    ensures CalcFigsize(Shift(g, dlat, dlon)) == CalcFigsize(g)
  {
  }

  /** Scaling all four bounds by the same non-zero factor leaves the figure size alone. */
  lemma FigsizeScaleInvariant(g: GeoRange, k: real)
    requires g.lonmax != g.lonmin && k != 0.0
    ensures CalcFigsize(Scale(g, k)) == CalcFigsize(g)
  {
    var h := Scale(g, k);
    var dlat, dlon := g.latmax - g.latmin, g.lonmax - g.lonmin;
    var q := dlat / dlon;
    assert q * dlon == dlat;
    assert h.latmax - h.latmin == k * dlat;
    assert h.lonmax - h.lonmin == k * dlon;
    assert k * dlat == q * (k * dlon);
    DivOfProduct(h.latmax - h.latmin, h.lonmax - h.lonmin, q);
  }

  /** Real division undoes multiplication by a non-zero divisor. */
  lemma DivOfProduct(x: real, y: real, q: real)
    requires y != 0.0 && x == q * y
    ensures x / y == q
  {
  }
}
