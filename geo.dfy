/** The geographic bounding box every part of the plotter is driven by. */
module Geo {

  /** The `georange` tuple `(latmin, latmax, lonmin, lonmax)`, in degrees. */
  datatype GeoRange = GeoRange(latmin: real, latmax: real, lonmin: real, lonmax: real)

  /** A point lies in the closed box (both bounds included on both axes). */
  predicate InBox(g: GeoRange, lat: real, lon: real)
  {
    g.lonmin <= lon <= g.lonmax && g.latmin <= lat <= g.latmax
  }
}
