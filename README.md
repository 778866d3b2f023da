# HY-2 scatterometer wind plotter: a Dafny model of its non-drawing logic

The plotter renders HY-2A/B/C Level 2B sea-surface wind observations as wind
barbs over a map of a latitude/longitude box, with a caption, a colour bar,
coastlines and hand-placed gridline labels. Almost all of it is calls into a
plotting and a mapping library. This project models the sequential logic inside
it and proves what that logic guarantees:

- `Satellite`: the satellite label read off a data file name's three-character prefix (`sate_name`).
- `Figure`: the figure size from the box's aspect ratio (`calc_figsize`), with width `DEFAULT_WIDTH` = 5.
- `MaxWind`: the "Max. Wind" caption statistic. A nested loop scans the parallel
  latitude, longitude and speed grids. It collects the speed of every cell in the
  closed box that is not the 1e+20 fill value, then takes the maximum. The result
  is `NoData` when nothing is collected; the caption then shows "0.0".
- `Ticks`: the 2-degree gridline ticks of each axis. Each bound is rounded
  outward to a multiple of 2 with Python's sign-of-divisor `%`, then `np.arange`
  runs one step beyond it, and the boolean mask keeps only ticks strictly
  inside the box.
- `Alignment`: the `ha`/`va` edge-alignment heuristic for the label texts, including
  numpy's behaviour for a zero bound: the division gives an infinity or NaN, and
  then neither ratio test holds.
- `TickFold`: the in-place fold of longitude ticks above 180 into the -180..180 display
  range, over an `array<int>`.
- `Labels`: the latitude and longitude label passes. Each tick gets its compass-suffixed
  label. A longitude tick also gets the 0..360 coordinate that decides whether
  its label is drawn.
- `Gridlines`: the gridline block as one method, plus end-to-end lemmas over it.
- `Geo` holds the bounding box shared by all of them.

Bounds, coordinates and speeds are `real`; ticks are `int`, as `np.arange` over
`int(...)` produces them. Three facts about the code that the model keeps:
- the max-wind box is closed (`<=`/`>=`);
- the longitude label pass runs over the ticks after the in-place fold, so its
  "above 180" branch is reached only by ticks above 540;
- a 2×2 grid inside the box with speeds 10, 20, fill and 30 gives 30
  (`MaxWind.FillSkippedExample`).

Two consequences of the code are proved rather than assumed:
- the latitude skip test never fires;
- a zero or negative bound never pulls the labels toward its own edge. When
  both bounds of an axis are zero or negative (the latitudes of the
  demonstration box (-40, -25, 150, 165)), that axis's labels stay centred.

## Model

| member | source | states |
|---|---|---|
| `Satellite.Prefix3` | HY_Plotter/hy_plotter.py:32-36 | `fname[:3]` is the first three characters, or the whole string when it is shorter |
| `Satellite.SateName` | HY_Plotter/hy_plotter.py:31-40 | the label is one of four; it is HY-2A/B/C exactly when the first three characters are H2A/H2B/H2C, and HY-2 otherwise, including for strings shorter than three |
| `Satellite.SateNameLetter` | HY_Plotter/hy_plotter.py:31-40 | a specific label is produced exactly for names starting "H2" plus A, B or C, and it is "HY-2" followed by that letter |
| `Satellite.SateNameShort` | HY_Plotter/hy_plotter.py:31-40 | names shorter than three characters always map to HY-2 |
| `Figure.CalcFigsize` | HY_Plotter/hy_plotter.py:19-28 | width is 5 and height/width equals the box's latitude extent over its longitude extent; height is positive for a well-ordered box |
| `Figure.FigsizeShiftInvariant` | HY_Plotter/hy_plotter.py:24-28 | moving the box leaves the figure size unchanged |
| `Figure.FigsizeScaleInvariant` | HY_Plotter/hy_plotter.py:24-28 | scaling all four bounds by a non-zero factor leaves the figure size unchanged |
| `MaxWind.RowPicks` | HY_Plotter/hy_plotter.py:77-82 | the speeds collected from one row: at most one per cell and never the fill value; `MaxWind.RowPicksMembers` characterises its members |
| `MaxWind.Picks` | HY_Plotter/hy_plotter.py:76-82 | the list `dspd` after the scan: never holds the fill value; `MaxWind.PicksMembers` characterises its members |
| `MaxWind.SeqMax` | HY_Plotter/hy_plotter.py:84 | `max` of a non-empty list is one of its elements and no element exceeds it |
| `MaxWind.RowPicksMembers` | HY_Plotter/hy_plotter.py:77-82 | scanning one row collects a value iff some in-box, non-fill cell of that row holds it |
| `MaxWind.PicksMembers` | HY_Plotter/hy_plotter.py:76-82 | after the scan `dspd` holds a value iff some in-box, non-fill cell holds it |
| `MaxWind.PicksIgnoreOutside` | HY_Plotter/hy_plotter.py:76-82 | speed grids that agree on every in-box cell give the same `dspd`: cells outside the box never matter |
| `MaxWind.FillSkippedExample` | HY_Plotter/hy_plotter.py:74-86 | a 2×2 grid inside the box with speeds 10, 20, fill and 30 collects 10, 20, 30 and reports 30 |
| `MaxWind.MaxWindInBox` | HY_Plotter/hy_plotter.py:74-86 | result is no-data iff no cell is in the closed box with a non-fill speed; otherwise it is the speed of such a cell, at least every such speed, and never the fill value |
| `Ticks.FloorTo2` | HY_Plotter/hy_plotter.py:142-143 | `x - x % 2` is the greatest multiple of 2 not above x |
| `Ticks.CeilTo2` | HY_Plotter/hy_plotter.py:142-143 | `x - x % -2` is the least multiple of 2 not below x |
| `Ticks.Arange` | HY_Plotter/hy_plotter.py:142-143 | `np.arange(start, stop, 2)` has ceil((stop-start)/2) elements, the k-th being start + 2k |
| `Ticks.Interior` | HY_Plotter/hy_plotter.py:145-146 | the mask keeps exactly the ticks strictly between the bounds |
| `Ticks.AxisTicks` | HY_Plotter/hy_plotter.py:141-146 | every tick of one axis lies strictly between its bounds; `Ticks.AxisTicksExact` adds that the ticks are exactly the even numbers there, ascending |
| `Ticks.LonTicks` | HY_Plotter/hy_plotter.py:142-145 | every `xticks` entry lies strictly between lonmin and lonmax |
| `Ticks.LatTicks` | HY_Plotter/hy_plotter.py:143-146 | every `yticks` entry lies strictly between latmin and latmax |
| `Ticks.ArangeMembers` | HY_Plotter/hy_plotter.py:142-143 | from an even start, the range holds exactly the even numbers in [start, stop) |
| `Ticks.ArangeAscending` | HY_Plotter/hy_plotter.py:142-143 | the range is strictly ascending |
| `Ticks.InteriorAscending` | HY_Plotter/hy_plotter.py:145-146 | the mask keeps an ascending sequence ascending |
| `Ticks.AxisTickMember` | HY_Plotter/hy_plotter.py:141-146 | a number is an axis tick iff it is even and strictly between the bounds |
| `Ticks.AxisTicksExact` | HY_Plotter/hy_plotter.py:141-146 | an axis's ticks are exactly the multiples of 2 strictly inside the bounds, ascending; none equals a bound |
| `Ticks.WideAxisHasTicks` | HY_Plotter/hy_plotter.py:141-147 | an axis more than 2 degrees wide has at least one tick, so the `[-1]`/`[0]` reads of the alignment step succeed |
| `Ticks.AscendingUnique` | HY_Plotter/hy_plotter.py:145-146 | two ascending sequences with the same elements are equal, so the tick sequence is determined by its members |
| `Ticks.DemoLonTicks` | HY_Plotter/hy_plotter.py:142-145 | for the demonstration box (line 238) the longitude ticks are 152, 154, ..., 164 |
| `Ticks.DemoLatTicks` | HY_Plotter/hy_plotter.py:143-146 | for the demonstration box (line 238) the latitude ticks are -38, -36, ..., -26 |
| `Alignment.EdgeOf` | HY_Plotter/hy_plotter.py:147-158 | a zero bound never selects its edge (the numpy division gives inf or NaN); `Alignment.EdgeOfInteriorTicks` gives the full characterisation |
| `Alignment.HorizontalAlign` | HY_Plotter/hy_plotter.py:147-152 | `ha` is one of "right", "left", "center"; `Alignment.AxisEdge` says which |
| `Alignment.VerticalAlign` | HY_Plotter/hy_plotter.py:153-158 | `va` is one of "top", "bottom", "center"; `Alignment.AxisEdge` says which |
| `Alignment.EdgeOfInteriorTicks` | HY_Plotter/hy_plotter.py:147-158 | on ticks strictly inside the bounds, the upper edge is chosen iff the upper bound is positive and the last tick is within 2% of it; otherwise the lower edge iff the lower bound is positive and the first tick is within 2% above it; non-positive bounds always give centre |
| `Alignment.AxisEdge` | HY_Plotter/hy_plotter.py:141-158 | the same characterisation for the ticks generated for a box |
| `Alignment.DemoAlignment` | HY_Plotter/hy_plotter.py:147-158 | in the demonstration box `ha` is "right" (164/165 lies in (0.98, 1)) and `va` is "center" |
| `TickFold.Fold` | HY_Plotter/hy_plotter.py:162 | one tick keeps its meridian; ticks up to 180 are unchanged; ticks in (180, 540] land in (-180, 180] |
| `TickFold.FoldAll` | HY_Plotter/hy_plotter.py:160-162 | folding keeps the length; each tick keeps its meridian (changes by a multiple of 360); ticks up to 180 are unchanged; ticks up to 540 end at most 180; ticks above -180 stay above -180 |
| `TickFold.WhereAbove180` | HY_Plotter/hy_plotter.py:160 | `np.where(xticks > 180)` lists, ascending, exactly the positions holding a tick above 180 |
| `TickFold.FoldInPlace` | HY_Plotter/hy_plotter.py:160-162 | the loop over those positions leaves the array equal to the fold of its old contents |
| `Labels.DigitString` | HY_Plotter/hy_plotter.py:181 | `str(n)` of a non-negative integer is a non-empty digit string without a leading zero |
| `Labels.ParseDigitString` | HY_Plotter/hy_plotter.py:181 | reading the decimal string of n gives back n |
| `Labels.RenderReadsBack` | HY_Plotter/hy_plotter.py:181-208 | a label string (digits, degree sign, optional compass letter) reads back as the label it was rendered from |
| `Labels.LonCoordMeridian` | HY_Plotter/hy_plotter.py:198-209 | the containment coordinate is the tick's meridian: it differs from the tick by a multiple of 360 and lies in [0, 360) for ticks in (-360, 360) |
| `Labels.LatLabel` | HY_Plotter/hy_plotter.py:180-185 | a latitude label is a non-negative number with "N" for a positive tick, "S" for a negative one and no letter exactly for 0, and stands for the tick itself |
| `Labels.LonLabelOf` | HY_Plotter/hy_plotter.py:198-209 | for a tick in (-180, 360] the label is a non-negative number standing for the folded tick; on (-180, 180] it has "E" or "W" and no letter exactly for 0 and 180; above 180 it has "W"; `Labels.LonCoordMeridian` states the containment coordinate |
| `Labels.LatLabelReadsBack` | HY_Plotter/hy_plotter.py:180-185 | every latitude label string reads back as its tick's signed latitude; the letter choice is stated on `Labels.LatLabel` |
| `Labels.LatLabelInjective` | HY_Plotter/hy_plotter.py:180-185 | distinct latitude ticks get distinct label strings |
| `Labels.LonLabelReadsBack` | HY_Plotter/hy_plotter.py:197-209 | a longitude label string for a tick in (-180, 360] reads back as the tick's meridian in -180..180; the letter choice is stated on `Labels.LonLabelOf` |
| `Labels.LonLabelInjective` | HY_Plotter/hy_plotter.py:197-209 | distinct display-range longitude ticks get distinct label strings |
| `Labels.LonDrawn` | HY_Plotter/hy_plotter.py:210 | for a tick in (-360, 360), the label is drawn iff the tick's meridian taken in [0, 360) lies in [lonmin, lonmax] |
| `Labels.LatTexts` | HY_Plotter/hy_plotter.py:177-196 | at most one text per tick, each at x = lonmin and at a y inside [latmin, latmax] |
| `Labels.LonTexts` | HY_Plotter/hy_plotter.py:197-222 | at most one text per tick, each at y = latmin |
| `Labels.LatLabels` | HY_Plotter/hy_plotter.py:177-196 | the latitude pass emits, in order, the label of each tick inside [latmin, latmax] at (lonmin, tick) |
| `Labels.LonLabels` | HY_Plotter/hy_plotter.py:197-222 | the longitude pass emits, in order, the label of each tick whose containment coordinate lies in [lonmin, lonmax], at (tick, latmin) |
| `Labels.LatTextsAllKept` | HY_Plotter/hy_plotter.py:177-179 | when every tick lies in [latmin, latmax] the skip never fires: one label per tick, in order |
| `Labels.LonTextsMembers` | HY_Plotter/hy_plotter.py:197-211 | a text is emitted iff it is the placed label of a tick whose containment coordinate is in the box |
| `Labels.LonTextsAllKept` | HY_Plotter/hy_plotter.py:210-211 | when every tick's containment coordinate is in the box, one label per tick, in order |
| `Gridlines.TickOfZeroTo360Box` | HY_Plotter/hy_plotter.py:160-211 | a tick of a box given in 0..360 folds to a value whose containment coordinate is the original tick, so its label is drawn and names the folded meridian |
| `Gridlines.LonLabelsOfZeroTo360Box` | HY_Plotter/hy_plotter.py:141-211 | for a box within 0..360, every folded longitude tick gets exactly one label, in order, reading back as the folded tick, with the unfolded tick as containment coordinate |
| `Gridlines.LatLabelsOfBox` | HY_Plotter/hy_plotter.py:141-185 | every latitude tick of any box gets its own label, in order, reading back as the tick |
| `Gridlines.AntimeridianTick` | HY_Plotter/hy_plotter.py:160-209 | a tick at 190 is drawn at -170, labelled "170°W", and kept by testing 190 against the box |
| `Gridlines.Layout` | HY_Plotter/hy_plotter.py:141-222 | the gridline block yields the generated latitude ticks, the folded longitude ticks, both alignments and both label passes; every latitude tick is labelled; for a box within 0..360 every longitude tick lies in (-180, 180] and is labelled at itself with a string that reads back as it |

## Left out

- `rgrib.extract` (line 44) and `cm.get_colormap` (line 104) are calls into the `rpdgrib` package. That package is not part of this model; the grids and the box are parameters.
- The valid-time reformatting with `strptime`/`strftime` (line 66) is library formatting and is not modelled.
- The barb components `spd*sin(dir)` and `spd*cos(dir)` (lines 105-106) are floating-point trigonometry and are not modelled.
- All drawing and I/O is not modelled: figure and axes, extent, annotate, barbs, colour bar, coastline, gridlines, `plt.text`, `savefig`, `close`, and the progress `print` (lines 56-63, 68, 89-138, 163-175, 186-196, 212-235).
- The `@staticmethod`/`@classmethod` decorators (lines 23, 30) and the demonstration call (line 238) are not modelled. The demonstration box is used as the constant `Ticks.Demo`.
- Floating point is not modelled: bounds, coordinates, speeds and the 0.98/1.02 ratios are exact reals. Ticks are unbounded integers, so no int64 overflow is modelled.
- MaxWind.MaxWindInBox: returns the unrounded maximum; `round(max(dspd), 1)` (line 84) is decimal rounding of a float and is left out. `NoData` stands for the string fallback "0.0" (line 86).
- Labels.LatLabels: emits the label as a `DegreeLabel` (number and compass letter); the string passed to `plt.text` is `Render` of it. The same holds for Labels.LonLabels. Keeping the strings out of the list lemmas keeps those proofs small.
- Gridlines.Layout: requires both tick arrays to be non-empty. The source indexes `xticks[-1]` and `yticks[-1]` and fails with an IndexError on an empty array; that failure is not modelled as a value.
- Figure.CalcFigsize: requires `lonmax != lonmin`. The source divides by zero there.
