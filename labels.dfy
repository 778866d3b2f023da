/**
 * The text labels drawn at the gridlines: a compass-suffixed degree label per
 * tick, and for longitudes the coordinate that decides whether it is drawn.
 */
module Labels {
  import opened Geo
  import opened TickFold

  datatype Option<T> = None | Some(value: T)

  /** One `plt.text` call: the label (its string is `Render(name)`) and where it is anchored. */
  datatype Text = Text(name: DegreeLabel, x: real, y: real)

  /** A longitude label and the 0-360 coordinate its containment test uses. */
  datatype LonLabel = LonLabel(name: DegreeLabel, coord: int)

  /** The character of a decimal digit 0 .. 9. */
  function DigitChar(d: nat): char
    requires d < 10
  {
    "0123456789"[d]
  }

  /** A non-empty string of decimal digits. */
  predicate IsDigits(s: string)
  {
    |s| > 0 && forall k :: 0 <= k < |s| ==> '0' <= s[k] <= '9'
  }

  /** `str(n)` for n >= 0: decimal digits, most significant first, no leading zero. */
  function DigitString(n: nat): (s: string)
    ensures IsDigits(s)
    ensures |s| > 1 ==> s[0] != '0'
  {
    if n < 10 then [DigitChar(n)] else DigitString(n / 10) + [DigitChar(n % 10)]
  }

  /** `str(i)` for any integer: a minus sign before the digits of a negative number. */
  function IntString(i: int): string
  {
    if i < 0 then "-" + DigitString(-i) else DigitString(i)
  }

  /** Reads a string of decimal digits back as a number. */
  function ParseDigits(s: string): nat
    requires forall k :: 0 <= k < |s| ==> '0' <= s[k] <= '9'
  {
    if s == [] then 0 else ParseDigits(s[..|s| - 1]) * 10 + (s[|s| - 1] as int - '0' as int)
  }

  /** Reading the decimal form of n gives back n. */
  lemma {:induction false} ParseDigitString(n: nat)
    ensures ParseDigits(DigitString(n)) == n
  {
    if n >= 10 {
      ParseDigitString(n / 10);
      var s := DigitString(n);
      assert s[..|s| - 1] == DigitString(n / 10);
    }
  }

  /** The compass suffix that follows the degree sign, or none. */
  datatype Compass = North | South | East | West | Bare

  /** A degree label: `str(degrees)` followed by the degree sign and the compass letter. */
  datatype DegreeLabel = DegreeLabel(degrees: int, compass: Compass)

  /** The characters after the number. */
  function Suffix(c: Compass): string
  {
    match c
    case North => "°N"
    case South => "°S"
    case East => "°E"
    case West => "°W"
    case Bare => "°"
  }

  /** The label as the string handed to `plt.text`. */
  function Render(l: DegreeLabel): string
  {
    IntString(l.degrees) + Suffix(l.compass)
  }

  /** The compass letter a character names, if any. */
  function CompassOf(c: char): Option<Compass>
  {
    if c == 'N' then Some(North)
    else if c == 'S' then Some(South)
    else if c == 'E' then Some(East)
    else if c == 'W' then Some(West)
    else None
  }

  /** Reads a rendered label back: digits, the degree sign, and an optional compass letter. */
  function ParseLabel(text: string): Option<DegreeLabel>
  {
    if |text| >= 2 && text[|text| - 1] == '°' && IsDigits(text[..|text| - 1]) then
      Some(DegreeLabel(ParseDigits(text[..|text| - 1]), Bare))
    else if |text| >= 3 && text[|text| - 2] == '°' && CompassOf(text[|text| - 1]).Some? &&
            IsDigits(text[..|text| - 2]) then
      Some(DegreeLabel(ParseDigits(text[..|text| - 2]), CompassOf(text[|text| - 1]).value))
    else None
  }

  /** A rendered label with a non-negative number reads back as itself. */
  lemma RenderReadsBack(l: DegreeLabel)
    requires l.degrees >= 0
    ensures ParseLabel(Render(l)) == Some(l)
  {
    var d := DigitString(l.degrees);
    var text := Render(l);
    ParseDigitString(l.degrees);
    if l.compass == Bare {
      assert text[..|text| - 1] == d;
    } else {
      assert text[|text| - 1] != '°';
      assert text[..|text| - 2] == d;
    }
  }

  /** The signed degrees a label denotes: north and east positive, south and west negative. */
  function Signed(l: DegreeLabel): int
  {
    if l.compass == South || l.compass == West then -l.degrees else l.degrees
  }

  /** The label of latitude tick i (lines 180-185): "i°N", "(-i)°S" or "0°". */
  function LatLabel(i: int): (l: DegreeLabel)
    ensures l.degrees >= 0 && Signed(l) == i
    ensures l.compass in {North, South, Bare} && (l.compass == Bare <==> i == 0)
  {
    if i > 0 then DegreeLabel(i, North)
    else if i < 0 then DegreeLabel(-1 * i, South)
    else DegreeLabel(i, Bare)
  }

  /**
   * The label of longitude tick i and its containment coordinate (lines 198-209):
   * above 180 "(360-i)°W" at i; strictly between 0 and 180 "i°E" at i; below 0
   * "(-i)°W" at 360 + i; exactly 0 or 180 a bare "i°" at i.
   */
  function LonLabelOf(i: int): (l: LonLabel)
    ensures -180 < i <= 360 ==> l.name.degrees >= 0 && Signed(l.name) == Fold(i)
    ensures -180 < i <= 180 ==>
              l.name.compass in {East, West, Bare} && (l.name.compass == Bare <==> i == 0 || i == 180)
    ensures i > 180 ==> l.name.compass == West
  {
    if i > 180 then LonLabel(DegreeLabel(360 - i, West), i)
    else if i < 180 && i > 0 then LonLabel(DegreeLabel(i, East), i)
    else if i < 0 then LonLabel(DegreeLabel(-1 * i, West), 360 + i)
    else LonLabel(DegreeLabel(i, Bare), i)
  }

  /**
   * The containment coordinate names the tick's meridian in the 0-360
   * convention the box is given in.
   */
  lemma LonCoordMeridian(i: int)
    ensures (LonLabelOf(i).coord - i) % 360 == 0
    ensures -360 < i < 360 ==> 0 <= LonLabelOf(i).coord < 360
  {
  }

  /** The signed degrees a label string denotes, if it is a label at all. */
  function ReadBack(text: string): Option<int>
  {
    match ParseLabel(text)
    case Some(l) => Some(Signed(l))
    case None => None
  }

  /** Every latitude label, as drawn, reads back as its tick: it names the tick's parallel. */
  lemma LatLabelReadsBack(i: int)
    ensures ReadBack(Render(LatLabel(i))) == Some(i)
  {
    RenderReadsBack(LatLabel(i));
  }

  /** Distinct latitude ticks get distinct label strings. */
  lemma LatLabelInjective(a: int, b: int)
    requires Render(LatLabel(a)) == Render(LatLabel(b))
    ensures a == b
  {
    LatLabelReadsBack(a);
    LatLabelReadsBack(b);
  }

  /**
   * A longitude label, as drawn, reads back as the tick's meridian in the
   * -180..180 convention: the tick itself up to 180, the tick minus 360 above it.
   */
  lemma LonLabelReadsBack(i: int)
    requires -180 < i <= 360
    ensures ReadBack(Render(LonLabelOf(i).name)) == Some(Fold(i))
  {
    RenderReadsBack(LonLabelOf(i).name);
  }

  /** Distinct longitude ticks of the display range (-180, 180] get distinct label strings. */
  lemma LonLabelInjective(a: int, b: int)
    requires -180 < a <= 180 && -180 < b <= 180
    requires Render(LonLabelOf(a).name) == Render(LonLabelOf(b).name)
    ensures a == b
  {
    LonLabelReadsBack(a);
    LonLabelReadsBack(b);
  }

  /** A longitude tick's label is drawn when its containment coordinate lies in the closed box. */
  function LonDrawn(i: int, g: GeoRange): (drawn: bool)
    ensures -360 < i < 360 ==> (drawn <==> g.lonmin <= (i % 360) as real <= g.lonmax)
  {
    var k := LonLabelOf(i).coord;
    !(k as real < g.lonmin || k as real > g.lonmax)
  }

  /** The label drawn for latitude tick i: left edge of the map, at the tick's latitude. */
  function LatPlaced(i: int, g: GeoRange): Text
  {
    Text(LatLabel(i), g.lonmin, i as real)
  }

  /** The label drawn for longitude tick i: at the tick, on the bottom edge of the map. */
  function LonPlaced(i: int, g: GeoRange): Text
  {
    Text(LonLabelOf(i).name, i as real, g.latmin)
  }

  /** The texts the latitude pass draws, in tick order; ticks outside [latmin, latmax] are skipped. */
  function LatTexts(yticks: seq<int>, g: GeoRange): (r: seq<Text>)
    ensures |r| <= |yticks|
    ensures forall k :: 0 <= k < |r| ==> r[k].x == g.lonmin && g.latmin <= r[k].y <= g.latmax
  {
    if yticks == [] then []
    else
      var i := yticks[|yticks| - 1];
      LatTexts(yticks[..|yticks| - 1], g) +
      (if i as real < g.latmin || i as real > g.latmax then [] else [LatPlaced(i, g)])
  }

  /** The texts the longitude pass draws, in tick order; ticks not drawn are skipped. */
  function LonTexts(xticks: seq<int>, g: GeoRange): (r: seq<Text>)
    ensures |r| <= |xticks|
    ensures forall k :: 0 <= k < |r| ==> r[k].y == g.latmin
  {
    if xticks == [] then []
    else
      var i := xticks[|xticks| - 1];
      LonTexts(xticks[..|xticks| - 1], g) + (if LonDrawn(i, g) then [LonPlaced(i, g)] else [])
  }

  /** Lines 177-196: the latitude label pass. */
  method LatLabels(yticks: seq<int>, g: GeoRange) returns (texts: seq<Text>)
    ensures texts == LatTexts(yticks, g)
  {
    texts := [];
    for n := 0 to |yticks|
      invariant texts == LatTexts(yticks[..n], g)
    {
      assert yticks[..n + 1][..n] == yticks[..n];
      var i := yticks[n];
      if i as real < g.latmin || i as real > g.latmax {
        continue;
      }
      // The branches of lines 180-185, spelled out as the loop has them; `LatLabel` is the same choice.
      var j;
      if i > 0 {
        j := DegreeLabel(i, North);
      } else if i < 0 {
        j := DegreeLabel(-1 * i, South);
      } else {
        j := DegreeLabel(i, Bare);
      }
      texts := texts + [Text(j, g.lonmin, i as real)];
    }
    assert yticks[..|yticks|] == yticks;
  }

  /** Lines 197-222: the longitude label pass. */
  method LonLabels(xticks: seq<int>, g: GeoRange) returns (texts: seq<Text>)
    ensures texts == LonTexts(xticks, g)
  {
    texts := [];
    for n := 0 to |xticks|
      invariant texts == LonTexts(xticks[..n], g)
    {
      assert xticks[..n + 1][..n] == xticks[..n];
      var i := xticks[n];
      // The branches of lines 198-209, spelled out as the loop has them; `LonLabelOf` is the same choice.
      var j, k;
      if i > 180 {
        j, k := DegreeLabel(360 - i, West), i;
      } else if i < 180 && i > 0 {
        j, k := DegreeLabel(i, East), i;
      } else if i < 0 {
        j, k := DegreeLabel(-1 * i, West), 360 + i;
      } else {
        j, k := DegreeLabel(i, Bare), i;
      }
      assert LonLabelOf(i) == LonLabel(j, k);
      assert LonTexts(xticks[..n + 1], g) ==
               LonTexts(xticks[..n], g) + (if LonDrawn(i, g) then [LonPlaced(i, g)] else []);
      if k as real < g.lonmin || k as real > g.lonmax {
        continue;
      }
      texts := texts + [Text(j, i as real, g.latmin)];
    }
    assert xticks[..|xticks|] == xticks;
  }

  /**
   * The skip test of the latitude pass never fires on ticks inside the box:
   * every tick gets its own label, in order, at its own latitude.
   */
  lemma {:induction false} LatTextsAllKept(yticks: seq<int>, g: GeoRange)
    requires forall k :: 0 <= k < |yticks| ==> g.latmin <= yticks[k] as real <= g.latmax
    ensures |LatTexts(yticks, g)| == |yticks|
    ensures forall k :: 0 <= k < |yticks| ==> LatTexts(yticks, g)[k] == LatPlaced(yticks[k], g)
  {
    if yticks != [] {
      LatTextsAllKept(yticks[..|yticks| - 1], g);
    }
  }

  /** A text is drawn by the longitude pass exactly when it is the label of a tick that is drawn. */
  lemma {:induction false} LonTextsMembers(xticks: seq<int>, g: GeoRange, t: Text)
    ensures t in LonTexts(xticks, g) <==>
              exists k :: 0 <= k < |xticks| && LonDrawn(xticks[k], g) && t == LonPlaced(xticks[k], g)
  {
    if xticks != [] {
      var init := xticks[..|xticks| - 1];
      LonTextsMembers(init, g, t);
      if t in LonTexts(init, g) {
        var k :| 0 <= k < |init| && LonDrawn(init[k], g) && t == LonPlaced(init[k], g);
        assert xticks[k] == init[k];
      }
      if exists k :: 0 <= k < |xticks| && LonDrawn(xticks[k], g) && t == LonPlaced(xticks[k], g) {
        var k :| 0 <= k < |xticks| && LonDrawn(xticks[k], g) && t == LonPlaced(xticks[k], g);
        if k < |init| {
          assert init[k] == xticks[k];
        }
      }
    }
  }

  /** When every longitude tick is drawn, each gets its own label, in order. */
  lemma {:induction false} LonTextsAllKept(xticks: seq<int>, g: GeoRange)
    requires forall k :: 0 <= k < |xticks| ==> LonDrawn(xticks[k], g)
    ensures |LonTexts(xticks, g)| == |xticks|
    ensures forall k :: 0 <= k < |xticks| ==> LonTexts(xticks, g)[k] == LonPlaced(xticks[k], g)
  {
    if xticks != [] {
      LonTextsAllKept(xticks[..|xticks| - 1], g);
    }
  }
}
