/**
 * Gridline tick positions: every 2 degrees, from one step below the bounds
 * rounded outward to a multiple of 2, kept only strictly inside the box.
 */
module Ticks {
  import opened Geo

  /** `dlon = dlat = 2`: the tick spacing in degrees. */
  const Step: int := 2

  /**
   * Python's `x - x % 2`. Python's `%` takes the sign of the divisor, so this is
   * x rounded down to a multiple of 2 (for any sign of x).
   */
  function FloorTo2(x: real): (r: int)
    ensures r % 2 == 0
    ensures r as real <= x < r as real + 2.0
  {
    2 * (x / 2.0).Floor
  }

  /**
   * Python's `x - x % -2`. With a negative divisor `%` is never positive, so this
   * is x rounded up to a multiple of 2.
   */
  function CeilTo2(x: real): (r: int)
    ensures r % 2 == 0
    ensures r as real - 2.0 < x <= r as real
  {
    -2 * (-x / 2.0).Floor
  }

  /** `np.arange(start, stop, 2)`: start, start + 2, ... while below stop. */
  function Arange(start: int, stop: int): (s: seq<int>)
    ensures |s| == if start < stop then (stop - start + 1) / 2 else 0
    ensures forall k :: 0 <= k < |s| ==> s[k] == start + Step * k
    decreases stop - start
  {
    if start >= stop then [] else [start] + Arange(start + Step, stop)
  }

  /** The boolean mask `ticks[(ticks > lo) & (ticks < hi)]`: keeps order, drops ticks not strictly inside. */
  function Interior(ticks: seq<int>, lo: real, hi: real): (s: seq<int>)
    ensures forall t :: t in s <==> t in ticks && lo < t as real < hi
    ensures |s| <= |ticks|
  {
    if ticks == [] then []
    else (if lo < ticks[0] as real < hi then [ticks[0]] else []) + Interior(ticks[1..], lo, hi)
  }

  /** The ticks of one axis with bounds lo and hi (lines 142-146). */
  function AxisTicks(lo: real, hi: real): (s: seq<int>)
    ensures forall t :: t in s ==> lo < t as real < hi
  {
    Interior(Arange(FloorTo2(lo) - Step, CeilTo2(hi) + Step), lo, hi)
  }

  /** `xticks` as first computed: the longitude ticks. */
  function LonTicks(g: GeoRange): (xticks: seq<int>)
    ensures forall t :: t in xticks ==> g.lonmin < t as real < g.lonmax
  {
    AxisTicks(g.lonmin, g.lonmax)
  }

  /** `yticks`: the latitude ticks. */
  function LatTicks(g: GeoRange): (yticks: seq<int>)
    ensures forall t :: t in yticks ==> g.latmin < t as real < g.latmax
  {
    AxisTicks(g.latmin, g.latmax)
  }

  /** Strictly ascending. */
  predicate Ascending(s: seq<int>)
  {
    forall p, q :: 0 <= p < q < |s| ==> s[p] < s[q]
  }

  /** The range from an even start holds exactly the even numbers from start up to stop. */
  lemma ArangeMembers(start: int, stop: int, t: int)
    requires start % 2 == 0
    ensures t in Arange(start, stop) <==> t % 2 == 0 && start <= t < stop
  {
    var s := Arange(start, stop);
    if t % 2 == 0 && start <= t < stop {
      var k := (t - start) / 2;
      assert s[k] == t;
    }
  }

  /** The range is strictly ascending. */
  lemma ArangeAscending(start: int, stop: int)
    ensures Ascending(Arange(start, stop))
  {
  }

  /** Dropping ticks keeps an ascending sequence ascending. */
  lemma {:induction false} InteriorAscending(ticks: seq<int>, lo: real, hi: real)
    requires Ascending(ticks)
    ensures Ascending(Interior(ticks, lo, hi))
  {
    if ticks != [] {
      var rest := ticks[1..];
      InteriorAscending(rest, lo, hi);
      var tail := Interior(rest, lo, hi);
      forall t | t in tail ensures ticks[0] < t {
        var q :| 0 <= q < |rest| && rest[q] == t;
        assert ticks[q + 1] == t;
      }
      if lo < ticks[0] as real < hi {
        var s := [ticks[0]] + tail;
        assert Interior(ticks, lo, hi) == s;
        forall p, q | 0 <= p < q < |s| ensures s[p] < s[q] {
          assert s[q] == tail[q - 1] && tail[q - 1] in tail;
          if p > 0 {
            assert s[p] == tail[p - 1];
          }
        }
      } else {
        assert Interior(ticks, lo, hi) == tail;
      }
    }
  }

  /** A tick is kept exactly when it is even and strictly inside the bounds. */
  lemma AxisTickMember(lo: real, hi: real, t: int)
    ensures t in AxisTicks(lo, hi) <==> t % 2 == 0 && lo < t as real < hi
  {
    var start, stop := FloorTo2(lo) - Step, CeilTo2(hi) + Step;
    var r := Arange(start, stop);
    ArangeMembers(start, stop, t);
    assert t in AxisTicks(lo, hi) <==> t in r && lo < t as real < hi;
    if lo < t as real < hi {
      assert start as real < t as real;
      assert (t as real) < stop as real;
    }
  }

  /**
   * The ticks of an axis are exactly the multiples of 2 strictly between the
   * bounds, in ascending order; in particular no tick equals a bound.
   */
  lemma AxisTicksExact(lo: real, hi: real)
    ensures forall t :: t in AxisTicks(lo, hi) <==> t % 2 == 0 && lo < t as real < hi
    ensures Ascending(AxisTicks(lo, hi))
  {
    var start, stop := FloorTo2(lo) - Step, CeilTo2(hi) + Step;
    forall t ensures t in AxisTicks(lo, hi) <==> t % 2 == 0 && lo < t as real < hi {
      AxisTickMember(lo, hi, t);
    }
    ArangeAscending(start, stop);
    InteriorAscending(Arange(start, stop), lo, hi);
  }

  /** A box more than one tick spacing wide always has a tick strictly inside. */
  lemma WideAxisHasTicks(lo: real, hi: real)
    requires hi - lo > 2.0
    ensures |AxisTicks(lo, hi)| > 0
  {
    var t := FloorTo2(lo) + Step;
    AxisTicksExact(lo, hi);
    assert t in AxisTicks(lo, hi);
  }

  /** Two ascending sequences with the same elements are the same sequence. */
  lemma {:induction false} AscendingUnique(a: seq<int>, b: seq<int>)
    requires Ascending(a) && Ascending(b)
    requires forall t :: t in a <==> t in b
    ensures a == b
  {
    if a != [] {
      assert a[0] in a;
    }
    if b != [] {
      assert b[0] in b;
    }
    if a != [] && b != [] {
      assert a[0] in b && b[0] in a;
      var i :| 0 <= i < |b| && b[i] == a[0];
      var j :| 0 <= j < |a| && a[j] == b[0];
      assert a[0] <= a[j] && b[0] <= b[i];
      forall t ensures t in a[1..] <==> t in b[1..] {
        if t in a[1..] {
          var p :| 1 <= p < |a| && a[p] == t;
          assert a[p] in a;
          var q :| 0 <= q < |b| && b[q] == t;
          assert q != 0;
        }
        if t in b[1..] {
          var q :| 1 <= q < |b| && b[q] == t;
          assert b[q] in b;
          var p :| 0 <= p < |a| && a[p] == t;
          assert p != 0;
        }
      }
      AscendingUnique(a[1..], b[1..]);
      assert a == [a[0]] + a[1..] && b == [b[0]] + b[1..];
    }
  }

  /** The box of the demonstration call, (-40, -25, 150, 165). */
  const Demo: GeoRange := GeoRange(-40.0, -25.0, 150.0, 165.0)

  /** The demonstration box's longitude ticks: 152 .. 164, both bounds excluded. */
  lemma DemoLonTicks()
    ensures LonTicks(Demo) == [152, 154, 156, 158, 160, 162, 164]
  {
    var want := [152, 154, 156, 158, 160, 162, 164];
    AxisTicksExact(150.0, 165.0);
    forall t ensures t in want <==> t % 2 == 0 && 150.0 < t as real < 165.0 {
      if t % 2 == 0 && 150.0 < t as real < 165.0 {
        assert t == 152 || t == 154 || t == 156 || t == 158 || t == 160 || t == 162 || t == 164;
      }
    }
    AscendingUnique(LonTicks(Demo), want);
  }

  /** The demonstration box's latitude ticks: -38 .. -26, both bounds excluded. */
  lemma DemoLatTicks()
    ensures LatTicks(Demo) == [-38, -36, -34, -32, -30, -28, -26]
  {
    var want := [-38, -36, -34, -32, -30, -28, -26];
    AxisTicksExact(-40.0, -25.0);
    forall t ensures t in want <==> t % 2 == 0 && -40.0 < t as real < -25.0 {
      if t % 2 == 0 && -40.0 < t as real < -25.0 {
        assert t == -38 || t == -36 || t == -34 || t == -32 || t == -30 || t == -28 || t == -26;
      }
    }
    AscendingUnique(LatTicks(Demo), want);
  }
}
