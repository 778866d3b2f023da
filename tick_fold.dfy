/**
 * The in-place fold of the longitude ticks into the display range: a tick
 * east of 180 is rewritten as the same meridian counted westward (t - 360).
 */
module TickFold {

  /** The fold of one tick. */
  function Fold(t: int): (r: int)
    ensures (r - t) % 360 == 0
    ensures t <= 180 ==> r == t
    ensures 180 < t <= 540 ==> -180 < r <= 180
  {
    if t > 180 then t - 360 else t
  }

  /**
   * The whole tick array after the fold: each tick names the same meridian as
   * before, ticks up to 180 are untouched, and ticks up to 540 end up at most 180.
   */
  function FoldAll(s: seq<int>): (r: seq<int>)
    ensures |r| == |s|
    ensures forall k :: 0 <= k < |s| ==> (r[k] - s[k]) % 360 == 0
    ensures forall k :: 0 <= k < |s| && s[k] <= 180 ==> r[k] == s[k]
    ensures forall k :: 0 <= k < |s| && s[k] <= 540 ==> r[k] <= 180
    ensures forall k :: 0 <= k < |s| && s[k] > -180 ==> r[k] > -180
  {
    seq(|s|, k requires 0 <= k < |s| => Fold(s[k]))
  }

  /** `np.where(xticks > 180)[0]` restricted to indices below n: the positions to fold, ascending. */
  function WhereAbove180(s: seq<int>, n: nat): (xi: seq<int>)
    requires n <= |s|
    ensures forall p :: 0 <= p < |xi| ==> 0 <= xi[p] < n && s[xi[p]] > 180
    ensures forall p, q :: 0 <= p < q < |xi| ==> xi[p] < xi[q]
    ensures forall k :: 0 <= k < n && s[k] > 180 ==> k in xi
  {
    if n == 0 then []
    else WhereAbove180(s, n - 1) + (if s[n - 1] > 180 then [n - 1] else [])
  }

  /** The ticks after the first i positions listed in xi have been folded. */
  ghost function FoldedUpTo(s: seq<int>, xi: seq<int>, i: nat): seq<int>
    requires i <= |xi|
  {
    seq(|s|, k requires 0 <= k < |s| => if k in xi[..i] then s[k] - 360 else s[k])
  }

  /** One more step of the loop folds exactly position xi[i]. */
  lemma FoldStep(s: seq<int>, xi: seq<int>, i: nat)
    requires i < |xi| && 0 <= xi[i] < |s|
    requires forall p, q :: 0 <= p < q < |xi| ==> xi[p] < xi[q]
    ensures FoldedUpTo(s, xi, i + 1) == FoldedUpTo(s, xi, i)[xi[i] := s[xi[i]] - 360]
  {
  }

  /** After the loop, exactly the ticks above 180 have been folded. */
  lemma FoldDone(s: seq<int>)
    ensures FoldedUpTo(s, WhereAbove180(s, |s|), |WhereAbove180(s, |s|)|) == FoldAll(s)
  {
  }

  /**
   * Lines 160-162: find the ticks above 180 and subtract 360 from each of them
   * in place; the array afterwards is the fold of its old contents.
   */
  method FoldInPlace(xticks: array<int>)
    modifies xticks
    ensures xticks[..] == FoldAll(old(xticks[..]))
  {
    ghost var s := xticks[..];
    var xi := WhereAbove180(xticks[..], xticks.Length);
    for i := 0 to |xi|
      invariant xticks[..] == FoldedUpTo(s, xi, i)
    {
      FoldStep(s, xi, i);
      xticks[xi[i]] := xticks[xi[i]] - 360;
    }
    FoldDone(s);
  }
}
