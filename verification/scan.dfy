/** The index scans of the initial-guess heuristic, each written as the
    left-to-right loop fit_res_init runs (a tail-recursive function whose
    arguments are the loop variables) and specified by what it finds. */
module Scan {

  // ---------------------------------------------------------------------
  // First minimum and first maximum.

  /** k is the first index holding the least value of a. */
  predicate IsFirstMin(a: seq<real>, k: int) {
    0 <= k < |a| &&
    (forall j :: 0 <= j < |a| ==> a[k] <= a[j]) &&
    (forall j :: 0 <= j < k ==> a[k] < a[j])
  }

  /** k is the first index holding the greatest value of a. */
  predicate IsFirstMax(a: seq<real>, k: int) {
    0 <= k < |a| &&
    (forall j :: 0 <= j < |a| ==> a[j] <= a[k]) &&
    (forall j :: 0 <= j < k ==> a[j] < a[k])
  }

  /** The loop `if (a[i] < a[best]) best = i` from index i on. */
  function MinScan(a: seq<real>, i: nat, best: nat): (k: nat)
    requires best <= i <= |a| && best < |a|
    requires forall j :: 0 <= j < i ==> a[best] <= a[j]
    requires forall j :: 0 <= j < best ==> a[best] < a[j]
    ensures IsFirstMin(a, k)
    decreases |a| - i
  {
    if i == |a| then best
    else MinScan(a, i + 1, if a[i] < a[best] then i else best)
  }

  /** The loop `if (a[i] > a[best]) best = i` from index i on. */
  function MaxScan(a: seq<real>, i: nat, best: nat): (k: nat)
    requires best <= i <= |a| && best < |a|
    requires forall j :: 0 <= j < i ==> a[j] <= a[best]
    requires forall j :: 0 <= j < best ==> a[j] < a[best]
    ensures IsFirstMax(a, k)
    decreases |a| - i
  {
    if i == |a| then best
    else MaxScan(a, i + 1, if a[i] > a[best] then i else best)
  }

  /** The scan started at index 0 with best = 0. */
  function FirstMin(a: seq<real>): (k: nat)
    requires |a| > 0
    ensures IsFirstMin(a, k)
  {
    MinScan(a, 0, 0)
  }

  function FirstMax(a: seq<real>): (k: nat)
    requires |a| > 0
    ensures IsFirstMax(a, k)
  {
    MaxScan(a, 0, 0)
  }

  /** The first-minimum index is determined by the values. */
  lemma FirstMinUnique(a: seq<real>, k1: int, k2: int)
    requires IsFirstMin(a, k1) && IsFirstMin(a, k2)
    ensures k1 == k2
  {
    var x1, x2 := a[k1], a[k2];
    assert x1 <= x2 && x2 <= x1;
  }

  lemma FirstMaxUnique(a: seq<real>, k1: int, k2: int)
    requires IsFirstMax(a, k1) && IsFirstMax(a, k2)
    ensures k1 == k2
  {
    var x1, x2 := a[k1], a[k2];
    assert x1 <= x2 && x2 <= x1;
  }

  /** The extremes coincide in value exactly when all values are equal. */
  lemma ExtremesMeetIffConstant(a: seq<real>)
    requires |a| > 0
    ensures a[FirstMin(a)] == a[FirstMax(a)] <==> forall j :: 0 <= j < |a| ==> a[j] == a[0]
  {
    var lo, hi := FirstMin(a), FirstMax(a);
    if forall j :: 0 <= j < |a| ==> a[j] == a[0] {
      assert a[lo] == a[0] && a[hi] == a[0];
    }
  }

  // ---------------------------------------------------------------------
  // The peak: the first index of greatest distance, against a running
  // maximum that starts at 0 with index 0.

  /** The loop `if (d[i] > top) { top = d[i]; at = i; }` from index i on,
      where top starts at 0 and at at 0. */
  function PeakScan(d: seq<real>, i: nat, top: real, at: nat): (k: nat)
    requires |d| > 0 && i <= |d| && at < |d|
    requires forall j :: 0 <= j < |d| ==> 0.0 <= d[j]
    requires i == 0 ==> at == 0 && top == 0.0
    requires i > 0 ==> at < i && top == d[at] &&
                       (forall j :: 0 <= j < i ==> d[j] <= top) &&
                       (forall j :: 0 <= j < at ==> d[j] < top)
    ensures IsFirstMax(d, k)
    decreases |d| - i
  {
    if i == |d| then at
    else if d[i] > top then PeakScan(d, i + 1, d[i], i)
    else PeakScan(d, i + 1, top, at)
  }

  /** Index of the sample furthest from the chord, given the (non-negative)
      squared distances. When every distance is 0 the running maximum is
      never raised and the index stays 0. */
  function Peak(d: seq<real>): (k: nat)
    requires |d| > 0
    requires forall j :: 0 <= j < |d| ==> 0.0 <= d[j]
    ensures IsFirstMax(d, k)
    ensures (forall j :: 0 <= j < |d| ==> d[j] == 0.0) ==> k == 0
  {
    PeakScan(d, 0, 0.0, 0)
  }

  // ---------------------------------------------------------------------
  // The width window: lowest and highest frequency among the samples above
  // the threshold, both starting from the peak index.

  /** What the lower window end satisfies: it is the seed or a sample above
      the threshold, no candidate has a lower frequency, and it moved off
      the seed only to the first candidate of strictly lower frequency. */
  predicate IsLowEnd(fr: seq<real>, above: seq<bool>, seed: nat, k: int)
    requires |above| == |fr| && seed < |fr|
  {
    0 <= k < |fr| && (k == seed || above[k]) && fr[k] <= fr[seed] &&
    (forall j :: 0 <= j < |fr| && above[j] ==> fr[k] <= fr[j]) &&
    (k != seed ==> fr[k] < fr[seed] && forall j :: 0 <= j < k && above[j] ==> fr[k] < fr[j])
  }

  predicate IsHighEnd(fr: seq<real>, above: seq<bool>, seed: nat, k: int)
    requires |above| == |fr| && seed < |fr|
  {
    0 <= k < |fr| && (k == seed || above[k]) && fr[seed] <= fr[k] &&
    (forall j :: 0 <= j < |fr| && above[j] ==> fr[j] <= fr[k]) &&
    (k != seed ==> fr[seed] < fr[k] && forall j :: 0 <= j < k && above[j] ==> fr[j] < fr[k])
  }

  /** The loop `if (above[i] && fr[i] < fr[lo]) lo = i` from index i on. */
  function LowScan(fr: seq<real>, above: seq<bool>, seed: nat, i: nat, lo: nat): (k: nat)
    requires |above| == |fr| && seed < |fr| && i <= |fr| && lo < |fr|
    requires lo == seed || (above[lo] && lo < i)
    requires fr[lo] <= fr[seed]
    requires forall j :: 0 <= j < i && above[j] ==> fr[lo] <= fr[j]
    requires lo != seed ==> fr[lo] < fr[seed] && forall j :: 0 <= j < lo && above[j] ==> fr[lo] < fr[j]
    ensures IsLowEnd(fr, above, seed, k)
    decreases |fr| - i
  {
    if i == |fr| then lo
    else LowScan(fr, above, seed, i + 1, if above[i] && fr[i] < fr[lo] then i else lo)
  }

  function HighScan(fr: seq<real>, above: seq<bool>, seed: nat, i: nat, hi: nat): (k: nat)
    requires |above| == |fr| && seed < |fr| && i <= |fr| && hi < |fr|
    requires hi == seed || (above[hi] && hi < i)
    requires fr[seed] <= fr[hi]
    requires forall j :: 0 <= j < i && above[j] ==> fr[j] <= fr[hi]
    requires hi != seed ==> fr[seed] < fr[hi] && forall j :: 0 <= j < hi && above[j] ==> fr[j] < fr[hi]
    ensures IsHighEnd(fr, above, seed, k)
    decreases |fr| - i
  {
    if i == |fr| then hi
    else HighScan(fr, above, seed, i + 1, if above[i] && fr[i] > fr[hi] then i else hi)
  }

  function LowEnd(fr: seq<real>, above: seq<bool>, seed: nat): (k: nat)
    requires |above| == |fr| && seed < |fr|
    ensures IsLowEnd(fr, above, seed, k)
  {
    LowScan(fr, above, seed, 0, seed)
  }

  function HighEnd(fr: seq<real>, above: seq<bool>, seed: nat): (k: nat)
    requires |above| == |fr| && seed < |fr|
    ensures IsHighEnd(fr, above, seed, k)
  {
    HighScan(fr, above, seed, 0, seed)
  }

  /** The window ends are determined by the frequencies, the candidate set and the seed. */
  lemma LowEndUnique(fr: seq<real>, above: seq<bool>, seed: nat, k1: int, k2: int)
    requires |above| == |fr| && seed < |fr|
    requires IsLowEnd(fr, above, seed, k1) && IsLowEnd(fr, above, seed, k2)
    ensures k1 == k2
  {
  }

  lemma HighEndUnique(fr: seq<real>, above: seq<bool>, seed: nat, k1: int, k2: int)
    requires |above| == |fr| && seed < |fr|
    requires IsHighEnd(fr, above, seed, k1) && IsHighEnd(fr, above, seed, k2)
    ensures k1 == k2
  {
  }

  // ---------------------------------------------------------------------
  // Widening a collapsed window.

  datatype Window = Window(lo: nat, hi: nat)

  /** When the two ends coincide, each is moved one index outwards if it can be. */
  function Widen(n: nat, w: Window): (r: Window)
    requires w.lo < n && w.hi < n
    ensures r.lo < n && r.hi < n
    ensures w.lo != w.hi ==> r == w
    ensures w.lo == w.hi ==> r.lo == (if w.lo > 0 then w.lo - 1 else w.lo)
    ensures w.lo == w.hi ==> r.hi == (if w.hi < n - 1 then w.hi + 1 else w.hi)
  {
    if w.lo == w.hi then
      Window(if w.lo > 0 then w.lo - 1 else w.lo, if w.hi < n - 1 then w.hi + 1 else w.hi)
    else w
  }

  predicate Ascending(fr: seq<real>) {
    forall i, j :: 0 <= i <= j < |fr| ==> fr[i] <= fr[j]
  }

  /** The width fr[hi] - fr[lo] of the final window is non-negative when the
      window did not collapse, and also when it did collapse if the
      frequencies are in ascending order. */
  lemma WidthNonNegative(fr: seq<real>, above: seq<bool>, seed: nat)
    requires |above| == |fr| && seed < |fr|
    requires LowEnd(fr, above, seed) != HighEnd(fr, above, seed) || Ascending(fr)
    ensures var r := Widen(|fr|, Window(LowEnd(fr, above, seed), HighEnd(fr, above, seed)));
            fr[r.lo] <= fr[r.hi]
  {
  }

  /** With descending frequencies a collapsed window widens to a negative width. */
  lemma DescendingWidthNegative()
    ensures var fr := [3.0, 2.0, 1.0];
            var above := [false, true, false];
            var r := Widen(3, Window(LowEnd(fr, above, 1), HighEnd(fr, above, 1)));
            r == Window(0, 2) && fr[r.hi] - fr[r.lo] == -2.0
  {
    var fr := [3.0, 2.0, 1.0];
    var above := [false, true, false];
    LowEndUnique(fr, above, 1, LowEnd(fr, above, 1), 1);
    HighEndUnique(fr, above, 1, HighEnd(fr, above, 1), 1);
  }
}
