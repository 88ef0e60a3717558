/** Overload detection: samples whose real or imaginary part comes within
    5% of the largest magnitude seen are taken as possibly clipped; the
    data without them is fitted again and that fit replaces the first one
    only if its residual is strictly smaller. */
module Overload {
  import opened Model
  import opened Fit

  function Abs(x: real): (r: real)
    ensures 0.0 <= r && (r == x || r == -x)
  {
    if x < 0.0 then -x else x
  }

  /** The running maximum `if (fabs(a[i]) > m) m = fabs(a[i])` from index i on. */
  function MaxAbsScan(a: seq<real>, i: nat, m: real): (r: real)
    requires i <= |a| && 0.0 <= m
    requires forall j :: 0 <= j < i ==> Abs(a[j]) <= m
    requires m == 0.0 || exists j :: 0 <= j < i && Abs(a[j]) == m
    ensures 0.0 <= r && forall j :: 0 <= j < |a| ==> Abs(a[j]) <= r
    ensures r == 0.0 || exists j :: 0 <= j < |a| && Abs(a[j]) == r
    decreases |a| - i
  {
    if i == |a| then m
    else MaxAbsScan(a, i + 1, if Abs(a[i]) > m then Abs(a[i]) else m)
  }

  /** The largest magnitude in a, starting from 0: 0 for an empty or
      all-zero sequence, and otherwise attained by some element. */
  function MaxAbs(a: seq<real>): (m: real)
    ensures 0.0 <= m && forall j :: 0 <= j < |a| ==> Abs(a[j]) <= m
    ensures m == 0.0 || exists j :: 0 <= j < |a| && Abs(a[j]) == m
  {
    MaxAbsScan(a, 0, 0.0)
  }

  /** MaxAbs is zero exactly when every element is zero. */
  lemma MaxAbsZeroIff(a: seq<real>)
    ensures MaxAbs(a) == 0.0 <==> forall j :: 0 <= j < |a| ==> a[j] == 0.0
  {
    var m := MaxAbs(a);
    if m != 0.0 {
      var j :| 0 <= j < |a| && Abs(a[j]) == m;
      assert a[j] != 0.0;
    }
  }

  /** A sample survives unless a component exceeds 95% of its maximum. */
  predicate Kept(x: Sample, maxx: real, maxy: real) {
    !(Abs(x.re) > maxx * 0.95 || Abs(x.im) > maxy * 0.95)
  }

  /** The surviving samples, in their original order. */
  function Unclipped(s: seq<Sample>, maxx: real, maxy: real): (r: seq<Sample>)
    ensures |r| <= |s|
    ensures forall x :: x in r <==> x in s && Kept(x, maxx, maxy)
  {
    if |s| == 0 then []
    else (if Kept(s[0], maxx, maxy) then [s[0]] else []) + Unclipped(s[1..], maxx, maxy)
  }

  /** Filtering distributes over concatenation, so it keeps the order. */
  lemma {:induction false} UnclippedAppend(a: seq<Sample>, b: seq<Sample>, maxx: real, maxy: real)
    ensures Unclipped(a + b, maxx, maxy) == Unclipped(a, maxx, maxy) + Unclipped(b, maxx, maxy)
    decreases |a|
  {
    if |a| == 0 {
      assert a + b == b;
    } else {
      assert (a + b)[1..] == a[1..] + b;
      UnclippedAppend(a[1..], b, maxx, maxy);
    }
  }

  /** Nothing is dropped exactly when every sample survives. */
  lemma {:induction false} UnclippedKeepsAllIff(s: seq<Sample>, maxx: real, maxy: real)
    ensures Unclipped(s, maxx, maxy) == s <==> forall i :: 0 <= i < |s| ==> Kept(s[i], maxx, maxy)
    ensures |Unclipped(s, maxx, maxy)| == |s| <==> Unclipped(s, maxx, maxy) == s
    decreases |s|
  {
    if |s| > 0 {
      UnclippedKeepsAllIff(s[1..], maxx, maxy);
      var rest := Unclipped(s[1..], maxx, maxy);
      if !Kept(s[0], maxx, maxy) {
        assert s[0] !in Unclipped(s, maxx, maxy);
      } else if forall i :: 0 <= i < |s| ==> Kept(s[i], maxx, maxy) {
        assert forall i :: 0 <= i < |s| - 1 ==> Kept(s[1..][i], maxx, maxy) by {
          forall i | 0 <= i < |s| - 1 ensures Kept(s[1..][i], maxx, maxy) {
            assert s[1..][i] == s[i + 1];
          }
        }
        assert s == [s[0]] + s[1..];
      } else {
        var k :| 0 <= k < |s| && !Kept(s[k], maxx, maxy);
        assert s[1..][k - 1] == s[k];
        assert rest != s[1..];
      }
    }
  }

  /** The loop that copies the surviving samples one by one. */
  method CopyUnclipped(s: seq<Sample>, maxx: real, maxy: real) returns (r: seq<Sample>)
    ensures r == Unclipped(s, maxx, maxy)
  {
    r := [];
    var i := 0;
    while i < |s|
      invariant 0 <= i <= |s|
      invariant r == Unclipped(s[..i], maxx, maxy)
    {
      UnclippedAppend(s[..i], [s[i]], maxx, maxy);
      assert s[..i + 1] == s[..i] + [s[i]];
      if Kept(s[i], maxx, maxy) {
        r := r + [s[i]];
      }
      i := i + 1;
    }
    assert s[..i] == s;
  }

  /** With the maxima taken over the data itself, the filter drops at least
      one sample exactly when some sample is not zero in both components. */
  lemma ClippingDropsIffSignal(s: seq<Sample>)
    ensures var r := Unclipped(s, MaxAbs(Reals(s)), MaxAbs(Imags(s)));
            |r| < |s| <==> exists i :: 0 <= i < |s| && (s[i].re != 0.0 || s[i].im != 0.0)
  {
    var mx, my := MaxAbs(Reals(s)), MaxAbs(Imags(s));
    UnclippedKeepsAllIff(s, mx, my);
    MaxAbsZeroIff(Reals(s));
    MaxAbsZeroIff(Imags(s));
    if exists i :: 0 <= i < |s| && (s[i].re != 0.0 || s[i].im != 0.0) {
      var i :| 0 <= i < |s| && (s[i].re != 0.0 || s[i].im != 0.0);
      if s[i].re != 0.0 {
        assert Reals(s)[i] != 0.0;
        var j :| 0 <= j < |s| && Abs(Reals(s)[j]) == mx;
        assert !Kept(s[j], mx, my);
      } else {
        assert Imags(s)[i] != 0.0;
        var j :| 0 <= j < |s| && Abs(Imags(s)[j]) == my;
        assert !Kept(s[j], mx, my);
      }
    } else {
      assert forall i :: 0 <= i < |s| ==> Reals(s)[i] == 0.0 && Imags(s)[i] == 0.0;
    }
  }

  /** The fit that is reported: the refit replaces the full fit only if its
      residual is strictly smaller, so a tie keeps the full fit. */
  function Prefer(full: FitOut, refit: FitOut): (r: FitOut)
    ensures r == full || r == refit
    ensures r.res <= full.res && r.res <= refit.res
    ensures full.res <= refit.res ==> r == full
  {
    if refit.res < full.res then refit else full
  }
}
