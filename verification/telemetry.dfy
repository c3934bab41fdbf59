/**
 * Visualisation smoothing of `scopeDataRaw` and `scopeDataProc`: an
 * exponential moving average with fixed weights 0.8 (old) and 0.2 (new),
 * applied once per analysed frame and bin.
 */
module Telemetry {
  import opened Layout

  /** Weight of the old snapshot and of the new value; they sum to one. */
  const Decay: real := 0.8
  const Weight: real := 0.2

  function Abs(x: real): real
  {
    if x < 0.0 then -x else x
  }

  /** One smoothing step of snapshot value s towards new value x. */
  function Smooth(s: real, x: real): (r: real)
    ensures r - x == Decay * (s - x)
    ensures s <= x ==> s <= r <= x
    ensures x <= s ==> x <= r <= s
  {
    s * Decay + x * Weight
  }

  /** A whole snapshot array smoothed towards the first NumBins values of xs; the top slot is kept. */
  function SmoothBins(snap: BinArray, xs: seq<real>): (r: BinArray)
    requires |xs| == NumBins
    ensures forall k :: 0 <= k < NumBins ==> r[k] - xs[k] == Decay * (snap[k] - xs[k])
    ensures r[NumBins] == snap[NumBins]
  {
    seq(BinSlots, k requires 0 <= k < BinSlots => if k < NumBins then Smooth(snap[k], xs[k]) else snap[k])
  }

  /** The snapshot after n frames that all carry the value c. */
  function SmoothRepeat(s: real, c: real, n: nat): real
  {
    if n == 0 then s else Smooth(SmoothRepeat(s, c, n - 1), c)
  }

  function Power(b: real, n: nat): real
  {
    if n == 0 then 1.0 else b * Power(b, n - 1)
  }

  /** Under a constant input the snapshot moves monotonically towards it and never overshoots. */
  lemma {:induction false} SmoothNeverOvershoots(s: real, c: real, n: nat)
    ensures s <= c ==> s <= SmoothRepeat(s, c, n) <= SmoothRepeat(s, c, n + 1) <= c
    ensures c <= s ==> c <= SmoothRepeat(s, c, n + 1) <= SmoothRepeat(s, c, n) <= s
  {
    if n > 0 {
      SmoothNeverOvershoots(s, c, n - 1);
    }
  }

  /** The distance to a constant input shrinks by exactly the factor 0.8 per frame. */
  lemma {:induction false} SmoothIsGeometric(s: real, c: real, n: nat)
    ensures c - SmoothRepeat(s, c, n) == Power(Decay, n) * (c - s)
  {
    if n > 0 {
      SmoothIsGeometric(s, c, n - 1);
      StepDistance(SmoothRepeat(s, c, n - 1), c, Power(Decay, n - 1), c - s);
    }
  }

  /** One more frame of input c multiplies a distance p * e to c by the decay. */
  lemma StepDistance(prev: real, c: real, p: real, e: real)
    requires c - prev == p * e
    ensures c - Smooth(prev, c) == (Decay * p) * e
  {
    assert c - Smooth(prev, c) == Decay * (c - prev);
  }

  /** 0.8^n <= 1 / (1 + n/4), from 1.25^n >= 1 + n/4. */
  lemma {:induction false} DecayBound(n: nat)
    ensures 0.0 < Power(Decay, n) <= 1.0
    ensures Power(Decay, n) * (1.0 + n as real / 4.0) <= 1.0
  {
    if n > 0 {
      DecayBound(n - 1);
      var p := Power(Decay, n - 1);
      var m := (n - 1) as real;
      assert Power(Decay, n) == 0.8 * p;
      calc {
        Power(Decay, n) * (1.0 + n as real / 4.0);
        0.8 * p * (1.0 + m / 4.0) + 0.2 * p;
        <= 0.8 * 1.0 + 0.2 * p;
        <= 1.0;
      }
    }
  }

  /**
   * With constant input c the snapshot converges to c: after n frames it is
   * within |c - s| / (1 + n/4) of c, hence within any eps > 0 once
   * n >= 4 |c - s| / eps.
   */
  lemma SmoothConverges(s: real, c: real, n: nat, eps: real)
    requires eps > 0.0
    requires n as real * eps >= 4.0 * Abs(c - s)
    ensures Abs(c - SmoothRepeat(s, c, n)) <= eps
  {
    SmoothIsGeometric(s, c, n);
    DecayBound(n);
    var p := Power(Decay, n);
    var e := c - s;
    AbsScale(p, e);
    var q := c - SmoothRepeat(s, c, n);
    assert q == p * e;
    assert Abs(c - SmoothRepeat(s, c, n)) == p * Abs(e);
    ShrinkWithin(p, Abs(e), n as real, eps);
  }

  /** p (1 + m/4) <= 1 and 4d <= m eps give p d <= eps. */
  lemma ShrinkWithin(p: real, d: real, m: real, eps: real)
    requires 0.0 < p && d >= 0.0 && m >= 0.0 && eps > 0.0
    requires p * (1.0 + m / 4.0) <= 1.0
    requires m * eps >= 4.0 * d
    ensures p * d <= eps
  {
    var q := 1.0 + m / 4.0;
    assert (p * d) * q <= d by {
      assert (p * d) * q == (p * q) * d;
      MulLeOne(p * q, d);
    }
    assert d <= eps * q - eps;
    ScaleCancel(p * d, eps, q);
  }

  lemma MulLeOne(a: real, d: real)
    requires a <= 1.0 && d >= 0.0
    ensures a * d <= d
  {
    assert (1.0 - a) * d >= 0.0;
  }

  /** x * q <= y * q - y with q > 0 and y > 0 gives x <= y. */
  lemma ScaleCancel(x: real, y: real, q: real)
    requires q > 0.0 && y > 0.0 && x * q <= y * q - y
    ensures x <= y
  {
    assert (x - y) * q <= -y;
  }

  lemma AbsScale(p: real, x: real)
    requires p >= 0.0
    ensures Abs(p * x) == p * Abs(x)
  {
    if x < 0.0 {
      assert p * x <= 0.0;
    } else {
      assert p * x >= 0.0;
    }
  }
}
