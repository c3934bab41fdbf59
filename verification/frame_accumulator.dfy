/**
 * The frame accumulator of processBlock: a write cursor into `inputBuffer`,
 * a frame copy every hop, and a left shift of the buffer by one hop.
 *
 * The cursor only ever writes below the hop and the frame is copied from the
 * start of the buffer, so each analysed frame is the latest hop of samples
 * followed by zeros (FrameIsLatestHop), not the most recent fftSize samples.
 */
module FrameAccumulator {
  import opened Layout

  datatype Option<+T> = None | Some(value: T)

  /** `inputBuffer` and `inputBufferWritePos`. */
  datatype Accumulator = Accumulator(buf: seq<real>, pos: nat)

  /** The size guard of processBlock has passed and the cursor is below the hop. */
  predicate Ready(a: Accumulator)
  {
    |a.buf| >= InputLen && a.pos < HopSize
  }

  /** Every slot at or beyond the hop holds zero. */
  predicate TailZero(buf: seq<real>)
  {
    forall i :: HopSize <= i < |buf| ==> buf[i] == 0.0
  }

  /** The buffer after the guarded shift: slot i takes slot i + hopSize. */
  function ShiftByHop(buf: seq<real>): (r: seq<real>)
    ensures |r| == |buf|
  {
    if |buf| > HopSize then
      seq(|buf|, i requires 0 <= i < |buf| =>
        if i < |buf| - HopSize then buf[i + HopSize] else buf[i])
    else
      buf
  }

  /**
   * The shift loop as the processor runs it, in place and front to back;
   * every read of slot i + hopSize happens before that slot is overwritten.
   */
  method ShiftInPlace(buf: seq<real>) returns (r: seq<real>)
    ensures |r| == |buf|
    ensures forall i :: 0 <= i < |buf| - HopSize ==> r[i] == buf[i + HopSize]
    ensures forall i :: |buf| - HopSize <= i < |buf| && 0 <= i ==> r[i] == buf[i]
    ensures r == ShiftByHop(buf)
  {
    r := buf;
    if |r| > HopSize {
      var remaining := |r| - HopSize;
      var i := 0;
      while i < remaining
        invariant 0 <= i <= remaining
        invariant |r| == |buf|
        invariant forall j :: 0 <= j < i ==> r[j] == buf[j + HopSize]
        invariant forall j :: i <= j < |buf| ==> r[j] == buf[j]
      {
        r := r[i := r[i + HopSize]];
        i := i + 1;
      }
    }
  }

  /** A buffer whose tail is zero is all zero once shifted by a hop. */
  lemma ShiftClearsZeroTail(buf: seq<real>)
    requires |buf| >= 2 * HopSize && TailZero(buf)
    ensures forall i :: 0 <= i < |buf| ==> ShiftByHop(buf)[i] == 0.0
  {
  }

  datatype Pushed = Pushed(acc: Accumulator, frame: Option<Frame>)

  /** One sample into the accumulator, and the frame it completes, if any. */
  function Push(a: Accumulator, x: real): (r: Pushed)
    requires Ready(a)
    ensures Ready(r.acc) && |r.acc.buf| == |a.buf|
    ensures r.frame.Some? <==> a.pos == HopSize - 1
    ensures r.acc.pos == (a.pos + 1) % HopSize
    ensures r.frame.None? ==> r.acc.buf[..r.acc.pos] == a.buf[..a.pos] + [x]
    ensures TailZero(a.buf) ==> TailZero(r.acc.buf)
    ensures TailZero(a.buf) && r.frame.Some? ==>
              r.frame.value == a.buf[..a.pos] + [x] + Zeros(FftSize - HopSize)
  {
    var buf := a.buf[a.pos := x];
    var pos := a.pos + 1;
    if pos >= HopSize then
      assert TailZero(a.buf) ==> buf[..FftSize] == a.buf[..a.pos] + [x] + Zeros(FftSize - HopSize);
      Pushed(Accumulator(ShiftByHop(buf), pos - HopSize), Some(buf[..FftSize]))
    else
      assert buf[..pos] == a.buf[..a.pos] + [x];
      Pushed(Accumulator(buf, pos), None)
  }

  datatype Fed = Fed(acc: Accumulator, frames: seq<Frame>)

  /** A stream of samples pushed one by one; the frames in order of completion. */
  function Feed(a: Accumulator, xs: seq<real>): (r: Fed)
    requires Ready(a)
    ensures Ready(r.acc) && |r.acc.buf| == |a.buf|
    decreases |xs|
  {
    if xs == [] then Fed(a, [])
    else
      var p := Push(a, xs[0]);
      var rest := Feed(p.acc, xs[1..]);
      Fed(rest.acc, (if p.frame.Some? then [p.frame.value] else []) + rest.frames)
  }

  /**
   * One frame per hopSize samples, wherever the stream starts relative to the
   * cursor: (pos + n) / hopSize frames, and the cursor ends at (pos + n) % hopSize.
   */
  lemma {:induction false} FeedCadence(a: Accumulator, xs: seq<real>)
    requires Ready(a)
    ensures |Feed(a, xs).frames| == (a.pos + |xs|) / HopSize
    ensures Feed(a, xs).acc.pos == (a.pos + |xs|) % HopSize
    decreases |xs|
  {
    if xs != [] {
      var p := Push(a, xs[0]);
      FeedCadence(p.acc, xs[1..]);
      if a.pos == HopSize - 1 {
        assert p.acc.pos == 0;
        assert (a.pos + |xs|) / HopSize == 1 + (|xs| - 1) / HopSize;
        assert (a.pos + |xs|) % HopSize == (|xs| - 1) % HopSize;
      } else {
        assert p.acc.pos == a.pos + 1;
      }
    }
  }

  /** Feeding a stream in two pieces is the same as feeding it in one. */
  lemma {:induction false} FeedSplit(a: Accumulator, xs: seq<real>, ys: seq<real>)
    requires Ready(a)
    ensures Feed(a, xs + ys).acc == Feed(Feed(a, xs).acc, ys).acc
    ensures Feed(a, xs + ys).frames == Feed(a, xs).frames + Feed(Feed(a, xs).acc, ys).frames
    decreases |xs|
  {
    if xs != [] {
      var p := Push(a, xs[0]);
      var head := if p.frame.Some? then [p.frame.value] else [];
      assert (xs + ys)[0] == xs[0];
      assert (xs + ys)[1..] == xs[1..] + ys;
      var rest := Feed(p.acc, xs[1..]);
      var whole := Feed(p.acc, xs[1..] + ys);
      assert Feed(a, xs) == Fed(rest.acc, head + rest.frames);
      assert Feed(a, xs + ys) == Fed(whole.acc, head + whole.frames);
      FeedSplit(p.acc, xs[1..], ys);
      assert head + whole.frames == (head + rest.frames) + Feed(rest.acc, ys).frames;
    } else {
      assert xs + ys == ys;
    }
  }

  /** Hop number m of a stream: samples [m * hopSize, (m + 1) * hopSize). */
  function Hop(s: seq<real>, m: nat): (h: seq<real>)
    requires (m + 1) * HopSize <= |s|
    ensures |h| == HopSize
  {
    s[m * HopSize .. (m + 1) * HopSize]
  }

  /**
   * Frame m of a stream is hop m of (samples pending in the buffer ++ stream),
   * followed by fftSize - hopSize zeros.
   */
  lemma {:induction false} FrameIsLatestHop(a: Accumulator, xs: seq<real>)
    requires Ready(a) && TailZero(a.buf)
    ensures |Feed(a, xs).frames| == (a.pos + |xs|) / HopSize
    ensures forall m :: 0 <= m < |Feed(a, xs).frames| ==>
              (m + 1) * HopSize <= |a.buf[..a.pos] + xs| &&
              Feed(a, xs).frames[m] == Hop(a.buf[..a.pos] + xs, m) + Zeros(FftSize - HopSize)
    decreases |xs|
  {
    FeedCadence(a, xs);
    if xs != [] {
      var pending := a.buf[..a.pos];
      var p := Push(a, xs[0]);
      var rest := Feed(p.acc, xs[1..]);
      FrameIsLatestHop(p.acc, xs[1..]);
      var fs := Feed(a, xs).frames;
      var pending' := p.acc.buf[..p.acc.pos];
      if a.pos == HopSize - 1 {
        assert fs == [p.frame.value] + rest.frames;
        assert pending' == [];
        assert |pending + [xs[0]]| == HopSize;
        assert pending + xs == (pending + [xs[0]]) + xs[1..];
        forall m | 0 <= m < |fs|
          ensures (m + 1) * HopSize <= |pending + xs|
          ensures fs[m] == Hop(pending + xs, m) + Zeros(FftSize - HopSize)
        {
          if m == 0 {
            assert Hop(pending + xs, 0) == pending + [xs[0]];
          } else {
            assert fs[m] == rest.frames[m - 1];
            assert pending' + xs[1..] == xs[1..];
            HopAfterFirst(pending + [xs[0]], xs[1..], m);
          }
        }
      } else {
        assert fs == rest.frames;
        assert pending' == pending + [xs[0]];
        assert pending' + xs[1..] == pending + xs;
      }
    }
  }

  /** Past a leading hop, hop m of a stream is hop m - 1 of what follows it. */
  lemma HopAfterFirst(h: seq<real>, t: seq<real>, m: nat)
    requires |h| == HopSize && 1 <= m && (m + 1) * HopSize <= |h + t|
    ensures (m * HopSize <= |t|) && Hop(h + t, m) == Hop(t, m - 1)
  {
    assert forall i :: 0 <= i < HopSize ==> Hop(h + t, m)[i] == (h + t)[m * HopSize + i] == t[(m - 1) * HopSize + i];
  }
}
