/**
 * The overlap-add output buffer: once per hop a synthesised frame, scaled
 * by 1.5 / fftSize, is added into `overlapBuffer`; on every sample one value
 * is drained: slot 0 is emitted, the buffer shifts left by one, and the last
 * slot becomes zero.
 */
module OverlapAdd {
  import opened Layout

  /** `overlapBuffer[j] += frame[j] * scaling` for every j < fftSize. */
  function AddFrame(ola: Frame, frame: Frame): (r: Frame)
  {
    seq(FftSize, j requires 0 <= j < FftSize => ola[j] + frame[j] * OverlapScale)
  }

  /** The add loop as written, in place. */
  method AddFrameInPlace(ola: Frame, frame: Frame) returns (r: Frame)
    ensures forall j :: 0 <= j < FftSize ==> r[j] - ola[j] == frame[j] * MakeupGain / FftSize as real
    ensures r == AddFrame(ola, frame)
  {
    r := ola;
    var j := 0;
    while j < FftSize
      invariant 0 <= j <= FftSize
      invariant forall i :: 0 <= i < j ==> r[i] == ola[i] + frame[i] * OverlapScale
      invariant forall i :: j <= i < FftSize ==> r[i] == ola[i]
    {
      var scaling := 1.0 / FftSize as real;
      scaling := scaling * MakeupGain;
      r := r[j := r[j] + frame[j] * scaling];
      j := j + 1;
    }
    assert forall i :: 0 <= i < FftSize ==> r[i] == AddFrame(ola, frame)[i];
  }

  datatype Drained = Drained(out: real, ola: Frame)

  /** One output sample: slot 0, then a left shift by one with a zero fed in at the end. */
  function Drain(ola: Frame): (r: Drained)
  {
    Drained(ola[0], ola[1..] + [0.0])
  }

  /** The drain as written: read slot 0, shift front to back in place, clear the last slot. */
  method DrainInPlace(ola: Frame) returns (out: real, r: Frame)
    ensures out == ola[0]
    ensures forall i :: 0 <= i < FftSize - 1 ==> r[i] == ola[i + 1]
    ensures r[FftSize - 1] == 0.0
    ensures Drained(out, r) == Drain(ola)
  {
    out := ola[0];
    r := ola;
    var i := 0;
    while i < FftSize - 1
      invariant 0 <= i <= FftSize - 1
      invariant forall j :: 0 <= j < i ==> r[j] == ola[j + 1]
      invariant forall j :: i <= j < FftSize ==> r[j] == ola[j]
    {
      r := r[i := r[i + 1]];
      i := i + 1;
    }
    r := r[FftSize - 1 := 0.0];
    assert r == ola[1..] + [0.0];
  }

  datatype DrainedMany = DrainedMany(outs: seq<real>, ola: Frame)

  /** n drains with no frame added in between. */
  function DrainMany(ola: Frame, n: nat): DrainedMany
  {
    if n == 0 then DrainedMany([], ola)
    else
      var prev := DrainMany(ola, n - 1);
      var d := Drain(prev.ola);
      DrainedMany(prev.outs + [d.out], d.ola)
  }

  /**
   * After n drains with no new frame, slot i holds what slot i + n held (or
   * zero past the end), and the samples emitted are the first n slots (then zeros).
   */
  lemma {:induction false} DrainManyShifts(ola: Frame, n: nat)
    ensures |DrainMany(ola, n).outs| == n
    ensures forall i :: 0 <= i < FftSize ==>
              DrainMany(ola, n).ola[i] == (if i + n < FftSize then ola[i + n] else 0.0)
    ensures forall t :: 0 <= t < n ==>
              DrainMany(ola, n).outs[t] == (if t < FftSize then ola[t] else 0.0)
  {
    if n > 0 {
      DrainManyShifts(ola, n - 1);
    }
  }

  /** fftSize drains with no new frame leave the buffer all zero. */
  lemma DrainFlushes(ola: Frame, n: nat)
    requires n >= FftSize
    ensures DrainMany(ola, n).ola == Zeros(FftSize)
  {
    DrainManyShifts(ola, n);
  }
}
