/**
 * Constants and fixed array layout of the spectral subtractor's processor
 * (the enum and the member arrays declared in its header).
 *
 * All samples are modelled as `real`: single-precision rounding is not part
 * of this model.
 */
module Layout {

  /** 2^n, the value of `1 << n`. */
  function Pow2(n: nat): (r: nat)
    ensures r >= 1
  {
    if n == 0 then 1 else 2 * Pow2(n - 1)
  }

  /** `fftOrder`, `fftSize = 1 << fftOrder`, `hopSize = fftSize / 4`. */
  const FftOrder: nat := 10
  const FftSize: nat := 1024
  const HopSize: nat := 256

  /** Bins the per-bin loops visit: k in [0, fftSize / 2). */
  const NumBins: nat := 512
  /** Length of `noiseProfile`, `scopeDataRaw` and `scopeDataProc`: fftSize / 2 + 1. */
  const BinSlots: nat := 513
  /** Size `inputBuffer` is resized to: fftSize * 2. */
  const InputLen: nat := 2048
  /** Length of `fftWorkspace`: fftSize * 2. */
  const WorkspaceLen: nat := 2048

  /** The two fixed private tuning constants of the subtraction rule. */
  const SubtractionStrength: real := 2.0
  const SpectralFloor: real := 0.05

  /** Overlap-add scaling per sample: (1 / fftSize) * 1.5. */
  const MakeupGain: real := 1.5
  const OverlapScale: real := MakeupGain / 1024.0

  /** A run of n zero samples. */
  function Zeros(n: nat): (r: seq<real>)
    ensures |r| == n
    ensures forall i :: 0 <= i < n ==> r[i] == 0.0
  {
    seq(n, _ => 0.0)
  }

  /** One analysis/synthesis frame, and `overlapBuffer`. */
  type Frame = s: seq<real> | |s| == FftSize witness Zeros(1024)

  /** `fftWorkspace`: fftSize * 2 floats, bins packed as (re, im) pairs. */
  type Workspace = s: seq<real> | |s| == WorkspaceLen witness Zeros(2048)

  /** `noiseProfile`, `scopeDataRaw`, `scopeDataProc`: fftSize / 2 + 1 floats. */
  type BinArray = s: seq<real> | |s| == BinSlots witness Zeros(513)

  /** The header's enum values are consistent with each other. */
  lemma HeaderConstants()
    ensures FftSize == Pow2(FftOrder)
    ensures HopSize == FftSize / 4
    ensures 0 < HopSize < FftSize && FftSize % HopSize == 0
    ensures NumBins == FftSize / 2 && BinSlots == NumBins + 1
    ensures InputLen == 2 * FftSize && WorkspaceLen == 2 * FftSize
  {
  }

  /**
   * Every index the per-bin loop (k < fftSize / 2) uses is in range: k in the
   * bin arrays, 2k and 2k+1 in the workspace, and the top slot fftSize / 2 is
   * never reached.
   */
  lemma BinAccessInBounds(k: int)
    requires 0 <= k < NumBins
    ensures k < BinSlots && k != NumBins
    ensures 0 <= 2 * k && 2 * k + 1 < FftSize && 2 * k + 1 < WorkspaceLen
  {
  }

  /** Both tuning constants are positive; the floor is a fraction of the noise. */
  lemma TuningConstantsPositive()
    ensures 0.0 < SpectralFloor < 1.0 < SubtractionStrength
    ensures OverlapScale == MakeupGain / FftSize as real
  {
  }
}
