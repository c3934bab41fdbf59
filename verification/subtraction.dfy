/**
 * The per-bin spectral subtraction rule: magnitude passes through while
 * learning, without a finalised profile, or when bypassed; otherwise it is
 * max(mag - noise * subtractionStrength, noise * spectralFloor).
 */
module Subtraction {
  import opened Layout

  function Max(a: real, b: real): real
  {
    if a >= b then a else b
  }

  /** The subtracting branch: clamp the reduced magnitude at the spectral floor. */
  function Subtract(mag: real, noise: real): (r: real)
    ensures r >= noise * SpectralFloor
    ensures r >= mag - noise * SubtractionStrength
    ensures r == noise * SpectralFloor || r == mag - noise * SubtractionStrength
  {
    Max(mag - noise * SubtractionStrength, noise * SpectralFloor)
  }

  /** True when the rule leaves the magnitude unchanged. */
  predicate PassesThrough(learning: bool, hasProfile: bool, bypass: bool)
  {
    learning || !hasProfile || bypass
  }

  /** `newMag` of the per-bin loop; learning is tested first, so it wins over subtraction. */
  function NewMagnitude(mag: real, noise: real, learning: bool, hasProfile: bool, bypass: bool): (r: real)
    ensures PassesThrough(learning, hasProfile, bypass) ==> r == mag
    ensures !PassesThrough(learning, hasProfile, bypass) ==>
              r >= noise * SpectralFloor && r >= mag - noise * SubtractionStrength &&
              (r == noise * SpectralFloor || r == mag - noise * SubtractionStrength)
    ensures noise >= 0.0 && mag >= 0.0 ==> r >= 0.0
  {
    if learning then mag
    else if hasProfile && !bypass then Subtract(mag, noise)
    else mag
  }

  /**
   * The subtracting branch splits at mag = noise * (strength + floor): at or
   * below it the bin is clamped to the floor, above it the noise is
   * subtracted in full.
   */
  lemma SubtractionThreshold(mag: real, noise: real)
    ensures mag <= noise * (SubtractionStrength + SpectralFloor) ==>
              NewMagnitude(mag, noise, false, true, false) == noise * SpectralFloor
    ensures mag >= noise * (SubtractionStrength + SpectralFloor) ==>
              NewMagnitude(mag, noise, false, true, false) == mag - noise * SubtractionStrength
  {
  }

  /** With a non-negative noise estimate the subtracting branch never raises a bin above its input or the floor. */
  lemma SubtractionAttenuates(mag: real, noise: real)
    requires noise >= 0.0
    ensures NewMagnitude(mag, noise, false, true, false) <= Max(mag, noise * SpectralFloor)
    ensures NewMagnitude(mag, noise, false, true, false) >= 0.0
  {
  }

  /** A noise value whose floor exceeds the magnitude makes the subtracting branch raise the bin above its input. */
  lemma FloorCanRaiseBin(mag: real, noise: real)
    requires noise * SpectralFloor > mag
    ensures NewMagnitude(mag, noise, false, true, false) > mag
    ensures noise >= 0.0 ==> NewMagnitude(mag, noise, false, true, false) == noise * SpectralFloor
  {
  }

  /** The per-bin rule over a whole spectrum of NumBins magnitudes. */
  function NewMagnitudes(mags: seq<real>, profile: BinArray, learning: bool, hasProfile: bool, bypass: bool): (r: seq<real>)
    requires |mags| == NumBins
    ensures |r| == NumBins
    ensures PassesThrough(learning, hasProfile, bypass) ==> r == mags
    ensures forall k :: 0 <= k < NumBins ==> r[k] == NewMagnitude(mags[k], profile[k], learning, hasProfile, bypass)
  {
    seq(NumBins, k requires 0 <= k < NumBins => NewMagnitude(mags[k], profile[k], learning, hasProfile, bypass))
  }
}
