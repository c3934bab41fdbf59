/**
 * The noise-profile learner: while learning, each analysed frame adds its
 * magnitudes into `noiseProfile` and bumps `noiseLearnCounter`; at the end of
 * a block in which learning is off and frames were counted, every bin is
 * divided by the counter, the counter is reset and `hasNoiseProfile` is set.
 */
module NoiseProfile {
  import opened Layout

  /** `noiseProfile`, `noiseLearnCounter`, `hasNoiseProfile`. */
  datatype Learner = Learner(profile: BinArray, counter: nat, hasProfile: bool)

  /** `noiseProfile[k] += magnitude` for every k < fftSize / 2. */
  function Accumulate(profile: BinArray, mags: seq<real>): (r: BinArray)
    requires |mags| == NumBins
    ensures forall k :: 0 <= k < NumBins ==> r[k] - profile[k] == mags[k]
    ensures r[NumBins] == profile[NumBins]
  {
    seq(BinSlots, k requires 0 <= k < BinSlots => if k < NumBins then profile[k] + mags[k] else profile[k])
  }

  /** One analysed frame while learning: its magnitudes are added and exactly one frame is counted. */
  function LearnFrame(l: Learner, mags: seq<real>): (r: Learner)
    requires |mags| == NumBins
    ensures r.counter == l.counter + 1 && r.hasProfile == l.hasProfile
    ensures (forall k :: 0 <= k < NumBins ==> mags[k] >= 0.0) ==>
              forall k :: 0 <= k < BinSlots ==> r.profile[k] >= l.profile[k]
  {
    Learner(Accumulate(l.profile, mags), l.counter + 1, l.hasProfile)
  }

  /** The finalisation at the end of processBlock. */
  function Finalize(l: Learner, learning: bool): (r: Learner)
    ensures learning || l.counter == 0 ==> r == l
    ensures !learning && l.counter > 0 ==>
              && r.counter == 0
              && r.hasProfile
              && (forall k :: 0 <= k < NumBins ==> r.profile[k] * l.counter as real == l.profile[k])
              && r.profile[NumBins] == l.profile[NumBins]
  {
    if !learning && l.counter > 0 then
      var n := l.counter as real;
      Learner(seq(BinSlots, k requires 0 <= k < BinSlots => if k < NumBins then l.profile[k] / n else l.profile[k]),
              0, true)
    else
      l
  }

  /** The finalisation loop as written: divide in place, bin by bin. */
  method FinalizeInPlace(l: Learner, learning: bool) returns (r: Learner)
    ensures r == Finalize(l, learning)
  {
    r := l;
    if !learning && l.counter > 0 {
      var profile := l.profile;
      var k := 0;
      while k < NumBins
        invariant 0 <= k <= NumBins
        invariant forall j :: 0 <= j < k ==> profile[j] == l.profile[j] / l.counter as real
        invariant forall j :: k <= j < BinSlots ==> profile[j] == l.profile[j]
      {
        profile := profile[k := profile[k] / l.counter as real];
        k := k + 1;
      }
      r := Learner(profile, 0, true);
    }
  }

  predicate AllSpectra(fs: seq<seq<real>>)
  {
    forall i :: 0 <= i < |fs| ==> |fs[i]| == NumBins
  }

  /** Magnitudes of bin k summed over a sequence of spectra. */
  function SumBin(fs: seq<seq<real>>, k: nat): real
    requires AllSpectra(fs) && k < NumBins
  {
    if fs == [] then 0.0 else SumBin(fs[..|fs| - 1], k) + fs[|fs| - 1][k]
  }

  /** A learning session over spectra fs, in order. */
  function LearnAll(l: Learner, fs: seq<seq<real>>): Learner
    requires AllSpectra(fs)
  {
    if fs == [] then l else LearnFrame(LearnAll(l, fs[..|fs| - 1]), fs[|fs| - 1])
  }

  /** A session adds each bin's magnitudes on top of the existing profile and counts every frame. */
  lemma {:induction false} LearnAllSums(l: Learner, fs: seq<seq<real>>)
    requires AllSpectra(fs)
    ensures LearnAll(l, fs).counter == l.counter + |fs|
    ensures forall k :: 0 <= k < NumBins ==> LearnAll(l, fs).profile[k] == l.profile[k] + SumBin(fs, k)
    ensures LearnAll(l, fs).profile[NumBins] == l.profile[NumBins]
    ensures LearnAll(l, fs).hasProfile == l.hasProfile
  {
    if fs != [] {
      var init := fs[..|fs| - 1];
      assert AllSpectra(init);
      LearnAllSums(l, init);
    }
  }

  /** Learning on non-negative magnitudes never lowers any bin of the profile. */
  lemma {:induction false} LearnAllMonotone(l: Learner, fs: seq<seq<real>>)
    requires AllSpectra(fs)
    requires forall i, k :: 0 <= i < |fs| && 0 <= k < NumBins ==> fs[i][k] >= 0.0
    ensures forall k :: 0 <= k < BinSlots ==> LearnAll(l, fs).profile[k] >= l.profile[k]
  {
    if fs != [] {
      var init := fs[..|fs| - 1];
      assert AllSpectra(init);
      LearnAllMonotone(l, init);
      var last := fs[|fs| - 1];
      assert forall k :: 0 <= k < NumBins ==> last[k] >= 0.0;
    }
  }

  /**
   * From a cleared profile, learning K > 0 frames and finalising gives the
   * per-bin mean of the learned magnitudes, with the counter back at zero.
   */
  lemma ProfileIsMean(fs: seq<seq<real>>, hasProfile: bool)
    requires AllSpectra(fs) && |fs| > 0
    ensures forall k :: 0 <= k < NumBins ==>
              Finalize(LearnAll(Learner(Zeros(BinSlots), 0, hasProfile), fs), false).profile[k]
                == SumBin(fs, k) / |fs| as real
    ensures Finalize(LearnAll(Learner(Zeros(BinSlots), 0, hasProfile), fs), false).counter == 0
    ensures Finalize(LearnAll(Learner(Zeros(BinSlots), 0, hasProfile), fs), false).hasProfile
  {
    var l := Learner(Zeros(BinSlots), 0, hasProfile);
    LearnAllSums(l, fs);
    var learnt := LearnAll(l, fs);
    FinalizeDivides(learnt);
    assert learnt.counter == |fs|;
    forall k | 0 <= k < NumBins
      ensures Finalize(learnt, false).profile[k] == SumBin(fs, k) / |fs| as real
    {
      assert learnt.profile[k] == SumBin(fs, k);
    }
  }

  /** Finalising a counted profile divides each bin by the counter. */
  lemma FinalizeDivides(l: Learner)
    requires l.counter > 0
    ensures forall k :: 0 <= k < NumBins ==> Finalize(l, false).profile[k] == l.profile[k] / l.counter as real
    ensures Finalize(l, false).counter == 0 && Finalize(l, false).hasProfile
  {
  }

  /**
   * A second session does not reset: it finalises to (old profile + sum of
   * the new magnitudes) / number of new frames.
   */
  lemma RelearnIsAdditive(l: Learner, fs: seq<seq<real>>)
    requires AllSpectra(fs) && |fs| > 0 && l.counter == 0
    ensures forall k :: 0 <= k < NumBins ==>
              Finalize(LearnAll(l, fs), false).profile[k] == (l.profile[k] + SumBin(fs, k)) / |fs| as real
  {
    LearnAllSums(l, fs);
    var learnt := LearnAll(l, fs);
    FinalizeDivides(learnt);
    assert learnt.counter == |fs|;
    forall k | 0 <= k < NumBins
      ensures Finalize(learnt, false).profile[k] == (l.profile[k] + SumBin(fs, k)) / |fs| as real
    {
      assert learnt.profile[k] == l.profile[k] + SumBin(fs, k);
    }
  }

  /** Two sessions back to back, without a finalisation in between, are one session over both. */
  lemma {:induction false} LearnAllAppend(l: Learner, fs: seq<seq<real>>, gs: seq<seq<real>>)
    requires AllSpectra(fs) && AllSpectra(gs)
    ensures AllSpectra(fs + gs)
    ensures LearnAll(LearnAll(l, fs), gs) == LearnAll(l, fs + gs)
    decreases |gs|
  {
    assert AllSpectra(fs + gs);
    if gs != [] {
      var init := gs[..|gs| - 1];
      assert AllSpectra(init);
      LearnAllAppend(l, fs, init);
      assert (fs + gs)[..|fs + gs| - 1] == fs + init;
    } else {
      assert fs + gs == fs;
    }
  }
}
