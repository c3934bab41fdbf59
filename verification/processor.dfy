/**
 * The streaming engine of the spectral subtractor: the processor's state,
 * its construction and prepareToPlay reset, the per-sample step of
 * processBlock (accumulate, and once per hop analyse, learn or subtract,
 * synthesise and overlap-add; then drain one output sample), and the
 * finalisation of a learned profile at the end of a block.
 */
module Processor {
  import opened Layout
  import FrameAccumulator
  import NoiseProfile
  import Spectrum
  import OverlapAdd
  import Telemetry
  import Subtraction

  /** `isLearning` and `bypass`, read once for the whole block. */
  datatype Controls = Controls(learning: bool, bypass: bool)

  /** The processor's members that processBlock and prepareToPlay touch. */
  datatype Engine = Engine(
    input: seq<real>,               // inputBuffer (a vector)
    pos: nat,                       // inputBufferWritePos
    workspace: Workspace,           // fftWorkspace
    overlap: Frame,                 // overlapBuffer
    learner: NoiseProfile.Learner,  // noiseProfile, noiseLearnCounter, hasNoiseProfile
    raw: BinArray,                  // scopeDataRaw
    proc: BinArray,                 // scopeDataProc
    sampleRate: real)               // currentSampleRate

  /** The cursor is below the hop, as every path through the processor keeps it. */
  predicate Valid(e: Engine)
  {
    e.pos < HopSize
  }

  predicate ProfileNonNegative(e: Engine)
  {
    Spectrum.NonNegative(e.learner.profile)
  }

  /**
   * The state right after the constructor: the input vector is sized and
   * zeroed, cursor and counter are 0, no profile. The plain member arrays
   * have no initialiser, so their contents are whatever the caller passes.
   */
  function Construct(ws0: Workspace, overlap0: Frame, profile0: BinArray, raw0: BinArray, proc0: BinArray): (e: Engine)
    ensures Valid(e) && |e.input| == InputLen
    ensures forall i :: 0 <= i < |e.input| ==> e.input[i] == 0.0
    ensures FrameAccumulator.TailZero(e.input)
    ensures e.pos == 0 && e.learner.counter == 0 && !e.learner.hasProfile
    ensures e.sampleRate == 44100.0
  {
    Engine(Zeros(InputLen), 0, ws0, overlap0, NoiseProfile.Learner(profile0, 0, false), raw0, proc0, 44100.0)
  }

  /** `std::vector::resize(n, 0)`: keeps the first n elements, pads with zeros. */
  function Resize(v: seq<real>, n: nat): (r: seq<real>)
    ensures |r| == n
    ensures forall i :: 0 <= i < n && i < |v| ==> r[i] == v[i]
    ensures forall i :: |v| <= i < n ==> r[i] == 0.0
  {
    if |v| >= n then v[..n] else v + Zeros(n - |v|)
  }

  /**
   * prepareToPlay: resize the input vector (old contents survive), clear the
   * profile, the overlap buffer and both scopes, reset cursor, counter and
   * the has-profile flag, and record the sample rate.
   */
  function Prepare(e: Engine, sampleRate: real): (r: Engine)
    ensures Valid(r) && |r.input| == InputLen
    ensures forall i :: 0 <= i < InputLen && i < |e.input| ==> r.input[i] == e.input[i]
    ensures r.pos == 0 && r.learner.counter == 0 && !r.learner.hasProfile
    ensures forall k :: 0 <= k < BinSlots ==> r.learner.profile[k] == 0.0 && r.raw[k] == 0.0 && r.proc[k] == 0.0
    ensures forall j :: 0 <= j < FftSize ==> r.overlap[j] == 0.0
    ensures ProfileNonNegative(r)
    ensures FrameAccumulator.TailZero(e.input) ==> FrameAccumulator.TailZero(r.input)
    ensures r.sampleRate == sampleRate
  {
    Engine(Resize(e.input, InputLen), 0, e.workspace, Zeros(FftSize),
           NoiseProfile.Learner(Zeros(BinSlots), 0, false), Zeros(BinSlots), Zeros(BinSlots), sampleRate)
  }

  /** The magnitudes of the analysed frame: what the per-bin loop reads and, while learning, accumulates. */
  function FrameSpectrum(e: Engine, d: Spectrum.Dsp, frame: Frame): (m: seq<real>)
    ensures |m| == NumBins
  {
    Spectrum.Magnitudes(d, Spectrum.Analyse(d, e.workspace, frame))
  }

  /**
   * The work done once per hop on a completed frame (copy through
   * overlap-add). The learner takes exactly one learning step on the frame's
   * magnitudes while learning, and is untouched otherwise.
   */
  function ProcessFrame(e: Engine, ctl: Controls, d: Spectrum.Dsp, frame: Frame): (r: Engine)
    ensures ctl.learning ==> r.learner == NoiseProfile.LearnFrame(e.learner, FrameSpectrum(e, d, frame))
    ensures !ctl.learning ==> r.learner == e.learner
    ensures r.input == e.input && r.pos == e.pos && r.sampleRate == e.sampleRate
  {
    var analysed := Spectrum.Analyse(d, e.workspace, frame);
    var bins := Spectrum.ProcessBins(d, Spectrum.Bins(analysed, e.raw, e.proc, e.learner.profile),
                                     ctl.learning, e.learner.hasProfile, ctl.bypass);
    var counter := if ctl.learning then e.learner.counter + 1 else e.learner.counter;
    var synthesised := Spectrum.Synthesise(d, bins.ws);
    e.(workspace := synthesised,
       overlap := OverlapAdd.AddFrame(e.overlap, synthesised[..FftSize]),
       learner := NoiseProfile.Learner(bins.profile, counter, e.learner.hasProfile),
       raw := bins.raw,
       proc := bins.proc)
  }

  /**
   * A frame counts once while learning and never otherwise; it leaves the
   * top bin slots and the has-profile flag alone, and learning on
   * non-negative magnitudes only raises the profile.
   */
  lemma ProcessFrameFacts(e: Engine, ctl: Controls, d: Spectrum.Dsp, frame: Frame)
    ensures var r := ProcessFrame(e, ctl, d, frame);
            && r.learner.counter == (if ctl.learning then e.learner.counter + 1 else e.learner.counter)
            && r.learner.hasProfile == e.learner.hasProfile
            && r.learner.profile[NumBins] == e.learner.profile[NumBins]
            && r.raw[NumBins] == e.raw[NumBins] && r.proc[NumBins] == e.proc[NumBins]
            && (!ctl.learning ==> r.learner.profile == e.learner.profile)
            && (ctl.learning && Spectrum.SqrtNonNegative(d) ==>
                  forall k :: 0 <= k < BinSlots ==> r.learner.profile[k] >= e.learner.profile[k])
            && (Spectrum.SqrtNonNegative(d) && ProfileNonNegative(e) ==> ProfileNonNegative(r))
            && r.input == e.input && r.pos == e.pos && r.sampleRate == e.sampleRate
  {
    var analysed := Spectrum.Analyse(d, e.workspace, frame);
    Spectrum.ProcessBinsFrame(d, Spectrum.Bins(analysed, e.raw, e.proc, e.learner.profile),
                              ctl.learning, e.learner.hasProfile, ctl.bypass);
  }

  datatype Stepped = Stepped(engine: Engine, out: real)

  /** One iteration of the sample loop: accumulate, maybe process a frame, drain one output sample. */
  function Step(e: Engine, ctl: Controls, d: Spectrum.Dsp, x: real): (r: Stepped)
    requires Valid(e) && |e.input| >= InputLen
    ensures Valid(r.engine) && |r.engine.input| == |e.input|
    ensures r.engine.pos == (e.pos + 1) % HopSize
  {
    var p := FrameAccumulator.Push(FrameAccumulator.Accumulator(e.input, e.pos), x);
    var e1 := e.(input := p.acc.buf, pos := p.acc.pos);
    var e2 := if p.frame.Some? then ProcessFrame(e1, ctl, d, p.frame.value) else e1;
    var drained := OverlapAdd.Drain(e2.overlap);
    Stepped(e2.(overlap := drained.ola), drained.out)
  }

  datatype Ran = Ran(engine: Engine, outs: seq<real>)

  /** The sample loop over a whole block, one output per input sample. */
  function Run(e: Engine, ctl: Controls, d: Spectrum.Dsp, xs: seq<real>): (r: Ran)
    requires Valid(e) && |e.input| >= InputLen
    ensures Valid(r.engine) && |r.engine.input| == |e.input|
    ensures |r.outs| == |xs|
    decreases |xs|
  {
    if xs == [] then Ran(e, [])
    else
      var s := Step(e, ctl, d, xs[0]);
      var rest := Run(s.engine, ctl, d, xs[1..]);
      Ran(rest.engine, [s.out] + rest.outs)
  }

  /**
   * processBlock: a no-op that leaves the audio untouched while the input
   * vector is smaller than fftSize * 2; otherwise the sample loop, then the
   * finalisation of a profile whose learning has stopped.
   */
  function ProcessBlock(e: Engine, ctl: Controls, d: Spectrum.Dsp, block: seq<real>): (r: Ran)
    requires Valid(e)
    ensures Valid(r.engine) && |r.outs| == |block| && |r.engine.input| == |e.input|
    ensures |e.input| < InputLen ==> r == Ran(e, block)
    ensures r.engine.sampleRate == e.sampleRate
  {
    if |e.input| < InputLen then Ran(e, block)
    else
      var r := Run(e, ctl, d, block);
      RunKeepsSampleRate(e, ctl, d, block);
      Ran(r.engine.(learner := NoiseProfile.Finalize(r.engine.learner, ctl.learning)), r.outs)
  }

  lemma {:induction false} RunKeepsSampleRate(e: Engine, ctl: Controls, d: Spectrum.Dsp, xs: seq<real>)
    requires Valid(e) && |e.input| >= InputLen
    ensures Run(e, ctl, d, xs).engine.sampleRate == e.sampleRate
    decreases |xs|
  {
    if xs != [] {
      var s := Step(e, ctl, d, xs[0]);
      if FrameAccumulator.Push(FrameAccumulator.Accumulator(e.input, e.pos), xs[0]).frame.Some? {
        var p := FrameAccumulator.Push(FrameAccumulator.Accumulator(e.input, e.pos), xs[0]);
        ProcessFrameFacts(e.(input := p.acc.buf, pos := p.acc.pos), ctl, d, p.frame.value);
      }
      RunKeepsSampleRate(s.engine, ctl, d, xs[1..]);
    }
  }

  /**
   * The facts one sample preserves: the counter grows by one exactly when a
   * frame completes while learning; the has-profile flag and the top bin
   * slots do not change.
   */
  lemma StepFacts(e: Engine, ctl: Controls, d: Spectrum.Dsp, x: real)
    requires Valid(e) && |e.input| >= InputLen
    ensures var r := Step(e, ctl, d, x).engine;
            && r.learner.counter == e.learner.counter + (if ctl.learning && e.pos == HopSize - 1 then 1 else 0)
            && r.learner.hasProfile == e.learner.hasProfile
            && r.learner.profile[NumBins] == e.learner.profile[NumBins]
            && r.raw[NumBins] == e.raw[NumBins] && r.proc[NumBins] == e.proc[NumBins]
            && r.sampleRate == e.sampleRate
            && (!ctl.learning ==> r.learner.profile == e.learner.profile)
            && (ctl.learning && Spectrum.SqrtNonNegative(d) ==>
                  forall k :: 0 <= k < BinSlots ==> r.learner.profile[k] >= e.learner.profile[k])
            && (Spectrum.SqrtNonNegative(d) && ProfileNonNegative(e) ==> ProfileNonNegative(r))
  {
    var p := FrameAccumulator.Push(FrameAccumulator.Accumulator(e.input, e.pos), x);
    if p.frame.Some? {
      ProcessFrameFacts(e.(input := p.acc.buf, pos := p.acc.pos), ctl, d, p.frame.value);
    }
  }

  /**
   * Over any run of samples the cursor ends at (pos + n) % hopSize, and while
   * learning the counter grows by the number of completed frames,
   * (pos + n) / hopSize; otherwise it stays put.
   */
  lemma {:induction false} RunCadence(e: Engine, ctl: Controls, d: Spectrum.Dsp, xs: seq<real>)
    requires Valid(e) && |e.input| >= InputLen
    ensures Run(e, ctl, d, xs).engine.pos == (e.pos + |xs|) % HopSize
    ensures Run(e, ctl, d, xs).engine.learner.counter ==
              e.learner.counter + (if ctl.learning then (e.pos + |xs|) / HopSize else 0)
    ensures Run(e, ctl, d, xs).engine.learner.hasProfile == e.learner.hasProfile
    decreases |xs|
  {
    if xs != [] {
      var s := Step(e, ctl, d, xs[0]);
      StepFacts(e, ctl, d, xs[0]);
      RunCadence(s.engine, ctl, d, xs[1..]);
      if e.pos == HopSize - 1 {
        assert (e.pos + |xs|) / HopSize == 1 + (|xs| - 1) / HopSize;
        assert (e.pos + |xs|) % HopSize == (|xs| - 1) % HopSize;
      }
    }
  }

  /**
   * At block level: the cursor advances by the block length modulo the hop;
   * while learning every completed frame is counted; once learning is off the
   * counter is back at zero, and a profile exists exactly when one existed or
   * frames had been counted.
   */
  lemma ProcessBlockCadence(e: Engine, ctl: Controls, d: Spectrum.Dsp, block: seq<real>)
    requires Valid(e) && |e.input| >= InputLen
    ensures var r := ProcessBlock(e, ctl, d, block).engine;
            && r.pos == (e.pos + |block|) % HopSize
            && (ctl.learning ==> r.learner.counter == e.learner.counter + (e.pos + |block|) / HopSize
                                 && r.learner.hasProfile == e.learner.hasProfile)
            && (!ctl.learning ==> r.learner.counter == 0
                                  && (r.learner.hasProfile <==> e.learner.hasProfile || e.learner.counter > 0))
  {
    RunCadence(e, ctl, d, block);
  }

  /** Running a stream in two pieces is running it in one. */
  lemma {:induction false} RunSplit(e: Engine, ctl: Controls, d: Spectrum.Dsp, xs: seq<real>, ys: seq<real>)
    requires Valid(e) && |e.input| >= InputLen
    ensures var first := Run(e, ctl, d, xs);
            var second := Run(first.engine, ctl, d, ys);
            Run(e, ctl, d, xs + ys) == Ran(second.engine, first.outs + second.outs)
    decreases |xs|
  {
    if xs == [] {
      assert xs + ys == ys;
    } else {
      var s := Step(e, ctl, d, xs[0]);
      assert (xs + ys)[0] == xs[0];
      assert (xs + ys)[1..] == xs[1..] + ys;
      RunSplit(s.engine, ctl, d, xs[1..], ys);
      var tail := Run(s.engine, ctl, d, xs[1..]);
      var second := Run(tail.engine, ctl, d, ys);
      assert [s.out] + (tail.outs + second.outs) == ([s.out] + tail.outs) + second.outs;
    }
  }

  /**
   * Block boundaries do not matter when no finalisation is pending (learning
   * is on, or nothing has been counted) or when a pending one cannot matter
   * (bypass is on, so the profile is never used): two blocks give the same
   * state and the same output as their concatenation.
   */
  lemma ProcessBlockSplit(e: Engine, ctl: Controls, d: Spectrum.Dsp, xs: seq<real>, ys: seq<real>)
    requires Valid(e)
    requires ctl.learning || e.learner.counter == 0 || ctl.bypass
    ensures var first := ProcessBlock(e, ctl, d, xs);
            var second := ProcessBlock(first.engine, ctl, d, ys);
            ProcessBlock(e, ctl, d, xs + ys) == Ran(second.engine, first.outs + second.outs)
  {
    if |e.input| >= InputLen {
      RunSplit(e, ctl, d, xs, ys);
      RunCadence(e, ctl, d, xs);
      RunCadence(e, ctl, d, xs + ys);
      if !ctl.learning && e.learner.counter > 0 {
        PendingBypassSplit(e, ctl, d, xs, ys);
      } else {
        var first := Run(e, ctl, d, xs);
        RunCadence(first.engine, ctl, d, ys);
      }
    }
  }

  /** The bypassed case of ProcessBlockSplit with a finalisation pending: it happens after either first block, unseen. */
  lemma PendingBypassSplit(e: Engine, ctl: Controls, d: Spectrum.Dsp, xs: seq<real>, ys: seq<real>)
    requires Valid(e) && |e.input| >= InputLen
    requires !ctl.learning && ctl.bypass && e.learner.counter > 0
    ensures var first := ProcessBlock(e, ctl, d, xs);
            var second := ProcessBlock(first.engine, ctl, d, ys);
            ProcessBlock(e, ctl, d, xs + ys) == Ran(second.engine, first.outs + second.outs)
  {
    var finalised := NoiseProfile.Finalize(e.learner, false);
    assert finalised.counter == 0;
    var run1 := Run(e, ctl, d, xs);
    IdleRunKeepsProfile(e, ctl, d, xs);
    var block1 := ProcessBlock(e, ctl, d, xs);
    assert block1 == Ran(run1.engine.(learner := finalised), run1.outs);
    var run2 := Run(run1.engine, ctl, d, ys);
    IdleRunKeepsProfile(run1.engine, ctl, d, ys);
    RunBypassIgnoresLearner(run1.engine, finalised, ctl, d, ys);
    assert Run(block1.engine, ctl, d, ys) == Ran(run2.engine.(learner := finalised), run2.outs);
    assert ProcessBlock(block1.engine, ctl, d, ys) == Ran(run2.engine.(learner := finalised), run2.outs);
    RunSplit(e, ctl, d, xs, ys);
    assert ProcessBlock(e, ctl, d, xs + ys) == Ran(run2.engine.(learner := finalised), run1.outs + run2.outs);
  }

  /** Processing never reads or writes the top slot (fftSize / 2) of the profile or the scopes. */
  lemma {:induction false} RunKeepsTopSlot(e: Engine, ctl: Controls, d: Spectrum.Dsp, xs: seq<real>)
    requires Valid(e) && |e.input| >= InputLen
    ensures var r := Run(e, ctl, d, xs).engine;
            && r.learner.profile[NumBins] == e.learner.profile[NumBins]
            && r.raw[NumBins] == e.raw[NumBins] && r.proc[NumBins] == e.proc[NumBins]
    decreases |xs|
  {
    if xs != [] {
      StepFacts(e, ctl, d, xs[0]);
      RunKeepsTopSlot(Step(e, ctl, d, xs[0]).engine, ctl, d, xs[1..]);
    }
  }

  lemma ProcessBlockKeepsTopSlot(e: Engine, ctl: Controls, d: Spectrum.Dsp, block: seq<real>)
    requires Valid(e)
    ensures var r := ProcessBlock(e, ctl, d, block).engine;
            && r.learner.profile[NumBins] == e.learner.profile[NumBins]
            && r.raw[NumBins] == e.raw[NumBins] && r.proc[NumBins] == e.proc[NumBins]
  {
    if |e.input| >= InputLen {
      RunKeepsTopSlot(e, ctl, d, block);
    }
  }

  /** With a square root that is never negative, the profile stays non-negative through learning and finalisation. */
  lemma {:induction false} RunKeepsProfileNonNegative(e: Engine, ctl: Controls, d: Spectrum.Dsp, xs: seq<real>)
    requires Valid(e) && |e.input| >= InputLen
    requires Spectrum.SqrtNonNegative(d) && ProfileNonNegative(e)
    ensures ProfileNonNegative(Run(e, ctl, d, xs).engine)
    decreases |xs|
  {
    if xs != [] {
      StepFacts(e, ctl, d, xs[0]);
      RunKeepsProfileNonNegative(Step(e, ctl, d, xs[0]).engine, ctl, d, xs[1..]);
    }
  }

  lemma ProcessBlockKeepsProfileNonNegative(e: Engine, ctl: Controls, d: Spectrum.Dsp, block: seq<real>)
    requires Valid(e)
    requires Spectrum.SqrtNonNegative(d) && ProfileNonNegative(e)
    ensures ProfileNonNegative(ProcessBlock(e, ctl, d, block).engine)
  {
    if |e.input| >= InputLen {
      var r := Run(e, ctl, d, block);
      RunKeepsProfileNonNegative(e, ctl, d, block);
      var f := NoiseProfile.Finalize(r.engine.learner, ctl.learning);
      if !ctl.learning && r.engine.learner.counter > 0 {
        forall k | 0 <= k < BinSlots
          ensures f.profile[k] >= 0.0
        {
          if k < NumBins {
            DivisionKeepsSign(f.profile[k], r.engine.learner.counter as real, r.engine.learner.profile[k]);
          }
        }
      }
    }
  }

  lemma DivisionKeepsSign(q: real, n: real, a: real)
    requires n > 0.0 && a >= 0.0 && q * n == a
    ensures q >= 0.0
  {
    assert q == a / n;
  }

  /** While learning, a block only raises the profile (for a square root that is never negative). */
  lemma {:induction false} LearningRunRaisesProfile(e: Engine, ctl: Controls, d: Spectrum.Dsp, xs: seq<real>)
    requires Valid(e) && |e.input| >= InputLen
    requires ctl.learning && Spectrum.SqrtNonNegative(d)
    ensures forall k :: 0 <= k < BinSlots ==> Run(e, ctl, d, xs).engine.learner.profile[k] >= e.learner.profile[k]
    decreases |xs|
  {
    if xs != [] {
      StepFacts(e, ctl, d, xs[0]);
      LearningRunRaisesProfile(Step(e, ctl, d, xs[0]).engine, ctl, d, xs[1..]);
    }
  }

  /** With learning off, a block never changes the profile except by the finalisation at its end. */
  lemma {:induction false} IdleRunKeepsProfile(e: Engine, ctl: Controls, d: Spectrum.Dsp, xs: seq<real>)
    requires Valid(e) && |e.input| >= InputLen
    requires !ctl.learning
    ensures Run(e, ctl, d, xs).engine.learner == e.learner
    decreases |xs|
  {
    if xs != [] {
      StepFacts(e, ctl, d, xs[0]);
      IdleRunKeepsProfile(Step(e, ctl, d, xs[0]).engine, ctl, d, xs[1..]);
    }
  }

  /**
   * Between frames the engine only drains: while the cursor does not reach
   * the hop, the outputs are the leading overlap-buffer slots and the buffer
   * shifts exactly as n plain drains would shift it.
   */
  lemma {:induction false} RunBetweenFramesDrains(e: Engine, ctl: Controls, d: Spectrum.Dsp, xs: seq<real>)
    requires Valid(e) && |e.input| >= InputLen
    requires e.pos + |xs| < HopSize
    ensures Run(e, ctl, d, xs).outs == OverlapAdd.DrainMany(e.overlap, |xs|).outs
    ensures Run(e, ctl, d, xs).engine.overlap == OverlapAdd.DrainMany(e.overlap, |xs|).ola
    decreases |xs|
  {
    if xs != [] {
      var s := Step(e, ctl, d, xs[0]);
      RunBetweenFramesDrains(s.engine, ctl, d, xs[1..]);
      DrainManyFirst(e.overlap, |xs|);
    }
  }

  /** n drains are one drain followed by n - 1 drains. */
  lemma {:induction false} DrainManyFirst(ola: Frame, n: nat)
    requires n > 0
    ensures var first := OverlapAdd.Drain(ola);
            var rest := OverlapAdd.DrainMany(first.ola, n - 1);
            OverlapAdd.DrainMany(ola, n) == OverlapAdd.DrainedMany([first.out] + rest.outs, rest.ola)
  {
    if n > 1 {
      DrainManyFirst(ola, n - 1);
    }
  }

  /**
   * The cursor writes only below the hop, so input slots at or beyond the hop
   * stay zero: every analysed frame is the latest hop followed by zeros.
   */
  lemma {:induction false} RunKeepsTailZero(e: Engine, ctl: Controls, d: Spectrum.Dsp, xs: seq<real>)
    requires Valid(e) && |e.input| >= InputLen
    requires FrameAccumulator.TailZero(e.input)
    ensures FrameAccumulator.TailZero(Run(e, ctl, d, xs).engine.input)
    decreases |xs|
  {
    if xs != [] {
      var p := FrameAccumulator.Push(FrameAccumulator.Accumulator(e.input, e.pos), xs[0]);
      if p.frame.Some? {
        ProcessFrameFacts(e.(input := p.acc.buf, pos := p.acc.pos), ctl, d, p.frame.value);
      }
      RunKeepsTailZero(Step(e, ctl, d, xs[0]).engine, ctl, d, xs[1..]);
    }
  }

  /**
   * When nothing is subtracted (learning, no profile yet, or bypass) the
   * processed scope receives exactly what the raw scope receives, so scopes
   * that start equal stay equal.
   */
  lemma {:induction false} PassThroughScopesAgree(e: Engine, ctl: Controls, d: Spectrum.Dsp, xs: seq<real>)
    requires Valid(e) && |e.input| >= InputLen
    requires ctl.learning || !e.learner.hasProfile || ctl.bypass
    requires e.raw == e.proc
    ensures Run(e, ctl, d, xs).engine.raw == Run(e, ctl, d, xs).engine.proc
    decreases |xs|
  {
    if xs != [] {
      StepPassThroughScopesAgree(e, ctl, d, xs[0]);
      PassThroughScopesAgree(Step(e, ctl, d, xs[0]).engine, ctl, d, xs[1..]);
    }
  }

  /** One sample under pass-through keeps equal scopes equal and keeps the has-profile flag. */
  lemma StepPassThroughScopesAgree(e: Engine, ctl: Controls, d: Spectrum.Dsp, x: real)
    requires Valid(e) && |e.input| >= InputLen
    requires ctl.learning || !e.learner.hasProfile || ctl.bypass
    requires e.raw == e.proc
    ensures Step(e, ctl, d, x).engine.raw == Step(e, ctl, d, x).engine.proc
    ensures Step(e, ctl, d, x).engine.learner.hasProfile == e.learner.hasProfile
  {
    var p := FrameAccumulator.Push(FrameAccumulator.Accumulator(e.input, e.pos), x);
    var e1 := e.(input := p.acc.buf, pos := p.acc.pos);
    if p.frame.Some? {
      var analysed := Spectrum.Analyse(d, e1.workspace, p.frame.value);
      Spectrum.PassThroughScopesAgree(d, Spectrum.Bins(analysed, e1.raw, e1.proc, e1.learner.profile),
                                      ctl.learning, e1.learner.hasProfile, ctl.bypass);
    }
  }

  /** The frame work as written: copy, window, forward transform, per-bin loop, inverse, window, overlap-add. */
  method ProcessFrameInPlace(e: Engine, ctl: Controls, d: Spectrum.Dsp, frame: Frame) returns (r: Engine)
    ensures r == ProcessFrame(e, ctl, d, frame)
  {
    var ws := Spectrum.LoadFrame(e.workspace, frame);
    ws := Spectrum.WindowInPlace(d.window, ws);
    ws := d.forward(ws);
    var bins := Spectrum.ProcessBinsInPlace(d, Spectrum.Bins(ws, e.raw, e.proc, e.learner.profile),
                                            ctl.learning, e.learner.hasProfile, ctl.bypass);
    var counter := e.learner.counter;
    if ctl.learning {
      counter := counter + 1;
    }
    ws := d.inverse(bins.ws);
    ws := Spectrum.WindowInPlace(d.window, ws);
    var ola := OverlapAdd.AddFrameInPlace(e.overlap, ws[..FftSize]);
    r := e.(workspace := ws, overlap := ola,
            learner := NoiseProfile.Learner(bins.profile, counter, e.learner.hasProfile),
            raw := bins.raw, proc := bins.proc);
  }

  /** One iteration of the sample loop as written: store, and on a full hop copy, shift and process; then drain. */
  method StepInPlace(e: Engine, ctl: Controls, d: Spectrum.Dsp, x: real) returns (r: Stepped)
    requires Valid(e) && |e.input| >= InputLen
    ensures r == Step(e, ctl, d, x)
  {
    var input := e.input[e.pos := x];
    var pos := e.pos + 1;
    var cur := e.(input := input, pos := pos);
    if pos >= HopSize {
      var frame: Frame := input[..FftSize];
      input := FrameAccumulator.ShiftInPlace(input);
      pos := pos - HopSize;
      cur := ProcessFrameInPlace(e.(input := input, pos := pos), ctl, d, frame);
    }
    var out, ola := OverlapAdd.DrainInPlace(cur.overlap);
    r := Stepped(cur.(overlap := ola), out);
  }

  /** processBlock as written: the size guard, the sample loop, then the finalisation loop. */
  method ProcessBlockInPlace(e: Engine, ctl: Controls, d: Spectrum.Dsp, block: seq<real>) returns (r: Ran)
    requires Valid(e)
    ensures r == ProcessBlock(e, ctl, d, block)
  {
    if |e.input| < InputLen {
      return Ran(e, block);
    }
    var cur := e;
    var outs := [];
    var i := 0;
    while i < |block|
      invariant 0 <= i <= |block|
      invariant Valid(cur) && |cur.input| == |e.input|
      invariant Run(cur, ctl, d, block[i..]).engine == Run(e, ctl, d, block).engine
      invariant outs + Run(cur, ctl, d, block[i..]).outs == Run(e, ctl, d, block).outs
    {
      var s := StepInPlace(cur, ctl, d, block[i]);
      assert block[i..][1..] == block[i + 1..];
      cur := s.engine;
      outs := outs + [s.out];
      i := i + 1;
    }
    assert block[i..] == [];
    var l := NoiseProfile.FinalizeInPlace(cur.learner, ctl.learning);
    r := Ran(cur.(learner := l), outs);
  }

  /** The magnitude spectra of the frames a run of samples completes, in order. */
  function RunSpectra(e: Engine, ctl: Controls, d: Spectrum.Dsp, xs: seq<real>): (fs: seq<seq<real>>)
    requires Valid(e) && |e.input| >= InputLen
    ensures NoiseProfile.AllSpectra(fs)
    decreases |xs|
  {
    if xs == [] then []
    else
      var p := FrameAccumulator.Push(FrameAccumulator.Accumulator(e.input, e.pos), xs[0]);
      var here := if p.frame.Some? then [FrameSpectrum(e.(input := p.acc.buf, pos := p.acc.pos), d, p.frame.value)] else [];
      here + RunSpectra(Step(e, ctl, d, xs[0]).engine, ctl, d, xs[1..])
  }

  /** A run completes one spectrum per hop: (pos + n) / hopSize of them. */
  lemma {:induction false} RunSpectraCount(e: Engine, ctl: Controls, d: Spectrum.Dsp, xs: seq<real>)
    requires Valid(e) && |e.input| >= InputLen
    ensures |RunSpectra(e, ctl, d, xs)| == (e.pos + |xs|) / HopSize
    decreases |xs|
  {
    if xs != [] {
      RunSpectraCount(Step(e, ctl, d, xs[0]).engine, ctl, d, xs[1..]);
      if e.pos == HopSize - 1 {
        assert (e.pos + |xs|) / HopSize == 1 + (|xs| - 1) / HopSize;
      }
    }
  }

  /** While learning, the sample loop is a learning session over exactly the spectra of the frames it completes. */
  lemma {:induction false} RunLearnsAll(e: Engine, ctl: Controls, d: Spectrum.Dsp, xs: seq<real>)
    requires Valid(e) && |e.input| >= InputLen
    requires ctl.learning
    ensures Run(e, ctl, d, xs).engine.learner == NoiseProfile.LearnAll(e.learner, RunSpectra(e, ctl, d, xs))
    decreases |xs|
  {
    if xs != [] {
      var p := FrameAccumulator.Push(FrameAccumulator.Accumulator(e.input, e.pos), xs[0]);
      var e1 := e.(input := p.acc.buf, pos := p.acc.pos);
      var here := if p.frame.Some? then [FrameSpectrum(e1, d, p.frame.value)] else [];
      var s := Step(e, ctl, d, xs[0]).engine;
      var rest := RunSpectra(s, ctl, d, xs[1..]);
      RunLearnsAll(s, ctl, d, xs[1..]);
      if p.frame.Some? {
        assert NoiseProfile.LearnAll(e.learner, here) == s.learner by {
          assert here[..0] == [];
        }
      } else {
        assert NoiseProfile.LearnAll(e.learner, here) == s.learner;
      }
      NoiseProfile.LearnAllAppend(e.learner, here, rest);
    }
  }

  /**
   * From a cleared profile (as prepareToPlay leaves it), a block with
   * learning on that completes at least one frame, followed by any block with
   * learning off, leaves the per-bin mean of exactly the frames learned:
   * the engine's profile is the average noise spectrum of the session.
   */
  lemma SessionProfileIsMean(e: Engine, on: Controls, off: Controls, d: Spectrum.Dsp, xs: seq<real>, ys: seq<real>)
    requires Valid(e) && |e.input| >= InputLen
    requires e.learner.profile == Zeros(BinSlots) && e.learner.counter == 0
    requires on.learning && !off.learning
    requires e.pos + |xs| >= HopSize
    ensures var learnt := ProcessBlock(e, on, d, xs).engine;
            var after := ProcessBlock(learnt, off, d, ys).engine;
            var fs := RunSpectra(e, on, d, xs);
            && |fs| == (e.pos + |xs|) / HopSize
            && after.learner.hasProfile && after.learner.counter == 0
            && forall k :: 0 <= k < NumBins ==> after.learner.profile[k] == NoiseProfile.SumBin(fs, k) / |fs| as real
  {
    var fs := RunSpectra(e, on, d, xs);
    RunSpectraCount(e, on, d, xs);
    RunLearnsAll(e, on, d, xs);
    var learnt := ProcessBlock(e, on, d, xs).engine;
    assert learnt.learner == NoiseProfile.LearnAll(e.learner, fs);
    IdleRunKeepsProfile(learnt, off, d, ys);
    NoiseProfile.ProfileIsMean(fs, e.learner.hasProfile);
  }

  /**
   * After prepareToPlay the engine has no profile, so a block with learning
   * off subtracts nothing: the learner stays cleared and both scopes agree.
   */
  lemma ResetForgetsProfile(e: Engine, sampleRate: real, ctl: Controls, d: Spectrum.Dsp, xs: seq<real>)
    requires !ctl.learning
    ensures var cleared := Prepare(e, sampleRate);
            var r := ProcessBlock(cleared, ctl, d, xs).engine;
            r.learner == cleared.learner && r.raw == r.proc
  {
    var cleared := Prepare(e, sampleRate);
    IdleRunKeepsProfile(cleared, ctl, d, xs);
    PassThroughScopesAgree(cleared, ctl, d, xs);
  }

  /**
   * A learning block started with the counter at zero leaves the old profile
   * plus the undivided sum of the new spectra, counts them, and keeps the
   * has-profile flag as it was. Until the finalisation at the end of the next
   * block with learning off, frames with a profile already present are
   * subtracted against this sum.
   */
  lemma LearningBlockLeavesSum(e: Engine, on: Controls, d: Spectrum.Dsp, xs: seq<real>)
    requires Valid(e) && |e.input| >= InputLen
    requires on.learning && e.learner.counter == 0
    ensures var l := ProcessBlock(e, on, d, xs).engine.learner;
            var fs := RunSpectra(e, on, d, xs);
            && l.hasProfile == e.learner.hasProfile
            && l.counter == |fs|
            && forall k :: 0 <= k < NumBins ==> l.profile[k] == e.learner.profile[k] + NoiseProfile.SumBin(fs, k)
  {
    RunLearnsAll(e, on, d, xs);
    NoiseProfile.LearnAllSums(e.learner, RunSpectra(e, on, d, xs));
  }

  /** A frame processed with learning and bypass off and a profile present subtracts each bin against the profile as it stands. */
  lemma FrameSubtractsAgainstProfile(e: Engine, off: Controls, d: Spectrum.Dsp, frame: Frame, k: nat)
    requires !off.learning && !off.bypass && e.learner.hasProfile && k < NumBins
    ensures ProcessFrame(e, off, d, frame).proc[k]
            == Telemetry.Smooth(e.proc[k], Subtraction.Subtract(FrameSpectrum(e, d, frame)[k], e.learner.profile[k]))
  {
    var analysed := Spectrum.Analyse(d, e.workspace, frame);
    Spectrum.ProcessBinsAt(d, Spectrum.Bins(analysed, e.raw, e.proc, e.learner.profile),
                           off.learning, e.learner.hasProfile, off.bypass, k);
  }

  /** Two engines that differ at most in the top slot (fftSize / 2) of the profile and the scopes. */
  predicate AgreeBelowTop(e1: Engine, e2: Engine)
  {
    && e1.input == e2.input && e1.pos == e2.pos && e1.workspace == e2.workspace
    && e1.overlap == e2.overlap && e1.sampleRate == e2.sampleRate
    && e1.learner.counter == e2.learner.counter && e1.learner.hasProfile == e2.learner.hasProfile
    && Spectrum.SameBelowTop(e1.learner.profile, e2.learner.profile)
    && Spectrum.SameBelowTop(e1.raw, e2.raw) && Spectrum.SameBelowTop(e1.proc, e2.proc)
  }

  /** One frame never reads the top slot. */
  lemma FrameIgnoresTopSlot(e1: Engine, e2: Engine, ctl: Controls, d: Spectrum.Dsp, frame: Frame)
    requires AgreeBelowTop(e1, e2)
    ensures AgreeBelowTop(ProcessFrame(e1, ctl, d, frame), ProcessFrame(e2, ctl, d, frame))
  {
    var analysed := Spectrum.Analyse(d, e1.workspace, frame);
    Spectrum.ProcessBinsIgnoresTopSlot(d, Spectrum.Bins(analysed, e1.raw, e1.proc, e1.learner.profile),
                                       Spectrum.Bins(analysed, e2.raw, e2.proc, e2.learner.profile),
                                       ctl.learning, e1.learner.hasProfile, ctl.bypass);
  }

  /** One sample never reads the top slot. */
  lemma StepIgnoresTopSlot(e1: Engine, e2: Engine, ctl: Controls, d: Spectrum.Dsp, x: real)
    requires Valid(e1) && |e1.input| >= InputLen && AgreeBelowTop(e1, e2)
    ensures Step(e1, ctl, d, x).out == Step(e2, ctl, d, x).out
    ensures AgreeBelowTop(Step(e1, ctl, d, x).engine, Step(e2, ctl, d, x).engine)
  {
    var p := FrameAccumulator.Push(FrameAccumulator.Accumulator(e1.input, e1.pos), x);
    if p.frame.Some? {
      FrameIgnoresTopSlot(e1.(input := p.acc.buf, pos := p.acc.pos), e2.(input := p.acc.buf, pos := p.acc.pos),
                          ctl, d, p.frame.value);
    }
  }

  /**
   * The top slot of the profile and the scopes, which the constructor leaves
   * uninitialised, is never read: engines differing only there produce the
   * same output and stay equal everywhere else.
   */
  lemma {:induction false} RunIgnoresTopSlot(e1: Engine, e2: Engine, ctl: Controls, d: Spectrum.Dsp, xs: seq<real>)
    requires Valid(e1) && |e1.input| >= InputLen && AgreeBelowTop(e1, e2)
    ensures Run(e1, ctl, d, xs).outs == Run(e2, ctl, d, xs).outs
    ensures AgreeBelowTop(Run(e1, ctl, d, xs).engine, Run(e2, ctl, d, xs).engine)
    decreases |xs|
  {
    if xs != [] {
      StepIgnoresTopSlot(e1, e2, ctl, d, xs[0]);
      RunIgnoresTopSlot(Step(e1, ctl, d, xs[0]).engine, Step(e2, ctl, d, xs[0]).engine, ctl, d, xs[1..]);
    }
  }

  /** The same at block level, finalisation included. */
  lemma ProcessBlockIgnoresTopSlot(e1: Engine, e2: Engine, ctl: Controls, d: Spectrum.Dsp, block: seq<real>)
    requires Valid(e1) && AgreeBelowTop(e1, e2)
    ensures ProcessBlock(e1, ctl, d, block).outs == ProcessBlock(e2, ctl, d, block).outs
    ensures AgreeBelowTop(ProcessBlock(e1, ctl, d, block).engine, ProcessBlock(e2, ctl, d, block).engine)
  {
    if |e1.input| >= InputLen {
      RunIgnoresTopSlot(e1, e2, ctl, d, block);
    }
  }

  /** With bypass on and learning off, a frame neither reads nor changes the learner. */
  lemma FrameBypassIgnoresLearner(e: Engine, l: NoiseProfile.Learner, ctl: Controls, d: Spectrum.Dsp, frame: Frame)
    requires !ctl.learning && ctl.bypass
    ensures ProcessFrame(e.(learner := l), ctl, d, frame) == ProcessFrame(e, ctl, d, frame).(learner := l)
  {
    var analysed := Spectrum.Analyse(d, e.workspace, frame);
    Spectrum.BypassIgnoresProfile(d, Spectrum.Bins(analysed, e.raw, e.proc, e.learner.profile),
                                  l.profile, e.learner.hasProfile, l.hasProfile);
  }

  /** With bypass on and learning off, the sample loop neither reads nor changes the learner. */
  lemma {:induction false} RunBypassIgnoresLearner(e: Engine, l: NoiseProfile.Learner, ctl: Controls, d: Spectrum.Dsp, xs: seq<real>)
    requires Valid(e) && |e.input| >= InputLen
    requires !ctl.learning && ctl.bypass
    ensures Run(e.(learner := l), ctl, d, xs).outs == Run(e, ctl, d, xs).outs
    ensures Run(e.(learner := l), ctl, d, xs).engine == Run(e, ctl, d, xs).engine.(learner := l)
    decreases |xs|
  {
    if xs != [] {
      var p := FrameAccumulator.Push(FrameAccumulator.Accumulator(e.input, e.pos), xs[0]);
      var e1 := e.(input := p.acc.buf, pos := p.acc.pos);
      if p.frame.Some? {
        FrameBypassIgnoresLearner(e1, l, ctl, d, p.frame.value);
      }
      var s := Step(e, ctl, d, xs[0]).engine;
      assert Step(e.(learner := l), ctl, d, xs[0]).engine == s.(learner := l);
      RunBypassIgnoresLearner(s, l, ctl, d, xs[1..]);
    }
  }

  /** The frames a run of samples completes, in order: what each step hands to the frame work. */
  function RunFrames(e: Engine, ctl: Controls, d: Spectrum.Dsp, xs: seq<real>): seq<Frame>
    requires Valid(e) && |e.input| >= InputLen
    decreases |xs|
  {
    if xs == [] then []
    else
      var p := FrameAccumulator.Push(FrameAccumulator.Accumulator(e.input, e.pos), xs[0]);
      (if p.frame.Some? then [p.frame.value] else []) + RunFrames(Step(e, ctl, d, xs[0]).engine, ctl, d, xs[1..])
  }

  /**
   * The engine's input vector, cursor and analysed frames are exactly those of
   * the frame accumulator fed the same samples: the rest of the engine never
   * touches them.
   */
  lemma {:induction false} RunIsFeed(e: Engine, ctl: Controls, d: Spectrum.Dsp, xs: seq<real>)
    requires Valid(e) && |e.input| >= InputLen
    ensures var fed := FrameAccumulator.Feed(FrameAccumulator.Accumulator(e.input, e.pos), xs);
            && Run(e, ctl, d, xs).engine.input == fed.acc.buf
            && Run(e, ctl, d, xs).engine.pos == fed.acc.pos
            && RunFrames(e, ctl, d, xs) == fed.frames
    decreases |xs|
  {
    if xs != [] {
      var p := FrameAccumulator.Push(FrameAccumulator.Accumulator(e.input, e.pos), xs[0]);
      if p.frame.Some? {
        ProcessFrameFacts(e.(input := p.acc.buf, pos := p.acc.pos), ctl, d, p.frame.value);
      }
      var s := Step(e, ctl, d, xs[0]).engine;
      assert FrameAccumulator.Accumulator(s.input, s.pos) == p.acc;
      RunIsFeed(s, ctl, d, xs[1..]);
    }
  }

  /**
   * Every frame the engine analyses is the latest hop of the stream (the
   * samples pending in the input vector followed by the block) padded with
   * fftSize - hopSize zeros, as long as the input vector's tail is zero,
   * which construction and prepareToPlay establish.
   */
  lemma EngineFrameIsLatestHop(e: Engine, ctl: Controls, d: Spectrum.Dsp, xs: seq<real>)
    requires Valid(e) && |e.input| >= InputLen
    requires FrameAccumulator.TailZero(e.input)
    ensures |RunFrames(e, ctl, d, xs)| == (e.pos + |xs|) / HopSize
    ensures forall m :: 0 <= m < |RunFrames(e, ctl, d, xs)| ==>
              (m + 1) * HopSize <= |e.input[..e.pos] + xs| &&
              RunFrames(e, ctl, d, xs)[m] == FrameAccumulator.Hop(e.input[..e.pos] + xs, m) + Zeros(FftSize - HopSize)
  {
    RunIsFeed(e, ctl, d, xs);
    FrameAccumulator.FrameIsLatestHop(FrameAccumulator.Accumulator(e.input, e.pos), xs);
  }
}
