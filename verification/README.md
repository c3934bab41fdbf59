# Spectral subtractor engine — a Dafny model

This project models the streaming core of the SpectralSubtractor audio plugin. That core is a single-channel
noise reducer. It learns an average noise magnitude spectrum from a reference passage. It then subtracts that
spectrum from later audio, frame by frame, and rebuilds a continuous output by overlap-add.

The model covers the processor's `processBlock`, its reset in `prepareToPlay`, the constructor's initial
state, and the constants and array layout of its header. The state is an immutable `Engine` datatype, and every
operation is a pure function over `seq<real>`. Subset types enforce the fixed lengths:

- `Frame` has 1024 slots. It models one frame and `overlapBuffer`.
- `Workspace` has 2048 slots. It models `fftWorkspace`.
- `BinArray` has 513 slots. It models `noiseProfile` and both scope arrays.

The C++ loops that update these arrays in place are also written as methods (`ShiftInPlace`, `WindowInPlace`,
`ProcessBinsInPlace`, `AddFrameInPlace`, `DrainInPlace`, `FinalizeInPlace`). Each is proved to compute the same
array as its functional definition. These methods are composed in the same order as the C++:

- `Processor.ProcessFrameInPlace` is one hop's work.
- `Processor.StepInPlace` is one iteration of the sample loop.
- `Processor.ProcessBlockInPlace` is the whole of `processBlock`.

Each composed method is proved equal to the function it implements: `ProcessFrame`, `Step` and `ProcessBlock`
respectively.

Modules, leaf first:

- `Layout`: `fftOrder = 10`, `fftSize = 1024`, `hopSize = 256`, the bin counts, the tuning constants
  `subtractionStrength = 2.0` and `spectralFloor = 0.05`, and the overlap-add scaling 1.5 / 1024.
- `FrameAccumulator`: the write cursor, the frame copy once per hop, and the guarded left shift of
  `inputBuffer` by one hop.
- `Telemetry`: the 0.8 / 0.2 exponential smoothing of `scopeDataRaw` and `scopeDataProc`.
- `Subtraction`: the per-bin rule. The magnitude passes through when learning, when no profile exists, or when
  bypassed. Otherwise it becomes `max(mag - 2 noise, 0.05 noise)`.
- `NoiseProfile`: per-bin accumulation and the frame counter while learning, and the finalisation at block end.
- `OverlapAdd`: the scaled add of a synthesised frame, and the one-sample drain.
- `Spectrum`: the window multiply, the packed (re, im) workspace layout, and the per-bin loop.
- `Processor`: the engine state, construction, `prepareToPlay`, one sample step, `processBlock`, and the
  stream-level properties.

The transform machinery is not modelled. This covers the Hann table, JUCE's real-only forward and inverse FFT,
and `sqrt`, `atan2`, `cos` and `sin`. These arrive as a `Dsp` record of functions. The only property assumed of
them is that `sqrt` is never negative (`SqrtNonNegative`), and only in the lemmas that need it.

The model follows the code as written, including where it departs from how a short-time spectral subtractor is
usually described:

- **Frames.** A 1024-sample frame with a 256-sample hop would normally hold the most recent 1024 input samples.
  Here the cursor only writes slots below `hopSize`, and the frame is copied from slots `[0, fftSize)`. So each
  analysed frame is the latest hop of 256 samples followed by 768 zeros. `FrameAccumulator.FrameIsLatestHop` proves
  this of the accumulator, and `Processor.EngineFrameIsLatestHop` of the frames the engine analyses, through
  `Processor.RunIsFeed`.
  The buffer is all zero again after every shift (`ShiftClearsZeroTail`).
- **Block-size independence.** This holds only while learning is on, the frame counter is 0, or bypass is on
  (`Processor.ProcessBlockSplit`). With bypass on, the pending finalisation cannot matter, because the profile
  is never read (`Processor.RunBypassIgnoresLearner`). Otherwise, once learning stops with frames counted, the
  profile is finalised at the end of whichever block comes next, so the output then depends on where the block
  boundaries fall. On a first session, no profile exists yet, and subtraction starts only from the block after
  that one.
- **Re-learning.** Starting a second learning session does not clear the profile. The new frames are added to
  the already-averaged old profile, and the sum is divided by the new frame count alone
  (`NoiseProfile.RelearnIsAdditive`). The old baseline therefore carries the weight of a single frame.
  `hasNoiseProfile` stays true throughout this. So in the block where learning stops, frames are subtracted
  against the old average plus the *undivided* sum of the new magnitudes (`Processor.LearningBlockLeavesSum`,
  `Processor.FrameSubtractsAgainstProfile`). Their floor, 0.05 times that sum, can lift a bin above its own input
  (`Subtraction.FloorCanRaiseBin`). The division only happens at the end of that block. The model keeps this
  behaviour as written.
- **Initial state.** The constructor gives `noiseProfile`, `overlapBuffer`, `fftWorkspace` and the scope arrays
  no initial value. `Processor.Construct` therefore takes their contents as parameters.
  - `prepareToPlay` zeroes the profile, the overlap buffer and both scopes.
  - `fftWorkspace` is never zeroed. Every frame copy overwrites its first fftSize slots. Its upper half reaches
    the forward transform with whatever it held before. `Processor.Prepare` therefore keeps it.
  - The top slot (fftSize / 2) of the profile and the scopes is never written, and never read either
    (`Processor.RunIgnoresTopSlot`). So its arbitrary initial content cannot affect the output.

## Model

| member | source | states |
|---|---|---|
| Layout.HeaderConstants | Source/PluginProcessor.h:4 | fftSize is 1 << fftOrder = 1024; hopSize is fftSize / 4 = 256, lies strictly between 0 and fftSize, and divides it; the bin and workspace lengths follow from fftSize |
| Layout.BinAccessInBounds | Source/PluginProcessor.cpp:84-112 | for every k < fftSize / 2, k is a valid index of the 513-slot bin arrays other than the top slot, and 2k and 2k + 1 are valid workspace indices |
| Layout.TuningConstantsPositive | Source/PluginProcessor.h:67-68 | the spectral floor lies in (0, 1), the subtraction strength is above 1, and the overlap scaling is 1.5 / fftSize |
| FrameAccumulator.ShiftInPlace | Source/PluginProcessor.cpp:70-74 | the in-place front-to-back shift gives slot i the old slot i + hopSize for i < size - hopSize, keeps the last hopSize slots and the size, and equals `ShiftByHop` |
| FrameAccumulator.ShiftClearsZeroTail | Source/PluginProcessor.cpp:68-74 | if every slot at or past hopSize is zero, the whole buffer is zero after the shift |
| FrameAccumulator.Push | Source/PluginProcessor.cpp:62-75 | the cursor stays below hopSize and becomes (pos + 1) % hopSize; a frame is emitted exactly when the cursor reaches the hop; a zero tail stays zero; the frame is the pending samples, then the new one, then fftSize - hopSize zeros |
| FrameAccumulator.Feed | Source/PluginProcessor.cpp:60-75 | feeding a stream sample by sample keeps the accumulator ready and the input vector's length; its frames are characterised by the lemmas below |
| FrameAccumulator.FeedCadence | Source/PluginProcessor.cpp:60-75 | a stream of n samples from cursor pos yields (pos + n) / hopSize frames and leaves the cursor at (pos + n) % hopSize |
| FrameAccumulator.FeedSplit | Source/PluginProcessor.cpp:60-75 | feeding xs then ys gives the same accumulator and frame sequence as feeding xs + ys |
| FrameAccumulator.FrameIsLatestHop | Source/PluginProcessor.cpp:62-68 | frame m of a stream is hop m of (pending samples ++ stream) followed by fftSize - hopSize zeros |
| Telemetry.Smooth | Source/PluginProcessor.cpp:92 | the smoothed value moves the distance to the new value by the factor 0.8 and always lies between the old snapshot and the new value |
| Telemetry.SmoothBins | Source/PluginProcessor.cpp:92-108 | each bin k < fftSize / 2 is smoothed towards its new value, and the top slot is unchanged |
| Telemetry.SmoothNeverOvershoots | Source/PluginProcessor.cpp:92 | with a constant input c the snapshot moves monotonically towards c and never crosses it |
| Telemetry.SmoothIsGeometric | Source/PluginProcessor.cpp:92 | after n frames of constant input c, the distance to c is 0.8^n times the initial distance |
| Telemetry.SmoothConverges | Source/PluginProcessor.cpp:92 | after n frames with n eps >= 4 abs(c - s), the snapshot is within eps of the constant input c |
| Subtraction.Subtract | Source/PluginProcessor.cpp:102-104 | the result is the larger of (mag - noise * strength) and (noise * floor): it is at least both and equal to one |
| Subtraction.NewMagnitude | Source/PluginProcessor.cpp:94-105 | the magnitude is unchanged when learning, when no profile exists, or when bypassed; otherwise it is the floor-clamped subtraction; it is non-negative whenever magnitude and noise are |
| Subtraction.SubtractionThreshold | Source/PluginProcessor.cpp:100-105 | when subtracting, bins at or below noise * (strength + floor) are clamped to the floor, and bins at or above it lose exactly noise * strength |
| Subtraction.SubtractionAttenuates | Source/PluginProcessor.cpp:100-105 | with a non-negative noise value, subtraction never exceeds max(mag, noise * floor) and is never negative |
| Subtraction.FloorCanRaiseBin | Source/PluginProcessor.cpp:102-104 | when noise * floor exceeds the magnitude, the subtracting branch returns more than its input: exactly the floor, for non-negative noise |
| Subtraction.NewMagnitudes | Source/PluginProcessor.cpp:84-105 | the whole spectrum is returned unchanged whenever the rule passes magnitudes through |
| NoiseProfile.Accumulate | Source/PluginProcessor.cpp:96-99 | each bin k < fftSize / 2 grows by exactly its magnitude; the top slot is unchanged |
| NoiseProfile.LearnFrame | Source/PluginProcessor.cpp:96-115 | a learning frame increments the counter by exactly one and, for non-negative magnitudes, never lowers a bin |
| NoiseProfile.Finalize | Source/PluginProcessor.cpp:136-143 | with learning off and counter > 0, each bin k < fftSize / 2 times the counter gives back the old bin, the counter is 0 and a profile exists; otherwise nothing changes, so there is no division by zero |
| NoiseProfile.FinalizeInPlace | Source/PluginProcessor.cpp:139-142 | the in-place division loop computes `Finalize` |
| NoiseProfile.LearnAllSums | Source/PluginProcessor.cpp:96-115 | a session of K frames adds each bin's summed magnitudes to the existing profile and adds K to the counter |
| NoiseProfile.LearnAllMonotone | Source/PluginProcessor.cpp:96-99 | learning non-negative magnitudes leaves every bin of the profile pointwise no lower |
| NoiseProfile.ProfileIsMean | Source/PluginProcessor.cpp:136-143 | from a zero profile, learning K > 0 frames and then finalising gives the per-bin mean of the learned magnitudes |
| NoiseProfile.RelearnIsAdditive | Source/PluginProcessor.cpp:96-143 | a second session finalises to (old profile + new sum) / new frame count, so re-learning adds to the old baseline |
| NoiseProfile.LearnAllAppend | Source/PluginProcessor.cpp:96-115 | two learning sessions with no finalisation between them are one session over the concatenated spectra |
| OverlapAdd.AddFrameInPlace | Source/PluginProcessor.cpp:121-126 | every slot j < fftSize grows by frame[j] * 1.5 / fftSize |
| OverlapAdd.DrainInPlace | Source/PluginProcessor.cpp:129-131 | the emitted sample is slot 0, slot i takes slot i + 1, and the last slot becomes 0 |
| OverlapAdd.DrainManyShifts | Source/PluginProcessor.cpp:129-133 | after n drains with no frame added, slot i holds old slot i + n (or 0 past the end), and the outputs are the first n old slots, then zeros |
| OverlapAdd.DrainFlushes | Source/PluginProcessor.cpp:129-131 | fftSize drains with no new frame leave the buffer all zero |
| Spectrum.WindowInPlace | Source/PluginProcessor.cpp:78 | the first fftSize workspace slots are multiplied by the window table, and the upper half is untouched |
| Spectrum.LoadFrame | Source/PluginProcessor.cpp:68 | the copy fills workspace slots [0, fftSize) with the frame and leaves the rest as they were |
| Spectrum.RebuiltAt | Source/PluginProcessor.cpp:111-112 | bin k's pair becomes (newMag cos phase, newMag sin phase), built from that bin's own phase |
| Spectrum.ProcessBinsAt | Source/PluginProcessor.cpp:84-113 | for bin k, raw smooths towards the magnitude and proc towards the new magnitude; the profile gains the magnitude only while learning; the bin is rebuilt with its original phase |
| Spectrum.ProcessBinsFrame | Source/PluginProcessor.cpp:84-113 | the per-bin pass never touches the top slot fftSize / 2 of any bin array or the workspace's upper half; the profile changes only while learning, then never decreases, and stays non-negative |
| Spectrum.BinDependsOnItsPair | Source/PluginProcessor.cpp:86-89 | a bin's magnitude and phase depend only on workspace slots 2k and 2k + 1 |
| Spectrum.BinStep | Source/PluginProcessor.cpp:86-112 | one loop iteration updates raw, proc and profile at k and the pair (2k, 2k + 1) as the per-bin rule prescribes, and changes nothing else in the workspace |
| Spectrum.ProcessBinsInPlace | Source/PluginProcessor.cpp:84-113 | the single interleaved in-place loop computes the same state as `ProcessBins`; each rebuilt bin keeps its phase |
| Spectrum.PassThroughScopesAgree | Source/PluginProcessor.cpp:94-108 | when the rule passes magnitudes through, equal scopes stay equal, and each bin's pair (2k, 2k + 1) is rebuilt as (mag cos phase, mag sin phase) from its own magnitude and phase |
| Processor.Construct | Source/PluginProcessor.cpp:5-16 | after construction the input vector has 2 fftSize zero slots, the cursor and counter are 0, no profile exists, and the sample rate is 44100 |
| Processor.ProcessFrame | Source/PluginProcessor.cpp:67-126 | while learning, the learner takes exactly one `LearnFrame` step on the analysed frame's magnitudes; otherwise it is untouched; input, cursor and rate are kept |
| Processor.ProcessFrameInPlace | Source/PluginProcessor.cpp:67-126 | copy, window, forward transform, the in-place per-bin loop, counter, inverse, window and overlap-add, composed as written, compute `ProcessFrame` |
| Processor.StepInPlace | Source/PluginProcessor.cpp:60-133 | store, cursor increment, copy, in-place shift, frame work and drain, composed as written, compute `Step` |
| Processor.ProcessBlockInPlace | Source/PluginProcessor.cpp:51-143 | the size guard, the sample loop over in-place steps and the in-place finalisation compute `ProcessBlock` |
| Processor.Resize | Source/PluginProcessor.cpp:23 | `resize` keeps existing elements and zero-fills only the new slots |
| Processor.Prepare | Source/PluginProcessor.cpp:21-36 | the reset zeroes profile, overlap buffer and both scopes, and clears cursor, counter and profile flag; it keeps the existing input samples and a zero input tail; it records the sample rate |
| Processor.ProcessFrameFacts | Source/PluginProcessor.cpp:67-126 | a frame adds one to the counter exactly when learning; it keeps the profile flag and the top slots; the profile changes only while learning, then never decreases, and stays non-negative |
| Processor.Step | Source/PluginProcessor.cpp:60-133 | one sample keeps the cursor below hopSize, advancing it to (pos + 1) % hopSize, and keeps the input size |
| Processor.Run | Source/PluginProcessor.cpp:60-134 | the sample loop emits one output per input sample and keeps the cursor valid |
| Processor.ProcessBlock | Source/PluginProcessor.cpp:51-147 | below the size guard the call changes nothing and the audio passes untouched; otherwise the output has the block's length and the cursor stays valid |
| Processor.StepFacts | Source/PluginProcessor.cpp:60-133 | one sample increments the counter exactly when a frame completes while learning; the profile flag, the top slots and the sample rate never change |
| Processor.RunCadence | Source/PluginProcessor.cpp:60-115 | over n samples the cursor ends at (pos + n) % hopSize; while learning, the counter grows by (pos + n) / hopSize, and otherwise it stays put |
| Processor.ProcessBlockCadence | Source/PluginProcessor.cpp:60-143 | while learning, every frame of the block is counted; with learning off the counter ends at 0, and a profile exists iff one existed or frames had been counted |
| Processor.RunSplit | Source/PluginProcessor.cpp:60-134 | running xs then ys gives the same state and outputs as running xs + ys |
| Processor.ProcessBlockSplit | Source/PluginProcessor.cpp:51-143 | with learning on, a zero counter or bypass on, two blocks equal their concatenation in state and output |
| Processor.RunKeepsTopSlot | Source/PluginProcessor.cpp:84-112 | processing never changes the top slot of the profile or of either scope |
| Processor.ProcessBlockKeepsTopSlot | Source/PluginProcessor.cpp:84-143 | neither processing nor finalisation changes the top slot of the profile or the scopes |
| Processor.RunKeepsProfileNonNegative | Source/PluginProcessor.cpp:96-99 | if sqrt is never negative, learning keeps the profile non-negative |
| Processor.ProcessBlockKeepsProfileNonNegative | Source/PluginProcessor.cpp:96-143 | if sqrt is never negative, learning plus finalisation by a positive counter keep the profile non-negative |
| Processor.LearningRunRaisesProfile | Source/PluginProcessor.cpp:96-99 | if sqrt is never negative, while learning, a run of samples never lowers any bin of the profile |
| Processor.IdleRunKeepsProfile | Source/PluginProcessor.cpp:96-115 | with learning off, the sample loop leaves profile, counter and flag unchanged |
| Processor.RunBetweenFramesDrains | Source/PluginProcessor.cpp:65-133 | while no frame completes, the outputs and the overlap buffer are exactly those of plain drains |
| Processor.RunKeepsTailZero | Source/PluginProcessor.cpp:62-75 | input slots at or beyond hopSize stay zero throughout processing |
| Processor.StepPassThroughScopesAgree | Source/PluginProcessor.cpp:60-108 | one sample while learning, without a profile, or bypassed keeps equal raw and processed scopes equal and keeps the has-profile flag |
| Processor.PassThroughScopesAgree | Source/PluginProcessor.cpp:92-108 | when learning, without a profile, or when bypassed, equal raw and processed scopes stay equal |
| Processor.RunSpectraCount | Source/PluginProcessor.cpp:60-75 | a run of n samples from cursor pos analyses exactly (pos + n) / hopSize frames |
| Processor.RunLearnsAll | Source/PluginProcessor.cpp:60-115 | while learning, the sample loop's learner is a learning session over exactly the spectra of the frames it completes, in order |
| Processor.SessionProfileIsMean | Source/PluginProcessor.cpp:51-143 | from a cleared profile, a learning block that completes K > 0 frames followed by a block with learning off leaves the per-bin mean of those K spectra, counter 0 and a profile flagged |
| Processor.ResetForgetsProfile | Source/PluginProcessor.cpp:21-36 | after prepareToPlay, a block with learning off keeps the cleared learner and subtracts nothing, so both scopes agree |
| Processor.LearningBlockLeavesSum | Source/PluginProcessor.cpp:96-143 | a learning block from counter 0 leaves old profile + undivided sum of its spectra, counts them, and keeps the has-profile flag |
| Processor.FrameSubtractsAgainstProfile | Source/PluginProcessor.cpp:94-108 | with learning and bypass off and a profile present, each bin of the processed scope moves towards the subtraction against the profile as it currently stands |
| Processor.PendingBypassSplit | Source/PluginProcessor.cpp:51-143 | with bypass on, learning off and frames counted, two blocks equal their concatenation in state and output, although the finalisation happens at a different sample |
| Processor.FrameBypassIgnoresLearner | Source/PluginProcessor.cpp:94-115 | with bypass on and learning off, one frame's work neither reads nor changes the learner |
| Processor.RunBypassIgnoresLearner | Source/PluginProcessor.cpp:60-134 | with bypass on and learning off, replacing the learner changes neither the outputs nor any other part of the engine |
| Spectrum.BypassIgnoresProfile | Source/PluginProcessor.cpp:94-105 | with bypass on and learning off, the rebuilt workspace and both scopes do not depend on the profile or the has-profile flag, and the profile is unchanged |
| Spectrum.ProcessBinsIgnoresTopSlot | Source/PluginProcessor.cpp:84-113 | bin arrays that differ only in the top slot give the same workspace and bin arrays that still differ only there |
| Processor.FrameIgnoresTopSlot | Source/PluginProcessor.cpp:67-126 | one frame's work never reads the top slot of the profile or the scopes |
| Processor.StepIgnoresTopSlot | Source/PluginProcessor.cpp:60-133 | one sample's output and the rest of the engine do not depend on those top slots |
| Processor.RunIgnoresTopSlot | Source/PluginProcessor.cpp:60-134 | engines that differ only in the top slot of the profile and the scopes produce the same outputs and stay equal elsewhere |
| Processor.ProcessBlockIgnoresTopSlot | Source/PluginProcessor.cpp:51-143 | the same for a whole block, finalisation included |
| Processor.RunIsFeed | Source/PluginProcessor.cpp:60-75 | after any stream the engine's input vector and cursor are those of the frame accumulator fed the same samples, and the frames the engine analyses are exactly the accumulator's frames |
| Processor.EngineFrameIsLatestHop | Source/PluginProcessor.cpp:60-75 | with a zero input-vector tail, the engine analyses (pos + n) / hopSize frames and frame m is hop m of (pending samples ++ stream) followed by fftSize - hopSize zeros |

## Left out

- Transform machinery. JUCE's `dsp::FFT`, the Hann `WindowingFunction` table, and `std::sqrt`, `std::atan2`,
  `std::cos` and `std::sin` are foreign library code. They are function parameters (`Spectrum.Dsp`). No claim is
  made about reconstruction accuracy.
- Floating point. Samples are `real`, and single-precision rounding, denormals and `ScopedNoDenormals` are not
  modelled.
- Concurrency. `isLearning` and `bypass` are atomics that the source reads several times per block. The model
  reads each once per block (`Controls`). A change from the UI thread in the middle of a block, and the racy
  reads of the scope arrays by the editor, are not modelled.
- Counter width. `noiseLearnCounter` is an `int`, but the model uses `nat`. Overflow after 2^31 learned frames is not
  modelled. At 256 samples per frame and 44.1 kHz, that is about 144 days of continuous learning.
- Host integration. The stereo copy (Source/PluginProcessor.cpp:145-146), bus-layout negotiation,
  `releaseResources` and the empty state save/restore are left out. So is the never-read `outputBuffer`, the
  editor and its timer, the spectrogram image, the colour themes, and the UI-only controls `showProcessed`,
  `visualGain`, `maxFreqIndex` and `colorTheme`.
