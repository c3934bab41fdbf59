/**
 * Analysis and synthesis of one frame. The transform machinery (the Hann
 * table, the real-only forward and inverse FFT, sqrt, atan2, cos and sin) is
 * a `Dsp` record of functions supplied by the caller; what is modelled is the
 * window multiply, the packed (re, im) layout of the workspace, and the
 * per-bin loop that smooths the scopes, learns or subtracts, and rebuilds
 * each bin from its new magnitude and its original phase.
 */
module Spectrum {
  import opened Layout
  import Telemetry
  import Subtraction
  import NoiseProfile

  /** The transform collaborators the processor calls but does not define. */
  datatype Dsp = Dsp(
    window: Frame,
    forward: Workspace -> Workspace,
    inverse: Workspace -> Workspace,
    sqrt: real -> real,
    atan2: (real, real) -> real,
    cos: real -> real,
    sin: real -> real)

  /** The square root the collaborators supply never returns a negative value. */
  ghost predicate SqrtNonNegative(d: Dsp)
  {
    forall x :: d.sqrt(x) >= 0.0
  }

  /** `multiplyWithWindowingTable(fftWorkspace, fftSize)`: the first fftSize slots are windowed. */
  function Windowed(win: Frame, ws: Workspace): (r: Workspace)
  {
    seq(WorkspaceLen, i requires 0 <= i < WorkspaceLen => if i < FftSize then ws[i] * win[i] else ws[i])
  }

  /** The window multiply as a loop over the first fftSize slots. */
  method WindowInPlace(win: Frame, ws: Workspace) returns (r: Workspace)
    ensures forall i :: 0 <= i < FftSize ==> r[i] == ws[i] * win[i]
    ensures forall i :: FftSize <= i < WorkspaceLen ==> r[i] == ws[i]
    ensures r == Windowed(win, ws)
  {
    r := ws;
    var i := 0;
    while i < FftSize
      invariant 0 <= i <= FftSize
      invariant forall j :: 0 <= j < i ==> r[j] == ws[j] * win[j]
      invariant forall j :: i <= j < WorkspaceLen ==> r[j] == ws[j]
    {
      r := r[i := r[i] * win[i]];
      i := i + 1;
    }
    assert forall j :: 0 <= j < WorkspaceLen ==> r[j] == Windowed(win, ws)[j];
  }

  /** The workspace with the first fftSize slots replaced by a frame (the copy loop). */
  function LoadFrame(ws: Workspace, frame: Frame): (r: Workspace)
    ensures r[..FftSize] == frame && r[FftSize..] == ws[FftSize..]
  {
    frame + ws[FftSize..]
  }

  /** re^2 + im^2 of one packed pair. */
  function Energy(re: real, im: real): real
  {
    re * re + im * im
  }

  /** Magnitude of bin k: sqrt(re^2 + im^2) over the packed pair (2k, 2k + 1). */
  function Magnitude(d: Dsp, ws: Workspace, k: nat): real
    requires k < NumBins
  {
    d.sqrt(Energy(ws[2 * k], ws[2 * k + 1]))
  }

  /** Phase of bin k: atan2(im, re). */
  function Phase(d: Dsp, ws: Workspace, k: nat): real
    requires k < NumBins
  {
    d.atan2(ws[2 * k + 1], ws[2 * k])
  }

  function Magnitudes(d: Dsp, ws: Workspace): (r: seq<real>)
    ensures |r| == NumBins
    ensures forall k :: 0 <= k < NumBins ==> r[k] == Magnitude(d, ws, k)
  {
    seq(NumBins, k requires 0 <= k < NumBins => Magnitude(d, ws, k))
  }

  /** Slot i of the rebuilt workspace: (newMag cos phase, newMag sin phase) per bin, the upper half untouched. */
  function RebuiltSlot(d: Dsp, ws: Workspace, newMags: seq<real>, i: nat): real
    requires |newMags| == NumBins && i < WorkspaceLen
  {
    if i < FftSize then
      if i % 2 == 0 then ReOf(d, newMags[i / 2], Phase(d, ws, i / 2))
      else ImOf(d, newMags[i / 2], Phase(d, ws, i / 2))
    else ws[i]
  }

  /** The rectangular pair (mag cos phase, mag sin phase) a bin is rebuilt into. */
  function ReOf(d: Dsp, mag: real, phase: real): real
  {
    mag * d.cos(phase)
  }

  function ImOf(d: Dsp, mag: real, phase: real): real
  {
    mag * d.sin(phase)
  }

  function Rebuilt(d: Dsp, ws: Workspace, newMags: seq<real>): (r: Workspace)
    requires |newMags| == NumBins
  {
    seq(WorkspaceLen, i requires 0 <= i < WorkspaceLen => RebuiltSlot(d, ws, newMags, i))
  }

  /** The pair of bin k is rebuilt from its new magnitude and its own phase. */
  lemma RebuiltAt(d: Dsp, ws: Workspace, newMags: seq<real>, k: nat)
    requires |newMags| == NumBins && k < NumBins
    ensures Rebuilt(d, ws, newMags)[2 * k] == ReOf(d, newMags[k], Phase(d, ws, k))
    ensures Rebuilt(d, ws, newMags)[2 * k + 1] == ImOf(d, newMags[k], Phase(d, ws, k))
  {
    assert (2 * k) / 2 == k && (2 * k) % 2 == 0;
    assert (2 * k + 1) / 2 == k && (2 * k + 1) % 2 == 1;
    assert Rebuilt(d, ws, newMags)[2 * k] == RebuiltSlot(d, ws, newMags, 2 * k);
    assert Rebuilt(d, ws, newMags)[2 * k + 1] == RebuiltSlot(d, ws, newMags, 2 * k + 1);
  }

  /** The state the per-bin loop touches. */
  datatype Bins = Bins(ws: Workspace, raw: BinArray, proc: BinArray, profile: BinArray)

  predicate NonNegative(a: BinArray)
  {
    forall k :: 0 <= k < BinSlots ==> a[k] >= 0.0
  }

  /** One pass of the per-bin loop over a transformed workspace. */
  function ProcessBins(d: Dsp, b: Bins, learning: bool, hasProfile: bool, bypass: bool): Bins
  {
    var mags := Magnitudes(d, b.ws);
    var newMags := Subtraction.NewMagnitudes(mags, b.profile, learning, hasProfile, bypass);
    Bins(Rebuilt(d, b.ws, newMags),
         Telemetry.SmoothBins(b.raw, mags),
         Telemetry.SmoothBins(b.proc, newMags),
         if learning then NoiseProfile.Accumulate(b.profile, mags) else b.profile)
  }

  /**
   * What the per-bin pass does to bin k: both scopes move towards the old and
   * the new magnitude, the profile grows by the magnitude only while
   * learning, and the bin is rebuilt from the new magnitude and the phase it
   * came in with.
   */
  lemma ProcessBinsAt(d: Dsp, b: Bins, learning: bool, hasProfile: bool, bypass: bool, k: nat)
    requires k < NumBins
    ensures BinDone(d, b, learning, hasProfile, bypass, ProcessBins(d, b, learning, hasProfile, bypass), k)
  {
    var mags := Magnitudes(d, b.ws);
    var newMags := Subtraction.NewMagnitudes(mags, b.profile, learning, hasProfile, bypass);
    assert newMags[k] == Subtraction.NewMagnitude(mags[k], b.profile[k], learning, hasProfile, bypass);
    RebuiltAt(d, b.ws, newMags, k);
  }

  /**
   * The per-bin pass leaves the top bin slot (fftSize / 2) of every bin array
   * and the upper half of the workspace alone; the profile changes only while
   * learning, never decreases then, and stays non-negative.
   */
  lemma ProcessBinsFrame(d: Dsp, b: Bins, learning: bool, hasProfile: bool, bypass: bool)
    ensures var r := ProcessBins(d, b, learning, hasProfile, bypass);
            && r.raw[NumBins] == b.raw[NumBins] && r.proc[NumBins] == b.proc[NumBins]
            && r.profile[NumBins] == b.profile[NumBins]
            && (forall i :: FftSize <= i < WorkspaceLen ==> r.ws[i] == b.ws[i])
            && (!learning ==> r.profile == b.profile)
            && (learning && SqrtNonNegative(d) ==> forall k :: 0 <= k < BinSlots ==> r.profile[k] >= b.profile[k])
            && (SqrtNonNegative(d) && NonNegative(b.profile) ==> NonNegative(r.profile))
  {
  }

  /** Magnitude and phase of bin k depend only on the pair (2k, 2k + 1). */
  lemma BinDependsOnItsPair(d: Dsp, ws1: Workspace, ws2: Workspace, k: nat)
    requires k < NumBins
    requires ws1[2 * k] == ws2[2 * k] && ws1[2 * k + 1] == ws2[2 * k + 1]
    ensures Magnitude(d, ws1, k) == Magnitude(d, ws2, k)
    ensures Phase(d, ws1, k) == Phase(d, ws2, k)
  {
  }

  /** Body of the per-bin loop for one k, as written. */
  method BinStep(d: Dsp, ws: Workspace, raw: BinArray, proc: BinArray, profile: BinArray,
                 k: nat, learning: bool, hasProfile: bool, bypass: bool)
    returns (ws': Workspace, raw': BinArray, proc': BinArray, profile': BinArray)
    requires k < NumBins
    ensures raw' == raw[k := Telemetry.Smooth(raw[k], Magnitude(d, ws, k))]
    ensures profile' == profile[k := if learning then profile[k] + Magnitude(d, ws, k) else profile[k]]
    ensures var nm := Subtraction.NewMagnitude(Magnitude(d, ws, k), profile[k], learning, hasProfile, bypass);
            proc' == proc[k := Telemetry.Smooth(proc[k], nm)]
    ensures var nm := Subtraction.NewMagnitude(Magnitude(d, ws, k), profile[k], learning, hasProfile, bypass);
            ws'[2 * k] == ReOf(d, nm, Phase(d, ws, k)) && ws'[2 * k + 1] == ImOf(d, nm, Phase(d, ws, k))
    ensures forall i :: 0 <= i < WorkspaceLen && i != 2 * k && i != 2 * k + 1 ==> ws'[i] == ws[i]
  {
    var re := ws[2 * k];
    var im := ws[2 * k + 1];
    var magnitude := d.sqrt(re * re + im * im);
    var phase := d.atan2(im, re);
    assert re * re + im * im == Energy(ws[2 * k], ws[2 * k + 1]);
    assert magnitude == Magnitude(d, ws, k);

    raw' := raw[k := raw[k] * 0.8 + magnitude * 0.2];

    var newMag := magnitude;
    profile' := profile;
    if learning {
      profile' := profile[k := profile[k] + magnitude];
    } else if hasProfile && !bypass {
      var floorVal := profile[k] * SpectralFloor;
      var subtracted := magnitude - profile[k] * SubtractionStrength;
      newMag := Subtraction.Max(subtracted, floorVal);
    }

    proc' := proc[k := proc[k] * 0.8 + newMag * 0.2];

    ghost var expected := Subtraction.NewMagnitude(Magnitude(d, ws, k), profile[k], learning, hasProfile, bypass);
    assert newMag == expected;
    assert phase == Phase(d, ws, k);
    var re' := newMag * d.cos(phase);
    var im' := newMag * d.sin(phase);
    assert re' == ReOf(d, expected, Phase(d, ws, k)) && im' == ImOf(d, expected, Phase(d, ws, k));
    ws' := ws[2 * k := re'];
    ws' := ws'[2 * k + 1 := im'];
  }

  /**
   * When the rule passes magnitudes through, both scopes are smoothed towards
   * the same values, and each bin is rebuilt from its own magnitude and phase.
   */
  lemma PassThroughScopesAgree(d: Dsp, b: Bins, learning: bool, hasProfile: bool, bypass: bool)
    requires Subtraction.PassesThrough(learning, hasProfile, bypass)
    ensures b.raw == b.proc ==> ProcessBins(d, b, learning, hasProfile, bypass).raw
                                == ProcessBins(d, b, learning, hasProfile, bypass).proc
    ensures forall k :: 0 <= k < NumBins ==>
              && ProcessBins(d, b, learning, hasProfile, bypass).ws[2 * k] == ReOf(d, Magnitude(d, b.ws, k), Phase(d, b.ws, k))
              && ProcessBins(d, b, learning, hasProfile, bypass).ws[2 * k + 1] == ImOf(d, Magnitude(d, b.ws, k), Phase(d, b.ws, k))
  {
    var mags := Magnitudes(d, b.ws);
    assert Subtraction.NewMagnitudes(mags, b.profile, learning, hasProfile, bypass) == mags;
    forall k | 0 <= k < NumBins
      ensures ProcessBins(d, b, learning, hasProfile, bypass).ws[2 * k] == ReOf(d, Magnitude(d, b.ws, k), Phase(d, b.ws, k))
      ensures ProcessBins(d, b, learning, hasProfile, bypass).ws[2 * k + 1] == ImOf(d, Magnitude(d, b.ws, k), Phase(d, b.ws, k))
    {
      ProcessBinsAt(d, b, learning, hasProfile, bypass, k);
    }
  }

  /** The magnitude the rule assigns to bin k of b. */
  function NewMagAt(d: Dsp, b: Bins, learning: bool, hasProfile: bool, bypass: bool, k: nat): real
    requires k < NumBins
  {
    Subtraction.NewMagnitude(Magnitude(d, b.ws, k), b.profile[k], learning, hasProfile, bypass)
  }

  /** Bin k of r holds what one pass of the per-bin loop over b puts there. */
  predicate BinDone(d: Dsp, b: Bins, learning: bool, hasProfile: bool, bypass: bool, r: Bins, k: nat)
    requires k < NumBins
  {
    var m := Magnitude(d, b.ws, k);
    var nm := NewMagAt(d, b, learning, hasProfile, bypass, k);
    && r.ws[2 * k] == ReOf(d, nm, Phase(d, b.ws, k))
    && r.ws[2 * k + 1] == ImOf(d, nm, Phase(d, b.ws, k))
    && r.raw[k] == Telemetry.Smooth(b.raw[k], m)
    && r.proc[k] == Telemetry.Smooth(b.proc[k], nm)
    && r.profile[k] == (if learning then b.profile[k] + m else b.profile[k])
  }

  /** A state that agrees with the per-bin pass on every bin and is untouched elsewhere is ProcessBins. */
  lemma ProcessBinsUnique(d: Dsp, b: Bins, learning: bool, hasProfile: bool, bypass: bool, r: Bins)
    requires forall j :: 0 <= j < NumBins ==> BinDone(d, b, learning, hasProfile, bypass, r, j)
    requires forall i :: FftSize <= i < WorkspaceLen ==> r.ws[i] == b.ws[i]
    requires r.raw[NumBins] == b.raw[NumBins] && r.proc[NumBins] == b.proc[NumBins]
    requires r.profile[NumBins] == b.profile[NumBins]
    ensures r == ProcessBins(d, b, learning, hasProfile, bypass)
  {
    var mags := Magnitudes(d, b.ws);
    var newMags := Subtraction.NewMagnitudes(mags, b.profile, learning, hasProfile, bypass);
    forall j | 0 <= j < NumBins
      ensures r.ws[2 * j] == ReOf(d, newMags[j], Phase(d, b.ws, j))
      ensures r.ws[2 * j + 1] == ImOf(d, newMags[j], Phase(d, b.ws, j))
      ensures r.raw[j] - mags[j] == Telemetry.Decay * (b.raw[j] - mags[j])
      ensures r.proc[j] - newMags[j] == Telemetry.Decay * (b.proc[j] - newMags[j])
      ensures r.profile[j] == (if learning then b.profile[j] + mags[j] else b.profile[j])
    {
      assert BinDone(d, b, learning, hasProfile, bypass, r, j);
    }
    RebuiltUnique(d, b.ws, newMags, r.ws);
    SmoothBinsUnique(b.raw, mags, r.raw);
    SmoothBinsUnique(b.proc, newMags, r.proc);
    if learning {
      AccumulateUnique(b.profile, mags, r.profile);
    } else {
      assert r.profile == b.profile;
    }
  }

  lemma RebuiltUnique(d: Dsp, ws: Workspace, newMags: seq<real>, r: Workspace)
    requires |newMags| == NumBins
    requires forall j :: 0 <= j < NumBins ==>
               r[2 * j] == ReOf(d, newMags[j], Phase(d, ws, j)) && r[2 * j + 1] == ImOf(d, newMags[j], Phase(d, ws, j))
    requires forall i :: FftSize <= i < WorkspaceLen ==> r[i] == ws[i]
    ensures r == Rebuilt(d, ws, newMags)
  {
    var t := Rebuilt(d, ws, newMags);
    forall i | 0 <= i < WorkspaceLen
      ensures t[i] == r[i]
    {
      if i < FftSize {
        var j := i / 2;
        RebuiltAt(d, ws, newMags, j);
        assert i == 2 * j || i == 2 * j + 1;
      }
    }
  }

  lemma SmoothBinsUnique(snap: BinArray, xs: seq<real>, r: BinArray)
    requires |xs| == NumBins
    requires forall j :: 0 <= j < NumBins ==> r[j] - xs[j] == Telemetry.Decay * (snap[j] - xs[j])
    requires r[NumBins] == snap[NumBins]
    ensures r == Telemetry.SmoothBins(snap, xs)
  {
    var t := Telemetry.SmoothBins(snap, xs);
    assert forall j :: 0 <= j < BinSlots ==> t[j] == r[j];
  }

  lemma AccumulateUnique(profile: BinArray, mags: seq<real>, r: BinArray)
    requires |mags| == NumBins
    requires forall j :: 0 <= j < NumBins ==> r[j] == profile[j] + mags[j]
    requires r[NumBins] == profile[NumBins]
    ensures r == NoiseProfile.Accumulate(profile, mags)
  {
    var t := NoiseProfile.Accumulate(profile, mags);
    assert forall j :: 0 <= j < BinSlots ==> t[j] == r[j];
  }

  /**
   * The per-bin loop as written: one pass over k < fftSize / 2 that reads the
   * pair (2k, 2k + 1) before overwriting it, so each bin sees its own
   * transform output. It computes the same state as ProcessBins, and the
   * reconstruction keeps each bin's phase.
   */
  method ProcessBinsInPlace(d: Dsp, b: Bins, learning: bool, hasProfile: bool, bypass: bool) returns (r: Bins)
    ensures forall k :: 0 <= k < NumBins ==>
              var nm := Subtraction.NewMagnitude(Magnitude(d, b.ws, k), b.profile[k], learning, hasProfile, bypass);
              r.ws[2 * k] == ReOf(d, nm, Phase(d, b.ws, k)) && r.ws[2 * k + 1] == ImOf(d, nm, Phase(d, b.ws, k))
    ensures r == ProcessBins(d, b, learning, hasProfile, bypass)
  {
    var ws := b.ws;
    var raw := b.raw;
    var proc := b.proc;
    var profile := b.profile;
    var k := 0;
    while k < NumBins
      invariant 0 <= k <= NumBins
      invariant forall j :: 0 <= j < k ==> BinDone(d, b, learning, hasProfile, bypass, Bins(ws, raw, proc, profile), j)
      invariant forall i :: 2 * k <= i < WorkspaceLen ==> ws[i] == b.ws[i]
      invariant forall j :: k <= j < BinSlots ==> raw[j] == b.raw[j] && proc[j] == b.proc[j] && profile[j] == b.profile[j]
    {
      BinDependsOnItsPair(d, ws, b.ws, k);
      ghost var before := Bins(ws, raw, proc, profile);
      ws, raw, proc, profile := BinStep(d, ws, raw, proc, profile, k, learning, hasProfile, bypass);
      ghost var after := Bins(ws, raw, proc, profile);
      assert BinDone(d, b, learning, hasProfile, bypass, after, k);
      forall j | 0 <= j < k
        ensures BinDone(d, b, learning, hasProfile, bypass, after, j)
      {
        assert BinDone(d, b, learning, hasProfile, bypass, before, j);
        assert after.ws[2 * j] == before.ws[2 * j] && after.ws[2 * j + 1] == before.ws[2 * j + 1];
      }
      k := k + 1;
    }
    r := Bins(ws, raw, proc, profile);
    ProcessBinsUnique(d, b, learning, hasProfile, bypass, r);
    forall k | 0 <= k < NumBins
      ensures var nm := Subtraction.NewMagnitude(Magnitude(d, b.ws, k), b.profile[k], learning, hasProfile, bypass);
              r.ws[2 * k] == ReOf(d, nm, Phase(d, b.ws, k)) && r.ws[2 * k + 1] == ImOf(d, nm, Phase(d, b.ws, k))
    {
      assert BinDone(d, b, learning, hasProfile, bypass, r, k);
    }
  }

  /** Forward half of the frame pipeline: load, window, forward transform. */
  function Analyse(d: Dsp, ws: Workspace, frame: Frame): Workspace
  {
    d.forward(Windowed(d.window, LoadFrame(ws, frame)))
  }

  /** Inverse half: inverse transform, window; the synthesised frame is the first fftSize slots. */
  function Synthesise(d: Dsp, ws: Workspace): (r: Workspace)
  {
    Windowed(d.window, d.inverse(ws))
  }

  /** Two bin arrays that agree on every bin the loops visit (all but the top slot fftSize / 2). */
  predicate SameBelowTop(a: BinArray, b: BinArray)
  {
    forall k :: 0 <= k < NumBins ==> a[k] == b[k]
  }

  /**
   * The per-bin pass never reads the top slot: inputs that differ only there
   * give the same workspace and bin arrays that differ only there.
   */
  lemma ProcessBinsIgnoresTopSlot(d: Dsp, b1: Bins, b2: Bins, learning: bool, hasProfile: bool, bypass: bool)
    requires b1.ws == b2.ws
    requires SameBelowTop(b1.raw, b2.raw) && SameBelowTop(b1.proc, b2.proc) && SameBelowTop(b1.profile, b2.profile)
    ensures var r1 := ProcessBins(d, b1, learning, hasProfile, bypass);
            var r2 := ProcessBins(d, b2, learning, hasProfile, bypass);
            && r1.ws == r2.ws
            && SameBelowTop(r1.raw, r2.raw) && SameBelowTop(r1.proc, r2.proc) && SameBelowTop(r1.profile, r2.profile)
  {
    var mags := Magnitudes(d, b1.ws);
    assert Subtraction.NewMagnitudes(mags, b1.profile, learning, hasProfile, bypass)
        == Subtraction.NewMagnitudes(mags, b2.profile, learning, hasProfile, bypass);
  }

  /**
   * With bypass on and learning off nothing is subtracted, so the profile and
   * the has-profile flag have no influence on the workspace or the scopes,
   * and the profile itself is left as it was.
   */
  lemma BypassIgnoresProfile(d: Dsp, b: Bins, profile2: BinArray, hasProfile1: bool, hasProfile2: bool)
    ensures var r1 := ProcessBins(d, b, false, hasProfile1, true);
            var r2 := ProcessBins(d, b.(profile := profile2), false, hasProfile2, true);
            && r1.ws == r2.ws && r1.raw == r2.raw && r1.proc == r2.proc
            && r1.profile == b.profile && r2.profile == profile2
  {
    var mags := Magnitudes(d, b.ws);
    assert Subtraction.NewMagnitudes(mags, b.profile, false, hasProfile1, true) == mags;
    assert Subtraction.NewMagnitudes(mags, profile2, false, hasProfile2, true) == mags;
  }
}
