/**
 * Feature extraction for segment classification: the window schedule of
 * `extractFeatures`, its zero-crossing rate, and the band-energy and
 * spectral-centroid bookkeeping of `calculateSpectralFeatures`.
 *
 * The signal processing itself (Hann window, FFT, squared magnitudes, RMS)
 * is not modelled: the RMS of a window and its magnitude spectrum are given
 * to the extractor as functions.
 */
module FeatureExtraction {
  import opened Wrappers
  import opened Arith

  /** One analysis window: its start time and the measures taken over it. */
  datatype AudioFeaturePoint = AudioFeaturePoint(
    time: real,
    rms: real,
    lowFrequencyEnergy: real,
    highFrequencyEnergy: real,
    spectralCentroid: real,
    zeroCrossingRate: real)

  // ---------------------------------------------------------------------
  // Zero-crossing rate
  // ---------------------------------------------------------------------

  /** Adjacent samples in different sign classes (`x < 0` against `x >= 0`). */
  predicate Crosses(a: real, b: real) {
    (a < 0.0 && b >= 0.0) || (a >= 0.0 && b < 0.0)
  }

  /** The number of crossing pairs `(x[j], x[j + 1])` with `j < k`. */
  function CrossingCount(x: seq<real>, k: nat): (n: nat)
    requires k < |x| || k == 0
    ensures n <= k
  {
    if k == 0 then 0
    else CrossingCount(x, k - 1) + if Crosses(x[k - 1], x[k]) then 1 else 0
  }

  /** The zero-crossing rate: crossings over all adjacent pairs, divided by the window size. */
  function ZeroCrossingRate(x: seq<real>): real
    requires |x| > 0
  {
    (CrossingCount(x, |x| - 1) as real) / (|x| as real)
  }

  /**
   * There are `|x| - 1` pairs but the count is divided by `|x|`, so the rate
   * is in `[0, 1)`; it is 0 exactly when no pair crosses.
   */
  lemma ZeroCrossingRateBounds(x: seq<real>)
    requires |x| > 0
    ensures 0.0 <= ZeroCrossingRate(x) < 1.0
    ensures ZeroCrossingRate(x) == 0.0 <==> forall j :: 0 <= j < |x| - 1 ==> !Crosses(x[j], x[j + 1])
  {
    var n := CrossingCount(x, |x| - 1);
    var w := |x| as real;
    assert (n as real) < w;
    DivBelowOne(n as real, w);
    NoCrossings(x, |x| - 1);
  }

  lemma DivBelowOne(a: real, w: real)
    requires 0.0 <= a < w
    ensures 0.0 <= a / w < 1.0
    ensures a / w == 0.0 <==> a == 0.0
  {
    assert a / w * w == a;
    if a / w >= 1.0 {
      MulMonotone(1.0, a / w, w);
    }
  }

  /** No crossing among the first `k` pairs exactly when the count is 0. */
  lemma {:induction false} NoCrossings(x: seq<real>, k: nat)
    requires k < |x|
    ensures CrossingCount(x, k) == 0 <==> forall j :: 0 <= j < k ==> !Crosses(x[j], x[j + 1])
  {
    if k > 0 { NoCrossings(x, k - 1); }
  }

  /** The zero-crossing loop of `extractFeatures` over one window. */
  method ZeroCrossings(x: seq<real>) returns (zcr: real)
    requires |x| > 0
    ensures zcr == ZeroCrossingRate(x)
  {
    var count := 0;
    for j := 0 to |x| - 1
      invariant count == CrossingCount(x, j)
    {
      if (x[j] < 0.0 && x[j + 1] >= 0.0) || (x[j] >= 0.0 && x[j + 1] < 0.0) {
        count := count + 1;
      }
    }
    zcr := (count as real) / (|x| as real);
  }

  // ---------------------------------------------------------------------
  // Spectral centroid and band energies
  // ---------------------------------------------------------------------

  function Sum(s: seq<real>): real {
    if |s| == 0 then 0.0 else Sum(s[..|s| - 1]) + s[|s| - 1]
  }

  /** `Σ (bin * binFreq) * mag[bin]` over the first `k` bins. */
  function WeightedSum(mags: seq<real>, binFreq: real, k: nat): real
    requires k <= |mags|
  {
    if k == 0 then 0.0 else WeightedSum(mags, binFreq, k - 1) + ((k - 1) as real * binFreq) * mags[k - 1]
  }

  /** The result of `calculateSpectralFeatures`. */
  datatype SpectralFeatures = SpectralFeatures(spectralCentroid: real, lowEnergy: real, highEnergy: real)

  /** Frequency width of one bin. */
  function BinFrequency(sampleRate: real, windowSize: nat): real
    requires windowSize > 0
  {
    sampleRate / (windowSize as real)
  }

  /** `Int(hz / binFreq)`: truncation, which is the floor for these positive operands. */
  function BinOf(hz: real, binFreq: real): int
    requires binFreq > 0.0
  {
    (hz / binFreq).Floor
  }

  /**
   * What `calculateSpectralFeatures` returns: the magnitude-weighted mean
   * bin frequency, 0 when the magnitudes sum to 0 or less; the sum of bins
   * `[Int(300 / binFreq), Int(4000 / binFreq))` and of bins from
   * `Int(4000 / binFreq)` to the end, both 0 unless the 4 kHz bin lies
   * inside the spectrum.
   */
  function Spectral(mags: seq<real>, sampleRate: real, windowSize: nat): SpectralFeatures
    requires windowSize > 0 && sampleRate > 0.0 && |mags| == windowSize / 2
  {
    var binFreq := BinFrequency(sampleRate, windowSize);
    var den := Sum(mags);
    var centroid := if den > 0.0 then WeightedSum(mags, binFreq, |mags|) / den else 0.0;
    var lowBin, highBin := BinOf(300.0, binFreq), BinOf(4000.0, binFreq);
    if highBin < |mags| then
      SpectralFeatures(centroid, Sum(mags[lowBin..highBin]), Sum(mags[highBin..]))
    else
      SpectralFeatures(centroid, 0.0, 0.0)
  }

  lemma BinsOrdered(binFreq: real)
    requires binFreq > 0.0
    ensures 0 <= BinOf(300.0, binFreq) <= BinOf(4000.0, binFreq)
  {
    assert 300.0 / binFreq <= 4000.0 / binFreq;
  }

  /** `calculateSpectralFeatures(magnitudes:sampleRate:windowSize:)`. */
  method CalculateSpectralFeatures(mags: seq<real>, sampleRate: real, windowSize: nat) returns (r: SpectralFeatures)
    requires windowSize > 0 && sampleRate > 0.0 && |mags| == windowSize / 2
    ensures r == Spectral(mags, sampleRate, windowSize)
  {
    var binFreq := sampleRate / (windowSize as real);
    var centroidNumerator, centroidDenominator := 0.0, 0.0;
    for bin := 0 to windowSize / 2
      invariant centroidNumerator == WeightedSum(mags, binFreq, bin)
      invariant centroidDenominator == Sum(mags[..bin])
    {
      var freq := (bin as real) * binFreq;
      var mag := mags[bin];
      centroidNumerator := centroidNumerator + freq * mag;
      centroidDenominator := centroidDenominator + mag;
      assert mags[..bin + 1][..bin] == mags[..bin];
    }
    assert mags[..|mags|] == mags;
    var spectralCentroid := if centroidDenominator > 0.0 then centroidNumerator / centroidDenominator else 0.0;
    var speechLowBin := (300.0 / binFreq).Floor;
    var speechHighBin := (4000.0 / binFreq).Floor;
    var lowEnergy, highEnergy := 0.0, 0.0;
    if speechHighBin < |mags| {
      BinsOrdered(binFreq);
      lowEnergy := Sum(mags[speechLowBin..speechHighBin]);
      highEnergy := Sum(mags[speechHighBin..]);
    }
    r := SpectralFeatures(spectralCentroid, lowEnergy, highEnergy);
  }

  lemma {:induction false} SumNonNegative(s: seq<real>)
    requires forall i :: 0 <= i < |s| ==> s[i] >= 0.0
    ensures Sum(s) >= 0.0
  {
    if |s| > 0 {
      assert forall i :: 0 <= i < |s| - 1 ==> s[..|s| - 1][i] == s[i];
      SumNonNegative(s[..|s| - 1]);
    }
  }

  lemma {:induction false} SumSplit(s: seq<real>, k: nat)
    requires k <= |s|
    ensures Sum(s) == Sum(s[..k]) + Sum(s[k..])
    decreases |s|
  {
    if k < |s| {
      var init := s[..|s| - 1];
      SumSplit(init, k);
      assert init[..k] == s[..k];
      assert init[k..] == s[k..|s| - 1];
      assert s[k..][..|s[k..]| - 1] == s[k..|s| - 1];
    } else {
      assert s[..k] == s;
    }
  }

  /** With non-negative magnitudes the weighted sum is at most the top bin's frequency times the plain sum. */
  lemma {:induction false} WeightedSumBounds(mags: seq<real>, binFreq: real, k: nat)
    requires 0 < k <= |mags| && binFreq >= 0.0
    requires forall i :: 0 <= i < |mags| ==> mags[i] >= 0.0
    ensures 0.0 <= WeightedSum(mags, binFreq, k) <= ((k - 1) as real * binFreq) * Sum(mags[..k])
  {
    var top := (k - 1) as real * binFreq;
    var m := mags[k - 1];
    assert mags[..k][..k - 1] == mags[..k - 1];
    assert Sum(mags[..k]) == Sum(mags[..k - 1]) + m;
    assert 0.0 <= top * m by { MulNonNegative(top, m); }
    if k > 1 {
      WeightedSumBounds(mags, binFreq, k - 1);
      var below := (k - 2) as real * binFreq;
      var s := Sum(mags[..k - 1]);
      SumNonNegative(mags[..k - 1]);
      assert below * s <= top * s by { MulMonotone(below, top, s); }
      assert top * (s + m) == top * s + top * m;
    }
  }

  /**
   * For a non-negative spectrum the centroid is a frequency inside it: at
   * least 0 and at most the top bin's frequency `(n - 1) * binFreq`.
   */
  lemma CentroidWithinSpectrum(mags: seq<real>, sampleRate: real, windowSize: nat)
    requires windowSize > 0 && sampleRate > 0.0 && |mags| == windowSize / 2
    requires forall i :: 0 <= i < |mags| ==> mags[i] >= 0.0
    ensures 0.0 <= Spectral(mags, sampleRate, windowSize).spectralCentroid
    ensures |mags| > 0 ==>
      Spectral(mags, sampleRate, windowSize).spectralCentroid <= (|mags| - 1) as real * BinFrequency(sampleRate, windowSize)
  {
    var binFreq := BinFrequency(sampleRate, windowSize);
    var den := Sum(mags);
    assert mags[..|mags|] == mags;
    if |mags| > 0 && den > 0.0 {
      WeightedSumBounds(mags, binFreq, |mags|);
      DivAtMost(WeightedSum(mags, binFreq, |mags|), (|mags| - 1) as real * binFreq, den);
    }
  }

  /**
   * When the 4 kHz bin lies inside the spectrum the two energies split the
   * spectrum from the 300 Hz bin upwards, and are non-negative for a
   * non-negative spectrum; otherwise both are 0.
   */
  lemma BandEnergies(mags: seq<real>, sampleRate: real, windowSize: nat)
    requires windowSize > 0 && sampleRate > 0.0 && |mags| == windowSize / 2
    ensures var r := Spectral(mags, sampleRate, windowSize);
      var lowBin, highBin := BinOf(300.0, BinFrequency(sampleRate, windowSize)), BinOf(4000.0, BinFrequency(sampleRate, windowSize));
      if highBin < |mags| then
        0 <= lowBin && r.lowEnergy + r.highEnergy == Sum(mags[lowBin..]) &&
        ((forall i :: 0 <= i < |mags| ==> mags[i] >= 0.0) ==> 0.0 <= r.lowEnergy && 0.0 <= r.highEnergy)
      else r.lowEnergy == 0.0 && r.highEnergy == 0.0
  {
    var binFreq := BinFrequency(sampleRate, windowSize);
    var lowBin, highBin := BinOf(300.0, binFreq), BinOf(4000.0, binFreq);
    BinsOrdered(binFreq);
    if highBin < |mags| {
      var tail := mags[lowBin..];
      SumSplit(tail, highBin - lowBin);
      assert tail[..highBin - lowBin] == mags[lowBin..highBin];
      assert tail[highBin - lowBin..] == mags[highBin..];
      if forall i :: 0 <= i < |mags| ==> mags[i] >= 0.0 {
        SumNonNegative(mags[lowBin..highBin]);
        SumNonNegative(mags[highBin..]);
      }
    }
  }

  // ---------------------------------------------------------------------
  // Window schedule
  // ---------------------------------------------------------------------

  /**
   * The analysis parameters: window and hop in frames, the file's sample
   * rate, and the measures the model does not compute — the RMS of a window
   * and its magnitude spectrum of `windowSize / 2` bins.
   */
  datatype Analysis = Analysis(
    windowSize: nat,
    hopSize: nat,
    sampleRate: real,
    rms: seq<real> -> real,
    magnitudes: seq<real> -> seq<real>)

  ghost predicate ValidAnalysis(a: Analysis) {
    a.windowSize >= 1 && a.hopSize >= 1 && a.sampleRate > 0.0 &&
    forall w :: |a.magnitudes(w)| == a.windowSize / 2
  }

  /** The feature point of the window starting at frame `start`. */
  function PointAt(a: Analysis, samples: seq<real>, start: nat): AudioFeaturePoint
    requires ValidAnalysis(a) && start + a.windowSize <= |samples|
  {
    var w := samples[start..start + a.windowSize];
    var s := Spectral(a.magnitudes(w), a.sampleRate, a.windowSize);
    AudioFeaturePoint((start as real) / a.sampleRate, a.rms(w), s.lowEnergy, s.highEnergy,
                      s.spectralCentroid, ZeroCrossingRate(w))
  }

  /**
   * The window starts `start`, `start + hop`, ... while a whole window can
   * still be read from `length` frames; the first short read ends the scan.
   */
  function WindowStarts(length: nat, windowSize: nat, hopSize: nat, start: nat): seq<nat>
    requires hopSize >= 1
    decreases length - start
  {
    if start >= length || start + windowSize > length then []
    else [start] + WindowStarts(length, windowSize, hopSize, start + hopSize)
  }

  /** Every scheduled window lies wholly inside the file. */
  lemma {:induction false} WindowsInside(length: nat, windowSize: nat, hopSize: nat, start: nat)
    requires hopSize >= 1
    ensures forall i :: 0 <= i < |WindowStarts(length, windowSize, hopSize, start)| ==>
      WindowStarts(length, windowSize, hopSize, start)[i] + windowSize <= length
    decreases length - start
  {
    if start < length && start + windowSize <= length {
      WindowsInside(length, windowSize, hopSize, start + hopSize);
    }
  }

  /** The feature points of the given window starts. */
  function Points(a: Analysis, samples: seq<real>, starts: seq<nat>): (points: seq<AudioFeaturePoint>)
    requires ValidAnalysis(a) && forall i :: 0 <= i < |starts| ==> starts[i] + a.windowSize <= |samples|
    ensures |points| == |starts|
  {
    if |starts| == 0 then []
    else Points(a, samples, starts[..|starts| - 1]) + [PointAt(a, samples, starts[|starts| - 1])]
  }

  /**
   * What `extractFeatures` returns for a file whose first channel holds
   * `channel0`: nothing for an empty file or one whose format has no float
   * data (every window is skipped), otherwise one point per window start.
   */
  function Features(a: Analysis, length: nat, channel0: Option<seq<real>>): seq<AudioFeaturePoint>
    requires ValidAnalysis(a) && (channel0.Some? ==> |channel0.value| == length)
  {
    if length == 0 || channel0.None? then []
    else
      WindowsInside(length, a.windowSize, a.hopSize, 0);
      Points(a, channel0.value, WindowStarts(length, a.windowSize, a.hopSize, 0))
  }

  /** The measures `extractFeatures` takes over the window starting at `startFrame`. */
  method AnalyzeWindow(a: Analysis, samples: seq<real>, startFrame: nat) returns (point: AudioFeaturePoint)
    requires ValidAnalysis(a) && startFrame + a.windowSize <= |samples|
    ensures point == PointAt(a, samples, startFrame)
  {
    var window := samples[startFrame..startFrame + a.windowSize];
    var rms := a.rms(window);
    var zcr := ZeroCrossings(window);
    var spectral := CalculateSpectralFeatures(a.magnitudes(window), a.sampleRate, a.windowSize);
    var time := (startFrame as real) / a.sampleRate;
    point := AudioFeaturePoint(time, rms, spectral.lowEnergy, spectral.highEnergy, spectral.spectralCentroid, zcr);
  }

  /** `extractFeatures(from:windowSize:hopSize:)`, reading the file window by window. */
  method ExtractFeatures(a: Analysis, length: nat, channel0: Option<seq<real>>) returns (features: seq<AudioFeaturePoint>)
    requires ValidAnalysis(a) && (channel0.Some? ==> |channel0.value| == length)
    ensures features == Features(a, length, channel0)
  {
    if length == 0 { return []; }
    features := [];
    var startFrame := 0;
    ghost var done: seq<nat> := [];
    while startFrame < length
      invariant done + WindowStarts(length, a.windowSize, a.hopSize, startFrame) == WindowStarts(length, a.windowSize, a.hopSize, 0)
      invariant forall i :: 0 <= i < |done| ==> done[i] + a.windowSize <= length
      invariant channel0.Some? ==> features == Points(a, channel0.value, done)
      invariant channel0.None? ==> features == []
      decreases length - startFrame
    {
      var frameLength := if a.windowSize < length - startFrame then a.windowSize else length - startFrame;
      if frameLength < a.windowSize { break; }
      ghost var rest := WindowStarts(length, a.windowSize, a.hopSize, startFrame + a.hopSize);
      assert WindowStarts(length, a.windowSize, a.hopSize, startFrame) == [startFrame] + rest;
      assert (done + [startFrame]) + rest == done + ([startFrame] + rest);
      done := done + [startFrame];
      if channel0.None? {
        startFrame := startFrame + a.hopSize;
        continue;
      }
      PointsSnoc(a, channel0.value, done[..|done| - 1], startFrame);
      var point := AnalyzeWindow(a, channel0.value, startFrame);
      features := features + [point];
      startFrame := startFrame + a.hopSize;
    }
    assert WindowStarts(length, a.windowSize, a.hopSize, startFrame) == [];
    assert done + [] == done;
    assert done == WindowStarts(length, a.windowSize, a.hopSize, 0);
  }

  lemma {:induction false} PointsElement(a: Analysis, samples: seq<real>, starts: seq<nat>, i: nat)
    requires ValidAnalysis(a) && forall i :: 0 <= i < |starts| ==> starts[i] + a.windowSize <= |samples|
    requires i < |starts|
    ensures Points(a, samples, starts)[i] == PointAt(a, samples, starts[i])
  {
    if i < |starts| - 1 {
      PointsElement(a, samples, starts[..|starts| - 1], i);
    }
  }

  lemma PointsSnoc(a: Analysis, samples: seq<real>, starts: seq<nat>, s: nat)
    requires ValidAnalysis(a) && forall i :: 0 <= i < |starts| ==> starts[i] + a.windowSize <= |samples|
    requires s + a.windowSize <= |samples|
    ensures Points(a, samples, starts + [s]) == Points(a, samples, starts) + [PointAt(a, samples, s)]
  {
    assert (starts + [s])[..|starts|] == starts;
  }

  /** The number of whole windows from `start`: `(length - window - start) / hop + 1`, or none. */
  lemma {:induction false} WindowCount(length: nat, windowSize: nat, hopSize: nat, start: nat)
    requires windowSize >= 1 && hopSize >= 1
    ensures |WindowStarts(length, windowSize, hopSize, start)| ==
      if start + windowSize > length then 0 else (length - windowSize - start) / hopSize + 1
    decreases length - start
  {
    if start + windowSize <= length {
      var rest := length - windowSize - start;
      WindowCount(length, windowSize, hopSize, start + hopSize);
      if rest < hopSize {
        DivUnique(rest, hopSize, 0, rest);
      } else {
        DivUnique(rest, hopSize, (rest - hopSize) / hopSize + 1, (rest - hopSize) % hopSize);
      }
    }
  }

  /**
   * `extractFeatures` yields one point per whole window: none for an empty
   * file, a non-float format or a file shorter than one window, otherwise
   * `(length - windowSize) / hopSize + 1`.
   */
  lemma FeatureCount(a: Analysis, length: nat, channel0: Option<seq<real>>)
    requires ValidAnalysis(a) && (channel0.Some? ==> |channel0.value| == length)
    ensures |Features(a, length, channel0)| ==
      if length == 0 || channel0.None? || a.windowSize > length then 0
      else (length - a.windowSize) / a.hopSize + 1
  {
    WindowCount(length, a.windowSize, a.hopSize, 0);
  }

  /** Window `k` starts at frame `start + k * hop`. */
  lemma {:induction false} WindowStartAt(length: nat, windowSize: nat, hopSize: nat, start: nat, k: nat)
    requires hopSize >= 1 && k < |WindowStarts(length, windowSize, hopSize, start)|
    ensures WindowStarts(length, windowSize, hopSize, start)[k] == start + k * hopSize
    decreases k
  {
    if k > 0 {
      WindowStartAt(length, windowSize, hopSize, start + hopSize, k - 1);
      assert start + hopSize + (k - 1) * hopSize == start + k * hopSize;
    }
  }

  /** Point `k` is taken over the window starting at frame `k * hop`, wholly inside the file, at time `k * hop / sampleRate`. */
  lemma FeatureTime(a: Analysis, length: nat, channel0: Option<seq<real>>, k: nat)
    requires ValidAnalysis(a) && (channel0.Some? ==> |channel0.value| == length)
    requires k < |Features(a, length, channel0)|
    ensures k * a.hopSize + a.windowSize <= length
    ensures Features(a, length, channel0)[k].time == ((k * a.hopSize) as real) / a.sampleRate
  {
    var starts := WindowStarts(length, a.windowSize, a.hopSize, 0);
    WindowsInside(length, a.windowSize, a.hopSize, 0);
    PointsElement(a, channel0.value, starts, k);
    WindowStartAt(length, a.windowSize, a.hopSize, 0, k);
  }

  /** The windows start at `0, hop, 2 * hop, ...`, so the point times strictly increase. */
  lemma FeatureTimesIncrease(a: Analysis, length: nat, channel0: Option<seq<real>>, j: nat, k: nat)
    requires ValidAnalysis(a) && (channel0.Some? ==> |channel0.value| == length)
    requires j < k < |Features(a, length, channel0)|
    ensures Features(a, length, channel0)[j].time < Features(a, length, channel0)[k].time
  {
    FeatureTime(a, length, channel0, j);
    FeatureTime(a, length, channel0, k);
    MulLe(j + 1, k, a.hopSize);
    TimeIncreases(j * a.hopSize, k * a.hopSize, a.sampleRate);
  }

  lemma TimeIncreases(s: nat, t: nat, rate: real)
    requires s < t && rate > 0.0
    ensures (s as real) / rate < (t as real) / rate
  {
    assert (t as real) / rate - (s as real) / rate == ((t - s) as real) / rate;
  }
}
