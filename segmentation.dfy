/**
 * `calculateSegments`: the rule-based classifier that labels each feature
 * point Silence, Performance or Conversation, the run-length scan that turns
 * the labelled points into raw segments, and the smoother that absorbs
 * segments shorter than three seconds.
 *
 * The analyzer's segments are modelled as id-less `Run`s; the source gives
 * each one a fresh `UUID()`, which the model hands out when the view model
 * publishes the result (AudioSegmentModel.Stamp).
 */
module Segmentation {
  import opened AudioSegmentModel
  import opened FeatureExtraction
  import opened Arith

  /** About -62 dB. */
  const SilenceThreshold: real := 0.0008
  /** About -36 dB. */
  const PerformanceThreshold: real := 0.015
  /** Segments shorter than this are absorbed by a neighbour. */
  const MinDuration: real := 3.0

  // ---------------------------------------------------------------------
  // Classifier
  // ---------------------------------------------------------------------

  /**
   * `low / (low + high + 0.000001) > 0.6`. When the denominator is exactly
   * zero the floating-point quotient is an infinity of the numerator's sign
   * (or NaN for 0 / 0), so the comparison holds exactly when `low > 0`.
   */
  predicate SpeechRatioAbove(low: real, high: real) {
    var den := low + high + 0.000001;
    if den == 0.0 then low > 0.0 else low / den > 0.6
  }

  /** The label of one feature point, the rules tried in the source's order. */
  function Classify(p: AudioFeaturePoint): SegmentType {
    if p.rms < SilenceThreshold then Silence
    else if p.rms > PerformanceThreshold then Performance
    else if SpeechRatioAbove(p.lowFrequencyEnergy, p.highFrequencyEnergy) && p.spectralCentroid < 3500.0 then Conversation
    else if p.spectralCentroid > 4500.0 || p.zeroCrossingRate > 0.25 then Performance
    else Conversation
  }

  /**
   * What the decision list amounts to: Silence exactly for quiet points,
   * loud points are Performance, Conversation only at middle volume with a
   * centroid of at most 4500 Hz; at middle volume a bright point (centroid
   * above 4500 Hz) is always Performance and a dark, smooth one (centroid
   * below 3500 Hz, ZCR at most 0.25) always Conversation.
   */
  lemma ClassifyBands(p: AudioFeaturePoint)
    ensures Classify(p) == Silence <==> p.rms < SilenceThreshold
    ensures p.rms > PerformanceThreshold ==> Classify(p) == Performance
    ensures Classify(p) == Conversation ==>
      SilenceThreshold <= p.rms <= PerformanceThreshold && p.spectralCentroid <= 4500.0
    ensures SilenceThreshold <= p.rms <= PerformanceThreshold && p.spectralCentroid > 4500.0 ==>
      Classify(p) == Performance
    ensures (SilenceThreshold <= p.rms <= PerformanceThreshold && p.spectralCentroid < 3500.0 &&
             p.zeroCrossingRate <= 0.25) ==> Classify(p) == Conversation
  {
  }

  /** For non-negative energies the denominator is positive and the ratio is the plain quotient. */
  lemma SpeechRatioOfEnergies(low: real, high: real)
    requires low >= 0.0 && high >= 0.0
    ensures SpeechRatioAbove(low, high) <==> low > 0.6 * (low + high + 0.000001)
  {
    var den := low + high + 0.000001;
    assert den > 0.0;
    var q := low / den;
    assert q * den == low;
    if q > 0.6 {
      if low <= 0.6 * den {
        DivAtMost(low, 0.6, den);
        assert false;
      }
    } else {
      MulMonotone(q, 0.6, den);
      assert low <= 0.6 * den;
    }
  }

  // ---------------------------------------------------------------------
  // Raw runs
  // ---------------------------------------------------------------------

  /**
   * The scan over `features[i..]` with the open run of type `current`
   * starting at `start`: a change of label closes the open run at the
   * changing point's time, dropping it if it would have no length, and the
   * last open run is closed at the last point's time.
   */
  function ScanRuns(features: seq<AudioFeaturePoint>, i: nat, current: SegmentType, start: real, runs: seq<Run>): seq<Run>
    requires 0 < |features| && i <= |features|
    decreases |features| - i
  {
    if i == |features| then runs + [Run(start, features[|features| - 1].time, current)]
    else
      var t := Classify(features[i]);
      if t != current then
        var end := features[i].time;
        ScanRuns(features, i + 1, t, end, if end > start then runs + [Run(start, end, current)] else runs)
      else ScanRuns(features, i + 1, current, start, runs)
  }

  /** The raw segments of `calculateSegments`, before smoothing; the first open run is Silence. */
  function RawRuns(features: seq<AudioFeaturePoint>): seq<Run> {
    if |features| == 0 then [] else ScanRuns(features, 0, Silence, features[0].time, [])
  }

  ghost predicate NonDecreasingTimes(features: seq<AudioFeaturePoint>) {
    forall i :: 0 <= i < |features| - 1 ==> features[i].time <= features[i + 1].time
  }

  ghost predicate IncreasingTimes(features: seq<AudioFeaturePoint>) {
    forall i :: 0 <= i < |features| - 1 ==> features[i].time < features[i + 1].time
  }

  ghost predicate AdjacentKindsDiffer(runs: seq<Run>) {
    forall i :: 0 <= i < |runs| - 1 ==> runs[i].kind != runs[i + 1].kind
  }

  /**
   * What the scan keeps true of the runs closed so far, for time-ordered
   * points: they are contiguous, each has positive length, they start at
   * the first point's time and end where the open run starts, which is no
   * later than the last point scanned; for strictly increasing times the
   * closed runs and the open one alternate in type.
   */
  ghost predicate ScanInv(features: seq<AudioFeaturePoint>, i: nat, current: SegmentType, start: real, runs: seq<Run>)
    requires 0 < |features| && i <= |features|
  {
    ContiguousRuns(runs) &&
    (forall j :: 0 <= j < |runs| ==> runs[j].startTime < runs[j].endTime) &&
    (i == 0 ==> runs == [] && start == features[0].time) &&
    (i > 0 ==> start <= features[i - 1].time) &&
    (|runs| == 0 ==> start == features[0].time) &&
    (|runs| > 0 ==> runs[0].startTime == features[0].time && runs[|runs| - 1].endTime == start) &&
    (IncreasingTimes(features) ==> AdjacentKindsDiffer(runs) && (|runs| > 0 ==> runs[|runs| - 1].kind != current))
  }

  /** The facts about the scan's result that RawRunsCoverage publishes. */
  ghost predicate ScanResult(features: seq<AudioFeaturePoint>, r: seq<Run>)
    requires 0 < |features|
  {
    |r| >= 1 && ContiguousRuns(r) &&
    r[0].startTime == features[0].time && r[|r| - 1].endTime == features[|features| - 1].time &&
    (forall j :: 0 <= j < |r| - 1 ==> r[j].startTime < r[j].endTime) &&
    r[|r| - 1].Duration() >= 0.0 &&
    (IncreasingTimes(features) ==> AdjacentKindsDiffer(r))
  }

  /** One step of the scan keeps ScanInv. */
  lemma ScanStep(features: seq<AudioFeaturePoint>, i: nat, current: SegmentType, start: real, runs: seq<Run>)
    requires 0 < |features| && i < |features| && NonDecreasingTimes(features)
    requires ScanInv(features, i, current, start, runs)
    ensures var t := Classify(features[i]); var end := features[i].time;
      t != current ==> ScanInv(features, i + 1, t, end, if end > start then runs + [Run(start, end, current)] else runs)
    ensures Classify(features[i]) == current ==> ScanInv(features, i + 1, current, start, runs)
  {
    var t := Classify(features[i]);
    var end := features[i].time;
    if i > 0 {
      assert features[i - 1].time <= features[i].time;
      if IncreasingTimes(features) {
        assert features[i - 1].time < features[i].time;
      }
    }
    if t != current && end > start {
      var runs' := runs + [Run(start, end, current)];
      assert runs'[|runs'| - 1] == Run(start, end, current);
      assert forall j :: 0 <= j < |runs| ==> runs'[j] == runs[j];
      assert runs'[0].startTime == features[0].time;
    }
  }

  /** Closing the last open run turns ScanInv into ScanResult. */
  lemma ScanEnd(features: seq<AudioFeaturePoint>, current: SegmentType, start: real, runs: seq<Run>)
    requires 0 < |features| && NonDecreasingTimes(features)
    requires ScanInv(features, |features|, current, start, runs)
    ensures ScanResult(features, runs + [Run(start, features[|features| - 1].time, current)])
  {
    var r := runs + [Run(start, features[|features| - 1].time, current)];
    assert r[|r| - 1] == Run(start, features[|features| - 1].time, current);
    assert forall j :: 0 <= j < |runs| ==> r[j] == runs[j];
  }

  lemma {:induction false} ScanRunsShape(features: seq<AudioFeaturePoint>, i: nat, current: SegmentType, start: real, runs: seq<Run>)
    requires 0 < |features| && i <= |features| && NonDecreasingTimes(features)
    requires ScanInv(features, i, current, start, runs)
    ensures ScanResult(features, ScanRuns(features, i, current, start, runs))
    decreases |features| - i
  {
    if i < |features| {
      ScanStep(features, i, current, start, runs);
      var t := Classify(features[i]);
      var end := features[i].time;
      if t != current {
        ScanRunsShape(features, i + 1, t, end, if end > start then runs + [Run(start, end, current)] else runs);
      } else {
        ScanRunsShape(features, i + 1, current, start, runs);
      }
    } else {
      ScanEnd(features, current, start, runs);
    }
  }

  /**
   * Raw runs of time-ordered points cover the points' time span without
   * gaps: nothing for no points; otherwise the first run starts at the
   * first point's time, the last ends at the last point's time, each run
   * starts where the previous one ends, every run but the last has positive
   * length and the last a non-negative one; for strictly increasing times
   * neighbouring runs have different types (a run only closes when the
   * label changes).
   */
  lemma RawRunsCoverage(features: seq<AudioFeaturePoint>)
    requires NonDecreasingTimes(features)
    ensures |features| == 0 ==> RawRuns(features) == []
    ensures |features| > 0 ==>
      var r := RawRuns(features);
      |r| >= 1 && ContiguousRuns(r) &&
      r[0].startTime == features[0].time && r[|r| - 1].endTime == features[|features| - 1].time &&
      (forall j :: 0 <= j < |r| - 1 ==> r[j].startTime < r[j].endTime)
    ensures forall j :: 0 <= j < |RawRuns(features)| ==> RawRuns(features)[j].Duration() >= 0.0
    ensures IncreasingTimes(features) ==> AdjacentKindsDiffer(RawRuns(features))
  {
    if |features| > 0 {
      ScanRunsShape(features, 0, Silence, features[0].time, []);
    }
  }

  /** A single point gives one zero-length run with that point's label. */
  lemma RawRunsSinglePoint(p: AudioFeaturePoint)
    ensures RawRuns([p]) == [Run(p.time, p.time, Classify(p))]
  {
    assert ScanRuns([p], 1, Classify(p), p.time, []) == [Run(p.time, p.time, Classify(p))];
  }

  // ---------------------------------------------------------------------
  // Smoother
  // ---------------------------------------------------------------------

  /**
   * The smoother over `segs[i..]` with the segment under construction
   * `current`: a short `next` is absorbed keeping `current`'s type; a short
   * `current` is absorbed into `next`, taking its type but keeping its own
   * start; two long neighbours of one type are joined; otherwise `current`
   * is emitted and `next` becomes current.
   */
  function SmoothFrom(segs: seq<Run>, i: nat, current: Run, smoothed: seq<Run>): seq<Run>
    requires 1 <= i <= |segs|
    decreases |segs| - i
  {
    if i == |segs| then smoothed + [current]
    else
      var next := segs[i];
      if next.Duration() < MinDuration then
        SmoothFrom(segs, i + 1, Run(current.startTime, next.endTime, current.kind), smoothed)
      else if current.Duration() < MinDuration then
        SmoothFrom(segs, i + 1, Run(current.startTime, next.endTime, next.kind), smoothed)
      else if current.kind == next.kind then
        SmoothFrom(segs, i + 1, Run(current.startTime, next.endTime, current.kind), smoothed)
      else
        SmoothFrom(segs, i + 1, next, smoothed + [current])
  }

  /** `smoothSegments`: lists of at most one segment are returned as they are. */
  function Smooth(segs: seq<Run>): seq<Run> {
    if |segs| <= 1 then segs else SmoothFrom(segs, 1, segs[0], [])
  }

  /**
   * What the smoother keeps true: the emitted segments are contiguous, start
   * at the input's first start and end where `current` starts; `current`
   * ends where the input segment last consumed ends.
   */
  ghost predicate SmoothInv(segs: seq<Run>, i: nat, current: Run, smoothed: seq<Run>)
    requires 1 <= i <= |segs|
  {
    ContiguousRuns(smoothed) && |smoothed| < i &&
    current.endTime == segs[i - 1].endTime &&
    (|smoothed| == 0 ==> current.startTime == segs[0].startTime) &&
    (|smoothed| > 0 ==> smoothed[0].startTime == segs[0].startTime &&
                        smoothed[|smoothed| - 1].endTime == current.startTime)
  }

  /** Appending a segment that starts where the last one ends keeps a list contiguous. */
  lemma AppendContiguous(runs: seq<Run>, x: Run)
    requires ContiguousRuns(runs) && (|runs| > 0 ==> runs[|runs| - 1].endTime == x.startTime)
    ensures ContiguousRuns(runs + [x]) && (runs + [x])[|runs|] == x
    ensures |runs| > 0 ==> (runs + [x])[0] == runs[0]
  {
    var r := runs + [x];
    assert forall j :: 0 <= j < |runs| ==> r[j] == runs[j];
  }

  lemma {:induction false} SmoothFromShape(segs: seq<Run>, i: nat, current: Run, smoothed: seq<Run>)
    requires 1 <= i <= |segs| && ContiguousRuns(segs)
    requires SmoothInv(segs, i, current, smoothed)
    ensures var r := SmoothFrom(segs, i, current, smoothed);
      1 <= |r| <= |segs| && ContiguousRuns(r) &&
      r[0].startTime == segs[0].startTime && r[|r| - 1].endTime == segs[|segs| - 1].endTime
    decreases |segs| - i
  {
    if i < |segs| {
      var next := segs[i];
      assert next.startTime == current.endTime;
      if next.Duration() < MinDuration {
        SmoothFromShape(segs, i + 1, Run(current.startTime, next.endTime, current.kind), smoothed);
      } else if current.Duration() < MinDuration {
        SmoothFromShape(segs, i + 1, Run(current.startTime, next.endTime, next.kind), smoothed);
      } else if current.kind == next.kind {
        SmoothFromShape(segs, i + 1, Run(current.startTime, next.endTime, current.kind), smoothed);
      } else {
        AppendContiguous(smoothed, current);
        SmoothFromShape(segs, i + 1, next, smoothed + [current]);
      }
    } else {
      AppendContiguous(smoothed, current);
    }
  }

  /**
   * Smoothing a contiguous list keeps it contiguous with the same first
   * start and last end, and never lengthens it; at most one segment is left
   * as it is.
   */
  lemma SmoothCoverage(segs: seq<Run>)
    requires ContiguousRuns(segs)
    ensures |segs| <= 1 ==> Smooth(segs) == segs
    ensures |segs| >= 1 ==>
      var r := Smooth(segs);
      1 <= |r| <= |segs| && ContiguousRuns(r) &&
      r[0].startTime == segs[0].startTime && r[|r| - 1].endTime == segs[|segs| - 1].endTime
  {
    if |segs| > 1 {
      SmoothFromShape(segs, 1, segs[0], []);
    }
  }

  /** Every segment lasts at least MinDuration and neighbours differ in type. */
  ghost predicate Separated(runs: seq<Run>) {
    (forall j :: 0 <= j < |runs| ==> runs[j].Duration() >= MinDuration) && AdjacentKindsDiffer(runs)
  }

  lemma {:induction false} SmoothFromSeparated(segs: seq<Run>, i: nat, current: Run, smoothed: seq<Run>)
    requires 1 <= i <= |segs| && ContiguousRuns(segs)
    requires forall j :: 0 <= j < |segs| ==> segs[j].Duration() >= 0.0
    requires current.endTime == segs[i - 1].endTime
    requires Separated(smoothed)
    requires |smoothed| > 0 ==> current.Duration() >= MinDuration && smoothed[|smoothed| - 1].kind != current.kind
    ensures var r := SmoothFrom(segs, i, current, smoothed);
      |r| >= 2 ==> Separated(r)
    decreases |segs| - i
  {
    if i < |segs| {
      var next := segs[i];
      assert next.startTime == current.endTime;
      if next.Duration() < MinDuration {
        SmoothFromSeparated(segs, i + 1, Run(current.startTime, next.endTime, current.kind), smoothed);
      } else if current.Duration() < MinDuration {
        SmoothFromSeparated(segs, i + 1, Run(current.startTime, next.endTime, next.kind), smoothed);
      } else if current.kind == next.kind {
        SmoothFromSeparated(segs, i + 1, Run(current.startTime, next.endTime, current.kind), smoothed);
      } else {
        SmoothFromSeparated(segs, i + 1, next, smoothed + [current]);
      }
    }
  }

  /**
   * When smoothing a contiguous list of non-negative segments leaves two or
   * more, each lasts at least three seconds and neighbours differ in type.
   */
  lemma SmoothSeparates(segs: seq<Run>)
    requires ContiguousRuns(segs) && forall j :: 0 <= j < |segs| ==> segs[j].Duration() >= 0.0
    ensures |Smooth(segs)| >= 2 ==> Separated(Smooth(segs))
  {
    if |segs| > 1 {
      SmoothFromSeparated(segs, 1, segs[0], []);
    }
  }

  lemma {:induction false} SmoothFromKeeps(segs: seq<Run>, i: nat)
    requires 1 <= i <= |segs| && Separated(segs)
    ensures SmoothFrom(segs, i, segs[i - 1], segs[..i - 1]) == segs
    decreases |segs| - i
  {
    if i < |segs| {
      assert segs[..i - 1] + [segs[i - 1]] == segs[..i];
      SmoothFromKeeps(segs, i + 1);
    } else {
      assert segs[..i - 1] + [segs[i - 1]] == segs;
    }
  }

  /** A separated list is left exactly as it is. */
  lemma SmoothSeparatedFixed(segs: seq<Run>)
    requires Separated(segs)
    ensures Smooth(segs) == segs
  {
    if |segs| > 1 {
      SmoothFromKeeps(segs, 1);
    }
  }

  /** Smoothing twice is smoothing once, for contiguous lists of non-negative segments. */
  lemma SmoothIdempotent(segs: seq<Run>)
    requires ContiguousRuns(segs) && forall j :: 0 <= j < |segs| ==> segs[j].Duration() >= 0.0
    ensures Smooth(Smooth(segs)) == Smooth(segs)
  {
    SmoothSeparates(segs);
    if |Smooth(segs)| >= 2 {
      SmoothSeparatedFixed(Smooth(segs));
    }
  }

  // ---------------------------------------------------------------------
  // calculateSegments
  // ---------------------------------------------------------------------

  /** What `calculateSegments(from:)` returns. */
  function Segments(features: seq<AudioFeaturePoint>): seq<Run> {
    Smooth(RawRuns(features))
  }

  /** `smoothSegments(_:)`. */
  method SmoothSegments(segments: seq<Run>) returns (smoothed: seq<Run>)
    ensures smoothed == Smooth(segments)
  {
    if |segments| <= 1 { return segments; }
    smoothed := [];
    var current := segments[0];
    for i := 1 to |segments|
      invariant SmoothFrom(segments, i, current, smoothed) == Smooth(segments)
    {
      var next := segments[i];
      if next.Duration() < MinDuration {
        current := Run(current.startTime, next.endTime, current.kind);
      } else if current.Duration() < MinDuration {
        current := Run(current.startTime, next.endTime, next.kind);
      } else if current.kind == next.kind {
        current := Run(current.startTime, next.endTime, current.kind);
      } else {
        smoothed := smoothed + [current];
        current := next;
      }
    }
    smoothed := smoothed + [current];
  }

  /** `calculateSegments(from:)`: the labelling scan, then the smoother. */
  method CalculateSegments(features: seq<AudioFeaturePoint>) returns (segments: seq<Run>)
    ensures segments == Segments(features)
  {
    if |features| == 0 { return []; }
    var rawSegments: seq<Run> := [];
    var currentType := Silence;
    var startTime := features[0].time;
    for i := 0 to |features|
      invariant ScanRuns(features, i, currentType, startTime, rawSegments) == RawRuns(features)
    {
      var feature := features[i];
      var kind := Classify(feature);
      if kind != currentType {
        var endTime := feature.time;
        if endTime > startTime {
          rawSegments := rawSegments + [Run(startTime, endTime, currentType)];
        }
        currentType := kind;
        startTime := endTime;
      }
    }
    rawSegments := rawSegments + [Run(startTime, features[|features| - 1].time, currentType)];
    segments := SmoothSegments(rawSegments);
  }

  /**
   * The published segments for time-ordered points: nothing for no points;
   * otherwise a contiguous list from the first point's time to the last one's,
   * no longer than the raw runs, which is separated when it has two or more
   * segments and which smoothing leaves as it is.
   */
  lemma SegmentsMeaning(features: seq<AudioFeaturePoint>)
    requires NonDecreasingTimes(features)
    ensures |features| == 0 ==> Segments(features) == []
    ensures |features| > 0 ==>
      var s := Segments(features);
      1 <= |s| <= |RawRuns(features)| && ContiguousRuns(s) &&
      s[0].startTime == features[0].time && s[|s| - 1].endTime == features[|features| - 1].time
    ensures |Segments(features)| >= 2 ==> Separated(Segments(features))
    ensures Smooth(Segments(features)) == Segments(features)
  {
    RawRunsCoverage(features);
    var raw := RawRuns(features);
    if |features| > 0 {
      SmoothCoverage(raw);
    }
    SmoothSeparates(raw);
    SmoothIdempotent(raw);
  }

  // ---------------------------------------------------------------------
  // The analyzer test scenario
  // ---------------------------------------------------------------------

  /** Labels of `features[i..k]` all equal to the open run's type leave the scan state unchanged. */
  lemma {:induction false} ScanSkip(features: seq<AudioFeaturePoint>, i: nat, k: nat, current: SegmentType, start: real, runs: seq<Run>)
    requires 0 < |features| && i <= k <= |features|
    requires forall j :: i <= j < k ==> Classify(features[j]) == current
    ensures ScanRuns(features, i, current, start, runs) == ScanRuns(features, k, current, start, runs)
    decreases k - i
  {
    if i < k {
      ScanSkip(features, i + 1, k, current, start, runs);
    }
  }

  function Point(time: real, rms: real, low: real, high: real, centroid: real, zcr: real): AudioFeaturePoint {
    AudioFeaturePoint(time, rms, low, high, centroid, zcr)
  }

  /** The fifteen points of the analyzer's segmentation test: quiet, then loud and bright, then at rms 0.02. */
  function ScenarioFeatures(): seq<AudioFeaturePoint> {
    [Point(0.0, 0.0001, 0.0, 0.0, 0.0, 0.0), Point(1.0, 0.0001, 0.0, 0.0, 0.0, 0.0),
     Point(2.0, 0.0001, 0.0, 0.0, 0.0, 0.0), Point(3.0, 0.0001, 0.0, 0.0, 0.0, 0.0),
     Point(4.0, 0.0001, 0.0, 0.0, 0.0, 0.0),
     Point(4.1, 0.1, 1.0, 10.0, 6000.0, 0.4), Point(5.0, 0.1, 1.0, 10.0, 6000.0, 0.4),
     Point(6.0, 0.1, 1.0, 10.0, 6000.0, 0.4), Point(7.0, 0.1, 1.0, 10.0, 6000.0, 0.4),
     Point(8.0, 0.1, 1.0, 10.0, 6000.0, 0.4),
     Point(8.1, 0.02, 10.0, 1.0, 1500.0, 0.1), Point(9.0, 0.02, 10.0, 1.0, 1500.0, 0.1),
     Point(10.0, 0.02, 10.0, 1.0, 1500.0, 0.1), Point(11.0, 0.02, 10.0, 1.0, 1500.0, 0.1),
     Point(12.0, 0.02, 10.0, 1.0, 1500.0, 0.1)]
  }

  /**
   * The "conversation" points have rms 0.02, above the performance
   * threshold, so they are Performance too: the result is exactly Silence
   * over [0, 4.1] and Performance over [4.1, 12].
   */
  lemma ScenarioSegments()
    ensures Segments(ScenarioFeatures()) == [Run(0.0, 4.1, Silence), Run(4.1, 12.0, Performance)]
  {
    var f := ScenarioFeatures();
    assert forall j :: 0 <= j < 5 ==> Classify(f[j]) == Silence;
    assert forall j :: 5 <= j < 15 ==> Classify(f[j]) == Performance;
    ScanSkip(f, 0, 5, Silence, 0.0, []);
    ScanSkip(f, 6, 15, Performance, 4.1, [Run(0.0, 4.1, Silence)]);
    var raw := [Run(0.0, 4.1, Silence), Run(4.1, 12.0, Performance)];
    assert RawRuns(f) == raw;
  }
}
