/**
 * The min/max downsampler that turns PCM audio into one (min, max) pair per
 * pixel column of the waveform view, in its two forms: over a buffer held in
 * memory, and over a file read sequentially in fixed-size chunks.
 *
 * Both use `samplesPerPixel = max(1, frames / target)`; column `i` covers
 * frames `[i * spp, min((i + 1) * spp, frames))` and takes the extremes over
 * every channel. `Downsample` is that specification; the two methods are
 * proved to compute it, so the streaming form never splits a column at a
 * chunk boundary whatever the chunk size.
 */
module Waveform {
  import opened Wrappers
  import opened Arith

  /** One pixel column of the waveform. */
  datatype WaveformSample = WaveformSample(min: real, max: real)

  /**
   * An in-memory buffer: `frameLength` valid frames, `channelCount` channels,
   * and the per-channel sample data, absent when the buffer's format is not
   * 32-bit float (`floatChannelData == nil`).
   */
  datatype PcmBuffer = PcmBuffer(frameLength: nat, channelCount: nat, floatData: Option<seq<seq<real>>>)

  /** A file opened for streaming reads: its length in frames and its samples. */
  datatype AudioFile = AudioFile(length: nat, channelCount: nat, data: seq<seq<real>>)

  /** Frames per read in the streaming variant. */
  const StreamingBufferFrames: nat := 8192

  /** Every channel holds at least `frames` samples. */
  ghost predicate Holds(data: seq<seq<real>>, frames: nat) {
    forall c :: 0 <= c < |data| ==> frames <= |data[c]|
  }

  /** The channel pointers exist for every channel and cover every valid frame. */
  ghost predicate BufferWellFormed(buf: PcmBuffer) {
    buf.floatData.Some? ==> |buf.floatData.value| == buf.channelCount && Holds(buf.floatData.value, buf.frameLength)
  }

  ghost predicate FileWellFormed(file: AudioFile) {
    |file.data| == file.channelCount && Holds(file.data, file.length)
  }

  /** The file's contents seen as one float buffer. */
  function AsBuffer(file: AudioFile): PcmBuffer {
    PcmBuffer(file.length, file.channelCount, Some(file.data))
  }

  /**
   * The first frame of column `k`, `k * spp`, written as repeated addition
   * so that the column arithmetic stays linear for the solver.
   */
  function ColumnStart(k: nat, spp: nat): nat {
    if k == 0 then 0 else ColumnStart(k - 1, spp) + spp
  }

  lemma {:induction false} ColumnStartIsProduct(k: nat, spp: nat)
    ensures ColumnStart(k, spp) == k * spp
  {
    if k > 0 { ColumnStartIsProduct(k - 1, spp); }
  }

  lemma {:induction false} ColumnStartMonotone(j: nat, k: nat, spp: nat)
    requires j <= k
    ensures ColumnStart(j, spp) <= ColumnStart(k, spp)
    ensures spp >= 1 && j < k ==> ColumnStart(j, spp) < ColumnStart(k, spp)
    decreases k
  {
    if j < k { ColumnStartMonotone(j, k - 1, spp); }
  }

  /**
   * The column of frame `p`, `p / spp`, as repeated subtraction; the
   * streaming loop compares it with the open column on every frame.
   */
  function FrameColumn(p: nat, spp: nat): nat
    requires spp >= 1
    decreases p
  {
    if p < spp then 0 else FrameColumn(p - spp, spp) + 1
  }

  lemma {:induction false} FrameColumnIsQuotient(p: nat, spp: nat)
    requires spp >= 1
    ensures FrameColumn(p, spp) == p / spp
    decreases p
  {
    if p < spp {
      DivUnique(p, spp, 0, p);
    } else {
      FrameColumnIsQuotient(p - spp, spp);
      DivUnique(p, spp, (p - spp) / spp + 1, (p - spp) % spp);
    }
  }

  /** Frame `p` lies in column `k` exactly when it is in `[ColumnStart(k), ColumnStart(k + 1))`. */
  lemma {:induction false} ColumnOf(p: nat, spp: nat, k: nat)
    requires spp >= 1 && ColumnStart(k, spp) <= p < ColumnStart(k + 1, spp)
    ensures FrameColumn(p, spp) == k
    decreases k
  {
    if k > 0 { ColumnOf(p - spp, spp, k - 1); }
  }

  /** `max(1, frames / target)`; `target` columns of that width fit in the frames. */
  function SamplesPerPixel(frames: nat, target: nat): (spp: nat)
    requires target > 0
    ensures spp >= 1
    ensures frames >= target ==> ColumnStart(target, spp) <= frames
    ensures frames < target ==> spp == 1
  {
    var q := FrameColumn(frames, target);
    QuotientColumnsFit(frames, target);
    if q > 1 then q else 1
  }

  /** `target` columns of width `frames / target` fit in the frames. */
  lemma QuotientColumnsFit(frames: nat, target: nat)
    requires target > 0
    ensures ColumnStart(target, FrameColumn(frames, target)) <= frames
    ensures frames < target <==> FrameColumn(frames, target) == 0
  {
    var q := FrameColumn(frames, target);
    FrameColumnIsQuotient(frames, target);
    ColumnStartIsProduct(target, q);
    ColumnStartIsProduct(target, 1);
    assert frames == q * target + frames % target;
  }

  /** The smallest sample of frame `f` over every channel. */
  function FrameMin(data: seq<seq<real>>, f: nat): real
    requires |data| > 0 && Holds(data, f + 1)
    decreases |data|
  {
    if |data| == 1 then data[0][f] else Min(FrameMin(data[..|data| - 1], f), data[|data| - 1][f])
  }

  /** The largest sample of frame `f` over every channel. */
  function FrameMax(data: seq<seq<real>>, f: nat): real
    requires |data| > 0 && Holds(data, f + 1)
    decreases |data|
  {
    if |data| == 1 then data[0][f] else Max(FrameMax(data[..|data| - 1], f), data[|data| - 1][f])
  }

  /** The smallest sample of frames `[lo, hi)` over every channel. */
  function RangeMin(data: seq<seq<real>>, lo: nat, hi: nat): real
    requires |data| > 0 && lo < hi && Holds(data, hi)
    decreases hi - lo
  {
    if hi == lo + 1 then FrameMin(data, lo) else Min(RangeMin(data, lo, hi - 1), FrameMin(data, hi - 1))
  }

  /** The largest sample of frames `[lo, hi)` over every channel. */
  function RangeMax(data: seq<seq<real>>, lo: nat, hi: nat): real
    requires |data| > 0 && lo < hi && Holds(data, hi)
    decreases hi - lo
  {
    if hi == lo + 1 then FrameMax(data, lo) else Max(RangeMax(data, lo, hi - 1), FrameMax(data, hi - 1))
  }

  /** FrameMin is a sample of the frame no larger than any other channel's. */
  lemma {:induction false} FrameMinIsMinimum(data: seq<seq<real>>, f: nat)
    requires |data| > 0 && Holds(data, f + 1)
    ensures forall c :: 0 <= c < |data| ==> FrameMin(data, f) <= data[c][f]
    ensures exists c :: 0 <= c < |data| && FrameMin(data, f) == data[c][f]
    decreases |data|
  {
    if |data| > 1 {
      var init := data[..|data| - 1];
      FrameMinIsMinimum(init, f);
      assert forall c :: 0 <= c < |init| ==> init[c] == data[c];
      var c :| 0 <= c < |init| && FrameMin(init, f) == init[c][f];
      var w := if FrameMin(init, f) <= data[|data| - 1][f] then c else |data| - 1;
      assert FrameMin(data, f) == data[w][f];
    } else {
      assert FrameMin(data, f) == data[0][f];
    }
  }

  /** FrameMax is a sample of the frame no smaller than any other channel's. */
  lemma {:induction false} FrameMaxIsMaximum(data: seq<seq<real>>, f: nat)
    requires |data| > 0 && Holds(data, f + 1)
    ensures forall c :: 0 <= c < |data| ==> data[c][f] <= FrameMax(data, f)
    ensures exists c :: 0 <= c < |data| && FrameMax(data, f) == data[c][f]
    decreases |data|
  {
    if |data| > 1 {
      var init := data[..|data| - 1];
      FrameMaxIsMaximum(init, f);
      assert forall c :: 0 <= c < |init| ==> init[c] == data[c];
      var c :| 0 <= c < |init| && FrameMax(init, f) == init[c][f];
      var w := if FrameMax(init, f) >= data[|data| - 1][f] then c else |data| - 1;
      assert FrameMax(data, f) == data[w][f];
    } else {
      assert FrameMax(data, f) == data[0][f];
    }
  }

  /** RangeMin is a sample of the range no larger than any other. */
  lemma {:induction false} RangeMinIsMinimum(data: seq<seq<real>>, lo: nat, hi: nat)
    requires |data| > 0 && lo < hi && Holds(data, hi)
    ensures forall c, f :: 0 <= c < |data| && lo <= f < hi ==> RangeMin(data, lo, hi) <= data[c][f]
    ensures exists c, f :: 0 <= c < |data| && lo <= f < hi && RangeMin(data, lo, hi) == data[c][f]
    decreases hi - lo
  {
    FrameMinIsMinimum(data, hi - 1);
    var c :| 0 <= c < |data| && FrameMin(data, hi - 1) == data[c][hi - 1];
    if hi > lo + 1 {
      RangeMinIsMinimum(data, lo, hi - 1);
      var c', f' :| 0 <= c' < |data| && lo <= f' < hi - 1 && RangeMin(data, lo, hi - 1) == data[c'][f'];
      if RangeMin(data, lo, hi - 1) <= FrameMin(data, hi - 1) {
        assert RangeMin(data, lo, hi) == data[c'][f'];
      } else {
        assert RangeMin(data, lo, hi) == data[c][hi - 1];
      }
    } else {
      assert RangeMin(data, lo, hi) == data[c][lo];
    }
  }

  /** RangeMax is a sample of the range no smaller than any other. */
  lemma {:induction false} RangeMaxIsMaximum(data: seq<seq<real>>, lo: nat, hi: nat)
    requires |data| > 0 && lo < hi && Holds(data, hi)
    ensures forall c, f :: 0 <= c < |data| && lo <= f < hi ==> data[c][f] <= RangeMax(data, lo, hi)
    ensures exists c, f :: 0 <= c < |data| && lo <= f < hi && RangeMax(data, lo, hi) == data[c][f]
    decreases hi - lo
  {
    FrameMaxIsMaximum(data, hi - 1);
    var c :| 0 <= c < |data| && FrameMax(data, hi - 1) == data[c][hi - 1];
    if hi > lo + 1 {
      RangeMaxIsMaximum(data, lo, hi - 1);
      var c', f' :| 0 <= c' < |data| && lo <= f' < hi - 1 && RangeMax(data, lo, hi - 1) == data[c'][f'];
      if RangeMax(data, lo, hi - 1) >= FrameMax(data, hi - 1) {
        assert RangeMax(data, lo, hi) == data[c'][f'];
      } else {
        assert RangeMax(data, lo, hi) == data[c][hi - 1];
      }
    } else {
      assert RangeMax(data, lo, hi) == data[c][lo];
    }
  }

  /**
   * The number of columns whose first frame exists: the in-memory loop
   * breaks at the first `i` whose column would start at or past the end.
   */
  function BucketCount(frames: nat, target: nat): (n: nat)
    requires target > 0
    ensures n <= target && n <= frames
    ensures forall i :: 0 <= i < n ==> ColumnStart(i, SamplesPerPixel(frames, target)) < frames
    ensures n < target ==> ColumnStart(n, SamplesPerPixel(frames, target)) >= frames
  {
    var n := if frames < target then frames else target;
    BucketCountFacts(frames, target, n);
    n
  }

  lemma BucketCountFacts(frames: nat, target: nat, n: nat)
    requires target > 0 && n == if frames < target then frames else target
    ensures forall i :: 0 <= i < n ==> ColumnStart(i, SamplesPerPixel(frames, target)) < frames
    ensures n < target ==> ColumnStart(n, SamplesPerPixel(frames, target)) >= frames
  {
    var spp := SamplesPerPixel(frames, target);
    forall i | 0 <= i < n ensures ColumnStart(i, spp) < frames {
      if frames >= target {
        ColumnStartMonotone(i, target, spp);
      } else {
        ColumnStartIsProduct(i, spp);
      }
    }
    if n < target { ColumnStartIsProduct(n, spp); }
  }

  /** Column `i`: extremes over frames `[i * spp, min((i + 1) * spp, frames))`. */
  function Bucket(data: seq<seq<real>>, frames: nat, spp: nat, i: nat): WaveformSample
    requires |data| > 0 && Holds(data, frames) && spp >= 1 && ColumnStart(i, spp) < frames
  {
    var lo := ColumnStart(i, spp);
    var hi := if ColumnStart(i + 1, spp) < frames then ColumnStart(i + 1, spp) else frames;
    WaveformSample(RangeMin(data, lo, hi), RangeMax(data, lo, hi))
  }

  /** What `generateWaveformSamples` returns for a buffer and a target column count. */
  function Downsample(buf: PcmBuffer, target: int): (samples: seq<WaveformSample>)
    requires BufferWellFormed(buf)
  {
    if target <= 0 || buf.frameLength == 0 || buf.channelCount == 0 || buf.floatData.None? then []
    else
      var spp := SamplesPerPixel(buf.frameLength, target);
      seq(BucketCount(buf.frameLength, target), i requires 0 <= i < BucketCount(buf.frameLength, target) =>
        Bucket(buf.floatData.value, buf.frameLength, spp, i))
  }

  /** No columns for a non-positive target, an empty buffer, no channels or a non-float format; otherwise `min(target, frames)`. */
  lemma DownsampleLength(buf: PcmBuffer, target: int)
    requires BufferWellFormed(buf)
    ensures |Downsample(buf, target)| ==
      if target <= 0 || buf.frameLength == 0 || buf.channelCount == 0 || buf.floatData.None? then 0
      else if buf.frameLength < target then buf.frameLength else target
  {
  }

  /**
   * Each column's min is a sample of its frame range no larger than any
   * other, its max one no smaller; so `min <= max`, and both stay within
   * [-1, 1] when the input does.
   */
  lemma {:induction false} DownsampleColumns(buf: PcmBuffer, target: int, i: nat)
    requires BufferWellFormed(buf) && i < |Downsample(buf, target)|
    ensures Downsample(buf, target)[i].min <= Downsample(buf, target)[i].max
    ensures (forall c, f :: 0 <= c < buf.channelCount && 0 <= f < buf.frameLength ==>
               -1.0 <= buf.floatData.value[c][f] <= 1.0) ==>
            -1.0 <= Downsample(buf, target)[i].min && Downsample(buf, target)[i].max <= 1.0
  {
    var data, frames := buf.floatData.value, buf.frameLength;
    var spp := SamplesPerPixel(frames, target);
    var lo := ColumnStart(i, spp);
    var hi := if ColumnStart(i + 1, spp) < frames then ColumnStart(i + 1, spp) else frames;
    RangeMinIsMinimum(data, lo, hi);
    RangeMaxIsMaximum(data, lo, hi);
    var c, f :| 0 <= c < |data| && lo <= f < hi && RangeMax(data, lo, hi) == data[c][f];
  }

  /** The two outcomes the waveform tests assert. */
  lemma DownsampleTestCases(mono: seq<real>, stereo: seq<seq<real>>)
    requires |mono| == 1000 && |stereo| == 2
    ensures |Downsample(PcmBuffer(1000, 1, Some([mono])), 100)| == 100
    ensures Downsample(PcmBuffer(0, 2, Some(stereo)), 10) == []
  {
    DownsampleLength(PcmBuffer(1000, 1, Some([mono])), 100);
  }

  /** A sample of the range bounding all others from below (above) is RangeMin (RangeMax). */
  lemma RangeExtremesUnique(data: seq<seq<real>>, lo: nat, hi: nat,
                            m: real, cm: nat, fm: nat, n: real, cn: nat, fn: nat)
    requires |data| > 0 && lo < hi && Holds(data, hi)
    requires forall c, f :: 0 <= c < |data| && lo <= f < hi ==> m <= data[c][f] <= n
    requires cm < |data| && lo <= fm < hi && m == data[cm][fm]
    requires cn < |data| && lo <= fn < hi && n == data[cn][fn]
    ensures m == RangeMin(data, lo, hi) && n == RangeMax(data, lo, hi)
  {
    RangeMinIsMinimum(data, lo, hi);
    RangeMaxIsMaximum(data, lo, hi);
    var c1, f1 :| 0 <= c1 < |data| && lo <= f1 < hi && RangeMin(data, lo, hi) == data[c1][f1];
    var c2, f2 :| 0 <= c2 < |data| && lo <= f2 < hi && RangeMax(data, lo, hi) == data[c2][f2];
  }

  /** `calculateMinMax`: extremes of frames `[startFrame, endFrame)`, channel by channel; `(0, 0)` when there is nothing to read. */
  method CalculateMinMax(data: seq<seq<real>>, startFrame: nat, endFrame: nat) returns (localMin: real, localMax: real)
    requires Holds(data, endFrame)
    ensures |data| > 0 && startFrame < endFrame ==>
      localMin == RangeMin(data, startFrame, endFrame) && localMax == RangeMax(data, startFrame, endFrame)
    ensures |data| == 0 || startFrame >= endFrame ==> localMin == 0.0 && localMax == 0.0
  {
    localMin, localMax := 0.0, 0.0;
    var firstSample := true;
    ghost var minC, minF, maxC, maxF := 0, startFrame, 0, startFrame;
    for channel := 0 to |data|
      invariant firstSample <==> channel == 0 || startFrame >= endFrame
      invariant firstSample ==> localMin == 0.0 && localMax == 0.0
      invariant !firstSample ==> forall c, f :: 0 <= c < channel && startFrame <= f < endFrame ==>
        localMin <= data[c][f] <= localMax
      invariant !firstSample ==> minC < channel && startFrame <= minF < endFrame && localMin == data[minC][minF]
      invariant !firstSample ==> maxC < channel && startFrame <= maxF < endFrame && localMax == data[maxC][maxF]
    {
      if endFrame <= startFrame { continue; }
      var countToRead := endFrame - startFrame;
      for j := 0 to countToRead
        invariant firstSample <==> channel == 0 && j == 0
        invariant firstSample ==> localMin == 0.0 && localMax == 0.0
        invariant !firstSample ==> forall c, f :: 0 <= c < channel && startFrame <= f < endFrame ==>
          localMin <= data[c][f] <= localMax
        invariant !firstSample ==> forall f :: startFrame <= f < startFrame + j ==>
          localMin <= data[channel][f] <= localMax
        invariant !firstSample ==> minC <= channel && startFrame <= minF < endFrame && localMin == data[minC][minF]
        invariant !firstSample ==> maxC <= channel && startFrame <= maxF < endFrame && localMax == data[maxC][maxF]
      {
        var value := data[channel][startFrame + j];
        if firstSample {
          localMin, localMax := value, value;
          minC, minF, maxC, maxF := channel, startFrame + j, channel, startFrame + j;
          firstSample := false;
        } else {
          if value < localMin {
            localMin := value;
            minC, minF := channel, startFrame + j;
          }
          if value > localMax {
            localMax := value;
            maxC, maxF := channel, startFrame + j;
          }
        }
      }
    }
    if |data| > 0 && startFrame < endFrame {
      RangeExtremesUnique(data, startFrame, endFrame, localMin, minC, minF, localMax, maxC, maxF);
    }
  }

  /** `generateWaveformSamples(from: buffer, targetSampleCount:)`. */
  method GenerateWaveformSamples(buf: PcmBuffer, targetSampleCount: int) returns (samples: seq<WaveformSample>)
    requires BufferWellFormed(buf)
    ensures samples == Downsample(buf, targetSampleCount)
  {
    if targetSampleCount <= 0 || buf.frameLength == 0 { return []; }
    var frameLength, channelCount := buf.frameLength, buf.channelCount;
    if channelCount == 0 { return []; }
    if buf.floatData.None? { return []; }
    var data := buf.floatData.value;
    var samplesPerPixel := SamplesPerPixel(frameLength, targetSampleCount);
    ghost var n := BucketCount(frameLength, targetSampleCount);
    samples := [];
    var i := 0;
    while i < targetSampleCount
      invariant 0 <= i <= n
      invariant |samples| == i
      invariant forall k :: 0 <= k < i ==> samples[k] == Bucket(data, frameLength, samplesPerPixel, k)
    {
      var startFrame := i * samplesPerPixel;
      ColumnStartIsProduct(i, samplesPerPixel);
      var endFrame := if startFrame + samplesPerPixel < frameLength then startFrame + samplesPerPixel else frameLength;
      if startFrame >= frameLength { break; }
      var localMin, localMax := CalculateMinMax(data, startFrame, endFrame);
      samples := samples + [WaveformSample(localMin, localMax)];
      i := i + 1;
    }
  }

  /** The first `|samples|` columns of the streamed file, as the in-memory specification defines them. */
  ghost predicate ColumnsDone(file: AudioFile, spp: nat, samples: seq<WaveformSample>)
    requires FileWellFormed(file) && |file.data| > 0 && spp >= 1
  {
    forall k :: 0 <= k < |samples| ==>
      ColumnStart(k, spp) < file.length && samples[k] == Bucket(file.data, file.length, spp, k)
  }

  /**
   * The streaming loop's state after frames `[0, p)`: every finished column
   * is emitted, and the open column `currentPixel` holds the extremes of its
   * frames read so far.
   */
  ghost predicate StreamState(file: AudioFile, spp: nat, target: nat, p: nat, samples: seq<WaveformSample>,
                              currentPixel: nat, isFirst: bool, pixelMin: real, pixelMax: real)
    requires FileWellFormed(file) && |file.data| > 0 && spp >= 1
  {
    p <= file.length && |samples| < target && ColumnsDone(file, spp, samples) &&
    (p == 0 ==> isFirst && currentPixel == 0 && samples == []) &&
    (p > 0 ==> !isFirst && |samples| == currentPixel &&
               ColumnStart(currentPixel, spp) < p <= ColumnStart(currentPixel + 1, spp) &&
               pixelMin == RangeMin(file.data, ColumnStart(currentPixel, spp), p) &&
               pixelMax == RangeMax(file.data, ColumnStart(currentPixel, spp), p))
  }

  /** Whether frame `p` opens a new column: `p / spp` is the open column or the next one. */
  lemma ColumnTest(file: AudioFile, spp: nat, target: nat, p: nat, samples: seq<WaveformSample>,
                   cp: nat, isFirst: bool, pixelMin: real, pixelMax: real)
    requires FileWellFormed(file) && |file.data| > 0 && spp >= 1
    requires StreamState(file, spp, target, p, samples, cp, isFirst, pixelMin, pixelMax)
    ensures FrameColumn(p, spp) == cp <==> p == 0 || p < ColumnStart(cp + 1, spp)
    ensures FrameColumn(p, spp) != cp ==> FrameColumn(p, spp) == cp + 1
  {
    if p == 0 {
    } else if p < ColumnStart(cp + 1, spp) {
      ColumnOf(p, spp, cp);
    } else {
      ColumnOf(p, spp, cp + 1);
    }
  }

  /** The channel loop of the streaming variant: extremes of one frame. */
  method FrameExtremes(data: seq<seq<real>>, frame: nat) returns (frameMin: real, frameMax: real)
    requires |data| > 0 && Holds(data, frame + 1)
    ensures frameMin == FrameMin(data, frame) && frameMax == FrameMax(data, frame)
  {
    frameMin, frameMax := 0.0, 0.0;
    var isFirstChannel := true;
    for channel := 0 to |data|
      invariant isFirstChannel <==> channel == 0
      invariant channel > 0 ==> frameMin == FrameMin(data[..channel], frame) && frameMax == FrameMax(data[..channel], frame)
    {
      var value := data[channel][frame];
      if isFirstChannel {
        frameMin, frameMax := value, value;
        isFirstChannel := false;
      } else {
        frameMin, frameMax := Min(frameMin, value), Max(frameMax, value);
      }
      assert data[..channel + 1][..channel] == data[..channel];
    }
    assert data[..|data|] == data;
  }

  /** Reading frame `p` inside the open column extends that column's extremes. */
  lemma StepSameColumn(file: AudioFile, spp: nat, target: nat, p: nat, samples: seq<WaveformSample>,
                       cp: nat, isFirst: bool, pixelMin: real, pixelMax: real)
    requires FileWellFormed(file) && |file.data| > 0 && spp >= 1
    requires StreamState(file, spp, target, p, samples, cp, isFirst, pixelMin, pixelMax)
    requires p < file.length && (p == 0 || p < ColumnStart(cp + 1, spp))
    ensures StreamState(file, spp, target, p + 1, samples, cp, false,
                        if isFirst then FrameMin(file.data, p) else Min(pixelMin, FrameMin(file.data, p)),
                        if isFirst then FrameMax(file.data, p) else Max(pixelMax, FrameMax(file.data, p)))
  {
  }

  /**
   * Reading the first frame of the next column emits the open one, which is
   * then exactly the specified column; once `target` columns are out the
   * result is complete, otherwise the new column opens with this frame.
   */
  lemma StepNewColumn(file: AudioFile, spp: nat, target: nat, p: nat, samples: seq<WaveformSample>,
                      cp: nat, isFirst: bool, pixelMin: real, pixelMax: real)
    requires FileWellFormed(file) && |file.data| > 0 && file.length > 0 && target > 0
    requires spp == SamplesPerPixel(file.length, target)
    requires StreamState(file, spp, target, p, samples, cp, isFirst, pixelMin, pixelMax)
    requires p < file.length && p > 0 && p == ColumnStart(cp + 1, spp)
    ensures !isFirst
    ensures |samples| + 1 < target ==>
      StreamState(file, spp, target, p + 1, samples + [WaveformSample(pixelMin, pixelMax)], cp + 1, false,
                  FrameMin(file.data, p), FrameMax(file.data, p))
    ensures |samples| + 1 >= target ==>
      samples + [WaveformSample(pixelMin, pixelMax)] == Downsample(AsBuffer(file), target)
  {
    var out := samples + [WaveformSample(pixelMin, pixelMax)];
    EmitColumn(file, spp, target, p, samples, cp, isFirst, pixelMin, pixelMax);
    if |samples| + 1 >= target {
      StreamingMatches(file, target, spp, out);
    }
  }

  /** At the end of the file the open column is the last specified one. */
  lemma StreamEnd(file: AudioFile, spp: nat, target: nat, samples: seq<WaveformSample>,
                  cp: nat, isFirst: bool, pixelMin: real, pixelMax: real)
    requires FileWellFormed(file) && |file.data| > 0 && file.length > 0 && target > 0
    requires spp == SamplesPerPixel(file.length, target)
    requires StreamState(file, spp, target, file.length, samples, cp, isFirst, pixelMin, pixelMax)
    ensures !isFirst && |samples| < target
    ensures samples + [WaveformSample(pixelMin, pixelMax)] == Downsample(AsBuffer(file), target)
  {
    var out := samples + [WaveformSample(pixelMin, pixelMax)];
    EmitColumn(file, spp, target, file.length, samples, cp, isFirst, pixelMin, pixelMax);
    StreamingMatches(file, target, spp, out);
  }

  /** Once the open column's last frame is read, its extremes are the specified column. */
  lemma EmitColumn(file: AudioFile, spp: nat, target: nat, p: nat, samples: seq<WaveformSample>,
                   cp: nat, isFirst: bool, pixelMin: real, pixelMax: real)
    requires FileWellFormed(file) && |file.data| > 0 && spp >= 1
    requires StreamState(file, spp, target, p, samples, cp, isFirst, pixelMin, pixelMax)
    requires p > 0 && (p == file.length || p == ColumnStart(cp + 1, spp))
    ensures !isFirst && |samples| == cp
    ensures ColumnsDone(file, spp, samples + [WaveformSample(pixelMin, pixelMax)])
  {
    var out := samples + [WaveformSample(pixelMin, pixelMax)];
    assert out[cp] == Bucket(file.data, file.length, spp, cp);
    forall k | 0 <= k < |out|
      ensures ColumnStart(k, spp) < file.length && out[k] == Bucket(file.data, file.length, spp, k)
    {
      if k < cp { assert out[k] == samples[k]; }
    }
  }

  /**
   * `generateWaveformSamples(from: audioFile, targetSampleCount:)`: reads
   * the file `bufferFrames` frames at a time (StreamingBufferFrames when
   * called from GenerateWaveformSamplesFromFile; each read returns the
   * frames that remain, up to that many) and keeps the open column's
   * extremes across reads. It returns exactly the
   * in-memory result, whatever the chunk size.
   */
  method GenerateWaveformSamplesStreaming(file: AudioFile, targetSampleCount: int, bufferFrames: nat)
    returns (samples: seq<WaveformSample>)
    requires FileWellFormed(file) && bufferFrames > 0
    ensures samples == Downsample(AsBuffer(file), targetSampleCount)
  {
    if targetSampleCount <= 0 || file.length == 0 { return []; }
    var fileLength, channelCount := file.length, file.channelCount;
    if channelCount == 0 { return []; }
    var target: nat := targetSampleCount;
    var samplesPerPixel := SamplesPerPixel(fileLength, target);
    samples := [];
    var currentPixel: nat := 0;
    var pixelMin, pixelMax := 0.0, 0.0;
    var isFirstSampleInPixel := true;
    var framePosition: nat := 0;
    while framePosition < fileLength
      invariant StreamState(file, samplesPerPixel, target, framePosition, samples,
                            currentPixel, isFirstSampleInPixel, pixelMin, pixelMax)
    {
      var framesRead := if bufferFrames < fileLength - framePosition then bufferFrames else fileLength - framePosition;
      var done;
      samples, currentPixel, isFirstSampleInPixel, pixelMin, pixelMax, done :=
        ConsumeChunk(file, samplesPerPixel, target, framePosition, framesRead,
                     samples, currentPixel, isFirstSampleInPixel, pixelMin, pixelMax);
      if done { return; }
      framePosition := framePosition + framesRead;
    }
    StreamEnd(file, samplesPerPixel, target, samples, currentPixel, isFirstSampleInPixel, pixelMin, pixelMax);
    if !isFirstSampleInPixel && |samples| < target {
      samples := samples + [WaveformSample(pixelMin, pixelMax)];
    }
  }

  /** The streaming entry point as the source calls it: reads of StreamingBufferFrames frames. */
  method GenerateWaveformSamplesFromFile(file: AudioFile, targetSampleCount: int) returns (samples: seq<WaveformSample>)
    requires FileWellFormed(file)
    ensures samples == Downsample(AsBuffer(file), targetSampleCount)
  {
    samples := GenerateWaveformSamplesStreaming(file, targetSampleCount, StreamingBufferFrames);
  }

  /**
   * The streaming variant's `for frame in 0..<framesRead` loop over the
   * frames `[start, start + framesRead)` of one read: it leaves the stream
   * state at `start + framesRead`, or stops (`done`) once `target` columns
   * are out, and then they are the whole result.
   */
  method ConsumeChunk(file: AudioFile, spp: nat, target: nat, start: nat, framesRead: nat,
                      samples0: seq<WaveformSample>, currentPixel0: nat, isFirst0: bool, pixelMin0: real, pixelMax0: real)
    returns (samples: seq<WaveformSample>, currentPixel: nat, isFirstSampleInPixel: bool, pixelMin: real, pixelMax: real, done: bool)
    requires FileWellFormed(file) && |file.data| > 0 && file.length > 0 && target > 0
    requires spp == SamplesPerPixel(file.length, target)
    requires start + framesRead <= file.length
    requires StreamState(file, spp, target, start, samples0, currentPixel0, isFirst0, pixelMin0, pixelMax0)
    ensures done ==> samples == Downsample(AsBuffer(file), target)
    ensures !done ==>
      StreamState(file, spp, target, start + framesRead, samples, currentPixel, isFirstSampleInPixel, pixelMin, pixelMax)
  {
    samples, currentPixel, isFirstSampleInPixel, pixelMin, pixelMax := samples0, currentPixel0, isFirst0, pixelMin0, pixelMax0;
    done := false;
    var frame := 0;
    while frame < framesRead
      invariant 0 <= frame <= framesRead
      invariant StreamState(file, spp, target, start + frame, samples, currentPixel, isFirstSampleInPixel, pixelMin, pixelMax)
    {
      samples, currentPixel, isFirstSampleInPixel, pixelMin, pixelMax, done :=
        ConsumeFrame(file, spp, target, start + frame, samples, currentPixel, isFirstSampleInPixel, pixelMin, pixelMax);
      if done { return; }
      frame := frame + 1;
    }
  }

  /**
   * The body of the streaming variant's frame loop for frame
   * `fileFramePosition`: when the frame opens a new column the open one is
   * emitted, and once `target` columns are out the loops stop (`done`) with
   * the whole result; otherwise the frame's extremes join the open column.
   */
  method ConsumeFrame(file: AudioFile, spp: nat, target: nat, fileFramePosition: nat,
                      samples0: seq<WaveformSample>, currentPixel0: nat, isFirst0: bool, pixelMin0: real, pixelMax0: real)
    returns (samples: seq<WaveformSample>, currentPixel: nat, isFirstSampleInPixel: bool, pixelMin: real, pixelMax: real, done: bool)
    requires FileWellFormed(file) && |file.data| > 0 && file.length > 0 && target > 0
    requires spp == SamplesPerPixel(file.length, target)
    requires fileFramePosition < file.length
    requires StreamState(file, spp, target, fileFramePosition, samples0, currentPixel0, isFirst0, pixelMin0, pixelMax0)
    ensures done ==> samples == Downsample(AsBuffer(file), target)
    ensures !done ==>
      StreamState(file, spp, target, fileFramePosition + 1, samples, currentPixel, isFirstSampleInPixel, pixelMin, pixelMax)
  {
    samples, currentPixel, isFirstSampleInPixel, pixelMin, pixelMax := samples0, currentPixel0, isFirst0, pixelMin0, pixelMax0;
    done := false;
    ColumnTest(file, spp, target, fileFramePosition, samples,
               currentPixel, isFirstSampleInPixel, pixelMin, pixelMax);
    if FrameColumn(fileFramePosition, spp) != currentPixel {
      StepNewColumn(file, spp, target, fileFramePosition, samples,
                    currentPixel, isFirstSampleInPixel, pixelMin, pixelMax);
      if !isFirstSampleInPixel {
        samples := samples + [WaveformSample(pixelMin, pixelMax)];
      }
      if |samples| >= target { return samples, currentPixel, isFirstSampleInPixel, pixelMin, pixelMax, true; }
      currentPixel := FrameColumn(fileFramePosition, spp);
      isFirstSampleInPixel := true;
    } else {
      StepSameColumn(file, spp, target, fileFramePosition, samples,
                     currentPixel, isFirstSampleInPixel, pixelMin, pixelMax);
    }
    var frameMin, frameMax := FrameExtremes(file.data, fileFramePosition);
    if isFirstSampleInPixel {
      pixelMin, pixelMax := frameMin, frameMax;
      isFirstSampleInPixel := false;
    } else {
      pixelMin, pixelMax := Min(pixelMin, frameMin), Max(pixelMax, frameMax);
    }
  }

  /** A finished stream holds exactly the specified columns. */
  lemma StreamingMatches(file: AudioFile, target: nat, spp: nat, samples: seq<WaveformSample>)
    requires FileWellFormed(file) && |file.data| > 0 && file.length > 0 && target > 0
    requires spp == SamplesPerPixel(file.length, target)
    requires ColumnsDone(file, spp, samples)
    requires |samples| == target || ColumnStart(|samples|, spp) >= file.length
    requires |samples| <= target
    ensures samples == Downsample(AsBuffer(file), target)
  {
    var spec := Downsample(AsBuffer(file), target);
    assert |spec| == |samples|;
  }
}
