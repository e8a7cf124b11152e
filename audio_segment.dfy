/**
 * The segment record of the rehearsal timeline and its three-valued type.
 *
 * `AudioSegment` carries the seven fields the editing code reads and writes
 * (identity, start, end, type, label, transcription, export exclusion); the
 * Swift `init` gives `label`, `transcription` and `isExcludedFromExport`
 * default values, and so do the constructor's formals here. Identities are
 * naturals handed out by the caller (see ViewModel.MainViewModel.idSupply),
 * standing in for `UUID()`.
 */
module AudioSegmentModel {
  import opened Wrappers

  /** Opaque segment identity. */
  type Id = nat

  /** The closed set of segment kinds. */
  datatype SegmentType = Performance | Conversation | Silence

  /** The persisted spelling of each case (its Swift raw value). */
  function RawValue(t: SegmentType): (s: string)
    ensures |s| > 0
  {
    match t
    case Performance => "performance"
    case Conversation => "conversation"
    case Silence => "silence"
  }

  /** Decoding a persisted spelling, as `SegmentType(rawValue:)` does. */
  function FromRawValue(s: string): (r: Option<SegmentType>)
  {
    if s == "performance" then Some(Performance)
    else if s == "conversation" then Some(Conversation)
    else if s == "silence" then Some(Silence)
    else None
  }

  /** Every case survives encoding and decoding. */
  lemma RawValueRoundTrip(t: SegmentType)
    ensures FromRawValue(RawValue(t)) == Some(t)
  {
  }

  /** Decoding accepts exactly the three raw values, and nothing else. */
  lemma FromRawValueExact(s: string)
    ensures FromRawValue(s).Some? <==> s in {"performance", "conversation", "silence"}
    ensures FromRawValue(s).Some? ==> RawValue(FromRawValue(s).value) == s
  {
  }

  /** The three spellings are pairwise distinct, so encoding is injective. */
  lemma RawValueInjective(a: SegmentType, b: SegmentType)
    ensures RawValue(a) == RawValue(b) ==> a == b
  {
    if RawValue(a) == RawValue(b) {
      RawValueRoundTrip(a);
      RawValueRoundTrip(b);
    }
  }

  /**
   * One timeline segment. `kind` is Swift's `type` and `labelText` its `label`
   * (both names are reserved words here). `startTime`, `endTime` and `kind`
   * are immutable in the source; editing always builds a replacement value.
   */
  datatype AudioSegment = AudioSegment(
    id: Id,
    startTime: real,
    endTime: real,
    kind: SegmentType,
    labelText: Option<string> := None,
    transcription: Option<string> := None,
    isExcludedFromExport: bool := false)
  {
    /** Length of the segment in seconds. */
    function Duration(): real {
      endTime - startTime
    }
  }

  /** A segment's duration measures exactly the span from start to end. */
  lemma DurationSpan(s: AudioSegment)
    ensures s.startTime + s.Duration() == s.endTime
    ensures s.Duration() >= 0.0 <==> s.startTime <= s.endTime
  {
  }

  /** The initialiser keeps a supplied id and leaves the optional fields empty. */
  lemma InitDefaults(id: Id, start: real, end: real, t: SegmentType)
    ensures AudioSegment(id, start, end, t).id == id
    ensures AudioSegment(id, start, end, t).labelText == None
    ensures AudioSegment(id, start, end, t).transcription == None
    ensures !AudioSegment(id, start, end, t).isExcludedFromExport
  {
  }

  /** The duration figures asserted by the segment tests. */
  lemma DurationExamples()
    ensures AudioSegment(0, 0.0, 10.0, Performance).Duration() == 10.0
    ensures AudioSegment(0, 5.5, 12.3, Silence).Duration() == 6.8
  {
  }

  /**
   * An id-less span produced by the analysis pipeline; the source builds
   * these with `AudioSegment(startTime:endTime:type:)`, i.e. with a fresh id
   * and the defaults for every other field (see Stamp).
   */
  datatype Run = Run(startTime: real, endTime: real, kind: SegmentType)
  {
    /**
     * The smoother reads `duration` on the spans it is still building, before
     * they have ids; this is AudioSegment.Duration for the segment a run
     * becomes, kept here so the analysis never has to invent an id.
     */
    function Duration(): real {
      endTime - startTime
    }
  }

  /**
   * Runs turned into segments with the initialiser's defaults and fresh ids
   * `base, base + 1, ...` in list order.
   */
  function Stamp(runs: seq<Run>, base: Id): (segs: seq<AudioSegment>)
    ensures |segs| == |runs|
    ensures forall i :: 0 <= i < |runs| ==>
      segs[i] == AudioSegment(base + i, runs[i].startTime, runs[i].endTime, runs[i].kind)
  {
    seq(|runs|, i requires 0 <= i < |runs| =>
      AudioSegment(base + i, runs[i].startTime, runs[i].endTime, runs[i].kind))
  }

  /** Segment boundaries line up: each segment starts where the previous one ends. */
  ghost predicate Contiguous(segs: seq<AudioSegment>) {
    forall i :: 0 <= i < |segs| - 1 ==> segs[i].endTime == segs[i + 1].startTime
  }

  /** The same, for analyzer runs. */
  ghost predicate ContiguousRuns(runs: seq<Run>) {
    forall i :: 0 <= i < |runs| - 1 ==> runs[i].endTime == runs[i + 1].startTime
  }

  /** Ids are pairwise distinct. */
  ghost predicate DistinctIds(segs: seq<AudioSegment>) {
    forall i, j :: 0 <= i < j < |segs| ==> segs[i].id != segs[j].id
  }

  /** Stamping keeps the runs' boundaries and hands out distinct ids. */
  lemma StampPreserves(runs: seq<Run>, base: Id)
    ensures ContiguousRuns(runs) ==> Contiguous(Stamp(runs, base))
    ensures DistinctIds(Stamp(runs, base))
    ensures forall i :: 0 <= i < |runs| ==> base <= Stamp(runs, base)[i].id < base + |runs|
  {
  }
}
