/**
 * The state-changing side of `MainViewModel`: the segment list and its
 * in-place edits, the selection and loop range it pushes to the player,
 * the zoom level, the transcription flows and the publishing of an
 * analysis. Every method is proved to leave the list equal to the matching
 * function of SegmentEditing, TranscriptionText or Segmentation, and to
 * keep `Valid()`: the zoom level within its bounds, identities distinct and
 * below the id counter, and the player's loop settings in step with the
 * selection (the Combine subscriptions re-run `updateLoopRange` after every
 * change of the segments, the selection or the looping switch; here the
 * methods call it at the end).
 */
module ViewModel {
  import opened Wrappers
  import opened Arith
  import opened AudioSegmentModel
  import opened SegmentEditing
  import opened TranscriptionText
  import opened AudioPlayback
  import Waveform
  import FeatureExtraction
  import Segmentation

  /** The loaded recording as far as the view model reads it. */
  datatype AudioInfo = AudioInfo(fileName: string, duration: real)

  /** What one transcription request returned. */
  datatype Outcome = Transcript(text: string) | Failed(description: string)

  const MinZoom: real := 1.0
  const MaxZoom: real := 50.0
  const ZoomFactor: real := 1.5
  /** The waveform column count the loader asks for. */
  const WaveformColumns: int := 1000

  const TranscriptionFailedPrefix: string := "文字起こしに失敗しました: "
  const NothingToExportMessage: string := "文字起こし済みのセグメントがありません。"

  // ---------------------------------------------------------------------
  // Lookup
  // ---------------------------------------------------------------------

  /** `firstIndex(where:)`, as the linear search it is. */
  method FirstIndexOf(segs: seq<AudioSegment>, p: AudioSegment -> bool) returns (r: Option<nat>)
    ensures r == FirstIndex(segs, p)
    ensures r.Some? ==> r.value < |segs| && p(segs[r.value])
  {
    var i := 0;
    while i < |segs|
      invariant 0 <= i <= |segs|
      invariant forall j :: 0 <= j < i ==> !p(segs[j])
    {
      if p(segs[i]) {
        FirstIndexAt(segs, p, i);
        return Some(i);
      }
      i := i + 1;
    }
    FirstIndexSpec(segs, p);
    return None;
  }

  // ---------------------------------------------------------------------
  // Loop range and zoom
  // ---------------------------------------------------------------------

  /** What `updateLoopRange` hands the player: the selected segment's span while looping, else nothing. */
  function LoopRangeFor(segs: seq<AudioSegment>, selected: Option<Id>, enabled: bool): (r: Option<LoopRange>)
    ensures Forward(segs) && r.Some? ==> r.value.lower <= r.value.upper
  {
    if !enabled || selected.None? then None
    else match IndexOf(segs, selected.value)
      case None => None
      case Some(i) => if i < |segs| then Some(LoopRange(segs[i].startTime, segs[i].endTime)) else None
  }

  /**
   * There is a loop range exactly when looping is on and the selected id is
   * in the list; it is then the span of the first segment with that id.
   */
  lemma LoopRangeForSpec(segs: seq<AudioSegment>, selected: Option<Id>, enabled: bool)
    ensures LoopRangeFor(segs, selected, enabled).None? <==>
      !enabled || selected.None? || forall j :: 0 <= j < |segs| ==> segs[j].id != selected.value
    ensures enabled && selected.Some? ==>
      forall i :: 0 <= i < |segs| && segs[i].id == selected.value && (forall j :: 0 <= j < i ==> segs[j].id != selected.value) ==>
        LoopRangeFor(segs, selected, enabled) == Some(LoopRange(segs[i].startTime, segs[i].endTime))
  {
    if selected.Some? {
      IndexOfSpec(segs, selected.value);
      forall i | 0 <= i < |segs| && segs[i].id == selected.value && (forall j :: 0 <= j < i ==> segs[j].id != selected.value)
        ensures IndexOf(segs, selected.value) == Some(i)
      {
        FirstIndexAt(segs, HasId(selected.value), i);
      }
    }
  }

  /** The loop range depends only on identities and times, so edits that keep them keep it. */
  lemma LoopRangeSameFrame(a: seq<AudioSegment>, b: seq<AudioSegment>, selected: Option<Id>, enabled: bool)
    requires SameFrame(a, b)
    ensures LoopRangeFor(a, selected, enabled) == LoopRangeFor(b, selected, enabled)
  {
    if enabled && selected.Some? {
      IndexOfSpec(a, selected.value);
      IndexOfSpec(b, selected.value);
      if IndexOf(a, selected.value).Some? {
        FirstIndexAt(b, HasId(selected.value), IndexOf(a, selected.value).value);
      }
    }
  }

  /** `zoomIn()`: half as much again, at most 50. */
  function ZoomedIn(z: real): real { if MaxZoom < z * ZoomFactor then MaxZoom else z * ZoomFactor }
  /** `zoomOut()`: two thirds, at least 1. */
  function ZoomedOut(z: real): real { if MinZoom >= z / ZoomFactor then MinZoom else z / ZoomFactor }

  /**
   * Both zoom steps keep the level in [1, 50]; zooming in never lowers it,
   * zooming out never raises it, and each undoes the other away from the
   * bounds.
   */
  lemma ZoomSteps(z: real)
    requires MinZoom <= z <= MaxZoom
    ensures MinZoom <= ZoomedIn(z) <= MaxZoom && MinZoom <= ZoomedOut(z) <= MaxZoom
    ensures z <= ZoomedIn(z) && ZoomedOut(z) <= z
    ensures z * ZoomFactor <= MaxZoom ==> ZoomedOut(ZoomedIn(z)) == z
    ensures z / ZoomFactor >= MinZoom ==> ZoomedIn(ZoomedOut(z)) == z
    ensures z < MaxZoom ==> z < ZoomedIn(z)
    ensures z > MinZoom ==> ZoomedOut(z) < z
  {
  }

  // ---------------------------------------------------------------------
  // Ids
  // ---------------------------------------------------------------------

  /** Every identity in the list is below `n`. */
  ghost predicate IdsBelow(segs: seq<AudioSegment>, n: nat) {
    forall j :: 0 <= j < |segs| ==> segs[j].id < n
  }

  /** What the view model keeps of its list: distinct identities, all below the counter, on a timeline. */
  ghost predicate Consistent(segs: seq<AudioSegment>, n: nat) {
    DistinctIds(segs) && IdsBelow(segs, n) && Timeline(segs)
  }

  /** Merging keeps the identities distinct and below the counter, and keeps the timeline shape. */
  lemma MergeKeepsIds(segs: seq<AudioSegment>, id: Id, n: nat)
    requires Consistent(segs, n)
    ensures Consistent(MergeWithNext(segs, id), n)
  {
    MergeDistinctIds(segs, id);
    MergeIdsBelow(segs, id, n);
    MergeTimeline(segs, id);
  }

  /** Merging only drops an identity, so a bound on them survives. */
  lemma MergeIdsBelow(segs: seq<AudioSegment>, id: Id, n: nat)
    requires IdsBelow(segs, n)
    ensures IdsBelow(MergeWithNext(segs, id), n)
  {
    IndexOfSpec(segs, id);
    if CanMerge(segs, id) {
      var i := IndexOf(segs, id).value;
      MergeEffect(segs, id, i);
      var r := MergeWithNext(segs, id);
      forall j | 0 <= j < |r|
        ensures r[j].id < n
      {
        if j < i {
          assert r[j] == r[..i][j];
        } else if j > i {
          assert r[j] == r[i + 1..][j - i - 1];
        }
      }
    }
  }

  /** Splitting with identities `n` and `n + 1` keeps every identity below `n + 2`. */
  lemma SplitIdsBelow(segs: seq<AudioSegment>, t: real, n: nat)
    requires IdsBelow(segs, n)
    ensures IdsBelow(Split(segs, t, n, n + 1), n + 2)
  {
    FirstIndexSpec(segs, Inside(t));
    var r := Split(segs, t, n, n + 1);
    if r != segs {
      var i := FirstIndex(segs, Inside(t)).value;
      assert forall j :: 0 <= j < i ==> r[j] == segs[j];
      assert forall j :: i + 2 <= j < |r| ==> r[j] == segs[j - 1];
    }
  }

  /**
   * The list `splitSegment(at:)` leaves, computed as the source does: the
   * first segment strictly containing `t` is removed and its two halves
   * inserted in its place, unless a half would be `Margin` or shorter;
   * `changed` tells whether anything was split.
   */
  method SplitAt(segs: seq<AudioSegment>, t: real, leftId: Id, rightId: Id) returns (r: seq<AudioSegment>, changed: bool)
    ensures r == Split(segs, t, leftId, rightId)
    ensures changed ==> |r| == |segs| + 1
    ensures !changed ==> r == segs
  {
    var index := FirstIndexOf(segs, Inside(t));
    if index.None? {
      return segs, false;
    }
    var i := index.value;
    var segment := segs[i];
    if !(t - segment.startTime > Margin && segment.endTime - t > Margin) {
      return segs, false;
    }
    var left := LeftHalf(segment, t, leftId);
    var right := RightHalf(segment, t, rightId);
    r := segs;
    r := r[..i] + r[i + 1..];
    r := r[..i] + [right] + r[i..];
    r := r[..i] + [left] + r[i..];
    RemoveThenInsertTwo(segs, i, left, right);
    changed := true;
  }

  /**
   * Splitting with the next two fresh identities keeps the identities
   * distinct and below the new supply, and keeps the timeline shape.
   */
  lemma SplitKeepsIds(segs: seq<AudioSegment>, t: real, n: nat)
    requires Consistent(segs, n)
    ensures Consistent(Split(segs, t, n, n + 1), n + 2)
  {
    SplitDistinctIds(segs, t, n, n + 1);
    SplitIdsBelow(segs, t, n);
    SplitTimeline(segs, t, n, n + 1);
  }

  /** Writing a batch back keeps the identities, their bound, the timeline shape and hence the loop range of the list. */
  lemma WriteBackKeepsIds(segs: seq<AudioSegment>, targets: seq<AudioSegment>, transcribe: Transcriber,
                          n: nat, selected: Option<Id>, enabled: bool)
    requires DistinctIds(segs) && IdsBelow(segs, n)
    ensures var r := WriteBack(segs, targets, transcribe);
      DistinctIds(r) && IdsBelow(r, n) && (Timeline(r) <==> Timeline(segs)) && LoopRangeFor(r, selected, enabled) == LoopRangeFor(segs, selected, enabled)
  {
    var r := WriteBack(segs, targets, transcribe);
    WriteBackKeepsFrame(segs, targets, transcribe);
    SameFrameKeeps(r, segs);
    LoopRangeSameFrame(r, segs, selected, enabled);
    forall j | 0 <= j < |r|
      ensures r[j].id < n
    {
      assert r[j].id == segs[j].id;
    }
  }

  /** `remove(at: i)`, then `insert(b, at: i)` and `insert(a, at: i)`, replaces element `i` by `a, b`. */
  lemma RemoveThenInsertTwo(xs: seq<AudioSegment>, i: nat, a: AudioSegment, b: AudioSegment)
    requires i < |xs|
    ensures var removed := xs[..i] + xs[i + 1..];
      var withB := removed[..i] + [b] + removed[i..];
      withB[..i] + [a] + withB[i..] == xs[..i] + [a, b] + xs[i + 1..]
  {
    var removed := xs[..i] + xs[i + 1..];
    assert removed[..i] == xs[..i] && removed[i..] == xs[i + 1..];
    var withB := removed[..i] + [b] + removed[i..];
    assert withB[..i] == xs[..i] && withB[i..] == [b] + xs[i + 1..];
  }

  /** Processing target `k` of a batch: a success is written back and counted, a failure changes nothing. */
  lemma BatchStep(segs: seq<AudioSegment>, targets: seq<AudioSegment>, k: nat, transcribe: Transcriber)
    requires k < |targets|
    ensures var outcome := transcribe(targets[k].startTime, targets[k].endTime);
      WriteBack(segs, targets[..k + 1], transcribe) ==
        (if outcome.Some? then UpdateWhere(WriteBack(segs, targets[..k], transcribe), targets[k].id, SetTranscription(outcome.value))
         else WriteBack(segs, targets[..k], transcribe)) &&
      Successes(targets[..k + 1], transcribe) == Successes(targets[..k], transcribe) + (if outcome.Some? then 1 else 0)
  {
    assert targets[..k + 1][..k] == targets[..k];
  }

  /** One more export entry appended to the text built so far. */
  lemma ExportStep(header: string, chosen: seq<AudioSegment>, i: nat)
    requires i < |chosen|
    ensures (header + ExportEntries(chosen[..i])) + ExportEntry(chosen[i]) == header + ExportEntries(chosen[..i + 1])
  {
    assert chosen[..i + 1][..i] == chosen[..i];
    assert ExportEntries(chosen[..i + 1]) == ExportEntries(chosen[..i]) + ExportEntry(chosen[i]);
    StringAssoc(header, ExportEntries(chosen[..i]), ExportEntry(chosen[i]));
  }

  /** The two appends of the export loop make one entry. */
  lemma EntryParts(s: AudioSegment)
    ensures ExportEntry(s) ==
      ("[" + FormatTime(s.startTime) + "] " + s.labelText.GetOr("Segment") + ":\n") + (s.transcription.GetOr("") + "\n\n")
  {
    StringAssoc("[" + FormatTime(s.startTime) + "] " + s.labelText.GetOr("Segment") + ":\n", s.transcription.GetOr(""), "\n\n");
  }

  // ---------------------------------------------------------------------
  // The view model
  // ---------------------------------------------------------------------

  class MainViewModel {
    var audio: Option<AudioInfo>
    var isLoading: bool
    var isAnalyzing: bool
    var errorMessage: Option<string>
    var waveformSamples: seq<Waveform.WaveformSample>
    var audioFeatures: seq<FeatureExtraction.AudioFeaturePoint>
    var segments: seq<AudioSegment>
    var selectedSegmentId: Option<Id>
    var isLoopingEnabled: bool
    var isTranscribing: bool
    var isBatchTranscribing: bool
    var batchTranscriptionProgress: real
    var zoomLevel: real
    /** The next identity to hand out; stands in for `UUID()`. */
    var idSupply: nat
    const player: AudioPlayerService

    ghost predicate Valid()
      reads this, player
    {
      MinZoom <= zoomLevel <= MaxZoom &&
      Consistent(segments, idSupply) &&
      player.isLooping == isLoopingEnabled &&
      player.loopRange == LoopRangeFor(segments, selectedSegmentId, isLoopingEnabled) &&
      WellFormed(player.State())
    }

    constructor()
      ensures Valid() && fresh(player)
      ensures audio.None? && segments == [] && selectedSegmentId.None? && zoomLevel == 1.0
      ensures !isLoopingEnabled && !isTranscribing && !isBatchTranscribing && batchTranscriptionProgress == 0.0
      ensures player.State() == Initial()
    {
      audio := None;
      isLoading := false;
      isAnalyzing := false;
      errorMessage := None;
      waveformSamples := [];
      audioFeatures := [];
      segments := [];
      selectedSegmentId := None;
      isLoopingEnabled := false;
      isTranscribing := false;
      isBatchTranscribing := false;
      batchTranscriptionProgress := 0.0;
      zoomLevel := 1.0;
      idSupply := 0;
      player := new AudioPlayerService();
      InitialWellFormed();
    }

    /**
     * `updateLoopRange()`. Building `startTime...endTime` traps when the
     * start is after the end, so the range it would build must not be
     * reversed; `Valid()` guarantees that.
     */
    method UpdateLoopRange()
      requires var r := LoopRangeFor(segments, selectedSegmentId, isLoopingEnabled); r.Some? ==> r.value.lower <= r.value.upper
      modifies player`loopRange
      ensures player.loopRange == LoopRangeFor(segments, selectedSegmentId, isLoopingEnabled)
      ensures WellFormed(old(player.State())) ==> WellFormed(player.State())
    {
      if isLoopingEnabled && selectedSegmentId.Some? {
        var index := FirstIndexOf(segments, HasId(selectedSegmentId.value));
        if index.Some? {
          var segment := segments[index.value];
          assert segment.startTime <= segment.endTime;
          player.SetLoopRange(Some(LoopRange(segment.startTime, segment.endTime)));
          return;
        }
      }
      player.SetLoopRange(None);
    }

    /**
     * A new list (and id counter) in place of the old one; the loop range
     * follows, as the subscription to `segments` makes it.
     */
    method Install(list: seq<AudioSegment>, supply: nat)
      requires MinZoom <= zoomLevel <= MaxZoom && player.isLooping == isLoopingEnabled && WellFormed(player.State())
      requires Consistent(list, supply)
      modifies this`segments, this`idSupply, player`loopRange
      ensures Valid() && segments == list && idSupply == supply
    {
      segments := list;
      idSupply := supply;
      UpdateLoopRange();
    }

    /** Turning looping on or off; the player follows, and so does its range. */
    method SetLoopingEnabled(enabled: bool)
      requires Valid()
      modifies this`isLoopingEnabled, player`isLooping, player`loopRange
      ensures Valid() && isLoopingEnabled == enabled
    {
      isLoopingEnabled := enabled;
      player.SetLooping(enabled);
      UpdateLoopRange();
    }

    /** Selecting a segment (or none); the loop range follows. */
    method Select(id: Option<Id>)
      requires Valid()
      modifies this`selectedSegmentId, player`loopRange
      ensures Valid() && selectedSegmentId == id
    {
      selectedSegmentId := id;
      UpdateLoopRange();
    }

    // -------------------------------------------------------------------
    // Field updates
    // -------------------------------------------------------------------

    /** `segments[index] = f(segments[index])` at the first index holding `id`, if any. */
    method WriteFirst(id: Id, f: AudioSegment -> AudioSegment)
      modifies this`segments
      ensures segments == UpdateWhere(old(segments), id, f)
    {
      var index := FirstIndexOf(segments, HasId(id));
      if index.Some? {
        segments := segments[index.value := f(segments[index.value])];
      }
    }

    /** The four field updates share this shape: the first segment with the id gets `f` of it. */
    method ReplaceFirst(id: Id, f: AudioSegment -> AudioSegment)
      requires Valid()
      requires forall s :: f(s).id == s.id && f(s).startTime == s.startTime && f(s).endTime == s.endTime
      modifies this`segments, player`loopRange
      ensures Valid() && segments == UpdateWhere(old(segments), id, f)
    {
      WriteFirst(id, f);
      UpdateWhereKeepsFrame(old(segments), id, f);
      SameFrameKeeps(segments, old(segments));
      UpdateLoopRange();
    }

    /** `updateSegmentType(id:type:)`. */
    method UpdateSegmentType(id: Id, t: SegmentType)
      requires Valid()
      modifies this`segments, player`loopRange
      ensures Valid() && segments == UpdateType(old(segments), id, t)
    {
      ReplaceFirst(id, SetKind(t));
    }

    /** `updateSegmentLabel(id:label:)`. */
    method UpdateSegmentLabel(id: Id, newLabel: string)
      requires Valid()
      modifies this`segments, player`loopRange
      ensures Valid() && segments == UpdateLabel(old(segments), id, newLabel)
    {
      ReplaceFirst(id, SetLabel(newLabel));
    }

    /** `updateTranscription(id:text:)`. */
    method UpdateSegmentTranscription(id: Id, text: string)
      requires Valid()
      modifies this`segments, player`loopRange
      ensures Valid() && segments == UpdateTranscription(old(segments), id, text)
    {
      ReplaceFirst(id, SetTranscription(text));
    }

    /** `updateSegmentExportExclusion(id:isExcluded:)`. */
    method UpdateSegmentExportExclusion(id: Id, excluded: bool)
      requires Valid()
      modifies this`segments, player`loopRange
      ensures Valid() && segments == UpdateExclusion(old(segments), id, excluded)
    {
      ReplaceFirst(id, SetExclusion(excluded));
    }

    // -------------------------------------------------------------------
    // Boundaries, splits and merges
    // -------------------------------------------------------------------

    /** `moveBoundary(index:newTime:)`. */
    method MoveSegmentBoundary(index: int, newTime: real)
      requires Valid()
      modifies this`segments, player`loopRange
      ensures Valid() && segments == MoveBoundary(old(segments), index, newTime)
    {
      if !(index >= 0 && index < |segments| - 1) {
        UpdateLoopRange();
        return;
      }
      var minTime := if index > 0 then segments[index - 1].endTime + Margin else Margin;
      var maxTime := segments[index + 1].endTime - Margin;
      var clampedTime := Max(minTime, Min(newTime, maxTime));
      var left := segments[index];
      var right := segments[index + 1];
      var segs := segments;
      segments := segments[index := left.(endTime := clampedTime)];
      segments := segments[index + 1 := right.(startTime := clampedTime)];
      assert segments == MoveBoundary(segs, index, newTime) && Consistent(segments, idSupply) by {
        MoveBoundaryEffect(segs, index, newTime);
        MoveBoundaryTimeline(segs, index, newTime);
        assert forall j :: 0 <= j < |segments| ==> segments[j].id == segs[j].id;
      }
      UpdateLoopRange();
    }

    /** `splitSegment(at:)`; the two halves take the next two identities. */
    method SplitSegment(t: real)
      requires Valid()
      modifies this`segments, this`idSupply, player`loopRange
      ensures Valid()
      ensures segments == Split(old(segments), t, old(idSupply), old(idSupply) + 1)
      ensures idSupply == if segments == old(segments) then old(idSupply) else old(idSupply) + 2
    {
      var segs, n := segments, idSupply;
      var list, changed := SplitAt(segs, t, n, n + 1);
      if !changed {
        assert segments == list && idSupply == n;
        return;
      }
      assert Consistent(list, n + 2) by {
        SplitKeepsIds(segs, t, n);
      }
      Install(list, n + 2);
    }

    /** `mergeWithNext(id:)`: the merged segment becomes the selection. */
    method MergeSegmentWithNext(id: Id)
      requires Valid()
      modifies this`segments, this`idSupply, this`selectedSegmentId, player`loopRange
      ensures Valid()
      ensures segments == MergeWithNext(old(segments), id) && idSupply == old(idSupply)
      ensures selectedSegmentId == if CanMerge(old(segments), id) then Some(id) else old(selectedSegmentId)
    {
      var index := FirstIndexOf(segments, HasId(id));
      if index.None? || index.value >= |segments| - 1 {
        return;
      }
      var i := index.value;
      var current := segments[i];
      var next := segments[i + 1];
      var mergedTranscription: Option<string>;
      if current.transcription.Some? && next.transcription.Some? {
        mergedTranscription := Some(current.transcription.value + "\n" + next.transcription.value);
      } else {
        mergedTranscription := OrElse(current.transcription, next.transcription);
      }
      var mergedLabel := OrElse(current.labelText, next.labelText);
      var mergedSegment := AudioSegment(current.id, current.startTime, next.endTime, current.kind,
                                        mergedLabel, mergedTranscription, current.isExcludedFromExport);
      assert mergedSegment == Merged(current, next);
      // `remove(at: index + 1)` followed by `segments[index] = mergedSegment`
      var list := segments[..i] + [mergedSegment] + segments[i + 2..];
      assert list == MergeWithNext(segments, id) && Consistent(list, idSupply) by {
        MergeKeepsIds(segments, id, idSupply);
      }
      selectedSegmentId := Some(mergedSegment.id);
      Install(list, idSupply);
    }

    // -------------------------------------------------------------------
    // Zoom and seeking
    // -------------------------------------------------------------------

    method ZoomIn()
      requires Valid()
      modifies this`zoomLevel
      ensures Valid() && zoomLevel == ZoomedIn(old(zoomLevel))
    {
      zoomLevel := if MaxZoom < zoomLevel * ZoomFactor then MaxZoom else zoomLevel * ZoomFactor;
      ZoomSteps(old(zoomLevel));
    }

    method ZoomOut()
      requires Valid()
      modifies this`zoomLevel
      ensures Valid() && zoomLevel == ZoomedOut(old(zoomLevel))
    {
      zoomLevel := if MinZoom >= zoomLevel / ZoomFactor then MinZoom else zoomLevel / ZoomFactor;
      ZoomSteps(old(zoomLevel));
    }

    method ResetZoom()
      requires Valid()
      modifies this`zoomLevel
      ensures Valid() && zoomLevel == 1.0
    {
      zoomLevel := 1.0;
    }

    /** `seek(progress:)`: nothing without audio, else a seek to that fraction of the duration. */
    method SeekProgress(progress: real)
      requires Valid()
      modifies player
      ensures Valid()
      ensures audio.None? ==> player.State() == old(player.State())
      ensures audio.Some? ==> player.State() == SeekStep(old(player.State()), audio.value.duration * progress)
    {
      if audio.None? {
        return;
      }
      player.Seek(audio.value.duration * progress);
    }

    /** `seek(to:)`. */
    method Seek(time: real)
      requires Valid()
      modifies player
      ensures Valid() && player.State() == SeekStep(old(player.State()), time)
    {
      player.Seek(time);
    }

    /** `stopPlayback()`. */
    method StopPlayback()
      requires Valid()
      modifies player
      ensures Valid() && player.State() == StopStep(old(player.State()))
    {
      player.Stop();
    }

    /** `togglePlayback()`. */
    method TogglePlayback()
      requires Valid()
      modifies player
      ensures Valid()
      ensures player.State() == if old(player.isPlaying) then PauseStep(old(player.State())) else PlayStep(old(player.State()))
    {
      if player.isPlaying {
        player.Pause();
      } else {
        player.Play();
      }
    }

    // -------------------------------------------------------------------
    // Transcription
    // -------------------------------------------------------------------

    /**
     * `transcribeSegment(id:)` with the service's answer as a parameter: no
     * effect for an unknown id, without audio, or for a Silence segment;
     * otherwise the text is written back (if the id is still there) or the
     * error is reported.
     */
    method TranscribeSegment(id: Id, outcome: Outcome)
      requires Valid()
      modifies this`segments, this`isTranscribing, this`errorMessage, player`loopRange
      ensures Valid()
      ensures var target := IndexOf(old(segments), id);
        if target.None? || target.value >= |old(segments)| || audio.None? || !Transcribable(old(segments)[target.value]) then
          segments == old(segments) && isTranscribing == old(isTranscribing) && errorMessage == old(errorMessage)
        else
          !isTranscribing &&
          match outcome
          case Transcript(text) => segments == UpdateTranscription(old(segments), id, text) && errorMessage.None?
          case Failed(description) => segments == old(segments) && errorMessage == Some(TranscriptionFailedPrefix + description)
    {
      var index := FirstIndexOf(segments, HasId(id));
      if index.None? || audio.None? {
        return;
      }
      var segment := segments[index.value];
      if !(segment.kind == Conversation || segment.kind == Performance) {
        return;
      }
      isTranscribing := true;
      errorMessage := None;
      FinishTranscription(id, outcome);
    }

    /**
     * The main-actor blocks that end a transcription request: a returned
     * text goes to the segment that has the id, if it is still there; a
     * failure is reported with the fixed prefix. Either way the request is
     * over.
     */
    method FinishTranscription(id: Id, outcome: Outcome)
      requires Valid()
      modifies this`segments, this`isTranscribing, this`errorMessage, player`loopRange
      ensures Valid() && !isTranscribing
      ensures match outcome
        case Transcript(text) => segments == UpdateTranscription(old(segments), id, text) && errorMessage == old(errorMessage)
        case Failed(description) => segments == old(segments) && errorMessage == Some(TranscriptionFailedPrefix + description)
    {
      match outcome
      case Transcript(text) =>
        ReplaceFirst(id, SetTranscription(text));
        isTranscribing := false;
      case Failed(description) =>
        errorMessage := Some(TranscriptionFailedPrefix + description);
        isTranscribing := false;
    }

    /**
     * The loop of `batchTranscribe()`: the targets are transcribed in list
     * order, each success written back to the list and counted in the
     * progress.
     */
    method RunBatch(targets: seq<AudioSegment>, transcribe: Transcriber)
      requires |targets| > 0
      modifies this`segments, this`batchTranscriptionProgress
      ensures segments == WriteBack(old(segments), targets, transcribe)
      ensures batchTranscriptionProgress == Progress(targets, |targets|, transcribe)
    {
      batchTranscriptionProgress := 0.0;
      var completedCount: nat := 0;
      var totalCount := |targets|;
      for k := 0 to totalCount
        invariant segments == WriteBack(old(segments), targets[..k], transcribe)
        invariant completedCount == Successes(targets[..k], transcribe)
        invariant batchTranscriptionProgress == Progress(targets, k, transcribe)
      {
        var segment := targets[k];
        var outcome := transcribe(segment.startTime, segment.endTime);
        BatchStep(old(segments), targets, k, transcribe);
        if outcome.Some? {
          WriteFirst(segment.id, SetTranscription(outcome.value));
          completedCount := completedCount + 1;
          batchTranscriptionProgress := completedCount as real / totalCount as real;
        }
      }
      assert targets[..totalCount] == targets;
    }

    /**
     * `batchTranscribe()` with the service as a function of the segment's
     * span (`None` for a failed request): the targets are transcribed in
     * list order, each success written back and counted in the progress,
     * and the run ends at progress 1.
     */
    method BatchTranscribe(service: Option<Transcriber>)
      requires Valid()
      modifies this`segments, this`isBatchTranscribing, this`batchTranscriptionProgress, this`errorMessage, player`loopRange
      ensures Valid()
      ensures audio.None? || service.None? || BatchTargets(old(segments)) == [] ==>
        segments == old(segments) && isBatchTranscribing == old(isBatchTranscribing) &&
        batchTranscriptionProgress == old(batchTranscriptionProgress) && errorMessage == old(errorMessage)
      ensures audio.Some? && service.Some? && BatchTargets(old(segments)) != [] ==>
        segments == WriteBack(old(segments), BatchTargets(old(segments)), service.value) &&
        !isBatchTranscribing && batchTranscriptionProgress == 1.0 && errorMessage.None?
    {
      if audio.None? || service.None? {
        return;
      }
      var transcribe := service.value;
      var targets := BatchTargets(segments);
      if |targets| == 0 {
        return;
      }
      isBatchTranscribing := true;
      errorMessage := None;
      RunBatch(targets, transcribe);
      WriteBackKeepsIds(old(segments), targets, transcribe, idSupply, selectedSegmentId, isLoopingEnabled);
      isBatchTranscribing := false;
      batchTranscriptionProgress := 1.0;
    }

    /**
     * The text `exportAllTranscriptions()` writes, built entry by entry;
     * `generated` is the formatted date. Nothing without audio; without a
     * transcribed segment, only the error message.
     */
    method ExportAllTranscriptions(generated: string) returns (text: Option<string>)
      requires Valid()
      modifies this`errorMessage
      ensures Valid()
      ensures audio.None? ==> text.None? && errorMessage == old(errorMessage)
      ensures audio.Some? ==> text == ExportText(segments, audio.value.fileName, generated)
      ensures audio.Some? && text.None? ==> errorMessage == Some(NothingToExportMessage)
      ensures text.Some? ==> errorMessage == old(errorMessage)
    {
      if audio.None? {
        return None;
      }
      var transcribedSegments := Transcribed(segments);
      if |transcribedSegments| == 0 {
        errorMessage := Some(NothingToExportMessage);
        return None;
      }
      var header := ExportHeader(audio.value.fileName, generated);
      var fullText := "Project: " + audio.value.fileName + "\n";
      fullText := fullText + ("Generated: " + generated + "\n\n");
      assert fullText == header + ExportEntries(transcribedSegments[..0]);
      for i := 0 to |transcribedSegments|
        invariant fullText == header + ExportEntries(transcribedSegments[..i])
        invariant errorMessage == old(errorMessage)
      {
        var segment := transcribedSegments[i];
        var timestamp := FormatTime(segment.startTime);
        var segmentLabel := segment.labelText.GetOr("Segment");
        fullText := fullText + ("[" + timestamp + "] " + segmentLabel + ":\n");
        fullText := fullText + (segment.transcription.GetOr("") + "\n\n");
        EntryParts(segment);
        StringAssoc(header + ExportEntries(transcribedSegments[..i]),
                    "[" + timestamp + "] " + segmentLabel + ":\n", segment.transcription.GetOr("") + "\n\n");
        ExportStep(header, transcribedSegments, i);
      }
      assert transcribedSegments[..|transcribedSegments|] == transcribedSegments;
      assert ExportText(segments, audio.value.fileName, generated) == Some(header + ExportEntries(transcribedSegments));
      return Some(fullText);
    }

    // -------------------------------------------------------------------
    // Loading and analysis
    // -------------------------------------------------------------------

    /**
     * The synchronous part of `performLoadAudio(from:)`: the audio is
     * recorded, the player loads the file, and the analysis results are
     * published together: the waveform columns, the feature points and the
     * segments computed from those points, with fresh identities.
     *
     * `info`, `file`, `buf` and `analysis` describe one decoded file: the
     * player's file has the buffer's frames at the analysis's sample rate,
     * and the duration is frames over rate, as `AudioData` computes it.
     */
    method LoadAudio(info: AudioInfo, file: AudioPlayback.AudioFile, buf: Waveform.PcmBuffer,
                     analysis: FeatureExtraction.Analysis)
      requires Valid()
      requires Waveform.BufferWellFormed(buf) && FeatureExtraction.ValidAnalysis(analysis)
      requires file.length == buf.frameLength && file.sampleRate == analysis.sampleRate
      requires info.duration == file.length as real / file.sampleRate
      modifies this`audio, this`isLoading, this`isAnalyzing, this`errorMessage, this`waveformSamples,
               this`audioFeatures, this`segments, this`idSupply, player
      ensures Valid()
      ensures audio == Some(info) && !isLoading && !isAnalyzing && errorMessage.None?
      ensures player.State() == LoadStep(old(player.State()), file, info.duration).(loopRange := player.loopRange)
      ensures waveformSamples == Waveform.Downsample(buf, WaveformColumns)
      ensures audioFeatures == FeatureExtraction.Features(analysis, buf.frameLength, FirstChannel(buf))
      ensures segments == Stamp(Segmentation.Segments(audioFeatures), old(idSupply))
      ensures idSupply == old(idSupply) + |segments|
      ensures zoomLevel == old(zoomLevel) && selectedSegmentId == old(selectedSegmentId) && isLoopingEnabled == old(isLoopingEnabled)
    {
      BeginLoad(info, file);
      var samples, features, runs := Analyze(buf, analysis);
      AnalysisPublishesTimeline(analysis, buf.frameLength, FirstChannel(buf), idSupply);
      Publish(samples, features, runs);
    }

    /** The part of `performLoadAudio(from:)` before the analysis: the audio is recorded and the player loads it. */
    method BeginLoad(info: AudioInfo, file: AudioPlayback.AudioFile)
      requires Valid()
      requires file.sampleRate > 0.0 && file.length >= 0 && info.duration >= 0.0
      modifies this`audio, this`isLoading, this`isAnalyzing, this`errorMessage, player
      ensures Valid()
      ensures audio == Some(info) && !isLoading && isAnalyzing && errorMessage.None?
      ensures player.State() == LoadStep(old(player.State()), file, info.duration)
    {
      isLoading := true;
      errorMessage := None;
      audio := Some(info);
      isLoading := false;
      isAnalyzing := true;
      player.Load(file, info.duration);
    }

    /** The main-actor block that publishes an analysis; the segments get fresh identities. */
    method Publish(samples: seq<Waveform.WaveformSample>, features: seq<FeatureExtraction.AudioFeaturePoint>, runs: seq<Run>)
      requires Valid() && Timeline(Stamp(runs, idSupply))
      modifies this`waveformSamples, this`audioFeatures, this`segments, this`idSupply, this`isAnalyzing, player`loopRange
      ensures Valid() && !isAnalyzing
      ensures waveformSamples == samples && audioFeatures == features
      ensures segments == Stamp(runs, old(idSupply)) && idSupply == old(idSupply) + |runs|
    {
      StampPreserves(runs, idSupply);
      waveformSamples := samples;
      audioFeatures := features;
      segments := Stamp(runs, idSupply);
      idSupply := idSupply + |runs|;
      isAnalyzing := false;
      UpdateLoopRange();
    }
  }

  /**
   * The samples feature extraction reads: channel 0 of the buffer over its
   * valid frames, and none when the buffer has no float data or no channel
   * (`floatChannelData?[0]` is then nil and every window is skipped).
   */
  function FirstChannel(buf: Waveform.PcmBuffer): (c: Option<seq<real>>)
    requires Waveform.BufferWellFormed(buf)
    ensures c.Some? <==> buf.floatData.Some? && buf.channelCount > 0
    ensures c.Some? ==> |c.value| == buf.frameLength
    ensures c.Some? ==> forall f :: 0 <= f < buf.frameLength ==> c.value[f] == buf.floatData.value[0][f]
  {
    if buf.floatData.Some? && buf.channelCount > 0 then Some(buf.floatData.value[0][..buf.frameLength]) else None
  }

  /**
   * The analysis of a load: the waveform columns and the feature points,
   * both of the one buffer, and the segments computed from those points.
   */
  method Analyze(buf: Waveform.PcmBuffer, analysis: FeatureExtraction.Analysis)
    returns (samples: seq<Waveform.WaveformSample>, features: seq<FeatureExtraction.AudioFeaturePoint>, runs: seq<Run>)
    requires Waveform.BufferWellFormed(buf) && FeatureExtraction.ValidAnalysis(analysis)
    ensures samples == Waveform.Downsample(buf, WaveformColumns)
    ensures features == FeatureExtraction.Features(analysis, buf.frameLength, FirstChannel(buf))
    ensures runs == Segmentation.Segments(features)
  {
    samples := Waveform.GenerateWaveformSamples(buf, WaveformColumns);
    features := FeatureExtraction.ExtractFeatures(analysis, buf.frameLength, FirstChannel(buf));
    runs := Segmentation.CalculateSegments(features);
  }

  /**
   * What a load publishes, for time-ordered feature points: segments that
   * cover the points' time span without gaps, with distinct identities,
   * that smoothing would leave as they are.
   */
  lemma PublishedSegments(features: seq<FeatureExtraction.AudioFeaturePoint>, base: Id)
    requires Segmentation.NonDecreasingTimes(features)
    ensures var segs := Stamp(Segmentation.Segments(features), base);
      Contiguous(segs) && DistinctIds(segs) &&
      (|features| == 0 <==> segs == []) &&
      (|features| > 0 ==>
        segs[0].startTime == features[0].time && segs[|segs| - 1].endTime == features[|features| - 1].time)
  {
    Segmentation.SegmentsMeaning(features);
    StampPreserves(Segmentation.Segments(features), base);
  }

  /**
   * For any analysed file the published timeline is well formed without
   * further assumptions: the extracted points are time-ordered, so the
   * segments are contiguous with distinct identities, and there are none
   * exactly when no whole window could be read.
   */
  lemma AnalysisPublishesTimeline(a: FeatureExtraction.Analysis, length: nat, channel0: Option<seq<real>>, base: Id)
    requires FeatureExtraction.ValidAnalysis(a) && (channel0.Some? ==> |channel0.value| == length)
    ensures var segs := Stamp(Segmentation.Segments(FeatureExtraction.Features(a, length, channel0)), base);
      Contiguous(segs) && DistinctIds(segs) && Timeline(segs) &&
      (segs == [] <==> length == 0 || channel0.None? || a.windowSize > length)
  {
    var features := FeatureExtraction.Features(a, length, channel0);
    forall i | 0 <= i < |features| - 1
      ensures features[i].time <= features[i + 1].time
    {
      FeatureExtraction.FeatureTimesIncrease(a, length, channel0, i, i + 1);
    }
    FeatureExtraction.FeatureCount(a, length, channel0);
    PublishedSegments(features, base);
    Segmentation.SegmentsMeaning(features);
    var runs := Segmentation.Segments(features);
    var segs := Stamp(runs, base);
    if |features| > 0 {
      FeatureExtraction.FeatureTime(a, length, channel0, 0);
      if |features| > 1 {
        FeatureExtraction.FeatureTimesIncrease(a, length, channel0, 0, |features| - 1);
      }
      assert segs[0].startTime == 0.0;
      assert |runs| == 1 ==> segs[0].startTime <= segs[0].endTime;
    }
    assert |runs| >= 2 ==> forall j :: 0 <= j < |runs| ==> runs[j].Duration() >= Segmentation.MinDuration;
  }

}
