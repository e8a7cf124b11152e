/**
 * The segment-list edits of the timeline editor, as functions from the old
 * list to the new one. The view model's methods (ViewModel.MainViewModel)
 * perform the same edits in place and are proved equal to these functions;
 * the lemmas here state what each edit keeps and changes.
 */
module SegmentEditing {
  import opened Wrappers
  import opened AudioSegmentModel
  import opened Arith

  /** The margin that keeps boundaries and split points away from segment ends. */
  const Margin: real := 0.1

  // ---------------------------------------------------------------------
  // Lookup
  // ---------------------------------------------------------------------

  /** Swift's `firstIndex(where:)`: the first position whose segment satisfies `p`. */
  function FirstIndex(segs: seq<AudioSegment>, p: AudioSegment -> bool): Option<nat>
  {
    if |segs| == 0 then None
    else if p(segs[0]) then Some(0)
    else match FirstIndex(segs[1..], p)
      case None => None
      case Some(k) => Some(k + 1)
  }

  /**
   * `FirstIndex` finds a position exactly when some segment satisfies `p`,
   * and then the first one.
   */
  lemma {:induction false} FirstIndexSpec(segs: seq<AudioSegment>, p: AudioSegment -> bool)
    ensures FirstIndex(segs, p).None? <==> forall j :: 0 <= j < |segs| ==> !p(segs[j])
    ensures FirstIndex(segs, p).Some? ==>
      var i := FirstIndex(segs, p).value;
      i < |segs| && p(segs[i]) && forall j :: 0 <= j < i ==> !p(segs[j])
  {
    if |segs| > 0 && !p(segs[0]) {
      FirstIndexSpec(segs[1..], p);
      assert forall j :: 1 <= j < |segs| ==> segs[j] == segs[1..][j - 1];
    }
  }

  /** A position holding the first segment that satisfies `p` is what `FirstIndex` finds. */
  lemma FirstIndexAt(segs: seq<AudioSegment>, p: AudioSegment -> bool, i: nat)
    requires i < |segs| && p(segs[i]) && forall j :: 0 <= j < i ==> !p(segs[j])
    ensures FirstIndex(segs, p) == Some(i)
  {
    FirstIndexSpec(segs, p);
    var k := FirstIndex(segs, p).value;
    assert !(k < i) && !(i < k);
  }

  function HasId(id: Id): AudioSegment -> bool {
    (s: AudioSegment) => s.id == id
  }

  /** The first position holding the segment with identity `id`. */
  function IndexOf(segs: seq<AudioSegment>, id: Id): Option<nat> {
    FirstIndex(segs, HasId(id))
  }

  lemma IndexOfSpec(segs: seq<AudioSegment>, id: Id)
    ensures IndexOf(segs, id).None? <==> forall j :: 0 <= j < |segs| ==> segs[j].id != id
    ensures IndexOf(segs, id).Some? ==>
      var i := IndexOf(segs, id).value;
      i < |segs| && segs[i].id == id && forall j :: 0 <= j < i ==> segs[j].id != id
  {
    FirstIndexSpec(segs, HasId(id));
  }

  // ---------------------------------------------------------------------
  // Field updates
  // ---------------------------------------------------------------------

  /** Replaces the first segment with identity `id` by `f` of it; an unknown id changes nothing. */
  function UpdateWhere(segs: seq<AudioSegment>, id: Id, f: AudioSegment -> AudioSegment): seq<AudioSegment> {
    match IndexOf(segs, id)
    case None => segs
    case Some(i) => if i < |segs| then segs[i := f(segs[i])] else segs
  }

  /** The record rebuilt with one field replaced, as each update's initialiser call does. */
  function SetKind(t: SegmentType): AudioSegment -> AudioSegment {
    (s: AudioSegment) => s.(kind := t)
  }

  /** The empty label is stored as no label. */
  function SetLabel(newLabel: string): AudioSegment -> AudioSegment {
    (s: AudioSegment) => s.(labelText := if newLabel == "" then None else Some(newLabel))
  }

  function SetTranscription(text: string): AudioSegment -> AudioSegment {
    (s: AudioSegment) => s.(transcription := Some(text))
  }

  function SetExclusion(excluded: bool): AudioSegment -> AudioSegment {
    (s: AudioSegment) => s.(isExcludedFromExport := excluded)
  }

  /** `updateSegmentType(id:type:)`. */
  function UpdateType(segs: seq<AudioSegment>, id: Id, t: SegmentType): seq<AudioSegment> {
    UpdateWhere(segs, id, SetKind(t))
  }

  /** `updateSegmentLabel(id:label:)`: the empty label clears it. */
  function UpdateLabel(segs: seq<AudioSegment>, id: Id, newLabel: string): seq<AudioSegment> {
    UpdateWhere(segs, id, SetLabel(newLabel))
  }

  /** `updateTranscription(id:text:)`, and the write-back of a finished transcription. */
  function UpdateTranscription(segs: seq<AudioSegment>, id: Id, text: string): seq<AudioSegment> {
    UpdateWhere(segs, id, SetTranscription(text))
  }

  /** `updateSegmentExportExclusion(id:isExcluded:)`. */
  function UpdateExclusion(segs: seq<AudioSegment>, id: Id, excluded: bool): seq<AudioSegment> {
    UpdateWhere(segs, id, SetExclusion(excluded))
  }

  /**
   * An update touches only the first segment with the id: an unknown id
   * leaves the list as it is, otherwise that position gets `f` of its
   * segment and every other position is unchanged.
   */
  lemma UpdateWhereEffect(segs: seq<AudioSegment>, id: Id, f: AudioSegment -> AudioSegment)
    ensures |UpdateWhere(segs, id, f)| == |segs|
    ensures (forall j :: 0 <= j < |segs| ==> segs[j].id != id) ==> UpdateWhere(segs, id, f) == segs
    ensures forall i :: 0 <= i < |segs| && segs[i].id == id && (forall j :: 0 <= j < i ==> segs[j].id != id) ==>
      UpdateWhere(segs, id, f) == segs[i := f(segs[i])]
  {
    IndexOfSpec(segs, id);
  }

  /** The record update used by `UpdateType` changes the type and nothing else. */
  lemma UpdateTypeEffect(segs: seq<AudioSegment>, id: Id, t: SegmentType, i: nat)
    requires i < |segs| && segs[i].id == id && forall j :: 0 <= j < i ==> segs[j].id != id
    ensures var r := UpdateType(segs, id, t);
      |r| == |segs| && r[i].kind == t &&
      r[i] == AudioSegment(segs[i].id, segs[i].startTime, segs[i].endTime, t,
                           segs[i].labelText, segs[i].transcription, segs[i].isExcludedFromExport) &&
      forall j :: 0 <= j < |segs| && j != i ==> r[j] == segs[j]
  {
    UpdateWhereEffect(segs, id, SetKind(t));
  }

  /** The label update stores `None` for the empty string and the label otherwise. */
  lemma UpdateLabelEffect(segs: seq<AudioSegment>, id: Id, newLabel: string, i: nat)
    requires i < |segs| && segs[i].id == id && forall j :: 0 <= j < i ==> segs[j].id != id
    ensures var r := UpdateLabel(segs, id, newLabel);
      |r| == |segs| &&
      (newLabel == "" ==> r[i].labelText == None) && (newLabel != "" ==> r[i].labelText == Some(newLabel)) &&
      r[i] == AudioSegment(segs[i].id, segs[i].startTime, segs[i].endTime, segs[i].kind,
                           r[i].labelText, segs[i].transcription, segs[i].isExcludedFromExport) &&
      forall j :: 0 <= j < |segs| && j != i ==> r[j] == segs[j]
  {
    UpdateWhereEffect(segs, id, SetLabel(newLabel));
  }

  /** The transcription update stores the text as given, even the empty one. */
  lemma UpdateTranscriptionEffect(segs: seq<AudioSegment>, id: Id, text: string, i: nat)
    requires i < |segs| && segs[i].id == id && forall j :: 0 <= j < i ==> segs[j].id != id
    ensures var r := UpdateTranscription(segs, id, text);
      |r| == |segs| &&
      r[i] == AudioSegment(segs[i].id, segs[i].startTime, segs[i].endTime, segs[i].kind,
                           segs[i].labelText, Some(text), segs[i].isExcludedFromExport) &&
      forall j :: 0 <= j < |segs| && j != i ==> r[j] == segs[j]
  {
    UpdateWhereEffect(segs, id, SetTranscription(text));
  }

  /** The exclusion update sets the flag and nothing else. */
  lemma UpdateExclusionEffect(segs: seq<AudioSegment>, id: Id, excluded: bool, i: nat)
    requires i < |segs| && segs[i].id == id && forall j :: 0 <= j < i ==> segs[j].id != id
    ensures var r := UpdateExclusion(segs, id, excluded);
      |r| == |segs| &&
      r[i] == AudioSegment(segs[i].id, segs[i].startTime, segs[i].endTime, segs[i].kind,
                           segs[i].labelText, segs[i].transcription, excluded) &&
      forall j :: 0 <= j < |segs| && j != i ==> r[j] == segs[j]
  {
    UpdateWhereEffect(segs, id, SetExclusion(excluded));
  }

  /** The same identities and times, position by position. */
  ghost predicate SameFrame(a: seq<AudioSegment>, b: seq<AudioSegment>) {
    |a| == |b| &&
    forall j :: 0 <= j < |a| ==> a[j].id == b[j].id && a[j].startTime == b[j].startTime && a[j].endTime == b[j].endTime
  }

  /** A list in the same frame as a contiguous one is contiguous, with the same ids. */
  lemma SameFrameKeeps(a: seq<AudioSegment>, b: seq<AudioSegment>)
    requires SameFrame(a, b)
    ensures Contiguous(a) <==> Contiguous(b)
    ensures DistinctIds(a) <==> DistinctIds(b)
    ensures Timeline(a) <==> Timeline(b)
  {
  }

  /** An update whose record change keeps id and times keeps the frame. */
  lemma UpdateWhereKeepsFrame(segs: seq<AudioSegment>, id: Id, f: AudioSegment -> AudioSegment)
    requires forall s :: f(s).id == s.id && f(s).startTime == s.startTime && f(s).endTime == s.endTime
    ensures SameFrame(UpdateWhere(segs, id, f), segs)
  {
    IndexOfSpec(segs, id);
  }

  /** None of the four field updates moves a boundary or changes an identity. */
  lemma FieldUpdatesKeepFrame(segs: seq<AudioSegment>, id: Id, t: SegmentType, text: string, excluded: bool)
    ensures SameFrame(UpdateType(segs, id, t), segs)
    ensures SameFrame(UpdateLabel(segs, id, text), segs)
    ensures SameFrame(UpdateTranscription(segs, id, text), segs)
    ensures SameFrame(UpdateExclusion(segs, id, excluded), segs)
  {
    UpdateWhereKeepsFrame(segs, id, SetKind(t));
    UpdateWhereKeepsFrame(segs, id, SetLabel(text));
    UpdateWhereKeepsFrame(segs, id, SetTranscription(text));
    UpdateWhereKeepsFrame(segs, id, SetExclusion(excluded));
  }

  // ---------------------------------------------------------------------
  // moveBoundary
  // ---------------------------------------------------------------------

  /** Whether `index` names a boundary: a segment that has a right neighbour. */
  predicate IsBoundary(segs: seq<AudioSegment>, index: int) {
    0 <= index < |segs| - 1
  }

  /** The lowest allowed boundary: 0.1 s after the left neighbour's end, or 0.1 s at the first boundary. */
  function LowerLimit(segs: seq<AudioSegment>, index: int): real
    requires IsBoundary(segs, index)
  {
    if index > 0 then segs[index - 1].endTime + Margin else Margin
  }

  /** The highest allowed boundary: 0.1 s before the right segment's end. */
  function UpperLimit(segs: seq<AudioSegment>, index: int): real
    requires IsBoundary(segs, index)
  {
    segs[index + 1].endTime - Margin
  }

  /** `max(minTime, min(newTime, maxTime))`. */
  function ClampedBoundary(segs: seq<AudioSegment>, index: int, newTime: real): (c: real)
    requires IsBoundary(segs, index)
  {
    Max(LowerLimit(segs, index), Min(newTime, UpperLimit(segs, index)))
  }

  /** The clamp lands in the allowed range when there is one, and keeps a time already in it. */
  lemma ClampedBoundaryRange(segs: seq<AudioSegment>, index: int, newTime: real)
    requires IsBoundary(segs, index)
    ensures var c := ClampedBoundary(segs, index, newTime);
      c >= LowerLimit(segs, index) &&
      (LowerLimit(segs, index) <= UpperLimit(segs, index) ==> c <= UpperLimit(segs, index)) &&
      (LowerLimit(segs, index) <= newTime <= UpperLimit(segs, index) ==> c == newTime) &&
      (newTime > UpperLimit(segs, index) ==> c == Max(LowerLimit(segs, index), UpperLimit(segs, index)))
  {
  }

  /** `moveBoundary(index:newTime:)`: the left segment's end and the right one's start move together. */
  function MoveBoundary(segs: seq<AudioSegment>, index: int, newTime: real): seq<AudioSegment> {
    if !IsBoundary(segs, index) then segs
    else
      var c := ClampedBoundary(segs, index, newTime);
      segs[index := segs[index].(endTime := c)][index + 1 := segs[index + 1].(startTime := c)]
  }

  /**
   * Moving a boundary: no effect unless `index` has a right neighbour;
   * otherwise the count is the same, the left segment's end and the right
   * segment's start both become the clamped time, every other field of the
   * two segments is kept, and every other segment is unchanged.
   */
  lemma MoveBoundaryEffect(segs: seq<AudioSegment>, index: int, newTime: real)
    ensures !IsBoundary(segs, index) ==> MoveBoundary(segs, index, newTime) == segs
    ensures IsBoundary(segs, index) ==>
      var r := MoveBoundary(segs, index, newTime);
      var c := ClampedBoundary(segs, index, newTime);
      |r| == |segs| &&
      r[index] == AudioSegment(segs[index].id, segs[index].startTime, c, segs[index].kind,
                               segs[index].labelText, segs[index].transcription, segs[index].isExcludedFromExport) &&
      r[index + 1] == AudioSegment(segs[index + 1].id, c, segs[index + 1].endTime, segs[index + 1].kind,
                                   segs[index + 1].labelText, segs[index + 1].transcription,
                                   segs[index + 1].isExcludedFromExport) &&
      forall j :: 0 <= j < |segs| && j != index && j != index + 1 ==> r[j] == segs[j]
  {
  }

  /**
   * The clamp range depends only on end times the move does not touch, so
   * the last move wins: moving twice is moving once to the second time.
   */
  lemma MoveBoundaryLastWins(segs: seq<AudioSegment>, index: int, t1: real, t2: real)
    ensures MoveBoundary(MoveBoundary(segs, index, t1), index, t2) == MoveBoundary(segs, index, t2)
  {
    if IsBoundary(segs, index) {
      var m := MoveBoundary(segs, index, t1);
      assert LowerLimit(m, index) == LowerLimit(segs, index);
      assert UpperLimit(m, index) == UpperLimit(segs, index);
    }
  }

  /** Moving a boundary back to where it was, inside the allowed range, restores the list. */
  lemma MoveBoundaryRestores(segs: seq<AudioSegment>, index: int, t: real)
    requires IsBoundary(segs, index) && segs[index].endTime == segs[index + 1].startTime
    requires LowerLimit(segs, index) <= segs[index].endTime <= UpperLimit(segs, index)
    ensures MoveBoundary(MoveBoundary(segs, index, t), index, segs[index].endTime) == segs
  {
    MoveBoundaryLastWins(segs, index, t, segs[index].endTime);
    ClampedBoundaryRange(segs, index, segs[index].endTime);
    var r := MoveBoundary(segs, index, segs[index].endTime);
    assert r[index] == segs[index];
    assert r[index + 1] == segs[index + 1];
  }

  /** A move keeps a contiguous list contiguous, with the same first start and last end. */
  lemma MoveBoundaryContiguous(segs: seq<AudioSegment>, index: int, newTime: real)
    requires Contiguous(segs)
    ensures var r := MoveBoundary(segs, index, newTime);
      Contiguous(r) && |r| == |segs| &&
      (|segs| > 0 ==> r[0].startTime == segs[0].startTime && r[|r| - 1].endTime == segs[|segs| - 1].endTime)
  {
  }

  /**
   * On a contiguous timeline starting at 0, when the two segments around
   * the boundary together span at least 0.2 s, each lasts at least 0.1 s
   * after the move, wherever the boundary was asked to go.
   */
  lemma MoveBoundaryMinimumLength(segs: seq<AudioSegment>, index: int, newTime: real)
    requires Contiguous(segs) && IsBoundary(segs, index) && segs[0].startTime == 0.0
    requires segs[index + 1].endTime - segs[index].startTime >= 2.0 * Margin
    ensures var r := MoveBoundary(segs, index, newTime);
      r[index].Duration() >= Margin && r[index + 1].Duration() >= Margin
  {
    if index > 0 {
      assert segs[index - 1].endTime == segs[index].startTime;
    }
    ClampedBoundaryRange(segs, index, newTime);
  }

  // ---------------------------------------------------------------------
  // splitSegment
  // ---------------------------------------------------------------------

  /** Whether `t` lies strictly inside the segment. */
  function Inside(t: real): AudioSegment -> bool {
    (s: AudioSegment) => t > s.startTime && t < s.endTime
  }

  /** Whether the split point leaves more than 0.1 s on both sides. */
  predicate LeavesMargins(s: AudioSegment, t: real) {
    t - s.startTime > Margin && s.endTime - t > Margin
  }

  /** The two halves of a split: fresh identities, the type and export flag kept, no label or transcription. */
  function LeftHalf(s: AudioSegment, t: real, leftId: Id): AudioSegment {
    AudioSegment(leftId, s.startTime, t, s.kind, isExcludedFromExport := s.isExcludedFromExport)
  }

  function RightHalf(s: AudioSegment, t: real, rightId: Id): AudioSegment {
    AudioSegment(rightId, t, s.endTime, s.kind, isExcludedFromExport := s.isExcludedFromExport)
  }

  /**
   * `splitSegment(at:)`: the first segment strictly containing `t` is
   * replaced, in place, by its left and right halves; `leftId` and
   * `rightId` are the fresh identities the two `AudioSegment` initialisers
   * draw.
   */
  function Split(segs: seq<AudioSegment>, t: real, leftId: Id, rightId: Id): seq<AudioSegment> {
    match FirstIndex(segs, Inside(t))
    case None => segs
    case Some(i) =>
      if i < |segs| && LeavesMargins(segs[i], t) then
        segs[..i] + [LeftHalf(segs[i], t, leftId), RightHalf(segs[i], t, rightId)] + segs[i + 1..]
      else segs
  }

  /** The first position strictly containing `t` is `i`. */
  predicate FirstInside(segs: seq<AudioSegment>, t: real, i: nat) {
    i < |segs| && t > segs[i].startTime && t < segs[i].endTime &&
    forall j :: 0 <= j < i ==> !(t > segs[j].startTime && t < segs[j].endTime)
  }

  lemma FirstInsideFound(segs: seq<AudioSegment>, t: real, i: nat)
    requires FirstInside(segs, t, i)
    ensures FirstIndex(segs, Inside(t)) == Some(i)
  {
    FirstIndexSpec(segs, Inside(t));
    var k := FirstIndex(segs, Inside(t)).value;
    assert Inside(t)(segs[i]);
    assert !(k < i) && !(i < k);
  }

  /** Splitting changes nothing when no segment strictly contains `t`. */
  lemma SplitOutside(segs: seq<AudioSegment>, t: real, leftId: Id, rightId: Id)
    requires forall j :: 0 <= j < |segs| ==> !(t > segs[j].startTime && t < segs[j].endTime)
    ensures Split(segs, t, leftId, rightId) == segs
  {
    FirstIndexSpec(segs, Inside(t));
  }

  /**
   * Splitting at a point whose first containing segment is at `i`: no effect
   * when a piece would last 0.1 s or less; otherwise the list grows by one,
   * the segment becomes `[start, t]` and `[t, end]`, and the segments before
   * and after it are unchanged.
   */
  lemma SplitEffect(segs: seq<AudioSegment>, t: real, leftId: Id, rightId: Id, i: nat)
    requires FirstInside(segs, t, i)
    ensures var r := Split(segs, t, leftId, rightId);
      (!LeavesMargins(segs[i], t) ==> r == segs) &&
      (LeavesMargins(segs[i], t) ==>
        |r| == |segs| + 1 && r[..i] == segs[..i] && r[i + 2..] == segs[i + 1..] &&
        r[i] == AudioSegment(leftId, segs[i].startTime, t, segs[i].kind, None, None, segs[i].isExcludedFromExport) &&
        r[i + 1] == AudioSegment(rightId, t, segs[i].endTime, segs[i].kind, None, None, segs[i].isExcludedFromExport) &&
        r[i].Duration() > Margin && r[i + 1].Duration() > Margin)
  {
    FirstInsideFound(segs, t, i);
    var r := Split(segs, t, leftId, rightId);
    if LeavesMargins(segs[i], t) {
      assert r[i + 2..] == segs[i + 1..];
    }
  }

  /** Splitting keeps a contiguous list contiguous, with the same first start and last end. */
  lemma SplitContiguous(segs: seq<AudioSegment>, t: real, leftId: Id, rightId: Id)
    requires Contiguous(segs)
    ensures var r := Split(segs, t, leftId, rightId);
      Contiguous(r) &&
      (|segs| > 0 ==> |r| > 0 && r[0].startTime == segs[0].startTime && r[|r| - 1].endTime == segs[|segs| - 1].endTime)
  {
    FirstIndexSpec(segs, Inside(t));
    var r := Split(segs, t, leftId, rightId);
    if r != segs {
      var i := FirstIndex(segs, Inside(t)).value;
      assert forall j :: 0 <= j < i ==> r[j] == segs[j];
      assert forall j :: i + 2 <= j < |r| ==> r[j] == segs[j - 1];
      forall j | 0 <= j < |r| - 1
        ensures r[j].endTime == r[j + 1].startTime
      {
        if j + 1 < i {
        } else if j + 1 == i {
        } else if j == i {
        } else if j == i + 1 {
          assert r[j + 1] == segs[i + 1];
        } else {
          assert r[j] == segs[j - 1] && r[j + 1] == segs[j];
        }
      }
    }
  }

  /** With two identities not in use, splitting keeps identities pairwise distinct. */
  lemma SplitDistinctIds(segs: seq<AudioSegment>, t: real, leftId: Id, rightId: Id)
    requires DistinctIds(segs) && leftId != rightId
    requires forall j :: 0 <= j < |segs| ==> segs[j].id != leftId && segs[j].id != rightId
    ensures DistinctIds(Split(segs, t, leftId, rightId))
  {
    FirstIndexSpec(segs, Inside(t));
    var r := Split(segs, t, leftId, rightId);
    if r != segs {
      var i := FirstIndex(segs, Inside(t)).value;
      assert forall j :: 0 <= j < i ==> r[j] == segs[j];
      assert forall j :: i + 2 <= j < |r| ==> r[j] == segs[j - 1];
      forall a, b | 0 <= a < b < |r|
        ensures r[a].id != r[b].id
      {
        if a >= i + 2 {
          assert r[a].id == segs[a - 1].id && r[b].id == segs[b - 1].id;
        } else if b >= i + 2 {
          assert r[b].id == segs[b - 1].id;
          if a < i { assert r[a].id == segs[a].id; }
        }
      }
    }
  }

  /** Splitting a single 10 s segment at 5 s gives [0, 5] and [5, 10] of the same type. */
  lemma SplitExample(id: Id, leftId: Id, rightId: Id)
    ensures Split([AudioSegment(id, 0.0, 10.0, Performance)], 5.0, leftId, rightId) ==
      [AudioSegment(leftId, 0.0, 5.0, Performance), AudioSegment(rightId, 5.0, 10.0, Performance)]
  {
    var segs := [AudioSegment(id, 0.0, 10.0, Performance)];
    assert Inside(5.0)(segs[0]);
  }

  // ---------------------------------------------------------------------
  // mergeWithNext
  // ---------------------------------------------------------------------

  /** Both transcriptions joined by a newline; otherwise whichever exists. */
  function MergedTranscription(first: Option<string>, next: Option<string>): Option<string> {
    if first.Some? && next.Some? then Some(first.value + "\n" + next.value)
    else OrElse(first, next)
  }

  lemma MergedTranscriptionCases(first: Option<string>, next: Option<string>)
    ensures first.Some? && next.Some? ==> MergedTranscription(first, next) == Some(first.value + "\n" + next.value)
    ensures first.Some? && next.None? ==> MergedTranscription(first, next) == first
    ensures first.None? ==> MergedTranscription(first, next) == next
    ensures MergedTranscription(first, next).None? <==> first.None? && next.None?
  {
  }

  /** The two transcriptions of the merge test join into "Part 1\nPart 2". */
  lemma MergedTranscriptionExample()
    ensures MergedTranscription(Some("Part 1"), Some("Part 2")) == Some("Part 1\nPart 2")
  {
    assert "Part 1" + "\n" + "Part 2" == "Part 1\nPart 2";
  }

  /** The merged segment: the first one's id, start, type and flag, the next one's end, the left label first. */
  function Merged(first: AudioSegment, next: AudioSegment): AudioSegment {
    AudioSegment(first.id, first.startTime, next.endTime, first.kind,
                 OrElse(first.labelText, next.labelText),
                 MergedTranscription(first.transcription, next.transcription),
                 first.isExcludedFromExport)
  }

  /** `mergeWithNext(id:)`: the segment with the id and its right neighbour become one. */
  function MergeWithNext(segs: seq<AudioSegment>, id: Id): seq<AudioSegment> {
    match IndexOf(segs, id)
    case None => segs
    case Some(i) =>
      if i + 1 < |segs| then segs[..i] + [Merged(segs[i], segs[i + 1])] + segs[i + 2..]
      else segs
  }

  /** Whether merging with `id` changes anything: the id is present and not on the last segment. */
  predicate CanMerge(segs: seq<AudioSegment>, id: Id) {
    IndexOf(segs, id).Some? && IndexOf(segs, id).value + 1 < |segs|
  }

  /** Merging changes nothing for an unknown id or the last segment. */
  lemma MergeNoOp(segs: seq<AudioSegment>, id: Id)
    ensures !CanMerge(segs, id) ==> MergeWithNext(segs, id) == segs
    ensures (forall j :: 0 <= j < |segs| ==> segs[j].id != id) ==> !CanMerge(segs, id)
    ensures |segs| > 0 && segs[|segs| - 1].id == id && (forall j :: 0 <= j < |segs| - 1 ==> segs[j].id != id) ==>
      !CanMerge(segs, id)
  {
    IndexOfSpec(segs, id);
  }

  /**
   * Merging the first segment with the id, at `i`, into its right
   * neighbour: the list shrinks by one, the segments before and after the
   * pair are unchanged, and the pair becomes one segment with the first
   * one's identity, start, type and export flag, the second one's end, the
   * first label present and the joined transcriptions.
   */
  lemma MergeEffect(segs: seq<AudioSegment>, id: Id, i: nat)
    requires i + 1 < |segs| && segs[i].id == id && forall j :: 0 <= j < i ==> segs[j].id != id
    ensures CanMerge(segs, id)
    ensures var r := MergeWithNext(segs, id);
      |r| == |segs| - 1 && r[..i] == segs[..i] && r[i + 1..] == segs[i + 2..] &&
      r[i] == AudioSegment(id, segs[i].startTime, segs[i + 1].endTime, segs[i].kind,
                           OrElse(segs[i].labelText, segs[i + 1].labelText),
                           MergedTranscription(segs[i].transcription, segs[i + 1].transcription),
                           segs[i].isExcludedFromExport)
  {
    IndexOfSpec(segs, id);
    var k := IndexOf(segs, id).value;
    assert !(k < i) && !(i < k);
    var r := MergeWithNext(segs, id);
    assert r[i + 1..] == segs[i + 2..];
  }

  /** Merging keeps a contiguous list contiguous, with the same first start and last end. */
  lemma MergeContiguous(segs: seq<AudioSegment>, id: Id)
    requires Contiguous(segs)
    ensures var r := MergeWithNext(segs, id);
      Contiguous(r) &&
      (|segs| > 0 ==> |r| > 0 && r[0].startTime == segs[0].startTime && r[|r| - 1].endTime == segs[|segs| - 1].endTime)
  {
    IndexOfSpec(segs, id);
    var r := MergeWithNext(segs, id);
    if CanMerge(segs, id) {
      var i := IndexOf(segs, id).value;
      assert forall j :: 0 <= j < i ==> r[j] == segs[j];
      assert forall j :: i + 1 <= j < |r| ==> r[j] == segs[j + 1];
      forall j | 0 <= j < |r| - 1
        ensures r[j].endTime == r[j + 1].startTime
      {
        if j + 1 < i {
        } else if j + 1 == i {
        } else if j == i {
          assert r[j + 1] == segs[i + 2];
        } else {
          assert r[j] == segs[j + 1] && r[j + 1] == segs[j + 2];
        }
      }
    }
  }

  /** Merging keeps identities pairwise distinct. */
  lemma MergeDistinctIds(segs: seq<AudioSegment>, id: Id)
    requires DistinctIds(segs)
    ensures DistinctIds(MergeWithNext(segs, id))
  {
    IndexOfSpec(segs, id);
    var r := MergeWithNext(segs, id);
    if CanMerge(segs, id) {
      var i := IndexOf(segs, id).value;
      assert forall j :: 0 <= j < i ==> r[j] == segs[j];
      assert forall j :: i + 1 <= j < |r| ==> r[j] == segs[j + 1];
      assert r[i].id == segs[i].id;
      forall a, b | 0 <= a < b < |r|
        ensures r[a].id != r[b].id
      {
        var a' := if a <= i then a else a + 1;
        var b' := if b <= i then b else b + 1;
        assert r[a].id == segs[a'].id && r[b].id == segs[b'].id;
      }
    }
  }

  // ---------------------------------------------------------------------
  // The editable timeline
  // ---------------------------------------------------------------------

  /** Every segment runs forward: it does not end before it starts. */
  ghost predicate Forward(segs: seq<AudioSegment>) {
    forall j :: 0 <= j < |segs| ==> segs[j].startTime <= segs[j].endTime
  }

  /** Every segment lasts at least `Margin`. */
  ghost predicate AtLeastMargin(segs: seq<AudioSegment>) {
    forall j :: 0 <= j < |segs| ==> segs[j].Duration() >= Margin
  }

  /**
   * The shape of a timeline the editor works on: it starts at 0 and has no
   * gaps, every segment runs forward, and once there are two segments or
   * more each lasts at least `Margin`. The analysis publishes such lists,
   * and the three edits below keep them so; in particular no edit ever
   * leaves a reversed segment.
   */
  ghost predicate Timeline(segs: seq<AudioSegment>) {
    Contiguous(segs) && (|segs| > 0 ==> segs[0].startTime == 0.0) && Forward(segs) &&
    (|segs| >= 2 ==> AtLeastMargin(segs))
  }

  /**
   * Moving a boundary keeps a timeline: `minTime` is the left segment's
   * start plus 0.1 s (0.1 s at the first boundary, where the start is 0),
   * `maxTime` the right segment's end minus 0.1 s, and the pair spans at
   * least 0.2 s, so the clamped time leaves both at least 0.1 s.
   */
  lemma MoveBoundaryTimeline(segs: seq<AudioSegment>, index: int, newTime: real)
    requires Timeline(segs)
    ensures Timeline(MoveBoundary(segs, index, newTime))
  {
    MoveBoundaryContiguous(segs, index, newTime);
    MoveBoundaryEffect(segs, index, newTime);
    if IsBoundary(segs, index) {
      assert segs[index].Duration() >= Margin && segs[index + 1].Duration() >= Margin;
      MoveBoundaryMinimumLength(segs, index, newTime);
    }
  }

  /** Splitting keeps a timeline: the halves each last more than 0.1 s and replace their segment in place. */
  lemma SplitTimeline(segs: seq<AudioSegment>, t: real, leftId: Id, rightId: Id)
    requires Timeline(segs)
    ensures Timeline(Split(segs, t, leftId, rightId))
  {
    SplitContiguous(segs, t, leftId, rightId);
    FirstIndexSpec(segs, Inside(t));
    var r := Split(segs, t, leftId, rightId);
    if r != segs {
      var i := FirstIndex(segs, Inside(t)).value;
      SplitEffect(segs, t, leftId, rightId, i);
      forall j | 0 <= j < |r|
        ensures r[j].Duration() >= Margin
      {
        if j < i {
          assert r[j] == r[..i][j] == segs[j];
        } else if j > i + 1 {
          assert r[j] == r[i + 2..][j - i - 2] == segs[j - 1];
        }
      }
    }
  }

  /** Merging keeps a timeline: the merged segment lasts as long as the two it replaces. */
  lemma MergeTimeline(segs: seq<AudioSegment>, id: Id)
    requires Timeline(segs)
    ensures Timeline(MergeWithNext(segs, id))
  {
    MergeContiguous(segs, id);
    IndexOfSpec(segs, id);
    var r := MergeWithNext(segs, id);
    if CanMerge(segs, id) {
      var i := IndexOf(segs, id).value;
      MergeEffect(segs, id, i);
      assert segs[i].endTime == segs[i + 1].startTime;
      assert segs[i].Duration() >= Margin && segs[i + 1].Duration() >= Margin;
      forall j | 0 <= j < |r|
        ensures r[j].startTime <= r[j].endTime && (|r| >= 2 ==> r[j].Duration() >= Margin)
      {
        if j < i {
          assert r[j] == r[..i][j] == segs[j];
        } else if j > i {
          assert r[j] == r[i + 1..][j - i - 1] == segs[j + 1];
        }
      }
    }
  }
}
