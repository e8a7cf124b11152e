/**
 * The value-level pieces of the transcription workflow: the `mm:ss` time
 * stamp, the choice of segments a batch run transcribes, the write-back of
 * the texts a run returns, its progress figure, and the text of the
 * transcription export. The view model's methods (ViewModel.MainViewModel)
 * run the loops and are proved equal to these functions.
 */
module TranscriptionText {
  import opened Wrappers
  import opened AudioSegmentModel
  import opened SegmentEditing
  import opened Arith

  // ---------------------------------------------------------------------
  // formatTime
  // ---------------------------------------------------------------------

  /** Swift's `/` on `Int`: the quotient truncated toward zero. */
  function SwiftDiv(a: int, b: int): int
    requires b > 0
  {
    if a >= 0 then a / b else -((-a) / b)
  }

  /** Swift's `%` on `Int`: the remainder takes the dividend's sign. */
  function SwiftRem(a: int, b: int): int
    requires b > 0
  {
    a - SwiftDiv(a, b) * b
  }

  lemma SwiftDivRem(a: int, b: int)
    requires b > 0
    ensures SwiftDiv(a, b) * b + SwiftRem(a, b) == a
    ensures a >= 0 ==> 0 <= SwiftRem(a, b) < b && SwiftDiv(a, b) == a / b
    ensures a < 0 ==> -b < SwiftRem(a, b) <= 0
  {
    if a < 0 {
      assert (-a) / b * b + (-a) % b == -a;
    }
  }

  function DigitChar(d: nat): char
    requires d < 10
  {
    "0123456789"[d]
  }

  /** The decimal spelling of a natural, without leading zeros. */
  function Digits(n: nat): (s: string)
    ensures |s| >= 1 && AllDigits(s)
    decreases n
  {
    if n < 10 then [DigitChar(n)] else Digits(n / 10) + [DigitChar(n % 10)]
  }

  predicate IsDigit(c: char) {
    '0' <= c <= '9'
  }

  predicate AllDigits(s: string) {
    forall k :: 0 <= k < |s| ==> IsDigit(s[k])
  }

  /** `%02d`: at least two characters, zero-padded after the sign. */
  function Pad2(n: int): string {
    if n < 0 then "-" + Digits(-n)
    else if n < 10 then "0" + Digits(n)
    else Digits(n)
  }

  /** `formatTime(_:)`: whole minutes and the remaining seconds of the truncated time. */
  function FormatTime(time: real): string {
    var total := Truncate(time);
    Pad2(SwiftDiv(total, 60)) + ":" + Pad2(SwiftRem(total, 60))
  }

  /** The value of a string of decimal digits. */
  function ParseNat(s: string): nat
    requires AllDigits(s)
  {
    if |s| == 0 then 0 else ParseNat(s[..|s| - 1]) * 10 + (s[|s| - 1] as int - '0' as int)
  }

  lemma {:induction false} ParseDigits(n: nat)
    ensures ParseNat(Digits(n)) == n
    decreases n
  {
    if n >= 10 {
      var s := Digits(n);
      assert s[..|s| - 1] == Digits(n / 10);
      ParseDigits(n / 10);
    }
  }

  lemma {:induction false} ParseLeadingZero(s: string)
    requires AllDigits(s)
    ensures AllDigits("0" + s) && ParseNat("0" + s) == ParseNat(s)
    decreases |s|
  {
    if |s| > 0 {
      assert ("0" + s)[..|"0" + s| - 1] == "0" + s[..|s| - 1];
      ParseLeadingZero(s[..|s| - 1]);
    }
  }

  /** A non-negative field is spelled in digits only and reads back as its value. */
  lemma Pad2Reads(n: nat)
    ensures AllDigits(Pad2(n)) && ParseNat(Pad2(n)) == n
    ensures n < 100 ==> |Pad2(n)| == 2
    ensures n >= 100 ==> |Pad2(n)| >= 3
  {
    ParseDigits(n);
    if n < 10 {
      ParseLeadingZero(Digits(n));
    }
    if n >= 10 {
      DigitsLength(n);
    }
  }

  lemma {:induction false} DigitsLength(n: nat)
    ensures n >= 10 ==> |Digits(n)| >= 2
    ensures n >= 100 ==> |Digits(n)| >= 3
    ensures n < 100 ==> |Digits(n)| <= 2
    decreases n
  {
    if n >= 10 {
      DigitsLength(n / 10);
    }
  }

  /** The position of the first ':' in `s`, if any. */
  function ColonAt(s: string): Option<nat> {
    if |s| == 0 then None
    else if s[0] == ':' then Some(0)
    else match ColonAt(s[1..])
      case None => None
      case Some(k) => Some(k + 1)
  }

  lemma {:induction false} ColonAfterDigits(a: string, b: string)
    requires AllDigits(a)
    ensures ColonAt(a + ":" + b) == Some(|a|)
    decreases |a|
  {
    if |a| > 0 {
      assert (a + ":" + b)[1..] == a[1..] + ":" + b;
      ColonAfterDigits(a[1..], b);
    }
  }

  /** Reading an `m:ss` stamp back as a number of seconds. */
  function ParseClock(s: string): Option<nat> {
    match ColonAt(s)
    case None => None
    case Some(k) =>
      if k < |s| && AllDigits(s[..k]) && AllDigits(s[k + 1..]) && |s[..k]| > 0 && |s[k + 1..]| > 0
      then Some(ParseNat(s[..k]) * 60 + ParseNat(s[k + 1..]))
      else None
  }

  /**
   * For a non-negative time the stamp is two-digit seconds from 00 to 59
   * after a colon, at least two digits of minutes before it (more from 100
   * minutes on), and it reads back as the whole number of seconds.
   */
  lemma FormatTimeRoundTrip(time: real)
    requires time >= 0.0
    ensures var total := Truncate(time);
      var mm := Pad2(total / 60);
      var ss := Pad2(total % 60);
      total >= 0 && FormatTime(time) == mm + ":" + ss &&
      |ss| == 2 && ParseNat(ss) < 60 && |mm| >= 2 && (total >= 6000 ==> |mm| >= 3) &&
      ParseClock(FormatTime(time)) == Some(total)
  {
    var total := Truncate(time);
    SwiftDivRem(total, 60);
    var mm := Pad2(total / 60);
    var ss := Pad2(total % 60);
    Pad2Reads(total / 60);
    Pad2Reads(total % 60);
    ColonAfterDigits(mm, ss);
    var s := mm + ":" + ss;
    assert s[..|mm|] == mm;
    assert s[|mm| + 1..] == ss;
  }

  /** The stamps of the start times in the segment tests and a long recording. */
  lemma FormatTimeExamples()
    ensures FormatTime(0.0) == "00:00"
    ensures FormatTime(65.9) == "01:05"
    ensures FormatTime(6000.0) == "100:00"
  {
    assert Truncate(65.9) == 65;
    assert Truncate(6000.0) == 6000;
    assert Digits(100) == Digits(10) + "0";
  }

  // ---------------------------------------------------------------------
  // Batch transcription
  // ---------------------------------------------------------------------

  /** Only Conversation and Performance segments are transcribed. */
  predicate Transcribable(s: AudioSegment) {
    s.kind == Conversation || s.kind == Performance
  }

  /** A batch target: transcribable and not yet transcribed. */
  predicate IsBatchTarget(s: AudioSegment) {
    Transcribable(s) && s.transcription.None?
  }

  /** The targets of `batchTranscribe()`, in list order. */
  function BatchTargets(segs: seq<AudioSegment>): seq<AudioSegment> {
    if |segs| == 0 then []
    else (if IsBatchTarget(segs[0]) then [segs[0]] else []) + BatchTargets(segs[1..])
  }

  /**
   * The targets are exactly the segments that qualify, drawn from the list
   * and never more of them; selecting from a concatenation concatenates the
   * selections, so list order is kept.
   */
  lemma {:induction false} BatchTargetsSpec(segs: seq<AudioSegment>)
    ensures forall s :: s in BatchTargets(segs) <==> s in segs && IsBatchTarget(s)
    ensures |BatchTargets(segs)| <= |segs|
    ensures BatchTargets(BatchTargets(segs)) == BatchTargets(segs)
  {
    if |segs| > 0 {
      BatchTargetsSpec(segs[1..]);
      assert forall s :: s in segs <==> s == segs[0] || s in segs[1..];
      if IsBatchTarget(segs[0]) {
        BatchTargetsAppend([segs[0]], BatchTargets(segs[1..]));
      } else {
        assert BatchTargets(segs) == BatchTargets(segs[1..]);
      }
    }
  }

  lemma {:induction false} BatchTargetsAppend(a: seq<AudioSegment>, b: seq<AudioSegment>)
    ensures BatchTargets(a + b) == BatchTargets(a) + BatchTargets(b)
    decreases |a|
  {
    if |a| > 0 {
      assert (a + b)[1..] == a[1..] + b;
      BatchTargetsAppend(a[1..], b);
    } else {
      assert a + b == b;
    }
  }

  /** Each target's transcription outcome: the text, or None when the service failed. */
  type Transcriber = (real, real) -> Option<string>

  /** The list after the texts of `targets` are written back one by one; failures change nothing. */
  function WriteBack(segs: seq<AudioSegment>, targets: seq<AudioSegment>, transcribe: Transcriber): seq<AudioSegment>
    decreases |targets|
  {
    if |targets| == 0 then segs
    else
      var t := targets[|targets| - 1];
      var before := WriteBack(segs, targets[..|targets| - 1], transcribe);
      match transcribe(t.startTime, t.endTime)
      case None => before
      case Some(text) => UpdateTranscription(before, t.id, text)
  }

  /** The number of targets whose transcription succeeded. */
  function Successes(targets: seq<AudioSegment>, transcribe: Transcriber): (n: nat)
    ensures n <= |targets|
  {
    if |targets| == 0 then 0
    else Successes(targets[..|targets| - 1], transcribe) + (if transcribe(targets[|targets| - 1].startTime, targets[|targets| - 1].endTime).Some? then 1 else 0)
  }

  /** The progress shown after the first `k` targets: successes so far over the target count. */
  function Progress(targets: seq<AudioSegment>, k: nat, transcribe: Transcriber): real
    requires k <= |targets|
  {
    if |targets| == 0 then 0.0 else Successes(targets[..k], transcribe) as real / |targets| as real
  }

  /** Progress stays within [0, 1] and never goes down as targets are processed. */
  lemma ProgressBounds(targets: seq<AudioSegment>, j: nat, k: nat, transcribe: Transcriber)
    requires j <= k <= |targets|
    ensures 0.0 <= Progress(targets, j, transcribe) <= Progress(targets, k, transcribe) <= 1.0
  {
    if |targets| > 0 {
      SuccessesMonotone(targets[..k], j, transcribe);
      assert targets[..k][..j] == targets[..j];
      var n := |targets| as real;
      var a := Successes(targets[..j], transcribe) as real;
      var b := Successes(targets[..k], transcribe) as real;
      DivMonotone(a, b, n);
      DivMonotone(0.0, a, n);
      DivAtMost(b, 1.0, n);
    }
  }

  lemma {:induction false} SuccessesMonotone(targets: seq<AudioSegment>, j: nat, transcribe: Transcriber)
    requires j <= |targets|
    ensures Successes(targets[..j], transcribe) <= Successes(targets, transcribe)
    decreases |targets|
  {
    if j < |targets| {
      assert targets[..|targets| - 1][..j] == targets[..j];
      SuccessesMonotone(targets[..|targets| - 1], j, transcribe);
    } else {
      assert targets[..j] == targets;
    }
  }

  /** Writing back keeps identities, times, types, labels and flags; only transcriptions change. */
  lemma {:induction false} WriteBackKeepsFrame(segs: seq<AudioSegment>, targets: seq<AudioSegment>, transcribe: Transcriber)
    ensures SameFrame(WriteBack(segs, targets, transcribe), segs)
    ensures forall j :: 0 <= j < |segs| ==>
      var w := WriteBack(segs, targets, transcribe)[j];
      w.kind == segs[j].kind && w.labelText == segs[j].labelText &&
      w.isExcludedFromExport == segs[j].isExcludedFromExport
    decreases |targets|
  {
    if |targets| > 0 {
      var t := targets[|targets| - 1];
      var before := WriteBack(segs, targets[..|targets| - 1], transcribe);
      WriteBackKeepsFrame(segs, targets[..|targets| - 1], transcribe);
      match transcribe(t.startTime, t.endTime)
      case None =>
      case Some(text) =>
        UpdateWhereEffect(before, t.id, SetTranscription(text));
        IndexOfSpec(before, t.id);
    }
  }

  /** A segment the batch does not target keeps its transcription, when identities are distinct. */
  lemma {:induction false} WriteBackOnlyTargets(segs: seq<AudioSegment>, targets: seq<AudioSegment>, transcribe: Transcriber, j: nat)
    requires DistinctIds(segs) && j < |segs|
    requires forall k :: 0 <= k < |targets| ==> targets[k].id != segs[j].id
    ensures |WriteBack(segs, targets, transcribe)| == |segs| && WriteBack(segs, targets, transcribe)[j] == segs[j]
    decreases |targets|
  {
    WriteBackKeepsFrame(segs, targets, transcribe);
    if |targets| > 0 {
      var t := targets[|targets| - 1];
      var before := WriteBack(segs, targets[..|targets| - 1], transcribe);
      WriteBackOnlyTargets(segs, targets[..|targets| - 1], transcribe, j);
      WriteBackKeepsFrame(segs, targets[..|targets| - 1], transcribe);
      match transcribe(t.startTime, t.endTime)
      case None =>
      case Some(text) =>
        UpdateWhereEffect(before, t.id, SetTranscription(text));
        IndexOfSpec(before, t.id);
    }
  }

  // ---------------------------------------------------------------------
  // exportAllTranscriptions
  // ---------------------------------------------------------------------

  /** The segments that have a transcription, in list order. */
  function Transcribed(segs: seq<AudioSegment>): seq<AudioSegment> {
    if |segs| == 0 then []
    else (if segs[0].transcription.Some? then [segs[0]] else []) + Transcribed(segs[1..])
  }

  lemma {:induction false} TranscribedSpec(segs: seq<AudioSegment>)
    ensures forall s :: s in Transcribed(segs) <==> s in segs && s.transcription.Some?
    ensures Transcribed(segs) == [] <==> forall j :: 0 <= j < |segs| ==> segs[j].transcription.None?
  {
    if |segs| > 0 {
      TranscribedSpec(segs[1..]);
      assert forall s :: s in segs <==> s == segs[0] || s in segs[1..];
      assert forall j :: 1 <= j < |segs| ==> segs[j] == segs[1..][j - 1];
    }
  }

  /** The header: the file name, then the generation date (a parameter: it reads the clock). */
  function ExportHeader(fileName: string, generated: string): string {
    "Project: " + fileName + "\n" + "Generated: " + generated + "\n\n"
  }

  /** One entry: `[mm:ss] label:` (the label defaulting to "Segment"), the text, a blank line. */
  function ExportEntry(s: AudioSegment): string {
    "[" + FormatTime(s.startTime) + "] " + s.labelText.GetOr("Segment") + ":\n" +
    s.transcription.GetOr("") + "\n\n"
  }

  /** The strings `f` gives the segments, joined in list order. */
  function ConcatMap(segs: seq<AudioSegment>, f: AudioSegment -> string): string
    decreases |segs|
  {
    if |segs| == 0 then "" else ConcatMap(segs[..|segs| - 1], f) + f(segs[|segs| - 1])
  }

  /** The entries of `segs`, in order. */
  function ExportEntries(segs: seq<AudioSegment>): string {
    ConcatMap(segs, ExportEntry)
  }

  /** The exported text; None when nothing is transcribed (the source then only reports an error). */
  function ExportText(segs: seq<AudioSegment>, fileName: string, generated: string): Option<string> {
    var chosen := Transcribed(segs);
    if |chosen| == 0 then None else Some(ExportHeader(fileName, generated) + ExportEntries(chosen))
  }

  lemma {:induction false} ConcatMapAppend(a: seq<AudioSegment>, b: seq<AudioSegment>, f: AudioSegment -> string)
    ensures ConcatMap(a + b, f) == ConcatMap(a, f) + ConcatMap(b, f)
    decreases |b|
  {
    if |b| > 0 {
      var b' := b[..|b| - 1];
      var last := f(b[|b| - 1]);
      assert (a + b)[..|a + b| - 1] == a + b';
      assert (a + b)[|a + b| - 1] == b[|b| - 1];
      ConcatMapAppend(a, b', f);
      assert ConcatMap(a + b, f) == (ConcatMap(a, f) + ConcatMap(b', f)) + last;
    } else {
      assert a + b == a;
    }
  }

  lemma {:induction false} TranscribedAppend(a: seq<AudioSegment>, b: seq<AudioSegment>)
    ensures Transcribed(a + b) == Transcribed(a) + Transcribed(b)
    decreases |a|
  {
    if |a| > 0 {
      assert (a + b)[1..] == a[1..] + b;
      TranscribedAppend(a[1..], b);
    } else {
      assert a + b == b;
    }
  }

  lemma StringAssoc(x: string, y: string, z: string)
    ensures x + (y + z) == (x + y) + z
  {
  }

  lemma ExportTextUnfold(segs: seq<AudioSegment>, fileName: string, generated: string)
    requires Transcribed(segs) != []
    ensures ExportText(segs, fileName, generated) ==
      Some(ExportHeader(fileName, generated) + ExportEntries(Transcribed(segs)))
  {
  }

  /**
   * The export of a list made of two parts is the export of the first part
   * followed by the entries of the second: segments are exported in list
   * order, one entry each, and untranscribed ones contribute nothing.
   */
  lemma ExportTextOrder(a: seq<AudioSegment>, b: seq<AudioSegment>, fileName: string, generated: string)
    requires Transcribed(a) != []
    ensures ExportText(a + b, fileName, generated) ==
      Some(ExportText(a, fileName, generated).value + ExportEntries(Transcribed(b)))
  {
    var ta, tb := Transcribed(a), Transcribed(b);
    var h := ExportHeader(fileName, generated);
    TranscribedAppend(a, b);
    ConcatMapAppend(ta, tb, ExportEntry);
    ExportTextUnfold(a + b, fileName, generated);
    ExportTextUnfold(a, fileName, generated);
    StringAssoc(h, ExportEntries(ta), ExportEntries(tb));
  }

  /** A single transcribed segment exports as the header followed by its one entry. */
  lemma ExportSingle(s: AudioSegment, fileName: string, generated: string)
    requires s.transcription.Some?
    ensures ExportText([s], fileName, generated) == Some(ExportHeader(fileName, generated) + ExportEntry(s))
    ensures ExportEntry(s) == "[" + FormatTime(s.startTime) + "] " + s.labelText.GetOr("Segment") + ":\n" + s.transcription.value + "\n\n"
  {
    assert Transcribed([s]) == [s];
    assert [s][..0] == [];
    assert ExportEntries([s]) == ConcatMap([], ExportEntry) + ExportEntry(s);
    assert "" + ExportEntry(s) == ExportEntry(s);
  }

  /** Nothing is exported exactly when no segment has a transcription. */
  lemma ExportTextNone(segs: seq<AudioSegment>, fileName: string, generated: string)
    ensures ExportText(segs, fileName, generated).None? <==> forall j :: 0 <= j < |segs| ==> segs[j].transcription.None?
  {
    TranscribedSpec(segs);
  }
}
