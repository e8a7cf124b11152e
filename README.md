# RehearsalLink core, modelled in Dafny

RehearsalLink is a macOS rehearsal-recording tool. It loads a recording and
draws its waveform. It cuts the recording into Performance, Conversation and
Silence segments using per-window loudness and spectral features. Users edit
the segment list on a timeline (retype, relabel, move boundaries, split,
merge) and loop playback over the selected segment. Segments are sent to a
speech recogniser, the texts are exported, and notes are rendered from a
small Markdown dialect to HTML.

This project models that core and proves its properties:

- `audio_segment.dfy` (module `AudioSegmentModel`): the segment record and its type.
- `waveform.dfy` (`Waveform`): the in-memory and streaming min/max downsamplers, proved to agree.
- `features.dfy` (`FeatureExtraction`): the window schedule, zero-crossing rate and spectral bookkeeping of `extractFeatures`.
- `segmentation.dfy` (`Segmentation`): classification, the labelling scan and the smoother.
- `segment_editing.dfy` (`SegmentEditing`): the timeline edits as functions on segment lists.
- `transcription.dfy` (`TranscriptionText`): time formatting, batch targets and write-back, and the export text.
- `rich_text.dfy` (`RichText`): `renderMarkdownToHTML`.
- `audio_player.dfy` (`AudioPlayback`): the player's position and loop state machine. It is a class whose methods are proved equal to step functions.
- `main_view_model.dfy` (`ViewModel`): the view model class.
  - Its methods edit the segment list in place and are proved equal to the editing functions.
  - They keep an invariant `Valid()`: zoom in [1, 50], distinct ids below the id counter, a timeline (contiguous from 0, every segment forward, at least 0.1 s long when there are two or more), the player's loop settings in step with the selection, and a well-formed player state (in particular, a loop range that is never reversed).
- `wrappers.dfy` and `arith.dfy`: `Option` and a few arithmetic facts, including Swift's truncating `Int(_:)`.

Swift's `min(x, y)` is modelled as `y < x ? y : x` and `max(x, y)` as `y >= x ? y : x` (`Arith.Min` and `Arith.Max` on doubles, `AudioPlayback.MinInt` and `AudioPlayback.MaxInt` on frame numbers). `Int(_:)` on a `Double` truncates toward zero. Integer `/` and `%` truncate.

Where the sources disagree with each other, the model follows the code that uses the data:

- `AudioSegment.swift` declares five fields. The view model reads and writes seven (`transcription` and `isExcludedFromExport` as well), so the model's segment has seven.
- `performLoadAudio` calls `audioPlayerService.load(url:)` and hands `data.pcmBuffer` to `extractFeatures`, which takes a file. The model loads the player with the file and duration (as `load(data:)` does). It takes the waveform and the features from the one decoded buffer, the features from its first channel (`ViewModel.FirstChannel`). `LoadAudio` requires the player's file to have the buffer's frame count at the analysis's sample rate, and the duration to be frames over rate, as `AudioData.init` computes it.
- The comment in `smoothSegments` speaks of 5 seconds; the code uses 3.0, and so does the model.
- The analyzer's segmentation test labels its last five points "Conversation", but their RMS of 0.02 is above the performance threshold of 0.015. The code classifies them as Performance, which `Segmentation.ScenarioSegments` states; the test only checks that there are at least two segments.

## Model

| member | source | states |
|---|---|---|
| AudioSegmentModel.RawValueRoundTrip | Sources/RehearsalLink/Models/AudioSegment.swift:3-7 | decoding the raw value of any SegmentType gives back that case |
| AudioSegmentModel.FromRawValueExact | Sources/RehearsalLink/Models/AudioSegment.swift:3-7 | `SegmentType(rawValue:)` accepts exactly "performance", "conversation" and "silence", and re-encoding an accepted string gives the same string |
| AudioSegmentModel.RawValueInjective | Sources/RehearsalLink/Models/AudioSegment.swift:3-7 | distinct cases have distinct raw values |
| AudioSegmentModel.DurationSpan | Sources/RehearsalLink/Models/AudioSegment.swift:24-26 | start plus duration is the end; the duration is non-negative exactly when start <= end |
| AudioSegmentModel.InitDefaults | Sources/RehearsalLink/Models/AudioSegment.swift:16-22 | the initialiser keeps the given id; label, transcription and the export flag take their defaults |
| AudioSegmentModel.DurationExamples | Tests/RehearsalLinkTests/AudioSegmentTests.swift:22-28 | a 0-10 s segment lasts 10 s and a 5.5-12.3 s segment 6.8 s, exactly (the test allows 0.001) |
| AudioSegmentModel.StampPreserves | Sources/RehearsalLink/Services/WaveformAnalyzer.swift:230-238 | stamping analyzer runs into segments keeps their contiguity, hands out pairwise distinct ids and keeps every id in [base, base + count) |
| Waveform.SamplesPerPixel | Sources/RehearsalLink/Services/WaveformAnalyzer.swift:38 | `max(1, frames / target)` is at least 1, its `target` columns fit in the buffer when frames >= target, and it is 1 otherwise |
| Waveform.DownsampleLength | Sources/RehearsalLink/Services/WaveformAnalyzer.swift:24-60 | the number of columns: 0 for a non-positive target, an empty buffer, no channels or no float data; otherwise min(frames, target) |
| Waveform.DownsampleColumns | Sources/RehearsalLink/Services/WaveformAnalyzer.swift:45-57 | each column has min <= max; when every sample lies in [-1, 1] so does every column |
| Waveform.RangeMinIsMinimum | Sources/RehearsalLink/Services/WaveformAnalyzer.swift:65-95 | the minimum over frames [lo, hi) of all channels is at most every sample in the range and equals one of them |
| Waveform.RangeMaxIsMaximum | Sources/RehearsalLink/Services/WaveformAnalyzer.swift:65-95 | the maximum over frames [lo, hi) of all channels is at least every sample in the range and equals one of them |
| Waveform.CalculateMinMax | Sources/RehearsalLink/Services/WaveformAnalyzer.swift:65-95 | the loop over channels and frames returns the range minimum and maximum, and (0, 0) for an empty range or no channels |
| Waveform.GenerateWaveformSamples | Sources/RehearsalLink/Services/WaveformAnalyzer.swift:22-63 | the column loop returns exactly the downsampled columns (`Downsample`) |
| Waveform.DownsampleTestCases | Tests/RehearsalLinkTests/WaveformAnalyzerTests.swift:13-42 | 1000 mono frames into 100 columns give 100 columns; an empty stereo buffer gives none |
| Waveform.FrameExtremes | Sources/RehearsalLink/Services/WaveformAnalyzer.swift:332-346 | the per-frame loop over channels returns the frame's minimum and maximum across channels |
| Waveform.ConsumeFrame | Sources/RehearsalLink/Services/WaveformAnalyzer.swift:320-356 | one frame of the streaming scan keeps the streaming invariant, or finishes with exactly the in-memory columns |
| Waveform.ConsumeChunk | Sources/RehearsalLink/Services/WaveformAnalyzer.swift:310-358 | one chunk read of the streaming scan keeps the invariant, or finishes with exactly the in-memory columns |
| Waveform.GenerateWaveformSamplesStreaming | Sources/RehearsalLink/Services/WaveformAnalyzer.swift:279-366 | reading the file in chunks of any positive size gives exactly the columns of the in-memory downsampler for the same data |
| Waveform.GenerateWaveformSamplesFromFile | Sources/RehearsalLink/Services/WaveformAnalyzer.swift:279-297 | reading the file 8192 frames at a time gives exactly the columns of the in-memory downsampler |
| Waveform.StreamingMatches | Sources/RehearsalLink/Services/WaveformAnalyzer.swift:360-362 | a finished streaming scan with all columns emitted equals the in-memory result |
| FeatureExtraction.ZeroCrossingRateBounds | Sources/RehearsalLink/Services/WaveformAnalyzer.swift:141-145 | the zero-crossing rate is in [0, 1) and is 0 exactly when no adjacent pair changes sign class |
| FeatureExtraction.ZeroCrossings | Sources/RehearsalLink/Services/WaveformAnalyzer.swift:141-145 | the counting loop returns the zero-crossing rate of the window |
| FeatureExtraction.CalculateSpectralFeatures | Sources/RehearsalLink/Services/WaveformAnalyzer.swift:170-192 | the bin loop and band sums return the spectral centroid and the 300 Hz-4 kHz and above-4 kHz energies (`Spectral`) |
| FeatureExtraction.CentroidWithinSpectrum | Sources/RehearsalLink/Services/WaveformAnalyzer.swift:171-180 | for a non-negative spectrum the centroid lies between 0 and the top bin's frequency |
| FeatureExtraction.BandEnergies | Sources/RehearsalLink/Services/WaveformAnalyzer.swift:181-190 | when the 4 kHz bin is inside the spectrum the two band energies add up to the spectrum from the 300 Hz bin on and are non-negative for a non-negative spectrum; otherwise both are 0 |
| FeatureExtraction.BinsOrdered | Sources/RehearsalLink/Services/WaveformAnalyzer.swift:181-182 | the 300 Hz bin is non-negative and not above the 4 kHz bin |
| FeatureExtraction.AnalyzeWindow | Sources/RehearsalLink/Services/WaveformAnalyzer.swift:136-161 | the measures of one window form the feature point `PointAt` for its start frame |
| FeatureExtraction.ExtractFeatures | Sources/RehearsalLink/Services/WaveformAnalyzer.swift:99-168 | the window loop returns exactly `Features`: one point per whole window from frame 0 in steps of the hop, none without float data |
| FeatureExtraction.WindowsInside | Sources/RehearsalLink/Services/WaveformAnalyzer.swift:122-127 | every scheduled window lies wholly inside the file |
| FeatureExtraction.FeatureCount | Sources/RehearsalLink/Services/WaveformAnalyzer.swift:122-127 | the number of points is 0 for an empty file, no float data or a file shorter than a window, else (length - window) / hop + 1 |
| FeatureExtraction.FeatureTime | Sources/RehearsalLink/Services/WaveformAnalyzer.swift:160 | point k is taken at frame k * hop, its window fits in the file, and its time is k * hop / sampleRate |
| FeatureExtraction.FeatureTimesIncrease | Sources/RehearsalLink/Services/WaveformAnalyzer.swift:122-161 | feature point times strictly increase |
| Segmentation.ClassifyBands | Sources/RehearsalLink/Services/WaveformAnalyzer.swift:209-225 | Silence exactly below the silence threshold, loud points Performance, Conversation only at middle volume with centroid <= 4500 Hz; the bright and dark middle-volume cases |
| Segmentation.SpeechRatioOfEnergies | Sources/RehearsalLink/Services/WaveformAnalyzer.swift:215-218 | for non-negative energies the speech-ratio test is `low > 0.6 * (low + high + 0.000001)` |
| Segmentation.RawRunsCoverage | Sources/RehearsalLink/Services/WaveformAnalyzer.swift:201-239 | for time-ordered points the raw runs are contiguous, span first to last point time, every run but the last has positive length, and neighbours differ in type when times strictly increase |
| Segmentation.RawRunsSinglePoint | Sources/RehearsalLink/Services/WaveformAnalyzer.swift:201-239 | one point gives one zero-length run with that point's type |
| Segmentation.SmoothCoverage | Sources/RehearsalLink/Services/WaveformAnalyzer.swift:246-276 | smoothing a contiguous list keeps it contiguous with the same first start and last end and never lengthens it; at most one segment is returned unchanged |
| Segmentation.SmoothSeparates | Sources/RehearsalLink/Services/WaveformAnalyzer.swift:246-276 | when two or more segments remain, each lasts at least 3 s and neighbours differ in type |
| Segmentation.SmoothSeparatedFixed | Sources/RehearsalLink/Services/WaveformAnalyzer.swift:246-276 | a list whose segments all last at least 3 s and alternate in type is left as it is |
| Segmentation.SmoothIdempotent | Sources/RehearsalLink/Services/WaveformAnalyzer.swift:246-276 | smoothing twice equals smoothing once |
| Segmentation.SmoothSegments | Sources/RehearsalLink/Services/WaveformAnalyzer.swift:246-276 | the merging loop returns `Smooth` of its input |
| Segmentation.CalculateSegments | Sources/RehearsalLink/Services/WaveformAnalyzer.swift:195-242 | the labelling scan followed by the smoother returns `Segments` of the points |
| Segmentation.SegmentsMeaning | Sources/RehearsalLink/Services/WaveformAnalyzer.swift:195-242 | for time-ordered points: none for no points, else a contiguous list from the first point's time to the last's, no longer than the raw runs, separated when it has two or more segments, and a fixed point of smoothing |
| Segmentation.ScenarioSegments | Tests/RehearsalLinkTests/WaveformAnalyzerTests.swift:44-71 | the analyzer test's fifteen points give exactly Silence over [0, 4.1] and Performance over [4.1, 12] |
| SegmentEditing.FirstIndexSpec | Sources/RehearsalLink/ViewModels/MainViewModel+Segments.swift:5 | `firstIndex(where:)` finds a position exactly when some segment matches, and then the first match |
| SegmentEditing.IndexOfSpec | Sources/RehearsalLink/ViewModels/MainViewModel+Segments.swift:5 | the lookup by id finds the first segment with that id, and nothing exactly when the id is absent |
| SegmentEditing.UpdateWhereEffect | Sources/RehearsalLink/ViewModels/MainViewModel+Segments.swift:4-62 | an unknown id changes nothing; otherwise only the first segment with the id is replaced |
| SegmentEditing.UpdateTypeEffect | Sources/RehearsalLink/ViewModels/MainViewModel+Segments.swift:4-17 | only the type of the first segment with the id changes; every other field and segment is kept |
| SegmentEditing.UpdateLabelEffect | Sources/RehearsalLink/ViewModels/MainViewModel+Segments.swift:19-32 | the label becomes nil for an empty string and the string otherwise; nothing else changes |
| SegmentEditing.UpdateTranscriptionEffect | Sources/RehearsalLink/ViewModels/MainViewModel+Segments.swift:34-47 | only the transcription of the first segment with the id becomes the text |
| SegmentEditing.UpdateExclusionEffect | Sources/RehearsalLink/ViewModels/MainViewModel+Segments.swift:49-62 | only the export flag of the first segment with the id changes |
| SegmentEditing.FieldUpdatesKeepFrame | Sources/RehearsalLink/ViewModels/MainViewModel+Segments.swift:4-62 | the four field updates keep every id, start and end |
| SegmentEditing.SameFrameKeeps | Sources/RehearsalLink/ViewModels/MainViewModel+Segments.swift:4-62 | lists with the same ids and times are contiguous together, have distinct ids together and are timelines together |
| SegmentEditing.ClampedBoundaryRange | Sources/RehearsalLink/ViewModels/MainViewModel+Segments.swift:67-70 | the clamped time is at least the lower limit, at most the upper limit when the limits are ordered, the requested time when inside them, and max(lower, upper) above them |
| SegmentEditing.MoveBoundaryEffect | Sources/RehearsalLink/ViewModels/MainViewModel+Segments.swift:64-93 | no effect without a right neighbour; otherwise the left end and right start both become the clamped time and nothing else changes |
| SegmentEditing.MoveBoundaryLastWins | Sources/RehearsalLink/ViewModels/MainViewModel+Segments.swift:64-93 | two moves of one boundary equal the last move |
| SegmentEditing.MoveBoundaryRestores | Sources/RehearsalLink/ViewModels/MainViewModel+Segments.swift:64-93 | moving a boundary back to its old time (when inside the limits) restores the list |
| SegmentEditing.MoveBoundaryContiguous | Sources/RehearsalLink/ViewModels/MainViewModel+Segments.swift:64-93 | moving a boundary keeps the list contiguous with the same overall start and end |
| SegmentEditing.MoveBoundaryMinimumLength | Sources/RehearsalLink/ViewModels/MainViewModel+Segments.swift:64-93 | on a contiguous timeline from 0 where the two neighbours span at least 0.2 s together, both keep at least 0.1 s |
| SegmentEditing.MoveBoundaryTimeline | Sources/RehearsalLink/ViewModels/MainViewModel+Segments.swift:64-92 | moving a boundary keeps a timeline a timeline: contiguous from 0, no segment reversed, each at least 0.1 s when there are two or more |
| SegmentEditing.SplitOutside | Sources/RehearsalLink/ViewModels/MainViewModel+Segments.swift:96-98 | a time inside no segment changes nothing |
| SegmentEditing.SplitEffect | Sources/RehearsalLink/ViewModels/MainViewModel+Segments.swift:95-112 | no effect within 0.1 s of an end; otherwise the first containing segment becomes two halves with fresh ids, its type and export flag, no label or transcription, each longer than 0.1 s; the rest is kept |
| SegmentEditing.SplitContiguous | Sources/RehearsalLink/ViewModels/MainViewModel+Segments.swift:95-112 | splitting keeps the list contiguous with the same overall start and end |
| SegmentEditing.SplitDistinctIds | Sources/RehearsalLink/ViewModels/MainViewModel+Segments.swift:106-111 | with two distinct fresh ids, splitting keeps ids distinct |
| SegmentEditing.SplitTimeline | Sources/RehearsalLink/ViewModels/MainViewModel+Segments.swift:95-111 | splitting keeps a timeline a timeline (both halves are longer than 0.1 s) |
| SegmentEditing.SplitExample | Sources/RehearsalLink/ViewModels/MainViewModel+Segments.swift:95-112 | splitting one 0-10 s segment at 5 s gives 0-5 and 5-10 of the same type |
| SegmentEditing.MergedTranscriptionCases | Sources/RehearsalLink/ViewModels/MainViewModel+Segments.swift:121-127 | both texts join with a newline; otherwise whichever exists; none only when neither exists |
| SegmentEditing.MergeNoOp | Sources/RehearsalLink/ViewModels/MainViewModel+Segments.swift:115-116 | no merge for an unknown id or the last segment |
| SegmentEditing.MergeEffect | Sources/RehearsalLink/ViewModels/MainViewModel+Segments.swift:114-147 | the pair becomes one segment with the first id, start, type and flag, the next end, the left label first and the joined transcription; the others are kept and the count drops by one |
| SegmentEditing.MergeContiguous | Sources/RehearsalLink/ViewModels/MainViewModel+Segments.swift:114-147 | merging keeps the list contiguous with the same overall start and end |
| SegmentEditing.MergeDistinctIds | Sources/RehearsalLink/ViewModels/MainViewModel+Segments.swift:114-147 | merging keeps ids distinct |
| SegmentEditing.MergeTimeline | Sources/RehearsalLink/ViewModels/MainViewModel+Segments.swift:114-147 | merging keeps a timeline a timeline (a single merged segment is still forward) |
| TranscriptionText.FormatTimeRoundTrip | Sources/RehearsalLink/ViewModels/MainViewModel+Transcription.swift:141-145 | `%02d:%02d` of the truncated minutes and seconds: the seconds field is two digits below 60, minutes at least two digits (three from 100 minutes), and parsing the text gives back the whole seconds |
| TranscriptionText.FormatTimeExamples | Sources/RehearsalLink/ViewModels/MainViewModel+Transcription.swift:141-145 | 0 s gives "00:00", 65.9 s "01:05", 6000 s "100:00" |
| TranscriptionText.BatchTargetsSpec | Sources/RehearsalLink/ViewModels/MainViewModel+Transcription.swift:54 | the batch targets are exactly the Conversation/Performance segments without a transcription, never more than the list; selecting twice changes nothing |
| TranscriptionText.BatchTargetsAppend | Sources/RehearsalLink/ViewModels/MainViewModel+Transcription.swift:54 | the selection of a concatenation is the concatenation of the selections, so the targets keep list order |
| TranscriptionText.ProgressBounds | Sources/RehearsalLink/ViewModels/MainViewModel+Transcription.swift:88-89 | the progress stays in [0, 1] and never decreases as targets are processed |
| TranscriptionText.WriteBackKeepsFrame | Sources/RehearsalLink/ViewModels/MainViewModel+Transcription.swift:76-90 | writing transcriptions back keeps every id, time, type, label and export flag |
| TranscriptionText.WriteBackOnlyTargets | Sources/RehearsalLink/ViewModels/MainViewModel+Transcription.swift:76-90 | a segment that is not a target keeps its value |
| TranscriptionText.TranscribedSpec | Sources/RehearsalLink/ViewModels/MainViewModel+Transcription.swift:108 | the exported segments are exactly those with a transcription |
| TranscriptionText.ExportTextNone | Sources/RehearsalLink/ViewModels/MainViewModel+Transcription.swift:108-112 | there is no export exactly when no segment has a transcription |
| TranscriptionText.ExportTextUnfold | Sources/RehearsalLink/ViewModels/MainViewModel+Transcription.swift:114-123 | the export is the header followed by one entry per transcribed segment |
| TranscriptionText.ExportTextOrder | Sources/RehearsalLink/ViewModels/MainViewModel+Transcription.swift:118-123 | entries follow list order: exporting a + b appends b's entries to a's export |
| TranscriptionText.ExportSingle | Sources/RehearsalLink/ViewModels/MainViewModel+Transcription.swift:114-123 | one transcribed segment gives the header and `[mm:ss] label:` then the text, with "Segment" for a missing label |
| RichText.EscapeIsSimultaneous | Sources/RehearsalLink/Views/RichTextView.swift:23-25 | the three sequential replacements equal escaping each character independently |
| RichText.EscapeRoundTrip | Sources/RehearsalLink/Views/RichTextView.swift:23-25 | unescaping the escaped text gives back the input |
| RichText.EscapeNoBrackets | Sources/RehearsalLink/Views/RichTextView.swift:23-25 | escaped text contains no `<` and no `>` |
| RichText.LineRulesHeadings | Sources/RehearsalLink/Views/RichTextView.swift:28-30 | a line `### x`, `## x` or `# x` becomes `<h3>x</h3>`, `<h2>x</h2>` or `<h1>x</h1>` |
| RichText.LineRulesBullets | Sources/RehearsalLink/Views/RichTextView.swift:33-34 | a line `- x` or `* x` becomes `<li>x</li>` |
| RichText.LineRulesPlain | Sources/RehearsalLink/Views/RichTextView.swift:28-34 | a line not starting with `#`, `-` or `*` is left as it is |
| RichText.MapLinesPerLine | Sources/RehearsalLink/Views/RichTextView.swift:28-34 | the multi-line passes act on each `\n`-separated line independently |
| RichText.SplitParagraphsRoundTrip | Sources/RehearsalLink/Views/RichTextView.swift:37 | joining the paragraphs with a blank line gives back the text |
| RichText.BreaksReplaced | Sources/RehearsalLink/Views/RichTextView.swift:42 | single newlines inside a paragraph become `<br>`, and no newline remains |
| RichText.DocumentShape | Sources/RehearsalLink/Views/RichTextView.swift:46-80 | the page is the fixed head with the style sheet, then the body, then `</body></html>` |
| RichText.RenderDependsOnlyOnBody | Sources/RehearsalLink/Views/RichTextView.swift:19-81 | two inputs render the same page exactly when their bodies are equal |
| RichText.BodyHasOnlyInsertedTags | Sources/RehearsalLink/Views/RichTextView.swift:19-44 | every `<` in the body starts one of the thirteen tags the renderer inserts, so no markup from the input survives |
| AudioPlayback.FramesWithinFile | Sources/RehearsalLink/Services/AudioPlayerService.swift:45-75 | the scheduled span starts at the truncated start frame, is non-negative, ends inside the file and before the end frame, and is non-empty exactly when both bounds lie beyond the start |
| AudioPlayback.ScheduleStepEffect | Sources/RehearsalLink/Services/AudioPlayerService.swift:45-75 | scheduling touches only the schedule and its offset, nothing without a file, and records the start time only when frames are scheduled |
| AudioPlayback.InitialWellFormed | Sources/RehearsalLink/Services/AudioPlayerService.swift:10-19 | the initial player state is well formed |
| AudioPlayback.StepsPreserveWellFormed | Sources/RehearsalLink/Services/AudioPlayerService.swift:26-178 | play, pause, stop, seek, a timer tick, completion and a load of a valid file keep the state well formed |
| AudioPlayback.SeekClamps | Sources/RehearsalLink/Services/AudioPlayerService.swift:123-136 | seeking moves to the time clamped to [0, duration] and keeps the playing flag and loop range |
| AudioPlayback.StopRewinds | Sources/RehearsalLink/Services/AudioPlayerService.swift:109-121 | stopping ends playback, clears the schedule, rewinds to the loop start or 0, and is idempotent |
| AudioPlayback.PlayStartsInsideLoop | Sources/RehearsalLink/Services/AudioPlayerService.swift:77-101 | play is a no-op while playing or without a file; with a loop it starts at the loop start unless already inside the loop short of its last 0.05 s |
| AudioPlayback.PauseThenPlayResumes | Sources/RehearsalLink/Services/AudioPlayerService.swift:77-107 | without a loop, pause then play resumes at the paused position |
| AudioPlayback.LoadResets | Sources/RehearsalLink/Services/AudioPlayerService.swift:26-43 | loading stops, rewinds to 0, installs the file and duration, and keeps the loop settings |
| AudioPlayback.UpdateStepCases | Sources/RehearsalLink/Services/AudioPlayerService.swift:152-178 | a tick ignores negative times, jumps to the loop start past the loop end, stops at the end of the file, or advances the position |
| AudioPlayback.LoopPlaybackStaysInRange | Sources/RehearsalLink/Services/AudioPlayerService.swift:160-168 | while looping over a range inside the file a tick never leaves the position at or beyond the loop end |
| AudioPlayback.CompletedStepEffect | Sources/RehearsalLink/Services/AudioPlayerService.swift:64-73 | completion stops playback outside a loop and changes nothing while looping |
| AudioPlayback.AudioPlayerService.constructor | Sources/RehearsalLink/Services/AudioPlayerService.swift:10-24 | a new service is in the initial state: stopped at 0, not looping, no loop range, no file, nothing scheduled |
| AudioPlayback.AudioPlayerService.SetLooping | Sources/RehearsalLink/ViewModels/MainViewModel.swift:50-56 | the view model's `isLooping` assignment changes only the looping flag and keeps a well-formed player well formed |
| AudioPlayback.AudioPlayerService.SetLoopRange | Sources/RehearsalLink/ViewModels/MainViewModel.swift:73-80 | the view model's `loopRange` assignment changes only the loop range, which as a `ClosedRange` is never reversed, and keeps a well-formed player well formed |
| AudioPlayback.AudioPlayerService.Seek | Sources/RehearsalLink/Services/AudioPlayerService.swift:123-136 | the service's fields become `SeekStep` of their old values |
| AudioPlayback.AudioPlayerService.Play | Sources/RehearsalLink/Services/AudioPlayerService.swift:77-101 | the service's fields become `PlayStep` of their old values |
| AudioPlayback.AudioPlayerService.UpdatePosition | Sources/RehearsalLink/Services/AudioPlayerService.swift:152-178 | the service's fields become `UpdateStep` of their old values |
| AudioPlayback.AudioPlayerService.ScheduleSegment | Sources/RehearsalLink/Services/AudioPlayerService.swift:45-75 | the service's fields become `ScheduleStep` of their old values |
| AudioPlayback.AudioPlayerService.Load | Sources/RehearsalLink/Services/AudioPlayerService.swift:26-43 | the service's fields become `LoadStep` of their old values |
| AudioPlayback.AudioPlayerService.Stop | Sources/RehearsalLink/Services/AudioPlayerService.swift:109-121 | the service's fields become `StopStep` of their old values |
| AudioPlayback.AudioPlayerService.Pause | Sources/RehearsalLink/Services/AudioPlayerService.swift:103-107 | the service's fields become `PauseStep` of their old values |
| AudioPlayback.AudioPlayerService.SegmentCompleted | Sources/RehearsalLink/Services/AudioPlayerService.swift:64-73 | the service's fields become `CompletedStep` of their old values |
| ViewModel.FirstIndexOf | Sources/RehearsalLink/ViewModels/MainViewModel+Segments.swift:5 | the linear search returns the first matching position, or none |
| ViewModel.LoopRangeFor | Sources/RehearsalLink/ViewModels/MainViewModel.swift:73-80 | on a list with no reversed segment the loop range, when there is one, is never reversed |
| ViewModel.LoopRangeForSpec | Sources/RehearsalLink/ViewModels/MainViewModel.swift:73-80 | there is a loop range exactly when looping is on and the selected id is present; it is then the first such segment's span |
| ViewModel.LoopRangeSameFrame | Sources/RehearsalLink/ViewModels/MainViewModel.swift:73-80 | edits that keep ids and times keep the loop range |
| ViewModel.ZoomSteps | Sources/RehearsalLink/ViewModels/MainViewModel.swift:235-241 | both zoom steps keep the level in [1, 50], zooming in never lowers and zooming out never raises it, and each undoes the other away from the bounds |
| ViewModel.MergeIdsBelow | Sources/RehearsalLink/ViewModels/MainViewModel+Segments.swift:114-147 | merging keeps every id below the id counter |
| ViewModel.SplitIdsBelow | Sources/RehearsalLink/ViewModels/MainViewModel+Segments.swift:95-112 | splitting with the next two counter values keeps every id below the advanced counter |
| ViewModel.SplitKeepsIds | Sources/RehearsalLink/ViewModels/MainViewModel+Segments.swift:95-111 | splitting with the next two counter values keeps the ids distinct, below the advanced counter, and keeps a timeline |
| ViewModel.MergeKeepsIds | Sources/RehearsalLink/ViewModels/MainViewModel+Segments.swift:114-147 | merging keeps the ids distinct, below the counter, and keeps a timeline |
| ViewModel.SplitAt | Sources/RehearsalLink/ViewModels/MainViewModel+Segments.swift:95-111 | the remove and two inserts give `Split` of the list; when something is split the list grows by one, otherwise it is returned unchanged |
| ViewModel.WriteBackKeepsIds | Sources/RehearsalLink/ViewModels/MainViewModel+Transcription.swift:79-91 | writing batch texts back keeps the ids distinct and below the counter, keeps the timeline shape, and keeps the loop range |
| ViewModel.Analyze | Sources/RehearsalLink/ViewModels/MainViewModel.swift:140-146 | the detached analysis yields `Downsample` of the buffer to 1000 columns, `Features` of the same buffer's first channel, and `Segments` of those features |
| ViewModel.FirstChannel | Sources/RehearsalLink/Services/WaveformAnalyzer.swift:128 | the samples read are channel 0 over the valid frames; there are none exactly when the buffer has no float data or no channel |
| ViewModel.PublishedSegments | Sources/RehearsalLink/ViewModels/MainViewModel.swift:140-150 | the segments published for time-ordered points are contiguous with distinct ids, none exactly when there are no points, spanning first to last point time |
| ViewModel.AnalysisPublishesTimeline | Sources/RehearsalLink/ViewModels/MainViewModel.swift:140-150 | for any analysed file the published segments are contiguous with distinct ids, form a timeline from 0, and are empty exactly when no whole window could be read |
| ViewModel.MainViewModel.constructor | Sources/RehearsalLink/ViewModels/MainViewModel.swift:6-72 | a fresh view model has no audio, no segments, no selection, zoom 1, looping off, no transcription in progress, a player in its initial state, and satisfies `Valid()` |
| ViewModel.MainViewModel.UpdateLoopRange | Sources/RehearsalLink/ViewModels/MainViewModel.swift:73-80 | the player's loop range becomes the selected segment's span while looping, else none; a well-formed player stays well formed; it requires the `ClosedRange` it builds not to be reversed, as Swift traps otherwise |
| ViewModel.MainViewModel.Install | Sources/RehearsalLink/ViewModels/MainViewModel.swift:65-70 | assigning a consistent list and counter, then re-running `updateLoopRange`, re-establishes `Valid()` |
| ViewModel.MainViewModel.SetLoopingEnabled | Sources/RehearsalLink/ViewModels/MainViewModel.swift:50-56 | the player's looping flag follows the switch and the loop range is recomputed |
| ViewModel.MainViewModel.Select | Sources/RehearsalLink/ViewModels/MainViewModel.swift:58-63 | the selection changes and the loop range follows it |
| ViewModel.MainViewModel.UpdateSegmentType | Sources/RehearsalLink/ViewModels/MainViewModel+Segments.swift:4-17 | the list becomes `UpdateType` of the old list, keeping `Valid()` |
| ViewModel.MainViewModel.UpdateSegmentLabel | Sources/RehearsalLink/ViewModels/MainViewModel+Segments.swift:19-32 | the list becomes `UpdateLabel` of the old list, keeping `Valid()` |
| ViewModel.MainViewModel.UpdateSegmentTranscription | Sources/RehearsalLink/ViewModels/MainViewModel+Segments.swift:34-47 | the list becomes `UpdateTranscription` of the old list, keeping `Valid()` |
| ViewModel.MainViewModel.UpdateSegmentExportExclusion | Sources/RehearsalLink/ViewModels/MainViewModel+Segments.swift:49-62 | the list becomes `UpdateExclusion` of the old list, keeping `Valid()` |
| ViewModel.MainViewModel.MoveSegmentBoundary | Sources/RehearsalLink/ViewModels/MainViewModel+Segments.swift:64-93 | the list becomes `MoveBoundary` of the old list, keeping `Valid()` |
| ViewModel.MainViewModel.SplitSegment | Sources/RehearsalLink/ViewModels/MainViewModel+Segments.swift:95-112 | the list becomes `Split` of the old list with the next two ids, the counter advances only when a split happens, keeping `Valid()` |
| ViewModel.MainViewModel.MergeSegmentWithNext | Sources/RehearsalLink/ViewModels/MainViewModel+Segments.swift:114-147 | the list becomes `MergeWithNext` of the old list and the merged segment is selected when a merge happens, keeping `Valid()` |
| ViewModel.MainViewModel.ZoomIn | Sources/RehearsalLink/ViewModels/MainViewModel.swift:235-237 | the level becomes min(level * 1.5, 50) and stays in [1, 50] |
| ViewModel.MainViewModel.ZoomOut | Sources/RehearsalLink/ViewModels/MainViewModel.swift:239-241 | the level becomes max(level / 1.5, 1) and stays in [1, 50] |
| ViewModel.MainViewModel.ResetZoom | Sources/RehearsalLink/ViewModels/MainViewModel.swift:243-245 | the level becomes 1 |
| ViewModel.MainViewModel.SeekProgress | Sources/RehearsalLink/ViewModels/MainViewModel.swift:228-231 | nothing without audio; otherwise a seek to duration * progress |
| ViewModel.MainViewModel.Seek | Sources/RehearsalLink/ViewModels/MainViewModel.swift:224-226 | the player performs `SeekStep` |
| ViewModel.MainViewModel.StopPlayback | Sources/RehearsalLink/ViewModels/MainViewModel.swift:220-222 | the player performs `StopStep` |
| ViewModel.MainViewModel.TogglePlayback | Sources/RehearsalLink/ViewModels/MainViewModel.swift:212-218 | a playing player pauses, a paused one plays |
| ViewModel.MainViewModel.WriteFirst | Sources/RehearsalLink/ViewModels/MainViewModel+Transcription.swift:79-91 | the first segment with the id, if any, is replaced by `f` of it: the list becomes `UpdateWhere` of the old list |
| ViewModel.MainViewModel.TranscribeSegment | Sources/RehearsalLink/ViewModels/MainViewModel+Transcription.swift:5-49 | no effect for an unknown id, without audio or for a Silence segment; otherwise the text is written back, or the error message is the failure prefix plus the description; the busy flag ends false |
| ViewModel.MainViewModel.FinishTranscription | Sources/RehearsalLink/ViewModels/MainViewModel+Transcription.swift:27-47 | a text is written into the first segment with the id; a failure sets the error message to the failure prefix plus the description; either way the busy flag ends false and `Valid()` holds |
| ViewModel.MainViewModel.BatchTranscribe | Sources/RehearsalLink/ViewModels/MainViewModel+Transcription.swift:51-103 | no effect without audio or service, or with no targets; otherwise the list becomes `WriteBack` of the targets in list order, ending at progress 1 with the flag cleared and no error message |
| ViewModel.MainViewModel.RunBatch | Sources/RehearsalLink/ViewModels/MainViewModel+Transcription.swift:61-96 | the loop leaves the list as `WriteBack` of the targets, and the progress as successes over the target count |
| ViewModel.MainViewModel.ExportAllTranscriptions | Sources/RehearsalLink/ViewModels/MainViewModel+Transcription.swift:105-123 | nothing without audio; otherwise the text built entry by entry equals `ExportText`, and when it is absent the error message is set |
| ViewModel.MainViewModel.LoadAudio | Sources/RehearsalLink/ViewModels/MainViewModel.swift:124-153 | for a file, buffer and analysis describing one decoding (same frames, same rate, duration frames over rate, as Sources/RehearsalLink/Models/AudioData.swift computes it), the player loads the file; the waveform is `Downsample` of the buffer to 1000 columns, the features `Features` of its first channel, and the segments `Segments` of them with fresh ids |
| ViewModel.MainViewModel.BeginLoad | Sources/RehearsalLink/ViewModels/MainViewModel.swift:125-136 | the audio is recorded, loading is over, analysis has begun, the error is cleared, and the player performs `LoadStep` |
| ViewModel.MainViewModel.Publish | Sources/RehearsalLink/ViewModels/MainViewModel.swift:147-150 | the analysis results are published, the segments stamped with fresh ids, the loop range recomputed |

## Left out

- Floating point: all quantities are mathematical reals. The model has no NaN or infinities (except the speech-ratio division by zero, modelled by sign), no rounding, and no `Float`/`Double` conversions.
- RMS and the FFT magnitude spectrum (vDSP): these are parameters of `FeatureExtraction.Analysis`. The Hann window and the FFT are not computed.
- `AVAudioFile` read errors, partial reads other than the final short one, buffer allocation failure, and non-float formats beyond "no float data" are left out.
- `Waveform.GenerateWaveformSamplesStreaming`: each read returns min(chunk, remaining) frames. A read that returns no frames, where the source would loop with `continue`, is not modelled.
- Asynchronous execution (`Task`, `await`, `MainActor.run`, Combine `receive(on:)`): each flow runs to completion in order. The Combine subscriptions that re-run `updateLoopRange` are calls at the end of each method that changes the segments, the selection or the looping switch. Interleavings of concurrent transcription tasks with user edits are not modelled.
- The speech recogniser: `TranscribeSegment` takes its outcome as a parameter, and `BatchTranscribe` takes the service as a function of the segment's span. A missing service is a failed outcome. `Task.yield()` and the error log are left out.
- `ExportAllTranscriptions`: the save panel, the file write and its error message are left out. The formatted date is a parameter.
- `UUID()`: ids are naturals drawn from the counter `idSupply`.
- The audio engine, player node, timer and render times. The engine-start failure in `play()` (its error log) is not modelled. A timer tick takes the node's elapsed play time as `Option<real>`.
- The view model's mirrored `isPlaying`/`currentTime` (Combine assignments from the player) are left out. `TogglePlayback` reads the player's flag directly.
- `renderMarkdownToHTML` is modelled over `\n` line breaks only. The regular expressions' other line terminators (`\r`, Unicode separators) are left out.
- `selectFile`, `handleFile`, projects, AI features, `normalizeAndReanalyze`, `AudioLoadService`: these are outside the modelled core.
- `Segmentation.SegmentsMeaning`, `Segmentation.RawRunsCoverage`: stated for time-ordered feature points. `ViewModel.AnalysisPublishesTimeline` shows that extracted points always are.
- `ViewModel.MainViewModel.LoadAudio`: the load and analysis errors of `performLoadAudio` (its `throws` paths) are not modelled. The decoding itself is not modelled either: the file, the buffer and the analysis are inputs, tied together by the requires (same frame count and sample rate, duration frames over rate). The buffer's samples are not tied to the player's file, which has no samples in this model.
- `ViewModel.MainViewModel.UpdateLoopRange`: `segment.startTime ... segment.endTime` traps in Swift when the start is after the end. The model requires that this never happens, and `Valid()` (through `Timeline`) shows that every reachable list satisfies it; a list with a reversed segment is never installed.
- `ViewModel.MainViewModel.Publish`: requires the stamped analysis to be a timeline, which `ViewModel.AnalysisPublishesTimeline` proves for every analysis.
