/**
 * The playback position and loop logic of `AudioPlayerService`.
 *
 * The audio engine, the player node and the 60 Hz timer are abstracted
 * away: what remains is the service's own state (playing flag, position,
 * loop settings, the loaded file's duration and frame geometry, the offset
 * of the scheduled segment) and the frame range the service hands to the
 * player node. The node's clock reading is a parameter of `UpdatePosition`.
 *
 * Each state change is first written as a function on `Player` values
 * (`PlayStep`, `SeekStep`, ...), whose properties are proved as lemmas; the
 * class `AudioPlayerService` keeps the same state in fields, updates them in
 * place, and its methods are proved to perform exactly those steps.
 */
module AudioPlayback {
  import opened Wrappers
  import opened Arith

  /** How close to the loop's end `play` still resumes in place, in seconds. */
  const LoopRestartMargin: real := 0.05

  /** A `ClosedRange<TimeInterval>`: Swift traps when `lower > upper`. */
  datatype LoopRange = LoopRange(lower: real, upper: real)

  /** What the service reads from an `AVAudioFile`: its sample rate and its length in frames. */
  datatype AudioFile = AudioFile(sampleRate: real, length: int)

  /** A segment of the file scheduled on the player node. */
  datatype FrameSpan = FrameSpan(startFrame: int, frameCount: int)

  /** The service's state. `scheduled` is what the player node holds. */
  datatype Player = Player(
    isPlaying: bool,
    currentTime: real,
    isLooping: bool,
    loopRange: Option<LoopRange>,
    file: Option<AudioFile>,
    fileDuration: real,
    segmentStartTime: real,
    scheduled: Option<FrameSpan>)

  /** The stored property defaults. */
  function Initial(): (p: Player)
    ensures !p.isPlaying && p.currentTime == 0.0 && p.file.None? && p.loopRange.None? && p.scheduled.None?
  {
    Player(false, 0.0, false, None, None, 0.0, 0.0, None)
  }

  /**
   * The facts the state always satisfies: ranges are ordered, a file has a
   * positive rate and a length, playback needs a file, and whatever is
   * scheduled lies inside the file.
   */
  ghost predicate WellFormed(p: Player) {
    (p.loopRange.Some? ==> p.loopRange.value.lower <= p.loopRange.value.upper) &&
    (p.file.Some? ==> p.file.value.sampleRate > 0.0 && p.file.value.length >= 0) &&
    p.fileDuration >= 0.0 &&
    (p.isPlaying ==> p.file.Some?) &&
    (p.scheduled.Some? ==>
      p.file.Some? && 0 <= p.scheduled.value.startFrame && 0 < p.scheduled.value.frameCount &&
      p.scheduled.value.startFrame + p.scheduled.value.frameCount <= p.file.value.length)
  }

  // ---------------------------------------------------------------------
  // Scheduling
  // ---------------------------------------------------------------------

  /** Where scheduled playback ends: the loop's upper bound while looping with a range, else the file's end. */
  function PlaybackEnd(p: Player): real {
    if p.isLooping && p.loopRange.Some? then p.loopRange.value.upper else p.fileDuration
  }

  /** Swift's `min(x, y)` on integers: `y < x ? y : x`. */
  function MinInt(x: int, y: int): int { if y < x then y else x }
  /** Swift's `max(x, y)` on integers: `y >= x ? y : x`. */
  function MaxInt(x: int, y: int): int { if y >= x then y else x }

  /** The frame range from `time` to `end`, clipped to the file. */
  function Frames(f: AudioFile, time: real, end: real): FrameSpan {
    var startFrame := MaxInt(0, Truncate(time * f.sampleRate));
    var endFrame := MinInt(Truncate(end * f.sampleRate), f.length);
    FrameSpan(startFrame, MaxInt(0, endFrame - startFrame))
  }

  /**
   * The scheduled frames start at the frame of `time` (at 0 for a negative
   * time), never pass the end frame nor the file's last frame, and are empty
   * exactly when the start is not before both of those.
   */
  lemma FramesWithinFile(f: AudioFile, time: real, end: real)
    requires f.sampleRate > 0.0
    ensures var span := Frames(f, time, end);
      0 <= span.startFrame && 0 <= span.frameCount &&
      (time >= 0.0 ==> span.startFrame == Truncate(time * f.sampleRate)) &&
      (span.frameCount > 0 ==>
        span.startFrame + span.frameCount <= f.length &&
        span.startFrame + span.frameCount <= Truncate(end * f.sampleRate)) &&
      (span.frameCount > 0 <==>
        span.startFrame < f.length && span.startFrame < Truncate(end * f.sampleRate))
  {
    if time >= 0.0 {
      MulNonNegative(time, f.sampleRate);
      TruncateBounds(time * f.sampleRate, time * f.sampleRate);
    }
  }

  /** `scheduleSegment(from:)`: nothing without a file; otherwise the node is cleared and the range scheduled if it is not empty. */
  function ScheduleStep(p: Player, time: real): Player {
    if p.file.None? then p
    else
      var span := Frames(p.file.value, time, PlaybackEnd(p));
      if span.frameCount > 0 then p.(scheduled := Some(span), segmentStartTime := time)
      else p.(scheduled := None)
  }

  /** Scheduling keeps the state well formed and touches only the schedule and its offset. */
  lemma ScheduleStepEffect(p: Player, time: real)
    requires WellFormed(p)
    ensures var q := ScheduleStep(p, time);
      WellFormed(q) &&
      q.(scheduled := p.scheduled, segmentStartTime := p.segmentStartTime) == p &&
      (p.file.None? ==> q == p) &&
      (q.scheduled.Some? ==>
        q.segmentStartTime == time && q.scheduled.value == Frames(p.file.value, time, PlaybackEnd(p))) &&
      (q.scheduled.None? ==> q.segmentStartTime == p.segmentStartTime)
  {
    if p.file.Some? {
      FramesWithinFile(p.file.value, time, PlaybackEnd(p));
    }
  }

  // ---------------------------------------------------------------------
  // The operations
  // ---------------------------------------------------------------------

  /** The position `play` starts from: the loop's start when looping with a range and outside it (or at its very end). */
  function ResumePosition(p: Player): real {
    if p.isLooping && p.loopRange.Some? &&
       (p.currentTime < p.loopRange.value.lower ||
        p.currentTime >= p.loopRange.value.upper - LoopRestartMargin)
    then p.loopRange.value.lower
    else p.currentTime
  }

  /** `play()`; a failure to start the engine is not modelled. */
  function PlayStep(p: Player): Player {
    if p.isPlaying || p.file.None? then p
    else
      var t := ResumePosition(p);
      ScheduleStep(p.(currentTime := t), t).(isPlaying := true)
  }

  /** `pause()`: the node keeps its schedule. */
  function PauseStep(p: Player): Player {
    p.(isPlaying := false)
  }

  /** `stop()`: the node is cleared and the position goes back to the loop's start, or to 0. */
  function StopStep(p: Player): Player {
    var t := if p.loopRange.Some? then p.loopRange.value.lower else 0.0;
    p.(isPlaying := false, scheduled := None, currentTime := t, segmentStartTime := t)
  }

  /** The position `seek(to:)` moves to. */
  function SeekTarget(p: Player, time: real): real {
    Max(0.0, Min(time, p.fileDuration))
  }

  /** `seek(to:)`; playing or not, the segment from the new position is scheduled. */
  function SeekStep(p: Player, time: real): Player {
    var t := SeekTarget(p, time);
    ScheduleStep(p.(currentTime := t, segmentStartTime := t), t)
  }

  /** `load(data:)`; connecting and starting the engine is not modelled. */
  function LoadStep(p: Player, f: AudioFile, duration: real): Player {
    StopStep(p).(file := Some(f), fileDuration := duration, currentTime := 0.0, segmentStartTime := 0.0)
  }

  /**
   * One timer tick of `updatePosition()`. `elapsed` is the node's play time
   * in seconds, `None` when the node is not playing or has no render time.
   */
  function UpdateStep(p: Player, elapsed: Option<real>): Player {
    match elapsed
    case None => p
    case Some(e) =>
      var t := p.segmentStartTime + e;
      if t < 0.0 then p
      else if p.isLooping && p.loopRange.Some? && t >= p.loopRange.value.upper then SeekStep(p, p.loopRange.value.lower)
      else if t >= p.fileDuration then StopStep(p)
      else p.(currentTime := t)
  }

  /** The node's completion handler: outside a loop, playback ends. */
  function CompletedStep(p: Player): Player {
    if !p.isLooping then p.(isPlaying := false) else p
  }

  // ---------------------------------------------------------------------
  // Properties
  // ---------------------------------------------------------------------

  lemma InitialWellFormed()
    ensures WellFormed(Initial())
  {
  }

  /** Every operation keeps the state well formed (a loaded file must have a positive rate). */
  lemma StepsPreserveWellFormed(p: Player, time: real, elapsed: Option<real>, f: AudioFile, duration: real)
    requires WellFormed(p)
    ensures WellFormed(PlayStep(p)) && WellFormed(PauseStep(p)) && WellFormed(StopStep(p))
    ensures WellFormed(SeekStep(p, time)) && WellFormed(UpdateStep(p, elapsed)) && WellFormed(CompletedStep(p))
    ensures f.sampleRate > 0.0 && f.length >= 0 && duration >= 0.0 ==> WellFormed(LoadStep(p, f, duration))
  {
    if !p.isPlaying && p.file.Some? {
      ScheduleStepEffect(p.(currentTime := ResumePosition(p)), ResumePosition(p));
    }
    var t := SeekTarget(p, time);
    ScheduleStepEffect(p.(currentTime := t, segmentStartTime := t), t);
    if elapsed.Some? && p.loopRange.Some? {
      var l := SeekTarget(p, p.loopRange.value.lower);
      ScheduleStepEffect(p.(currentTime := l, segmentStartTime := l), l);
    }
  }

  /**
   * `seek` clamps into `[0, fileDuration]`, sets the position and the
   * segment offset to the clamped time, and leaves the playing flag alone.
   */
  lemma SeekClamps(p: Player, time: real)
    requires WellFormed(p)
    ensures var q := SeekStep(p, time);
      0.0 <= q.currentTime <= p.fileDuration &&
      q.currentTime == q.segmentStartTime &&
      (0.0 <= time <= p.fileDuration ==> q.currentTime == time) &&
      (time < 0.0 ==> q.currentTime == 0.0) &&
      (time > p.fileDuration ==> q.currentTime == p.fileDuration) &&
      q.isPlaying == p.isPlaying && q.loopRange == p.loopRange
  {
    var t := SeekTarget(p, time);
    ScheduleStepEffect(p.(currentTime := t, segmentStartTime := t), t);
  }

  /** `stop` halts playback and rewinds to the loop range's start, even when looping is off, or to 0; stopping twice is stopping once. */
  lemma StopRewinds(p: Player)
    ensures var q := StopStep(p);
      !q.isPlaying && q.scheduled.None? &&
      q.currentTime == (if p.loopRange.Some? then p.loopRange.value.lower else 0.0) &&
      q.segmentStartTime == q.currentTime &&
      q.loopRange == p.loopRange && q.file == p.file && q.fileDuration == p.fileDuration &&
      StopStep(q) == q
  {
  }

  /**
   * `play` does nothing while playing or without a file. Otherwise playback
   * is on, and while looping with a range the position is inside the loop
   * and more than the margin before its end, or at its start.
   */
  lemma PlayStartsInsideLoop(p: Player)
    requires WellFormed(p)
    ensures p.isPlaying || p.file.None? ==> PlayStep(p) == p
    ensures !p.isPlaying && p.file.Some? ==>
      var q := PlayStep(p);
      q.isPlaying && q.currentTime == ResumePosition(p) &&
      (p.isLooping && p.loopRange.Some? ==>
        var r := p.loopRange.value;
        q.currentTime == r.lower ||
        (r.lower <= q.currentTime < r.upper - LoopRestartMargin && q.currentTime == p.currentTime)) &&
      (!(p.isLooping && p.loopRange.Some?) ==> q.currentTime == p.currentTime)
  {
    if !p.isPlaying && p.file.Some? {
      ScheduleStepEffect(p.(currentTime := ResumePosition(p)), ResumePosition(p));
    }
  }

  /** Pausing keeps the position, and playing again outside a loop resumes exactly there. */
  lemma PauseThenPlayResumes(p: Player)
    requires WellFormed(p) && p.file.Some? && !p.isLooping
    ensures PauseStep(p).currentTime == p.currentTime && !PauseStep(p).isPlaying
    ensures PlayStep(PauseStep(p)).currentTime == p.currentTime && PlayStep(PauseStep(p)).isPlaying
  {
    var q := PauseStep(p);
    ScheduleStepEffect(q, q.currentTime);
  }

  /**
   * `load` stops playback and starts the new file at 0 with nothing
   * scheduled; the loop settings survive.
   */
  lemma LoadResets(p: Player, f: AudioFile, duration: real)
    ensures var q := LoadStep(p, f, duration);
      !q.isPlaying && q.currentTime == 0.0 && q.segmentStartTime == 0.0 && q.scheduled.None? &&
      q.file == Some(f) && q.fileDuration == duration &&
      q.isLooping == p.isLooping && q.loopRange == p.loopRange
  {
  }

  /**
   * A timer tick either ignores the reading, wraps to the loop's start,
   * stops at the end of the file, or moves the position to the segment
   * offset plus the elapsed time, which is then inside the file and, while
   * looping with a range, before the loop's end.
   */
  lemma UpdateStepCases(p: Player, e: real)
    requires WellFormed(p)
    ensures var q := UpdateStep(p, Some(e));
      var t := p.segmentStartTime + e;
      (t < 0.0 && q == p) ||
      (t >= 0.0 && p.isLooping && p.loopRange.Some? && t >= p.loopRange.value.upper &&
        q == SeekStep(p, p.loopRange.value.lower)) ||
      (t >= p.fileDuration && !(p.isLooping && p.loopRange.Some? && t >= p.loopRange.value.upper) &&
        q == StopStep(p)) ||
      (q == p.(currentTime := t) && 0.0 <= t < p.fileDuration &&
        (p.isLooping && p.loopRange.Some? ==> t < p.loopRange.value.upper))
  {
  }

  /**
   * While looping over a range inside the file, a tick that moves the
   * position never reports a time at or past the loop's end: it either
   * leaves the state alone, lands before the end, or goes back to the start.
   */
  lemma LoopPlaybackStaysInRange(p: Player, elapsed: Option<real>)
    requires WellFormed(p) && p.isLooping && p.loopRange.Some?
    requires 0.0 <= p.loopRange.value.lower && p.loopRange.value.upper <= p.fileDuration
    ensures var q := UpdateStep(p, elapsed);
      q == p || q.currentTime < p.loopRange.value.upper || q.currentTime == p.loopRange.value.lower
  {
    if elapsed.Some? {
      var t := p.segmentStartTime + elapsed.value;
      if t >= 0.0 && t >= p.loopRange.value.upper {
        SeekClamps(p, p.loopRange.value.lower);
      }
    }
  }

  /** Outside a loop the completion handler ends playback; inside one it changes nothing. */
  lemma CompletedStepEffect(p: Player)
    ensures !p.isLooping ==> !CompletedStep(p).isPlaying && CompletedStep(p).currentTime == p.currentTime
    ensures p.isLooping ==> CompletedStep(p) == p
  {
  }

  /** No operation of the service changes the loop settings; only their owner sets them. */
  lemma StepsKeepLoopSettings(p: Player, time: real, elapsed: Option<real>, f: AudioFile, duration: real)
    ensures var qs := [PlayStep(p), PauseStep(p), StopStep(p), SeekStep(p, time), UpdateStep(p, elapsed),
                       CompletedStep(p), LoadStep(p, f, duration)];
      forall q :: q in qs ==> q.isLooping == p.isLooping && q.loopRange == p.loopRange
  {
  }

  // ---------------------------------------------------------------------
  // The service
  // ---------------------------------------------------------------------

  /** The service object; its methods perform the steps above on its fields. */
  class AudioPlayerService {
    var isPlaying: bool
    var currentTime: real
    var isLooping: bool
    var loopRange: Option<LoopRange>
    var file: Option<AudioFile>
    var fileDuration: real
    var segmentStartTime: real
    var scheduled: Option<FrameSpan>

    /** The fields, as one value. */
    function State(): Player
      reads this
    {
      Player(isPlaying, currentTime, isLooping, loopRange, file, fileDuration, segmentStartTime, scheduled)
    }

    constructor()
      ensures State() == Initial()
    {
      isPlaying := false;
      currentTime := 0.0;
      isLooping := false;
      loopRange := None;
      file := None;
      fileDuration := 0.0;
      segmentStartTime := 0.0;
      scheduled := None;
    }

    method Load(f: AudioFile, duration: real)
      modifies this
      ensures State() == LoadStep(old(State()), f, duration)
      ensures WellFormed(old(State())) && f.sampleRate > 0.0 && f.length >= 0 && duration >= 0.0 ==> WellFormed(State())
    {
      Stop();
      file := Some(f);
      fileDuration := duration;
      currentTime := 0.0;
      segmentStartTime := 0.0;
      if WellFormed(old(State())) {
        StepsPreserveWellFormed(old(State()), 0.0, None, f, duration);
      }
    }

    method ScheduleSegment(time: real)
      modifies this
      ensures State() == ScheduleStep(old(State()), time)
    {
      if file.None? {
        return;
      }
      scheduled := None;
      var end := if isLooping && loopRange.Some? then loopRange.value.upper else fileDuration;
      var span := Frames(file.value, time, end);
      if span.frameCount <= 0 {
        return;
      }
      scheduled := Some(span);
      segmentStartTime := time;
    }

    method Play()
      modifies this
      ensures State() == PlayStep(old(State()))
      ensures WellFormed(old(State())) ==> WellFormed(State())
    {
      if WellFormed(State()) {
        StepsPreserveWellFormed(State(), 0.0, None, AudioFile(1.0, 0), 0.0);
      }
      if isPlaying || file.None? {
        return;
      }
      if isLooping && loopRange.Some? {
        var range := loopRange.value;
        if currentTime < range.lower || currentTime >= range.upper - LoopRestartMargin {
          currentTime := range.lower;
        }
      }
      ScheduleSegment(currentTime);
      isPlaying := true;
    }

    method Pause()
      modifies this
      ensures State() == PauseStep(old(State()))
      ensures WellFormed(old(State())) ==> WellFormed(State())
    {
      isPlaying := false;
    }

    method Stop()
      modifies this
      ensures State() == StopStep(old(State()))
      ensures WellFormed(old(State())) ==> WellFormed(State())
    {
      scheduled := None;
      isPlaying := false;
      if loopRange.Some? {
        currentTime := loopRange.value.lower;
      } else {
        currentTime := 0.0;
      }
      segmentStartTime := currentTime;
    }

    method Seek(time: real)
      modifies this
      ensures State() == SeekStep(old(State()), time)
      ensures WellFormed(old(State())) ==> WellFormed(State())
    {
      if WellFormed(State()) {
        StepsPreserveWellFormed(State(), time, None, AudioFile(1.0, 0), 0.0);
      }
      var newTime := Max(0.0, Min(time, fileDuration));
      currentTime := newTime;
      segmentStartTime := newTime;
      ScheduleSegment(newTime);
    }

    method UpdatePosition(elapsed: Option<real>)
      modifies this
      ensures State() == UpdateStep(old(State()), elapsed)
      ensures WellFormed(old(State())) ==> WellFormed(State())
    {
      if WellFormed(State()) {
        StepsPreserveWellFormed(State(), 0.0, elapsed, AudioFile(1.0, 0), 0.0);
      }
      if elapsed.None? {
        return;
      }
      var newTime := segmentStartTime + elapsed.value;
      if newTime >= 0.0 {
        if isLooping && loopRange.Some? {
          var range := loopRange.value;
          if newTime >= range.upper {
            assert UpdateStep(State(), elapsed) == SeekStep(State(), range.lower);
            Seek(range.lower);
            return;
          }
        }
        if newTime >= fileDuration {
          Stop();
          return;
        }
        currentTime := newTime;
      }
    }

    method SegmentCompleted()
      modifies this
      ensures State() == CompletedStep(old(State()))
      ensures WellFormed(old(State())) ==> WellFormed(State())
    {
      if !isLooping {
        isPlaying := false;
      }
    }

    /** The `isLooping` property, set by the view model. */
    method SetLooping(enabled: bool)
      modifies this`isLooping
      ensures State() == old(State()).(isLooping := enabled)
      ensures WellFormed(old(State())) ==> WellFormed(State())
    {
      isLooping := enabled;
    }

    /** The `loopRange` property, set by the view model; a `ClosedRange` is never reversed. */
    method SetLoopRange(range: Option<LoopRange>)
      requires range.Some? ==> range.value.lower <= range.value.upper
      modifies this`loopRange
      ensures State() == old(State()).(loopRange := range)
      ensures WellFormed(old(State())) ==> WellFormed(State())
    {
      loopRange := range;
    }
  }
}
