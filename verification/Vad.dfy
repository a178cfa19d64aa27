/** Voice-activity segmentation of the caller's audio. The detector and the resampler are arbitrary
    functions of everything they were fed; thresholds and scores are exact reals. */
module Vad {
  import opened Bytes
  import opened StreamSplitter

  const FRAME := 256
  const FRAME_MS := 16.0 // 256 samples at 16 kHz
  const PRE_ROLL_MAX := 2400 // 300 ms at 8 kHz

  /** `silence_timeout_ms * 16000 / 1000` in 32 bits: the product wraps. */
  function SilenceSamples(timeoutMs: u32): (n: nat)
    ensures n <= 4294967
    ensures timeoutMs <= 268435 ==> n == 16 * timeoutMs
  {
    timeoutMs * 16000 % 0x1_0000_0000 / 1000
  }

  datatype Config = Config(
    threshold: real,
    onsetMs: real,
    decay: real,
    minRms: real,
    timeoutMs: u32,
    resample: seq<seq<i16>> -> seq<i16>,
    predict: seq<seq<i16>> -> real)

  // ---- When: onset and end ---------------------------------------------------------------------

  datatype Clock = Clock(inSpeech: bool, onset: real, silence: nat)

  datatype Signal = Nothing | Onset | End

  const IDLE := Clock(false, 0.0, 0)

  /** One scored frame. */
  function Tick(cfg: Config, c: Clock, voiced: bool): (Clock, Signal) {
    var onset := if voiced then c.onset + FRAME_MS else c.onset * (1.0 - cfg.decay);
    if !c.inSpeech then
      if onset >= cfg.onsetMs then (Clock(true, onset, 0), Onset) else (Clock(false, onset, c.silence), Nothing)
    else if voiced then (Clock(true, onset, 0), Nothing)
    else
      var silence := c.silence + FRAME;
      if silence >= SilenceSamples(cfg.timeoutMs) then (Clock(false, 0.0, silence), End)
      else (Clock(true, onset, silence), Nothing)
  }

  // ---- What: pre-roll and speech -------------------------------------------------------------------

  datatype Sound = Sound(preRoll: seq<i16>, speech: seq<i16>)

  function LastOf(s: seq<i16>): seq<i16> {
    if |s| > PRE_ROLL_MAX then s[|s| - PRE_ROLL_MAX..] else s
  }

  /** Caller audio goes to the speech segment, or to the bounded pre-roll. */
  function Hear(sound: Sound, inSpeech: bool, samples: seq<i16>): Sound {
    if inSpeech then sound.(speech := sound.speech + samples)
    else sound.(preRoll := LastOf(sound.preRoll + samples))
  }

  /** An onset makes the pre-roll the start of the segment; an end hands the segment out. */
  function Turn(sound: Sound, signal: Signal): (Sound, seq<seq<i16>>) {
    match signal
    case Nothing => (sound, [])
    case Onset => (Sound([], sound.preRoll), [])
    case End => if sound.speech == [] then (sound, []) else (Sound([], []), [sound.speech])
  }

  // ---- Scoring ------------------------------------------------------------------------------------

  function Energy(frame: seq<i16>): (e: nat) {
    if frame == [] then 0 else Square(frame[0]) + Energy(frame[1..])
  }

  function Square(s: int): (n: nat)
    ensures n == s * s
  {
    assert s * s >= 0;
    s * s
  }

  /** Root-mean-square of the frame over full scale is at least `minRms`. */
  predicate Loud(frame: seq<i16>, minRms: real)
    requires |frame| == FRAME
  {
    minRms <= 0.0 || Energy(frame) as real / FRAME as real >= (minRms * 32768.0) * (minRms * 32768.0)
  }

  lemma {:induction false} FlatEnergy(frame: seq<i16>, a: int)
    requires forall i :: 0 <= i < |frame| ==> frame[i] == a || frame[i] == -a
    ensures Energy(frame) == |frame| * (a * a)
  {
    if frame != [] {
      FlatEnergy(frame[1..], a);
      assert (-a) * (-a) == a * a;
      assert |frame| * (a * a) == (|frame| - 1) * (a * a) + a * a;
    }
  }

  lemma SquaresOrdered(x: real, y: real)
    requires x >= 0.0 && y > 0.0
    ensures x * x >= y * y <==> x >= y
  {
    var d, sum := x - y, x + y;
    assert x * x - y * y == d * sum;
    if d >= 0.0 {
      assert d * sum >= 0.0;
    } else {
      assert (-d) * sum > 0.0;
      assert (-d) * sum == -(d * sum);
    }
  }

  /** A frame of samples of amplitude `a`, whatever their signs, passes the gate exactly when `a` over
      full scale is at least `minRms`. */
  lemma FlatFrameLoud(frame: seq<i16>, a: int, minRms: real)
    requires a >= 0 && |frame| == 256 && forall i :: 0 <= i < |frame| ==> frame[i] == a || frame[i] == -a
    ensures Loud(frame, minRms) <==> a as real >= minRms * 32768.0
  {
    FlatEnergy(frame, a);
    var mean := (256 * (a * a)) as real / 256.0;
    assert mean == a as real * a as real;
    if minRms > 0.0 {
      SquaresOrdered(a as real, minRms * 32768.0);
    }
  }

  /** The detector sees only frames that pass the gate; a frame is voiced when it passes the gate
      and scores at least the threshold. */
  function Seen(cfg: Config, seen: seq<seq<i16>>, frame: seq<i16>): seq<seq<i16>>
    requires |frame| == FRAME
  {
    if Loud(frame, cfg.minRms) then seen + [frame] else seen
  }

  predicate Voiced(cfg: Config, seen: seq<seq<i16>>, frame: seq<i16>)
    requires |frame| == FRAME
  {
    Loud(frame, cfg.minRms) && cfg.predict(seen + [frame]) >= cfg.threshold
  }

  // ---- One call to write_frame ----------------------------------------------------------------------

  datatype State = State(clock: Clock, sound: Sound, stage: seq<i16>, chunks: seq<seq<i16>>, seen: seq<seq<i16>>)

  const START := State(IDLE, Sound([], []), [], [], [])

  /** The state afterwards, the segments handed out, and the signals in order. */
  datatype Outcome = Outcome(st: State, segments: seq<seq<i16>>, signals: seq<Signal>)

  function ScoreFirst(cfg: Config, st: State): Outcome
    requires |st.stage| >= FRAME
  {
    var frame := st.stage[..FRAME];
    var (clock, signal) := Tick(cfg, st.clock, Voiced(cfg, st.seen, frame));
    var (sound, segments) := Turn(st.sound, signal);
    Outcome(State(clock, sound, st.stage[FRAME..], st.chunks, Seen(cfg, st.seen, frame)), segments, [signal])
  }

  function DrainStage(cfg: Config, st: State): (out: Outcome)
    ensures |out.st.stage| < FRAME
    decreases |st.stage|
  {
    if |st.stage| < FRAME then Outcome(st, [], [])
    else
      var first := ScoreFirst(cfg, st);
      var later := DrainStage(cfg, first.st);
      Outcome(later.st, first.segments + later.segments, first.signals + later.signals)
  }

  function Arrive(cfg: Config, st: State, samples: seq<i16>): State {
    State(st.clock, Hear(st.sound, st.clock.inSpeech, samples),
          st.stage + cfg.resample(st.chunks + [samples]), st.chunks + [samples], st.seen)
  }

  function Write(cfg: Config, st: State, samples: seq<i16>): Outcome {
    if samples == [] then Outcome(st, [], []) else DrainStage(cfg, Arrive(cfg, st, samples))
  }

  class CallState {
    const cfg: Config
    var preRoll: seq<i16>
    var inSpeech: bool
    var onsetAccumMs: real
    var speechBuffer: seq<i16>
    var vadStage: seq<i16>
    var currentSilence: nat
    var resampled: seq<seq<i16>> // what the resampler was fed
    var predicted: seq<seq<i16>> // what the detector was fed
    var sent: seq<seq<i16>>

    ghost function Now(): State
      reads this
    {
      State(Clock(inSpeech, onsetAccumMs, currentSilence), Sound(preRoll, speechBuffer), vadStage, resampled, predicted)
    }

    constructor (cfg: Config)
      ensures this.cfg == cfg && Now() == START && sent == []
    {
      this.cfg := cfg;
      preRoll, inSpeech, onsetAccumMs, speechBuffer, vadStage := [], false, 0.0, [], [];
      currentSilence, resampled, predicted, sent := 0, [], [], [];
    }

    method WriteFrame(samples: seq<i16>)
      modifies this
      ensures Now() == Write(cfg, old(Now()), samples).st
      ensures sent == old(sent) + Write(cfg, old(Now()), samples).segments
    {
      if samples == [] {
        assert sent + [] == sent;
        return;
      }
      Accumulate(samples);
      resampled := resampled + [samples];
      vadStage := vadStage + cfg.resample(resampled);
      ghost var arrived, before := Now(), sent;
      assert sent + DrainStage(cfg, arrived).segments == before + DrainStage(cfg, arrived).segments;
      while |vadStage| >= FRAME
        invariant DrainStage(cfg, Now()).st == DrainStage(cfg, arrived).st
        invariant sent + DrainStage(cfg, Now()).segments == before + DrainStage(cfg, arrived).segments
        decreases |vadStage|
      {
        Reassociate(sent, ScoreFirst(cfg, Now()).segments, DrainStage(cfg, ScoreFirst(cfg, Now()).st).segments);
        ScoreOne();
      }
      assert sent + [] == sent;
    }

    method Accumulate(samples: seq<i16>)
      modifies this
      ensures Now() == old(Now()).(sound := Hear(old(Now()).sound, old(inSpeech), samples))
      ensures sent == old(sent)
    {
      if inSpeech {
        speechBuffer := speechBuffer + samples;
      } else {
        preRoll := preRoll + samples;
        TrimPreRoll();
      }
    }

    method TrimPreRoll()
      modifies this`preRoll
      ensures preRoll == LastOf(old(preRoll))
    {
      while |preRoll| > PRE_ROLL_MAX
        invariant LastOf(preRoll) == LastOf(old(preRoll))
        decreases |preRoll|
      {
        assert preRoll[1..][|preRoll| - 1 - PRE_ROLL_MAX..] == preRoll[|preRoll| - PRE_ROLL_MAX..];
        preRoll := preRoll[1..];
      }
    }

    /** Score the frame and say whether it is voiced. */
    method Score(frame: seq<i16>) returns (voiced: bool)
      requires |frame| == FRAME
      modifies this`predicted
      ensures voiced == Voiced(cfg, old(predicted), frame) && predicted == Seen(cfg, old(predicted), frame)
    {
      var score := -1.0;
      var gate := Loud(frame, cfg.minRms);
      if gate {
        predicted := predicted + [frame];
        score := cfg.predict(predicted);
      }
      voiced := score >= cfg.threshold && gate;
    }

    /** The body of the frame loop. */
    method ScoreOne()
      requires |vadStage| >= FRAME
      modifies this
      ensures Now() == ScoreFirst(cfg, old(Now())).st
      ensures sent == old(sent) + ScoreFirst(cfg, old(Now())).segments
    {
      var frame := vadStage[..FRAME];
      vadStage := vadStage[FRAME..];
      var voiced := Score(frame);
      Decide(voiced);
    }

    method Decide(voiced: bool)
      modifies this`onsetAccumMs, this`inSpeech, this`speechBuffer, this`preRoll, this`currentSilence, this`sent
      ensures var (clock, signal) := Tick(cfg, old(Now()).clock, voiced);
              var (sound, segments) := Turn(old(Now()).sound, signal);
              Now().clock == clock && Now().sound == sound && sent == old(sent) + segments
    {
      if voiced {
        onsetAccumMs := onsetAccumMs + FRAME_MS;
      } else {
        onsetAccumMs := onsetAccumMs * (1.0 - cfg.decay);
      }
      var onsetFired := !inSpeech && onsetAccumMs >= cfg.onsetMs;
      assert sent + [] == sent;
      if voiced || onsetFired {
        if !inSpeech && onsetFired {
          inSpeech := true;
          speechBuffer, preRoll := preRoll, [];
          currentSilence := 0;
        }
        if inSpeech {
          currentSilence := 0;
        }
      } else if inSpeech {
        currentSilence := currentSilence + FRAME;
        if currentSilence >= SilenceSamples(cfg.timeoutMs) {
          inSpeech := false;
          onsetAccumMs := 0.0;
          var speech := speechBuffer;
          speechBuffer := [];
          if speech != [] {
            sent := sent + [speech];
            preRoll := [];
          }
        }
      }
    }
  }

  // ---- Where the segments lie in the caller's stream ---------------------------------------------------

  /** A segment as positions in the stream, and how much had been heard when its onset fired. */
  datatype Window = Window(start: nat, end: nat, onset: nat)

  /** Positions only: samples heard, end of the last window, and the segment under way. */
  datatype Marks = Marks(pos: nat, lastEnd: nat, start: nat, onset: nat, windows: seq<Window>)

  const UNMARKED := Marks(0, 0, 0, 0, [])

  function Max(a: int, b: int): int {
    if a > b then a else b
  }

  function Mark(m: Marks, signal: Signal): Marks {
    match signal
    case Nothing => m
    case Onset => m.(start := Max(m.lastEnd, m.pos - PRE_ROLL_MAX), onset := m.pos)
    case End =>
      if m.start == m.pos then m
      else m.(lastEnd := m.pos, windows := m.windows + [Window(m.start, m.pos, m.onset)])
  }

  function MarkAll(m: Marks, signals: seq<Signal>): Marks
    decreases signals
  {
    if signals == [] then m else MarkAll(Mark(m, signals[0]), signals[1..])
  }

  function Advance(m: Marks, n: nat): Marks {
    m.(pos := m.pos + n)
  }

  function Slice(stream: seq<i16>, w: Window): seq<i16> {
    if w.start <= w.end <= |stream| then stream[w.start..w.end] else []
  }

  function Slices(stream: seq<i16>, ws: seq<Window>): seq<seq<i16>> {
    if ws == [] then [] else Slices(stream, ws[..|ws| - 1]) + [Slice(stream, ws[|ws| - 1])]
  }

  /** Where the window before the `i`-th ends. */
  function PrevEnd(ws: seq<Window>, i: nat): nat
    requires i <= |ws|
  {
    if i == 0 then 0 else ws[i - 1].end
  }

  /** Windows are non-empty, disjoint, in order, and each starts exactly at its onset less the
      pre-roll, or at the end of the window before it if that is later. */
  ghost predicate WellPlaced(ws: seq<Window>) {
    forall i :: 0 <= i < |ws| ==> WellPlacedAt(ws, i)
  }

  predicate WellPlacedAt(ws: seq<Window>, i: nat)
    requires i < |ws|
  {
    && ws[i].start < ws[i].end && ws[i].onset <= ws[i].end
    && ws[i].start == Max(PrevEnd(ws, i), ws[i].onset - 2400)
  }

  ghost predicate Placed(m: Marks, inSpeech: bool) {
    && m.lastEnd == PrevEnd(m.windows, |m.windows|) <= m.pos
    && WellPlaced(m.windows)
    && (inSpeech ==> m.onset <= m.pos && m.start == Max(m.lastEnd, m.onset - PRE_ROLL_MAX) <= m.pos)
  }

  /** The buffer of the active mode holds its stretch of the stream; the other one is empty. */
  ghost predicate Holds(stream: seq<i16>, sound: Sound, inSpeech: bool, m: Marks) {
    && m.pos == |stream| && m.lastEnd <= |stream|
    && (if inSpeech then m.start <= |stream| && sound == Sound([], stream[m.start..])
        else sound == Sound(stream[Max(m.lastEnd, |stream| - PRE_ROLL_MAX)..], []))
  }

  lemma {:induction false} SlicesGrow(stream: seq<i16>, more: seq<i16>, ws: seq<Window>)
    requires forall i :: 0 <= i < |ws| ==> ws[i].end <= |stream|
    ensures Slices(stream + more, ws) == Slices(stream, ws)
  {
    if ws != [] {
      SlicesGrow(stream, more, ws[..|ws| - 1]);
      var w := ws[|ws| - 1];
      assert w.start <= w.end ==> (stream + more)[w.start..w.end] == stream[w.start..w.end];
    }
  }

  lemma HearHolds(stream: seq<i16>, sound: Sound, inSpeech: bool, m: Marks, samples: seq<i16>)
    requires Holds(stream, sound, inSpeech, m)
    ensures Holds(stream + samples, Hear(sound, inSpeech, samples), inSpeech, Advance(m, |samples|))
  {
    var all := stream + samples;
    if inSpeech {
      assert stream[m.start..] + samples == all[m.start..];
    } else {
      var from := Max(m.lastEnd, |stream| - PRE_ROLL_MAX);
      assert stream[from..] + samples == all[from..];
      if |all| - from > PRE_ROLL_MAX {
        assert all[from..][|all| - from - PRE_ROLL_MAX..] == all[|all| - PRE_ROLL_MAX..];
      }
    }
  }

  /** A signal fits the mode it comes in, and says which mode comes next. */
  predicate Fits(inSpeech: bool, signal: Signal, next: bool) {
    match signal
    case Nothing => next == inSpeech
    case Onset => !inSpeech && next
    case End => inSpeech && !next
  }

  lemma TickFits(cfg: Config, c: Clock, voiced: bool)
    ensures Fits(c.inSpeech, Tick(cfg, c, voiced).1, Tick(cfg, c, voiced).0.inSpeech)
  {
  }

  lemma TurnHolds(stream: seq<i16>, sound: Sound, inSpeech: bool, m: Marks, signal: Signal, next: bool)
    requires Holds(stream, sound, inSpeech, m) && Fits(inSpeech, signal, next)
    requires inSpeech && m.start == m.pos ==> m.lastEnd == m.pos
    ensures Holds(stream, Turn(sound, signal).0, next, Mark(m, signal))
    ensures Slices(stream, Mark(m, signal).windows) == Slices(stream, m.windows) + Turn(sound, signal).1
  {
    assert Slices(stream, m.windows) + [] == Slices(stream, m.windows);
    if signal == End {
      if m.start < m.pos {
        var ws := Mark(m, signal).windows;
        assert ws[..|ws| - 1] == m.windows;
        assert stream[|stream|..] == [] && stream[m.start..|stream|] == stream[m.start..];
      } else {
        assert stream[|stream|..] == [];
      }
    }
  }

  lemma MarkPlaced(m: Marks, inSpeech: bool, signal: Signal, next: bool)
    requires Placed(m, inSpeech) && Fits(inSpeech, signal, next)
    ensures Placed(Mark(m, signal), next)
  {
    if signal == End && m.start < m.pos {
      var ws, all := m.windows, Mark(m, signal).windows;
      forall i | 0 <= i < |all|
        ensures WellPlacedAt(all, i)
      {
        if i < |ws| {
          assert WellPlacedAt(ws, i);
          assert all[i] == ws[i] && PrevEnd(all, i) == PrevEnd(ws, i);
        }
      }
    }
  }

  /** A segment is empty only where the last one ended: its pre-roll was empty, so it started there. */
  lemma EmptyOnlyAtEnd(m: Marks)
    requires Placed(m, true) && m.start == m.pos
    ensures m.lastEnd == m.pos
  {
  }

  /** All of it at once: buffers, marks, and the segments handed out so far. */
  ghost predicate Tracked(stream: seq<i16>, st: State, m: Marks, segments: seq<seq<i16>>) {
    && Holds(stream, st.sound, st.clock.inSpeech, m)
    && Placed(m, st.clock.inSpeech)
    && segments == Slices(stream, m.windows)
  }

  lemma {:induction false} EndsBounded(ws: seq<Window>, n: nat, i: nat)
    requires WellPlaced(ws) && PrevEnd(ws, |ws|) <= n && i < |ws|
    ensures ws[i].end <= n
    decreases |ws| - i
  {
    if i + 1 < |ws| {
      EndsBounded(ws, n, i + 1);
      assert WellPlacedAt(ws, i + 1);
    }
  }

  lemma ArriveTracked(cfg: Config, stream: seq<i16>, st: State, m: Marks, segments: seq<seq<i16>>, samples: seq<i16>)
    requires Tracked(stream, st, m, segments)
    ensures Tracked(stream + samples, Arrive(cfg, st, samples), Advance(m, |samples|), segments)
  {
    HearHolds(stream, st.sound, st.clock.inSpeech, m, samples);
    forall i | 0 <= i < |m.windows|
      ensures m.windows[i].end <= |stream|
    {
      EndsBounded(m.windows, |stream|, i);
    }
    SlicesGrow(stream, samples, m.windows);
  }

  lemma ScoreTracked(cfg: Config, stream: seq<i16>, st: State, m: Marks, segments: seq<seq<i16>>)
    requires |st.stage| >= FRAME && Tracked(stream, st, m, segments)
    ensures var out := ScoreFirst(cfg, st);
            |out.signals| == 1 && Tracked(stream, out.st, Mark(m, out.signals[0]), segments + out.segments)
  {
    var voiced := Voiced(cfg, st.seen, st.stage[..FRAME]);
    var (clock, signal) := Tick(cfg, st.clock, voiced);
    TickFits(cfg, st.clock, voiced);
    if st.clock.inSpeech && m.start == m.pos {
      EmptyOnlyAtEnd(m);
    }
    TurnHolds(stream, st.sound, st.clock.inSpeech, m, signal, clock.inSpeech);
    MarkPlaced(m, st.clock.inSpeech, signal, clock.inSpeech);
  }

  lemma {:induction false} DrainTracked(cfg: Config, stream: seq<i16>, st: State, m: Marks, segments: seq<seq<i16>>)
    requires Tracked(stream, st, m, segments)
    ensures var out := DrainStage(cfg, st);
            Tracked(stream, out.st, MarkAll(m, out.signals), segments + out.segments)
    decreases |st.stage|
  {
    if |st.stage| < FRAME {
      assert segments + [] == segments;
    } else {
      var first := ScoreFirst(cfg, st);
      ScoreTracked(cfg, stream, st, m, segments);
      DrainTracked(cfg, stream, first.st, Mark(m, first.signals[0]), segments + first.segments);
      var later := DrainStage(cfg, first.st);
      Reassociate(segments, first.segments, later.segments);
      assert (first.signals + later.signals)[1..] == later.signals;
    }
  }

  /** A call from its start, frame by frame. */
  function Run(cfg: Config, st: State, frames: seq<seq<i16>>): Outcome
    decreases frames
  {
    if frames == [] then Outcome(st, [], [])
    else
      var first := Write(cfg, st, frames[0]);
      var later := Run(cfg, first.st, frames[1..]);
      Outcome(later.st, first.segments + later.segments, first.signals + later.signals)
  }

  /** The marks its signals leave. */
  function RunMarks(cfg: Config, st: State, m: Marks, frames: seq<seq<i16>>): Marks
    decreases frames
  {
    if frames == [] then m
    else
      var first := Write(cfg, st, frames[0]);
      RunMarks(cfg, first.st, MarkAll(Advance(m, |frames[0]|), first.signals), frames[1..])
  }

  lemma WriteTracked(cfg: Config, stream: seq<i16>, st: State, m: Marks, segments: seq<seq<i16>>, samples: seq<i16>)
    requires Tracked(stream, st, m, segments)
    ensures var out := Write(cfg, st, samples);
            Tracked(stream + samples, out.st, MarkAll(Advance(m, |samples|), out.signals), segments + out.segments)
  {
    if samples == [] {
      assert stream + samples == stream && segments + [] == segments;
    } else {
      ArriveTracked(cfg, stream, st, m, segments, samples);
      DrainTracked(cfg, stream + samples, Arrive(cfg, st, samples), Advance(m, |samples|), segments);
    }
  }

  lemma {:induction false} RunTracked(cfg: Config, stream: seq<i16>, st: State, m: Marks, segments: seq<seq<i16>>,
                                      frames: seq<seq<i16>>)
    requires Tracked(stream, st, m, segments)
    ensures Tracked(stream + Concat(frames), Run(cfg, st, frames).st, RunMarks(cfg, st, m, frames),
                    segments + Run(cfg, st, frames).segments)
    decreases frames
  {
    if frames == [] {
      assert stream + [] == stream && segments + [] == segments;
    } else {
      var first := Write(cfg, st, frames[0]);
      WriteTracked(cfg, stream, st, m, segments, frames[0]);
      RunTracked(cfg, stream + frames[0], first.st, MarkAll(Advance(m, |frames[0]|), first.signals),
                 segments + first.segments, frames[1..]);
      Reassociate(stream, frames[0], Concat(frames[1..]));
      Reassociate(segments, first.segments, Run(cfg, first.st, frames[1..]).segments);
    }
  }

  /** The segments of a call are windows of the caller's stream: contiguous, non-empty, disjoint, in
      order, each starting exactly at the later of the previous segment's end and its onset less
      the pre-roll; and at every moment the buffer of the inactive mode is empty. */
  lemma SegmentsAreWindows(cfg: Config, frames: seq<seq<i16>>)
    ensures var out, m := Run(cfg, START, frames), RunMarks(cfg, START, UNMARKED, frames);
            && out.segments == Slices(Concat(frames), m.windows)
            && WellPlaced(m.windows) && PrevEnd(m.windows, |m.windows|) <= |Concat(frames)|
            && (out.st.clock.inSpeech ==> out.st.sound.preRoll == [])
            && (!out.st.clock.inSpeech ==> out.st.sound.speech == [])
  {
    assert Tracked([], START, UNMARKED, []);
    RunTracked(cfg, [], START, UNMARKED, [], frames);
    assert [] + Concat(frames) == Concat(frames);
    assert [] + Run(cfg, START, frames).segments == Run(cfg, START, frames).segments;
  }

  /** Fewer samples than a detector frame are ever left over between calls. */
  lemma {:induction false} StageBelowFrame(cfg: Config, st: State, frames: seq<seq<i16>>)
    requires |st.stage| < FRAME
    ensures |Run(cfg, st, frames).st.stage| < FRAME
    decreases frames
  {
    if frames != [] {
      StageBelowFrame(cfg, Write(cfg, st, frames[0]).st, frames[1..]);
    }
  }
}
