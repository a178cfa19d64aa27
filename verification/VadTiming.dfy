/** When speech starts and ends, over any sequence of scored frames. */
module VadTiming {
  import opened Bytes
  import opened StreamSplitter
  import opened Vad

  datatype Ticked = Ticked(clock: Clock, signals: seq<Signal>)

  function Ticks(cfg: Config, c: Clock, voices: seq<bool>): (t: Ticked)
    ensures |t.signals| == |voices|
    decreases voices
  {
    if voices == [] then Ticked(c, [])
    else
      var (next, signal) := Tick(cfg, c, voices[0]);
      var later := Ticks(cfg, next, voices[1..]);
      Ticked(later.clock, [signal] + later.signals)
  }

  lemma {:induction false} TicksAppend(cfg: Config, c: Clock, a: seq<bool>, b: seq<bool>)
    ensures var first := Ticks(cfg, c, a);
            var later := Ticks(cfg, first.clock, b);
            Ticks(cfg, c, a + b) == Ticked(later.clock, first.signals + later.signals)
    decreases a
  {
    if a == [] {
      assert a + b == b && [] + Ticks(cfg, c, b).signals == Ticks(cfg, c, b).signals;
    } else {
      assert (a + b)[1..] == a[1..] + b;
      var (next, signal) := Tick(cfg, c, a[0]);
      TicksAppend(cfg, next, a[1..], b);
      var first := Ticks(cfg, next, a[1..]);
      Reassociate([signal], first.signals, Ticks(cfg, first.clock, b).signals);
    }
  }

  // ---- The ticks of a call --------------------------------------------------------------------

  /** Which of the staged frames are voiced, as they come to be scored. */
  function StageVoices(cfg: Config, st: State): seq<bool>
    decreases |st.stage|
  {
    if |st.stage| < FRAME then []
    else [Voiced(cfg, st.seen, st.stage[..FRAME])] + StageVoices(cfg, ScoreFirst(cfg, st).st)
  }

  lemma {:induction false} DrainTicks(cfg: Config, st: State)
    ensures var out := DrainStage(cfg, st);
            Ticks(cfg, st.clock, StageVoices(cfg, st)) == Ticked(out.st.clock, out.signals)
    decreases |st.stage|
  {
    if |st.stage| >= FRAME {
      DrainTicks(cfg, ScoreFirst(cfg, st).st);
    }
  }

  function Voices(cfg: Config, st: State, frames: seq<seq<i16>>): seq<bool>
    decreases frames
  {
    if frames == [] then []
    else
      (if frames[0] == [] then [] else StageVoices(cfg, Arrive(cfg, st, frames[0])))
      + Voices(cfg, Write(cfg, st, frames[0]).st, frames[1..])
  }

  /** The signals of a call are those of its voiced and unvoiced frames: the laws below are laws of
      the running system. */
  lemma {:induction false} RunTicks(cfg: Config, st: State, frames: seq<seq<i16>>)
    ensures var out := Run(cfg, st, frames);
            Ticks(cfg, st.clock, Voices(cfg, st, frames)) == Ticked(out.st.clock, out.signals)
    decreases frames
  {
    if frames != [] {
      var first := Write(cfg, st, frames[0]);
      var voices := if frames[0] == [] then [] else StageVoices(cfg, Arrive(cfg, st, frames[0]));
      if frames[0] != [] {
        DrainTicks(cfg, Arrive(cfg, st, frames[0]));
      }
      RunTicks(cfg, first.st, frames[1..]);
      TicksAppend(cfg, st.clock, voices, Voices(cfg, first.st, frames[1..]));
    }
  }

  // ---- Which frames are voiced --------------------------------------------------------------------

  /** All that the resampler makes of a call, from what it has been fed before. */
  function Resampled(cfg: Config, fed: seq<seq<i16>>, frames: seq<seq<i16>>): seq<i16>
    decreases frames
  {
    if frames == [] then []
    else if frames[0] == [] then Resampled(cfg, fed, frames[1..])
    else cfg.resample(fed + [frames[0]]) + Resampled(cfg, fed + [frames[0]], frames[1..])
  }

  /** The detector frames of a stream that pass the gate, in order. */
  function LoudFrames(minRms: real, stream: seq<i16>): seq<seq<i16>>
    decreases |stream|
  {
    if |stream| < 256 then []
    else (if Loud(stream[..256], minRms) then [stream[..256]] else []) + LoudFrames(minRms, stream[256..])
  }

  function VoicesOf(cfg: Config, seen: seq<seq<i16>>, stream: seq<i16>): seq<bool>
    decreases |stream|
  {
    if |stream| < 256 then []
    else [Voiced(cfg, seen, stream[..256])] + VoicesOf(cfg, Seen(cfg, seen, stream[..256]), stream[256..])
  }

  /** What draining leaves of a stream. */
  function Leftover(stream: seq<i16>): seq<i16>
    decreases |stream|
  {
    if |stream| < 256 then stream else Leftover(stream[256..])
  }

  lemma {:induction false} DrainSees(cfg: Config, st: State)
    ensures StageVoices(cfg, st) == VoicesOf(cfg, st.seen, st.stage)
    ensures var last := DrainStage(cfg, st).st;
            && last.seen == st.seen + LoudFrames(cfg.minRms, st.stage) && last.stage == Leftover(st.stage)
            && last.chunks == st.chunks
    decreases |st.stage|
  {
    if |st.stage| < FRAME {
      assert st.seen + [] == st.seen;
    } else {
      DrainSees(cfg, ScoreFirst(cfg, st).st);
      var frame := st.stage[..256];
      SeenLoud(cfg, st.seen, frame, LoudFrames(cfg.minRms, st.stage[256..]));
    }
  }

  lemma SeenLoud(cfg: Config, seen: seq<seq<i16>>, frame: seq<i16>, later: seq<seq<i16>>)
    requires |frame| == 256
    ensures Seen(cfg, seen, frame) + later == seen + ((if Loud(frame, cfg.minRms) then [frame] else []) + later)
  {
    assert [] + later == later;
    Reassociate(seen, [frame], later);
  }

  /** A stream scored in two parts is scored as a whole. */
  lemma {:induction false} VoicesInTwo(cfg: Config, seen: seq<seq<i16>>, a: seq<i16>, b: seq<i16>)
    ensures VoicesOf(cfg, seen, a + b) ==
            VoicesOf(cfg, seen, a) + VoicesOf(cfg, seen + LoudFrames(cfg.minRms, a), Leftover(a) + b)
    decreases |a|
  {
    if |a| < 256 {
      assert seen + [] == seen;
      assert [] + VoicesOf(cfg, seen, a + b) == VoicesOf(cfg, seen, a + b);
    } else {
      var frame := a[..256];
      assert (a + b)[..256] == frame && (a + b)[256..] == a[256..] + b;
      VoicesInTwo(cfg, Seen(cfg, seen, frame), a[256..], b);
      SeenLoud(cfg, seen, frame, LoudFrames(cfg.minRms, a[256..]));
    }
  }

  /** The voices of a call are those of everything the resampler made of it, cut into detector frames
      without regard to the media frames it came in. */
  lemma {:induction false} VoicesOfCall(cfg: Config, st: State, frames: seq<seq<i16>>)
    requires |st.stage| < 256
    ensures Voices(cfg, st, frames) == VoicesOf(cfg, st.seen, st.stage + Resampled(cfg, st.chunks, frames))
    decreases frames
  {
    if frames == [] {
      assert st.stage + [] == st.stage;
    } else if frames[0] == [] {
      VoicesOfCall(cfg, st, frames[1..]);
      assert [] + Voices(cfg, st, frames[1..]) == Voices(cfg, st, frames[1..]);
    } else {
      var arrived, next := Arrive(cfg, st, frames[0]), Write(cfg, st, frames[0]).st;
      var later := Resampled(cfg, next.chunks, frames[1..]);
      DrainSees(cfg, arrived);
      VoicesOfCall(cfg, next, frames[1..]);
      VoicesInTwo(cfg, st.seen, arrived.stage, later);
      Reassociate(st.stage, cfg.resample(st.chunks + [frames[0]]), later);
    }
  }

  /** Frame `i` of a stream is voiced exactly when it passes the gate and the detector, fed all frames
      up to it that do, scores at least the threshold. */
  lemma {:induction false} VoicedExactly(cfg: Config, seen: seq<seq<i16>>, stream: seq<i16>, i: nat)
    requires 256 * (i + 1) <= |stream|
    ensures i < |VoicesOf(cfg, seen, stream)|
    ensures VoicesOf(cfg, seen, stream)[i] <==>
            && Loud(stream[256 * i..256 * (i + 1)], cfg.minRms)
            && cfg.predict(seen + LoudFrames(cfg.minRms, stream[..256 * (i + 1)])) >= cfg.threshold
    decreases i
  {
    var frame, rest := stream[..256], stream[256..];
    var upTo := stream[..256 * (i + 1)];
    assert upTo[..256] == frame && upTo[256..] == rest[..256 * i];
    SeenLoud(cfg, seen, frame, LoudFrames(cfg.minRms, upTo[256..]));
    if i == 0 {
      assert upTo[256..] == [];
      if Loud(frame, cfg.minRms) {
        assert [frame] + [] == [frame];
      }
    } else {
      VoicedExactly(cfg, Seen(cfg, seen, frame), rest, i - 1);
      assert rest[256 * (i - 1)..256 * i] == stream[256 * i..256 * (i + 1)];
    }
  }

  // ---- Onset -------------------------------------------------------------------------------------

  predicate Sane(cfg: Config) {
    0.0 <= cfg.decay <= 1.0 && cfg.onsetMs > 0.0
  }

  /** Outside speech the accumulator is below the onset. */
  predicate Below(cfg: Config, c: Clock) {
    c.onset >= 0.0 && (!c.inSpeech ==> c.onset < cfg.onsetMs)
  }

  lemma Decays(onset: real, decay: real)
    requires 0.0 <= decay <= 1.0 && onset >= 0.0
    ensures 0.0 <= onset * (1.0 - decay) <= onset
  {
    var kept := 1.0 - decay;
    assert onset * decay >= 0.0;
    assert onset * kept >= 0.0;
    assert onset * kept == onset - onset * decay;
  }

  lemma TickBelow(cfg: Config, c: Clock, voiced: bool)
    requires Sane(cfg) && Below(cfg, c)
    ensures Below(cfg, Tick(cfg, c, voiced).0)
    ensures Tick(cfg, c, voiced).1 == Onset ==> voiced
    ensures Tick(cfg, c, voiced).0.onset <= c.onset + (if voiced then FRAME_MS else 0.0)
  {
    Decays(c.onset, cfg.decay);
  }

  /** At every moment of a call: outside speech the accumulator is below the onset. */
  lemma {:induction false} AlwaysBelow(cfg: Config, c: Clock, voices: seq<bool>)
    requires Sane(cfg) && Below(cfg, c)
    ensures Below(cfg, Ticks(cfg, c, voices).clock)
    decreases voices
  {
    if voices != [] {
      TickBelow(cfg, c, voices[0]);
      AlwaysBelow(cfg, Tick(cfg, c, voices[0]).0, voices[1..]);
    }
  }

  function Count(voices: seq<bool>): nat {
    if voices == [] then 0 else (if voices[0] then 1 else 0) + Count(voices[1..])
  }

  ghost predicate Silent(signals: seq<Signal>) {
    forall i :: 0 <= i < |signals| ==> signals[i] == Nothing
  }

  /** Every voiced frame adds 16 ms at most. */
  lemma {:induction false} AtMostCounted(cfg: Config, c: Clock, voices: seq<bool>)
    requires Sane(cfg) && Below(cfg, c)
    requires voices != [] && Silent(Ticks(cfg, c, voices).signals[..|voices| - 1])
    requires Ticks(cfg, c, voices).signals[|voices| - 1] == Onset
    ensures voices[|voices| - 1]
    ensures c.onset + FRAME_MS * Count(voices) as real >= cfg.onsetMs
    decreases voices
  {
    TickBelow(cfg, c, voices[0]);
    var (next, signal) := Tick(cfg, c, voices[0]);
    var all, later := Ticks(cfg, c, voices).signals, Ticks(cfg, next, voices[1..]).signals;
    assert all[1..] == later && all[0] == signal;
    if |voices| > 1 {
      assert later[..|later| - 1] == all[..|all| - 1][1..];
      AtMostCounted(cfg, next, voices[1..]);
    } else {
      assert voices[1..] == [];
    }
  }

  /** A stretch of a call: where nothing was signalled between `from` and `n`. */
  ghost predicate QuietUntil(signals: seq<Signal>, from: nat, n: nat) {
    from <= n < |signals| && forall i :: from <= i < n ==> signals[i] == Nothing
  }

  lemma SilentBetween(signals: seq<Signal>, from: nat, n: nat)
    requires QuietUntil(signals, from, n)
    ensures Silent(signals[from..n])
  {
    forall i | 0 <= i < n - from
      ensures signals[from..n][i] == Nothing
    {
      assert signals[from..n][i] == signals[from + i];
    }
  }

  lemma Stretch(cfg: Config, voices: seq<bool>, from: nat, n: nat)
    requires from <= n < |voices|
    ensures var before := Ticks(cfg, IDLE, voices[..from]);
            Ticks(cfg, before.clock, voices[from..n + 1]).signals == Ticks(cfg, IDLE, voices).signals[from..n + 1]
            && before.signals == Ticks(cfg, IDLE, voices).signals[..from]
  {
    var before := Ticks(cfg, IDLE, voices[..from]);
    assert voices == voices[..from] + (voices[from..n + 1] + voices[n + 1..]);
    TicksAppend(cfg, IDLE, voices[..from], voices[from..n + 1] + voices[n + 1..]);
    TicksAppend(cfg, before.clock, voices[from..n + 1], voices[n + 1..]);
  }

  /** Right after a segment ends the accumulator is empty. */
  lemma AfterEnd(cfg: Config, voices: seq<bool>, from: nat)
    requires 0 < from <= |voices| && Ticks(cfg, IDLE, voices).signals[from - 1] == End
    ensures var c := Ticks(cfg, IDLE, voices[..from]).clock;
            !c.inSpeech && c.onset == 0.0
  {
    LastTick(cfg, voices, from);
  }

  lemma LastTick(cfg: Config, voices: seq<bool>, from: nat)
    requires 0 < from <= |voices|
    ensures var c := Ticks(cfg, IDLE, voices[..from - 1]).clock;
            Tick(cfg, c, voices[from - 1]) ==
            (Ticks(cfg, IDLE, voices[..from]).clock, Ticks(cfg, IDLE, voices).signals[from - 1])
  {
    assert voices[..from] == voices[..from - 1] + [voices[from - 1]];
    TicksAppend(cfg, IDLE, voices[..from - 1], [voices[from - 1]]);
    assert [voices[from - 1]][1..] == [];
    Stretch(cfg, voices, from - 1, from - 1);
    assert voices[from - 1..from] == [voices[from - 1]];
  }

  /** The stretch from a segment's end to the next onset, as ticks of their own. */
  lemma QuietStretch(cfg: Config, voices: seq<bool>, from: nat, n: nat)
    requires from <= n < |voices|
    requires var signals := Ticks(cfg, IDLE, voices).signals;
             QuietUntil(signals, from, n) && signals[n] == Onset
    ensures var part := Ticks(cfg, Ticks(cfg, IDLE, voices[..from]).clock, voices[from..n + 1]).signals;
            |part| == n + 1 - from && Silent(part[..n - from]) && part[n - from] == Onset
  {
    Stretch(cfg, voices, from, n);
  }

  /** An onset fires only on a voiced frame, and only after at least onset/16 voiced frames (so the
      ceiling of that many) since the last segment ended or the call began. */
  lemma OnsetNeedsVoice(cfg: Config, voices: seq<bool>, from: nat, n: nat)
    requires Sane(cfg) && from <= n < |voices|
    requires var signals := Ticks(cfg, IDLE, voices).signals;
             QuietUntil(signals, from, n) && signals[n] == Onset && (from == 0 || signals[from - 1] == End)
    ensures voices[n] && FRAME_MS * Count(voices[from..n + 1]) as real >= cfg.onsetMs
  {
    var c := Ticks(cfg, IDLE, voices[..from]).clock;
    assert c.onset == 0.0 && Below(cfg, c) by {
      if from > 0 {
        AfterEnd(cfg, voices, from);
      }
      AlwaysBelow(cfg, IDLE, voices[..from]);
    }
    QuietStretch(cfg, voices, from, n);
    AtMostCounted(cfg, c, voices[from..n + 1]);
  }

  /** Outside speech, enough voiced frames in a row always fire an onset among them. */
  lemma {:induction false} EnoughVoice(cfg: Config, c: Clock, n: nat)
    requires Sane(cfg) && !c.inSpeech && Below(cfg, c) && c.onset + FRAME_MS * n as real >= cfg.onsetMs
    ensures Onset in Ticks(cfg, c, seq(n, _ => true)).signals
    decreases n
  {
    var voices := seq(n, _ => true);
    assert voices[1..] == seq(n - 1, _ => true);
    var (next, signal) := Tick(cfg, c, true);
    if signal == Nothing {
      EnoughVoice(cfg, next, n - 1);
    } else {
      assert Ticks(cfg, c, voices).signals[0] == Onset;
    }
  }

  // ---- The accumulator in closed form --------------------------------------------------------------

  function Power(x: real, n: nat): real {
    if n == 0 then 1.0 else x * Power(x, n - 1)
  }

  function Unvoiced(voices: seq<bool>): nat {
    if voices == [] then 0 else (if voices[0] then 0 else 1) + Unvoiced(voices[1..])
  }

  /** Sixteen milliseconds for each voiced frame, decayed once for each unvoiced frame after it. */
  function Weighed(decay: real, voices: seq<bool>): real {
    if voices == [] then 0.0
    else (if voices[0] then 16.0 * Power(1.0 - decay, Unvoiced(voices[1..])) else 0.0) + Weighed(decay, voices[1..])
  }

  /** The accumulator, frame by frame. */
  function Stepped(decay: real, onset: real, voices: seq<bool>): real
    decreases voices
  {
    if voices == [] then onset
    else
      var next := if voices[0] then onset + 16.0 else onset * (1.0 - decay);
      Stepped(decay, next, voices[1..])
  }

  lemma SteppedOne(decay: real, onset: real, voices: seq<bool>, next: real)
    requires voices != [] && next == if voices[0] then onset + 16.0 else onset * (1.0 - decay)
    ensures Stepped(decay, onset, voices) == Stepped(decay, next, voices[1..])
  {
  }

  /** ... and in closed form. */
  function Accumulated(decay: real, onset: real, voices: seq<bool>): real {
    onset * Power(1.0 - decay, Unvoiced(voices)) + Weighed(decay, voices)
  }

  lemma AccumulateOne(decay: real, onset: real, voices: seq<bool>)
    requires voices != []
    ensures Accumulated(decay, onset, voices) ==
            Accumulated(decay, if voices[0] then onset + 16.0 else onset * (1.0 - decay), voices[1..])
  {
    var kept, p := 1.0 - decay, Power(1.0 - decay, Unvoiced(voices[1..]));
    assert (onset + 16.0) * p == onset * p + 16.0 * p;
    assert onset * (kept * p) == (onset * kept) * p;
  }

  lemma {:induction false} SteppedIsAccumulated(decay: real, onset: real, voices: seq<bool>)
    ensures Stepped(decay, onset, voices) == Accumulated(decay, onset, voices)
    decreases voices
  {
    if voices != [] {
      AccumulateOne(decay, onset, voices);
      SteppedIsAccumulated(decay, if voices[0] then onset + 16.0 else onset * (1.0 - decay), voices[1..]);
    }
  }

  lemma {:induction false} SteppedAppend(decay: real, onset: real, a: seq<bool>, b: seq<bool>)
    ensures Stepped(decay, onset, a + b) == Stepped(decay, Stepped(decay, onset, a), b)
    decreases a
  {
    if a == [] {
      assert a + b == b;
    } else {
      assert (a + b)[1..] == a[1..] + b;
      SteppedAppend(decay, if a[0] then onset + 16.0 else onset * (1.0 - decay), a[1..], b);
    }
  }

  lemma FromNothing(decay: real, voices: seq<bool>)
    ensures Stepped(decay, 0.0, voices) == Weighed(decay, voices)
  {
    SteppedIsAccumulated(decay, 0.0, voices);
  }

  /** A tick outside speech: the accumulator moves, and fires an onset when it reaches it. */
  lemma QuietTick(cfg: Config, c: Clock, voiced: bool)
    requires !c.inSpeech
    ensures var (next, signal) := Tick(cfg, c, voiced);
            && next.onset == (if voiced then c.onset + 16.0 else c.onset * (1.0 - cfg.decay))
            && signal == (if next.onset >= cfg.onsetMs then Onset else Nothing)
            && (signal == Nothing ==> !next.inSpeech)
  {
    assert FRAME_MS == 16.0;
  }

  /** Outside speech: a stretch in which nothing is signalled before its last frame. */
  lemma {:induction false} QuietRun(cfg: Config, c: Clock, voices: seq<bool>)
    requires !c.inSpeech && voices != [] && Silent(Ticks(cfg, c, voices).signals[..|voices| - 1])
    ensures var t, total := Ticks(cfg, c, voices), Stepped(cfg.decay, c.onset, voices);
            && t.signals[|voices| - 1] == (if total >= cfg.onsetMs then Onset else Nothing)
            && t.clock.onset == total
    decreases voices
  {
    var (next, signal) := Tick(cfg, c, voices[0]);
    var all, later := Ticks(cfg, c, voices).signals, Ticks(cfg, next, voices[1..]).signals;
    assert all[1..] == later && all[0] == signal;
    QuietTick(cfg, c, voices[0]);
    SteppedOne(cfg.decay, c.onset, voices, next.onset);
    if |voices| > 1 {
      assert later[..|later| - 1] == all[..|all| - 1][1..];
      assert all[..|all| - 1][0] == signal;
      QuietRun(cfg, next, voices[1..]);
    } else {
      assert voices[1..] == [];
    }
  }

  /** The call begins at `from`, or a segment has just ended. */
  predicate StartsAfresh(cfg: Config, voices: seq<bool>, from: nat)
    requires from <= |voices|
  {
    from == 0 || Ticks(cfg, IDLE, voices).signals[from - 1] == End
  }

  lemma Afresh(cfg: Config, voices: seq<bool>, from: nat)
    requires from <= |voices| && StartsAfresh(cfg, voices, from)
    ensures var c := Ticks(cfg, IDLE, voices[..from]).clock;
            !c.inSpeech && c.onset == 0.0
  {
    if from > 0 {
      AfterEnd(cfg, voices, from);
    } else {
      assert voices[..0] == [];
    }
  }

  /** What the frames from `from` to `n` have accumulated. */
  function Sum(cfg: Config, voices: seq<bool>, from: nat, n: nat): real
    requires from <= n < |voices|
  {
    Weighed(cfg.decay, voices[from..n + 1])
  }

  lemma NextSignal(cfg: Config, voices: seq<bool>, from: nat, n: nat)
    requires from <= n < |voices| && StartsAfresh(cfg, voices, from)
    requires QuietUntil(Ticks(cfg, IDLE, voices).signals, from, n)
    ensures Ticks(cfg, IDLE, voices).signals[n] == if Sum(cfg, voices, from, n) >= cfg.onsetMs then Onset else Nothing
    ensures Ticks(cfg, IDLE, voices[..n + 1]).clock.onset == Sum(cfg, voices, from, n)
  {
    var c, part := Ticks(cfg, IDLE, voices[..from]).clock, voices[from..n + 1];
    Afresh(cfg, voices, from);
    SilentPart(cfg, voices, from, n);
    QuietRun(cfg, c, part);
    FromNothing(cfg.decay, part);
    ClockAfter(cfg, voices, from, n);
  }

  /** The stretch as ticks of its own. */
  lemma SilentPart(cfg: Config, voices: seq<bool>, from: nat, n: nat)
    requires from <= n < |voices| && QuietUntil(Ticks(cfg, IDLE, voices).signals, from, n)
    ensures var part := Ticks(cfg, Ticks(cfg, IDLE, voices[..from]).clock, voices[from..n + 1]).signals;
            Silent(part[..n - from]) && part[n - from] == Ticks(cfg, IDLE, voices).signals[n]
  {
    var signals := Ticks(cfg, IDLE, voices).signals;
    Stretch(cfg, voices, from, n);
    SilentBetween(signals, from, n);
    assert signals[from..n + 1][..n - from] == signals[from..n];
  }

  lemma ClockAfter(cfg: Config, voices: seq<bool>, from: nat, n: nat)
    requires from <= n < |voices|
    ensures Ticks(cfg, IDLE, voices[..n + 1]).clock ==
            Ticks(cfg, Ticks(cfg, IDLE, voices[..from]).clock, voices[from..n + 1]).clock
  {
    assert voices[..n + 1] == voices[..from] + voices[from..n + 1];
    TicksAppend(cfg, IDLE, voices[..from], voices[from..n + 1]);
  }

  /** Since the call began or a segment ended, nothing is signalled as long as the sum of the voiced
      frames, each decayed once per unvoiced frame after it, is below the onset; and an onset fires
      at the very frame where the sum reaches it. */
  lemma {:induction false} OnsetExactly(cfg: Config, voices: seq<bool>, from: nat, n: nat)
    requires from <= n < |voices| && StartsAfresh(cfg, voices, from)
    ensures var signals := Ticks(cfg, IDLE, voices).signals;
            && (QuietUntil(signals, from, n) <==> forall m :: from <= m < n ==> Sum(cfg, voices, from, m) < cfg.onsetMs)
            && (QuietUntil(signals, from, n) ==>
                  && signals[n] == (if Sum(cfg, voices, from, n) >= cfg.onsetMs then Onset else Nothing)
                  && Ticks(cfg, IDLE, voices[..n + 1]).clock.onset == Sum(cfg, voices, from, n))
    decreases n
  {
    if QuietUntil(Ticks(cfg, IDLE, voices).signals, from, n) {
      NextSignal(cfg, voices, from, n);
    }
    if n > from {
      OnsetExactly(cfg, voices, from, n - 1);
    }
  }

  lemma {:induction false} Pause(decay: real, n: nat)
    ensures Weighed(decay, seq(n, _ => false)) == 0.0 && Unvoiced(seq(n, _ => false)) == n
  {
    if n > 0 {
      assert seq(n, _ => false)[1..] == seq(n - 1, _ => false);
      Pause(decay, n - 1);
    }
  }

  /** `n` unvoiced frames decay what has accumulated `n` times. */
  lemma DecaysBy(decay: real, voices: seq<bool>, n: nat)
    ensures Weighed(decay, voices + seq(n, _ => false)) == Weighed(decay, voices) * Power(1.0 - decay, n)
  {
    var pause := seq(n, _ => false);
    Pause(decay, n);
    FromNothing(decay, voices + pause);
    FromNothing(decay, voices);
    SteppedAppend(decay, 0.0, voices, pause);
    SteppedIsAccumulated(decay, Weighed(decay, voices), pause);
  }

  /** How many voiced frames in a row end the sequence. */
  function VoicedRun(voices: seq<bool>): nat {
    if voices == [] || !voices[|voices| - 1] then 0 else 1 + VoicedRun(voices[..|voices| - 1])
  }

  lemma WeighedSnoc(decay: real, voices: seq<bool>)
    requires voices != []
    ensures var init := Weighed(decay, voices[..|voices| - 1]);
            Weighed(decay, voices) == if voices[|voices| - 1] then init + 16.0 else init * (1.0 - decay)
  {
    var init, last := voices[..|voices| - 1], voices[|voices| - 1];
    assert voices == init + [last] && [last][1..] == [];
    FromNothing(decay, voices);
    FromNothing(decay, init);
    SteppedAppend(decay, 0.0, init, [last]);
  }

  /** With full decay only the voiced frames in a row at the end count: an onset needs onset/16 of them
      in a row. */
  lemma {:induction false} OnlyRunCounts(voices: seq<bool>)
    ensures Weighed(1.0, voices) == 16.0 * VoicedRun(voices) as real
  {
    if voices != [] {
      OnlyRunCounts(voices[..|voices| - 1]);
      WeighedSnoc(1.0, voices);
    }
  }

  // ---- End -----------------------------------------------------------------------------------------

  /** The least positive `k` such that `k` frames are at least the silence timeout. */
  function FramesToEnd(cfg: Config): nat {
    var s := SilenceSamples(cfg.timeoutMs);
    if s == 0 then 1 else (s + FRAME - 1) / FRAME
  }

  lemma LeastFrames(cfg: Config, j: nat)
    ensures FramesToEnd(cfg) >= 1
    ensures j >= 1 ==> (FRAME * j >= SilenceSamples(cfg.timeoutMs) <==> j >= FramesToEnd(cfg))
  {
  }

  /** How many unvoiced frames in a row end the sequence. */
  function Trailing(voices: seq<bool>): nat {
    if voices == [] || voices[|voices| - 1] then 0 else 1 + Trailing(voices[..|voices| - 1])
  }

  lemma InSpeechTick(cfg: Config, c: Clock, voiced: bool, t: nat)
    requires c.inSpeech && c.silence == FRAME * t && t < FramesToEnd(cfg)
    ensures var (next, signal) := Tick(cfg, c, voiced);
            var t' := if voiced then 0 else t + 1;
            && (signal == End <==> t' == FramesToEnd(cfg))
            && (signal == Nothing <==> t' < FramesToEnd(cfg))
            && (signal == Nothing ==> next.inSpeech && next.silence == FRAME * t')
            && signal != Onset
  {
    LeastFrames(cfg, t + 1);
  }

  /** While a segment lasts, the silence counter is 256 per trailing unvoiced frame, and these are
      too few to end it. */
  lemma {:induction false} Lasting(cfg: Config, c: Clock, voices: seq<bool>)
    requires c.inSpeech && c.silence == 0 && Silent(Ticks(cfg, c, voices).signals)
    ensures var now := Ticks(cfg, c, voices).clock;
            now.inSpeech && Trailing(voices) < FramesToEnd(cfg) && now.silence == FRAME * Trailing(voices)
    decreases |voices|
  {
    if voices != [] {
      var init, last := voices[..|voices| - 1], voices[|voices| - 1];
      assert voices == init + [last];
      TicksAppend(cfg, c, init, [last]);
      var before := Ticks(cfg, c, init);
      assert [last][1..] == [];
      assert before.signals == Ticks(cfg, c, voices).signals[..|init|];
      Lasting(cfg, c, init);
      InSpeechTick(cfg, before.clock, last, Trailing(init));
      assert Ticks(cfg, c, voices).signals[|init|] == Tick(cfg, before.clock, last).1;
    }
  }

  /** The frames after an onset at `o`, up to `n`: they run from a fresh silence counter. */
  lemma SinceOnset(cfg: Config, voices: seq<bool>, o: nat, n: nat)
    requires o < n < |voices|
    requires var signals := Ticks(cfg, IDLE, voices).signals;
             signals[o] == Onset && QuietUntil(signals, o + 1, n)
    ensures var c := Ticks(cfg, IDLE, voices[..o + 1]).clock;
            && c.inSpeech && c.silence == 0
            && Silent(Ticks(cfg, c, voices[o + 1..n]).signals)
            && Ticks(cfg, c, voices[o + 1..n]).clock == Ticks(cfg, IDLE, voices[..n]).clock
  {
    LastTick(cfg, voices, o + 1);
    assert voices[..n] == voices[..o + 1] + voices[o + 1..n];
    TicksAppend(cfg, IDLE, voices[..o + 1], voices[o + 1..n]);
    QuietPart(cfg, voices, o, n);
  }

  lemma QuietPart(cfg: Config, voices: seq<bool>, o: nat, n: nat)
    requires o < n < |voices| && QuietUntil(Ticks(cfg, IDLE, voices).signals, o + 1, n)
    ensures Silent(Ticks(cfg, Ticks(cfg, IDLE, voices[..o + 1]).clock, voices[o + 1..n]).signals)
  {
    if o + 1 < n {
      Stretch(cfg, voices, o + 1, n - 1);
      SilentBetween(Ticks(cfg, IDLE, voices).signals, o + 1, n);
    }
  }

  lemma TrailingSnoc(voices: seq<bool>, from: nat, n: nat)
    requires from <= n < |voices|
    ensures Trailing(voices[from..n + 1]) == if voices[n] then 0 else Trailing(voices[from..n]) + 1
  {
    assert voices[from..n + 1][..n - from] == voices[from..n];
  }

  /** What frame `n` meets when the segment that began at frame `o` still lasts. */
  lemma BeforeTick(cfg: Config, voices: seq<bool>, o: nat, n: nat)
    requires o < n < |voices|
    requires var signals := Ticks(cfg, IDLE, voices).signals;
             signals[o] == Onset && QuietUntil(signals, o + 1, n)
    ensures var c := Ticks(cfg, IDLE, voices[..n]).clock;
            && c.inSpeech && c.silence == FRAME * Trailing(voices[o + 1..n])
            && Trailing(voices[o + 1..n]) < FramesToEnd(cfg)
  {
    SinceOnset(cfg, voices, o, n);
    Lasting(cfg, Ticks(cfg, IDLE, voices[..o + 1]).clock, voices[o + 1..n]);
  }

  /** The signal of frame `n`, met in speech after `t` unvoiced frames in a row. */
  lemma SignalInSpeech(cfg: Config, voices: seq<bool>, n: nat, t: nat)
    requires n < |voices| && t < FramesToEnd(cfg)
    requires var c := Ticks(cfg, IDLE, voices[..n]).clock;
             c.inSpeech && c.silence == FRAME * t
    ensures var signal := Ticks(cfg, IDLE, voices).signals[n];
            (signal == End <==> !voices[n] && t + 1 == FramesToEnd(cfg)) && signal != Onset
  {
    LastTick(cfg, voices, n + 1);
    InSpeechTick(cfg, Ticks(cfg, IDLE, voices[..n]).clock, voices[n], t);
    LeastFrames(cfg, 1);
  }

  /** A segment that began at frame `o` ends at frame `n` exactly when, since then, `n` completes
      the first run of FramesToEnd unvoiced frames in a row. */
  lemma EndsExactly(cfg: Config, voices: seq<bool>, o: nat, n: nat)
    requires o < n < |voices|
    requires var signals := Ticks(cfg, IDLE, voices).signals;
             signals[o] == Onset && QuietUntil(signals, o + 1, n)
    ensures Trailing(voices[o + 1..n]) < FramesToEnd(cfg)
    ensures Ticks(cfg, IDLE, voices).signals[n] == End <==> Trailing(voices[o + 1..n + 1]) == FramesToEnd(cfg)
    ensures Ticks(cfg, IDLE, voices).signals[n] != Onset
  {
    BeforeTick(cfg, voices, o, n);
    SignalInSpeech(cfg, voices, n, Trailing(voices[o + 1..n]));
    TrailingSnoc(voices, o + 1, n);
  }
}
