/** The Volcano TTS session: callers, the driver task that owns the socket, and the lock, command
    queue and timer between them. Every event is one critical section of one of them, so a sequence
    of events is an interleaving. */
module TtsSession {
  import opened Bytes
  import opened Wrappers
  import Codec = TtsWsCodec

  const IDLE_TIMEOUT := 400 // milliseconds without audio after some audio
  const FIRST_AUDIO_TIMEOUT := 15000 // milliseconds without any audio
  const QUEUE_CAPACITY := 64

  // ---- The active turn ------------------------------------------------------------------------

  /** One installed `ActiveTask`; `id` numbers the installs. */
  datatype Task = Task(
    id: nat,
    cancelled: bool,
    start: nat,
    firstAudio: bool,
    completed: bool,
    lastAudio: Option<nat>)

  /** When the idle timer should go off for this task. */
  function Deadline(t: Task): Option<nat> {
    if t.completed then None
    else if t.firstAudio then (match t.lastAudio case None => None case Some(at) => Some(at + IDLE_TIMEOUT))
    else Some(t.start + FIRST_AUDIO_TIMEOUT)
  }

  /** The check the idle branch makes before it fires. */
  predicate IsDue(t: Task, now: nat) {
    !t.completed &&
    if t.firstAudio then t.lastAudio.Some? && now >= t.lastAudio.value + IDLE_TIMEOUT
    else now >= t.start + FIRST_AUDIO_TIMEOUT
  }

  // ---- Server frames --------------------------------------------------------------------------

  datatype Frame = SessionUp | SessionDown | SentenceEnd | ServerError | Audio(payload: seq<byte>) | Ignored

  const SESSION_STARTED := 150
  const SESSION_FINISHED := 152
  const SESSION_FAILED := 153
  const SENTENCE_END := 351

  /** What a frame means to the driver; a frame that does not parse is logged and dropped. */
  function Classify(bytes: seq<byte>): Frame {
    match Codec.Parsed(bytes)
    case Err(_) => Ignored
    case Ok(m) =>
      if m.msgType == Codec.FULL_SERVER_RESPONSE then
        if m.event == SESSION_STARTED then SessionUp
        else if m.event == SESSION_FINISHED || m.event == SESSION_FAILED || m.event == Codec.CONNECTION_FAILED
          then SessionDown
        else if m.event == SENTENCE_END then SentenceEnd
        else Ignored
      else if m.msgType == Codec.AUDIO_ONLY_SERVER then Audio(m.payload)
      else if m.msgType == Codec.ERROR then ServerError
      else Ignored
  }

  // ---- State ------------------------------------------------------------------------------------

  datatype Cmd = Request(id: nat) | Control | Shutdown

  datatype Chunk = Chunk(id: nat, pcm: seq<i16>)

  /** Where the driver task stands. */
  datatype Driver =
    | Down // not spawned, or returned: its end of the queue is closed
    | Top // about to compute the deadline
    | Waiting(deadline: Option<nat>) // in select!
    | Woken // the timer branch was taken
    | Due(checked: nat) // the task with this id was found due; about to fire
    | Firing // a server frame ended the turn; about to fire
    | Calling(id: nat, last: bool) // completed this task; lock released, about to call on_turn_end
    | Pushing(chunk: Chunk) // a chunk was routed; about to call on_audio
    | Leaving // out of the loop; about to mark the session down
    | LastFire // about to fire for the last time
    | Closing // about to return and close the queue

  /** What the caller that holds the send mutex is doing: opening the session, deciding what to send,
      sending, or clearing up after a failed send. */
  datatype Sender = Free | Starting | Holding(turnOpen: bool) | Sending | Failing

  /** How an installed turn ends: completed by the driver, replaced, or its request could not be sent. */
  datatype How = Completed | Replaced | Unsent

  datatype Ending = Ending(id: nat, how: How)

  /** The callback made for completed task `id`, heard if anyone was left to call, and the task that
      was current at that moment: the callback itself names none. */
  datatype Notice = Notice(id: nat, heard: bool, found: Option<nat>)

  /** The current task, and the record of all tasks so far. */
  datatype Turns = Turns(current: Option<Task>, installs: nat, ends: seq<Ending>, notices: seq<Notice>)

  datatype State = State(
    started: bool,
    turns: Turns,
    driver: Driver,
    queue: seq<Cmd>,
    sender: Sender,
    admitted: nat, // callers that have seen the session started and not yet taken the send mutex
    now: nat,
    alive: bool,
    pushed: seq<Chunk>,
    lost: seq<Cmd>) // commands that were queued when the queue closed

  const INIT := State(false, Turns(None, 0, [], []), Down, [], Free, 0, 0, true, [], [])

  /** A turn is under way: installed and not completed. */
  predicate UnderWay(ts: Turns) {
    ts.current.Some? && !ts.current.value.completed
  }

  predicate Open(s: State) {
    UnderWay(s.turns)
  }

  function CurrentId(s: State): Option<nat> {
    if s.turns.current.Some? then Some(s.turns.current.value.id) else None
  }

  // ---- Critical sections --------------------------------------------------------------------------

  /** What becomes of the turn under way, if there is one. */
  function EndingWith(ts: Turns, how: How): seq<Ending> {
    if UnderWay(ts) then ts.ends + [Ending(ts.current.value.id, how)] else ts.ends
  }

  /** `fire_turn_complete` under its lock: complete the current task, if there is one to complete. */
  function Complete(ts: Turns): Turns {
    if ts.current == None then ts
    else ts.(current := Some(ts.current.value.(completed := true)), ends := EndingWith(ts, Completed))
  }

  /** A sentence that opens a turn installs a fresh task over whatever is current. */
  function Install(ts: Turns, now: nat): Turns {
    ts.(current := Some(Task(ts.installs, false, now, false, false, None)),
        installs := ts.installs + 1,
        ends := EndingWith(ts, Replaced))
  }

  function Clear(ts: Turns): Turns {
    ts.(current := None, ends := EndingWith(ts, Unsent))
  }

  function Cancel(ts: Turns): Turns {
    if ts.current == None then ts else ts.(current := Some(ts.current.value.(cancelled := true)))
  }

  /** An audio frame refreshes the current task, cancelled or not; frames carry no task. */
  function Touch(ts: Turns, now: nat): Turns {
    if ts.current == None then ts
    else ts.(current := Some(ts.current.value.(firstAudio := true, lastAudio := Some(now))))
  }

  predicate Discards(ts: Turns, payload: seq<byte>) {
    ts.current == None || ts.current.value.cancelled || |payload| < 2
  }

  /** Where the driver goes on after firing. */
  function AfterFiring(last: bool): Driver {
    if last then Closing else Top
  }

  /** The first half of firing: a callback is due only if this completed the task. */
  function Swap(s: State, last: bool): State {
    s.(turns := Complete(s.turns),
       driver := if Open(s) then Calling(s.turns.current.value.id, last) else AfterFiring(last))
  }

  /** The second half, after the lock was released. */
  function CallTurnEndOf(s: State): State
    requires s.driver.Calling?
  {
    s.(turns := s.turns.(notices := s.turns.notices + [Notice(s.driver.id, s.alive, CurrentId(s))]),
       driver := AfterFiring(s.driver.last))
  }

  function Route(s: State, f: Frame): State {
    match f
    case SessionUp => s.(started := true, driver := Top)
    case SessionDown => s.(started := false, driver := Firing)
    case SentenceEnd => s.(driver := Firing)
    case ServerError => s.(driver := Firing)
    case Ignored => s.(driver := Top)
    case Audio(payload) =>
      s.(turns := Touch(s.turns, s.now),
         driver := if Discards(s.turns, payload) then Top
                   else Pushing(Chunk(s.turns.current.value.id, PcmOfLe(payload))))
  }

  // ---- Events ------------------------------------------------------------------------------------

  datatype Event =
    | Tick(ms: nat)
    // callers
    | Admit // finds the session started
    | Leave // gives up before taking the mutex
    | BeginStart // takes the mutex to open the session
    | Connect
    | ResetStarted
    | QueueControl(shutdown: bool)
    | Observed // sees SessionStarted, releases the mutex
    | GiveUp // opening the session failed
    | Acquire(turnOpen: bool)
    | Abort
    | OpenTurn
    | ContinueTurn
    | Enqueue
    | SendFails
    | ClearAfterFailure
    | CancelTurn
    | DropSession
    // driver
    | Arm
    | Wake
    | Check
    | IdleFire
    | Receive(written: bool)
    | Incoming(bytes: seq<byte>)
    | ServerFire
    | Push
    | StreamEnds
    | MarkDown
    | FireLast
    | CallBack
    | Close

  predicate Enabled(s: State, e: Event) {
    match e
    case Tick(_) => true
    case Admit => s.alive && s.started
    case Leave => s.admitted > 0
    case BeginStart => s.alive && s.sender.Free? && !s.started
    case Connect => s.sender.Starting? && s.driver.Down?
    case ResetStarted => s.sender.Starting?
    case QueueControl(shutdown) =>
      !s.driver.Down? && |s.queue| < QUEUE_CAPACITY && (!s.alive || (s.sender.Starting? && !shutdown))
    case Observed => s.sender.Starting? && s.started
    case GiveUp => s.sender.Starting?
    case Acquire(_) => s.alive && s.sender.Free? && s.admitted > 0
    case Abort => s.sender.Holding?
    case OpenTurn => s.sender == Holding(false)
    case ContinueTurn => s.sender == Holding(true)
    case Enqueue => s.sender.Sending? && !s.driver.Down? && |s.queue| < QUEUE_CAPACITY
    case SendFails => s.sender.Sending? && s.driver.Down?
    case ClearAfterFailure => s.sender.Failing?
    case CancelTurn => s.alive
    case DropSession => s.alive && s.sender.Free? && s.admitted == 0
    case Arm => s.driver.Top?
    case Wake => s.driver.Waiting? && s.driver.deadline.Some? && s.now >= s.driver.deadline.value
    case Check => s.driver.Woken?
    case IdleFire => s.driver.Due?
    case Receive(_) => s.driver.Waiting? && s.queue != []
    case Incoming(_) => s.driver.Waiting?
    case ServerFire => s.driver.Firing?
    case Push => s.driver.Pushing?
    case StreamEnds => s.driver.Waiting?
    case MarkDown => s.driver.Leaving?
    case FireLast => s.driver.LastFire?
    case CallBack => s.driver.Calling?
    case Close => s.driver.Closing?
  }

  /** The command a request is queued as: for the task current at that moment. */
  function RequestFor(s: State): Cmd {
    if s.turns.current.Some? then Request(s.turns.current.value.id) else Control
  }

  /** `start` and `ensure_started`. */
  predicate IsOpening(e: Event) {
    e.Admit? || e.Leave? || e.BeginStart? || e.Connect? || e.ResetStarted? || e.QueueControl? || e.Observed? || e.GiveUp?
  }

  function ByOpener(s: State, e: Event): State
    requires Enabled(s, e)
  {
    match e
    case Admit => s.(admitted := s.admitted + 1)
    case Leave => s.(admitted := s.admitted - 1)
    case BeginStart => s.(sender := Starting)
    case Connect => s.(driver := Top, queue := [])
    case ResetStarted => s.(started := false)
    case QueueControl(shutdown) => s.(queue := s.queue + [if shutdown then Shutdown else Control])
    case Observed => s.(sender := Free, admitted := s.admitted + 1)
    case GiveUp => s.(sender := Free)
    case _ => s
  }

  /** `synthesize_sentence` past its check, `cancel_current_turn`, and the end of the session object. */
  function ByCaller(s: State, e: Event): State
    requires Enabled(s, e)
  {
    match e
    case Acquire(turnOpen) => s.(sender := Holding(turnOpen), admitted := s.admitted - 1)
    case Abort => s.(sender := Free)
    case OpenTurn => s.(turns := Install(s.turns, s.now), sender := Sending)
    case ContinueTurn => s.(sender := Sending)
    case Enqueue => s.(queue := s.queue + [RequestFor(s)], sender := Free)
    case SendFails => s.(sender := Failing)
    case ClearAfterFailure => s.(turns := Clear(s.turns), sender := Free)
    case CancelTurn => s.(turns := Cancel(s.turns))
    case DropSession => s.(alive := false)
    case _ => s
  }

  /** Completing a turn and leaving. */
  predicate IsFiring(e: Event) {
    e.IdleFire? || e.ServerFire? || e.FireLast? || e.CallBack? || e.MarkDown? || e.Close?
  }

  function ByFiring(s: State, e: Event): State
    requires Enabled(s, e)
  {
    match e
    case IdleFire => Swap(s, false)
    case ServerFire => Swap(s, false)
    case FireLast => Swap(s, true)
    case CallBack => CallTurnEndOf(s)
    case MarkDown => s.(started := false, driver := LastFire)
    case Close => s.(driver := Down, queue := [], lost := s.lost + s.queue)
    case _ => s
  }

  /** The rest of the driver loop, but for server frames. */
  predicate IsLoop(e: Event) {
    e.Arm? || e.Wake? || e.Check? || e.Receive? || e.Push? || e.StreamEnds?
  }

  function ByDriver(s: State, e: Event): State
    requires Enabled(s, e)
  {
    match e
    case Arm => s.(driver := Waiting(if s.turns.current == None then None else Deadline(s.turns.current.value)))
    case Wake => s.(driver := Woken)
    case Check =>
      var current := s.turns.current;
      s.(driver := if current.Some? && IsDue(current.value, s.now) then Due(current.value.id) else Top)
    case Receive(written) =>
      s.(queue := s.queue[1..], driver := if s.queue[0] == Shutdown || !written then Leaving else Top)
    case Push =>
      if s.alive then s.(pushed := s.pushed + [s.driver.chunk], driver := Top) else s.(driver := Leaving)
    case StreamEnds => s.(driver := Leaving)
    case _ => s
  }

  predicate IsDriver(e: Event) {
    IsFiring(e) || IsLoop(e) || e.Incoming?
  }

  predicate IsSpeaking(e: Event) {
    !e.Tick? && !IsDriver(e) && !IsOpening(e)
  }

  function Apply(s: State, e: Event): State
    requires Enabled(s, e)
  {
    if e.Tick? then s.(now := s.now + e.ms)
    else if e.Incoming? then Route(s, Classify(e.bytes))
    else if IsLoop(e) then ByDriver(s, e)
    else if IsFiring(e) then ByFiring(s, e)
    else if IsOpening(e) then ByOpener(s, e)
    else ByCaller(s, e)
  }

  /** A run: each event must be enabled where it occurs. */
  predicate Runs(s: State, es: seq<Event>)
    decreases es
  {
    es == [] || (Enabled(s, es[0]) && Runs(Apply(s, es[0]), es[1..]))
  }

  function Exec(s: State, es: seq<Event>): State
    requires Runs(s, es)
    decreases es
  {
    if es == [] then s else Exec(Apply(s, es[0]), es[1..])
  }

  // ---- The session as it runs -----------------------------------------------------------------------

  class Session {
    var started: bool
    var current: Option<Task>
    var installs: nat
    var driver: Driver
    var queue: seq<Cmd>
    var sender: Sender
    var admitted: nat
    var now: nat
    var alive: bool
    var ends: seq<Ending>
    var notices: seq<Notice>
    var pushed: seq<Chunk>
    var lost: seq<Cmd>

    ghost function Now(): State
      reads this
    {
      State(started, Turns(current, installs, ends, notices), driver, queue, sender, admitted, now, alive, pushed, lost)
    }

    constructor ()
      ensures Now() == INIT
    {
      started, current, installs, driver, queue, sender := false, None, 0, Down, [], Free;
      admitted, now, alive, ends, notices, pushed, lost := 0, 0, true, [], [], [], [];
    }

    /** Idempotent: completes the current task once; a callback is due only if this call completed it. */
    method SwapCompleted(last: bool)
      modifies this`current, this`ends, this`driver
      ensures Now() == Swap(old(Now()), last)
    {
      var fire := false;
      if current != None {
        fire := !current.value.completed;
        current := Some(current.value.(completed := true));
      }
      if fire {
        ends := ends + [Ending(current.value.id, Completed)];
        driver := Calling(current.value.id, last);
      } else {
        driver := if last then Closing else Top;
      }
    }

    /** Invoke `on_turn_end`, whichever task is current by now. */
    method CallTurnEnd()
      requires driver.Calling?
      modifies this`notices, this`driver
      ensures Now() == CallTurnEndOf(old(Now()))
    {
      notices := notices + [Notice(driver.id, alive, if current != None then Some(current.value.id) else None)];
      driver := if driver.last then Closing else Top;
    }

    method InstallTask()
      modifies this`current, this`ends, this`installs
      ensures Now() == old(Now()).(turns := Install(old(Now()).turns, now))
    {
      if current != None {
        current := Some(current.value.(cancelled := true));
        if !current.value.completed {
          ends := ends + [Ending(current.value.id, Replaced)];
        }
      }
      current := Some(Task(installs, false, now, false, false, None));
      installs := installs + 1;
    }

    method ClearCurrent()
      modifies this`current, this`ends
      ensures Now() == old(Now()).(turns := Clear(old(Now()).turns))
    {
      if current != None && !current.value.completed {
        ends := ends + [Ending(current.value.id, Unsent)];
      }
      current := None;
    }

    method CancelCurrentTurn()
      modifies this`current
      ensures Now() == old(Now()).(turns := Cancel(old(Now()).turns))
    {
      if current != None {
        current := Some(current.value.(cancelled := true));
      }
    }

    method IdleDeadline() returns (d: Option<nat>)
      ensures d == if current == None then None else Deadline(current.value)
    {
      d := None;
      if current != None {
        var t := current.value;
        if t.completed {
          d := None;
        } else if t.firstAudio {
          d := if t.lastAudio == None then None else Some(t.lastAudio.value + IDLE_TIMEOUT);
        } else {
          d := Some(t.start + FIRST_AUDIO_TIMEOUT);
        }
      }
    }

    /** The re-check before firing holds exactly when the deadline that would be armed has passed. */
    method StillDue() returns (due: bool)
      ensures due <==>
              current.Some? && Deadline(current.value).Some? && now >= Deadline(current.value).value
    {
      due := current != None && IsDue(current.value, now);
    }

    /** The audio branch of `route_frame`: refresh the timer and read the cancelled flag under one lock. */
    method TouchAudio() returns (discard: bool)
      modifies this`current
      ensures Now() == old(Now()).(turns := Touch(old(Now()).turns, now))
      ensures discard == (old(current) == None || old(current).value.cancelled)
    {
      if current == None {
        return true;
      }
      current := Some(current.value.(firstAudio := true, lastAudio := Some(now)));
      discard := current.value.cancelled;
    }

    /** A frame that does not parse is logged and dropped. */
    method ReadFrame(bytes: seq<byte>) returns (f: Frame)
      ensures f == Classify(bytes)
    {
      var parsed := Codec.Unmarshal(bytes);
      if parsed.IsFailure() {
        return Ignored;
      }
      var m := parsed.Extract();
      f := Ignored;
      if m.msgType == Codec.FULL_SERVER_RESPONSE {
        if m.event == SESSION_STARTED {
          f := SessionUp;
        } else if m.event == SESSION_FINISHED || m.event == SESSION_FAILED || m.event == Codec.CONNECTION_FAILED {
          f := SessionDown;
        } else if m.event == SENTENCE_END {
          f := SentenceEnd;
        }
      } else if m.msgType == Codec.AUDIO_ONLY_SERVER {
        f := Audio(m.payload);
      } else if m.msgType == Codec.ERROR {
        f := ServerError;
      }
    }

    /** `route_frame` up to the point where it would fire or push. */
    method RouteFrame(f: Frame)
      modifies this`started, this`current, this`driver
      ensures Now() == Route(old(Now()), f)
    {
      match f
      case SessionUp =>
        started, driver := true, Top;
      case SessionDown =>
        started, driver := false, Firing;
      case SentenceEnd =>
        driver := Firing;
      case ServerError =>
        driver := Firing;
      case Ignored =>
        driver := Top;
      case Audio(payload) =>
        var discard := TouchAudio();
        if discard || |payload| < 2 {
          driver := Top;
        } else {
          driver := Pushing(Chunk(current.value.id, PcmOfLe(payload)));
        }
    }

    /** Opening the session, one critical section at a time. */
    method OpeningStep(e: Event)
      requires Enabled(Now(), e)
      modifies this
      ensures Now() == ByOpener(old(Now()), e)
    {
      match e
      case Admit =>
        admitted := admitted + 1;
      case Leave =>
        admitted := admitted - 1;
      case BeginStart =>
        sender := Starting;
      case Connect =>
        driver, queue := Top, [];
      case ResetStarted =>
        started := false;
      case QueueControl(shutdown) =>
        queue := queue + [if shutdown then Shutdown else Control];
      case Observed =>
        sender, admitted := Free, admitted + 1;
      case GiveUp =>
        sender := Free;
      case _ =>
    }

    /** Speaking and cancelling, one critical section at a time. */
    method CallerStep(e: Event)
      requires Enabled(Now(), e)
      modifies this
      ensures Now() == ByCaller(old(Now()), e)
    {
      match e
      case Acquire(turnOpen) =>
        sender, admitted := Holding(turnOpen), admitted - 1;
      case Abort =>
        sender := Free;
      case OpenTurn =>
        InstallTask();
        sender := Sending;
      case ContinueTurn =>
        sender := Sending;
      case Enqueue =>
        queue := queue + [if current != None then Request(current.value.id) else Control];
        sender := Free;
      case SendFails =>
        sender := Failing;
      case ClearAfterFailure =>
        ClearCurrent();
        sender := Free;
      case CancelTurn =>
        CancelCurrentTurn();
      case DropSession =>
        alive := false;
      case _ =>
    }

    /** Firing and leaving, one critical section at a time. */
    method FiringStep(e: Event)
      requires Enabled(Now(), e)
      modifies this
      ensures Now() == ByFiring(old(Now()), e)
    {
      match e
      case IdleFire =>
        SwapCompleted(false);
      case ServerFire =>
        SwapCompleted(false);
      case FireLast =>
        SwapCompleted(true);
      case CallBack =>
        CallTurnEnd();
      case MarkDown =>
        started, driver := false, LastFire;
      case Close =>
        lost := lost + queue;
        driver, queue := Down, [];
      case _ =>
    }

    /** The driver loop, one critical section at a time. */
    method DriverStep(e: Event)
      requires Enabled(Now(), e)
      modifies this
      ensures Now() == ByDriver(old(Now()), e)
    {
      match e
      case Arm =>
        var deadline := IdleDeadline();
        driver := Waiting(deadline);
      case Wake =>
        driver := Woken;
      case Check =>
        var due := StillDue();
        driver := if due then Due(current.value.id) else Top;
      case Receive(written) =>
        var cmd := queue[0];
        queue := queue[1..];
        driver := if cmd == Shutdown || !written then Leaving else Top;
      case Push =>
        if alive {
          pushed := pushed + [driver.chunk];
          driver := Top;
        } else {
          driver := Leaving;
        }
      case StreamEnds =>
        driver := Leaving;
      case _ =>
    }

    method Step(e: Event)
      requires Enabled(Now(), e)
      modifies this
      ensures Now() == Apply(old(Now()), e)
    {
      if e.Tick? {
        now := now + e.ms;
      } else if e.Incoming? {
        var frame := ReadFrame(e.bytes);
        RouteFrame(frame);
      } else if IsLoop(e) {
        DriverStep(e);
      } else if IsFiring(e) {
        FiringStep(e);
      } else if IsOpening(e) {
        OpeningStep(e);
      } else {
        CallerStep(e);
      }
    }

    /** Any interleaving of the callers and the driver. */
    method Interleave(es: seq<Event>)
      requires Runs(Now(), es)
      modifies this
      ensures Now() == Exec(old(Now()), es)
    {
      var i := 0;
      assert es[0..] == es;
      while i < |es|
        invariant 0 <= i <= |es|
        invariant Runs(Now(), es[i..]) && Exec(Now(), es[i..]) == Exec(old(Now()), es)
      {
        var e := es[i];
        assert es[i..][0] == e && es[i..][1..] == es[i + 1..];
        Step(e);
        i := i + 1;
      }
    }
  }
}
