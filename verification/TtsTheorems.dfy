/** What every interleaving of callers, driver, timer and server keeps. */
module TtsTheorems {
  import opened Bytes
  import TtsFrames
  import opened StreamSplitter
  import opened TtsSession
  import opened Wrappers

  // ---- Invariants --------------------------------------------------------------------------------

  predicate TaskOk(s: State) {
    s.turns.current.Some? ==>
      var t := s.turns.current.value;
      t.id < s.turns.installs && t.start <= s.now && (t.firstAudio ==> t.lastAudio.Some? && t.lastAudio.value <= s.now)
  }

  /** No lost wake-up: while the driver waits, an open turn has a timer armed no later than it is
      due, or a queued command that makes the driver look again, or a sender about to queue one. */
  predicate Wakes(s: State) {
    Open(s) && s.driver.Waiting? ==>
      || s.queue != []
      || s.sender.Sending?
      || (s.driver.deadline.Some? && Deadline(s.turns.current.value).Some?
          && s.driver.deadline.value <= Deadline(s.turns.current.value).value)
  }

  /** A send fails only once the driver is down, and then its task is cleared before anything else. */
  predicate FailsWhenDown(s: State) {
    s.sender.Failing? ==> s.driver.Down?
  }

  /** Out of the loop the session is marked down, so the next sentence reconnects. */
  predicate DownIsMarked(s: State) {
    s.driver.LastFire? || Exiting(s) || s.driver.Down? ==> !s.started
  }

  /** Past the last fire: the queue is still open, and nobody will look at it again. */
  predicate Exiting(s: State) {
    s.driver.Closing? || (s.driver.Calling? && s.driver.last)
  }

  /** The task found due is still due, unless it has completed or a later task has taken its place. */
  predicate CheckedStays(s: State) {
    s.driver.Due? ==>
      && s.driver.checked < s.turns.installs
      && (s.turns.current.Some? ==>
            var t := s.turns.current.value;
            s.driver.checked <= t.id && (t.id == s.driver.checked ==> t.completed || IsDue(t, s.now)))
  }

  predicate Unheld(sender: Sender) {
    sender.Free? || sender.Starting? || sender.Holding?
  }

  /** After the last fire, a turn whose request has been queued has it in the queue that will be dropped. */
  predicate Stranding(s: State) {
    Open(s) && Unheld(s.sender) ==>
      && (Exiting(s) ==> Request(s.turns.current.value.id) in s.queue)
      && (s.driver.Down? ==> Request(s.turns.current.value.id) in s.lost)
  }

  predicate Inv(s: State) {
    TaskOk(s) && Wakes(s) && FailsWhenDown(s) && DownIsMarked(s) && CheckedStays(s) && Stranding(s)
  }

  lemma OpenerKeeps(s: State, e: Event)
    requires Enabled(s, e) && IsOpening(e) && Inv(s)
    ensures Inv(ByOpener(s, e))
  {
  }

  lemma SpeakerKeeps(s: State, e: Event)
    requires Enabled(s, e) && IsSpeaking(e) && Inv(s)
    ensures Inv(ByCaller(s, e))
  {
  }

  lemma LoopKeeps(s: State, e: Event)
    requires Enabled(s, e) && IsLoop(e) && Inv(s)
    ensures Inv(ByDriver(s, e))
  {
  }

  lemma FiringKeeps(s: State, e: Event)
    requires Enabled(s, e) && IsFiring(e) && Inv(s)
    ensures Inv(ByFiring(s, e))
  {
  }

  lemma FrameKeeps(s: State, f: Frame)
    requires s.driver.Waiting? && Inv(s)
    ensures Inv(Route(s, f))
  {
  }

  /** Every single event keeps all of these. */
  lemma InvStep(s: State, e: Event)
    requires Enabled(s, e) && Inv(s)
    ensures Inv(Apply(s, e))
  {
    if e.Tick? {
    } else if e.Incoming? {
      FrameKeeps(s, Classify(e.bytes));
    } else if IsLoop(e) {
      LoopKeeps(s, e);
    } else if IsFiring(e) {
      FiringKeeps(s, e);
    } else if IsOpening(e) {
      OpenerKeeps(s, e);
    } else {
      SpeakerKeeps(s, e);
    }
  }

  lemma {:induction false} InvRun(s: State, es: seq<Event>)
    requires Runs(s, es) && Inv(s)
    ensures Inv(Exec(s, es))
    decreases es
  {
    if es != [] {
      InvStep(s, es[0]);
      InvRun(Apply(s, es[0]), es[1..]);
    }
  }

  /** In every interleaving: no wake-up is lost, the session is marked down whenever the driver is
      out of its loop, and a turn is stranded without a driver only if its request was in the queue
      when the queue closed. */
  lemma EveryInterleaving(es: seq<Event>)
    requires Runs(INIT, es)
    ensures var s := Exec(INIT, es);
            Wakes(s) && DownIsMarked(s) && TaskOk(s)
            && (s.driver.Down? && Open(s) && Unheld(s.sender) ==> Request(s.turns.current.value.id) in s.lost)
  {
    InvRun(INIT, es);
  }

  // ---- Exactly one end per turn ------------------------------------------------------------------

  function Ended(ends: seq<Ending>): set<nat> {
    if ends == [] then {} else Ended(ends[..|ends| - 1]) + {ends[|ends| - 1].id}
  }

  /** No turn ends twice. */
  predicate Distinct(ends: seq<Ending>) {
    ends != [] ==> ends[|ends| - 1].id !in Ended(ends[..|ends| - 1]) && Distinct(ends[..|ends| - 1])
  }

  function Upto(n: nat): (u: set<nat>)
    ensures forall i: nat :: i in u <==> i < n
  {
    if n == 0 then {} else Upto(n - 1) + {n - 1}
  }

  function OpenIds(ts: Turns): set<nat> {
    if UnderWay(ts) then {ts.current.value.id} else {}
  }

  /** Every installed turn has ended exactly once, but for the one under way, which has not. */
  ghost predicate Accounted(ts: Turns) {
    Distinct(ts.ends) && Ended(ts.ends) == Upto(ts.installs) - OpenIds(ts)
  }

  /** What an event does to the account: nothing, the open turn ends, or a new one opens. */
  datatype Entry = Same | Closes(how: How) | Opens

  predicate Fires(e: Event) {
    e.IdleFire? || e.ServerFire? || e.FireLast?
  }

  function EntryOf(s: State, e: Event): Entry {
    if e.OpenTurn? then Opens
    else if !Open(s) then Same
    else if e.ClearAfterFailure? then Closes(Unsent)
    else if Fires(e) then Closes(Completed)
    else Same
  }

  predicate Follows(ts: Turns, us: Turns, entry: Entry) {
    match entry
    case Same => us.ends == ts.ends && us.installs == ts.installs && OpenIds(us) == OpenIds(ts)
    case Closes(how) =>
      UnderWay(ts) && us.ends == EndingWith(ts, how) && us.installs == ts.installs && OpenIds(us) == {}
    case Opens => us.ends == EndingWith(ts, Replaced) && us.installs == ts.installs + 1 && OpenIds(us) == {ts.installs}
  }

  lemma OpenerEnters(s: State, e: Event)
    requires Enabled(s, e) && IsOpening(e)
    ensures Follows(s.turns, ByOpener(s, e).turns, EntryOf(s, e))
  {
  }

  lemma SpeakerEnters(s: State, e: Event)
    requires Enabled(s, e) && IsSpeaking(e)
    ensures Follows(s.turns, ByCaller(s, e).turns, EntryOf(s, e))
  {
  }

  lemma LoopEnters(s: State, e: Event)
    requires Enabled(s, e) && IsLoop(e)
    ensures Follows(s.turns, ByDriver(s, e).turns, EntryOf(s, e))
  {
  }

  lemma FiringEnters(s: State, e: Event)
    requires Enabled(s, e) && IsFiring(e)
    ensures Follows(s.turns, ByFiring(s, e).turns, EntryOf(s, e))
  {
  }

  lemma FrameEnters(s: State, e: Event, f: Frame)
    requires Enabled(s, e) && e.Incoming?
    ensures Follows(s.turns, Route(s, f).turns, EntryOf(s, e))
  {
  }

  lemma EntryStep(s: State, e: Event)
    requires Enabled(s, e)
    ensures Follows(s.turns, Apply(s, e).turns, EntryOf(s, e))
  {
    if e.Tick? {
    } else if e.Incoming? {
      FrameEnters(s, e, Classify(e.bytes));
    } else if IsLoop(e) {
      LoopEnters(s, e);
    } else if IsFiring(e) {
      FiringEnters(s, e);
    } else if IsOpening(e) {
      OpenerEnters(s, e);
    } else {
      SpeakerEnters(s, e);
    }
  }

  lemma OneMore(ends: seq<Ending>, e: Ending)
    requires Distinct(ends) && e.id !in Ended(ends)
    ensures Distinct(ends + [e]) && Ended(ends + [e]) == Ended(ends) + {e.id}
  {
    assert (ends + [e])[..|ends|] == ends;
  }

  lemma EntryAccounted(ts: Turns, us: Turns, entry: Entry)
    requires Follows(ts, us, entry) && Accounted(ts)
    requires ts.current.Some? ==> ts.current.value.id < ts.installs
    ensures Accounted(us)
  {
    if UnderWay(ts) && !entry.Same? {
      OneMore(ts.ends, us.ends[|ts.ends|]);
    }
    UptoNext(ts.installs);
  }

  lemma AccountedStep(s: State, e: Event)
    requires Enabled(s, e) && TaskOk(s) && Accounted(s.turns)
    ensures Accounted(Apply(s, e).turns)
  {
    EntryStep(s, e);
    EntryAccounted(s.turns, Apply(s, e).turns, EntryOf(s, e));
  }

  lemma UptoNext(n: nat)
    ensures Upto(n + 1) == Upto(n) + {n} && n !in Upto(n)
  {
  }

  lemma {:induction false} AccountedRun(s: State, es: seq<Event>)
    requires Runs(s, es) && Inv(s) && Accounted(s.turns)
    ensures Accounted(Exec(s, es).turns)
    decreases es
  {
    if es != [] {
      InvStep(s, es[0]);
      AccountedStep(s, es[0]);
      AccountedRun(Apply(s, es[0]), es[1..]);
    }
  }

  // ---- One callback per completed turn ------------------------------------------------------------

  /** The completed turns, in the order of their completion. */
  function Completions(ends: seq<Ending>): seq<nat> {
    if ends == [] then []
    else
      var last := ends[|ends| - 1];
      Completions(ends[..|ends| - 1]) + if last.how.Completed? then [last.id] else []
  }

  function NoticeIds(notices: seq<Notice>): seq<nat> {
    if notices == [] then [] else NoticeIds(notices[..|notices| - 1]) + [notices[|notices| - 1].id]
  }

  function DueNotice(s: State): seq<nat> {
    if s.driver.Calling? then [s.driver.id] else []
  }

  /** Callbacks are made for exactly the completed turns, once each and in order; only the last may
      still be due. */
  predicate Notified(s: State) {
    NoticeIds(s.turns.notices) + DueNotice(s) == Completions(s.turns.ends)
  }

  lemma CompletionsSnoc(ends: seq<Ending>, e: Ending)
    ensures Completions(ends + [e]) == Completions(ends) + if e.how.Completed? then [e.id] else []
  {
    assert (ends + [e])[..|ends|] == ends;
  }

  lemma NoticesSnoc(notices: seq<Notice>, n: Notice)
    ensures NoticeIds(notices + [n]) == NoticeIds(notices) + [n.id]
  {
    assert (notices + [n])[..|notices|] == notices;
  }

  /** An event and the callbacks: one is made, one comes due, or neither. */
  predicate Notifies(s: State, t: State, e: Event) {
    if e.CallBack? then
      && s.driver.Calling? && !t.driver.Calling?
      && t.turns.notices == s.turns.notices + [Notice(s.driver.id, s.alive, CurrentId(s))]
    else
      && t.turns.notices == s.turns.notices
      && if EntryOf(s, e) == Closes(Completed) then !s.driver.Calling? && DueNotice(t) == [s.turns.current.value.id]
         else DueNotice(t) == DueNotice(s)
  }

  lemma OpenerNotifies(s: State, e: Event)
    requires Enabled(s, e) && IsOpening(e)
    ensures Notifies(s, ByOpener(s, e), e)
  {
  }

  lemma SpeakerNotifies(s: State, e: Event)
    requires Enabled(s, e) && IsSpeaking(e)
    ensures Notifies(s, ByCaller(s, e), e)
  {
  }

  lemma LoopNotifies(s: State, e: Event)
    requires Enabled(s, e) && IsLoop(e)
    ensures Notifies(s, ByDriver(s, e), e)
  {
  }

  lemma FiringNotifies(s: State, e: Event)
    requires Enabled(s, e) && IsFiring(e)
    ensures Notifies(s, ByFiring(s, e), e)
  {
  }

  lemma FrameNotifies(s: State, e: Event, f: Frame)
    requires Enabled(s, e) && e.Incoming?
    ensures Notifies(s, Route(s, f), e)
  {
  }

  lemma NoticeStep(s: State, e: Event)
    requires Enabled(s, e)
    ensures Notifies(s, Apply(s, e), e)
  {
    if e.Tick? {
    } else if e.Incoming? {
      FrameNotifies(s, e, Classify(e.bytes));
    } else if IsLoop(e) {
      LoopNotifies(s, e);
    } else if IsFiring(e) {
      FiringNotifies(s, e);
    } else if IsOpening(e) {
      OpenerNotifies(s, e);
    } else {
      SpeakerNotifies(s, e);
    }
  }

  lemma NotifiedByCall(s: State, t: State, e: Event)
    requires e.CallBack? && Notifies(s, t, e) && t.turns.ends == s.turns.ends && Notified(s)
    ensures Notified(t)
  {
    NoticesSnoc(s.turns.notices, t.turns.notices[|s.turns.notices|]);
    assert NoticeIds(t.turns.notices) + [] == NoticeIds(t.turns.notices);
  }

  lemma NotifiedByEnding(s: State, t: State, e: Event, ending: Ending)
    requires !e.CallBack? && Notifies(s, t, e) && Notified(s)
    requires t.turns.ends == s.turns.ends + [ending]
    requires ending.how.Completed? <==> EntryOf(s, e) == Closes(Completed)
    requires ending.how.Completed? ==> ending.id == s.turns.current.value.id
    ensures Notified(t)
  {
    CompletionsSnoc(s.turns.ends, ending);
    assert Completions(s.turns.ends) + [] == Completions(s.turns.ends);
    assert NoticeIds(s.turns.notices) + [] == NoticeIds(s.turns.notices);
  }

  lemma NotifiedStep(s: State, e: Event)
    requires Enabled(s, e) && Notified(s)
    ensures Notified(Apply(s, e))
  {
    EntryStep(s, e);
    NoticeStep(s, e);
    var t := Apply(s, e);
    if e.CallBack? {
      NotifiedByCall(s, t, e);
    } else if |t.turns.ends| > |s.turns.ends| {
      NotifiedByEnding(s, t, e, t.turns.ends[|s.turns.ends|]);
    }
  }

  lemma {:induction false} NotifiedRun(s: State, es: seq<Event>)
    requires Runs(s, es) && Notified(s)
    ensures Notified(Exec(s, es))
    decreases es
  {
    if es != [] {
      NotifiedStep(s, es[0]);
      NotifiedRun(Apply(s, es[0]), es[1..]);
    }
  }

  /** In every interleaving each installed turn ends exactly once, by completion, replacement or a
      failed send, unless it is the one under way; and over all the places that complete turns, the
      callback is made once for each completed turn, in order. */
  lemma EndsExactlyOnce(es: seq<Event>)
    requires Runs(INIT, es)
    ensures Accounted(Exec(INIT, es).turns) && Notified(Exec(INIT, es))
  {
    AccountedRun(INIT, es);
    NotifiedRun(INIT, es);
  }

  // ---- A due turn completes ------------------------------------------------------------------------

  ghost predicate Installs(es: seq<Event>) {
    exists i :: 0 <= i < |es| && es[i].OpenTurn?
  }

  lemma InstallsCons(es: seq<Event>)
    requires es != []
    ensures Installs(es) <==> es[0].OpenTurn? || Installs(es[1..])
  {
    if Installs(es) {
      var i :| 0 <= i < |es| && es[i].OpenTurn?;
      assert i > 0 ==> es[1..][i - 1].OpenTurn?;
    }
    if Installs(es[1..]) {
      var i :| 0 <= i < |es[1..]| && es[1..][i].OpenTurn?;
      assert es[i + 1].OpenTurn?;
    }
  }

  /** The driver is in its loop, or on its way to its last fire. */
  predicate InLoop(s: State) {
    !s.driver.Down? && !Exiting(s)
  }

  predicate Overdue(s: State) {
    Open(s) && Deadline(s.turns.current.value).Some? && Deadline(s.turns.current.value).value <= s.now
  }

  predicate BringsAudio(e: Event) {
    e.Incoming? && Classify(e.bytes).Audio?
  }

  /** The turn of `s` is still under way in `t`, and still due. */
  predicate StillOverdue(s: State, t: State) {
    InLoop(t) && Overdue(t) && CurrentId(t) == CurrentId(s)
  }

  predicate EndedAs(s: State, t: State, how: How)
    requires Open(s)
  {
    t.turns.ends == s.turns.ends + [Ending(s.turns.current.value.id, how)]
  }

  lemma OpeningReplaces(s: State)
    requires Enabled(s, OpenTurn) && Open(s)
    ensures EndedAs(s, Apply(s, OpenTurn), Replaced)
  {
  }

  lemma FireCompletes(s: State, e: Event)
    requires Enabled(s, e) && Fires(e) && Open(s)
    ensures !Open(ByFiring(s, e)) && EndedAs(s, ByFiring(s, e), Completed)
  {
  }

  lemma {:induction false} EndedGrows(s: State, es: seq<Event>, e: Ending)
    requires Runs(s, es) && e in s.turns.ends
    ensures e in Exec(s, es).turns.ends
    decreases es
  {
    if es != [] {
      EntryStep(s, es[0]);
      EndedGrows(Apply(s, es[0]), es[1..], e);
    }
  }

  /** How the turn under way in `s` has ended after `es`: completed, or replaced by a newer one. */
  ghost predicate Settled(s: State, es: seq<Event>)
    requires Runs(s, es) && Open(s)
  {
    var id, ends := s.turns.current.value.id, Exec(s, es).turns.ends;
    Ending(id, Completed) in ends || (Installs(es) && Ending(id, Replaced) in ends)
  }

  lemma SettledAtOnce(s: State, es: seq<Event>, how: How)
    requires Runs(s, es) && es != [] && Open(s) && EndedAs(s, Apply(s, es[0]), how)
    requires how == Completed || (how == Replaced && es[0].OpenTurn?)
    ensures Settled(s, es)
  {
    var ending := Ending(s.turns.current.value.id, how);
    assert Apply(s, es[0]).turns.ends[|s.turns.ends|] == ending;
    EndedGrows(Apply(s, es[0]), es[1..], ending);
    InstallsCons(es);
  }

  lemma SettledLater(s: State, es: seq<Event>)
    requires Runs(s, es) && es != [] && Open(s) && Open(Apply(s, es[0]))
    requires CurrentId(Apply(s, es[0])) == CurrentId(s) && Settled(Apply(s, es[0]), es[1..])
    ensures Settled(s, es)
  {
    InstallsCons(es);
  }

  // ---- ... under the bias of the driver's select, within five of its steps

  predicate TimerReady(s: State) {
    s.driver.Waiting? && s.driver.deadline.Some? && s.now >= s.driver.deadline.value
  }

  /** The driver takes its timer before commands, frames and the end of the stream. */
  predicate Prefers(s: State, e: Event) {
    e.Receive? || e.Incoming? || e.StreamEnds? ==> !TimerReady(s)
  }

  predicate Biased(s: State, es: seq<Event>)
    requires Runs(s, es)
    decreases es
  {
    es == [] || (Prefers(s, es[0]) && Biased(Apply(s, es[0]), es[1..]))
  }

  /** Driver steps left before an overdue turn is completed, at most. */
  function Steps(s: State): (n: nat)
    ensures 1 <= n <= 5
  {
    match s.driver
    case Pushing(_) => 5
    case Calling(_, _) => 5
    case Top => 4
    case Waiting(_) => if TimerReady(s) then 3 else 5
    case Woken => 2
    case Leaving => 2
    case _ => 1
  }

  lemma LoopNears(s: State, e: Event)
    requires Enabled(s, e) && IsLoop(e) && Prefers(s, e) && TaskOk(s) && InLoop(s) && Overdue(s)
    ensures StillOverdue(s, ByDriver(s, e)) && Steps(ByDriver(s, e)) < Steps(s)
  {
  }

  lemma FiringNears(s: State, e: Event)
    requires Enabled(s, e) && IsFiring(e) && !Fires(e) && InLoop(s) && Overdue(s)
    ensures StillOverdue(s, ByFiring(s, e)) && Steps(ByFiring(s, e)) < Steps(s)
  {
  }

  lemma FrameNears(s: State, f: Frame)
    requires s.driver.Waiting? && !f.Audio? && !TimerReady(s) && InLoop(s) && Overdue(s)
    ensures StillOverdue(s, Route(s, f)) && Steps(Route(s, f)) < Steps(s)
  {
  }

  /** Once a turn is due, every step of the driver but one that brings audio completes it or nears that. */
  lemma DriverNears(s: State, e: Event)
    requires Enabled(s, e) && IsDriver(e) && !BringsAudio(e) && Prefers(s, e) && TaskOk(s) && InLoop(s) && Overdue(s)
    ensures var t := Apply(s, e);
            if Open(t) then StillOverdue(s, t) && Steps(t) < Steps(s) else EndedAs(s, t, Completed)
  {
    if e.Incoming? {
      FrameNears(s, Classify(e.bytes));
    } else if IsLoop(e) {
      LoopNears(s, e);
    } else if Fires(e) {
      FireCompletes(s, e);
    } else {
      FiringNears(s, e);
    }
  }

  lemma OpenerNeverDelays(s: State, e: Event)
    requires Enabled(s, e) && IsOpening(e) && InLoop(s) && Overdue(s)
    ensures StillOverdue(s, ByOpener(s, e)) && Steps(ByOpener(s, e)) <= Steps(s)
  {
  }

  lemma SpeakerNeverDelays(s: State, e: Event)
    requires Enabled(s, e) && IsSpeaking(e) && !e.OpenTurn? && FailsWhenDown(s) && InLoop(s) && Overdue(s)
    ensures StillOverdue(s, ByCaller(s, e)) && Steps(ByCaller(s, e)) <= Steps(s)
  {
  }

  lemma OthersNeverDelay(s: State, e: Event)
    requires Enabled(s, e) && !IsDriver(e) && !e.OpenTurn? && FailsWhenDown(s) && InLoop(s) && Overdue(s)
    ensures StillOverdue(s, Apply(s, e)) && Steps(Apply(s, e)) <= Steps(s)
  {
    if IsOpening(e) {
      OpenerNeverDelays(s, e);
    } else if !e.Tick? {
      SpeakerNeverDelays(s, e);
    }
  }

  function CountDriver(es: seq<Event>): nat
    decreases es
  {
    if es == [] then 0 else (if IsDriver(es[0]) then 1 else 0) + CountDriver(es[1..])
  }

  /** A turn that gets no further audio still completes: once it is due, whatever the callers say,
      queue, cancel or drop and whatever else the server sends, five more steps of the driver complete
      it, unless a newer turn replaces it first. */
  lemma {:induction false} DueTurnCompletes(s: State, es: seq<Event>)
    requires Runs(s, es) && Biased(s, es) && Inv(s) && InLoop(s) && Overdue(s)
    requires forall i :: 0 <= i < |es| ==> !BringsAudio(es[i])
    requires CountDriver(es) >= Steps(s)
    ensures Settled(s, es)
    decreases es
  {
    var e, t := es[0], Apply(s, es[0]);
    if e.OpenTurn? {
      OpeningReplaces(s);
      SettledAtOnce(s, es, Replaced);
    } else {
      if IsDriver(e) {
        DriverNears(s, e);
      } else {
        OthersNeverDelay(s, e);
      }
      if Open(t) {
        InvStep(s, e);
        DueTurnCompletes(t, es[1..]);
        SettledLater(s, es);
      } else {
        SettledAtOnce(s, es, Completed);
      }
    }
  }

  // ---- ... and without the bias, if commands do not keep coming

  /** What the driver and the pending sender do without frames from the server. */
  predicate Works(e: Event) {
    e.Enqueue? || (IsDriver(e) && !e.Incoming?)
  }

  /** Critical sections left before the open turn is completed, at most. */
  function Rank(s: State): nat {
    4 * (|s.queue| + if s.sender.Sending? then 2 else 0)
    + match s.driver
      case Pushing(_) => 5
      case Calling(_, _) => 5
      case Top => 4
      case Waiting(_) => 3
      case Woken => 2
      case Leaving => 2
      case _ => 1
  }

  /** What an event that is not work can add to that. */
  function Delay(e: Event): nat {
    if e.ContinueTurn? then 8 else if e.QueueControl? then 4 else if e.Incoming? then 1 else 0
  }

  lemma EnqueueDescends(s: State)
    requires Enabled(s, Enqueue) && InLoop(s) && Overdue(s)
    ensures StillOverdue(s, ByCaller(s, Enqueue)) && Rank(ByCaller(s, Enqueue)) < Rank(s)
  {
  }

  lemma LoopDescends(s: State, e: Event)
    requires Enabled(s, e) && IsLoop(e) && TaskOk(s) && InLoop(s) && Overdue(s)
    ensures StillOverdue(s, ByDriver(s, e)) && Rank(ByDriver(s, e)) < Rank(s)
  {
  }

  lemma FiringDescends(s: State, e: Event)
    requires Enabled(s, e) && IsFiring(e) && !Fires(e) && InLoop(s) && Overdue(s)
    ensures StillOverdue(s, ByFiring(s, e)) && Rank(ByFiring(s, e)) < Rank(s)
  {
  }

  /** Once a turn is due, whatever the driver or the pending sender does next brings it closer. */
  lemma WorkDescends(s: State, e: Event)
    requires Enabled(s, e) && TaskOk(s) && InLoop(s) && Overdue(s) && Works(e)
    ensures var t := Apply(s, e);
            if Open(t) then StillOverdue(s, t) && Rank(t) < Rank(s) else EndedAs(s, t, Completed)
  {
    if e.Enqueue? {
      EnqueueDescends(s);
    } else if IsLoop(e) {
      LoopDescends(s, e);
    } else if Fires(e) {
      FireCompletes(s, e);
    } else {
      FiringDescends(s, e);
    }
  }

  lemma FrameDelays(s: State, f: Frame)
    requires s.driver.Waiting? && !f.Audio? && InLoop(s) && Overdue(s)
    ensures StillOverdue(s, Route(s, f)) && Rank(Route(s, f)) <= Rank(s) + 1
  {
  }

  lemma OpenerDelays(s: State, e: Event)
    requires Enabled(s, e) && IsOpening(e) && InLoop(s) && Overdue(s)
    ensures StillOverdue(s, ByOpener(s, e)) && Rank(ByOpener(s, e)) <= Rank(s) + Delay(e)
  {
  }

  lemma SpeakerDelays(s: State, e: Event)
    requires Enabled(s, e) && IsSpeaking(e) && !e.Enqueue? && !e.OpenTurn?
    requires FailsWhenDown(s) && InLoop(s) && Overdue(s)
    ensures StillOverdue(s, ByCaller(s, e)) && Rank(ByCaller(s, e)) <= Rank(s) + Delay(e)
  {
  }

  lemma DelayBounded(s: State, e: Event)
    requires Enabled(s, e) && !Works(e) && !e.OpenTurn? && !BringsAudio(e)
    requires FailsWhenDown(s) && InLoop(s) && Overdue(s)
    ensures StillOverdue(s, Apply(s, e)) && Rank(Apply(s, e)) <= Rank(s) + Delay(e)
  {
    if e.Incoming? {
      FrameDelays(s, Classify(e.bytes));
    } else if IsOpening(e) {
      OpenerDelays(s, e);
    } else if !e.Tick? {
      SpeakerDelays(s, e);
    }
  }

  /** There is always something to do that respects the bias: the driver, or the sender it waits for,
      can take a step. */
  lemma WorkIsPossible(s: State)
    requires Inv(s) && InLoop(s) && Overdue(s)
    ensures exists e :: Works(e) && Enabled(s, e) && Prefers(s, e)
  {
    var e := match s.driver
      case Top => Arm
      case Waiting(_) => if TimerReady(s) then Wake else if s.queue != [] then Receive(true) else Enqueue
      case Woken => Check
      case Due(_) => IdleFire
      case Firing => ServerFire
      case Calling(_, _) => CallBack
      case Pushing(_) => Push
      case Leaving => MarkDown
      case _ => FireLast;
    assert Works(e) && Enabled(s, e) && Prefers(s, e);
  }

  function CountWork(es: seq<Event>): nat
    decreases es
  {
    if es == [] then 0 else (if Works(es[0]) then 1 else 0) + CountWork(es[1..])
  }

  function Delays(es: seq<Event>): nat
    decreases es
  {
    if es == [] then 0 else Delay(es[0]) + Delays(es[1..])
  }

  /** The same for every schedule of the driver, biased or not: the steps it takes then grow with the
      commands queued, and with every further sentence, command and frame. */
  lemma {:induction false} DueTurnCompletesUnbiased(s: State, es: seq<Event>)
    requires Runs(s, es) && Inv(s) && InLoop(s) && Overdue(s)
    requires forall i :: 0 <= i < |es| ==> !BringsAudio(es[i])
    requires CountWork(es) >= Rank(s) + Delays(es)
    ensures Settled(s, es)
    decreases es
  {
    var e, t := es[0], Apply(s, es[0]);
    if e.OpenTurn? {
      OpeningReplaces(s);
      SettledAtOnce(s, es, Replaced);
    } else {
      if Works(e) {
        WorkDescends(s, e);
      } else {
        DelayBounded(s, e);
      }
      if Open(t) {
        InvStep(s, e);
        DueTurnCompletesUnbiased(t, es[1..]);
        SettledLater(s, es);
      } else {
        SettledAtOnce(s, es, Completed);
      }
    }
  }

  // ---- What others can do while the driver is between two steps -----------------------------------------

  ghost predicate Others(es: seq<Event>) {
    forall i :: 0 <= i < |es| ==> !IsDriver(es[i])
  }

  /** The current task is this one, or a later one still under way. */
  predicate OnlyReplaced(s: State, t: State) {
    s.turns.current.Some? && t.turns.current.Some? &&
    var before, after := s.turns.current.value, t.turns.current.value;
    && (after.id == before.id ==> after.completed == before.completed)
    && (after.id != before.id ==> after.id > before.id && Open(t))
  }

  lemma OtherStep(s: State, e: Event)
    requires Enabled(s, e) && !IsDriver(e) && TaskOk(s) && FailsWhenDown(s) && !s.driver.Down? && s.turns.current.Some?
    ensures var t := Apply(s, e);
            && t.driver == s.driver && OnlyReplaced(s, t)
            && (t.turns.current.value.id == s.turns.current.value.id <==> !e.OpenTurn?)
  {
  }

  /** While the driver stands between two critical sections the current task changes only by an
      install, and then to a later turn that is under way. */
  lemma {:induction false} OthersRun(s: State, es: seq<Event>)
    requires Runs(s, es) && Inv(s) && Others(es) && !s.driver.Down? && s.turns.current.Some?
    ensures var t := Exec(s, es);
            && t.driver == s.driver && Inv(t) && OnlyReplaced(s, t)
            && (t.turns.current.value.id == s.turns.current.value.id <==> !Installs(es))
    decreases es
  {
    if es != [] {
      OtherStep(s, es[0]);
      InvStep(s, es[0]);
      OthersRun(Apply(s, es[0]), es[1..]);
      InstallsCons(es);
    }
  }

  /** From the check that found the current task due to the fire: the fire completes that task, and
      rightly, exactly when no turn was opened in between; otherwise it completes the newer one. */
  lemma IdleFireExactly(s: State, es: seq<Event>)
    requires Inv(s) && s.driver.Woken? && s.turns.current.Some? && IsDue(s.turns.current.value, s.now)
    requires Runs(Apply(s, Check), es) && Others(es)
    ensures var t := Exec(Apply(s, Check), es);
            && Enabled(t, IdleFire) && Open(t)
            && Apply(t, IdleFire).turns.ends == t.turns.ends + [Ending(t.turns.current.value.id, Completed)]
            && (t.turns.current.value.id == s.turns.current.value.id <==> !Installs(es))
            && (!Installs(es) ==> IsDue(t.turns.current.value, t.now))
  {
    InvStep(s, Check);
    OthersRun(Apply(s, Check), es);
  }

  /** From a completion to its callback, which names no turn: it falls on the completed turn exactly
      when no turn was opened in between; otherwise on a later turn that is under way. */
  lemma CallbackExactly(s: State, e: Event, es: seq<Event>)
    requires Inv(s) && Enabled(s, e) && Fires(e) && Open(s)
    requires Runs(Apply(s, e), es) && Others(es)
    ensures var t := Exec(Apply(s, e), es);
            && Enabled(t, CallBack)
            && Apply(t, CallBack).turns.notices ==
               t.turns.notices + [Notice(s.turns.current.value.id, t.alive, CurrentId(t))]
            && (CurrentId(t) == CurrentId(s) <==> !Installs(es))
            && (Installs(es) ==> Open(t) && t.turns.current.value.id > s.turns.current.value.id)
  {
    InvStep(s, e);
    FireCalls(s, e);
    OthersRun(Apply(s, e), es);
    CallMade(Exec(Apply(s, e), es));
  }

  lemma FireCalls(s: State, e: Event)
    requires Enabled(s, e) && Fires(e) && Open(s)
    ensures var t := Apply(s, e);
            && t.driver.Calling? && t.driver.id == s.turns.current.value.id
            && CurrentId(t) == CurrentId(s) && !Open(t)
  {
  }

  lemma CallMade(s: State)
    requires s.driver.Calling?
    ensures Enabled(s, CallBack)
    ensures Apply(s, CallBack).turns.notices == s.turns.notices + [Notice(s.driver.id, s.alive, CurrentId(s))]
  {
  }

  // ---- The exit window ---------------------------------------------------------------------------------

  /** From the last fire on, the driver only makes its callback. */
  ghost predicate WhileExiting(es: seq<Event>) {
    forall i :: 0 <= i < |es| ==> !IsDriver(es[i]) || es[i].CallBack?
  }

  lemma ExitingStep(s: State, e: Event)
    requires Enabled(s, e) && Exiting(s) && FailsWhenDown(s) && (!IsDriver(e) || e.CallBack?)
    ensures Exiting(Apply(s, e))
    ensures Open(Apply(s, e)) <==> Open(s) || e.OpenTurn?
  {
  }

  lemma {:induction false} ExitingRun(s: State, es: seq<Event>)
    requires Runs(s, es) && Inv(s) && Exiting(s) && WhileExiting(es)
    ensures Exiting(Exec(s, es)) && Inv(Exec(s, es))
    ensures Open(Exec(s, es)) <==> Open(s) || Installs(es)
    decreases es
  {
    if es != [] {
      ExitingStep(s, es[0]);
      InvStep(s, es[0]);
      ExitingRun(Apply(s, es[0]), es[1..]);
      InstallsCons(es);
    }
  }

  /** When the stream dies, the driver leaves a turn without callback exactly when one was opened
      between its last fire and the closing of the queue; if its request was accepted, it is lost. */
  lemma ExitWindowExactly(s: State, es: seq<Event>)
    requires Inv(s) && s.driver.LastFire?
    requires Runs(Apply(s, FireLast), es) && WhileExiting(es)
    requires Exec(Apply(s, FireLast), es).driver.Closing?
    ensures var t := Exec(Apply(s, FireLast), es);
            var u := Apply(t, Close);
            && (Open(u) <==> Installs(es))
            && (Open(u) && Unheld(u.sender) ==> Request(u.turns.current.value.id) in u.lost)
  {
    InvStep(s, FireLast);
    ExitingRun(Apply(s, FireLast), es);
    InvStep(Exec(Apply(s, FireLast), es), Close);
  }

  /** A stranded turn stays open, whatever happens, until a caller connects or comes to speak again. */
  lemma {:induction false} StrandedStays(s: State, es: seq<Event>)
    requires Runs(s, es) && s.driver.Down? && (s.sender.Free? || s.sender.Starting?) && Open(s)
    requires forall i :: 0 <= i < |es| ==> !es[i].Acquire? && !es[i].Connect?
    ensures Open(Exec(s, es)) && CurrentId(Exec(s, es)) == CurrentId(s)
    ensures Exec(s, es).driver.Down?
    decreases es
  {
    if es != [] {
      StrandedStep(s, es[0]);
      StrandedStays(Apply(s, es[0]), es[1..]);
    }
  }

  lemma StrandedStep(s: State, e: Event)
    requires Enabled(s, e) && s.driver.Down? && (s.sender.Free? || s.sender.Starting?) && Open(s)
    requires !e.Acquire? && !e.Connect?
    ensures var t := Apply(s, e);
            t.driver.Down? && (t.sender.Free? || t.sender.Starting?) && Open(t) && CurrentId(t) == CurrentId(s)
  {
  }

  // ---- What the server's frames do --------------------------------------------------------------------

  /** An audio frame that finds a current task, not cancelled, and holds a sample is to be heard. */
  function Audible(current: Option<Task>, f: Frame): seq<Chunk> {
    if f.Audio? && current.Some? && !current.value.cancelled && |f.payload| >= 2
    then [Chunk(current.value.id, PcmOfLe(f.payload))] else []
  }

  function Gives(s: State, e: Event): seq<Chunk> {
    if e.Incoming? then Audible(s.turns.current, Classify(e.bytes)) else []
  }

  /** All that the server's frames in a run give to hear, in order. */
  function Given(s: State, es: seq<Event>): seq<Chunk>
    requires Runs(s, es)
    decreases es
  {
    if es == [] then [] else Gives(s, es[0]) + Given(Apply(s, es[0]), es[1..])
  }

  /** The chunk that has been routed and not yet pushed. */
  function Routed(s: State): seq<Chunk> {
    if s.driver.Pushing? then [s.driver.chunk] else []
  }

  predicate Heard(s: State, t: State, given: seq<Chunk>) {
    t.alive && t.pushed + Routed(t) == (s.pushed + Routed(s)) + given
  }

  /** The chunk routed is the one pushed. */
  lemma PushHeard(s: State)
    requires Enabled(s, Push) && s.alive
    ensures Apply(s, Push).pushed == s.pushed + [s.driver.chunk] && !Apply(s, Push).driver.Pushing?
  {
  }

  lemma FrameHeard(s: State, f: Frame)
    requires s.driver.Waiting? && s.alive
    ensures Heard(s, Route(s, f), Audible(s.turns.current, f))
  {
    assert s.pushed + [] == s.pushed;
  }

  lemma LoopHeard(s: State, e: Event)
    requires Enabled(s, e) && IsLoop(e) && s.alive
    ensures Heard(s, ByDriver(s, e), [])
  {
    assert (s.pushed + Routed(s)) + [] == s.pushed + Routed(s);
    if e.Push? {
      assert (s.pushed + [s.driver.chunk]) + [] == s.pushed + [s.driver.chunk];
    }
  }

  lemma OthersHeard(s: State, e: Event)
    requires Enabled(s, e) && !IsLoop(e) && !e.Incoming? && !e.DropSession? && s.alive
    ensures Apply(s, e).alive && Apply(s, e).pushed == s.pushed && Routed(Apply(s, e)) == Routed(s)
  {
  }

  lemma HeardStep(s: State, e: Event)
    requires Enabled(s, e) && !e.DropSession? && s.alive
    ensures Heard(s, Apply(s, e), Gives(s, e))
  {
    if e.Incoming? {
      FrameHeard(s, Classify(e.bytes));
    } else if IsLoop(e) {
      LoopHeard(s, e);
    } else {
      OthersHeard(s, e);
      assert (s.pushed + Routed(s)) + [] == s.pushed + Routed(s);
    }
  }

  /** While the call lasts, what has been pushed to the caller, and the chunk about to be, are exactly
      what the audio frames gave to hear, in order: nothing is lost, repeated or played out of turn. */
  lemma {:induction false} HeardInOrder(s: State, es: seq<Event>)
    requires Runs(s, es) && s.alive && forall i :: 0 <= i < |es| ==> !es[i].DropSession?
    ensures Heard(s, Exec(s, es), Given(s, es))
    decreases es
  {
    var before := s.pushed + Routed(s);
    if es == [] {
      assert before + [] == before;
    } else {
      HeardStep(s, es[0]);
      HeardInOrder(Apply(s, es[0]), es[1..]);
      Reassociate(before, Gives(s, es[0]), Given(Apply(s, es[0]), es[1..]));
    }
  }

  lemma NothingByFrame(s: State, f: Frame)
    requires !s.alive
    ensures !Route(s, f).alive && Route(s, f).pushed == s.pushed
  {
  }

  lemma NothingElse(s: State, e: Event)
    requires Enabled(s, e) && !s.alive && !e.Incoming?
    ensures !Apply(s, e).alive && Apply(s, e).pushed == s.pushed
  {
  }

  lemma NothingMoreStep(s: State, e: Event)
    requires Enabled(s, e) && !s.alive
    ensures !Apply(s, e).alive && Apply(s, e).pushed == s.pushed
  {
    if e.Incoming? {
      NothingByFrame(s, Classify(e.bytes));
    } else {
      NothingElse(s, e);
    }
  }

  /** Once the session object is gone, nothing more is pushed. */
  lemma {:induction false} NothingMore(s: State, es: seq<Event>)
    requires Runs(s, es) && !s.alive
    ensures Exec(s, es).pushed == s.pushed
    decreases es
  {
    if es != [] {
      NothingMoreStep(s, es[0]);
      NothingMore(Apply(s, es[0]), es[1..]);
    }
  }

  lemma OnlyServerFire(s: State, e: Event)
    requires s.driver.Firing? && Enabled(s, e) && IsDriver(e) && Open(s)
    ensures EndedAs(s, Apply(s, e), Completed)
  {
  }

  lemma EndingRouted(s: State, f: Frame)
    requires s.driver.Waiting? && (f.SentenceEnd? || f.ServerError? || f.SessionDown?)
    ensures Route(s, f).driver.Firing? && Route(s, f).turns == s.turns
    ensures Route(s, f).started == (s.started && !f.SessionDown?)
  {
  }

  /** A sentence end, an error and the end of the session complete the turn under way at the driver's
      next step, whatever others do before it: the turn that was under way exactly when none was
      opened in between. */
  lemma ServerEndsTurn(s: State, f: Frame, es: seq<Event>, e: Event)
    requires Inv(s) && s.driver.Waiting? && Open(s) && (f.SentenceEnd? || f.ServerError? || f.SessionDown?)
    requires Runs(Route(s, f), es) && Others(es)
    requires Enabled(Exec(Route(s, f), es), e) && IsDriver(e)
    ensures var t := Exec(Route(s, f), es);
            && Open(t) && EndedAs(t, Apply(t, e), Completed)
            && (CurrentId(t) == CurrentId(s) <==> !Installs(es))
    ensures Route(s, f).started == (s.started && !f.SessionDown?)
  {
    FrameKeeps(s, f);
    EndingRouted(s, f);
    OthersRun(Route(s, f), es);
    OnlyServerFire(Exec(Route(s, f), es), e);
  }

  // ---- The command queue ---------------------------------------------------------------------------------

  /** What an event adds to the queue, and what it removes: the driver takes one command, or leaves
      all that are queued when it closes its end. */
  function Adds(s: State, e: Event): seq<Cmd> {
    match e
    case QueueControl(shutdown) => [if shutdown then Shutdown else Control]
    case Enqueue => [RequestFor(s)]
    case _ => []
  }

  function Removes(s: State, e: Event): seq<Cmd>
    requires Enabled(s, e)
  {
    match e
    case Receive(_) => [s.queue[0]]
    case Close => s.queue
    case _ => []
  }

  function Added(s: State, es: seq<Event>): seq<Cmd>
    requires Runs(s, es)
    decreases es
  {
    if es == [] then [] else Adds(s, es[0]) + Added(Apply(s, es[0]), es[1..])
  }

  function Removed(s: State, es: seq<Event>): seq<Cmd>
    requires Runs(s, es)
    decreases es
  {
    if es == [] then [] else Removes(s, es[0]) + Removed(Apply(s, es[0]), es[1..])
  }

  /** Without a driver there is no queue. */
  predicate QueueHasReader(s: State) {
    s.driver.Down? ==> s.queue == []
  }

  predicate Moves(s: State, t: State, adds: seq<Cmd>, removes: seq<Cmd>) {
    QueueHasReader(t) && s.queue + adds == removes + t.queue
  }

  lemma Unmoved(q: seq<Cmd>)
    ensures q + [] == q == [] + q
  {
  }

  lemma FrameMoves(s: State, f: Frame)
    requires s.driver.Waiting? && QueueHasReader(s)
    ensures Moves(s, Route(s, f), [], [])
  {
    Unmoved(s.queue);
  }

  lemma ReceiveMoves(s: State, written: bool)
    requires Enabled(s, Receive(written))
    ensures Moves(s, ByDriver(s, Receive(written)), [], [s.queue[0]])
  {
    Unmoved(s.queue);
    Halves(s.queue, 1);
    assert s.queue[..1] == [s.queue[0]];
  }

  lemma LoopMoves(s: State, e: Event)
    requires Enabled(s, e) && IsLoop(e) && !e.Receive? && QueueHasReader(s)
    ensures Moves(s, ByDriver(s, e), [], [])
  {
    Unmoved(s.queue);
  }

  lemma CloseMoves(s: State)
    requires Enabled(s, Close)
    ensures Moves(s, ByFiring(s, Close), [], s.queue)
  {
  }

  lemma FiringMoves(s: State, e: Event)
    requires Enabled(s, e) && IsFiring(e) && !e.Close? && QueueHasReader(s)
    ensures Moves(s, ByFiring(s, e), [], [])
  {
    Unmoved(s.queue);
  }

  lemma OpenerMoves(s: State, e: Event)
    requires Enabled(s, e) && IsOpening(e) && QueueHasReader(s)
    ensures Moves(s, ByOpener(s, e), Adds(s, e), [])
  {
    Unmoved(s.queue);
  }

  lemma SpeakerMoves(s: State, e: Event)
    requires Enabled(s, e) && IsSpeaking(e) && QueueHasReader(s)
    ensures Moves(s, ByCaller(s, e), Adds(s, e), [])
  {
    Unmoved(s.queue);
  }

  lemma MovesStep(s: State, e: Event)
    requires Enabled(s, e) && QueueHasReader(s)
    ensures Moves(s, Apply(s, e), Adds(s, e), Removes(s, e))
  {
    if e.Tick? {
      Unmoved(s.queue);
    } else if e.Receive? {
      ReceiveMoves(s, e.written);
    } else if e.Close? {
      CloseMoves(s);
    } else if e.Incoming? {
      FrameMoves(s, Classify(e.bytes));
    } else if IsLoop(e) {
      LoopMoves(s, e);
    } else if IsFiring(e) {
      FiringMoves(s, e);
    } else if IsOpening(e) {
      OpenerMoves(s, e);
    } else {
      SpeakerMoves(s, e);
    }
  }

  /** Over any run the commands queued are, in order, those removed and those still in the queue. */
  lemma {:induction false} CommandsInOrder(s: State, es: seq<Event>)
    requires Runs(s, es) && QueueHasReader(s)
    ensures Moves(s, Exec(s, es), Added(s, es), Removed(s, es))
    decreases es
  {
    if es == [] {
      assert s.queue + [] == [] + s.queue;
    } else {
      var e, t := es[0], Apply(s, es[0]);
      MovesStep(s, e);
      CommandsInOrder(t, es[1..]);
      QueuesCompose(s.queue, Adds(s, e), Added(t, es[1..]), Removes(s, e), t.queue, Removed(t, es[1..]),
                    Exec(t, es[1..]).queue);
    }
  }

  lemma QueuesCompose(q: seq<Cmd>, a: seq<Cmd>, b: seq<Cmd>, r: seq<Cmd>, mid: seq<Cmd>, u: seq<Cmd>, last: seq<Cmd>)
    requires q + a == r + mid && mid + b == u + last
    ensures q + (a + b) == (r + u) + last
  {
    Reassociate(q, a, b);
    Reassociate(r, mid, b);
    Reassociate(r, u, last);
  }

  // ---- When a session counts as started ------------------------------------------------------------------

  /** What an event says of it, if anything. */
  function Says(e: Event): Option<bool> {
    if e.ResetStarted? || e.MarkDown? then Some(false)
    else if e.Incoming? && Classify(e.bytes).SessionUp? then Some(true)
    else if e.Incoming? && Classify(e.bytes).SessionDown? then Some(false)
    else None
  }

  function LastSaid(es: seq<Event>): Option<bool>
    decreases es
  {
    if es == [] then None else if LastSaid(es[1..]).Some? then LastSaid(es[1..]) else Says(es[0])
  }

  lemma FrameStarts(s: State, f: Frame)
    ensures Route(s, f).started == if f.SessionUp? then true else if f.SessionDown? then false else s.started
  {
  }

  lemma OpenerStarts(s: State, e: Event)
    requires Enabled(s, e) && IsOpening(e)
    ensures ByOpener(s, e).started == if e.ResetStarted? then false else s.started
  {
  }

  lemma FiringStarts(s: State, e: Event)
    requires Enabled(s, e) && IsFiring(e)
    ensures ByFiring(s, e).started == if e.MarkDown? then false else s.started
  {
  }

  lemma OthersStart(s: State, e: Event)
    requires Enabled(s, e) && !e.Incoming? && !IsOpening(e) && !IsFiring(e)
    ensures Apply(s, e).started == s.started
  {
  }

  lemma StartedStep(s: State, e: Event)
    requires Enabled(s, e)
    ensures Apply(s, e).started == if Says(e).Some? then Says(e).value else s.started
  {
    if e.Incoming? {
      FrameStarts(s, Classify(e.bytes));
    } else if IsOpening(e) {
      OpenerStarts(s, e);
    } else if IsFiring(e) {
      FiringStarts(s, e);
    } else {
      OthersStart(s, e);
    }
  }

  /** Over any run: as the last of the server's session frames, the resets before a session is opened
      and the driver's leaving says. */
  lemma {:induction false} StartedExactly(s: State, es: seq<Event>)
    requires Runs(s, es)
    ensures Exec(s, es).started == if LastSaid(es).Some? then LastSaid(es).value else s.started
    decreases es
  {
    if es != [] {
      StartedStep(s, es[0]);
      StartedExactly(Apply(s, es[0]), es[1..]);
    }
  }

  // ---- The driver stops ------------------------------------------------------------------------------------

  /** A shutdown is received, a write fails, the stream ends, or a chunk finds nobody to play it to. */
  predicate MustStop(s: State, e: Event)
    requires Enabled(s, e)
  {
    || (e.Receive? && (s.queue[0] == Shutdown || !e.written))
    || e.StreamEnds?
    || (e.Push? && !s.alive)
  }

  predicate Stopping(s: State) {
    s.driver.Leaving? || s.driver.LastFire? || Exiting(s) || s.driver.Down?
  }

  /** Driver steps left, at most. */
  function StopsIn(s: State): nat {
    match s.driver
    case Leaving => 4
    case LastFire => 3
    case Calling(_, _) => 2
    case Closing => 1
    case _ => 0
  }

  lemma FiringStops(s: State, e: Event)
    requires Enabled(s, e) && Stopping(s) && IsFiring(e)
    ensures Stopping(ByFiring(s, e)) && StopsIn(ByFiring(s, e)) < StopsIn(s)
  {
  }

  lemma OthersLeaveDriver(s: State, e: Event)
    requires Enabled(s, e) && !IsDriver(e) && !e.Connect?
    ensures Apply(s, e).driver == s.driver
  {
  }

  lemma StopStep(s: State, e: Event)
    requires Enabled(s, e) && Stopping(s) && !e.Connect?
    ensures Stopping(Apply(s, e))
    ensures StopsIn(Apply(s, e)) + (if IsDriver(e) then 1 else 0) <= StopsIn(s)
  {
    if IsFiring(e) {
      FiringStops(s, e);
    } else {
      assert !IsDriver(e);
      OthersLeaveDriver(s, e);
    }
  }

  lemma {:induction false} StopRun(s: State, es: seq<Event>)
    requires Runs(s, es) && Stopping(s) && forall i :: 0 <= i < |es| ==> !es[i].Connect?
    ensures Stopping(Exec(s, es)) && StopsIn(Exec(s, es)) + CountDriver(es) <= StopsIn(s)
    decreases es
  {
    if es != [] {
      StopStep(s, es[0]);
      StopRun(Apply(s, es[0]), es[1..]);
    }
  }

  /** Each of these ends the driver: it takes at most four more steps, can always take the next one
      until its end of the queue is closed, and after the first the session is marked down. */
  lemma DriverStops(s: State, e: Event, es: seq<Event>)
    requires Enabled(s, e) && MustStop(s, e)
    requires Runs(Apply(s, e), es) && forall i :: 0 <= i < |es| ==> !es[i].Connect?
    ensures var t := Exec(Apply(s, e), es);
            && StopsIn(t) + CountDriver(es) <= 4
            && (StopsIn(t) == 0 ==> t.driver.Down?)
            && (StopsIn(t) > 0 ==> Enabled(t, NextStop(t)) && IsDriver(NextStop(t)))
  {
    StopsNow(s, e);
    StopRun(Apply(s, e), es);
    CanStop(Exec(Apply(s, e), es));
  }

  lemma CanStop(s: State)
    requires Stopping(s)
    ensures StopsIn(s) == 0 ==> s.driver.Down?
    ensures StopsIn(s) > 0 ==> Enabled(s, NextStop(s)) && IsDriver(NextStop(s))
  {
  }

  lemma StopsNow(s: State, e: Event)
    requires Enabled(s, e) && MustStop(s, e)
    ensures Apply(s, e).driver.Leaving?
  {
  }

  function NextStop(s: State): Event {
    match s.driver
    case Leaving => MarkDown
    case LastFire => FireLast
    case Calling(_, _) => CallBack
    case _ => Close
  }

  // ---- The send mutex ----------------------------------------------------------------------------------------

  /** What becomes of a mutex that is held. */
  predicate Handled(s: State, t: State, e: Event) {
    && (t.sender.Free? <==> e.Observed? || e.GiveUp? || e.Abort? || e.Enqueue? || e.ClearAfterFailure?)
    && (e.Enqueue? ==> t.queue == s.queue + [RequestFor(s)])
    && (e.SendFails? ==> t.sender.Failing?)
    && (e.ClearAfterFailure? ==> t.turns.current == None)
    && (e.OpenTurn? || e.ContinueTurn? ==> t.sender.Sending?)
  }

  lemma OpenerHandles(s: State, e: Event)
    requires Enabled(s, e) && IsOpening(e) && !s.sender.Free?
    ensures Handled(s, ByOpener(s, e), e)
  {
  }

  lemma SpeakerHandles(s: State, e: Event)
    requires Enabled(s, e) && IsSpeaking(e) && !s.sender.Free?
    ensures Handled(s, ByCaller(s, e), e)
  {
  }

  lemma FrameLeavesMutex(s: State, f: Frame)
    ensures Route(s, f).sender == s.sender
  {
  }

  lemma DriverLeavesMutex(s: State, e: Event)
    requires Enabled(s, e) && (e.Tick? || IsLoop(e) || IsFiring(e))
    ensures Apply(s, e).sender == s.sender
  {
  }

  /** Whoever holds the mutex gives it up by having opened the session or failing to, by changing its
      mind before it sends, by queueing its request, or, if that cannot be queued, by clearing its turn. */
  lemma MutexReleased(s: State, e: Event)
    requires Enabled(s, e) && !s.sender.Free?
    ensures Handled(s, Apply(s, e), e)
  {
    if e.Incoming? {
      FrameLeavesMutex(s, Classify(e.bytes));
    } else if IsOpening(e) {
      OpenerHandles(s, e);
    } else if IsSpeaking(e) {
      SpeakerHandles(s, e);
    } else {
      DriverLeavesMutex(s, e);
    }
  }

  // ---- Cancelling silences ---------------------------------------------------------------------------

  /** Nothing more is to be heard of the current turn. */
  predicate Muted(s: State) {
    s.turns.current.Some? ==> s.turns.current.value.cancelled
  }

  /** What an event that opens no turn does to what is heard: only a cancel or a failed send mutes,
      nothing unmutes, and only the chunk being pushed is pushed. */
  predicate Quiet(s: State, t: State, e: Event) {
    && (Muted(t) <==> Muted(s) || e.CancelTurn? || e.ClearAfterFailure?)
    && (t.turns.current.Some? ==> CurrentId(t) == CurrentId(s))
    && (Muted(s) && t.driver.Pushing? ==> t.driver == s.driver && t.pushed == s.pushed)
    && (!t.driver.Pushing? ==>
          t.pushed == s.pushed || (s.driver.Pushing? && t.pushed == s.pushed + [s.driver.chunk]))
  }

  lemma OpenerQuiet(s: State, e: Event)
    requires Enabled(s, e) && IsOpening(e) && !e.OpenTurn?
    ensures Quiet(s, ByOpener(s, e), e)
  {
  }

  lemma SpeakerQuiet(s: State, e: Event)
    requires Enabled(s, e) && IsSpeaking(e) && !e.OpenTurn?
    ensures Quiet(s, ByCaller(s, e), e)
  {
  }

  lemma LoopQuiet(s: State, e: Event)
    requires Enabled(s, e) && IsLoop(e) && !e.OpenTurn?
    ensures Quiet(s, ByDriver(s, e), e)
  {
  }

  lemma FiringQuiet(s: State, e: Event)
    requires Enabled(s, e) && IsFiring(e) && !e.OpenTurn?
    ensures Quiet(s, ByFiring(s, e), e)
  {
  }

  lemma FrameQuiet(s: State, e: Event, f: Frame)
    requires Enabled(s, e) && e.Incoming? && !e.OpenTurn?
    ensures Quiet(s, Route(s, f), e)
  {
  }

  lemma QuietStep(s: State, e: Event)
    requires Enabled(s, e) && !e.OpenTurn?
    ensures Quiet(s, Apply(s, e), e)
  {
    if e.Tick? {
    } else if e.Incoming? {
      FrameQuiet(s, e, Classify(e.bytes));
    } else if IsLoop(e) {
      LoopQuiet(s, e);
    } else if IsFiring(e) {
      FiringQuiet(s, e);
    } else if IsOpening(e) {
      OpenerQuiet(s, e);
    } else {
      SpeakerQuiet(s, e);
    }
  }

  /** After a cancel and until the next sentence that opens a turn, whatever else happens, nothing
      reaches the caller but the one chunk that was already routed, if there was one. */
  lemma {:induction false} CancelSilences(s: State, es: seq<Event>)
    requires Runs(s, es) && Muted(s) && !Installs(es)
    ensures var t := Exec(s, es);
            t.pushed == s.pushed || (s.driver.Pushing? && t.pushed == s.pushed + [s.driver.chunk])
    ensures Muted(Exec(s, es))
    decreases es
  {
    if es != [] {
      InstallsCons(es);
      QuietStep(s, es[0]);
      CancelSilences(Apply(s, es[0]), es[1..]);
    }
  }

  /** A cancel mutes; frames still refresh the cancelled task's timer, so it still retires. */
  lemma CancelledStillTimed(s: State, payload: seq<byte>)
    requires Enabled(s, CancelTurn)
    ensures Muted(Apply(s, CancelTurn))
    ensures Open(s) ==>
              Open(Apply(s, CancelTurn))
              && Deadline(Apply(s, CancelTurn).turns.current.value) == Deadline(s.turns.current.value)
    ensures s.driver.Waiting? && Open(s) ==>
              var t := Route(Apply(s, CancelTurn), Audio(payload));
              t.driver.Top? && Open(t) && Deadline(t.turns.current.value) == Some(s.now + 400)
  {
  }

  // ---- Late frames --------------------------------------------------------------------------------------

  /** A cancel, or a failed send. */
  ghost predicate Hushes(es: seq<Event>) {
    exists i :: 0 <= i < |es| && (es[i].CancelTurn? || es[i].ClearAfterFailure?)
  }

  lemma HushesCons(es: seq<Event>)
    requires es != []
    ensures Hushes(es) <==> es[0].CancelTurn? || es[0].ClearAfterFailure? || Hushes(es[1..])
  {
    if Hushes(es) {
      var i :| 0 <= i < |es| && (es[i].CancelTurn? || es[i].ClearAfterFailure?);
      assert i > 0 ==> es[1..][i - 1].CancelTurn? || es[1..][i - 1].ClearAfterFailure?;
    }
    if Hushes(es[1..]) {
      var i :| 0 <= i < |es[1..]| && (es[1..][i].CancelTurn? || es[1..][i].ClearAfterFailure?);
      assert es[i + 1].CancelTurn? || es[i + 1].ClearAfterFailure?;
    }
  }

  lemma {:induction false} MutedExactly(s: State, es: seq<Event>)
    requires Runs(s, es) && !Installs(es)
    ensures Muted(Exec(s, es)) <==> Muted(s) || Hushes(es)
    ensures Exec(s, es).turns.current.Some? ==> CurrentId(Exec(s, es)) == CurrentId(s)
    decreases es
  {
    if es != [] {
      InstallsCons(es);
      HushesCons(es);
      QuietStep(s, es[0]);
      MutedExactly(Apply(s, es[0]), es[1..]);
    }
  }

  /** After a turn replaces another, until the next one: an audio frame, whichever turn the server
      made it for, is played, as the new turn's, exactly when it holds a sample and the new turn was
      neither cancelled nor failed to send; and unless the send failed, it moves the new turn's
      deadline if that is still under way. */
  lemma LateFramesExactly(s: State, es: seq<Event>, payload: seq<byte>)
    requires Enabled(s, OpenTurn) && Runs(Apply(s, OpenTurn), es) && !Installs(es)
    requires Exec(Apply(s, OpenTurn), es).driver.Waiting?
    ensures var t := Exec(Apply(s, OpenTurn), es);
            var u := Route(t, Audio(payload));
            && (u.driver.Pushing? <==> |payload| >= 2 && !Hushes(es))
            && (u.driver.Pushing? ==> u.driver.chunk == Chunk(s.turns.installs, PcmOfLe(payload)))
            && (Open(t) ==> t.turns.current.value.id == s.turns.installs
                            && Deadline(u.turns.current.value) == Some(t.now + 400))
  {
    MutedExactly(Apply(s, OpenTurn), es);
  }

  // ---- Runs from the start that show each exception ---------------------------------------------------------

  lemma {:induction false} ExecAppend(s: State, a: seq<Event>, b: seq<Event>)
    requires Runs(s, a) && Runs(Exec(s, a), b)
    ensures Runs(s, a + b) && Exec(s, a + b) == Exec(Exec(s, a), b)
    decreases a
  {
    if a == [] {
      assert a + b == b;
    } else {
      assert (a + b)[1..] == a[1..] + b;
      ExecAppend(Apply(s, a[0]), a[1..], b);
    }
  }

  /** The run so far, and the state it reaches. */
  ghost predicate Reaches(es: seq<Event>, s: State) {
    Runs(INIT, es) && Exec(INIT, es) == s
  }

  lemma Go(es: seq<Event>, s: State, e: Event) returns (es': seq<Event>, t: State)
    requires Reaches(es, s) && Enabled(s, e)
    ensures es' == es + [e] && t == Apply(s, e) && Reaches(es', t)
  {
    es', t := es + [e], Apply(s, e);
    assert [e][1..] == [];
    ExecAppend(INIT, es, [e]);
  }

  /** A frame of the server, as its bytes are read. */
  lemma GoFrame(es: seq<Event>, s: State, bytes: seq<byte>, f: Frame) returns (es': seq<Event>, t: State)
    requires Reaches(es, s) && s.driver.Waiting? && Classify(bytes) == f
    ensures t == Route(s, f) && Reaches(es', t)
  {
    es', t := Go(es, s, Incoming(bytes));
  }

  lemma GoStarted(es: seq<Event>, s: State) returns (es': seq<Event>, t: State)
    requires Reaches(es, s) && s.driver.Waiting?
    ensures t == Route(s, SessionUp) && Reaches(es', t)
  {
    TtsFrames.StartedMeans();
    es', t := GoFrame(es, s, TtsFrames.STARTED, SessionUp);
  }

  lemma GoNoSamples(es: seq<Event>, s: State) returns (es': seq<Event>, t: State)
    requires Reaches(es, s) && s.driver.Waiting?
    ensures t == Route(s, Audio([])) && Reaches(es', t)
  {
    TtsFrames.NoSamplesMeans();
    es', t := GoFrame(es, s, TtsFrames.NO_SAMPLES, Audio([]));
  }

  lemma Connected() returns (es: seq<Event>, s: State)
    ensures Reaches(es, s) && s == INIT.(sender := Starting, driver := Top)
  {
    es, s := Go([], INIT, BeginStart);
    es, s := Go(es, s, Connect);
  }

  /** A caller takes the mutex, connects, and queues the commands that open connection and session. */
  lemma Dialled() returns (es: seq<Event>, s: State)
    ensures Reaches(es, s)
    ensures s == INIT.(sender := Starting, driver := Top, queue := [Control, Control])
  {
    es, s := Connected();
    es, s := Go(es, s, QueueControl(false));
    es, s := Go(es, s, ResetStarted);
    es, s := Go(es, s, QueueControl(false));
  }

  /** The driver writes both, SessionStarted arrives, and the caller sees it. */
  lemma Started() returns (es: seq<Event>, s: State)
    ensures Reaches(es, s) && s == INIT.(started := true, driver := Top, admitted := 1)
  {
    es, s := Dialled();
    es, s := Go(es, s, Arm);
    es, s := Go(es, s, Receive(true));
    es, s := Go(es, s, Arm);
    es, s := Go(es, s, Receive(true));
    es, s := Go(es, s, Arm);
    es, s := GoStarted(es, s);
    es, s := Go(es, s, Observed);
  }

  /** An admitted caller opens a turn. */
  lemma Opened(es0: seq<Event>, s0: State) returns (es: seq<Event>, s: State)
    requires Reaches(es0, s0) && s0.sender.Free? && s0.alive && s0.admitted > 0
    ensures Reaches(es, s)
    ensures s == s0.(turns := Install(s0.turns, s0.now), sender := Sending, admitted := s0.admitted - 1)
  {
    es, s := Go(es0, s0, Acquire(false));
    es, s := Go(es, s, OpenTurn);
  }

  const FIRST := Turns(Some(Task(0, false, 0, false, false, None)), 1, [], [])

  /** A first turn, asked for and sent, with the driver waiting. */
  lemma FirstTurn() returns (es: seq<Event>, s: State)
    ensures Reaches(es, s)
    ensures s == INIT.(started := true, turns := FIRST,
                       driver := Waiting(Some(15000)))
  {
    es, s := Started();
    es, s := Opened(es, s);
    es, s := Go(es, s, Enqueue);
    es, s := Go(es, s, Arm);
    es, s := Go(es, s, Receive(true));
    es, s := Go(es, s, Arm);
  }

  /** The first turn has waited in vain; the driver has taken the timer and found it due. */
  lemma FirstTurnDue() returns (es: seq<Event>, s: State)
    ensures Reaches(es, s)
    ensures s == INIT.(started := true, turns := FIRST,
                       now := FIRST_AUDIO_TIMEOUT, driver := Due(0))
  {
    es, s := FirstTurn();
    es, s := Go(es, s, Tick(FIRST_AUDIO_TIMEOUT));
    es, s := Go(es, s, Wake);
    es, s := Go(es, s, Check);
  }

  /** The timer of a replaced turn can complete a fresh one, installed between the check and the
      fire: it is completed although it has only just begun. */
  lemma StaleTimerCompletesFreshTurn() returns (es: seq<Event>, s: State)
    ensures Reaches(es, s) && s.driver == Due(0)
    ensures Open(s) && s.turns.current.value.id == 1
    ensures s.turns.current.value.start == s.now && !IsDue(s.turns.current.value, s.now)
    ensures Enabled(s, IdleFire) && Apply(s, IdleFire).turns.ends == [Ending(0, Replaced), Ending(1, Completed)]
  {
    es, s := FirstTurnDue();
    es, s := Go(es, s, Admit);
    es, s := Opened(es, s);
  }

  /** The callback of a completed turn can fall on the next one, opened before it was made. */
  lemma CallbackFallsOnNextTurn() returns (es: seq<Event>, s: State)
    ensures Reaches(es, s) && Open(s) && s.turns.current.value.id == 1
    ensures s.turns.ends == [Ending(0, Completed)] && s.turns.notices == [Notice(0, true, Some(1))]
  {
    es, s := FirstTurnDue();
    es, s := Go(es, s, IdleFire);
    es, s := Go(es, s, Admit);
    es, s := Opened(es, s);
    es, s := Go(es, s, CallBack);
  }

  /** A second turn has replaced the first when a late frame of the first arrives. */
  lemma LateFrame() returns (es: seq<Event>, s: State)
    ensures Reaches(es, s)
    ensures s == INIT.(started := true, sender := Sending, driver := Top,
                       turns := Touch(Install(FIRST, 0), 0))
  {
    es, s := FirstTurn();
    es, s := Go(es, s, Admit);
    es, s := Opened(es, s);
    es, s := GoNoSamples(es, s);
  }

  /** The late frame has started the idle clock of the new turn, which goes off. */
  lemma FreshTurnDue() returns (es: seq<Event>, s: State)
    ensures Reaches(es, s) && s.driver == Due(1) && s.now == 400 && s.sender.Sending? && s.pushed == []
    ensures s.turns == Touch(Install(FIRST, 0), 0)
  {
    es, s := LateFrame();
    es, s := Go(es, s, Arm);
    es, s := Go(es, s, Tick(400));
    es, s := Go(es, s, Wake);
    es, s := Go(es, s, Check);
  }

  /** A late frame of the replaced turn starts the idle clock of the new one, which then completes
      before its own request has even been queued. */
  lemma LateFrameCountsForNewTurn() returns (es: seq<Event>, s: State)
    ensures Reaches(es, s) && s.now == 400 && s.sender.Sending? && s.pushed == []
    ensures s.turns.ends == [Ending(0, Replaced), Ending(1, Completed)]
  {
    es, s := FreshTurnDue();
    es, s := Go(es, s, IdleFire);
  }

  /** A second caller has found the session started when the stream ends. */
  lemma StreamDies() returns (es: seq<Event>, s: State)
    ensures Reaches(es, s) && s == INIT.(admitted := 1, turns := FIRST, driver := LastFire)
  {
    es, s := FirstTurn();
    es, s := Go(es, s, Admit);
    es, s := Go(es, s, StreamEnds);
    es, s := Go(es, s, MarkDown);
  }

  /** The driver fires for the last time. */
  lemma PastLastFire() returns (es: seq<Event>, s: State)
    ensures Reaches(es, s)
    ensures s == INIT.(admitted := 1, driver := Closing,
                       turns := Complete(FIRST).(notices := [Notice(0, true, Some(0))]))
  {
    es, s := StreamDies();
    es, s := Go(es, s, FireLast);
    es, s := Go(es, s, CallBack);
  }

  /** The second caller's turn is accepted before the queue closes, and then lost. */
  lemma ExitWindowStrandsTurn() returns (es: seq<Event>, s: State)
    ensures Reaches(es, s) && s.driver.Down? && s.sender.Free? && s.alive
    ensures Open(s) && s.turns.current.value.id == 1 && s.lost == [Request(1)]
    ensures s.turns.ends == [Ending(0, Completed)] && s.turns.notices == [Notice(0, true, Some(0))]
  {
    es, s := PastLastFire();
    es, s := Opened(es, s);
    es, s := Go(es, s, Enqueue);
    es, s := Go(es, s, Close);
  }
}
