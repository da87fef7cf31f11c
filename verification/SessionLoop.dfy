/**
  The timed loop of the session thread: when a heartbeat or a window change
  runs, given what the clock read at each point of each lap, and what the game's
  threads did to the session and to the lobbies in between.
 */
module SessionLoop {
  import opened Wrappers
  import opened Session
  import Q = LobbyQueue

  const MIN_WAIT := 50 * MILLISECOND

  // ---------- The game's threads ----------

  datatype GameCall =
    | Frame
    | End
    | Arm
    | Enter(lobbyId: string)
    | Exit(lobbyId: string)
    | TakeEvents
    | Discard(through: nat)

  function SessionAfter(s: State, c: GameCall): State {
    match c
    case Frame => s.Framed()
    case End => s.(sessionId := None, pending := [])
    case _ => s
  }

  function SharedAfter(q: Q.Shared, c: GameCall): Q.Shared {
    match c
    case Arm => q.Armed()
    case Enter(lobbyId) => q.Entered(lobbyId)
    case Exit(lobbyId) => q.Left(lobbyId)
    case TakeEvents => q.(events := [])
    case Discard(through) => q.Discarded(through)
    case _ => q
  }

  function SessionAfterAll(s: State, calls: seq<GameCall>): State
    decreases calls
  {
    if calls == [] then s else SessionAfterAll(SessionAfter(s, calls[0]), calls[1..])
  }

  function SharedAfterAll(q: Q.Shared, calls: seq<GameCall>): Q.Shared
    decreases calls
  {
    if calls == [] then q else SharedAfterAll(SharedAfter(q, calls[0]), calls[1..])
  }

  method Play(inner: SessionInner, p2p: Q.P2pState, calls: seq<GameCall>)
    requires inner.Valid() && p2p.Valid()
    modifies inner, p2p
    ensures inner.Valid() && inner.Now() == SessionAfterAll(old(inner.Now()), calls)
    ensures p2p.Valid() && p2p.State() == SharedAfterAll(old(p2p.State()), calls)
  {
    hide Q.Shared.Contiguous, Q.Shared.Distinct;
    ghost var session, shared := inner.Now(), p2p.State();
    assert calls[0..] == calls;
    for i := 0 to |calls|
      invariant inner.Valid() && SessionAfterAll(inner.Now(), calls[i..]) == SessionAfterAll(session, calls)
      invariant p2p.Valid() && SharedAfterAll(p2p.State(), calls[i..]) == SharedAfterAll(shared, calls)
    {
      assert calls[i..][1..] == calls[i + 1..];
      PlayOne(inner, p2p, calls[i]);
    }
  }

  method PlayOne(inner: SessionInner, p2p: Q.P2pState, c: GameCall)
    requires inner.Valid() && p2p.Valid()
    modifies inner, p2p
    ensures inner.Valid() && inner.Now() == SessionAfter(old(inner.Now()), c)
    ensures p2p.Valid() && p2p.State() == SharedAfter(old(p2p.State()), c)
  {
    hide Q.Shared.Contiguous, Q.Shared.Distinct;
    match c
    case Frame => inner.Frame();
    case End => var _ := inner.End();
    case Arm => p2p.Arm();
    case Enter(lobbyId) => p2p.Enter(lobbyId);
    case Exit(lobbyId) => p2p.Exit(lobbyId);
    case TakeEvents => var _ := p2p.TakeEvents();
    case Discard(through) => p2p.Discard(through);
  }

  // ---------- The loop ----------

  datatype Stop = Never | AtStart | BeforeWait | AfterWait

  /**
    One turn of the loop as the world answered it: the clock readings in order,
    the answers of the calls, and what the game called before each point where
    the loop reads what the game may have changed. `notified` laps may end
    before their timeout; `overshoot` is how much later than its timeout the
    wait may return.
   */
  datatype Lap = Lap(start: nat, tickCheck: nat, tickEnd: nat, pollCheck: nat, pollEnd: nat,
                     deadlineAt: nat, waitFrom: nat, wake: nat, notified: bool, overshoot: nat,
                     id: string, now: int, heartbeat: HeartbeatAnswer, begin: StartAnswer, answer: Q.PollAnswer,
                     beforeWindow: seq<GameCall>, beforeTick: seq<GameCall>, beforePoll: seq<GameCall>,
                     beforePeriod: seq<GameCall>, beforeWait: seq<GameCall>, stop: Stop)
  {
    predicate EndsBeforeTick() {
      End in beforeWindow || End in beforeTick
    }

    predicate EndsAfterTick() {
      End in beforePoll || End in beforePeriod || End in beforeWait
    }

    predicate InOrder() {
      start <= tickCheck <= tickEnd <= pollCheck <= pollEnd <= deadlineAt <= waitFrom <= wake
    }
  }

  function Min(a: int, b: int): int {
    if a < b then a else b
  }

  function Max(a: int, b: int): int {
    if a < b then b else a
  }

  datatype Loop = Loop(session: State, shared: Q.Shared, nextTick: nat, nextPoll: nat) {
    predicate Ticks(lap: Lap) {
      lap.tickCheck >= nextTick
    }

    function Played(calls: seq<GameCall>): Loop {
      this.(session := SessionAfterAll(session, calls), shared := SharedAfterAll(shared, calls))
    }

    function WindowTurned(lap: Lap): Loop {
      this.(session := session.WindowPolled(Moment(lap.start, lap.id, lap.now)))
    }

    function TickTurned(lap: Lap, tick: nat): Loop {
      if Ticks(lap) then this.(session := session.Ticked(lap.heartbeat, lap.begin), nextTick := lap.tickEnd + tick)
      else this
    }

    predicate Polls(lap: Lap) {
      shared.polling.Active? && lap.pollCheck >= nextPoll
    }

    function PollTurned(lap: Lap, tick: nat): Loop {
      if !Polls(lap) then this
      else
        var after := this.(shared := shared.Polled(lap.answer)).Played(lap.beforePeriod);
        after.(nextPoll := lap.pollEnd + after.shared.Period(tick))
    }

    /** The body of one lap, up to the second look at the stop flag. */
    function Body(lap: Lap, tick: nat): Loop {
      Played(lap.beforeWindow).WindowTurned(lap).Played(lap.beforeTick).TickTurned(lap, tick)
      .Played(lap.beforePoll).PollTurned(lap, tick)
    }

    /** The lap up to the wait. */
    function Turned(lap: Lap, tick: nat): Loop {
      Body(lap, tick).Played(lap.beforeWait)
    }

    /** What the thread sleeps until. */
    function Deadline(): nat {
      var window := session.WindowDeadline();
      var due := if window.Some? then Min(window.value, nextTick) else nextTick;
      if shared.polling.Active? then Min(due, nextPoll) else due
    }

    function Timeout(lap: Lap): nat {
      Max(Deadline() - lap.deadlineAt, MIN_WAIT)
    }

    /** The clock does not go back, and a wait that is not cut short lasts its timeout. */
    predicate Possible(lap: Lap, tick: nat) {
      var timeout := Turned(lap, tick).Timeout(lap);
      && lap.InOrder()
      && (!lap.notified ==> lap.wake >= lap.waitFrom + timeout)
      && lap.wake <= lap.waitFrom + timeout + lap.overshoot
    }
  }

  function START(session: State, shared: Q.Shared): Loop {
    Loop(session, shared, 0, 0)
  }

  /** The loop after `laps`, which end with the first that sees the stop flag. */
  function Ran(loop: Loop, laps: seq<Lap>, tick: nat): Loop
    decreases laps
  {
    if laps == [] then loop
    else match laps[0].stop
      case AtStart => loop
      case BeforeWait => loop.Body(laps[0], tick)
      case AfterWait => loop.Turned(laps[0], tick)
      case Never => Ran(loop.Turned(laps[0], tick), laps[1..], tick)
  }

  /** The loop on the session and lobby objects, against what each lap's world answers. */
  method Run(inner: SessionInner, p2p: Q.P2pState, laps: seq<Lap>, tick: nat) returns (loop: Loop)
    requires inner.Valid() && p2p.Valid()
    requires forall lap :: lap in laps ==> lap.InOrder()
    modifies inner, p2p
    ensures inner.Valid() && p2p.Valid()
    ensures loop == Ran(START(old(inner.Now()), old(p2p.State())), laps, tick)
    ensures inner.Now() == loop.session && p2p.State() == loop.shared
  {
    hide Loop.Body, Q.Shared.Contiguous, Q.Shared.Distinct;
    ghost var first := START(inner.Now(), p2p.State());
    var nextTick: nat, nextPoll: nat := 0, 0;
    assert laps[0..] == laps;
    for i := 0 to |laps|
      invariant inner.Valid() && p2p.Valid()
      invariant Ran(Loop(inner.Now(), p2p.State(), nextTick, nextPoll), laps[i..], tick) == Ran(first, laps, tick)
    {
      var lap := laps[i];
      assert laps[i..][1..] == laps[i + 1..];
      if lap.stop.AtStart? {
        return Loop(inner.Now(), p2p.State(), nextTick, nextPoll);
      }
      nextTick, nextPoll := RunBody(inner, p2p, lap, tick, nextTick, nextPoll);
      if lap.stop.BeforeWait? {
        return Loop(inner.Now(), p2p.State(), nextTick, nextPoll);
      }
      Play(inner, p2p, lap.beforeWait);
      if lap.stop.AfterWait? {
        return Loop(inner.Now(), p2p.State(), nextTick, nextPoll);
      }
    }
    return Loop(inner.Now(), p2p.State(), nextTick, nextPoll);
  }

  /** One turn of the loop, from its first look at the stop flag to its second. */
  method RunBody(inner: SessionInner, p2p: Q.P2pState, lap: Lap, tick: nat, nextTick: nat, nextPoll: nat)
    returns (nextTick': nat, nextPoll': nat)
    requires inner.Valid() && p2p.Valid() && lap.InOrder()
    modifies inner, p2p
    ensures inner.Valid() && p2p.Valid()
    ensures Loop(inner.Now(), p2p.State(), nextTick', nextPoll')
         == Loop(old(inner.Now()), old(p2p.State()), nextTick, nextPoll).Body(lap, tick)
  {
    hide Q.Shared.Contiguous, Q.Shared.Distinct, State.WindowPolled, State.Ticked, Q.Shared.Polled, Q.Shared.Period;
    nextTick', nextPoll' := nextTick, nextPoll;
    Play(inner, p2p, lap.beforeWindow);
    inner.PollWindow(Moment(lap.start, lap.id, lap.now));
    Play(inner, p2p, lap.beforeTick);
    if lap.tickCheck >= nextTick {
      inner.Tick(lap.heartbeat, lap.begin);
      nextTick' := lap.tickEnd + tick;
    }
    Play(inner, p2p, lap.beforePoll);
    if p2p.armed && lap.pollCheck >= nextPoll {
      var _ := p2p.PollOnce(lap.answer);
      Play(inner, p2p, lap.beforePeriod);
      var period := p2p.PollPeriod(tick);
      nextPoll' := lap.pollEnd + period;
    }
  }

  // ---------- Timed runs ----------

  /** Laps that follow one another in a world that keeps its promises. */
  ghost predicate IsRun(loop: Loop, laps: seq<Lap>, tick: nat)
    decreases laps
  {
    laps == []
    || (&& loop.Possible(laps[0], tick) && laps[0].stop.Never?
        && (|laps| > 1 ==> laps[0].wake <= laps[1].start)
        && IsRun(loop.Turned(laps[0], tick), laps[1..], tick))
  }

  /** The loop as lap `i` finds it. */
  ghost function At(loop: Loop, laps: seq<Lap>, tick: nat, i: nat): Loop
    requires i <= |laps|
    decreases i
  {
    if i == 0 then loop else At(loop.Turned(laps[0], tick), laps[1..], tick, i - 1)
  }

  lemma {:induction false} LapOfARun(loop: Loop, laps: seq<Lap>, tick: nat, i: nat)
    requires IsRun(loop, laps, tick) && i < |laps|
    ensures At(loop, laps, tick, i).Possible(laps[i], tick)
    ensures At(loop, laps, tick, i + 1) == At(loop, laps, tick, i).Turned(laps[i], tick)
    ensures i + 1 < |laps| ==> laps[i].wake <= laps[i + 1].start
    decreases i
  {
    hide Loop.Possible, Loop.Turned;
    if i > 0 {
      LapOfARun(loop.Turned(laps[0], tick), laps[1..], tick, i - 1);
    } else {
      assert At(loop.Turned(laps[0], tick), laps[1..], tick, 0) == loop.Turned(laps[0], tick);
    }
  }

  /** Once a heartbeat ended, the next is due a tick later, and until then it stays so. */
  lemma {:induction false} NextTickStays(loop: Loop, laps: seq<Lap>, tick: nat, i: nat, j: nat)
    requires IsRun(loop, laps, tick) && i < j < |laps|
    requires At(loop, laps, tick, i).Ticks(laps[i])
    ensures At(loop, laps, tick, j).nextTick >= laps[i].tickEnd + tick
    ensures laps[i].wake <= laps[j].start
    decreases j
  {
    hide Loop.Possible, Loop.Turned;
    LapOfARun(loop, laps, tick, j - 1);
    NextTickMoves(At(loop, laps, tick, j - 1), laps[j - 1], tick);
    if i < j - 1 {
      NextTickStays(loop, laps, tick, i, j - 1);
      LapTakesTime(At(loop, laps, tick, j - 1), laps[j - 1], tick);
    }
  }

  /** Only a heartbeat moves the next one. */
  lemma NextTickMoves(loop: Loop, lap: Lap, tick: nat)
    ensures loop.Turned(lap, tick).nextTick == if loop.Ticks(lap) then lap.tickEnd + tick else loop.nextTick
  {
    hide State.Ticked, State.WindowPolled, Q.Shared.Polled, Q.Shared.Period;
  }

  lemma LapTakesTime(loop: Loop, lap: Lap, tick: nat)
    requires loop.Possible(lap, tick)
    ensures lap.start <= lap.tickCheck <= lap.tickEnd <= lap.wake
  {
  }

  /** Heartbeats start at least one tick period apart. */
  lemma TicksAreApart(loop: Loop, laps: seq<Lap>, tick: nat, i: nat, j: nat)
    requires IsRun(loop, laps, tick) && i < j < |laps|
    requires At(loop, laps, tick, i).Ticks(laps[i]) && At(loop, laps, tick, j).Ticks(laps[j])
    ensures laps[j].tickCheck >= laps[i].tickCheck + tick
  {
    NextTickStays(loop, laps, tick, i, j);
    LapOfARun(loop, laps, tick, i);
    LapTakesTime(At(loop, laps, tick, i), laps[i], tick);
  }

  /** A lap that no notification cut short is at least 50 ms before the next. */
  lemma LapsAreApart(loop: Loop, laps: seq<Lap>, tick: nat, i: nat)
    requires IsRun(loop, laps, tick) && i + 1 < |laps| && !laps[i].notified
    ensures laps[i + 1].start >= laps[i].start + 50_000_000
  {
    LapOfARun(loop, laps, tick, i);
  }

  /**
    The wait ends no later than 50 ms after what was due, or after the lap
    began if it was due before, plus the time the lap's own body took.
   */
  lemma WakesInTime(loop: Loop, lap: Lap, tick: nat, due: nat)
    requires loop.Possible(lap, tick) && due >= loop.Turned(lap, tick).Deadline()
    ensures lap.wake <= Max(due, lap.start) + MIN_WAIT + (lap.waitFrom - lap.start) + lap.overshoot
  {
    hide Loop.Turned, Loop.Deadline;
  }

  /**
    A heartbeat starts at most 50 ms after it is due, plus the time spent in
    the body of the lap before and on the way from its wait.
   */
  lemma TicksInTime(loop: Loop, laps: seq<Lap>, tick: nat, i: nat)
    requires IsRun(loop, laps, tick) && 0 < i < |laps| && At(loop, laps, tick, i).Ticks(laps[i])
    ensures laps[i].tickCheck <= At(loop, laps, tick, i).nextTick + 50_000_000
      + (laps[i - 1].waitFrom - laps[i - 1].start) + laps[i - 1].overshoot + (laps[i].tickCheck - laps[i - 1].wake)
  {
    hide Loop.Turned, Loop.Possible, State.WindowDeadline;
    LapOfARun(loop, laps, tick, i - 1);
    var before, lap := At(loop, laps, tick, i - 1), laps[i - 1];
    LapTakesTime(before, lap, tick);
    NextTickMoves(before, lap, tick);
    WakesInTime(before, lap, tick, before.Turned(lap, tick).nextTick);
  }

  /** What the game calls leaves the windows alone. */
  lemma {:induction false} PlayingKeepsWindows(s: State, calls: seq<GameCall>)
    ensures var t := SessionAfterAll(s, calls);
      t.windowOpenAt == s.windowOpenAt && t.nextWindowAt == s.nextWindowAt && t.sampling == s.sampling
    decreases calls
  {
    if calls != [] {
      PlayingKeepsWindows(SessionAfter(s, calls[0]), calls[1..]);
    }
  }

  /**
    A window opens or closes at most 50 ms after it is due, on the same terms;
    one that was due before the last lap began counts from there.
   */
  lemma WindowsChangeInTime(loop: Loop, laps: seq<Lap>, tick: nat, i: nat)
    requires IsRun(loop, laps, tick) && 0 < i < |laps|
    requires var s := SessionAfterAll(At(loop, laps, tick, i).session, laps[i].beforeWindow);
      s.WindowPolled(Moment(laps[i].start, laps[i].id, laps[i].now)).windowOpenAt != s.windowOpenAt && s.sampling
    ensures var due := At(loop, laps, tick, i).session.WindowDeadline();
      && due.Some? && due.value <= laps[i].start
      && laps[i].start <= Max(due.value, laps[i - 1].start) + MIN_WAIT
         + (laps[i - 1].waitFrom - laps[i - 1].start) + laps[i - 1].overshoot + (laps[i].start - laps[i - 1].wake)
  {
    hide Loop.Turned, Loop.Possible, State.Closed, RoundedSeconds, SessionAfterAll;
    PlayingKeepsWindows(At(loop, laps, tick, i).session, laps[i].beforeWindow);
    LapOfARun(loop, laps, tick, i - 1);
    var before, lap := At(loop, laps, tick, i - 1), laps[i - 1];
    WakesInTime(before, lap, tick, At(loop, laps, tick, i).session.WindowDeadline().value);
  }

  /** What is due when a lap looks is done in that lap. */
  lemma DueIsDone(loop: Loop, lap: Lap, tick: nat)
    ensures lap.tickCheck >= loop.nextTick ==> loop.Turned(lap, tick).nextTick == lap.tickEnd + tick
    ensures var s := SessionAfterAll(loop.session, lap.beforeWindow);
      loop.session.WindowDeadline().Some? && loop.session.WindowDeadline().value <= lap.start ==>
      s.WindowPolled(Moment(lap.start, lap.id, lap.now)).windowOpenAt != s.windowOpenAt
  {
    hide Loop.Turned, RoundedSeconds, SessionAfterAll;
    NextTickMoves(loop, lap, tick);
    PlayingKeepsWindows(loop.session, lap.beforeWindow);
  }

  /** A wait that no notification cuts short ends only when something is due. */
  lemma SleepsUntilDue(loop: Loop, lap: Lap, tick: nat)
    requires loop.Possible(lap, tick) && !lap.notified
    ensures var t := loop.Turned(lap, tick); var s := t.session;
      || lap.wake >= t.nextTick
      || (t.shared.polling.Active? && lap.wake >= t.nextPoll)
      || (s.sampling && s.windowOpenAt.Some? && lap.wake >= s.windowOpenAt.value + 30 * 1_000_000_000)
      || (s.sampling && s.windowOpenAt.None? && lap.wake >= s.nextWindowAt)
  {
    hide Loop.Turned;
  }

  /**
    A poll for lobby events that is due, or becomes due, while polling is armed
    has its chance at most 50 ms later, on the terms of `WindowsChangeInTime`.
   */
  lemma LobbyPollsInTime(loop: Loop, laps: seq<Lap>, tick: nat, i: nat)
    requires IsRun(loop, laps, tick) && 0 < i < |laps| && At(loop, laps, tick, i).shared.polling.Active?
    ensures laps[i - 1].wake <= Max(At(loop, laps, tick, i).nextPoll, laps[i - 1].start) + MIN_WAIT
         + (laps[i - 1].waitFrom - laps[i - 1].start) + laps[i - 1].overshoot
  {
    hide Loop.Turned, Loop.Possible, State.WindowDeadline;
    LapOfARun(loop, laps, tick, i - 1);
    WakesInTime(At(loop, laps, tick, i - 1), laps[i - 1], tick, At(loop, laps, tick, i).nextPoll);
  }

  // ---------- What a lap does ----------

  lemma {:induction false} PlayingTells(s: State, calls: seq<GameCall>)
    ensures var t := SessionAfterAll(s, calls);
      && t.tracking == s.tracking && t.sampling == s.sampling
      && t.sessionId == (if End in calls then None else s.sessionId)
      && t.pending == (if End in calls then [] else s.pending)
    decreases calls
  {
    if calls != [] {
      PlayingTells(SessionAfter(s, calls[0]), calls[1..]);
      assert calls == [calls[0]] + calls[1..];
    }
  }

  /**
    A lap polls the window with the time it began at, and then sends a heartbeat
    if one is due; nothing but these two and the game's calls changes the session.
   */
  lemma LapTells(loop: Loop, lap: Lap, tick: nat) returns (polled: State, ticked: State)
    ensures PollTold(SessionAfterAll(loop.session, lap.beforeWindow), polled, Moment(lap.start, lap.id, lap.now))
    ensures var before := SessionAfterAll(polled, lap.beforeTick);
      if lap.tickCheck >= loop.nextTick then TickTold(before, ticked, lap.heartbeat, lap.begin) else ticked == before
    ensures var later := SessionAfterAll(ticked, lap.beforePoll); var t := loop.Turned(lap, tick).session;
      || t == SessionAfterAll(later, lap.beforeWait)
      || t == SessionAfterAll(SessionAfterAll(later, lap.beforePeriod), lap.beforeWait)
  {
    hide State.WindowPolled, State.Ticked, PollTold, TickTold, SessionAfterAll, SharedAfterAll, Q.Shared.Polled;
    var m := Moment(lap.start, lap.id, lap.now);
    var first := SessionAfterAll(loop.session, lap.beforeWindow);
    polled := first.WindowPolled(m);
    PollTells(first, m);
    var before := SessionAfterAll(polled, lap.beforeTick);
    TickTells(before, lap.heartbeat, lap.begin);
    ticked := if lap.tickCheck >= loop.nextTick then before.Ticked(lap.heartbeat, lap.begin) else before;
  }

  /** `t` has the session `id`, unless the game ended it later in the lap. */
  predicate HasSession(t: State, lap: Lap, id: Option<string>) {
    t.sessionId == id || (t.sessionId.None? && lap.EndsAfterTick())
  }

  /** A start that succeeded has set the session, made it active and switched sampling. */
  predicate IsStarted(t: State, lap: Lap, tracking: Tracking, sampling: bool) {
    match lap.begin
    case NotStarted => t.sessionId.None? && t.tracking == tracking && t.sampling == sampling
    case Started(id, enabled) => HasSession(t, lap, Some(id)) && t.tracking == Tracking.Active && t.sampling == enabled
  }

  /**
    What becomes of the session in a lap. A heartbeat that is due starts a
    session if there is none; one that is answered leaves no sample waiting,
    makes the session active and switches sampling; one for a session the
    desktop app does not know starts another. A lap without one changes none of this.
   */
  lemma HeartbeatIsDone(loop: Loop, lap: Lap, tick: nat)
    ensures var s, t := loop.session, loop.Turned(lap, tick).session;
      var id := if lap.EndsBeforeTick() then None else s.sessionId;
      if lap.tickCheck < loop.nextTick then
        HasSession(t, lap, id) && t.tracking == s.tracking && t.sampling == s.sampling
      else if id.None? then IsStarted(t, lap, s.tracking, s.sampling)
      else match lap.heartbeat
        case Alive(enabled) =>
          t.pending == [] && HasSession(t, lap, id) && t.tracking == Tracking.Active && t.sampling == enabled
        case NotAlive(unknown) =>
          if unknown then IsStarted(t, lap, Tracking.Pending, s.sampling)
          else HasSession(t, lap, id) && t.tracking == s.tracking && t.sampling == s.sampling
  {
    hide Loop.Turned, SessionAfterAll, PollTold, TickTold;
    var polled, ticked := LapTells(loop, lap, tick);
    var first, before := SessionAfterAll(loop.session, lap.beforeWindow), SessionAfterAll(polled, lap.beforeTick);
    PlayingTells(loop.session, lap.beforeWindow);
    PollMeans(first, polled, Moment(lap.start, lap.id, lap.now));
    PlayingTells(polled, lap.beforeTick);
    if lap.tickCheck >= loop.nextTick {
      TickMeans(before, ticked, lap.heartbeat, lap.begin);
    }
    LaterCallsTell(ticked, loop.Turned(lap, tick).session, lap);
  }

  lemma CloseMeans(s: State, t: State)
    requires CloseTold(s, t, None)
    ensures t.sessionId == s.sessionId && t.tracking == s.tracking && t.sampling == s.sampling && t.pending == s.pending
  {
  }

  lemma PollMeans(s: State, t: State, m: Moment)
    requires PollTold(s, t, m)
    ensures t.sessionId == s.sessionId && t.tracking == s.tracking && t.sampling == s.sampling
  {
    hide TellsOf, IsQueued;
  }

  /** The fields of a session a start sets. */
  ghost predicate StartedAs(s: State, t: State, start: StartAnswer) {
    && t.pending == s.pending
    && match start
       case NotStarted => t.sessionId == s.sessionId && t.tracking == s.tracking && t.sampling == s.sampling
       case Started(id, enabled) => t.sessionId == Some(id) && t.tracking == Tracking.Active && t.sampling == enabled
  }

  lemma StartMeans(s: State, t: State, start: StartAnswer)
    requires StartTold(s, t, start)
    ensures StartedAs(s, t, start)
  {
    hide CloseTold;
    if start.Started? && !start.sampling {
      CloseMeans(s.(sessionId := Some(start.sessionId), tracking := Tracking.Active, sampling := false), t);
    }
  }

  lemma TickMeans(s: State, t: State, heartbeat: HeartbeatAnswer, start: StartAnswer)
    requires TickTold(s, t, heartbeat, start)
    ensures if s.sessionId.None? then StartedAs(s, t, start)
            else match heartbeat
              case Alive(enabled) =>
                t.pending == [] && t.sessionId == s.sessionId && t.tracking == Tracking.Active && t.sampling == enabled
              case NotAlive(unknown) =>
                if unknown then StartedAs(s.(sessionId := None, tracking := Tracking.Pending), t, start) else t == s
  {
    hide CloseTold, StartTold, StartedAs;
    if s.sessionId.None? {
      StartMeans(s, t, start);
    } else if heartbeat.Alive? {
      if !heartbeat.sampling {
        CloseMeans(s.(pending := [], tracking := Tracking.Active, sampling := false), t);
      }
    } else if heartbeat.unknownSession {
      StartMeans(s.(sessionId := None, tracking := Tracking.Pending), t, start);
    }
  }

  /** `t` is `s` after calls of the game, which may have ended the session only if `ends`. */
  predicate Follows(s: State, t: State, ends: bool) {
    && t.tracking == s.tracking && t.sampling == s.sampling
    && (t.sessionId == s.sessionId || (ends && t.sessionId.None?))
    && (s.pending == [] ==> t.pending == [])
  }

  lemma PlayingFollows(s: State, calls: seq<GameCall>, ends: bool)
    requires End in calls ==> ends
    ensures Follows(s, SessionAfterAll(s, calls), ends)
  {
    hide SessionAfterAll;
    PlayingTells(s, calls);
  }

  lemma FollowsOn(s: State, t: State, u: State, ends: bool)
    requires Follows(s, t, ends) && Follows(t, u, ends)
    ensures Follows(s, u, ends)
  {
  }

  lemma LaterCallsTell(s: State, t: State, lap: Lap)
    requires var later := SessionAfterAll(s, lap.beforePoll);
      || t == SessionAfterAll(later, lap.beforeWait)
      || t == SessionAfterAll(SessionAfterAll(later, lap.beforePeriod), lap.beforeWait)
    ensures Follows(s, t, lap.EndsAfterTick())
  {
    hide SessionAfterAll, Follows;
    var ends := lap.EndsAfterTick();
    var later := SessionAfterAll(s, lap.beforePoll);
    PlayingFollows(s, lap.beforePoll, ends);
    if t == SessionAfterAll(later, lap.beforeWait) {
      PlayingFollows(later, lap.beforeWait, ends);
      FollowsOn(s, later, t, ends);
    } else {
      var last := SessionAfterAll(later, lap.beforePeriod);
      PlayingFollows(later, lap.beforePeriod, ends);
      PlayingFollows(last, lap.beforeWait, ends);
      FollowsOn(s, later, last, ends);
      FollowsOn(s, last, t, ends);
    }
  }

  /** A session the game ends last in a lap is ended. */
  lemma EndEnds(loop: Loop, lap: Lap, tick: nat)
    requires End in lap.beforeWait
    ensures loop.Turned(lap, tick).session.sessionId.None?
  {
    hide Loop.Body, SessionAfterAll, SharedAfterAll;
    PlayingTells(loop.Body(lap, tick).session, lap.beforeWait);
  }

  /**
    A lap asks for lobby events exactly if polling is armed and the next poll
    due when it looks; the answer is ingested, and the poll after it is due after
    a tick, or after 5 s if that is less and a lobby is open.
   */
  lemma LobbyPollIsDone(loop: Loop, lap: Lap, tick: nat)
    ensures var t := loop.Turned(lap, tick);
      var q := SharedAfterAll(SharedAfterAll(SharedAfterAll(loop.shared, lap.beforeWindow), lap.beforeTick), lap.beforePoll);
      if q.polling.Active? && lap.pollCheck >= loop.nextPoll then
        var r := SharedAfterAll(q.Polled(lap.answer), lap.beforePeriod);
        && t.shared == SharedAfterAll(r, lap.beforeWait)
        && t.nextPoll == lap.pollEnd + (if r.lobbies == [] || tick <= 5_000_000_000 then tick else 5_000_000_000)
      else t.shared == SharedAfterAll(q, lap.beforeWait) && t.nextPoll == loop.nextPoll
  {
    hide State.WindowPolled, State.Ticked, SessionAfterAll, SharedAfterAll;
  }

  /** The laps of a run do all this, one after the other. */
  lemma LapsOfARunDo(loop: Loop, laps: seq<Lap>, tick: nat, i: nat)
    requires IsRun(loop, laps, tick) && i < |laps|
    requires laps[i].tickCheck >= At(loop, laps, tick, i).nextTick && !laps[i].EndsBeforeTick()
    ensures var s, t := At(loop, laps, tick, i).session, At(loop, laps, tick, i + 1).session;
      && (s.sessionId.None? ==> IsStarted(t, laps[i], s.tracking, s.sampling))
      && (s.sessionId.Some? && laps[i].heartbeat.Alive? ==>
            t.pending == [] && HasSession(t, laps[i], s.sessionId) && t.sampling == laps[i].heartbeat.sampling)
      && (s.sessionId.Some? && laps[i].heartbeat == NotAlive(true) ==>
            IsStarted(t, laps[i], Tracking.Pending, s.sampling))
  {
    hide Loop.Turned, Loop.Possible;
    LapOfARun(loop, laps, tick, i);
    HeartbeatIsDone(At(loop, laps, tick, i), laps[i], tick);
  }
}
