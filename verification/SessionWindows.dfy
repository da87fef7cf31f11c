/**
  When FPS windows open, over any sequence of polls of a clock that never goes
  back, frames, heartbeats, and sampling switched on and off.
 */
module SessionWindows {
  import opened Wrappers
  import opened Session

  /** The session, the last clock reading, when each window opened and every sample ever made. */
  datatype World = World(state: State, clock: nat, openings: seq<nat>, samples: seq<Sample>)

  const START := World(State(false, Disabled, None, false, 0, None, [], None, None, FIRST_WINDOW_AT, None, false, 0),
                       0, [], [])

  datatype Step =
    | PollWindow(m: Moment)
    | SetSampling(enabled: bool)
    | Frame
    | Tick(heartbeat: HeartbeatAnswer, start: StartAnswer)
  {
    predicate Enabled(w: World) {
      PollWindow? ==> m.elapsed >= w.clock
    }

    function Apply(w: World): World
      requires Enabled(w)
    {
      match this
      case PollWindow(m) =>
        var s := w.state.WindowPolled(m);
        var opens := w.state.windowOpenAt.None? && s.windowOpenAt.Some?;
        var closes := w.state.windowOpenAt.Some? && s.windowOpenAt.None? && w.state.sampling;
        var sample := if closes then w.state.SampleAt(m) else None;
        World(s, m.elapsed,
              if opens then w.openings + [m.elapsed] else w.openings,
              if sample.Some? then w.samples + [sample.value] else w.samples)
      case SetSampling(enabled) => w.(state := w.state.SamplingSet(enabled))
      case Frame => w.(state := w.state.Framed())
      case Tick(heartbeat, start) => w.(state := w.state.Ticked(heartbeat, start))
    }
  }

  ghost predicate IsRun(w: World, steps: seq<Step>)
    decreases steps
  {
    steps == [] || (steps[0].Enabled(w) && IsRun(steps[0].Apply(w), steps[1..]))
  }

  ghost function After(w: World, steps: seq<Step>): World
    requires IsRun(w, steps)
    decreases steps
  {
    if steps == [] then w else After(steps[0].Apply(w), steps[1..])
  }

  // ---------- What every step keeps ----------

  /** The first opening not before 60 s, and 300 s between two. */
  ghost predicate Spaced(openings: seq<nat>) {
    && (openings != [] ==> openings[0] >= FIRST_WINDOW_AT)
    && forall i :: 0 < i < |openings| ==> openings[i] >= openings[i - 1] + WINDOW_PERIOD
  }

  function LastOf(openings: seq<nat>): nat
    requires openings != []
  {
    openings[|openings| - 1]
  }

  ghost predicate WindowsAreSpaced(w: World) {
    && Spaced(w.openings)
    && (w.openings != [] ==> LastOf(w.openings) <= w.clock)
    && (w.state.windowOpenAt.Some? ==> w.openings != [] && w.state.windowOpenAt.value == LastOf(w.openings))
    && (w.state.windowOpenAt.None? ==>
          w.state.nextWindowAt == if w.openings == [] then FIRST_WINDOW_AT else LastOf(w.openings) + WINDOW_PERIOD)
    && (w.state.windowOpen <==> w.state.windowOpenAt.Some?)
  }

  /** Every sample spans at least 30 seconds and holds at least one frame. */
  ghost predicate SamplesAreWhole(w: World) {
    forall s :: s in w.samples ==> s.windowSeconds >= 30 && s.frames >= 1
  }

  predicate SameOrClosed(s: State, t: State) {
    || (t.windowOpenAt == s.windowOpenAt && t.nextWindowAt == s.nextWindowAt && t.windowOpen == s.windowOpen)
    || (s.windowOpenAt.Some? && t.windowOpenAt.None? && !t.windowOpen
        && t.nextWindowAt == s.windowOpenAt.value + WINDOW_PERIOD)
  }

  lemma SwitchingOnlyCloses(s: State, enabled: bool)
    ensures SameOrClosed(s, s.SamplingSet(enabled))
  {
  }

  lemma StartingOnlyCloses(s: State, start: StartAnswer)
    ensures SameOrClosed(s, s.StartTried(start))
  {
    hide State.SamplingSet;
    if start.Started? {
      SwitchingOnlyCloses(s.(sessionId := Some(start.sessionId), tracking := Active), start.sampling);
    }
  }

  /** A heartbeat never opens a window; closing one sets when the next may open. */
  lemma TickingOnlyCloses(s: State, heartbeat: HeartbeatAnswer, start: StartAnswer)
    ensures SameOrClosed(s, s.Ticked(heartbeat, start))
  {
    hide State.SamplingSet, State.StartTried, Unsent;
    StartingOnlyCloses(s, start);
    StartingOnlyCloses(s.(sessionId := None, tracking := Pending), start);
    if heartbeat.Alive? {
      SwitchingOnlyCloses(s.Acknowledged(s.pending), heartbeat.sampling);
    }
  }

  lemma SpacingIsKept(w: World, s: Step)
    requires WindowsAreSpaced(w) && s.Enabled(w)
    ensures WindowsAreSpaced(s.Apply(w))
  {
    hide RoundedSeconds, State.SamplingSet, State.StartTried, State.Ticked;
    match s
    case PollWindow(m) =>
    case SetSampling(enabled) => SwitchingOnlyCloses(w.state, enabled);
    case Frame =>
    case Tick(heartbeat, start) => TickingOnlyCloses(w.state, heartbeat, start);
  }

  lemma LongSpansRoundUp(span: nat)
    requires span >= WINDOW_LEN
    ensures RoundedSeconds(span) >= 30
  {
  }

  lemma SamplesStayWhole(w: World, s: Step)
    requires SamplesAreWhole(w) && s.Enabled(w)
    ensures SamplesAreWhole(s.Apply(w))
  {
    hide RoundedSeconds;
    if s.PollWindow? && w.state.windowOpenAt.Some? && s.m.elapsed >= w.state.windowOpenAt.value + WINDOW_LEN {
      LongSpansRoundUp(s.m.elapsed - w.state.windowOpenAt.value);
    }
  }

  // ---------- The samples of the ledger are those of the session ----------

  /** The samples a state holds, with one more at the end and the oldest gone if there were 16. */
  function Kept(pending: seq<Sample>, more: seq<Sample>): seq<Sample>
    requires |more| <= 1
  {
    if more == [] then pending
    else (if |pending| >= MAX_PENDING_SAMPLES then pending[1..] else pending) + more
  }

  /** A poll queues exactly the sample the ledger records; nothing else queues any. */
  lemma SamplesAreQueued(w: World, s: Step)
    requires WindowsAreSpaced(w) && s.Enabled(w)
    ensures var next := s.Apply(w);
      && |w.samples| <= |next.samples| <= |w.samples| + 1 && next.samples[..|w.samples|] == w.samples
      && (var more := next.samples[|w.samples|..];
          if s.Tick? then more == [] && forall x :: x in next.state.pending ==> x in w.state.pending
          else next.state.pending == Kept(w.state.pending, more))
  {
    hide RoundedSeconds, State.SamplingSet, State.StartTried, State.Ticked;
    match s
    case PollWindow(m) =>
    case SetSampling(enabled) => SwitchingQueuesNone(w.state, enabled);
    case Frame =>
    case Tick(heartbeat, start) => TickingQueuesNone(w.state, heartbeat, start);
  }

  lemma SwitchingQueuesNone(s: State, enabled: bool)
    ensures s.SamplingSet(enabled).pending == s.pending
  {
  }

  lemma StartingQueuesNone(s: State, start: StartAnswer)
    ensures s.StartTried(start).pending == s.pending
  {
    hide State.SamplingSet;
    if start.Started? {
      SwitchingQueuesNone(s.(sessionId := Some(start.sessionId), tracking := Active), start.sampling);
    }
  }

  lemma TickingQueuesNone(s: State, heartbeat: HeartbeatAnswer, start: StartAnswer)
    ensures forall x :: x in s.Ticked(heartbeat, start).pending ==> x in s.pending
  {
    hide State.SamplingSet, State.StartTried, Unsent;
    StartingQueuesNone(s, start);
    StartingQueuesNone(s.(sessionId := None, tracking := Pending), start);
    UnsentKeepsTheRest(s.pending, s.pending);
    if heartbeat.Alive? {
      SwitchingQueuesNone(s.Acknowledged(s.pending), heartbeat.sampling);
    }
  }

  // ---------- Every run ----------

  lemma {:induction false} EveryRunIsSpaced(w: World, steps: seq<Step>)
    requires IsRun(w, steps) && WindowsAreSpaced(w) && SamplesAreWhole(w)
    ensures WindowsAreSpaced(After(w, steps)) && SamplesAreWhole(After(w, steps))
    decreases steps
  {
    hide WindowsAreSpaced, SamplesAreWhole, Step.Apply, Step.Enabled;
    if steps != [] {
      SpacingIsKept(w, steps[0]);
      SamplesStayWhole(w, steps[0]);
      EveryRunIsSpaced(steps[0].Apply(w), steps[1..]);
    }
  }

  lemma {:induction false} OpeningsAreLate(openings: seq<nat>, i: nat)
    requires Spaced(openings) && i < |openings|
    ensures openings[i] >= FIRST_WINDOW_AT + WINDOW_PERIOD * i
  {
    if i > 0 {
      OpeningsAreLate(openings, i - 1);
    }
  }

  /**
    However sampling is toggled, by any time at most one window has opened per
    300 seconds after the first 60, and every sample is a whole window's.
   */
  lemma FewWindowsOpen(steps: seq<Step>)
    requires IsRun(START, steps)
    ensures var end := After(START, steps);
      && |end.openings| <= (if end.clock < FIRST_WINDOW_AT then 0
                            else 1 + (end.clock - FIRST_WINDOW_AT) / WINDOW_PERIOD)
      && SamplesAreWhole(end)
      && (end.state.windowOpen <==> end.state.windowOpenAt.Some?)
  {
    hide IsRun, After;
    EveryRunIsSpaced(START, steps);
    var end := After(START, steps);
    if end.openings != [] {
      OpeningsAreLate(end.openings, |end.openings| - 1);
      Quotient(end.clock - FIRST_WINDOW_AT, |end.openings| - 1);
    }
  }

  lemma Quotient(span: int, n: nat)
    requires span >= WINDOW_PERIOD * n
    ensures span / WINDOW_PERIOD >= n
  {
  }

  // ---------- Windows open and end when they are due ----------

  /**
    A poll opens a window exactly if sampling is on, none is open and 60 s have
    passed, or 300 s since the last one opened; it ends one exactly if it has
    been open for 30 s or sampling is off.
   */
  lemma WindowsOpenWhenDue(w: World, m: Moment)
    requires WindowsAreSpaced(w) && PollWindow(m).Enabled(w)
    ensures var next := PollWindow(m).Apply(w); var n := |w.openings|;
      if w.state.windowOpenAt.None? then
        if w.state.sampling
           && m.elapsed >= (if n == 0 then 60 * 1_000_000_000 else w.openings[n - 1] + 300 * 1_000_000_000)
        then next.openings == w.openings + [m.elapsed] && next.state.windowOpenAt == Some(m.elapsed) && next.state.frames == 0
        else next.openings == w.openings && next.state.windowOpenAt.None?
      else
        && next.openings == w.openings
        && next.state.windowOpenAt == if w.state.sampling && m.elapsed < w.openings[n - 1] + 30 * 1_000_000_000
                                      then w.state.windowOpenAt else None
  {
    hide RoundedSeconds;
  }
}
