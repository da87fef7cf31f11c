/**
  The play session: the FPS windows, the samples waiting to be acknowledged and
  the session the desktop app issued. Times are nanoseconds since the start.
 */
module Session {
  import opened Wrappers

  const MILLISECOND := 1_000_000
  const SECOND := 1_000_000_000
  const FIRST_WINDOW_AT := 60 * SECOND
  const WINDOW_PERIOD := 300 * SECOND
  const WINDOW_LEN := 30 * SECOND
  const MAX_PENDING_SAMPLES := 16
  const U32_MAX := 0xFFFF_FFFF

  datatype Tracking = Active | Pending | Disabled

  datatype Sample = Sample(id: string, takenAt: int, fpsAvg: real, windowSeconds: nat, frames: nat,
                           resolution: Option<string>, preset: Option<string>)

  /** What the clock, the random generator and the wall clock answer one poll of the window. */
  datatype Moment = Moment(elapsed: nat, id: string, now: int)

  datatype StartAnswer = Started(sessionId: string, sampling: bool) | NotStarted

  datatype HeartbeatAnswer = Alive(sampling: bool) | NotAlive(unknownSession: bool)

  /** `Duration::as_secs_f64().round() as u32`: halves away from zero, saturating. */
  function RoundedSeconds(span: nat): nat {
    var seconds := (span + SECOND / 2) / SECOND;
    if seconds > U32_MAX then U32_MAX else seconds
  }

  /** `pending` without the samples that share an id with one of `sent`. */
  function Unsent(pending: seq<Sample>, sent: seq<Sample>): seq<Sample> {
    if pending == [] then []
    else (if IsSent(pending[0], sent) then [] else [pending[0]]) + Unsent(pending[1..], sent)
  }

  predicate IsSent(x: Sample, sent: seq<Sample>) {
    exists s :: s in sent && s.id == x.id
  }

  datatype State = State(stop: bool, tracking: Tracking, sessionId: Option<string>,
                         sampling: bool, samplesTaken: nat, lastFpsAvg: Option<real>, pending: seq<Sample>,
                         resolution: Option<string>, preset: Option<string>,
                         nextWindowAt: nat, windowOpenAt: Option<nat>, windowOpen: bool, frames: nat)
  {
    /** What holds whenever the lock is free. */
    predicate Sound() {
      (windowOpen <==> windowOpenAt.Some?) && |pending| <= MAX_PENDING_SAMPLES
    }

    /** The sample a window closed at `m` leaves, if any. */
    function SampleAt(m: Moment): Option<Sample>
      requires windowOpenAt.Some?
    {
      var span := if m.elapsed >= windowOpenAt.value then m.elapsed - windowOpenAt.value else 0;
      var seconds := RoundedSeconds(span);
      if frames == 0 || seconds == 0 then None
      else Some(Sample(m.id, m.now, frames as real / seconds as real, seconds, frames, resolution, preset))
    }

    function Shut(): State
      requires windowOpenAt.Some?
    {
      this.(windowOpenAt := None, windowOpen := false, frames := 0, nextWindowAt := windowOpenAt.value + WINDOW_PERIOD)
    }

    function WithSample(sample: Sample): State {
      this.(lastFpsAvg := Some(sample.fpsAvg),
            samplesTaken := if samplesTaken < U32_MAX then samplesTaken + 1 else samplesTaken,
            pending := (if |pending| >= MAX_PENDING_SAMPLES then pending[1..] else pending) + [sample])
    }

    /** `close_window`: without a closing time the window leaves no sample. */
    function Closed(at: Option<Moment>): State {
      if windowOpenAt.None? then this
      else
        var sample := if at.Some? then SampleAt(at.value) else None;
        if sample.Some? then Shut().WithSample(sample.value) else Shut()
    }

    function Opened(elapsed: nat): State {
      this.(windowOpenAt := Some(elapsed), frames := 0, windowOpen := true)
    }

    function WindowPolled(m: Moment): State {
      if !sampling then Closed(None)
      else if windowOpenAt.Some? then
        (if m.elapsed >= windowOpenAt.value + WINDOW_LEN then Closed(Some(m)) else this)
      else if m.elapsed >= nextWindowAt then Opened(m.elapsed)
      else this
    }

    function SamplingSet(enabled: bool): State {
      var s := this.(sampling := enabled);
      if enabled then s else s.Closed(None)
    }

    function Framed(): State {
      if windowOpen then this.(frames := frames + 1) else this
    }

    function Acknowledged(sent: seq<Sample>): State {
      if sent == [] then this else this.(pending := Unsent(pending, sent))
    }

    function StartTried(answer: StartAnswer): State {
      match answer
      case NotStarted => this
      case Started(id, enabled) => this.(sessionId := Some(id), tracking := Active).SamplingSet(enabled)
    }

    function Ticked(heartbeat: HeartbeatAnswer, start: StartAnswer): State {
      if sessionId.None? then StartTried(start)
      else match heartbeat
        case Alive(enabled) => Acknowledged(pending).SamplingSet(enabled).(tracking := Active)
        case NotAlive(unknown) =>
          if unknown then this.(sessionId := None, tracking := Pending).StartTried(start) else this
    }

    function WindowDeadline(): Option<nat> {
      if !sampling then None
      else if windowOpenAt.Some? then Some(windowOpenAt.value + WINDOW_LEN)
      else Some(nextWindowAt)
    }
  }

  lemma {:induction false} UnsentKeepsTheRest(pending: seq<Sample>, sent: seq<Sample>)
    ensures |Unsent(pending, sent)| <= |pending|
    ensures forall s :: s in Unsent(pending, sent) <==> s in pending && !exists t :: t in sent && t.id == s.id
  {
    if pending != [] {
      UnsentKeepsTheRest(pending[1..], sent);
      assert pending == [pending[0]] + pending[1..];
    }
  }

  /** What is left keeps its order. */
  lemma {:induction false} UnsentKeepsTheOrder(a: seq<Sample>, b: seq<Sample>, sent: seq<Sample>)
    ensures Unsent(a + b, sent) == Unsent(a, sent) + Unsent(b, sent)
  {
    hide IsSent;
    if a == [] {
      assert a + b == b;
    } else {
      assert (a + b)[1..] == a[1..] + b;
      UnsentKeepsTheOrder(a[1..], b, sent);
    }
  }

  lemma UnsentOfOne(x: Sample, sent: seq<Sample>)
    ensures Unsent([x], sent) == if exists t :: t in sent && t.id == x.id then [] else [x]
  {
    assert [x][1..] == [];
    assert Unsent([], sent) == [];
  }

  // ---------- What the operations do, told without them ----------

  /** The 16 newest samples, `x` the last of them. */
  predicate IsQueued(before: seq<Sample>, after: seq<Sample>, x: Sample) {
    after == (if |before| >= 16 then before[1..] else before) + [x]
  }

  /** `seconds` is `span` nanoseconds to the nearest second, halves up, as far as 32 bits go. */
  predicate IsNearest(span: nat, seconds: nat) {
    if span < 0xFFFF_FFFF * 1_000_000_000
    then -1_000_000_000 < 2 * (seconds * 1_000_000_000 - span) <= 1_000_000_000
    else seconds == 0xFFFF_FFFF
  }

  /** `x` tells of the window that `s` has open and that ends at `m`. */
  ghost predicate TellsOf(x: Sample, s: State, m: Moment)
    requires s.windowOpenAt.Some?
  {
    var span := if m.elapsed >= s.windowOpenAt.value then m.elapsed - s.windowOpenAt.value else 0;
    && x.frames == s.frames
    && IsNearest(span, x.windowSeconds) && x.fpsAvg * x.windowSeconds as real == x.frames as real
    && x.id == m.id && x.takenAt == m.now
    && x.resolution == s.resolution && x.preset == s.preset
  }

  /**
    The window is shut and the next due 300 s after it opened. It leaves a sample
    exactly if it was given a time to end, counted a frame and lasted at least
    half a second.
   */
  ghost predicate CloseTold(s: State, t: State, at: Option<Moment>) {
    if s.windowOpenAt.None? then t == s
    else
      var openAt := s.windowOpenAt.value;
      var shut := s.(windowOpenAt := None, windowOpen := false, frames := 0, nextWindowAt := openAt + 300 * 1_000_000_000);
      if at.Some? && s.frames > 0 && 2 * (at.value.elapsed - openAt) >= 1_000_000_000 then
        && t.pending != []
        && (var x := t.pending[|t.pending| - 1];
            && TellsOf(x, s, at.value) && IsQueued(s.pending, t.pending, x)
            && t == shut.(pending := t.pending, lastFpsAvg := Some(x.fpsAvg),
                          samplesTaken := if s.samplesTaken < 0xFFFF_FFFF then s.samplesTaken + 1 else s.samplesTaken))
      else t == shut
  }

  /**
    A poll of the window: with sampling on, one that is due opens with no frames
    counted, and one that is 30 s old ends; with sampling off it is thrown away.
   */
  ghost predicate PollTold(s: State, t: State, m: Moment) {
    if !s.sampling then CloseTold(s, t, None)
    else if s.windowOpenAt.Some? then
      if m.elapsed - s.windowOpenAt.value >= 30 * 1_000_000_000 then CloseTold(s, t, Some(m)) else t == s
    else if m.elapsed >= s.nextWindowAt then t == s.(windowOpenAt := Some(m.elapsed), windowOpen := true, frames := 0)
    else t == s
  }

  ghost predicate SwitchTold(s: State, t: State, enabled: bool) {
    if enabled then t == s.(sampling := true) else CloseTold(s.(sampling := false), t, None)
  }

  ghost predicate StartTold(s: State, t: State, start: StartAnswer) {
    match start
    case NotStarted => t == s
    case Started(id, enabled) => SwitchTold(s.(sessionId := Some(id), tracking := Active), t, enabled)
  }

  /**
    A heartbeat that is answered crosses off all that waited, makes the session
    active and switches sampling; one the desktop app does not know is started anew.
   */
  ghost predicate TickTold(s: State, t: State, heartbeat: HeartbeatAnswer, start: StartAnswer) {
    if s.sessionId.None? then StartTold(s, t, start)
    else match heartbeat
      case Alive(enabled) => SwitchTold(s.(pending := [], tracking := Active), t, enabled)
      case NotAlive(unknown) =>
        if unknown then StartTold(s.(sessionId := None, tracking := Tracking.Pending), t, start) else t == s
  }

  lemma RoundingIsNearest(span: nat)
    ensures IsNearest(span, RoundedSeconds(span))
    ensures RoundedSeconds(span) == 0 <==> 2 * span < 1_000_000_000
  {
  }

  lemma AverageTimesSeconds(frames: nat, seconds: nat)
    requires seconds > 0
    ensures frames as real / seconds as real * seconds as real == frames as real
  {
  }

  lemma CloseTells(s: State, at: Option<Moment>)
    ensures CloseTold(s, s.Closed(at), at)
  {
    hide RoundedSeconds, IsNearest;
    if s.windowOpenAt.Some? && at.Some? {
      var openAt, m := s.windowOpenAt.value, at.value;
      var span := if m.elapsed >= openAt then m.elapsed - openAt else 0;
      RoundingIsNearest(span);
      if s.frames > 0 && RoundedSeconds(span) > 0 {
        AverageTimesSeconds(s.frames, RoundedSeconds(span));
      }
    }
  }

  lemma PollTells(s: State, m: Moment)
    ensures PollTold(s, s.WindowPolled(m), m)
  {
    hide CloseTold, State.Closed;
    CloseTells(s, None);
    CloseTells(s, Some(m));
  }

  lemma SwitchTells(s: State, enabled: bool)
    ensures SwitchTold(s, s.SamplingSet(enabled), enabled)
  {
    hide CloseTold, State.Closed;
    CloseTells(s.(sampling := false), None);
  }

  lemma StartTells(s: State, start: StartAnswer)
    ensures StartTold(s, s.StartTried(start), start)
  {
    hide SwitchTold, State.SamplingSet;
    if start.Started? {
      SwitchTells(s.(sessionId := Some(start.sessionId), tracking := Active), start.sampling);
    }
  }

  lemma {:induction false} AllSentLeavesNone(pending: seq<Sample>, sent: seq<Sample>)
    requires forall s :: s in pending ==> s in sent
    ensures Unsent(pending, sent) == []
  {
    if pending != [] {
      assert pending[0] in sent;
      AllSentLeavesNone(pending[1..], sent);
    }
  }

  /** Where sampling is switched, tracking plays no part. */
  lemma SwitchLeavesTracking(s: State, enabled: bool)
    ensures s.SamplingSet(enabled).(tracking := Active) == s.(tracking := Active).SamplingSet(enabled)
  {
  }

  lemma TickTells(s: State, heartbeat: HeartbeatAnswer, start: StartAnswer)
    ensures TickTold(s, s.Ticked(heartbeat, start), heartbeat, start)
  {
    hide StartTold, SwitchTold, State.SamplingSet, State.StartTried, Unsent;
    if s.sessionId.None? {
      StartTells(s, start);
    } else if heartbeat.Alive? {
      AllSentLeavesNone(s.pending, s.pending);
      assert s.Acknowledged(s.pending) == s.(pending := []);
      SwitchLeavesTracking(s.(pending := []), heartbeat.sampling);
      SwitchTells(s.(pending := [], tracking := Active), heartbeat.sampling);
    } else {
      StartTells(s.(sessionId := None, tracking := Tracking.Pending), start);
    }
  }

  // ---------- The session object ----------

  class SessionInner {
    var stop: bool
    var tracking: Tracking
    var sessionId: Option<string>
    var sampling: bool
    var samplesTaken: nat
    var lastFpsAvg: Option<real>
    var pending: seq<Sample>
    var resolution: Option<string>
    var preset: Option<string>
    var nextWindowAt: nat
    var windowOpenAt: Option<nat>
    var windowOpen: bool
    var frames: nat

    function Now(): State
      reads this
    {
      State(stop, tracking, sessionId, sampling, samplesTaken, lastFpsAvg, pending, resolution, preset,
            nextWindowAt, windowOpenAt, windowOpen, frames)
    }

    ghost predicate Valid()
      reads this
    {
      Now().Sound()
    }

    constructor ()
      ensures Valid()
      ensures Now() == State(false, Disabled, None, false, 0, None, [], None, None, FIRST_WINDOW_AT, None, false, 0)
    {
      stop, tracking, sessionId, sampling, samplesTaken := false, Disabled, None, false, 0;
      lastFpsAvg, pending, resolution, preset := None, [], None, None;
      nextWindowAt, windowOpenAt, windowOpen, frames := FIRST_WINDOW_AT, None, false, 0;
    }

    method Frame()
      requires Valid()
      modifies this
      ensures Valid()
      ensures Now() == old(Now()).Framed()
      ensures Now() == old(Now()).(frames := old(frames) + if old(windowOpen) then 1 else 0)
    {
      if windowOpen {
        frames := frames + 1;
      }
    }

    method PollWindow(m: Moment)
      requires Valid()
      modifies this
      ensures Valid()
      ensures Now() == old(Now()).WindowPolled(m)
      ensures PollTold(old(Now()), Now(), m)
    {
      hide PollTold, CloseTold;
      PollTells(Now(), m);
      hide RoundedSeconds;
      if !sampling {
        CloseWindow(None);
        return;
      }
      match windowOpenAt
      case Some(openAt) =>
        if m.elapsed >= openAt + WINDOW_LEN {
          CloseWindow(Some(m));
        }
      case None =>
        if m.elapsed >= nextWindowAt {
          windowOpenAt := Some(m.elapsed);
          frames := 0;
          windowOpen := true;
        }
    }

    method CloseWindow(closedAt: Option<Moment>)
      requires Valid()
      modifies this
      ensures Valid()
      ensures Now() == old(Now()).Closed(closedAt)
      ensures CloseTold(old(Now()), Now(), closedAt)
    {
      hide CloseTold;
      CloseTells(Now(), closedAt);
      hide RoundedSeconds;
      if windowOpenAt.None? {
        return;
      }
      var openAt := windowOpenAt.value;
      windowOpenAt := None;
      windowOpen := false;
      var counted := frames;
      frames := 0;
      nextWindowAt := openAt + WINDOW_PERIOD;
      if closedAt.None? {
        return;
      }
      var m := closedAt.value;
      var seconds := RoundedSeconds(if m.elapsed >= openAt then m.elapsed - openAt else 0);
      if counted == 0 || seconds == 0 {
        return;
      }
      KeepSample(Sample(m.id, m.now, counted as real / seconds as real, seconds, counted, resolution, preset));
    }

    /** The end of `close_window`: the oldest sample makes room. */
    method KeepSample(sample: Sample)
      requires Valid()
      modifies this
      ensures Valid()
      ensures Now() == old(Now()).WithSample(sample)
    {
      lastFpsAvg := Some(sample.fpsAvg);
      if samplesTaken < U32_MAX {
        samplesTaken := samplesTaken + 1;
      }
      if |pending| >= MAX_PENDING_SAMPLES {
        pending := pending[1..];
      }
      pending := pending + [sample];
    }

    method SetFpsSampling(enabled: bool)
      requires Valid()
      modifies this
      ensures Valid()
      ensures Now() == old(Now()).SamplingSet(enabled)
      ensures SwitchTold(old(Now()), Now(), enabled)
    {
      hide SwitchTold, CloseTold;
      SwitchTells(Now(), enabled);
      sampling := enabled;
      if !enabled {
        CloseWindow(None);
      }
    }

    method Acknowledge(sent: seq<Sample>)
      requires Valid()
      modifies this
      ensures Valid()
      ensures Now() == old(Now()).Acknowledged(sent)
      ensures Now() == old(Now()).(pending := pending)
      ensures forall s :: s in pending <==> s in old(pending) && !exists t :: t in sent && t.id == s.id
    {
      if sent == [] {
        return;
      }
      UnsentKeepsTheRest(pending, sent);
      pending := Unsent(pending, sent);
    }

    /** One heartbeat, or one attempt to start, with whatever the desktop app answers. */
    method Tick(heartbeat: HeartbeatAnswer, start: StartAnswer)
      requires Valid()
      modifies this
      ensures Valid()
      ensures Now() == old(Now()).Ticked(heartbeat, start)
      ensures TickTold(old(Now()), Now(), heartbeat, start)
    {
      hide TickTold, StartTold, SwitchTold, CloseTold;
      TickTells(Now(), heartbeat, start);
      var sent := pending;
      if sessionId.None? {
        TryStart(start);
        return;
      }
      match heartbeat
      case Alive(enabled) =>
        Acknowledge(sent);
        SetFpsSampling(enabled);
        tracking := Active;
      case NotAlive(unknown) =>
        if unknown {
          sessionId := None;
          tracking := Pending;
          TryStart(start);
        }
    }

    method TryStart(start: StartAnswer)
      requires Valid()
      modifies this
      ensures Valid()
      ensures Now() == old(Now()).StartTried(start)
      ensures StartTold(old(Now()), Now(), start)
    {
      hide StartTold, SwitchTold, CloseTold;
      StartTells(Now(), start);
      match start
      case NotStarted =>
      case Started(id, enabled) =>
        sessionId := Some(id);
        tracking := Active;
        SetFpsSampling(enabled);
    }

    /** `end` takes the session id and the samples; they go out together, or nowhere. */
    method End() returns (sent: Option<(string, seq<Sample>)>)
      requires Valid()
      modifies this
      ensures Valid()
      ensures Now() == old(Now()).(sessionId := None, pending := [])
      ensures sent == if old(sessionId).Some? then Some((old(sessionId).value, old(pending))) else None
    {
      var id, taken := sessionId, pending;
      sessionId := None;
      pending := [];
      return if id.Some? then Some((id.value, taken)) else None;
    }
  }
}
