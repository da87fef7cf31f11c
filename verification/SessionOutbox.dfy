/**
  The samples waiting to be acknowledged, while the session thread sends
  heartbeats and another thread may end the session at any moment.
 */
module SessionOutbox {
  import opened Wrappers
  import opened Session

  datatype Call =
    | Quiet
    | InFlight(sent: seq<Sample>)    // a heartbeat is out with a copy of the samples
    | Succeeded(sent: seq<Sample>)   // the desktop app took it; the copies are not yet crossed off

  /**
    The outbox and the call, and a ledger: every sample made, every heartbeat
    sent, and the ids of samples a successful heartbeat carried, that were
    crossed off, that the cap pushed out, and that `end` took.
   */
  datatype World = World(pending: seq<Sample>, call: Call, made: seq<Sample>, heartbeats: seq<seq<Sample>>,
                         carried: set<string>, crossedOff: set<string>, pushedOut: set<string>, ended: set<string>)

  const START := World([], Quiet, [], [], {}, {}, {}, {})

  function IdsOf(samples: seq<Sample>): set<string> {
    set s | s in samples :: s.id
  }

  datatype Step =
    | Make(sample: Sample)   // a window closes with a sample; its id is new
    | Heartbeat
    | Succeed
    | Fail
    | Acknowledge
    | End                    // on any thread, at any moment
  {
    predicate Enabled(w: World) {
      match this
      case Make(sample) => w.call.Quiet? && sample.id !in IdsOf(w.made)
      case Heartbeat => w.call.Quiet?
      case Succeed => w.call.InFlight?
      case Fail => w.call.InFlight?
      case Acknowledge => w.call.Succeeded?
      case End => true
    }

    function Apply(w: World): World
      requires Enabled(w)
    {
      match this
      case Make(sample) =>
        var full := |w.pending| >= MAX_PENDING_SAMPLES;
        w.(pending := (if full then w.pending[1..] else w.pending) + [sample],
           made := w.made + [sample],
           pushedOut := if full then w.pushedOut + {w.pending[0].id} else w.pushedOut)
      case Heartbeat => w.(call := InFlight(w.pending), heartbeats := w.heartbeats + [w.pending])
      case Succeed => w.(call := Succeeded(w.call.sent), carried := w.carried + IdsOf(w.call.sent))
      case Fail => w.(call := Quiet)
      case Acknowledge =>
        w.(call := Quiet, crossedOff := w.crossedOff + IdsOf(w.call.sent),
           pending := if w.call.sent == [] then w.pending else Unsent(w.pending, w.call.sent))
      case End => w.(pending := [], ended := w.ended + IdsOf(w.pending))
    }
  }

  ghost predicate IsRun(w: World, steps: seq<Step>)
    decreases steps
  {
    steps == [] || (steps[0].Enabled(w) && IsRun(steps[0].Apply(w), steps[1..]))
  }

  ghost function After(w: World, steps: seq<Step>): World
    requires IsRun(w, steps)
    decreases steps
  {
    if steps == [] then w else After(steps[0].Apply(w), steps[1..])
  }

  ghost predicate DistinctIds(samples: seq<Sample>) {
    forall i, j :: 0 <= i < j < |samples| ==> samples[i].id != samples[j].id
  }

  ghost predicate AllMade(samples: seq<Sample>, made: seq<Sample>) {
    forall s :: s in samples ==> s in made
  }

  /** A sample is given up only for a reason, and one crossed off does not come back. */
  ghost predicate NoneForgotten(w: World) {
    && DistinctIds(w.made)
    && |w.pending| <= MAX_PENDING_SAMPLES
    && AllMade(w.pending, w.made)
    && (!w.call.Quiet? ==> AllMade(w.call.sent, w.made))
    && (w.call.Succeeded? ==> IdsOf(w.call.sent) <= w.carried)
    && w.crossedOff <= w.carried <= IdsOf(w.made)
    && (forall s :: s in w.made ==>
          s in w.pending || s.id in w.carried || s.id in w.pushedOut || s.id in w.ended)
    && (forall s :: s in w.pending ==> s.id !in w.crossedOff)
  }

  lemma OneSampleAnId(made: seq<Sample>, s: Sample, t: Sample)
    requires DistinctIds(made) && s in made && t in made && s.id == t.id
    ensures s == t
  {
  }

  lemma MakeForgetsNone(w: World, sample: Sample)
    requires NoneForgotten(w) && Make(sample).Enabled(w)
    ensures NoneForgotten(Make(sample).Apply(w))
    ensures var next := Make(sample).Apply(w);
      && (forall s :: s in w.pending ==> s in next.pending || (s == w.pending[0] && |w.pending| == MAX_PENDING_SAMPLES))
      && next.pending[|next.pending| - 1] == sample
      && next.pushedOut == w.pushedOut + if |w.pending| == MAX_PENDING_SAMPLES then {w.pending[0].id} else {}
  {
    var next := Make(sample).Apply(w);
    assert forall s :: s in w.made ==> s.id in IdsOf(w.made);
    forall s | s in next.made
      ensures s in next.pending || s.id in next.carried || s.id in next.pushedOut || s.id in next.ended
    {
      if s in w.pending && s !in next.pending {
        assert s == w.pending[0];
      }
    }
  }

  lemma AcknowledgeForgetsNone(w: World)
    requires NoneForgotten(w) && Acknowledge.Enabled(w)
    ensures NoneForgotten(Acknowledge.Apply(w))
    ensures forall s :: s in w.pending && s !in w.call.sent ==> s in Acknowledge.Apply(w).pending
  {
    hide DistinctIds;
    var sent := w.call.sent;
    UnsentKeepsTheRest(w.pending, sent);
    forall s, t | s in w.pending && t in sent && t.id == s.id
      ensures s == t
    {
      OneSampleAnId(w.made, s, t);
    }
  }

  lemma EveryStepForgetsNone(w: World, s: Step)
    requires NoneForgotten(w) && s.Enabled(w)
    ensures NoneForgotten(s.Apply(w))
  {
    match s
    case Make(sample) => MakeForgetsNone(w, sample);
    case Acknowledge => AcknowledgeForgetsNone(w);
    case _ =>
  }

  /**
    In every interleaving, every sample made is still waiting, or a successful
    heartbeat carried it, or the 16-sample cap pushed it out, or `end` took it.
   */
  lemma {:induction false} EveryRunForgetsNone(w: World, steps: seq<Step>)
    requires IsRun(w, steps) && NoneForgotten(w)
    ensures NoneForgotten(After(w, steps))
    decreases steps
  {
    hide NoneForgotten, Step.Apply, Step.Enabled;
    if steps != [] {
      EveryStepForgetsNone(w, steps[0]);
      EveryRunForgetsNone(steps[0].Apply(w), steps[1..]);
    }
  }

  lemma StartForgetsNone()
    ensures NoneForgotten(START)
  {
  }

  /** From the start on, whatever the threads do. */
  lemma NoSampleIsForgotten(steps: seq<Step>)
    requires IsRun(START, steps)
    ensures var end := After(START, steps);
      && |end.pending| <= MAX_PENDING_SAMPLES
      && (forall s :: s in end.made ==>
            s in end.pending || s.id in end.carried || s.id in end.pushedOut || s.id in end.ended)
      && (forall s :: s in end.pending ==> s in end.made && s.id !in end.crossedOff)
  {
    hide IsRun, After;
    StartForgetsNone();
    EveryRunForgetsNone(START, steps);
  }

  /** A sample that was crossed off is in no heartbeat sent afterwards. */
  lemma {:induction false} CrossedOffIsNotSentAgain(w: World, steps: seq<Step>, id: string)
    requires IsRun(w, steps) && NoneForgotten(w) && id in w.crossedOff
    ensures var end := After(w, steps);
      && |w.heartbeats| <= |end.heartbeats|
      && id in end.crossedOff
      && forall i :: |w.heartbeats| <= i < |end.heartbeats| ==> id !in IdsOf(end.heartbeats[i])
    decreases steps
  {
    if steps != [] {
      var next := steps[0].Apply(w);
      SentSamplesAreFresh(w, steps[0], id);
      hide NoneForgotten, Step.Apply, Step.Enabled, IdsOf;
      EveryStepForgetsNone(w, steps[0]);
      CrossedOffIsNotSentAgain(next, steps[1..], id);
      HeartbeatsOnlyGrow(next, steps[1..]);
    }
  }

  lemma SentSamplesAreFresh(w: World, s: Step, id: string)
    requires NoneForgotten(w) && s.Enabled(w) && id in w.crossedOff
    ensures id in s.Apply(w).crossedOff
    ensures w.heartbeats <= s.Apply(w).heartbeats
    ensures forall i :: |w.heartbeats| <= i < |s.Apply(w).heartbeats| ==> id !in IdsOf(s.Apply(w).heartbeats[i])
  {
  }

  lemma {:induction false} HeartbeatsOnlyGrow(w: World, steps: seq<Step>)
    requires IsRun(w, steps)
    ensures w.heartbeats <= After(w, steps).heartbeats
    decreases steps
  {
    if steps != [] {
      HeartbeatsOnlyGrow(steps[0].Apply(w), steps[1..]);
    }
  }

  // ---------- With no thread in between, the steps are the operations ----------

  lemma ThreeSteps(w: World, a: Step, b: Step, c: Step)
    requires a.Enabled(w) && b.Enabled(a.Apply(w)) && c.Enabled(b.Apply(a.Apply(w)))
    ensures IsRun(w, [a, b, c]) && After(w, [a, b, c]) == c.Apply(b.Apply(a.Apply(w)))
  {
    hide Step.Enabled, Step.Apply;
    assert [a, b, c][1..] == [b, c] && [b, c][1..] == [c] && [c][1..] == [];
    assert IsRun(b.Apply(a.Apply(w)), [c]);
    assert After(b.Apply(a.Apply(w)), [c]) == c.Apply(b.Apply(a.Apply(w)));
  }

  /** Making room and queueing a sample is what the session does at the end of a window. */
  lemma MakeIsKeepSample(w: World, s: State, sample: Sample)
    requires Make(sample).Enabled(w) && w.pending == s.pending
    ensures Make(sample).Apply(w).pending == s.WithSample(sample).pending
  {
  }

  lemma SwitchingKeepsPending(s: State, enabled: bool)
    ensures s.SamplingSet(enabled).pending == s.pending
  {
  }

  /** A heartbeat that succeeds leaves the outbox as the session's tick does. */
  lemma TickIsThreeSteps(w: World, s: State, enabled: bool, start: StartAnswer)
    requires w.call.Quiet? && w.pending == s.pending && s.sessionId.Some?
    ensures var steps := [Heartbeat, Succeed, Acknowledge];
      IsRun(w, steps) && After(w, steps).pending == s.Ticked(Alive(enabled), start).pending
  {
    hide State.SamplingSet;
    ThreeSteps(w, Heartbeat, Succeed, Acknowledge);
    SwitchingKeepsPending(s.Acknowledged(s.pending), enabled);
  }

  /** One that fails leaves it alone, and so does a start. */
  lemma FailedTickKeepsPending(s: State, unknown: bool, start: StartAnswer)
    ensures s.Ticked(NotAlive(unknown), start).pending == s.pending
    ensures s.StartTried(start).pending == s.pending
  {
    hide State.SamplingSet;
    var expired := s.(sessionId := None, tracking := Tracking.Pending);
    if start.Started? {
      SwitchingKeepsPending(s.(sessionId := Some(start.sessionId), tracking := Active), start.sampling);
      SwitchingKeepsPending(expired.(sessionId := Some(start.sessionId), tracking := Active), start.sampling);
    }
  }
}
