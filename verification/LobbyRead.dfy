/**
  Reading the lobby events from the game: the C getter, and the loop around it
  that grows the buffer. Each runs the steps of `LobbyDelivery`.
 */
module LobbyRead {
  import opened Wrappers
  import opened NativeBuffer
  import opened LobbyQueue
  import opened LobbyDelivery

  function EventsOf(numbered: seq<Numbered>): seq<LobbyEvent> {
    if numbered == [] then [] else [numbered[0].event] + EventsOf(numbered[1..])
  }

  /** Each numbered event's own event, in the order of the numbers. */
  lemma {:induction false} EventsAreTheNumbered(numbered: seq<Numbered>)
    ensures Are(EventsOf(numbered), numbered)
  {
    if numbered != [] {
      EventsAreTheNumbered(numbered[1..]);
      assert forall i :: 0 < i < |numbered| ==> numbered[i] == numbered[1..][i - 1];
    }
  }

  /** `events` are those of `numbered`, one by one. */
  ghost predicate Are(events: seq<LobbyEvent>, numbered: seq<Numbered>) {
    |events| == |numbered| && forall i :: 0 <= i < |events| ==> events[i] == numbered[i].event
  }

  lemma {:induction false} RunsAppend(w: World, steps: seq<Step>, more: seq<Step>)
    requires IsRun(w, steps) && IsRun(After(w, steps), more)
    ensures IsRun(w, steps + more) && After(w, steps + more) == After(After(w, steps), more)
    decreases steps
  {
    hide Step.Apply, Step.Enabled;
    if steps == [] {
      assert steps + more == more;
    } else {
      assert (steps + more)[1..] == steps[1..] + more;
      RunsAppend(steps[0].Apply(w), steps[1..], more);
    }
  }

  lemma OneStep(w: World, s: Step)
    requires s.Enabled(w)
    ensures IsRun(w, [s]) && After(w, [s]) == s.Apply(w)
  {
    hide Step.Apply, Step.Enabled;
    assert [s][1..] == [];
  }

  /** The steps of one call of the getter, with a poll before the copy and one before the discard. */
  function CallSteps(mid: PollAnswer, late: PollAnswer, fitted: bool): seq<Step> {
    if fitted then [Render] + [Poll(mid)] + [Copy] + [Poll(late)] + [Discard]
    else [Render] + [Poll(mid)] + [TooSmall] + [Poll(late)]
  }

  /** What one call comes to: the queue as the polls left it, without what was handed over. */
  lemma CallRuns(w: World, mid: PollAnswer, late: PollAnswer, fitted: bool)
    requires w.consumer.Idle?
    ensures var steps := CallSteps(mid, late, fitted);
      && IsRun(w, steps)
      && (var end := After(w, steps);
          var polled := w.shared.Polled(mid).Polled(late);
          && end.consumer.Idle?
          && end.delivered == (if fitted then w.delivered + w.shared.events else w.delivered)
          && end.shared == if fitted && w.shared.events != []
                           then polled.Discarded(w.shared.events[|w.shared.events| - 1].number) else polled)
  {
    hide Shared.Polled, Shared.Discarded;
    OneStep(w, Render);
    var w1 := Render.Apply(w);
    OneStep(w1, Poll(mid));
    RunsAppend(w, [Render], [Poll(mid)]);
    var w2 := Poll(mid).Apply(w1);
    var copy := if fitted then Copy else TooSmall;
    OneStep(w2, copy);
    RunsAppend(w, [Render] + [Poll(mid)], [copy]);
    var w3 := copy.Apply(w2);
    OneStep(w3, Poll(late));
    RunsAppend(w, [Render] + [Poll(mid)] + [copy], [Poll(late)]);
    if fitted {
      var w4 := Poll(late).Apply(w3);
      OneStep(w4, Discard);
      RunsAppend(w, [Render] + [Poll(mid)] + [Copy] + [Poll(late)], [Discard]);
    }
  }

  /** The getter. The answer says whether the rendered events were handed over, and then they are discarded. */
  method LobbyEventsJson(q: P2pState, render: seq<LobbyEvent> -> Bytes, mid: PollAnswer, late: PollAnswer,
                         buf: array?<Byte>, len: nat, ghost w: World)
    returns (code: int, ghost events: seq<LobbyEvent>)
    requires q.Valid() && w.shared == q.State() && w.consumer.Idle?
    requires buf != null ==> len <= buf.Length
    modifies q, buf
    ensures q.Valid()
    ensures var steps := CallSteps(mid, late, code >= 0); IsRun(w, steps) && After(w, steps).shared == q.State()
    ensures Are(events, w.shared.events)
    ensures code >= 0 ==>
      var text := render(events); buf != null && code == |text| < buf.Length && buf[..code] == text
    ensures code == ERR_BUFFER_TOO_SMALL ==> |render(events)| + 1 > len
  {
    hide IsRun, After, CallSteps, Shared.Polled, Shared.Discarded;
    var rendered, through := q.EventsJson();
    var _ := q.PollOnce(mid);
    code := WriteStr(render(EventsOf(rendered)), buf, len);
    events := EventsOf(rendered);
    EventsAreTheNumbered(rendered);
    var _ := q.PollOnce(late);
    if code >= 0 && through.Some? {
      q.Discard(through.value);
    }
    CallRuns(w, mid, late, code >= 0);
  }

  /**
    The growth loop around the getter, `polls(k)` being what the session thread
    ingests at the k-th point it may run. It ends. Either the queue as it was
    after `rendered` steps was handed over, and exactly that, or nothing was;
    as too small it gives up only on a text past the 4 MiB ceiling. What the game
    gets is the text of `events`, which are those of the numbers then delivered.
   */
  method Read(q: P2pState, render: seq<LobbyEvent> -> Bytes, polls: nat -> PollAnswer, initialSize: nat, ghost w: World)
    returns (code: int, value: Bytes, ghost events: seq<LobbyEvent>, ghost rendered: seq<Step>, ghost steps: seq<Step>)
    requires q.Valid() && w.shared == q.State() && w.consumer.Idle?
    modifies q
    ensures q.Valid()
    ensures IsRun(w, steps) && After(w, steps).shared == q.State() && After(w, steps).consumer.Idle?
    ensures code < 0 ==> After(w, steps).delivered == w.delivered
    ensures rendered <= steps && IsRun(w, rendered)
    ensures var waiting := After(w, rendered).shared.events;
      && Are(events, waiting)
      && (code >= 0 ==> After(w, steps).delivered == w.delivered + waiting && value == render(events))
      && (code == ERR_BUFFER_TOO_SMALL ==> |render(events)| + 1 > 4_194_304)
    ensures code >= 0 ==> |value| < 4_194_304 || |value| < initialSize
    ensures code >= 0 ==> Are(events, After(w, steps).delivered[|w.delivered|..])
  {
    hide IsRun, After, CallSteps;
    value, events := [], [];
    var size := if initialSize > 8 then initialSize else 8;
    var calls := 0;
    steps, rendered := [], [];
    NoStep(w);
    while true
      invariant size >= 8 && (size <= MAX_BUFFER_SIZE || size == initialSize) && q.Valid()
      invariant IsRun(w, steps) && After(w, steps).shared == q.State() && After(w, steps).consumer.Idle?
      invariant After(w, steps).delivered == w.delivered
      decreases MAX_BUFFER_SIZE - size
    {
      var buffer := new Byte[size](_ => 0);
      ghost var now := After(w, steps);
      var mid, late := polls(2 * calls), polls(2 * calls + 1);
      calls := calls + 1;
      code, events := LobbyEventsJson(q, render, mid, late, buffer, buffer.Length, now);
      rendered := steps;
      CallRuns(now, mid, late, code >= 0);
      RunsAppend(w, steps, CallSteps(mid, late, code >= 0));
      steps := steps + CallSteps(mid, late, code >= 0);
      if code >= 0 {
        value := buffer[..code];
        return;
      }
      if code != ERR_BUFFER_TOO_SMALL || size >= MAX_BUFFER_SIZE {
        return;
      }
      size := if size * 2 < MAX_BUFFER_SIZE then size * 2 else MAX_BUFFER_SIZE;
    }
  }

  lemma NoStep(w: World)
    ensures IsRun(w, []) && After(w, []) == w
  {
  }
}
