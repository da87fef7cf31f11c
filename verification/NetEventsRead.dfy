/**
  Reading the coop network events from the game: render, copy, discard as many
  as were rendered, only once they fitted, while the readers go on queueing.
 */
module NetEventsRead {
  import opened Wrappers
  import N = NativeBuffer
  import opened NetLink

  /** What the other threads queue between two steps of one read. */
  function Arrived(link: LinkState, events: seq<NetEvent>): LinkState
    decreases events
  {
    if events == [] then link else Arrived(link.EventQueued(events[0]), events[1..])
  }

  lemma {:induction false} ArrivalsQueueBehind(link: LinkState, events: seq<NetEvent>)
    ensures Arrived(link, events) == if link.closed then link else link.(events := link.events + events)
    decreases events
  {
    if events == [] {
      assert link.events + [] == link.events;
    } else {
      ArrivalsQueueBehind(link.EventQueued(events[0]), events[1..]);
      assert link.events + [events[0]] + events[1..] == link.events + events;
    }
  }

  method Arrive(link: Link, events: seq<NetEvent>)
    requires link.Valid()
    modifies link
    ensures link.Valid() && link.State() == Arrived(old(link.State()), events)
  {
    ghost var before := link.State();
    assert events[0..] == events;
    for i := 0 to |events|
      invariant link.Valid() && Arrived(link.State(), events[i..]) == Arrived(before, events)
    {
      assert events[i..][1..] == events[i + 1..];
      link.PushEvent(events[i]);
    }
  }

  /**
    The getter. `mid` arrives before the copy and `late` before the discard.
    Either the game got the text of the queue as it was rendered, and exactly
    what came since still waits, or it got nothing and everything still waits.
   */
  method NetEventsJson(link: Link, render: seq<NetEvent> -> N.Bytes, mid: seq<NetEvent>, late: seq<NetEvent>,
                       buf: array?<N.Byte>, len: nat)
    returns (code: int)
    requires link.Valid()
    requires buf != null ==> len <= buf.Length
    modifies link, buf
    ensures link.Valid()
    ensures var since := if old(link.closed) then [] else mid + late;
      link.State() == old(link.State()).(events := if code >= 0 then since else old(link.events) + since)
    ensures code >= 0 ==>
      var text := render(old(link.events)); buf != null && code == |text| < buf.Length && buf[..code] == text
    ensures code == N.ERR_BUFFER_TOO_SMALL ==> |render(old(link.events))| + 1 > len
  {
    hide Arrived;
    ghost var before := link.State();
    ArrivalsQueueBehind(before, mid);
    ArrivalsQueueBehind(Arrived(before, mid), late);
    assert before.events + mid + late == before.events + (mid + late);
    assert (before.events + (mid + late))[|before.events|..] == mid + late;
    assert before.events + [] == before.events && before.events[|before.events|..] == [];
    var rendered, count := link.EventsJson();
    Arrive(link, mid);
    code := N.WriteStr(render(rendered), buf, len);
    Arrive(link, late);
    if code >= 0 {
      link.DiscardEvents(count);
    }
  }
}
