/**
  The TCP reader among the other threads: between any two of its steps the
  game receives, the UDP reader pushes and anyone stops the link. What it hands
  on is still what the uncut stream holds, in order.
 */
module NetStream {
  import opened Wrappers
  import opened NetFrames
  import opened NetLink
  import NetRuns

  /**
    The reader's reassembly buffer beside the world of `NetRuns`, and a ledger:
    all bytes it read and all frames it handed on.
   */
  datatype World = World(net: NetRuns.World, buf: Bytes, stream: Bytes, handed: seq<Packet>)

  const START := World(NetRuns.START, [], [], [])

  datatype Step =
    | Fetch(bytes: Bytes)         // one read of the stream, once no whole frame is left
    | Hand                        // the first frame of the buffer goes to the link
    | Elsewhere(s: NetRuns.Step)  // any other step on the link, stops by the reader included
  {
    predicate Enabled(w: World) {
      match this
      case Fetch(bytes) => w.net.tcp.Reading? && Decode(w.buf).Incomplete? && 0 < |bytes| <= TCP_CHUNK
      case Hand => w.net.tcp.Reading? && Decode(w.buf).Frame?
      case Elsewhere(s) => !s.TcpMessage? && s.Enabled(w.net)
    }

    function Apply(w: World, json: Json): World
      requires Enabled(w)
    {
      match this
      case Fetch(bytes) => w.(buf := w.buf + bytes, stream := w.stream + bytes)
      case Hand =>
        var d := Decode(w.buf);
        var p := Packet(d.kind, d.peer, d.data);
        w.(net := Handed(w.net, p, json), buf := w.buf[d.used..], handed := w.handed + [p])
      case Elsewhere(s) => w.(net := s.Apply(w.net))
    }
  }

  /** `handle_frame` on a frame of the stream, one step on the link or none. */
  function Handed(net: NetRuns.World, p: Packet, json: Json): NetRuns.World
    requires net.tcp.Reading?
  {
    if p.kind == KIND_MESSAGE then NetRuns.TcpMessage(Message(p.peer, Reliable, p.data)).Apply(net)
    else
      var event := EventOf(p, json);
      if event.Some? then NetRuns.AnyEvent(event.value).Apply(net) else net
  }

  /**
    With no thread in between, handing a frame on is what the link object's
    `HandleFrame` does, the stop after an overflow included.
   */
  lemma HandingIsHandleFrame(net: NetRuns.World, p: Packet, json: Json)
    requires NetRuns.ClosedOnce(net) && net.link.Settled() && net.tcp.Reading?
    ensures var handed := Handed(net, p, json);
      var stop := if handed.tcp.MustStop? then [] + [NetRuns.OverflowSwap] + [NetRuns.Close] else [];
      NetRuns.IsRun(handed, stop) && NetRuns.After(handed, stop).link == net.link.Handled(p, Reliable, json)
  {
    var handed := Handed(net, p, json);
    if handed.tcp.MustStop? {
      NetRuns.RunGoesOn(handed, [], NetRuns.OverflowSwap);
      NetRuns.RunGoesOn(handed, [] + [NetRuns.OverflowSwap], NetRuns.Close);
    }
  }

  ghost predicate IsRun(w: World, steps: seq<Step>, json: Json)
    decreases steps
  {
    steps == [] || (steps[0].Enabled(w) && IsRun(steps[0].Apply(w, json), steps[1..], json))
  }

  ghost function After(w: World, steps: seq<Step>, json: Json): World
    requires IsRun(w, steps, json)
    decreases steps
  {
    if steps == [] then w else After(steps[0].Apply(w, json), steps[1..], json)
  }

  /** What is still to be handed on of a stream is what the buffer holds. */
  ghost predicate StreamIsKept(stream: Bytes, handed: seq<Packet>, buf: Bytes) {
    Unframe(stream) == Unframe(buf).(packets := handed + Unframe(buf).packets)
  }

  ghost predicate Sound(w: World) {
    && StreamIsKept(w.stream, w.handed, w.buf)
    && w.net.decoded == MessagesOf(w.handed)
    && |w.buf| < HEADER_LEN + MAX_RELIABLE_MESSAGE + TCP_CHUNK
    && NetRuns.Safe(w.net) && NetRuns.BehindOnlyAfterDrop(w.net) && NetRuns.PositionsTell(w.net)
  }

  // ---------- The buffer ----------

  /** A stream with a frame in front is that frame, then what the rest holds. */
  lemma UnframeStep(buf: Bytes)
    requires Decode(buf).Frame?
    ensures var d := Decode(buf);
      && d.used <= |buf|
      && (var later := Unframe(buf[d.used..]);
          Unframe(buf) == later.(packets := [Packet(d.kind, d.peer, d.data)] + later.packets))
  {
    hide Decode;
    EncodeInvertsDecode(buf);
  }

  lemma UnframeEnd(buf: Bytes)
    requires !Decode(buf).Frame?
    ensures Unframe(buf) == Unframed([], buf, Decode(buf).Invalid?)
  {
    hide Decode;
  }

  /** What a stream holds is what a first part holds, then what its leftover does with the rest. */
  lemma {:induction false} UnframeInTwo(first: Bytes, second: Bytes)
    requires !Unframe(first).invalid
    ensures var u := Unframe(first); var later := Unframe(u.rest + second);
      Unframe(first + second) == later.(packets := u.packets + later.packets)
    decreases |first|
  {
    hide Decode, Unframe;
    var d := Decode(first);
    if d.Frame? {
      VerdictIsStable(first, second);
      UnframeStep(first);
      UnframeStep(first + second);
      UnframeInTwo(first[d.used..], second);
      assert (first + second)[d.used..] == first[d.used..] + second;
      var u := Unframe(first[d.used..]);
      var later := Unframe(u.rest + second);
      assert [Packet(d.kind, d.peer, d.data)] + (u.packets + later.packets)
          == [Packet(d.kind, d.peer, d.data)] + u.packets + later.packets;
    } else {
      UnframeEnd(first);
      assert [] + Unframe(first + second).packets == Unframe(first + second).packets;
    }
  }

  lemma FetchKeepsStream(w: World, bytes: Bytes)
    requires StreamIsKept(w.stream, w.handed, w.buf) && Decode(w.buf).Incomplete?
    ensures StreamIsKept(w.stream + bytes, w.handed, w.buf + bytes)
  {
    hide Decode, Unframe;
    UnframeEnd(w.buf);
    assert w.handed + [] == w.handed;
    UnframeInTwo(w.stream, bytes);
  }

  lemma HandKeepsStream(w: World)
    requires StreamIsKept(w.stream, w.handed, w.buf) && Decode(w.buf).Frame?
    ensures var d := Decode(w.buf);
      && d.used <= |w.buf|
      && StreamIsKept(w.stream, w.handed + [Packet(d.kind, d.peer, d.data)], w.buf[d.used..])
  {
    hide Decode, Unframe;
    var d := Decode(w.buf);
    UnframeStep(w.buf);
    var p, later := Packet(d.kind, d.peer, d.data), Unframe(w.buf[d.used..]);
    assert w.handed + ([p] + later.packets) == w.handed + [p] + later.packets;
  }

  // ---------- Every step ----------

  lemma NetStepKeeps(net: NetRuns.World, s: NetRuns.Step)
    requires NetRuns.Safe(net) && NetRuns.BehindOnlyAfterDrop(net) && NetRuns.PositionsTell(net) && s.Enabled(net)
    ensures var next := s.Apply(net);
      NetRuns.Safe(next) && NetRuns.BehindOnlyAfterDrop(next) && NetRuns.PositionsTell(next)
    ensures s.Apply(net).decoded == if s.TcpMessage? then net.decoded + [s.m] else net.decoded
  {
    NetRuns.BytesStayAccounted(net, s);
    NetRuns.ClosedStaysOnce(net, s);
    NetRuns.EventsStayKept(net, s);
    NetRuns.OrderIsKept(net, s);
    NetRuns.GapStep(net, s);
    NetRuns.PositionsStep(net, s);
    hide NetRuns.BytesAccounted, NetRuns.ClosedOnce, NetRuns.EventsKept, NetRuns.InOrder;
    hide NetRuns.BehindOnlyAfterDrop, NetRuns.PositionsTell, NetRuns.NoGap;
  }

  lemma HandingIsSound(w: World, json: Json)
    requires Sound(w) && Hand.Enabled(w)
    ensures Sound(Hand.Apply(w, json))
  {
    hide Decode, StreamIsKept, NetRuns.Safe, NetRuns.BehindOnlyAfterDrop, NetRuns.PositionsTell, NetRuns.Step.Apply;
    var d := Decode(w.buf);
    var p := Packet(d.kind, d.peer, d.data);
    EncodeInvertsDecode(w.buf);
    HandKeepsStream(w);
    MessagesGrow(w.handed, p);
    assert MessagesOf(w.handed) + [] == MessagesOf(w.handed);
    if p.kind == KIND_MESSAGE {
      NetStepKeeps(w.net, NetRuns.TcpMessage(Message(p.peer, Reliable, p.data)));
    } else if EventOf(p, json).Some? {
      NetStepKeeps(w.net, NetRuns.AnyEvent(EventOf(p, json).value));
    }
  }

  lemma EveryStepIsSound(w: World, s: Step, json: Json)
    requires Sound(w) && s.Enabled(w)
    ensures Sound(s.Apply(w, json))
  {
    hide StreamIsKept, Decode, NetRuns.Safe, NetRuns.BehindOnlyAfterDrop, NetRuns.PositionsTell;
    hide NetRuns.Step.Apply, NetRuns.Step.Enabled;
    match s
    case Fetch(bytes) =>
      FetchKeepsStream(w, bytes);
      LeftoverIsShort(w.buf);
    case Hand => HandingIsSound(w, json);
    case Elsewhere(t) =>
      NetStepKeeps(w.net, t);
  }

  lemma {:induction false} EveryRunIsSound(w: World, steps: seq<Step>, json: Json)
    requires IsRun(w, steps, json) && Sound(w)
    ensures Sound(After(w, steps, json))
    decreases steps
  {
    hide Sound, Step.Apply, Step.Enabled;
    if steps != [] {
      EveryStepIsSound(w, steps[0], json);
      EveryRunIsSound(steps[0].Apply(w, json), steps[1..], json);
    }
  }

  lemma StartIsSound()
    ensures Sound(START)
  {
    NetRuns.StartIsSafe();
    hide NetRuns.Safe;
    UnframeEnd([]);
    var none: seq<Message> := [];
    assert NetRuns.Accepted(NetRuns.START) == none;
  }

  /**
    However the stream is cut, and whatever the game, the UDP reader and any
    number of stops do between the reader's steps: the frames handed on are the
    first of the uncut stream, in order, all of them once the buffer holds no
    whole frame, and an error shows exactly where the uncut stream has one.
   */
  lemma FramesAreHandedOnInOrder(steps: seq<Step>, json: Json)
    requires IsRun(START, steps, json)
    ensures var end := After(START, steps, json); var whole := Unframe(end.stream);
      && end.handed <= whole.packets
      && (Decode(end.buf).Incomplete? ==> end.handed == whole.packets && !whole.invalid)
      && (Decode(end.buf).Invalid? ==> end.handed == whole.packets && whole.invalid)
      && |end.buf| < HEADER_LEN + MAX_RELIABLE_MESSAGE + TCP_CHUNK
  {
    hide IsRun, After, NetRuns.Safe, NetRuns.BehindOnlyAfterDrop, NetRuns.PositionsTell, Decode, Unframe;
    StartIsSound();
    EveryRunIsSound(START, steps, json);
    var end := After(START, steps, json);
    if !Decode(end.buf).Frame? {
      UnframeEnd(end.buf);
      assert end.handed + [] == end.handed;
    }
  }

  /**
    In the same runs the reliable messages the game received or may still
    receive are messages of the uncut stream, in order; without a gap they are
    its first.
   */
  lemma TheStreamArrivesInOrder(steps: seq<Step>, json: Json)
    requires IsRun(START, steps, json)
    ensures var end := After(START, steps, json);
      var sent, positions := MessagesOf(Unframe(end.stream).packets), end.net.positions;
      var reliable := NetRuns.OfChannel(NetRuns.Accepted(end.net), Reliable);
      && (forall i :: 0 <= i < |positions| ==> positions[i] < |sent|)
      && (forall i, j :: 0 <= i < j < |positions| ==> positions[i] < positions[j])
      && reliable == NetRuns.Picked(sent, positions)
      && (NetRuns.NoGap(end.net) ==> reliable <= sent)
  {
    hide IsRun, After, NetRuns.Safe, NetRuns.BehindOnlyAfterDrop, NetRuns.Accepted, NetRuns.OfChannel, Unframe, MessagesOf;
    StartIsSound();
    EveryRunIsSound(START, steps, json);
    var end := After(START, steps, json);
    MessagesOfAPrefix(end.handed, Unframe(end.buf).packets);
    PickedFromMore(end.net.decoded, MessagesOf(Unframe(end.stream).packets), end.net.positions);
  }

  lemma PickedFromMore(decoded: seq<Message>, sent: seq<Message>, positions: seq<nat>)
    requires decoded <= sent && forall i :: 0 <= i < |positions| ==> positions[i] < |decoded|
    ensures NetRuns.Picked(decoded, positions) == NetRuns.Picked(sent, positions)
    ensures (forall i :: 0 <= i < |positions| ==> positions[i] == i) ==> NetRuns.Picked(sent, positions) <= sent
  {
    if positions != [] && forall i :: 0 <= i < |positions| ==> positions[i] == i {
      assert positions[|positions| - 1] < |decoded|;
      assert NetRuns.Picked(sent, positions) == sent[..|positions|];
    }
  }
}
