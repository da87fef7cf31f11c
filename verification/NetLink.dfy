/**
  One link of the coop network: the inbox two reader threads fill and the game
  drains, the stop that closes it, and the readers themselves.
 */
module NetLink {
  import opened Wrappers
  import opened NetFrames

  const KIND_MESSAGE: Byte := 16
  const KIND_PEER_CONNECTED: Byte := 17
  const KIND_QUALITY: Byte := 18
  const KIND_PEER_DISCONNECTED: Byte := 19
  const KIND_RELAY_REFUSED: Byte := 20
  const MAX_QUEUED_BYTES := 64 * 1024 * 1024
  const TCP_CHUNK := 16 * 1024
  const RECEIVE_OVERFLOW := "receive_overflow"
  const PROTOCOL_ERROR := "protocol_error"
  const DESKTOP_CLOSED := "desktop_closed"

  datatype Channel = Reliable | Unreliable

  datatype Route = Direct | Relayed

  datatype Message = Message(peer: U16, channel: Channel, data: Bytes)

  datatype NetEvent =
    | PeerConnected(peer: U16, userId: string, route: Route, isHost: bool)
    | Quality(peer: U16, userId: string, route: Route, rttMs: Option<real>, lossPct: real, jitterMs: Option<real>)
    | PeerDisconnected(peer: U16, userId: string, reason: string)
    | RelayRefused(peer: U16, userId: string)
    | Closed(reason: string)

  /** The JSON body of an event frame, defaults filled in. */
  datatype WirePeer = WirePeer(userId: string, route: Option<Route>, isHost: bool, rttMs: Option<real>,
                               lossPct: real, jitterMs: Option<real>, reason: string)

  /** `serde_json::from_slice::<WirePeer>`, whatever it answers. */
  type Json = Bytes -> Option<WirePeer>

  function Total(messages: seq<Message>): nat {
    if messages == [] then 0 else Total(messages[..|messages| - 1]) + |messages[|messages| - 1].data|
  }

  // ---------- The state of a link, and what each operation makes of it ----------

  datatype LinkState = LinkState(messages: seq<Message>, events: seq<NetEvent>, queuedBytes: int,
                                 closed: bool, running: bool)
  {
    /** Byte accounting is exact and bounded; a closed link no longer runs. */
    ghost predicate Sound() {
      && queuedBytes == Total(messages)
      && queuedBytes <= MAX_QUEUED_BYTES
      && (closed ==> !running)
    }

    /** No thread is between the two halves of a stop. */
    predicate Settled() {
      closed == !running
    }

    predicate Overflows(m: Message) {
      !closed && queuedBytes + |m.data| > MAX_QUEUED_BYTES
    }

    /** The part of `push_message` under the inbox lock. */
    function Queued(m: Message): LinkState {
      if closed || Overflows(m) then this
      else this.(queuedBytes := queuedBytes + |m.data|, messages := messages + [m])
    }

    function EventQueued(e: NetEvent): LinkState {
      if closed then this else this.(events := events + [e])
    }

    /** `stop`: the first caller closes the link, the others change nothing. */
    function Stopped(reason: string): LinkState {
      if !running then this
      else this.(running := false, events := events + [Closed(reason)], closed := true)
    }

    function MessagePushed(m: Message): LinkState {
      if Overflows(m) && m.channel.Reliable? then Stopped(RECEIVE_OVERFLOW) else Queued(m)
    }

    function Handled(p: Packet, channel: Channel, json: Json): LinkState {
      if p.kind == KIND_MESSAGE then MessagePushed(Message(p.peer, channel, p.data))
      else
        var event := EventOf(p, json);
        if event.Some? then EventQueued(event.value) else this
    }

    function HandledAll(packets: seq<Packet>, channel: Channel, json: Json): LinkState
      decreases packets
    {
      if packets == [] then this
      else Handled(packets[0], channel, json).HandledAll(packets[1..], channel, json)
    }
  }

  function EventOf(p: Packet, json: Json): Option<NetEvent> {
    var body :- json(p.data);
    var route := if body.route.Some? then body.route.value else Direct;
    if p.kind == KIND_PEER_CONNECTED then
      Some(PeerConnected(p.peer, body.userId, route, body.isHost))
    else if p.kind == KIND_QUALITY then
      Some(Quality(p.peer, body.userId, route, body.rttMs, body.lossPct, body.jitterMs))
    else if p.kind == KIND_PEER_DISCONNECTED then
      Some(PeerDisconnected(p.peer, body.userId, body.reason))
    else if p.kind == KIND_RELAY_REFUSED then
      Some(RelayRefused(p.peer, body.userId))
    else
      None
  }

  lemma TotalOfFront(messages: seq<Message>)
    requires messages != []
    ensures Total(messages) == |messages[0].data| + Total(messages[1..])
  {
    var n := |messages| - 1;
    if n > 0 {
      TotalOfFront(messages[..n]);
      assert messages[..n][1..] == messages[1..][..n - 1];
    } else {
      assert messages[..0] == [] == messages[1..];
    }
  }

  lemma TotalOfBack(messages: seq<Message>, m: Message)
    ensures Total(messages + [m]) == Total(messages) + |m.data|
  {
    assert (messages + [m])[..|messages|] == messages;
  }

  // ---------- What a frame does to a link ----------

  /**
    `after` is what taking `m` makes of `before`: on an open link a message for
    which the 64 MiB have room goes to the end of the queue, byte for byte; for
    want of room an unreliable one is dropped, and a reliable one ends the link.
   */
  ghost predicate Took(before: LinkState, after: LinkState, m: Message) {
    var room := Total(before.messages) + |m.data| <= 67_108_864;
    && (before.closed ==> after == before)
    && (!before.closed && room ==>
          after == before.(messages := before.messages + [m], queuedBytes := Total(before.messages) + |m.data|))
    && (!before.closed && !room && m.channel.Unreliable? ==> after == before)
    && (!before.closed && !room && m.channel.Reliable? ==>
          after == before.(running := false, closed := true, events := before.events + [Closed("receive_overflow")]))
  }

  /** The event an event frame tells, if its body can be read; at most one. */
  function Told(p: Packet, json: Json): seq<NetEvent> {
    match json(p.data)
    case None => []
    case Some(b) =>
      var direct := b.route.None? || b.route.value.Direct?;
      if p.kind == 17 then [PeerConnected(p.peer, b.userId, if direct then Direct else Relayed, b.isHost)]
      else if p.kind == 18 then
        [Quality(p.peer, b.userId, if direct then Direct else Relayed, b.rttMs, b.lossPct, b.jitterMs)]
      else if p.kind == 19 then [PeerDisconnected(p.peer, b.userId, b.reason)]
      else if p.kind == 20 then [RelayRefused(p.peer, b.userId)]
      else []
  }

  /** What one frame makes of a link that no thread is stopping. */
  lemma FrameTells(link: LinkState, p: Packet, channel: Channel, json: Json)
    requires link.Sound() && link.Settled()
    ensures var after := link.Handled(p, channel, json);
      && (p.kind == 16 ==> Took(link, after, Message(p.peer, channel, p.data)))
      && (p.kind != 16 ==> after == link.(events := link.events + if link.closed then [] else Told(p, json)))
  {
    hide Total;
    assert link.events + [] == link.events;
  }

  // ---------- The link object ----------

  datatype ReceiveInto = Empty | TooSmall | Received(peer: U16, channel: Channel, len: nat)

  class Link {
    var messages: seq<Message>
    var events: seq<NetEvent>
    var queuedBytes: nat
    var closed: bool
    var running: bool

    function State(): LinkState
      reads this
    {
      LinkState(messages, events, queuedBytes, closed, running)
    }

    ghost predicate Valid()
      reads this
    {
      State().Sound() && State().Settled()
    }

    constructor ()
      ensures Valid()
      ensures State() == LinkState([], [], 0, false, true)
    {
      messages, events, queuedBytes := [], [], 0;
      closed, running := false, true;
    }

    method Stop(reason: string)
      requires Valid()
      modifies this
      ensures Valid()
      ensures State() == old(State()).Stopped(reason)
      ensures old(running) ==> closed && events == old(events) + [Closed(reason)]
      ensures !old(running) ==> State() == old(State())
      ensures messages == old(messages)
    {
      var was := running;
      running := false;
      if !was {
        return;
      }
      events := events + [Closed(reason)];
      closed := true;
    }

    method PushMessage(m: Message)
      requires Valid()
      modifies this
      ensures Valid()
      ensures State() == old(State()).MessagePushed(m)
      ensures Took(old(State()), State(), m)
    {
      hide Total;
      if closed {
        return;
      }
      if queuedBytes + |m.data| > MAX_QUEUED_BYTES {
        if m.channel.Unreliable? {
          return;
        }
        Stop(RECEIVE_OVERFLOW);
        return;
      }
      TotalOfBack(messages, m);
      queuedBytes := queuedBytes + |m.data|;
      messages := messages + [m];
    }

    method PushEvent(e: NetEvent)
      requires Valid()
      modifies this
      ensures Valid()
      ensures State() == old(State()).EventQueued(e)
      ensures events == if old(closed) then old(events) else old(events) + [e]
    {
      if !closed {
        events := events + [e];
      }
    }

    method HandleFrame(p: Packet, channel: Channel, json: Json)
      requires Valid()
      modifies this
      ensures Valid()
      ensures State() == old(State()).Handled(p, channel, json)
      ensures p.kind == 16 ==> Took(old(State()), State(), Message(p.peer, channel, p.data))
      ensures p.kind != 16 ==>
        && messages == old(messages) && closed == old(closed) && running == old(running)
        && events == old(events) + if old(closed) then [] else Told(p, json)
    {
      FrameTells(State(), p, channel, json);
      if p.kind == KIND_MESSAGE {
        PushMessage(Message(p.peer, channel, p.data));
        return;
      }
      var event := EventOf(p, json);
      if event.Some? {
        PushEvent(event.value);
      }
    }

    /** Takes the oldest message, and exactly its bytes off the account. */
    method Receive() returns (message: Option<Message>)
      requires Valid()
      modifies this
      ensures Valid()
      ensures message.None? <==> old(messages) == []
      ensures message.None? ==> State() == old(State())
      ensures message.Some? ==>
        && old(messages) == [message.value] + messages
        && State() == old(State()).(messages := messages, queuedBytes := old(queuedBytes) - |message.value.data|)
    {
      if messages == [] {
        return None;
      }
      TotalOfFront(messages);
      message := Some(messages[0]);
      messages := messages[1..];
      queuedBytes := queuedBytes - |message.value.data|;
    }

    /** Like `Receive`, but a message that does not fit `buf` stays first in line. */
    method ReceiveIntoBuffer(buf: array<Byte>) returns (answer: ReceiveInto)
      requires Valid()
      modifies this, buf
      ensures Valid()
      ensures answer.Empty? <==> old(messages) == []
      ensures answer.TooSmall? <==> old(messages) != [] && |old(messages)[0].data| > buf.Length
      ensures !answer.Received? ==> State() == old(State()) && buf[..] == old(buf[..])
      ensures answer.Received? ==>
        && |old(messages)| > 0
        && (var m := old(messages)[0];
            && |m.data| <= buf.Length
            && answer == Received(m.peer, m.channel, |m.data|)
            && buf[..] == m.data + old(buf[..])[|m.data|..]
            && State() == old(State()).(messages := old(messages)[1..], queuedBytes := old(queuedBytes) - |m.data|))
    {
      if messages == [] {
        return Empty;
      }
      if |messages[0].data| > buf.Length {
        return TooSmall;
      }
      var message := Receive();
      var m := message.value;
      forall i | 0 <= i < |m.data| {
        buf[i] := m.data[i];
      }
      answer := Received(m.peer, m.channel, |m.data|);
    }

    method PollEvents() returns (taken: seq<NetEvent>)
      requires Valid()
      modifies this
      ensures Valid()
      ensures taken == old(events)
      ensures State() == old(State()).(events := [])
    {
      taken := events;
      events := [];
    }

    /** The events to render, and how many they are. */
    method EventsJson() returns (rendered: seq<NetEvent>, count: nat)
      ensures rendered == events && count == |events|
    {
      rendered, count := events, |events|;
    }

    method DiscardEvents(count: nat)
      requires Valid()
      modifies this
      ensures Valid()
      ensures State() == old(State()).(events := old(events)[if count < |old(events)| then count else |old(events)|..])
    {
      var n := if count < |events| then count else |events|;
      events := events[n..];
    }
  }

  // ---------- The TCP reader ----------

  /** The reliable messages among some frames. */
  function MessagesOf(packets: seq<Packet>): seq<Message> {
    if packets == [] then []
    else
      var n := |packets| - 1;
      MessagesOf(packets[..n])
      + if packets[n].kind == 16 then [Message(packets[n].peer, Reliable, packets[n].data)] else []
  }

  lemma MessagesGrow(packets: seq<Packet>, p: Packet)
    ensures MessagesOf(packets + [p])
         == MessagesOf(packets) + if p.kind == 16 then [Message(p.peer, Reliable, p.data)] else []
  {
    assert (packets + [p])[..|packets|] == packets;
  }

  lemma {:induction false} MessagesOfAPrefix(packets: seq<Packet>, more: seq<Packet>)
    ensures MessagesOf(packets) <= MessagesOf(packets + more)
    decreases |more|
  {
    if more == [] {
      assert packets + more == packets;
    } else {
      var n := |more| - 1;
      MessagesOfAPrefix(packets, more[..n]);
      assert packets + more == packets + more[..n] + [more[n]];
      MessagesGrow(packets + more[..n], more[n]);
    }
  }

  /** The events among some frames. */
  function AllTold(packets: seq<Packet>, json: Json): seq<NetEvent> {
    if packets == [] then []
    else
      var n := |packets| - 1;
      AllTold(packets[..n], json) + if packets[n].kind == 16 then [] else Told(packets[n], json)
  }

  lemma AllToldGrows(packets: seq<Packet>, p: Packet, json: Json)
    ensures AllTold(packets + [p], json) == AllTold(packets, json) + if p.kind == 16 then [] else Told(p, json)
  {
    assert (packets + [p])[..|packets|] == packets;
  }

  /** What one `read` of the stream may answer. */
  datatype Read = Data(bytes: Bytes) | Eof | Interrupted | Failed {
    predicate Valid() {
      Data? ==> 0 < |bytes| <= TCP_CHUNK
    }
  }

  /** The bytes the reads carry, up to the first that ends the stream. */
  function BytesOf(answers: seq<Read>): Bytes {
    if answers == [] then []
    else match answers[0]
      case Data(bytes) => bytes + BytesOf(answers[1..])
      case Interrupted => BytesOf(answers[1..])
      case _ => []
  }

  predicate Ends(answers: seq<Read>) {
    answers != [] && (answers[0].Eof? || answers[0].Failed? || Ends(answers[1..]))
  }

  /**
    What reading a whole stream in one piece makes of a link: its frames in
    order, then a stop if it went wrong or came to its end.
   */
  function Outcome(link: LinkState, stream: Bytes, ended: bool, json: Json): LinkState {
    var u := Unframe(stream);
    var after := link.HandledAll(u.packets, Reliable, json);
    if u.invalid then after.Stopped(PROTOCOL_ERROR)
    else if ended then after.Stopped(DESKTOP_CLOSED)
    else after
  }

  /** A link that is stopped stays as it is, whatever else the stream carries. */
  lemma {:induction false} StoppedLinkIsFrozen(link: LinkState, packets: seq<Packet>, channel: Channel, json: Json)
    requires link.closed
    ensures link.HandledAll(packets, channel, json) == link
  {
    if packets != [] {
      StoppedLinkIsFrozen(link, packets[1..], channel, json);
    }
  }

  lemma OutcomeAfterFrame(link: LinkState, buf: Bytes, more: Bytes, ended: bool, json: Json)
    requires Decode(buf).Frame?
    ensures var d := Decode(buf);
      && d.used <= |buf|
      && Outcome(link, buf + more, ended, json)
      == Outcome(link.Handled(Packet(d.kind, d.peer, d.data), Reliable, json), buf[d.used..] + more, ended, json)
  {
    hide Decode, LinkState.Handled;
    var d := Decode(buf);
    VerdictIsStable(buf, more);
    EncodeInvertsDecode(buf);
    assert (buf + more)[d.used..] == buf[d.used..] + more;
    var later := Unframe(buf[d.used..] + more);
    assert Unframe(buf + more).packets[1..] == later.packets;
  }

  lemma OutcomeOfInvalid(link: LinkState, buf: Bytes, more: Bytes, ended: bool, json: Json)
    requires Decode(buf).Invalid?
    ensures Outcome(link, buf + more, ended, json) == link.Stopped(PROTOCOL_ERROR)
  {
    hide Decode;
    VerdictIsStable(buf, more);
  }

  lemma OutcomeOfLeftover(link: LinkState, buf: Bytes, ended: bool, json: Json)
    requires Decode(buf).Incomplete?
    ensures Outcome(link, buf + [], ended, json) == if ended then link.Stopped(DESKTOP_CLOSED) else link
  {
    hide Decode;
    assert buf + [] == buf;
  }

  lemma OutcomeOfStopped(link: LinkState, stream: Bytes, ended: bool, json: Json)
    requires !link.running && link.Settled()
    ensures Outcome(link, stream, ended, json) == link == link.Stopped(DESKTOP_CLOSED)
  {
    StoppedLinkIsFrozen(link, Unframe(stream).packets, Reliable, json);
  }

  // What reading comes to, frame by frame

  /** `after` is `before` with all messages and events of `packets`, in order. */
  ghost predicate TookAll(before: LinkState, after: LinkState, packets: seq<Packet>, json: Json) {
    && after == before.(messages := before.messages + MessagesOf(packets),
                        events := before.events + AllTold(packets, json),
                        queuedBytes := Total(before.messages + MessagesOf(packets)))
    && after.queuedBytes <= 67_108_864
  }

  /** `after` is `before` ended for `reason`. */
  ghost predicate EndedFor(before: LinkState, after: LinkState, reason: string) {
    after == before.(running := false, closed := true, events := before.events + [Closed(reason)])
  }

  /**
    `after` is what reading a stream of these frames, good or bad at its end,
    makes of an open link: the first `n` are taken, the next one is a message
    the 64 MiB have no room for; or all are, and the link ends if the stream does.
   */
  ghost predicate ReadFrames(before: LinkState, after: LinkState, u: Unframed, n: nat, ended: bool, json: Json) {
    n <= |u.packets|
    && exists taken ::
      && TookAll(before, taken, u.packets[..n], json)
      && (n < |u.packets| ==>
            && u.packets[n].kind == 16 && taken.queuedBytes + |u.packets[n].data| > 67_108_864
            && EndedFor(taken, after, "receive_overflow"))
      && (n == |u.packets| ==>
            if u.invalid then EndedFor(taken, after, "protocol_error")
            else if ended then EndedFor(taken, after, "desktop_closed")
            else after == taken)
  }

  lemma OneMoreMessage(before: LinkState, link: LinkState, done: seq<Packet>, p: Packet, json: Json)
    requires TookAll(before, link, done, json) && p.kind == 16
    requires link.queuedBytes + |p.data| <= 67_108_864
    ensures var m := Message(p.peer, Reliable, p.data);
      TookAll(before, link.(messages := link.messages + [m], queuedBytes := Total(link.messages) + |p.data|), done + [p], json)
  {
    hide Told, Total, MessagesOf, AllTold;
    MessagesGrow(done, p);
    AllToldGrows(done, p, json);
    var m := Message(p.peer, Reliable, p.data);
    TotalOfBack(link.messages, m);
    assert before.messages + MessagesOf(done) + [m] == before.messages + (MessagesOf(done) + [m]);
    assert AllTold(done, json) + [] == AllTold(done, json);
  }

  lemma OneMoreEvent(before: LinkState, link: LinkState, done: seq<Packet>, p: Packet, json: Json)
    requires TookAll(before, link, done, json) && p.kind != 16
    ensures TookAll(before, link.(events := link.events + Told(p, json)), done + [p], json)
  {
    hide Told, Total, MessagesOf, AllTold;
    MessagesGrow(done, p);
    AllToldGrows(done, p, json);
    assert before.events + AllTold(done, json) + Told(p, json) == before.events + (AllTold(done, json) + Told(p, json));
    assert MessagesOf(done) + [] == MessagesOf(done);
  }

  lemma OneMoreTaken(before: LinkState, link: LinkState, done: seq<Packet>, p: Packet, json: Json)
    requires !before.closed && before.running && TookAll(before, link, done, json)
    ensures var next := link.Handled(p, Reliable, json);
      if p.kind == 16 && link.queuedBytes + |p.data| > 67_108_864 then EndedFor(link, next, "receive_overflow")
      else TookAll(before, next, done + [p], json)
  {
    hide LinkState.Handled, Told, Total, MessagesOf, AllTold;
    FrameTells(link, p, Reliable, json);
    if p.kind != 16 {
      OneMoreEvent(before, link, done, p, json);
    } else if link.queuedBytes + |p.data| <= 67_108_864 {
      OneMoreMessage(before, link, done, p, json);
    }
  }

  lemma {:induction false} AllTaken(before: LinkState, link: LinkState, packets: seq<Packet>, k: nat, json: Json)
    returns (n: nat, taken: LinkState)
    requires !before.closed && before.running && k <= |packets| && TookAll(before, link, packets[..k], json)
    ensures k <= n <= |packets| && TookAll(before, taken, packets[..n], json)
    ensures var after := link.HandledAll(packets[k..], Reliable, json);
      if n < |packets| then
        && packets[n].kind == 16 && taken.queuedBytes + |packets[n].data| > 67_108_864
        && EndedFor(taken, after, "receive_overflow")
      else after == taken
    decreases |packets| - k
  {
    hide LinkState.Handled, TookAll;
    n, taken := k, link;
    if k < |packets| {
      var p := packets[k];
      var next := link.Handled(p, Reliable, json);
      OneMoreTaken(before, link, packets[..k], p, json);
      assert packets[..k] + [p] == packets[..k + 1] && packets[k..][1..] == packets[k + 1..];
      if p.kind == 16 && link.queuedBytes + |p.data| > 67_108_864 {
        StoppedLinkIsFrozen(next, packets[k + 1..], Reliable, json);
      } else {
        n, taken := AllTaken(before, next, packets, k + 1, json);
      }
    }
  }

  /** What reading a whole stream makes of a link, told without the operations that do it. */
  lemma OutcomeTells(link: LinkState, stream: Bytes, ended: bool, json: Json) returns (n: nat)
    requires link.Sound() && link.Settled()
    ensures if link.closed then Outcome(link, stream, ended, json) == link
            else ReadFrames(link, Outcome(link, stream, ended, json), Unframe(stream), n, ended, json)
  {
    hide LinkState.Handled, TookAll, Unframe, LinkState.HandledAll;
    n := 0;
    var u := Unframe(stream);
    if link.closed {
      OutcomeOfStopped(link, stream, ended, json);
      StoppedLinkIsFrozen(link, u.packets, Reliable, json);
    } else {
      NothingTaken(link, json);
      var taken;
      assert u.packets[..0] == [] && u.packets[0..] == u.packets;
      n, taken := AllTaken(link, link, u.packets, 0, json);
      TakingKeepsOpen(link, taken, u.packets[..n], json);
    }
  }

  lemma NothingTaken(link: LinkState, json: Json)
    requires link.Sound()
    ensures TookAll(link, link, [], json)
  {
    assert link.messages + [] == link.messages && link.events + [] == link.events;
  }

  lemma TakingKeepsOpen(before: LinkState, after: LinkState, packets: seq<Packet>, json: Json)
    requires TookAll(before, after, packets, json)
    ensures after.closed == before.closed && after.running == before.running
  {
  }

  /**
    However a stream is cut into reads, with interruptions between them, the
    reader sees its bytes; what comes after the first end or failure it does not.
   */
  lemma {:induction false} AnyCutCarriesTheStream(answers: seq<Read>, more: seq<Read>)
    ensures !Ends(answers) ==> BytesOf(answers + more) == BytesOf(answers) + BytesOf(more)
    ensures Ends(answers) ==> BytesOf(answers + more) == BytesOf(answers)
    ensures Ends(answers + more) <==> Ends(answers) || Ends(more)
    ensures forall bytes :: BytesOf([Data(bytes)]) == bytes && !Ends([Data(bytes)])
    ensures BytesOf([Interrupted]) == [] && !Ends([Interrupted])
    ensures BytesOf([Eof]) == BytesOf([Failed]) == [] && Ends([Eof]) && Ends([Failed])
    ensures BytesOf([]) == [] && !Ends([])
  {
    assert [Interrupted][1..] == [];
    forall bytes
      ensures BytesOf([Data(bytes)]) == bytes && !Ends([Data(bytes)])
    {
      assert [Data(bytes)][1..] == [] && bytes + [] == bytes;
    }
    if answers == [] {
      assert answers + more == more && [] + BytesOf(more) == BytesOf(more);
    } else {
      assert (answers + more)[1..] == answers[1..] + more;
      AnyCutCarriesTheStream(answers[1..], more);
      if answers[0].Data? && !Ends(answers) {
        assert answers[0].bytes + BytesOf(answers[1..]) + BytesOf(more)
            == answers[0].bytes + (BytesOf(answers[1..]) + BytesOf(more));
      }
    }
  }

  /**
    The reader loop. Alone on its link, it leaves the link as reading the
    uncut stream would, however the stream was cut into reads. `answers` are the
    answers so far; when they run out the reader is blocked. `peak` is the
    longest the reassembly buffer ever was, `handed` how many frames the link took.
   */
  method ReadTcp(link: Link, answers: seq<Read>, json: Json) returns (ghost peak: nat, ghost handed: nat)
    requires link.Valid()
    requires forall r :: r in answers ==> r.Valid()
    modifies link
    ensures link.Valid()
    ensures link.State() == Outcome(old(link.State()), BytesOf(answers), Ends(answers), json)
    ensures if old(link.closed) then link.State() == old(link.State())
            else ReadFrames(old(link.State()), link.State(), Unframe(BytesOf(answers)), handed, Ends(answers), json)
    ensures peak <= 81_926
  {
    hide Decode, Outcome, LinkState.Handled, LinkState.Stopped, ReadFrames;
    handed := OutcomeTells(link.State(), BytesOf(answers), Ends(answers), json);
    ghost var outcome := Outcome(link.State(), BytesOf(answers), Ends(answers), json);
    var buf: Bytes := [];
    var next := 0;
    peak := 0;
    assert [] + BytesOf(answers) == BytesOf(answers) && answers[0..] == answers;
    while link.running
      invariant link.Valid()
      invariant 0 <= next <= |answers|
      invariant Outcome(link.State(), buf + BytesOf(answers[next..]), Ends(answers[next..]), json) == outcome
      invariant |buf| <= peak <= HEADER_LEN + MAX_RELIABLE_MESSAGE - 1 + TCP_CHUNK
      decreases |answers| - next
    {
      var more := BytesOf(answers[next..]);
      var ended := Ends(answers[next..]);
      var d := Decode(buf);
      while !d.Incomplete?
        invariant link.Valid() && d == Decode(buf)
        invariant Outcome(link.State(), buf + more, ended, json) == outcome
        invariant |buf| <= peak
        decreases |buf|
      {
        if d.Invalid? {
          OutcomeOfInvalid(link.State(), buf, more, ended, json);
          link.Stop(PROTOCOL_ERROR);
          return;
        }
        OutcomeAfterFrame(link.State(), buf, more, ended, json);
        EncodeInvertsDecode(buf);
        link.HandleFrame(Packet(d.kind, d.peer, d.data), Reliable, json);
        buf := buf[d.used..];
        d := Decode(buf);
      }
      LeftoverIsShort(buf);
      if next == |answers| {
        OutcomeOfLeftover(link.State(), buf, false, json);
        return;
      }
      var read := answers[next];
      assert read in answers;
      assert answers[next..][1..] == answers[next + 1..];
      if read.Eof? || read.Failed? {
        OutcomeOfLeftover(link.State(), buf, true, json);
        break;
      }
      next := next + 1;
      if read.Data? {
        assert buf + more == (buf + read.bytes) + BytesOf(answers[next..]);
        buf := buf + read.bytes;
        peak := if |buf| > peak then |buf| else peak;
      }
    }
    if !link.running {
      OutcomeOfStopped(link.State(), buf + BytesOf(answers[next..]), Ends(answers[next..]), json);
    }
    link.Stop(DESKTOP_CLOSED);
  }

  /**
    Wherever a stream is cut in two, reading the first part and then going on
    with what it left over comes to the same as reading it whole, and an error
    is raised at the same frame.
   */
  lemma {:induction false} CutAnywhere(link: LinkState, first: Bytes, second: Bytes, ended: bool, json: Json)
    ensures var u := Unframe(first);
      var after := link.HandledAll(u.packets, Reliable, json);
      Outcome(link, first + second, ended, json)
      == if u.invalid then after.Stopped(PROTOCOL_ERROR) else Outcome(after, u.rest + second, ended, json)
    decreases |first|
  {
    hide Decode, LinkState.Handled;
    var d := Decode(first);
    if d.Frame? {
      var p := Packet(d.kind, d.peer, d.data);
      EncodeInvertsDecode(first);
      OutcomeAfterFrame(link, first, second, ended, json);
      CutAnywhere(link.Handled(p, Reliable, json), first[d.used..], second, ended, json);
      assert Unframe(first).packets[1..] == Unframe(first[d.used..]).packets;
    } else if d.Invalid? {
      OutcomeOfInvalid(link, first, second, ended, json);
    }
  }

  /** Frames the desktop app sends, none too long, reach the link one by one as they were sent. */
  lemma {:induction false} SentFramesArrive(link: LinkState, packets: seq<Packet>, json: Json)
    requires forall p :: p in packets ==> |p.data| <= MAX_RELIABLE_MESSAGE
    ensures Outcome(link, WireAll(packets), false, json) == link.HandledAll(packets, Reliable, json)
  {
    UnframeInvertsWireAll(packets);
  }

  // ---------- The UDP reader ----------

  /** What one `recv_from` may answer: a datagram, or an error of any kind. */
  datatype Datagram = Datagram(fromDesktop: bool, bytes: Bytes) | NoDatagram

  /** The frames of the datagrams the desktop app sent; bytes after a frame are ignored. */
  function PacketsOf(datagrams: seq<Datagram>): seq<Packet> {
    if datagrams == [] then []
    else
      var first := datagrams[0];
      var later := PacketsOf(datagrams[1..]);
      if first.NoDatagram? || !first.fromDesktop then later
      else match Decode(first.bytes)
        case Frame(kind, peer, data, _) => [Packet(kind, peer, data)] + later
        case _ => later
  }

  predicate Counts(d: Datagram) {
    d.Datagram? && d.fromDesktop && Decode(d.bytes).Frame?
  }

  predicate Carries(d: Datagram, p: Packet) {
    Counts(d) && (var f := Decode(d.bytes); f.kind == p.kind && f.peer == p.peer && f.data == p.data)
  }

  /** `packets` are carried by the datagrams at `at`, in order, and no other datagram counts. */
  ghost predicate Selects(datagrams: seq<Datagram>, packets: seq<Packet>, at: seq<nat>) {
    && |at| == |packets|
    && (forall i :: 0 <= i < |at| ==> at[i] < |datagrams| && Carries(datagrams[at[i]], packets[i]))
    && (forall i, j :: 0 <= i < j < |at| ==> at[i] < at[j])
    && (forall k :: 0 <= k < |datagrams| && Counts(datagrams[k]) ==> k in at)
  }

  lemma SelectsLater(datagrams: seq<Datagram>, packets: seq<Packet>, at: seq<nat>) returns (shifted: seq<nat>)
    requires datagrams != [] && Selects(datagrams[1..], packets, at)
    ensures |shifted| == |packets|
    ensures forall i :: 0 <= i < |shifted| ==> 0 < shifted[i] < |datagrams| && Carries(datagrams[shifted[i]], packets[i])
    ensures forall i, j :: 0 <= i < j < |shifted| ==> shifted[i] < shifted[j]
    ensures forall k :: 0 < k < |datagrams| && Counts(datagrams[k]) ==> k in shifted
  {
    hide Carries, Counts;
    shifted := seq(|at|, i requires 0 <= i < |at| => at[i] + 1);
    forall i | 0 <= i < |at|
      ensures 0 < shifted[i] < |datagrams| && Carries(datagrams[shifted[i]], packets[i])
    {
      assert datagrams[1..][at[i]] == datagrams[shifted[i]];
    }
    forall k | 0 < k < |datagrams| && Counts(datagrams[k])
      ensures k in shifted
    {
      assert datagrams[1..][k - 1] == datagrams[k];
      var i :| 0 <= i < |at| && at[i] == k - 1;
      assert shifted[i] == k;
    }
  }

  lemma SelectsFirst(datagrams: seq<Datagram>, p: Packet, packets: seq<Packet>, at: seq<nat>) returns (more: seq<nat>)
    requires datagrams != [] && Carries(datagrams[0], p) && Selects(datagrams[1..], packets, at)
    ensures Selects(datagrams, [p] + packets, more)
  {
    hide Carries, Counts;
    var shifted := SelectsLater(datagrams, packets, at);
    more := [0] + shifted;
    forall k | 0 <= k < |datagrams| && Counts(datagrams[k])
      ensures k in more
    {
      assert k > 0 ==> k in shifted;
    }
  }

  lemma SelectsNoFirst(datagrams: seq<Datagram>, packets: seq<Packet>, at: seq<nat>) returns (more: seq<nat>)
    requires datagrams != [] && !Counts(datagrams[0]) && Selects(datagrams[1..], packets, at)
    ensures Selects(datagrams, packets, more)
  {
    hide Carries, Counts;
    more := SelectsLater(datagrams, packets, at);
  }

  /** Every datagram of the desktop app that begins with a frame counts, with that frame, and no other. */
  lemma {:induction false} OnlyDesktopFramesCount(datagrams: seq<Datagram>) returns (at: seq<nat>)
    ensures Selects(datagrams, PacketsOf(datagrams), at)
  {
    hide Decode, Carries, Counts, Selects;
    if datagrams == [] {
      at := [];
      NothingSelected();
    } else {
      at := OnlyDesktopFramesCount(datagrams[1..]);
      FirstCounts(datagrams);
      hide PacketsOf;
      var packets := PacketsOf(datagrams);
      if Counts(datagrams[0]) {
        at := SelectsFirst(datagrams, packets[0], packets[1..], at);
        assert packets == [packets[0]] + packets[1..];
      } else {
        at := SelectsNoFirst(datagrams, packets, at);
      }
    }
  }

  lemma NothingSelected()
    ensures Selects([], [], [])
  {
  }

  lemma FirstCounts(datagrams: seq<Datagram>)
    requires datagrams != []
    ensures if Counts(datagrams[0])
            then |PacketsOf(datagrams)| > 0 && Carries(datagrams[0], PacketsOf(datagrams)[0])
                 && PacketsOf(datagrams)[1..] == PacketsOf(datagrams[1..])
            else PacketsOf(datagrams) == PacketsOf(datagrams[1..])
  {
    hide Decode;
  }

  /** The reader of unreliable messages: one bad datagram costs only itself. */
  method ReadUdp(link: Link, datagrams: seq<Datagram>, json: Json)
    requires link.Valid()
    modifies link
    ensures link.Valid()
    ensures link.State() == old(link.State()).HandledAll(PacketsOf(datagrams), Unreliable, json)
  {
    hide Decode, LinkState.Handled;
    ghost var outcome := link.State().HandledAll(PacketsOf(datagrams), Unreliable, json);
    var next := 0;
    assert datagrams[0..] == datagrams;
    while link.running && next < |datagrams|
      invariant link.Valid()
      invariant 0 <= next <= |datagrams|
      invariant link.State().HandledAll(PacketsOf(datagrams[next..]), Unreliable, json) == outcome
    {
      var datagram := datagrams[next];
      assert datagrams[next..][1..] == datagrams[next + 1..];
      ghost var later := PacketsOf(datagrams[next + 1..]);
      next := next + 1;
      if datagram.NoDatagram? || !datagram.fromDesktop {
        continue;
      }
      var d := Decode(datagram.bytes);
      if d.Frame? {
        var p := Packet(d.kind, d.peer, d.data);
        assert ([p] + later)[1..] == later;
        link.HandleFrame(p, Unreliable, json);
      }
    }
    if !link.running {
      StoppedLinkIsFrozen(link.State(), PacketsOf(datagrams[next..]), Unreliable, json);
    }
  }
}
