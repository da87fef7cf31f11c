/**
  Every interleaving of the two readers, the game and any number of threads
  calling stop on one link. A stop is two steps: the swap of `running`, and,
  for the thread that won it, the closing of the inbox.
 */
module NetRuns {
  import opened Wrappers
  import opened NetFrames
  import opened NetLink

  /** Where the TCP reader is between two inbox operations. */
  datatype TcpReader =
    | Reading
    | MustStop   // it dropped a reliable message and has yet to swap `running`
    | Closing    // it won that swap and has yet to close the inbox

  /**
    The link, the reason the winner of the swap is about to queue (`stopper`),
    and a ledger no thread reads: what each side has handed on so far, at which
    `positions` in `decoded` the reliable messages stood that got in, and
    `late`: the TCP reader went on after a drop because another thread was
    halfway through a stop.
   */
  datatype World = World(
    link: LinkState, tcp: TcpReader,
    decoded: seq<Message>, positions: seq<nat>, datagrams: seq<Message>, received: seq<Message>,
    queuedEvents: seq<NetEvent>, taken: seq<NetEvent>, rendered: Option<nat>,
    stopper: Option<string>, late: bool)

  const START := World(LinkState([], [], 0, false, true), Reading, [], [], [], [], [], [], None, None, false)

  datatype Step =
    | TcpMessage(m: Message)      // the TCP reader pushes a decoded message
    | UdpMessage(m: Message)      // the UDP reader does
    | AnyEvent(e: NetEvent)       // either reader pushes an event
    | OverflowSwap                // the TCP reader swaps `running` after an overflow
    | Swap(reason: string)        // any other call of stop does, for a reason of its own
    | Close                       // the thread that won the swap closes the inbox
    | Receive                     // the game takes a message
    | PollEvents                  // the game takes the events
    | RenderEvents                // the game has the events rendered ...
    | DiscardEvents(fitted: bool) // ... and dropped once they fitted its buffer
  {
    predicate Enabled(w: World) {
      match this
      case TcpMessage(m) => w.tcp.Reading? && m.channel.Reliable?
      case UdpMessage(m) => m.channel.Unreliable?
      case AnyEvent(e) => !e.Closed?
      case OverflowSwap => w.tcp.MustStop?
      case Close => !w.link.running && !w.link.closed
      case Receive => w.link.messages != []
      case PollEvents => w.rendered.None?
      case RenderEvents => w.rendered.None?
      case DiscardEvents(_) => w.rendered.Some?
      case Swap(_) => true
    }

    /** A message is queued, not dropped. */
    predicate GetsIn(w: World) {
      (TcpMessage? || UdpMessage?) && !w.link.closed && !w.link.Overflows(m)
    }

    function Apply(w: World): World
      requires Enabled(w)
    {
      match this
      case TcpMessage(m) =>
        w.(link := w.link.Queued(m), decoded := w.decoded + [m],
           positions := if GetsIn(w) then w.positions + [|w.decoded|] else w.positions,
           tcp := if w.link.Overflows(m) then MustStop else Reading)
      case UdpMessage(m) =>
        w.(link := w.link.Queued(m), datagrams := w.datagrams + [m])
      case AnyEvent(e) =>
        w.(link := w.link.EventQueued(e), queuedEvents := if w.link.closed then w.queuedEvents else w.queuedEvents + [e])
      case OverflowSwap =>
        if w.link.running then
          w.(link := w.link.(running := false), stopper := Some(RECEIVE_OVERFLOW), tcp := Closing)
        else
          w.(tcp := Reading, late := w.late || !w.link.closed)
      case Swap(reason) =>
        if w.link.running then w.(link := w.link.(running := false), stopper := Some(reason)) else w
      case Close =>
        var closed := Closed(if w.stopper.Some? then w.stopper.value else "");
        w.(link := w.link.(events := w.link.events + [closed], closed := true),
           queuedEvents := w.queuedEvents + [closed], tcp := if w.tcp.Closing? then Reading else w.tcp)
      case Receive =>
        var m := w.link.messages[0];
        w.(link := w.link.(messages := w.link.messages[1..], queuedBytes := w.link.queuedBytes - |m.data|),
           received := w.received + [m])
      case PollEvents =>
        w.(link := w.link.(events := []), taken := w.taken + w.link.events)
      case RenderEvents =>
        w.(rendered := Some(|w.link.events|))
      case DiscardEvents(fitted) =>
        var n := if w.rendered.value < |w.link.events| then w.rendered.value else |w.link.events|;
        if !fitted then w.(rendered := None)
        else w.(rendered := None, link := w.link.(events := w.link.events[n..]), taken := w.taken + w.link.events[..n])
    }
  }

  ghost predicate IsRun(w: World, steps: seq<Step>)
    decreases steps
  {
    steps == [] || (steps[0].Enabled(w) && IsRun(steps[0].Apply(w), steps[1..]))
  }

  ghost function After(w: World, steps: seq<Step>): World
    requires IsRun(w, steps)
    decreases steps
  {
    if steps == [] then w else After(steps[0].Apply(w), steps[1..])
  }

  // ---------- Subsequences ----------

  function OfChannel(messages: seq<Message>, channel: Channel): seq<Message> {
    if messages == [] then []
    else
      var n := |messages| - 1;
      OfChannel(messages[..n], channel) + if messages[n].channel == channel then [messages[n]] else []
  }

  /** `a` is `b` with some elements left out. */
  ghost predicate IsSubsequence<T>(a: seq<T>, b: seq<T>)
    decreases |b|
  {
    if a == [] then true
    else if b == [] then false
    else
      var m, n := |a| - 1, |b| - 1;
      IsSubsequence(a, b[..n]) || (a[m] == b[n] && IsSubsequence(a[..m], b[..n]))
  }

  lemma SubsequenceGrows<T>(a: seq<T>, b: seq<T>, x: T)
    requires IsSubsequence(a, b)
    ensures IsSubsequence(a, b + [x]) && IsSubsequence(a + [x], b + [x])
  {
    assert (b + [x])[..|b|] == b && (a + [x])[..|a|] == a;
  }

  lemma OfChannelGrows(messages: seq<Message>, m: Message, channel: Channel)
    ensures OfChannel(messages + [m], channel)
         == OfChannel(messages, channel) + if m.channel == channel then [m] else []
  {
    assert (messages + [m])[..|messages|] == messages;
  }

  // ---------- What every step keeps ----------

  /** Messages ever queued, in order: what the game took, then what waits. */
  function Accepted(w: World): seq<Message> {
    w.received + w.link.messages
  }

  /** Bytes are accounted for exactly, and never past the limit. */
  ghost predicate BytesAccounted(w: World) {
    w.link.queuedBytes == Total(w.link.messages) <= MAX_QUEUED_BYTES
  }

  /**
    On both channels messages keep their order and none appears from nowhere.
    Reliable ones moreover have no gap, unless the TCP reader went on after a
    drop; while they still get in, none has been left out.
   */
  ghost predicate InOrder(w: World) {
    && IsSubsequence(OfChannel(Accepted(w), Reliable), w.decoded)
    && IsSubsequence(OfChannel(Accepted(w), Unreliable), w.datagrams)
    && (!w.late ==> OfChannel(Accepted(w), Reliable) <= w.decoded)
    && (!w.late && w.tcp.Reading? && !w.link.closed ==> OfChannel(Accepted(w), Reliable) == w.decoded)
  }

  /** `Closed` is queued by the first thread to stop, with its reason, once and last. */
  ghost predicate ClosedOnce(w: World) {
    && (w.link.running <==> w.stopper.None?)
    && (w.tcp.Closing? ==> !w.link.running && !w.link.closed)
    && (w.link.closed ==> !w.link.running)
    && (if w.link.closed
        then |w.queuedEvents| > 0 && w.queuedEvents[|w.queuedEvents| - 1] == Closed(w.stopper.value)
             && NoClosed(w.queuedEvents[..|w.queuedEvents| - 1])
        else NoClosed(w.queuedEvents))
  }

  predicate NoClosed(events: seq<NetEvent>) {
    forall i :: 0 <= i < |events| ==> !events[i].Closed?
  }

  /** Every event queued was taken, in order, or still waits; what was rendered still waits in front. */
  ghost predicate EventsKept(w: World) {
    && w.queuedEvents == w.taken + w.link.events
    && (w.rendered.Some? ==> w.rendered.value <= |w.link.events|)
  }

  lemma BytesStayAccounted(w: World, s: Step)
    requires BytesAccounted(w) && s.Enabled(w)
    ensures BytesAccounted(s.Apply(w))
    ensures s.Receive? ==> |w.link.messages[0].data| <= w.link.queuedBytes
  {
    match s
    case TcpMessage(m) => TotalOfBack(w.link.messages, m);
    case UdpMessage(m) => TotalOfBack(w.link.messages, m);
    case Receive => TotalOfFront(w.link.messages);
    case _ =>
  }

  lemma AcceptedStep(w: World, s: Step)
    requires s.Enabled(w)
    ensures var a := Accepted(s.Apply(w));
      if s.GetsIn(w) then a == Accepted(w) + [s.m] else a == Accepted(w)
  {
    match s
    case TcpMessage(m) => assert w.received + (w.link.messages + [m]) == Accepted(w) + [m];
    case UdpMessage(m) => assert w.received + (w.link.messages + [m]) == Accepted(w) + [m];
    case Receive =>
      assert w.received + [w.link.messages[0]] + w.link.messages[1..] == Accepted(w);
    case _ =>
  }

  lemma OrderIsKept(w: World, s: Step)
    requires InOrder(w) && ClosedOnce(w) && s.Enabled(w)
    ensures InOrder(s.Apply(w))
  {
    hide OfChannel, IsSubsequence, Accepted;
    AcceptedStep(w, s);
    var reliable, unreliable := OfChannel(Accepted(w), Reliable), OfChannel(Accepted(w), Unreliable);
    assert reliable + [] == reliable && unreliable + [] == unreliable;
    if s.TcpMessage? || s.UdpMessage? {
      OfChannelGrows(Accepted(w), s.m, Reliable);
      OfChannelGrows(Accepted(w), s.m, Unreliable);
      SubsequenceGrows(reliable, w.decoded, s.m);
      SubsequenceGrows(unreliable, w.datagrams, s.m);
    }
  }

  lemma NoClosedGrows(events: seq<NetEvent>, e: NetEvent)
    ensures NoClosed(events + [e]) <==> NoClosed(events) && !e.Closed?
  {
    assert (events + [e])[|events|] == e;
    assert forall i :: 0 <= i < |events| ==> (events + [e])[i] == events[i];
  }

  lemma ClosedStaysOnce(w: World, s: Step)
    requires ClosedOnce(w) && s.Enabled(w)
    ensures ClosedOnce(s.Apply(w))
    ensures w.link.closed ==> Accepted(s.Apply(w)) == Accepted(w) && s.Apply(w).queuedEvents == w.queuedEvents
  {
    AcceptedStep(w, s);
    hide NoClosed, Accepted;
    if s.AnyEvent? && !w.link.closed {
      NoClosedGrows(w.queuedEvents, s.e);
    }
    if s.Close? {
      var closed := Closed(w.stopper.value);
      assert (w.queuedEvents + [closed])[..|w.queuedEvents|] == w.queuedEvents;
    }
  }

  lemma EventsStayKept(w: World, s: Step)
    requires EventsKept(w) && s.Enabled(w)
    ensures EventsKept(s.Apply(w))
    ensures s.DiscardEvents? && s.fitted ==> s.Apply(w).taken == w.taken + w.link.events[..w.rendered.value]
  {
  }

  // ---------- Every run ----------

  ghost predicate Safe(w: World) {
    BytesAccounted(w) && ClosedOnce(w) && EventsKept(w) && InOrder(w)
  }

  /**
    In every interleaving: bytes accounted for, messages in order, one last
    `Closed`, and no event lost or taken twice.
   */
  lemma {:induction false} EveryRunIsSafe(w: World, steps: seq<Step>)
    requires IsRun(w, steps) && Safe(w)
    ensures Safe(After(w, steps))
    decreases steps
  {
    hide BytesAccounted, ClosedOnce, EventsKept, InOrder, Step.Apply, Step.Enabled;
    if steps != [] {
      BytesStayAccounted(w, steps[0]);
      ClosedStaysOnce(w, steps[0]);
      EventsStayKept(w, steps[0]);
      OrderIsKept(w, steps[0]);
      EveryRunIsSafe(steps[0].Apply(w), steps[1..]);
    }
  }

  lemma StartIsSafe()
    ensures Safe(START)
  {
  }

  /** The reason of the first thread to swap `running`. */
  function FirstReason(steps: seq<Step>): Option<string> {
    if steps == [] then None
    else match steps[0]
      case Swap(reason) => Some(reason)
      case OverflowSwap => Some(RECEIVE_OVERFLOW)
      case _ => FirstReason(steps[1..])
  }

  /** However many threads stop the link, the first one's reason is the one that stays. */
  lemma {:induction false} FirstReasonStays(w: World, steps: seq<Step>)
    requires IsRun(w, steps) && (w.link.running <==> w.stopper.None?)
    ensures After(w, steps).stopper == if w.stopper.Some? then w.stopper else FirstReason(steps)
    decreases steps
  {
    if steps != [] {
      FirstReasonStays(steps[0].Apply(w), steps[1..]);
    }
  }

  /** Once `Closed` is queued, no later step queues anything. */
  lemma {:induction false} NothingFollowsClosed(w: World, steps: seq<Step>)
    requires IsRun(w, steps) && ClosedOnce(w) && w.link.closed
    ensures var end := After(w, steps);
      end.link.closed && Accepted(end) == Accepted(w) && end.queuedEvents == w.queuedEvents
    decreases steps
  {
    hide ClosedOnce, Accepted;
    if steps != [] {
      ClosedStaysOnce(w, steps[0]);
      NothingFollowsClosed(steps[0].Apply(w), steps[1..]);
    }
  }

  // ---------- Gaps in the reliable stream ----------

  predicate Wins(s: Step, w: World) {
    (s.Swap? || s.OverflowSwap?) && w.link.running
  }

  /** Whoever wins the swap closes the inbox before any other thread moves. */
  ghost predicate StopsWhole(w: World, steps: seq<Step>)
    requires IsRun(w, steps)
    decreases steps
  {
    steps == []
    || ((Wins(steps[0], w) ==> |steps| > 1 && steps[1].Close?) && StopsWhole(steps[0].Apply(w), steps[1..]))
  }

  lemma {:induction false} WholeStopsAreNeverLate(w: World, steps: seq<Step>)
    requires IsRun(w, steps) && StopsWhole(w, steps) && !w.late && ClosedOnce(w)
    requires !w.link.running && !w.link.closed ==> steps != [] && steps[0].Close?
    ensures !After(w, steps).late
    decreases steps
  {
    if steps != [] {
      ClosedStaysOnce(w, steps[0]);
      WholeStopsAreNeverLate(steps[0].Apply(w), steps[1..]);
    }
  }

  /** When stop is one step, the reliable messages handed on are a prefix of those decoded. */
  lemma NoGapWhenStopsAreWhole(steps: seq<Step>)
    requires IsRun(START, steps) && StopsWhole(START, steps)
    ensures var end := After(START, steps); OfChannel(Accepted(end), Reliable) <= end.decoded
  {
    StartIsSafe();
    EveryRunIsSafe(START, steps);
    WholeStopsAreNeverLate(START, steps);
  }

  lemma {:induction false} RunGoesOn(w: World, steps: seq<Step>, s: Step)
    requires IsRun(w, steps) && s.Enabled(After(w, steps))
    ensures IsRun(w, steps + [s]) && After(w, steps + [s]) == s.Apply(After(w, steps))
    decreases steps
  {
    hide Step.Apply, Step.Enabled;
    if steps == [] {
      assert [] + [s] == [s] && [s][1..] == [];
    } else {
      assert (steps + [s])[1..] == steps[1..] + [s];
      RunGoesOn(steps[0].Apply(w), steps[1..], s);
    }
  }

  /** One call at a time, the link object does what a run of these steps does. */
  lemma CallsAreRuns(w: World, m: Message, reason: string)
    requires ClosedOnce(w) && w.link.Settled() && w.tcp.Reading? && m.channel.Reliable?
    ensures var steps := if w.link.Overflows(m) then [] + [TcpMessage(m)] + [OverflowSwap] + [Close]
                         else [] + [TcpMessage(m)];
      IsRun(w, steps) && After(w, steps).link == w.link.MessagePushed(m)
    ensures var u := m.(channel := Unreliable);
      IsRun(w, [] + [UdpMessage(u)]) && After(w, [] + [UdpMessage(u)]).link == w.link.MessagePushed(u)
    ensures var steps := if w.link.running then [] + [Swap(reason)] + [Close] else [] + [Swap(reason)];
      IsRun(w, steps) && After(w, steps).link == w.link.Stopped(reason)
  {
    RunGoesOn(w, [], TcpMessage(m));
    if w.link.Overflows(m) {
      RunGoesOn(w, [] + [TcpMessage(m)], OverflowSwap);
      RunGoesOn(w, [] + [TcpMessage(m)] + [OverflowSwap], Close);
    }
    RunGoesOn(w, [], UdpMessage(m.(channel := Unreliable)));
    RunGoesOn(w, [], Swap(reason));
    if w.link.running {
      RunGoesOn(w, [] + [Swap(reason)], Close);
    }
  }

  // ---------- When exactly there is a gap ----------

  function Picked(decoded: seq<Message>, positions: seq<nat>): seq<Message>
    requires forall i :: 0 <= i < |positions| ==> positions[i] < |decoded|
  {
    seq(|positions|, i requires 0 <= i < |positions| => decoded[positions[i]])
  }

  /** The reliable messages that got in are those at `positions`, in order. */
  ghost predicate PositionsTell(w: World) {
    && (forall i :: 0 <= i < |w.positions| ==> w.positions[i] < |w.decoded|)
    && (forall i, j :: 0 <= i < j < |w.positions| ==> w.positions[i] < w.positions[j])
    && OfChannel(Accepted(w), Reliable) == Picked(w.decoded, w.positions)
  }

  /** How far the messages that got in are behind those decoded. */
  ghost predicate BehindOnlyAfterDrop(w: World) {
    && |w.positions| <= |w.decoded|
    && (w.late || w.tcp.MustStop? ==> |w.positions| < |w.decoded|)
    && (!w.late && w.tcp.Reading? && !w.link.closed ==> |w.positions| == |w.decoded|)
    && (w.tcp.Closing? ==> !w.link.running)
    && (w.link.closed ==> !w.link.running && !w.tcp.Closing?)
  }

  /** None of the reliable messages before one that got in was left out. */
  ghost predicate NoGap(w: World) {
    forall i :: 0 <= i < |w.positions| ==> w.positions[i] == i
  }

  /** No reliable message gets in once the reader went on after a drop. */
  ghost predicate NoneGetsInLate(w: World, steps: seq<Step>)
    requires IsRun(w, steps)
    decreases steps
  {
    steps == []
    || (!(steps[0].TcpMessage? && steps[0].GetsIn(w) && w.late) && NoneGetsInLate(steps[0].Apply(w), steps[1..]))
  }

  lemma PositionsStep(w: World, s: Step)
    requires PositionsTell(w) && s.Enabled(w)
    ensures PositionsTell(s.Apply(w))
  {
    hide OfChannel, Accepted;
    AcceptedStep(w, s);
    var reliable := OfChannel(Accepted(w), Reliable);
    assert reliable + [] == reliable;
    if s.GetsIn(w) {
      OfChannelGrows(Accepted(w), s.m, Reliable);
    }
    if s.TcpMessage? {
      var next := s.Apply(w);
      assert forall i :: 0 <= i < |w.positions| ==> next.decoded[w.positions[i]] == w.decoded[w.positions[i]];
      assert s.GetsIn(w) ==> Picked(next.decoded, next.positions) == reliable + [s.m];
      assert !s.GetsIn(w) ==> Picked(next.decoded, next.positions) == reliable;
    }
  }

  lemma GapStep(w: World, s: Step)
    requires BehindOnlyAfterDrop(w) && s.Enabled(w)
    ensures BehindOnlyAfterDrop(s.Apply(w))
    ensures NoGap(s.Apply(w)) <==> NoGap(w) && !(s.TcpMessage? && s.GetsIn(w) && w.late)
  {
    var next := s.Apply(w);
    if s.TcpMessage? && s.GetsIn(w) {
      var n := |w.positions|;
      assert next.positions[n] == |w.decoded|;
      assert NoGap(next) ==> forall i :: 0 <= i < n ==> w.positions[i] == next.positions[i];
    }
  }

  lemma {:induction false} GapsOfARun(w: World, steps: seq<Step>)
    requires IsRun(w, steps) && BehindOnlyAfterDrop(w) && PositionsTell(w)
    ensures BehindOnlyAfterDrop(After(w, steps)) && PositionsTell(After(w, steps))
    ensures NoGap(After(w, steps)) <==> NoGap(w) && NoneGetsInLate(w, steps)
    decreases steps
  {
    hide BehindOnlyAfterDrop, PositionsTell, NoGap, Step.Apply, Step.Enabled, Step.GetsIn;
    if steps != [] {
      GapStep(w, steps[0]);
      PositionsStep(w, steps[0]);
      GapsOfARun(steps[0].Apply(w), steps[1..]);
    }
  }

  /**
    In every run the reliable messages that were handed on are those decoded at
    `positions`, and they have no gap exactly when none got in after the TCP
    reader had gone on from a drop, another thread being halfway through a stop.
   */
  lemma NoGapIffNoneGetsInLate(steps: seq<Step>)
    requires IsRun(START, steps)
    ensures var end := After(START, steps);
      && (NoGap(end) <==> NoneGetsInLate(START, steps))
      && (forall i :: 0 <= i < |end.positions| ==> end.positions[i] < |end.decoded|)
      && OfChannel(Accepted(end), Reliable) == Picked(end.decoded, end.positions)
      && (NoGap(end) ==> OfChannel(Accepted(end), Reliable) <= end.decoded)
  {
    hide IsRun, After, NoneGetsInLate;
    GapsOfARun(START, steps);
  }

  // Such a run exists, and the game sees the gap: `open` may fail to start the
  // UDP reader and stop the link the TCP reader is already reading.

  function Large(): Message {
    Message(0, Reliable, seq(MAX_RELIABLE_MESSAGE, _ => 0))
  }

  const SMALL := Message(0, Reliable, [1])
  const SOCKET_ERROR := "socket_error"

  function Many(n: nat): (messages: seq<Message>)
    ensures |messages| == n && forall m :: m in messages ==> m == Large()
  {
    if n == 0 then [] else Many(n - 1) + [Large()]
  }

  function Filling(n: nat): seq<Step> {
    if n == 0 then [] else Filling(n - 1) + [TcpMessage(Large())]
  }

  /** The world after `n` large messages that the game has not taken. */
  function Filled(n: nat): World {
    START.(link := START.link.(messages := Many(n), queuedBytes := MAX_RELIABLE_MESSAGE * n),
           decoded := Many(n), positions := seq(n, i => i))
  }

  lemma {:induction false} FillingRuns(n: nat)
    requires n <= 1024
    ensures IsRun(START, Filling(n)) && After(START, Filling(n)) == Filled(n)
  {
    if n > 0 {
      hide Step.Apply, Step.Enabled, IsRun, After, Filled, Large;
      FillingRuns(n - 1);
      OneMoreFills(n);
      RunGoesOn(START, Filling(n - 1), TcpMessage(Large()));
    } else {
      assert seq(0, i => i) == [];
    }
  }

  lemma OneMoreFills(n: nat)
    requires 0 < n <= 1024
    ensures TcpMessage(Large()).Enabled(Filled(n - 1)) && TcpMessage(Large()).Apply(Filled(n - 1)) == Filled(n)
  {
    hide Large;
    assert |Large().data| == MAX_RELIABLE_MESSAGE && Large().channel.Reliable? by { LargeIsLarge(); }
    assert seq(n, i => i) == seq(n - 1, i => i) + [n - 1];
  }

  lemma LargeIsLarge()
    ensures |Large().data| == MAX_RELIABLE_MESSAGE && Large().channel.Reliable?
  {
  }

  lemma {:induction false} ManyAreReliable(n: nat)
    ensures OfChannel(Many(n), Reliable) == Many(n)
  {
    if n > 0 {
      ManyAreReliable(n - 1);
      OfChannelGrows(Many(n - 1), Large(), Reliable);
    }
  }

  /** `steps` continued by half a stop, a message too many and one that fits. */
  function WithHalfAStop(steps: seq<Step>): seq<Step> {
    steps + [Swap(SOCKET_ERROR)] + [TcpMessage(Large())] + [OverflowSwap] + [TcpMessage(SMALL)]
  }

  lemma HalfAStopRuns(steps: seq<Step>)
    requires IsRun(START, steps)
    requires var w := After(START, steps);
      && w.tcp.Reading? && w.link.running && !w.link.closed
      && MAX_QUEUED_BYTES - MAX_RELIABLE_MESSAGE < w.link.queuedBytes < MAX_QUEUED_BYTES
    ensures IsRun(START, WithHalfAStop(steps))
    ensures var w, end := After(START, steps), After(START, WithHalfAStop(steps));
      && end.link.messages == w.link.messages + [SMALL] && end.received == w.received
      && end.decoded == w.decoded + [Large()] + [SMALL]
      && end.positions == w.positions + [|w.decoded| + 1]
  {
    hide IsRun, After;
    RunGoesOn(START, steps, Swap(SOCKET_ERROR));
    var steps1 := steps + [Swap(SOCKET_ERROR)];
    RunGoesOn(START, steps1, TcpMessage(Large()));
    var steps2 := steps1 + [TcpMessage(Large())];
    RunGoesOn(START, steps2, OverflowSwap);
    var steps3 := steps2 + [OverflowSwap];
    RunGoesOn(START, steps3, TcpMessage(SMALL));
  }

  function Receiving(n: nat): seq<Step> {
    if n == 0 then [] else Receiving(n - 1) + [Receive]
  }

  /** The game can always take what waits. */
  lemma {:induction false} DrainingRuns(steps: seq<Step>, n: nat)
    requires IsRun(START, steps) && n <= |After(START, steps).link.messages|
    ensures IsRun(START, steps + Receiving(n))
    ensures var w, end := After(START, steps), After(START, steps + Receiving(n));
      && end.received == w.received + w.link.messages[..n] && end.link.messages == w.link.messages[n..]
      && end.decoded == w.decoded && end.positions == w.positions
  {
    hide IsRun, After;
    var w := After(START, steps);
    if n == 0 {
      assert steps + [] == steps && w.received + [] == w.received;
    } else {
      DrainingRuns(steps, n - 1);
      RunGoesOn(START, steps + Receiving(n - 1), Receive);
      assert steps + Receiving(n - 1) + [Receive] == steps + Receiving(n);
      assert w.link.messages[..n] == w.link.messages[..n - 1] + [w.link.messages[n - 1]];
      assert w.received + w.link.messages[..n - 1] + [w.link.messages[n - 1]] == w.received + w.link.messages[..n];
    }
  }

  /**
    With 1024 messages of 65535 bytes waiting, a stop halfway in another
    thread, one more such message and then a short one: the game receives the
    1024 and the short one, and never the long one sent before it.
   */
  lemma HalfAStopCanLeaveAGap()
    ensures exists steps ::
      && IsRun(START, steps)
      && After(START, steps).received == Many(1024) + [SMALL]
      && After(START, steps).decoded == Many(1024) + [Large()] + [SMALL]
      && !(After(START, steps).received <= After(START, steps).decoded)
      && !NoGap(After(START, steps))
  {
    hide IsRun, After, Many, Filling, Large, WithHalfAStop, Receiving;
    FillingRuns(1024);
    HalfAStopRuns(Filling(1024));
    var steps := WithHalfAStop(Filling(1024));
    var w := After(START, steps);
    DrainingRuns(steps, 1025);
    var end := After(START, steps + Receiving(1025));
    LargeIsNotSmall();
    assert w.link.messages[..1025] == Many(1024) + [SMALL];
    assert [] + w.link.messages[..1025] == w.link.messages[..1025];
    assert end.received[1024] == SMALL && end.decoded[1024] == Large();
    assert end.positions[1024] == 1025;
  }

  lemma LargeIsNotSmall()
    ensures Large() != SMALL
  {
    assert |Large().data| != |SMALL.data|;
  }

  // ---------- Rendering and discarding events ----------

  /** While other threads go on, what was rendered stays in front and nothing is taken. */
  lemma {:induction false} RenderedStaysInFront(w: World, steps: seq<Step>, front: seq<NetEvent>)
    requires IsRun(w, steps) && w.rendered == Some(|front|) && front <= w.link.events
    requires forall s :: s in steps ==> !s.DiscardEvents?
    ensures var end := After(w, steps);
      end.rendered == w.rendered && front <= end.link.events && end.taken == w.taken
    decreases steps
  {
    if steps != [] {
      assert steps[0] in steps && forall s :: s in steps[1..] ==> s in steps;
      RenderedStaysInFront(steps[0].Apply(w), steps[1..], front);
    }
  }

  /**
    Whatever other threads do between rendering the events and discarding as
    many as were counted, exactly the rendered ones leave, and the queue is
    then exactly what was queued since.
   */
  lemma DiscardLeavesWhatCameSince(w: World, steps: seq<Step>)
    requires EventsKept(w) && RenderEvents.Enabled(w)
    requires IsRun(RenderEvents.Apply(w), steps) && forall s :: s in steps ==> !s.DiscardEvents?
    ensures var before := After(RenderEvents.Apply(w), steps);
      && DiscardEvents(true).Enabled(before)
      && (var end := DiscardEvents(true).Apply(before);
          end.taken == w.taken + w.link.events && end.queuedEvents == w.queuedEvents + end.link.events)
  {
    var rendered := RenderEvents.Apply(w);
    RenderedStaysInFront(rendered, steps, w.link.events);
    EventsOfARunAreKept(rendered, steps);
    var before := After(rendered, steps);
    var n := |w.link.events|;
    assert before.link.events == before.link.events[..n] + before.link.events[n..];
    assert w.taken + before.link.events == w.taken + before.link.events[..n] + before.link.events[n..];
  }

  lemma {:induction false} EventsOfARunAreKept(w: World, steps: seq<Step>)
    requires IsRun(w, steps) && EventsKept(w)
    ensures EventsKept(After(w, steps))
    decreases steps
  {
    hide EventsKept, Step.Apply, Step.Enabled;
    if steps != [] {
      EventsStayKept(w, steps[0]);
      EventsOfARunAreKept(steps[0].Apply(w), steps[1..]);
    }
  }
}
