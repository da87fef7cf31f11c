/**
  How lobby events reach the game: render the queue, copy the text into the
  game's buffer, discard what was rendered only once it fitted, or try again
  with a bigger buffer. The session thread polls between any two of these.
 */
module LobbyDelivery {
  import opened Wrappers
  import opened LobbyQueue
  import opened LobbyDedup

  // ---------- The steps of the one consumer and of the session thread ----------

  datatype Consumer =
    | Idle
    | Holding(low: int, snapshot: seq<Numbered>)   // it rendered these, numbered from `low` on
    | Copied(low: int, snapshot: seq<Numbered>)    // they are in the game's buffer, not yet discarded

  /** The shared state, and a ledger: all that polls brought, what reached the game, what the cap pushed out. */
  datatype World = World(shared: Shared, consumer: Consumer, stream: seq<Incoming>,
                         delivered: seq<Numbered>, evicted: set<int>)

  const START := World(Shared(Off, None, [], 0, [], []), Idle, [], [], {})

  predicate Within(n: int, low: int, high: int) {
    low <= n < high
  }

  function Range(low: int, high: int): set<int> {
    set n | low <= n < high && Within(n, low, high)
  }

  datatype Step =
    | Poll(answer: PollAnswer)                            // the session thread ingests an answer
    | Elsewhere(polling: Polling, lobbies: seq<string>)   // arming, entering, leaving
    | Render
    | TooSmall
    | Copy
    | Discard
    | TakeAll                                             // `take_events`, all in one step
  {
    predicate Enabled(w: World) {
      match this
      case Poll(_) => true
      case Elsewhere(_, _) => true
      case Render => w.consumer.Idle?
      case TooSmall => w.consumer.Holding?
      case Copy => w.consumer.Holding?
      case Discard => w.consumer.Copied?
      case TakeAll => w.consumer.Idle?
    }

    function Apply(w: World): World
      requires Enabled(w)
    {
      match this
      case Poll(answer) =>
        var shared := w.shared.Polled(answer);
        w.(shared := shared,
           stream := w.stream + if answer.Batch? then answer.Arrived() else [],
           evicted := w.evicted + Range(w.shared.Head(), shared.Head()))
      case Elsewhere(polling, lobbies) =>
        w.(shared := w.shared.(polling := polling, lobbies := lobbies))
      case Render =>
        w.(consumer := Holding(w.shared.Head(), w.shared.events))
      case TooSmall =>
        w.(consumer := Idle)
      case Copy =>
        w.(consumer := Copied(w.consumer.low, w.consumer.snapshot), delivered := w.delivered + w.consumer.snapshot)
      case Discard =>
        var rendered := w.consumer.snapshot;
        w.(consumer := Idle,
           shared := if rendered == [] then w.shared else w.shared.Discarded(rendered[|rendered| - 1].number))
      case TakeAll =>
        w.(shared := w.shared.(events := []), delivered := w.delivered + w.shared.events)
    }
  }

  ghost predicate IsRun(w: World, steps: seq<Step>)
    decreases steps
  {
    steps == [] || (steps[0].Enabled(w) && IsRun(steps[0].Apply(w), steps[1..]))
  }

  ghost function After(w: World, steps: seq<Step>): World
    requires IsRun(w, steps)
    decreases steps
  {
    if steps == [] then w else After(steps[0].Apply(w), steps[1..])
  }

  // ---------- What every step keeps ----------

  ghost predicate Increasing(events: seq<Numbered>) {
    forall i, j :: 0 <= i < j < |events| ==> events[i].number < events[j].number
  }

  ghost predicate Contains(events: seq<Numbered>, n: int) {
    exists i :: 0 <= i < |events| && events[i].number == n
  }

  ghost predicate AllBelow(events: seq<Numbered>, n: int) {
    forall i :: 0 <= i < |events| ==> events[i].number < n
  }

  /** Events numbered from `low` on without a gap. */
  ghost predicate IsBlock(events: seq<Numbered>, low: int) {
    forall i :: 0 <= i < |events| ==> events[i].number == low + i
  }

  /** The numbers before the queue were delivered or pushed out; nothing pushed out is recent. */
  ghost predicate PastIsSettled(w: World) {
    && (forall n :: 0 <= n < w.shared.Head() ==> n in w.evicted || Contains(w.delivered, n))
    && (forall n :: n in w.evicted ==> 0 <= n < w.shared.Head() && n + MAX_QUEUED_EVENTS < w.shared.nextSeq)
  }

  /** Deliveries are in order, each what its number stands for. */
  ghost predicate DeliveriesAreSound(w: World) {
    Increasing(w.delivered) && HoldsKept(w.delivered, Kept(w.stream))
  }

  /** What the consumer holds is a block the queue began with, past everything delivered before. */
  ghost predicate ConsumerIsSound(w: World) {
    match w.consumer
    case Idle => AllBelow(w.delivered, w.shared.Head())
    case Holding(low, snapshot) =>
      && 0 <= low <= w.shared.Head() && low + |snapshot| <= w.shared.nextSeq
      && IsBlock(snapshot, low) && HoldsKept(snapshot, Kept(w.stream))
      && AllBelow(w.delivered, low)
    case Copied(low, snapshot) =>
      && 0 <= low <= w.shared.Head() && low + |snapshot| <= w.shared.nextSeq
      && IsBlock(snapshot, low)
      && AllBelow(w.delivered, low + |snapshot|)
      && forall n :: low <= n < low + |snapshot| ==> Contains(w.delivered, n)
  }

  ghost predicate Sound(w: World) {
    Tracks(w.shared, w.stream) && PastIsSettled(w) && DeliveriesAreSound(w) && ConsumerIsSound(w)
  }

  // Polling

  lemma {:induction false} IngestingMovesTheHead(s: Shared, stream: seq<Incoming>)
    requires s.Contiguous()
    ensures var t := s.IngestedAll(stream);
      && t.Contiguous()
      && s.Head() <= t.Head() && s.nextSeq <= t.nextSeq
      && (s.Head() < t.Head() ==> |t.events| == MAX_QUEUED_EVENTS)
    decreases stream
  {
    if stream != [] {
      var t := s.IngestedOne(stream[0]);
      if s.Accepts(stream[0]) {
        OneMoreIsContiguous(s, stream[0]);
      }
      assert s.Head() <= t.Head() && (|s.events| == MAX_QUEUED_EVENTS ==> |t.events| == MAX_QUEUED_EVENTS);
      assert s.Head() < t.Head() ==> |t.events| == MAX_QUEUED_EVENTS;
      hide Shared.IngestedOne;
      IngestingMovesTheHead(t, stream[1..]);
      if |t.events| == MAX_QUEUED_EVENTS {
        FullStaysFull(t, stream[1..]);
      }
    }
  }

  lemma {:induction false} FullStaysFull(s: Shared, stream: seq<Incoming>)
    requires |s.events| == MAX_QUEUED_EVENTS
    ensures |s.IngestedAll(stream).events| == MAX_QUEUED_EVENTS
    decreases stream
  {
    if stream != [] {
      FullStaysFull(s.IngestedOne(stream[0]), stream[1..]);
    }
  }

  lemma PollKeepsSound(w: World, answer: PollAnswer)
    requires Sound(w)
    ensures Sound(Poll(answer).Apply(w))
  {
    if answer.Refused? {
      assert w.stream + [] == w.stream;
      SettledOnlyMoves(w, w.shared.Polled(answer));
    } else {
      var moved := w.shared.CursorMoved(answer.cursor);
      IngestTracks(moved, w.stream, answer.Arrived());
      IngestingMovesTheHead(moved, answer.Arrived());
      KeptGrows(w.stream, answer.Arrived());
      SettledOnlyMoves(w, w.shared.Polled(answer));
    }
  }

  lemma SettledOnlyMoves(w: World, shared: Shared)
    requires PastIsSettled(w)
    requires shared.Contiguous() && w.shared.Contiguous()
    requires w.shared.Head() <= shared.Head() && w.shared.nextSeq <= shared.nextSeq
    requires w.shared.Head() < shared.Head() ==> |shared.events| == MAX_QUEUED_EVENTS
    ensures PastIsSettled(w.(shared := shared, evicted := w.evicted + Range(w.shared.Head(), shared.Head())))
  {
  }

  // The consumer's steps

  lemma DeliveriesAppend(delivered: seq<Numbered>, snapshot: seq<Numbered>, low: int)
    requires Increasing(delivered) && AllBelow(delivered, low) && IsBlock(snapshot, low)
    ensures var all := delivered + snapshot;
      && Increasing(all) && AllBelow(all, low + |snapshot|)
      && (forall n :: Contains(all, n) <==> Contains(delivered, n) || low <= n < low + |snapshot|)
  {
    var all := delivered + snapshot;
    forall n
      ensures Contains(all, n) <==> Contains(delivered, n) || low <= n < low + |snapshot|
    {
      if Contains(delivered, n) {
        var i :| 0 <= i < |delivered| && delivered[i].number == n;
        assert all[i].number == n;
      }
      if low <= n < low + |snapshot| {
        assert all[|delivered| + (n - low)].number == n;
      }
    }
  }

  lemma CopyKeepsSound(w: World)
    requires Sound(w) && Copy.Enabled(w)
    ensures Sound(Copy.Apply(w))
  {
    hide Contains, Increasing;
    DeliveriesAppend(w.delivered, w.consumer.snapshot, w.consumer.low);
  }

  lemma TakeAllKeepsSound(w: World)
    requires Sound(w) && TakeAll.Enabled(w)
    ensures Sound(TakeAll.Apply(w))
  {
    hide Contains, Increasing;
    DeliveriesAppend(w.delivered, w.shared.events, w.shared.Head());
  }

  lemma DiscardKeepsSound(w: World)
    requires Sound(w) && Discard.Enabled(w)
    ensures Sound(Discard.Apply(w))
  {
    hide Contains, Increasing, Kept, Window;
  }

  lemma EveryStepKeepsSound(w: World, s: Step)
    requires Sound(w) && s.Enabled(w)
    ensures Sound(s.Apply(w))
  {
    match s
    case Poll(answer) => PollKeepsSound(w, answer);
    case Elsewhere(_, _) =>
    case Render =>
    case TooSmall =>
    case Copy => CopyKeepsSound(w);
    case Discard => DiscardKeepsSound(w);
    case TakeAll => TakeAllKeepsSound(w);
  }

  lemma {:induction false} EveryRunIsSound(w: World, steps: seq<Step>)
    requires IsRun(w, steps) && Sound(w)
    ensures Sound(After(w, steps))
    decreases steps
  {
    hide Sound, Step.Apply, Step.Enabled;
    if steps != [] {
      EveryStepKeepsSound(w, steps[0]);
      EveryRunIsSound(steps[0].Apply(w), steps[1..]);
    }
  }

  lemma StartIsSound()
    ensures Sound(START)
  {
  }

  // ---------- Exactly once ----------

  /** Pushed out by the cap before the game got it. */
  ghost predicate Lost(w: World, n: int) {
    n in w.evicted && !Contains(w.delivered, n)
  }

  ghost predicate Queued(w: World, n: int) {
    Contains(w.shared.events, n)
  }

  lemma QueueIsTheEnd(s: Shared, n: int)
    requires s.Contiguous()
    ensures Contains(s.events, n) <==> s.Head() <= n < s.nextSeq
  {
    if s.Head() <= n < s.nextSeq {
      assert s.events[n - s.Head()].number == n;
    }
  }

  /**
    In every interleaving of polls with renders, copies, retries and discards,
    whenever the consumer is between two reads: each event ever numbered is
    exactly one of delivered, lost to the cap or still queued. Deliveries come
    in strictly increasing order, each is the kept event of its number, and a
    lost event had at least 256 later ones behind it.
   */
  lemma ExactlyOnce(steps: seq<Step>, n: int)
    requires IsRun(START, steps) && After(START, steps).consumer.Idle?
    ensures var end := After(START, steps);
      && end.shared.nextSeq == |Kept(end.stream)|
      && Increasing(end.delivered) && HoldsKept(end.delivered, Kept(end.stream))
      && (0 <= n < end.shared.nextSeq ==>
            (if Contains(end.delivered, n) then !Lost(end, n) && !Queued(end, n)
             else Lost(end, n) != Queued(end, n)))
      && (Lost(end, n) ==> n + 256 < end.shared.nextSeq)
  {
    hide IsRun, After;
    StartIsSound();
    EveryRunIsSound(START, steps);
    var end := After(START, steps);
    QueueIsTheEnd(end.shared, n);
  }
}
