/**
  What the game and the session thread share about lobbies: the numbered event
  queue, the window of ids already seen, the open lobbies and the arming flag.
  Periods are nanoseconds.
 */
module LobbyQueue {
  import opened Wrappers

  const MAX_QUEUED_EVENTS := 256
  const MAX_SEEN_EVENT_IDS := 256
  const IN_LOBBY_POLL := 5_000_000_000

  datatype LobbyEvent =
    | Invite(lobbyId: string, joinCode: Option<string>, fromUserId: string, pseudo: string)
    | MemberJoined(lobbyId: string, userId: string, pseudo: string, payload: seq<bv8>)
    | MemberLeft(lobbyId: string, userId: string)
    | LobbyClosed(lobbyId: string)
    | LobbyUpdated(lobbyId: string, metadata: map<string, string>)
    | Resync

  /** One event as it arrived, with the id Arcane deduplicates on. */
  datatype Incoming = Incoming(id: Option<string>, event: LobbyEvent)

  datatype Numbered = Numbered(number: nat, event: LobbyEvent)

  datatype Polling = Off | Active | Unavailable

  /** What the desktop app answered a poll. */
  datatype PollAnswer =
    | Refused(featureUnavailable: bool)
    | Batch(dropped: bool, events: seq<Incoming>, cursor: Option<string>)
  {
    /** A gap the desktop app reports comes first, as an event without an id. */
    function Arrived(): seq<Incoming>
      requires Batch?
    {
      (if dropped then [Incoming(None, Resync)] else []) + events
    }
  }

  ghost predicate NoRepeats(s: seq<string>) {
    forall i, j :: 0 <= i < j < |s| ==> s[i] != s[j]
  }

  function Without(lobbies: seq<string>, lobbyId: string): seq<string> {
    if lobbies == [] then []
    else (if lobbies[0] == lobbyId then [] else [lobbies[0]]) + Without(lobbies[1..], lobbyId)
  }

  /** `queue`, one shorter if it was full, then `x`. */
  function PushedOut<T>(queue: seq<T>, x: T, capacity: nat): seq<T>
    requires capacity > 0
  {
    (if |queue| >= capacity then queue[1..] else queue) + [x]
  }

  datatype Shared = Shared(polling: Polling, cursor: Option<string>, events: seq<Numbered>, nextSeq: nat,
                           seen: seq<string>, lobbies: seq<string>)
  {
    /** The number of the oldest queued event, or of the next one when none is queued. */
    function Head(): int {
      nextSeq - |events|
    }

    /** At most 256 events, numbered without a gap up to the last one handed out. */
    ghost predicate Contiguous() {
      && |events| <= MAX_QUEUED_EVENTS
      && Head() >= 0
      && forall i :: 0 <= i < |events| ==> events[i].number == Head() + i
    }

    /** No id and no lobby is held twice. */
    ghost predicate Distinct() {
      && |seen| <= MAX_SEEN_EVENT_IDS
      && NoRepeats(seen)
      && NoRepeats(lobbies)
    }

    predicate Accepts(e: Incoming) {
      e.id.None? || e.id.value !in seen
    }

    function IngestedOne(e: Incoming): Shared {
      if !Accepts(e) then this
      else this.(
          seen := if e.id.Some? then PushedOut(seen, e.id.value, MAX_SEEN_EVENT_IDS) else seen,
          lobbies := if e.event.LobbyClosed? then Without(lobbies, e.event.lobbyId) else lobbies,
          events := PushedOut(events, Numbered(nextSeq, e.event), MAX_QUEUED_EVENTS),
          nextSeq := nextSeq + 1)
    }

    function IngestedAll(stream: seq<Incoming>): Shared
      decreases stream
    {
      if stream == [] then this else IngestedOne(stream[0]).IngestedAll(stream[1..])
    }

    function CursorMoved(cursor: Option<string>): Shared {
      if cursor.Some? && cursor.value != "" then this.(cursor := cursor) else this
    }

    function Ingested(stream: seq<Incoming>, cursor: Option<string>): Shared {
      CursorMoved(cursor).IngestedAll(stream)
    }

    /** The queue without the events numbered up to `through`. */
    function Discarded(through: nat): Shared {
      if through < Head() then this
      else if through >= nextSeq then this.(events := [])
      else this.(events := events[through + 1 - Head()..])
    }

    function Entered(lobbyId: string): Shared {
      if lobbyId in lobbies then this else this.(lobbies := lobbies + [lobbyId])
    }

    function Left(lobbyId: string): Shared {
      this.(lobbies := Without(lobbies, lobbyId))
    }

    function Period(tick: nat): nat {
      if lobbies != [] && IN_LOBBY_POLL < tick then IN_LOBBY_POLL else tick
    }

    function Armed(): Shared {
      if polling.Unavailable? then this else this.(polling := Active)
    }

    function Retired(): Shared {
      this.(polling := Unavailable)
    }

    function Polled(answer: PollAnswer): Shared {
      match answer
      case Refused(featureUnavailable) => if featureUnavailable then Retired() else this
      case Batch(_, _, cursor) => Ingested(answer.Arrived(), cursor)
    }
  }

  // ---------- What ingesting keeps ----------

  lemma {:induction false} WithoutForgets(lobbies: seq<string>, lobbyId: string)
    requires NoRepeats(lobbies)
    ensures NoRepeats(Without(lobbies, lobbyId))
    ensures forall x :: x in Without(lobbies, lobbyId) <==> x in lobbies && x != lobbyId
  {
    if lobbies != [] {
      var first, rest := lobbies[0], Without(lobbies[1..], lobbyId);
      assert NoRepeats(lobbies[1..]) && first !in lobbies[1..];
      WithoutForgets(lobbies[1..], lobbyId);
      assert [] + rest == rest;
      hide NoRepeats;
      NoRepeatsInFront(first, rest);
    }
  }

  lemma NoRepeatsInFront(x: string, rest: seq<string>)
    requires NoRepeats(rest) && x !in rest
    ensures NoRepeats([x] + rest)
  {
  }

  lemma PushingOutKeepsDistinct(queue: seq<string>, x: string, capacity: nat)
    requires NoRepeats(queue) && |queue| <= capacity && capacity > 0 && x !in queue
    ensures NoRepeats(PushedOut(queue, x, capacity)) && |PushedOut(queue, x, capacity)| <= capacity
  {
  }

  lemma IngestingOneKeeps(s: Shared, e: Incoming)
    requires s.Contiguous() && s.Distinct()
    ensures s.IngestedOne(e).Contiguous() && s.IngestedOne(e).Distinct()
  {
    hide NoRepeats;
    if e.event.LobbyClosed? {
      WithoutForgets(s.lobbies, e.event.lobbyId);
    }
    if e.id.Some? && s.Accepts(e) {
      PushingOutKeepsDistinct(s.seen, e.id.value, MAX_SEEN_EVENT_IDS);
    }
  }

  lemma {:induction false} IngestingKeeps(s: Shared, stream: seq<Incoming>)
    requires s.Contiguous() && s.Distinct()
    ensures s.IngestedAll(stream).Contiguous() && s.IngestedAll(stream).Distinct()
    ensures |s.IngestedAll(stream).events| <= 256 && |s.IngestedAll(stream).seen| <= 256
    decreases stream
  {
    if stream != [] {
      IngestingOneKeeps(s, stream[0]);
      IngestingKeeps(s.IngestedOne(stream[0]), stream[1..]);
    }
  }

  lemma {:induction false} IngestingInPieces(s: Shared, a: seq<Incoming>, b: seq<Incoming>)
    ensures s.IngestedAll(a + b) == s.IngestedAll(a).IngestedAll(b)
    decreases a
  {
    if a == [] {
      assert a + b == b;
    } else {
      assert (a + b)[1..] == a[1..] + b;
      IngestingInPieces(s.IngestedOne(a[0]), a[1..], b);
    }
  }

  lemma {:induction false} IngestingMovesNoCursor(s: Shared, stream: seq<Incoming>)
    ensures s.IngestedAll(stream).cursor == s.cursor && s.IngestedAll(stream).polling == s.polling
    decreases stream
  {
    if stream != [] {
      IngestingMovesNoCursor(s.IngestedOne(stream[0]), stream[1..]);
    }
  }

  lemma CursorIsApart(s: Shared, cursor: Option<string>)
    requires s.Contiguous() && s.Distinct()
    ensures s.CursorMoved(cursor).Contiguous() && s.CursorMoved(cursor).Distinct()
    ensures s.CursorMoved(cursor).polling == s.polling
  {
  }

  // ---------- The shared object ----------

  class P2pState {
    var armed: bool
    var polling: Polling
    var cursor: Option<string>
    var events: seq<Numbered>
    var nextSeq: nat
    var seen: seq<string>
    var lobbies: seq<string>

    function State(): Shared
      reads this
    {
      Shared(polling, cursor, events, nextSeq, seen, lobbies)
    }

    /** With the lock free, the arming flag says exactly that polling is active. */
    ghost predicate Valid()
      reads this
    {
      State().Contiguous() && State().Distinct() && (armed <==> polling.Active?)
    }

    constructor ()
      ensures Valid()
      ensures State() == Shared(Off, None, [], 0, [], [])
    {
      armed, polling, cursor := false, Off, None;
      events, nextSeq, seen, lobbies := [], 0, [], [];
    }

    method Arm()
      requires Valid()
      modifies this
      ensures Valid()
      ensures State() == old(State()).Armed()
      ensures State() == old(State()).(polling := if old(polling).Unavailable? then Unavailable else Active)
    {
      if armed {
        return;
      }
      if polling.Unavailable? {
        return;
      }
      polling := Active;
      armed := true;
    }

    method Retire()
      requires Valid()
      modifies this
      ensures Valid()
      ensures State() == old(State()).Retired()
      ensures State() == old(State()).(polling := Unavailable)
    {
      armed := false;
      polling := Unavailable;
    }

    method Enter(lobbyId: string)
      requires Valid()
      modifies this
      ensures Valid()
      ensures State() == old(State()).Entered(lobbyId)
      ensures State() == old(State()).(lobbies := lobbies)
      ensures forall x :: x in lobbies <==> x in old(lobbies) || x == lobbyId
    {
      if lobbyId !in lobbies {
        lobbies := lobbies + [lobbyId];
      }
    }

    method Exit(lobbyId: string)
      requires Valid()
      modifies this
      ensures Valid()
      ensures State() == old(State()).Left(lobbyId)
      ensures State() == old(State()).(lobbies := lobbies)
      ensures forall x :: x in lobbies <==> x in old(lobbies) && x != lobbyId
    {
      WithoutForgets(lobbies, lobbyId);
      lobbies := Without(lobbies, lobbyId);
    }

    /** How long until the next poll: 5 s in a lobby, and never slower than the tick. */
    method PollPeriod(tick: nat) returns (period: nat)
      ensures period == State().Period(tick)
      ensures period <= tick
      ensures lobbies == [] ==> period == tick
      ensures lobbies != [] ==> period <= IN_LOBBY_POLL && (period == tick || period == IN_LOBBY_POLL)
    {
      if lobbies == [] {
        return tick;
      }
      return if IN_LOBBY_POLL < tick then IN_LOBBY_POLL else tick;
    }

    method TakeEvents() returns (taken: seq<Numbered>)
      requires Valid()
      modifies this
      ensures Valid()
      ensures taken == old(events)
      ensures State() == old(State()).(events := [])
    {
      taken := events;
      events := [];
    }

    /** The events to render, and the number of the last of them. */
    method EventsJson() returns (rendered: seq<Numbered>, through: Option<nat>)
      requires Valid()
      ensures rendered == events
      ensures through == if events == [] then None else Some(nextSeq - 1)
    {
      rendered := events;
      through := if events == [] then None else Some(events[|events| - 1].number);
    }

    method Discard(through: nat)
      requires Valid()
      modifies this
      ensures Valid()
      ensures State() == old(State()).Discarded(through)
    {
      ghost var all := events;
      ghost var n := 0;
      while events != [] && events[0].number <= through
        invariant 0 <= n <= |all| && events == all[n..]
        invariant n > 0 ==> all[n - 1].number <= through
        invariant State() == old(State()).(events := all[n..])
        invariant armed == old(armed)
        decreases |events|
      {
        events := events[1..];
        n := n + 1;
      }
    }

    /** One round of the loop of `Ingest`. */
    method IngestOne(e: Incoming)
      requires Valid()
      modifies this
      ensures Valid()
      ensures State() == old(State()).IngestedOne(e)
    {
      hide NoRepeats, Without;
      IngestingOneKeeps(State(), e);
      if e.id.Some? {
        if e.id.value in seen {
          return;
        }
        if |seen| >= MAX_SEEN_EVENT_IDS {
          seen := seen[1..];
        }
        seen := seen + [e.id.value];
      }
      if e.event.LobbyClosed? {
        lobbies := Without(lobbies, e.event.lobbyId);
      }
      if |events| >= MAX_QUEUED_EVENTS {
        events := events[1..];
      }
      events := events + [Numbered(nextSeq, e.event)];
      nextSeq := nextSeq + 1;
    }

    method Ingest(incoming: seq<Incoming>, newCursor: Option<string>)
      requires Valid()
      modifies this
      ensures Valid()
      ensures State() == old(State()).Ingested(incoming, newCursor)
    {
      hide Shared.IngestedOne, Shared.Contiguous, Shared.Distinct;
      if newCursor.Some? && newCursor.value != "" {
        CursorIsApart(State(), newCursor);
        cursor := newCursor;
      }
      ghost var before := State();
      assert incoming[0..] == incoming;
      for i := 0 to |incoming|
        invariant Valid()
        invariant State().IngestedAll(incoming[i..]) == before.IngestedAll(incoming)
      {
        assert incoming[i..][1..] == incoming[i + 1..];
        IngestOne(incoming[i]);
      }
    }

    /** One poll: `failed` when there is an error to record on the session. */
    method PollOnce(answer: PollAnswer) returns (failed: bool)
      requires Valid()
      modifies this
      ensures Valid()
      ensures State() == old(State()).Polled(answer)
      ensures failed <==> answer == Refused(false)
      ensures answer == Refused(true) ==> State() == old(State()).(polling := Unavailable)
      ensures answer == Refused(false) ==> State() == old(State())
      ensures answer.Batch? ==>
        polling == old(polling) && cursor == if answer.cursor in {None, Some("")} then old(cursor) else answer.cursor
    {
      match answer
      case Refused(featureUnavailable) =>
        if featureUnavailable {
          Retire();
          return false;
        }
        return true;
      case Batch(dropped, events, cursor) =>
        IngestingMovesNoCursor(State().CursorMoved(cursor), answer.Arrived());
        Ingest(answer.Arrived(), cursor);
        return false;
    }
  }
}
