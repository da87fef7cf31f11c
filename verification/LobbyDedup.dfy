/**
  What the window of the last 256 ids does to a stream with replays, against
  the filter that remembers every id.
 */
module LobbyDedup {
  import opened Wrappers
  import opened LobbyQueue

  /** The window after a stream, from a client that has seen nothing. */
  function Window(stream: seq<Incoming>): seq<string> {
    if stream == [] then []
    else
      var n := |stream| - 1;
      var before, e := Window(stream[..n]), stream[n];
      if e.id.None? || e.id.value in before then before
      else PushedOut(before, e.id.value, MAX_SEEN_EVENT_IDS)
  }

  /** The events of a stream that get past the window. */
  function Kept(stream: seq<Incoming>): seq<Incoming> {
    if stream == [] then []
    else
      var n := |stream| - 1;
      var e := stream[n];
      Kept(stream[..n]) + if e.id.None? || e.id.value !in Window(stream[..n]) then [e] else []
  }

  /** The ids of a stream, in order; events without one are skipped. */
  function Ids(stream: seq<Incoming>): seq<string> {
    if stream == [] then []
    else
      var n := |stream| - 1;
      Ids(stream[..n]) + if stream[n].id.Some? then [stream[n].id.value] else []
  }

  /** The ideal filter: an id passes the first time it appears. */
  function FirstOnly(stream: seq<Incoming>): seq<Incoming> {
    if stream == [] then []
    else
      var n := |stream| - 1;
      var e := stream[n];
      FirstOnly(stream[..n]) + if e.id.None? || e.id.value !in Ids(stream[..n]) then [e] else []
  }

  function LastUpTo<T>(s: seq<T>, n: nat): seq<T> {
    if |s| <= n then s else s[|s| - n..]
  }

  function IndexOf(s: seq<string>, x: string): (i: nat)
    requires x in s
    ensures i < |s| && s[i] == x && x !in s[..i]
  {
    if s[0] == x then 0 else
      var i := 1 + IndexOf(s[1..], x);
      assert s[..i] == [s[0]] + s[1..][..i - 1];
      i
  }

  /** How many new ids have appeared in `stream` since the first appearance of `id`. */
  function NewIdsSince(stream: seq<Incoming>, id: string): nat
    requires id in Ids(FirstOnly(stream))
  {
    var ids := Ids(FirstOnly(stream));
    |ids| - 1 - IndexOf(ids, id)
  }

  // ---------- The window is the last 256 accepted ids ----------

  lemma IdsGrow(stream: seq<Incoming>, e: Incoming)
    ensures Ids(stream + [e]) == Ids(stream) + if e.id.Some? then [e.id.value] else []
  {
    assert (stream + [e])[..|stream|] == stream;
  }

  lemma LastUpToGrows<T>(s: seq<T>, x: T, n: nat)
    requires n > 0
    ensures LastUpTo(s + [x], n) == PushedOut(LastUpTo(s, n), x, n)
  {
  }

  /** The window holds exactly the last 256 ids that were accepted, each once. */
  lemma {:induction false} WindowIsTheLastAccepted(stream: seq<Incoming>)
    ensures Window(stream) == LastUpTo(Ids(Kept(stream)), MAX_SEEN_EVENT_IDS)
    ensures NoRepeats(Window(stream)) && |Window(stream)| <= MAX_SEEN_EVENT_IDS
  {
    hide NoRepeats, LastUpTo, PushedOut;
    if stream == [] {
      NothingAcceptedYet();
    } else {
      var n := |stream| - 1;
      var e := stream[n];
      WindowIsTheLastAccepted(stream[..n]);
      IdsGrow(Kept(stream[..n]), e);
      assert Kept(stream[..n]) + [] == Kept(stream[..n]);
      assert Ids(Kept(stream[..n])) + [] == Ids(Kept(stream[..n]));
      if e.id.Some? && e.id.value !in Window(stream[..n]) {
        LastUpToGrows(Ids(Kept(stream[..n])), e.id.value, MAX_SEEN_EVENT_IDS);
        PushingOutKeepsDistinct(Window(stream[..n]), e.id.value, MAX_SEEN_EVENT_IDS);
      }
    }
  }

  lemma NothingAcceptedYet()
    ensures LastUpTo<string>([], MAX_SEEN_EVENT_IDS) == [] && NoRepeats([])
  {
  }

  // ---------- Against the ideal filter ----------

  lemma {:induction false} FirstOnlyHasEveryId(stream: seq<Incoming>)
    ensures NoRepeats(Ids(FirstOnly(stream)))
    ensures forall x :: x in Ids(FirstOnly(stream)) <==> x in Ids(stream)
  {
    hide NoRepeats;
    if stream == [] {
      NothingAcceptedYet();
    } else {
      var n := |stream| - 1;
      var e := stream[n];
      FirstOnlyHasEveryId(stream[..n]);
      IdsGrow(FirstOnly(stream[..n]), e);
      assert FirstOnly(stream[..n]) + [] == FirstOnly(stream[..n]);
      assert Ids(FirstOnly(stream[..n])) + [] == Ids(FirstOnly(stream[..n]));
      if e.id.Some? && e.id.value !in Ids(stream[..n]) {
        NoRepeatsBehind(Ids(FirstOnly(stream[..n])), e.id.value);
      }
    }
  }

  lemma NoRepeatsBehind(s: seq<string>, x: string)
    requires NoRepeats(s) && x !in s
    ensures NoRepeats(s + [x])
  {
  }

  lemma {:induction false} WindowHasOnlyIdsOfTheStream(stream: seq<Incoming>)
    ensures forall x :: x in Window(stream) ==> x in Ids(stream)
  {
    if stream != [] {
      WindowHasOnlyIdsOfTheStream(stream[..|stream| - 1]);
    }
  }

  /** At least as many events pass as the ideal filter lets through; with no more, they are the same. */
  lemma {:induction false} KeepsAtLeastTheFirst(stream: seq<Incoming>)
    ensures |Kept(stream)| >= |FirstOnly(stream)|
    ensures |Kept(stream)| == |FirstOnly(stream)| ==> Kept(stream) == FirstOnly(stream)
  {
    if stream != [] {
      var n := |stream| - 1;
      KeepsAtLeastTheFirst(stream[..n]);
      WindowHasOnlyIdsOfTheStream(stream[..n]);
    }
  }

  lemma RecentMeansInTheLast(ids: seq<string>, x: string, n: nat)
    requires NoRepeats(ids) && x in ids
    ensures x in LastUpTo(ids, n) <==> |ids| - 1 - IndexOf(ids, x) < n
  {
    var i := IndexOf(ids, x);
    if |ids| > n {
      var last := ids[|ids| - n..];
      if i >= |ids| - n {
        assert last[i - (|ids| - n)] == x;
      }
    }
  }

  /** Each replay comes after fewer than 256 further new ids. */
  ghost predicate ReplaysAreRecent(stream: seq<Incoming>) {
    forall i :: 0 <= i < |stream| && IsReplay(stream, i) ==>
      NewIdsSince(stream[..i], stream[i].id.value) < MAX_SEEN_EVENT_IDS
  }

  predicate IsReplay(stream: seq<Incoming>, i: nat)
    requires i < |stream|
  {
    stream[i].id.Some? && stream[i].id.value in Ids(FirstOnly(stream[..i]))
  }

  lemma ReplaysOfAPrefix(stream: seq<Incoming>)
    requires stream != []
    ensures var n := |stream| - 1;
      ReplaysAreRecent(stream) <==>
        ReplaysAreRecent(stream[..n])
        && (IsReplay(stream, n) ==> NewIdsSince(stream[..n], stream[n].id.value) < MAX_SEEN_EVENT_IDS)
  {
    var n := |stream| - 1;
    forall i | 0 <= i < n
      ensures stream[..n][..i] == stream[..i]
      ensures IsReplay(stream[..n], i) == IsReplay(stream, i)
    {
      assert stream[..n][..i] == stream[..i];
    }
  }

  /**
    The window and the ideal filter queue the same events exactly when every
    replay is recent: one that comes after 256 further new ids is delivered
    again. Events without an id pass both.
   */
  lemma {:induction false} WindowIsIdealIffReplaysAreRecent(stream: seq<Incoming>)
    ensures Kept(stream) == FirstOnly(stream) <==> ReplaysAreRecent(stream)
  {
    if stream != [] {
      var n := |stream| - 1;
      var e := stream[n];
      WindowIsIdealIffReplaysAreRecent(stream[..n]);
      ReplaysOfAPrefix(stream);
      LastStepAgrees(stream);
    }
  }

  lemma LastStepAgrees(stream: seq<Incoming>)
    requires stream != []
    ensures var n := |stream| - 1;
      Kept(stream) == FirstOnly(stream) <==>
        Kept(stream[..n]) == FirstOnly(stream[..n])
        && (IsReplay(stream, n) ==> NewIdsSince(stream[..n], stream[n].id.value) < MAX_SEEN_EVENT_IDS)
  {
    hide NoRepeats, LastUpTo;
    var n := |stream| - 1;
    var past, e := stream[..n], stream[n];
    KeepsAtLeastTheFirst(past);
    FirstOnlyHasEveryId(past);
    WindowHasOnlyIdsOfTheStream(past);
    if Kept(past) == FirstOnly(past) && IsReplay(stream, n) {
      WindowIsTheLastAccepted(past);
      RecentMeansInTheLast(Ids(FirstOnly(past)), e.id.value, MAX_SEEN_EVENT_IDS);
    }
  }

  // ---------- The queue holds what was kept ----------

  /**
    `s` after `stream` was ingested, with any of its oldest events taken since:
    the kept events are numbered in order, and the queue is the last of them.
   */
  ghost predicate Tracks(s: Shared, stream: seq<Incoming>) {
    && s.Contiguous()
    && s.seen == Window(stream)
    && s.nextSeq == |Kept(stream)|
    && HoldsKept(s.events, Kept(stream))
  }

  ghost predicate HoldsKept(events: seq<Numbered>, kept: seq<Incoming>) {
    forall i :: 0 <= i < |events| ==> events[i].number < |kept| && events[i].event == kept[events[i].number].event
  }

  lemma {:induction false} IngestTracks(s: Shared, past: seq<Incoming>, stream: seq<Incoming>)
    requires Tracks(s, past)
    ensures Tracks(s.IngestedAll(stream), past + stream)
    decreases stream
  {
    hide Tracks, Shared.IngestedOne;
    if stream == [] {
      assert past + [] == past;
    } else {
      OneMoreTracks(s, past, stream[0]);
      IngestTracks(s.IngestedOne(stream[0]), past + [stream[0]], stream[1..]);
      assert past + [stream[0]] + stream[1..] == past + stream;
    }
  }

  lemma OneMoreTracks(s: Shared, past: seq<Incoming>, e: Incoming)
    requires Tracks(s, past)
    ensures Tracks(s.IngestedOne(e), past + [e])
  {
    hide HoldsKept, Shared.Contiguous, NoRepeats;
    var all := past + [e];
    assert all[..|past|] == past && all[|past|] == e;
    var t := s.IngestedOne(e);
    if !s.Accepts(e) {
      assert Kept(past) + [] == Kept(past);
    } else {
      OneMoreIsHeld(s.events, Kept(past), Numbered(s.nextSeq, e.event), e);
      OneMoreIsContiguous(s, e);
    }
  }

  lemma OneMoreIsContiguous(s: Shared, e: Incoming)
    requires s.Contiguous() && s.Accepts(e)
    ensures s.IngestedOne(e).Contiguous()
  {
  }

  lemma OneMoreIsHeld(events: seq<Numbered>, kept: seq<Incoming>, x: Numbered, e: Incoming)
    requires HoldsKept(events, kept) && x == Numbered(|kept|, e.event)
    ensures HoldsKept(PushedOut(events, x, MAX_QUEUED_EVENTS), kept + [e])
  {
  }

  /** More events never change which ones were kept before. */
  lemma {:induction false} KeptGrows(past: seq<Incoming>, stream: seq<Incoming>)
    ensures Kept(past) <= Kept(past + stream)
    decreases |stream|
  {
    if stream == [] {
      assert past + stream == past;
    } else {
      var n := |stream| - 1;
      KeptGrows(past, stream[..n]);
      assert (past + stream)[..|past| + n] == past + stream[..n];
    }
  }

  // ---------- Lobbies are left when they close ----------

  /** Of the kept events from the `low`-th on, one says that the lobby closed. */
  ghost predicate ClosedSince(kept: seq<Incoming>, low: nat, lobbyId: string) {
    exists i :: low <= i < |kept| && kept[i].event == LobbyClosed(lobbyId)
  }

  /** A lobby stays open until an event that is kept, not a replay, says it closed. */
  lemma {:induction false} OpenUntilClosed(s: Shared, past: seq<Incoming>, stream: seq<Incoming>, lobbyId: string)
    requires Tracks(s, past) && NoRepeats(s.lobbies)
    ensures NoRepeats(s.IngestedAll(stream).lobbies)
    ensures lobbyId in s.IngestedAll(stream).lobbies
       <==> lobbyId in s.lobbies && !ClosedSince(Kept(past + stream), |Kept(past)|, lobbyId)
    decreases |stream|
  {
    hide NoRepeats, Shared.IngestedOne, Window, HoldsKept, Shared.Contiguous, Kept, ClosedSince;
    if stream == [] {
      assert past + stream == past;
      NoneClosedSince(Kept(past), lobbyId);
    } else {
      var n := |stream| - 1;
      var before, e := stream[..n], stream[n];
      OpenUntilClosed(s, past, before, lobbyId);
      IngestingInPieces(s, before, [e]);
      assert before + [e] == stream && past + before + [e] == past + stream && [e][1..] == [];
      IngestTracks(s, past, before);
      KeptGrows(past, before);
      OneMoreLeaves(s.IngestedAll(before), past + before, e, |Kept(past)|, lobbyId);
    }
  }

  lemma NoneClosedSince(kept: seq<Incoming>, lobbyId: string)
    ensures !ClosedSince(kept, |kept|, lobbyId)
  {
  }

  lemma OneMoreLeaves(s: Shared, past: seq<Incoming>, e: Incoming, low: nat, lobbyId: string)
    requires s.seen == Window(past) && NoRepeats(s.lobbies) && low <= |Kept(past)|
    ensures NoRepeats(s.IngestedOne(e).lobbies)
    ensures var leaves := s.Accepts(e) && e.event == LobbyClosed(lobbyId);
      && (lobbyId in s.IngestedOne(e).lobbies <==> lobbyId in s.lobbies && !leaves)
      && (ClosedSince(Kept(past + [e]), low, lobbyId) <==> ClosedSince(Kept(past), low, lobbyId) || leaves)
  {
    hide NoRepeats, Window;
    assert (past + [e])[..|past|] == past;
    if e.event.LobbyClosed? {
      WithoutForgets(s.lobbies, e.event.lobbyId);
    }
    var kept := Kept(past);
    assert kept + [] == kept;
    if ClosedSince(kept, low, lobbyId) {
      var i :| low <= i < |kept| && kept[i].event == LobbyClosed(lobbyId);
      assert (kept + [e])[i] == kept[i];
    }
    assert (kept + [e])[|kept|] == e;
  }

  // ---------- A replay that comes too late ----------

  /** The `n`-th of as many different ids as one likes. */
  function Id(n: nat): string {
    seq(n, _ => 'a')
  }

  function Event(n: nat): Incoming {
    Incoming(Some(Id(n)), Resync)
  }

  function Fresh(n: nat): seq<Incoming> {
    if n == 0 then [] else Fresh(n - 1) + [Event(n - 1)]
  }

  function FreshIds(n: nat): (ids: seq<string>)
    ensures |ids| == n && forall i :: 0 <= i < n ==> ids[i] == Id(i)
  {
    if n == 0 then [] else FreshIds(n - 1) + [Id(n - 1)]
  }

  lemma {:induction false} IdsOfFresh(n: nat)
    ensures |Fresh(n)| == n && Ids(Fresh(n)) == FreshIds(n)
  {
    hide Id;
    if n > 0 {
      IdsOfFresh(n - 1);
      IdsGrow(Fresh(n - 1), Event(n - 1));
    }
  }

  lemma {:induction false} FreshIsKept(n: nat)
    ensures Kept(Fresh(n)) == Fresh(n) == FirstOnly(Fresh(n))
  {
    hide Window, Id, Ids, FreshIds;
    if n > 0 {
      var before := Fresh(n - 1);
      FreshIsKept(n - 1);
      IdsOfFresh(n - 1);
      IdIsFresh(n - 1);
      WindowHasOnlyIdsOfTheStream(before);
      assert |before| == n - 1 && Fresh(n)[..n - 1] == before;
    }
  }

  lemma IdIsFresh(n: nat)
    ensures Id(n) !in FreshIds(n)
  {
    hide Id, FreshIds;
    forall i | 0 <= i < n
      ensures Id(i) != Id(n)
    {
      IdsDiffer(i, n);
    }
  }

  lemma IdsDiffer(m: nat, n: nat)
    ensures Id(m) == Id(n) ==> m == n
  {
    assert |Id(m)| == m && |Id(n)| == n;
  }

  /** What becomes of a replay of the first event after `n` further ones. */
  lemma ReplayAfter(n: nat)
    ensures Kept(Fresh(n + 1) + [Event(0)])
         == if n >= MAX_SEEN_EVENT_IDS then Fresh(n + 1) + [Event(0)] else Fresh(n + 1)
    ensures FirstOnly(Fresh(n + 1) + [Event(0)]) == Fresh(n + 1)
  {
    hide Window, Fresh, Id, Ids, LastUpTo, FreshIds;
    var stream := Fresh(n + 1);
    FreshIsKept(n + 1);
    IdsOfFresh(n + 1);
    WindowIsTheLastAccepted(stream);
    assert (stream + [Event(0)])[..n + 1] == stream;
    FirstIsStillSeen(n);
    assert FreshIds(n + 1)[0] == Id(0);
    assert stream + [] == stream;
  }

  lemma FirstIsStillSeen(n: nat)
    ensures Id(0) in LastUpTo(FreshIds(n + 1), MAX_SEEN_EVENT_IDS) <==> n < MAX_SEEN_EVENT_IDS
  {
    hide Id, FreshIds;
    var ids := FreshIds(n + 1);
    assert ids[0] == Id(0);
    forall i | 0 < i <= n
      ensures ids[i] != Id(0)
    {
      IdsDiffer(i, 0);
    }
  }

  /** After 256 further new ids the replay is queued again; after 255 it is dropped. */
  lemma ReplayAfter256IsKeptTwice()
    ensures Kept(Fresh(257) + [Event(0)]) == Fresh(257) + [Event(0)] != FirstOnly(Fresh(257) + [Event(0)])
    ensures Kept(Fresh(256) + [Event(0)]) == Fresh(256) == FirstOnly(Fresh(256) + [Event(0)])
  {
    hide Kept, FirstOnly, Fresh;
    ReplayAfter(256);
    ReplayAfter(255);
    assert |Fresh(257) + [Event(0)]| != |Fresh(257)|;
  }

  // ---------- What a poll adds ----------

  /**
    After a poll the queue stands for the stream with what the answer brought:
    a resync first if the desktop app dropped events, then its events in order.
    A refusal brings nothing.
   */
  lemma PollTracks(s: Shared, past: seq<Incoming>, answer: PollAnswer)
    requires Tracks(s, past)
    ensures answer.Refused? ==> Tracks(s.Polled(answer), past)
    ensures answer.Batch? && !answer.dropped ==> Tracks(s.Polled(answer), past + answer.events)
    ensures answer.Batch? && answer.dropped ==>
      Tracks(s.Polled(answer), past + ([Incoming(None, Resync)] + answer.events))
  {
    if answer.Batch? {
      assert [] + answer.events == answer.events;
      CursorMovesNothingElse(s, past, answer.cursor);
      hide Tracks;
      IngestTracks(s.CursorMoved(answer.cursor), past, answer.Arrived());
    }
  }

  lemma CursorMovesNothingElse(s: Shared, past: seq<Incoming>, cursor: Option<string>)
    requires Tracks(s, past)
    ensures Tracks(s.CursorMoved(cursor), past)
  {
    hide Window, Kept, HoldsKept;
  }

  lemma NoIdIsKept(past: seq<Incoming>, event: LobbyEvent)
    ensures var e := Incoming(None, event); Kept(past + [e]) == Kept(past) + [e]
  {
    hide Window;
    var e := Incoming(None, event);
    assert (past + [e])[..|past|] == past;
  }

  lemma TracksTell(s: Shared, past: seq<Incoming>, e: Numbered)
    requires Tracks(s, past)
    ensures s.nextSeq == |Kept(past)|
    ensures e in s.events ==> e.number < |Kept(past)| && e.event == Kept(past)[e.number].event
  {
    hide Kept, Window;
  }

  /** A reported gap always reaches the queue, in front of all the poll brought. */
  lemma GapIsTold(s: Shared, past: seq<Incoming>, answer: PollAnswer, e: Numbered)
    requires Tracks(s, past) && answer.Batch? && answer.dropped
    ensures s.Polled(answer).nextSeq > s.nextSeq
    ensures e in s.Polled(answer).events && e.number == s.nextSeq ==> e.event == Resync
  {
    hide Tracks, Kept, Window, Shared.Polled;
    var gap := Incoming(None, Resync);
    PollTracks(s, past, answer);
    NoIdIsKept(past, Resync);
    KeptGrows(past + [gap], answer.events);
    assert past + [gap] + answer.events == past + ([gap] + answer.events);
    TracksTell(s, past, e);
    TracksTell(s.Polled(answer), past + ([gap] + answer.events), e);
  }
}
