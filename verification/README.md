# A verified model of the Arcane SDK core

The SDK sits between a game and the Arcane desktop app on the same machine.
This project models the parts of it where order, counting and text matter, and
proves what they keep over every input, every interleaving and every run.

- **The coop network link** (`NetFrames`, `NetLink`, `NetRuns`, `NetStream`,
  `NetEventsRead`): frames cut out of a TCP stream, one bounded inbox filled by
  two reader threads and drained by the game, and a stop that any thread may
  call. `Link` is the object with its methods and loops; `NetRuns` is every
  interleaving of its steps, with a stop split into the swap of `running` and the
  closing of the inbox; `NetStream` puts the reader's buffer beside it.
- **The lobby event pipeline** (`LobbyQueue`, `LobbyDedup`, `LobbyDelivery`,
  `NativeBuffer`, `LobbyRead`, `LobbyPolling`): a numbered queue of at most 256
  events behind a window of the last 256 ids, read by "render, copy, discard only
  if it fitted, retry with a bigger buffer" while the session thread polls.
- **The play session** (`Session`, `SessionWindows`, `SessionFrames`,
  `SessionOutbox`, `SessionLoop`): FPS windows, the lock-free frame counter, the
  samples that wait for a heartbeat, and the timed loop.
- **Text and arithmetic**: the Unity JSON reader and writer (`JsonText`,
  `JsonReader`, `JsonGrammar`, `JsonWriter`, `JsonTrees`, `JsonCodes`), the loopback query
  strings (`Query`), the two metadata checks (`Metadata`, `Unicode`), the
  RFC 3339 reader (`Rfc3339`) and the day count under it (`Calendar`).

Objects the source updates in place are classes whose methods state their whole
new state as a function of the old one; the theorems are about those functions
and about runs of them. What an operation does is moreover told once without its
function, in literals and in terms of what it starts from. Interleavings are step datatypes with a ledger of what
happened so far, and lemmas tie uninterrupted steps back to the functions.

Where the code and its documentation differ, the model follows the code:

- The comment on `parse_rfc3339` (`src/achievements.rs:360-364`) promises `None`
  rather than a wrong date. The code takes more than date-times: days up to 31 in
  every month, numbers with signs and of uneven widths, hours, minutes and seconds
  below zero, an empty fraction, no zone. `Rfc3339.ReadsExactlyStamps` says for
  every string whether it is read and as what, `Rfc3339.DateTimesAmongStamps` which
  of these strings are date-times of RFC 3339, section 5.6, and
  `Rfc3339.WrittenDayIsReadIffItExists` when the answer falls on the day that was
  written. `Rfc3339.LastOfFebruaryIsReadAsMarch` and
  `Rfc3339.HourBelowZeroIsTheDayBefore` are two strings for which it does not.
- Dropping a replayed event (`src/p2p.rs:430-432`) holds only while fewer than 256
  new ids came in between. `LobbyDedup.WindowIsIdealIffReplaysAreRecent` is the
  exact condition, `LobbyDedup.ReplayAfter256IsKeptTwice` a stream on either side.
- A reliable message dropped on overflow ends the stream, except while another
  thread is halfway through a stop: then a later, shorter one can still be handed
  on. `NetRuns.NoGapIffNoneGetsInLate` says exactly in which runs there is no gap,
  `NetRuns.HalfAStopCanLeaveAGap` is a run in which the game receives past one,
  and `NetRuns.NoGapWhenStopsAreWhole` the case without halves of stops.

## Model

| member | source | states |
|---|---|---|
| NetFrames.Encode | src/net.rs:720-728 | a frame is laid out as `Wire` says |
| NetFrames.HeaderLayout | src/net.rs:720-728 | version, kind, then peer and length read as big-endian numbers, then the data, and nothing else |
| NetFrames.DecodeInvertsEncode | src/net.rs:720-763 | an encoded frame followed by anything decodes to its fields, using exactly its bytes, if and only if its data is at most 65535 bytes |
| NetFrames.EncodeInvertsDecode | src/net.rs:720-763 | the bytes a decoded frame used are exactly the encoding of what it decoded to |
| NetFrames.VerdictIsStable | src/net.rs:741-763 | more bytes never change a frame or an error once shown |
| NetFrames.FramesAreAPrefixCode | src/net.rs:720-728 | no frame is the beginning of a different one |
| NetFrames.LeftoverIsShort | src/net.rs:741-763 | a buffer without a whole frame is shorter than the longest frame |
| NetFrames.UnframeLosesNothing | src/net.rs:622-652 | a stream is its frames re-encoded one after the other, then what is left |
| NetFrames.UnframeInvertsWireAll | src/net.rs:622-652 | frames sent back to back are read as they were sent, nothing left over |
| NetLink.Link.Stop | src/net.rs:249-261 | the first stop closes the link with its reason as the last event, any other changes nothing |
| NetLink.Link.PushMessage | src/net.rs:225-240 | on an open link a message the 64 MiB have room for goes to the end of the queue, byte for byte; without room an unreliable one is dropped and a reliable one ends the link with receive_overflow |
| NetLink.Link.PushEvent | src/net.rs:242-247 | an event is queued unless the link is closed |
| NetLink.Link.HandleFrame | src/net.rs:678-718 | a frame of kind 16 is taken as the message of its peer, channel and bytes; one of kind 17 to 20 with a readable body queues its event, anything else changes nothing |
| NetLink.FrameTells | src/net.rs:225-247 | the same of every link no thread is stopping, without the operations that do it |
| NetLink.Link.Receive | src/net.rs:395-401 | the oldest message leaves with exactly its bytes; the byte account cannot underflow |
| NetLink.Link.ReceiveIntoBuffer | src/net.rs:412-433 | a message that fits is copied and taken, one that does not fit stays first in line and the buffer is untouched |
| NetLink.Link.PollEvents | src/net.rs:404-410 | all events are taken, and nothing else changes |
| NetLink.Link.DiscardEvents | src/net.rs:443-449 | as many events as were counted leave from the front, or all there are |
| NetEventsRead.NetEventsJson | src/ffi.rs:1311-1327 | whatever is queued during the read, the game got the text of the queue as it was rendered and exactly what came since still waits, or it got nothing and everything still waits |
| NetRuns.DiscardLeavesWhatCameSince | src/net.rs:435-449 | in every interleaving, discarding as many events as were rendered takes exactly those, and leaves exactly what was queued since |
| NetLink.ReadTcp | src/net.rs:622-652 | however a stream is cut into reads, the loop adds the messages and events of a first part of its frames, in order: all of them, and then protocol_error or desktop_closed if the stream is bad or ends, or those before the first message the 64 MiB have no room for; at most 81926 bytes are ever buffered |
| NetLink.OutcomeTells | src/net.rs:622-652 | the same of reading any stream in one piece |
| NetLink.AnyCutCarriesTheStream | src/net.rs:644-649 | the reads carry their bytes one after the other, interruptions none, and nothing after the first end or failure counts |
| NetLink.CutAnywhere | src/net.rs:622-652 | cutting a stream in two and going on with the leftover gives the same messages and the same error at the same frame |
| NetLink.OutcomeAfterFrame | src/net.rs:622-652 | handling the first frame and going on is the same as reading the whole |
| NetLink.SentFramesArrive | src/net.rs:622-652 | frames the desktop app sends reach the link one by one, in order |
| NetLink.StoppedLinkIsFrozen | src/net.rs:225-247 | no frame changes a link that is closed |
| NetLink.ReadUdp | src/net.rs:654-676 | each datagram of the desktop app gives at most one frame; a bad one, a stray one or an error costs only itself |
| NetLink.OnlyDesktopFramesCount | src/net.rs:654-676 | the datagrams that count are exactly those the desktop app sent that begin with a frame, each with that frame, in order |
| NetRuns.EveryRunIsSafe | src/net.rs:224-261 | in every interleaving of both readers, the game and any number of stops: bytes accounted and within 64 MiB, messages in order, one last `Closed`, no event lost or taken twice |
| NetRuns.BytesStayAccounted | src/net.rs:225-240 | `queued_bytes` is the sum of the queued lengths after every step, and no receive can take it below zero |
| NetRuns.OrderIsKept | src/net.rs:225-240 | reliable and unreliable messages handed on stay subsequences of those decoded; reliable ones have no gap unless the reader went on after a drop |
| NetRuns.ClosedStaysOnce | src/net.rs:242-261 | `Closed` is queued once, last, with the first stopper's reason; a closed link queues nothing |
| NetRuns.EventsStayKept | src/net.rs:404-449 | every event queued was taken in order or still waits, through render and discard of one consumer |
| NetRuns.FirstReasonStays | src/net.rs:249-261 | however many threads stop a link, the reason of the first swap is the one that stays |
| NetRuns.NothingFollowsClosed | src/net.rs:225-261 | after `Closed` no later step of any run queues a message or an event |
| NetRuns.WholeStopsAreNeverLate | src/net.rs:225-261 | with stop as one step the TCP reader never goes on after a drop |
| NetRuns.NoGapWhenStopsAreWhole | src/net.rs:225-261 | with stop as one step the reliable messages received and queued are a prefix of those decoded, in every run |
| NetRuns.NoGapIffNoneGetsInLate | src/net.rs:224-261 | in every run the reliable messages handed on are those decoded at increasing positions, and these are 0, 1, 2 and so on if and only if none got in after the TCP reader went on from a drop beside half a stop |
| NetRuns.GapStep | src/net.rs:225-240 | a step opens a gap exactly when it lets a reliable message in after such a drop |
| NetRuns.HalfAStopCanLeaveAGap | src/net.rs:249-261 | a run in which the game receives 1024 reliable messages and a short one, but not the long one decoded between them, because `open` was halfway through a stop |
| NetRuns.CallsAreRuns | src/net.rs:225-261 | uninterrupted, the steps of a reliable push, an unreliable push and a stop are the operations of the link |
| NetStream.FramesAreHandedOnInOrder | src/net.rs:622-652 | with the game, the UDP reader and any stops between the steps of the TCP reader, the frames handed on are the first of the uncut stream, all of them once the buffer holds none, and an error shows exactly where the uncut stream has one |
| NetStream.TheStreamArrivesInOrder | src/net.rs:622-718 | in the same runs the reliable messages received or still queued are messages of the uncut stream at increasing positions, and its first ones if there is no gap |
| NetStream.HandingIsHandleFrame | src/net.rs:678-718 | uninterrupted, handing on a frame and the stop after an overflow leave the link as `HandleFrame` does |
| NetStream.EveryRunIsSound | src/net.rs:622-652 | the invariant behind both, through every step of every run |
| NetStream.UnframeInTwo | src/net.rs:622-652 | what a stream holds is what its first part holds, then what the leftover makes with the rest |
| LobbyQueue.P2pState.Arm | src/p2p.rs:358-370 | polling becomes active unless it is unavailable, nothing else changes, and the flag agrees with it |
| LobbyQueue.P2pState.Retire | src/p2p.rs:461-465 | polling becomes unavailable, nothing else changes, and the flag falls |
| LobbyQueue.P2pState.Enter | src/p2p.rs:390-397 | the lobby is open, all others are as they were, none twice |
| LobbyQueue.P2pState.Exit | src/p2p.rs:399-402 | the lobby is not open, all others stay |
| LobbyQueue.P2pState.PollPeriod | src/p2p.rs:382-388 | never slower than the tick, and at most 5 s in a lobby |
| LobbyQueue.P2pState.TakeEvents | src/p2p.rs:404-407 | the whole queue is taken, in order |
| LobbyQueue.P2pState.EventsJson | src/p2p.rs:413-417 | the queue is rendered, with the number of its last event, which is the last number handed out |
| LobbyQueue.P2pState.Discard | src/p2p.rs:419-428 | exactly the events numbered up to the given one leave |
| LobbyQueue.P2pState.IngestOne | src/p2p.rs:438-457 | a replay changes nothing; any other event takes the next number, the oldest id and event making room |
| LobbyQueue.P2pState.Ingest | src/p2p.rs:433-458 | a batch is ingested event by event, and a non-empty cursor is kept |
| LobbyQueue.P2pState.PollOnce | src/p2p.rs:473-498 | an answer is ingested and its cursor kept if it has one; an unavailable feature retires polling silently, any other refusal changes nothing |
| LobbyQueue.IngestingKeeps | src/p2p.rs:433-458 | at most 256 events numbered without a gap up to the last number, at most 256 distinct ids, no lobby twice |
| LobbyQueue.IngestingInPieces | src/p2p.rs:433-458 | how events are split into batches makes no difference |
| LobbyQueue.WithoutForgets | src/p2p.rs:399-402 | leaving removes that lobby and no other |
| LobbyDedup.WindowIsTheLastAccepted | src/p2p.rs:438-446 | the window is exactly the last 256 accepted ids, without repeats |
| LobbyDedup.WindowIsIdealIffReplaysAreRecent | src/p2p.rs:430-458 | the window queues what an unbounded first-occurrence filter would, if and only if every replay comes after fewer than 256 further new ids |
| LobbyDedup.ReplayAfter | src/p2p.rs:438-446 | a replay of an event after n further new ids is queued again if n is at least 256 and dropped otherwise, for every n |
| LobbyDedup.ReplayAfter256IsKeptTwice | src/p2p.rs:438-446 | a replay after 256 further new ids is queued twice, one after 255 is not |
| LobbyDedup.KeepsAtLeastTheFirst | src/p2p.rs:438-446 | the window lets through at least as many events as the ideal filter, and with no more exactly the same |
| LobbyDedup.FirstOnlyHasEveryId | src/p2p.rs:430-432 | the ideal filter has every id of the stream exactly once |
| LobbyDedup.IngestTracks | src/p2p.rs:433-458 | numbers are positions among the kept events, and the queue holds the last of them |
| LobbyDedup.PollTracks | src/p2p.rs:473-498 | a poll adds to the stream a resync if the desktop app dropped events, then its events in order, and nothing if it is refused |
| LobbyDedup.GapIsTold | src/p2p.rs:487-493 | a reported gap always takes the next number, as a resync, in front of all the poll brought |
| LobbyDedup.KeptGrows | src/p2p.rs:433-458 | later events never change which ones were kept before |
| LobbyDedup.OpenUntilClosed | src/p2p.rs:448-450 | a lobby stays open until an event that is not dropped as a replay says it closed |
| LobbyDelivery.ExactlyOnce | src/p2p.rs:404-458 | in every interleaving, each numbered event is exactly one of delivered, pushed out unread by the cap, or queued; deliveries strictly increase |
| LobbyDelivery.EveryRunIsSound | src/p2p.rs:404-458 | the invariant behind it, through every step of every run, also in the middle of a read |
| LobbyDelivery.PollKeepsSound | src/p2p.rs:433-458 | polling between any two steps of a read keeps it |
| LobbyDelivery.CopyKeepsSound | src/ffi.rs:1128-1145 | so does handing over a snapshot the queue may have moved past |
| LobbyDelivery.DiscardKeepsSound | src/p2p.rs:419-428 | discarding by number drops no event that was queued in between |
| LobbyDelivery.IngestingMovesTheHead | src/p2p.rs:451-457 | events are pushed out only from a queue that is and stays full |
| NativeBuffer.WriteStr | src/ffi.rs:84-100 | a string is copied whole with its NUL or not at all; a short buffer is left an empty string |
| LobbyRead.LobbyEventsJson | src/ffi.rs:1128-1145 | one call of the getter is a run of the delivery steps; the text it hands over is that of every event queued when it rendered, in order, and exactly these are discarded |
| LobbyRead.Read | bindings/unity/com.arcane-powered.sdk/Runtime/Native/ArcaneBuffer.cs:68-91 | the growth loop ends; either the game got the text of the events of exactly the numbers then delivered, in order, or nothing was delivered and nothing is lost, as too small only past 4 MiB |
| LobbyRead.EventsAreTheNumbered | src/p2p.rs:413-417 | what is rendered is the event of each queued number, one by one |
| LobbyRead.CallRuns | src/ffi.rs:1128-1145 | a call with polls before its copy and before its discard leaves the polled queue without what it handed over |
| LobbyPolling.FlagAgreesWithState | src/p2p.rs:358-374 | under any interleaving of arming and polling, the flag says that polling is active whenever the lock is free |
| LobbyPolling.ArmedMeansActive | src/p2p.rs:358-374 | the same from the start on, in every run |
| LobbyPolling.RetiredForGood | src/p2p.rs:461-498 | from the refusal that retires polling, also before it has the lock, no poll is ever issued again, whoever arms; once retired polling stays unavailable |
| LobbyPolling.ArmingIsSteps | src/p2p.rs:358-370 | the steps of one call, uninterrupted, set polling and flag as the method does and change nothing else |
| LobbyPolling.RetiringIsSteps | src/session.rs:493-496 | so do those of a poll that is refused for good |
| Session.SessionInner.Frame | src/session.rs:217-221 | a frame counts exactly while a window is open |
| Session.SessionInner.PollWindow | src/session.rs:257-277 | with sampling on, a window that is due opens with no frame counted and one that is 30 s old ends, leaving a sample if it counted a frame; with sampling off it is thrown away; otherwise nothing changes |
| Session.SessionInner.CloseWindow | src/session.rs:279-310 | the next window is due 300 s after this one opened; a sample is left exactly if the window was given an end, counted a frame and lasted half a second, with its count, its seconds rounded to the nearest, an average that times them gives the count, and the id, time and settings of the moment |
| Session.SessionInner.KeepSample | src/session.rs:303-309 | a 17th sample pushes out the oldest |
| Session.SessionInner.SetFpsSampling | src/session.rs:312-318 | sampling is switched; switching off throws the open window away, and nothing else changes |
| Session.SessionInner.Acknowledge | src/session.rs:330-338 | exactly the samples sharing an id with a sent one leave, and nothing else changes |
| Session.SessionInner.Tick | src/session.rs:340-373 | an answered heartbeat leaves no sample waiting, makes the session active and switches sampling; an unknown session is started anew; without one a start is tried; any other failure changes nothing |
| Session.SessionInner.TryStart | src/session.rs:375-390 | a start that succeeds sets the session, makes it active and switches sampling, one that fails changes nothing |
| Session.SessionInner.End | src/session.rs:438-448 | the id and all samples are taken, and go out together or not at all |
| Session.UnsentKeepsTheRest | src/session.rs:330-338 | acknowledging keeps every sample whose id was not sent |
| Session.UnsentKeepsTheOrder | src/session.rs:330-338 | and keeps them in their order |
| Session.CloseTells | src/session.rs:279-310 | what closing a window leaves, from every state, as `CloseWindow` has it |
| Session.PollTells | src/session.rs:257-277 | what a poll of the window does, from every state |
| Session.TickTells | src/session.rs:340-390 | what a heartbeat or a start does, from every state |
| SessionWindows.FewWindowsOpen | src/session.rs:257-318 | over any polls, frames, heartbeats and toggling, at most 1 + (t - 60) / 300 windows opened by second t, none before 60, and every sample spans at least 30 s with a frame |
| SessionWindows.EveryRunIsSpaced | src/session.rs:257-318 | windows open at least 300 s apart in every run |
| SessionWindows.WindowsOpenWhenDue | src/session.rs:257-277 | a poll opens a window exactly if sampling is on, none is open, and 60 s have passed or 300 s since the last one opened; it ends one exactly at 30 s or with sampling off |
| SessionWindows.SpacingIsKept | src/session.rs:257-318 | every operation keeps the spacing |
| SessionWindows.SamplesStayWhole | src/session.rs:279-301 | every sample made is a whole window's |
| SessionWindows.SamplesAreQueued | src/session.rs:279-310 | the samples of the ledger are exactly those the session appends to its pending ones; no other operation appends any |
| SessionWindows.OpeningsAreLate | src/session.rs:257-277 | the i-th window opens no earlier than 60 + 300 i seconds |
| SessionFrames.EveryRunCounts | src/session.rs:217-310 | with the load, the add and the stores interleaved, every call is counted in at most one sample, all adds are accounted for, and the flag agrees with the window when the lock is free |
| SessionFrames.FramesAreCounted | src/session.rs:217-310 | from the start on: the frames of all samples, the counter and what was thrown away are the adds, and no call is in two samples |
| SessionFrames.CountingIsKept | src/session.rs:217-310 | every step keeps the accounts |
| SessionFrames.TakingIsCounted | src/session.rs:283-284 | taking the counter moves exactly the live calls into the sample |
| SessionFrames.OpeningIsThreeSteps | src/session.rs:270-273 | uninterrupted, the three stores are the opening of a window |
| SessionFrames.ClosingIsThreeSteps | src/session.rs:279-301 | uninterrupted, they are the closing, with a sample exactly when the session makes one |
| SessionFrames.FrameIsSteps | src/session.rs:217-221 | uninterrupted, the load and the add are a counted frame |
| SessionOutbox.EveryRunForgetsNone | src/session.rs:303-373 | every sample made waits, was carried by a successful heartbeat, was pushed out by the cap, or was taken by `end`, in every interleaving |
| SessionOutbox.NoSampleIsForgotten | src/session.rs:303-373 | the same from the start on, with at most 16 waiting and none of them acknowledged |
| SessionOutbox.MakeForgetsNone | src/session.rs:303-309 | making room for a sample drops only the oldest, and only at 16 |
| SessionOutbox.MakeIsKeepSample | src/session.rs:303-309 | and leaves the outbox as the end of a window does |
| SessionOutbox.AcknowledgeForgetsNone | src/session.rs:330-338 | with distinct ids acknowledging removes nothing outside the sent batch, also when `end` ran meanwhile |
| SessionOutbox.CrossedOffIsNotSentAgain | src/session.rs:330-373 | an acknowledged sample is in no later heartbeat of any run |
| SessionOutbox.TickIsThreeSteps | src/session.rs:340-373 | uninterrupted, the steps are the session's tick |
| SessionOutbox.FailedTickKeepsPending | src/session.rs:360-390 | a failed heartbeat or a start leaves the samples alone |
| SessionLoop.Run | src/session.rs:477-517 | the loop on the session and lobby objects does what its laps say, with what the game calls before each point where it reads what the game may have changed |
| SessionLoop.RunBody | src/session.rs:485-496 | one turn polls the window, sends a heartbeat when due and polls for lobby events when armed and due, in that order |
| SessionLoop.TicksAreApart | src/session.rs:486-489 | any two heartbeats start at least a tick period apart |
| SessionLoop.LapsAreApart | src/session.rs:501-515 | laps that no notification cut short are at least 50 ms apart |
| SessionLoop.WakesInTime | src/session.rs:467-515 | a wait ends at most 50 ms after the deadline, plus the time the body took |
| SessionLoop.TicksInTime | src/session.rs:477-517 | a heartbeat starts at most 50 ms after it is due, plus the time spent in loop bodies |
| SessionLoop.WindowsChangeInTime | src/session.rs:320-328 | so does a window that opens or closes |
| SessionLoop.DueIsDone | src/session.rs:477-490 | a heartbeat that is due moves the next one, and a window that is due changes when it is polled |
| SessionLoop.LapTells | src/session.rs:485-490 | a lap polls the window with the time it began at and then sends a heartbeat if one is due; only these and the game change the session |
| SessionLoop.HeartbeatIsDone | src/session.rs:486-489 | a due heartbeat starts a session if there is none, leaves no sample waiting if it is answered, and replaces a session the desktop app does not know; a lap without one changes none of this |
| SessionLoop.LapsOfARunDo | src/session.rs:477-517 | the laps of a run do this one after the other |
| SessionLoop.LobbyPollIsDone | src/session.rs:493-496 | a lap asks for lobby events exactly if polling is armed and due when it looks, and then the next poll is due after a tick, or 5 s in a lobby if that is less |
| SessionLoop.LobbyPollsInTime | src/session.rs:493-515 | a lobby poll that is armed has its chance at most 50 ms after it is due, plus the time the body took |
| SessionLoop.SleepsUntilDue | src/session.rs:501-515 | a wait that is not cut short ends only when a heartbeat, a window or an armed poll is due |
| JsonReader.Parse | bindings/unity/com.arcane-powered.sdk/Runtime/Json/ArcaneJson.cs:169-186 | one value with white space around it, and nothing else, as the functions read it |
| JsonReader.SkipWhitespace | bindings/unity/com.arcane-powered.sdk/Runtime/Json/ArcaneJson.cs:432-445 | the index stops at the first unit that is no white space |
| JsonReader.ParseValue | bindings/unity/com.arcane-powered.sdk/Runtime/Json/ArcaneJson.cs:203-231 | ends, keeps the index in the text, and reads what the functions read |
| JsonReader.ParseObject | bindings/unity/com.arcane-powered.sdk/Runtime/Json/ArcaneJson.cs:233-284 | the same for an object, the last of a name winning |
| JsonReader.ParseMember | bindings/unity/com.arcane-powered.sdk/Runtime/Json/ArcaneJson.cs:246-263 | the same for one member |
| JsonReader.ParseArray | bindings/unity/com.arcane-powered.sdk/Runtime/Json/ArcaneJson.cs:286-323 | the same for an array |
| JsonReader.ParseString | bindings/unity/com.arcane-powered.sdk/Runtime/Json/ArcaneJson.cs:325-390 | the same for a string |
| JsonReader.ParseEscape | bindings/unity/com.arcane-powered.sdk/Runtime/Json/ArcaneJson.cs:347-388 | the same for what follows a backslash |
| JsonReader.ParseNumber | bindings/unity/com.arcane-powered.sdk/Runtime/Json/ArcaneJson.cs:392-419 | the longest run of number units is taken, and an empty one refused |
| JsonReader.Expect | bindings/unity/com.arcane-powered.sdk/Runtime/Json/ArcaneJson.cs:421-430 | a literal is matched whole or refused |
| JsonCodes.EscapesMean | bindings/unity/com.arcane-powered.sdk/Runtime/Json/ArcaneJson.cs:358-367 | what each letter after a backslash stands for, all others being refused |
| JsonCodes.FourDigitsMean | bindings/unity/com.arcane-powered.sdk/Runtime/Json/ArcaneJson.cs:368-384 | four hexadecimal digits of either case stand for the number they write |
| JsonCodes.WhiteMayStandAround | bindings/unity/com.arcane-powered.sdk/Runtime/Json/ArcaneJson.cs:375-380 | white space may stand around fewer digits and nothing else may |
| JsonCodes.NulsMayStandBehind | bindings/unity/com.arcane-powered.sdk/Runtime/Json/ArcaneJson.cs:375-380 | NULs may stand behind the digits but not between or before them |
| JsonCodes.SpaceIs | bindings/unity/com.arcane-powered.sdk/Runtime/Json/ArcaneJson.cs:432-445 | exactly four characters may stand in front of a document |
| JsonCodes.NumberUnitsAre | bindings/unity/com.arcane-powered.sdk/Runtime/Json/ArcaneJson.cs:401-406 | exactly digits, dots, signs and e or E make a number |
| JsonCodes.WordsMean | bindings/unity/com.arcane-powered.sdk/Runtime/Json/ArcaneJson.cs:211-227 | the words and the shortest documents are read as what they are |
| JsonGrammar.ReadsExactlyDocuments | bindings/unity/com.arcane-powered.sdk/Runtime/Json/ArcaneJson.cs:169-446 | a text is read as a tree if and only if it spells a document that stands for that tree |
| JsonGrammar.DocumentsAreRead | bindings/unity/com.arcane-powered.sdk/Runtime/Json/ArcaneJson.cs:203-231 | any written document followed by anything that does not run on is read as what it stands for, up to its end |
| JsonGrammar.OnlyDocumentsAreRead | bindings/unity/com.arcane-powered.sdk/Runtime/Json/ArcaneJson.cs:203-231 | whatever is read was a document |
| JsonGrammar.PiecesAreRead | bindings/unity/com.arcane-powered.sdk/Runtime/Json/ArcaneJson.cs:325-390 | every spelling of a string is read as its characters |
| JsonGrammar.StringIsPieces | bindings/unity/com.arcane-powered.sdk/Runtime/Json/ArcaneJson.cs:325-390 | every string that is read is made of plain units and known escapes, and nothing else |
| JsonGrammar.MembersAreRead | bindings/unity/com.arcane-powered.sdk/Runtime/Json/ArcaneJson.cs:244-283 | members with any white space between their parts are read in order, the last of a name winning |
| JsonGrammar.ItemsAreRead | bindings/unity/com.arcane-powered.sdk/Runtime/Json/ArcaneJson.cs:297-322 | so are the items of an array |
| JsonTrees.EveryTreeIsRead | bindings/unity/com.arcane-powered.sdk/Runtime/Json/ArcaneJson.cs:169-446 | exactly the trees whose numbers are numbers have a text, and every text that spells a tree is read as that tree |
| JsonTrees.TreeHasDocument | bindings/unity/com.arcane-powered.sdk/Runtime/ArcaneLobbies.cs:892-942 | every tree has a document in the style of the writer, with its escaping for every string and no white space |
| JsonTrees.WriterIsInStyle | bindings/unity/com.arcane-powered.sdk/Runtime/ArcaneLobbies.cs:892-942 | what the writer makes of a dictionary is a document in that style |
| JsonWriter.AppendString | bindings/unity/com.arcane-powered.sdk/Runtime/ArcaneLobbies.cs:915-942 | a string is appended in quotes, each character in its spelling |
| JsonWriter.AppendObject | bindings/unity/com.arcane-powered.sdk/Runtime/ArcaneLobbies.cs:892-913 | pairs are appended as members between braces, commas only between them |
| JsonCodes.CharactersAreWritten | bindings/unity/com.arcane-powered.sdk/Runtime/ArcaneLobbies.cs:918-938 | how the writer spells each character |
| JsonCodes.CharactersAreWrittenInOrder | bindings/unity/com.arcane-powered.sdk/Runtime/ArcaneLobbies.cs:918-938 | one after the other |
| JsonWriter.WrittenObjectsAreRead | bindings/unity/com.arcane-powered.sdk/Runtime/ArcaneLobbies.cs:892-942 | any dictionary of strings, in any order of enumeration, is read back as itself |
| JsonWriter.WrittenStringsAreRead | bindings/unity/com.arcane-powered.sdk/Runtime/ArcaneLobbies.cs:915-942 | any string is read back as itself, whatever follows it |
| Metadata.MetadataArg | src/p2p.rs:963-1002 | the first wrong pair is reported; otherwise too many pairs, then too many bytes, else the map of the pairs |
| Metadata.BytesFollowTheRule | src/p2p.rs:953-959 | the byte check is the rule of 1 to 32 characters of a-z, 0-9 and _ |
| Metadata.KeysFollowTheRule | src/p2p.rs:953-959 | the rule written out: 1 to 32 of a-z, 0-9 and _ |
| Metadata.FirstFaultIsReported | src/p2p.rs:966-981 | what is reported is what is wrong with the first pair that breaks a rule, its key before its value |
| Metadata.LastPairCounts | src/p2p.rs:982 | a key has the value of the last pair that has it |
| Metadata.CodePoints | bindings/unity/com.arcane-powered.sdk/Runtime/ArcaneLobbies.cs:859-871 | the units that are no low surrogates are counted |
| Metadata.CodePointsAreChars | bindings/unity/com.arcane-powered.sdk/Runtime/ArcaneLobbies.cs:859-871 | on well-formed UTF-16 that count is the number of characters Rust counts |
| Metadata.IsMetadataKeyUnits | bindings/unity/com.arcane-powered.sdk/Runtime/ArcaneLobbies.cs:873-890 | a key is 1 to 32 units, all of them allowed |
| Metadata.TryCheckMetadata | bindings/unity/com.arcane-powered.sdk/Runtime/ArcaneLobbies.cs:829-857 | accepts no dictionary, or one of at most 16 entries all valid and not null |
| Metadata.DistinctKeysAreCounted | src/p2p.rs:984-989 | as many pairs as the map has entries, when keys are distinct |
| Metadata.BothChecksAgree | bindings/unity/com.arcane-powered.sdk/Runtime/ArcaneLobbies.cs:829-890 | the C# check accepts exactly what the Rust checks on pairs and on their number accept |
| Unicode.Utf8IsInjective | src/p2p.rs:1295-1306 | different strings have different bytes, so no two values share an encoding |
| Unicode.Utf8Layout | src/p2p.rs:1297 | the bytes are those of RFC 3629, section 3 |
| Unicode.Utf16Layout | bindings/unity/com.arcane-powered.sdk/Runtime/ArcaneLobbies.cs:859-871 | the units are those of RFC 2781, section 2.1 |
| Query.EncodeQuery | src/p2p.rs:1295-1306 | the value's UTF-8 bytes, percent-encoded one by one |
| Query.ByteIsWritten | src/p2p.rs:1298-1303 | an unreserved byte is written as itself, any other as a percent sign and two upper-case digits |
| Query.BytesAreWrittenInOrder | src/p2p.rs:1297-1304 | one after the other |
| Query.DecodingInvertsEncoding | src/p2p.rs:1293-1306 | percent-decoding gives the bytes back, and nothing in the encoding divides a query |
| Query.SearchPath | src/p2p.rs:1004-1013 | whoever cuts the path at `?`, `&` and `=` and decodes gets the route of the game, has_free_slot true or false as asked, the limit in decimal without leading zeros, and for each key of the filters in turn its value |
| Query.SearchPathTells | src/p2p.rs:1004-1013 | the same of the path as a function of the search |
| Query.SearchPathIsRead | src/p2p.rs:1004-1013 | cutting a search path at `?`, `&` and `=` and decoding gives the base and exactly those fields |
| Query.SearchPathDeterminesQuery | src/p2p.rs:1004-1013 | equal search paths have equal game ids, options and filter maps |
| Query.FieldsAreRead | src/p2p.rs:1004-1013 | any fields with plain names, and any bytes as values, are read back |
| Query.AcceptedKeysAreKeys | src/p2p.rs:963-1002 | every filter the metadata checks accept meets what the search path needs |
| Query.EventsPath | src/p2p.rs:1285-1291 | the route of the game without a query if there is no cursor, and with one field that decodes to the cursor's bytes if there is |
| Query.EventsPathDeterminesCursor | src/p2p.rs:1285-1291 | equal event paths have equal cursors, none included |
| Calendar.DaysCountTheWalk | src/achievements.rs:426-433 | a date's count is n if and only if n single days lead from 1970-01-01 to it, forwards or back |
| Calendar.NextDayAddsOne | src/achievements.rs:426-433 | the next valid date counts exactly one more, for every year, negative ones included |
| Calendar.WalkCounts | src/achievements.rs:426-433 | every walk ends on a valid date with the count it took |
| Calendar.EpochIsZero | src/achievements.rs:424-433 | 1970-01-01 is day 0 |
| Calendar.DaysStrictlyMonotone | src/achievements.rs:426-433 | later dates count more |
| Calendar.FourCenturies | src/achievements.rs:426-433 | 400 years are 146097 days |
| Calendar.ClosedForm | src/achievements.rs:426-433 | with Rust's truncating division the count is that of floor division |
| Rfc3339.InstantIsRead | src/achievements.rs:365-422 | every date-time of RFC 3339, section 5.6, on a day that exists, with any fraction, offset and surrounding white space, is read as its Unix instant; so is any other stamp the reader takes on such a day |
| Rfc3339.ReadsExactlyStamps | src/achievements.rs:365-422 | on every string: an instant is answered if and only if the string spells a stamp the reader takes, and it is that stamp's instant |
| Rfc3339.ReadIsStamp | src/achievements.rs:365-422 | whatever is read is such a stamp, written exactly so |
| Rfc3339.OneStampAString | src/achievements.rs:365-422 | a string spells at most one stamp |
| Rfc3339.DateTimesAmongStamps | src/achievements.rs:365-422 | a string that is read is a date-time of section 5.6 if and only if its stamp has no signs, full widths, no empty fraction, a time of day and a zone |
| Rfc3339.WellFormedIsReadable | src/achievements.rs:365-422 | every date-time of section 5.6 is one the reader takes |
| Rfc3339.SpellingsAgree | src/achievements.rs:365-422 | two spellings read alike if and only if they are the same instant |
| Rfc3339.WrittenDayIsReadIffItExists | src/achievements.rs:379-391 | of every string that is read, the seconds are counted from the midnight of the written day if and only if its month has that day, and the answer falls on that day in local time if and only if moreover its seconds are 0 to 86399 |
| Rfc3339.LastOfFebruaryIsReadAsMarch | src/achievements.rs:379-381 | 2023-02-31T00:00:00Z is read as 3 March 2023 |
| Rfc3339.HourBelowZeroIsTheDayBefore | src/achievements.rs:386-391 | 2023-01-01T-1:00:00Z is read as 23:00 of 31 December 2022 |
| Rfc3339.ExamplesAreRead | src/achievements.rs:365-422 | the first two examples of section 5.8, one with a fraction and one with an offset, are read as their instants |
| Rfc3339.LooseStampsAreRead | src/achievements.rs:365-422 | a stamp without a zone, one with an empty fraction and one with signs are read |
| Rfc3339.WhiteSpaceIs | src/achievements.rs:366 | what is trimmed is the characters with the property White_Space |
| Rfc3339.AnswerFitsI64 | src/achievements.rs:365-422 | on any string at all the answer fits 64 bits |
| Rfc3339.DateReads | src/achievements.rs:370-381 | the date of any stamp the reader takes is split and read as its numbers |
| Rfc3339.TimeReads | src/achievements.rs:383-391 | so is the time, a leap second allowed |
| Rfc3339.ZoneReads | src/achievements.rs:403-422 | every zone is read as the seconds local time is ahead |
| Rfc3339.SpellingReads | src/achievements.rs:365-400 | trimming, the fraction and the slices give the written fields |

## Left out

- HTTP, sockets, DNS, deep links and environment variables: every answer is a parameter or a step that may go either way.
- serde: parsing an event frame (`Json`), rendering events (`render`) and the JSON size of metadata (`jsonBytes`) are parameters.
- Memory orderings weaker than interleaving for the relaxed atomics `armed`, `window_open` and `frames`.
- NetLink.ReadTcp: is the reader alone on its link; steps of other threads between its own are in `NetStream`, where the reader may go on reading after a stop, as one between two looks at `running` does.
- NetLink.Link.DiscardEvents: counts positions on one link; across an `open`, which replaces the link, or with two consumers, nothing is claimed.
- NetRuns.NoGapWhenStopsAreWhole: takes a stop as one step; `NetRuns.NoGapIffNoneGetsInLate` is the condition for all runs.
- LobbyDelivery.ExactlyOnce: is for one consumer, which reads and discards before it reads again.
- LobbyRead.Read: the session thread polls before the copy and before the discard of each call; more polls between two steps are in `LobbyDelivery`.
- SessionLoop.TicksInTime: claims no prompt wake-up, since a notification just before the wait is lost; how late the condition variable returns is `overshoot`.
- SessionLoop.Run: takes each heartbeat and each lobby poll as one step; what other threads do during their calls is in `SessionOutbox`, `SessionFrames` and `LobbyDelivery`.
- SessionOutbox.EveryRunForgetsNone: takes fresh ids for new samples, as random UUIDs are meant to be.
- SessionFrames.EveryRunCounts: counts without bound; the 64-bit wrap-around of the counter is not modelled.
- LobbyQueue.P2pState.PollPeriod: says nothing of when the first poll after entering a lobby comes; `next_poll` is recomputed only after a poll.
- A session started while `end` runs, whose id nobody ends.
- Floating point: window lengths are rounded on exact nanoseconds, halves away from zero, and averages are reals.
- 64-bit wrap-around of event numbers and of durations.
- `last_error`, graphics settings, snapshots, played seconds and `Debug` output.
- JsonReader.Parse: leaves out the null text, the wording of exceptions, stack depth on deep nesting, and the accessors of the tree.
- JsonGrammar.ReadsExactlyDocuments: documents are what this reader takes, which is more than section 2 of RFC 8259 allows: signs and dots anywhere in a number, control characters in strings, a comma-separated list whose names repeat, and `\u` escapes with white space or NULs where .NET's hexadecimal `int.TryParse` documents it.
- Metadata.TryCheckMetadata: leaves out the wording of its errors; strings with lone surrogates are outside `Metadata.BothChecksAgree`.
- Metadata.BothChecksAgree: leaves the 2048-byte total to Rust, where alone it is checked.
- Query.SearchPath: takes the iteration order of the map as a parameter, whichever it is.
- The clamping of `limit`, the shapes of lobby answers, ownership, tickets, achievements caches, device ids, cryptography and base64.
- The JavaScript bridge, Unity lifecycle and editor code, samples, error tables and P/Invoke declarations: they would only add easy members.
