# Verified model of the Gomoku server

A Dafny model of the event-driven network library, the database connection pool and the game logic of the
server, and proofs about them. `dafny verify dfyconfig.toml` checks everything.

| file | what it models |
|---|---|
| `TimerWheel.dfy`, `Deadlines.dfy` | the 60-slot timer wheel of counted references, and the plain map of deadlines it stands for |
| `EventLoop.dfy`, `LoopProtocol.dfy` | the queue and wake-up of an event loop, and all interleavings of its atomic actions with other threads |
| `Buffer.dfy` | the byte buffer as an array with two indices, proved to be a byte queue |
| `Poller.dfy` | channels, the epoll wrapper and the interest set the kernel keeps |
| `TcpConnection.dfy`, `Outbound.dfy` | the sending side and half-close of a connection, and the stream it promises |
| `Server.dfy`, `Lifecycle.dfy`, `ConnectionLives.dfy` | a server, its connections, channels, pollers and timers over the main loop and any number of I/O loops; what that means for one connection among the others |
| `Effects.dfy` | what each action of a server does to its connection: which dispatch closes, what accepting and each queued call leave behind |
| `IdleRelease.dfy` | the life cycle and the wheels of the loops together: dispatches refresh timers, dropped timers shut connections down |
| `MysqlPool.dfy` | the connection pool with its producer and its scanner |
| `Gomoku.dfy` | the board, the check around the last stone, and the scan of the whole board it replaces |
| `Users.dfy`, `Rooms.dfy`, `Matching.dfy`, `Lobby.dfy` | users logged in, rooms, match queues and handlers, and the lobby they form as a value |
| `Framing.dfy` | length-prefixed messages: building, dispatching, and streams of them cut into segments |

Where the source updates objects in place the model has classes whose methods are tied to a step of a value-level
description; the results about whole runs are lemmas about that description, and a method runs the objects
through any sequence of steps (`RunWheel`, `RunBuffer`, `RunConnection`, `RunServer`, `RunLobby`). What the kernel, the clock,
other threads and clients do is a parameter.

Several promises of the source hold only under a condition. For these the model keeps what the code does and
states the exact condition: when a timer misses its promised tick (`HopIsPeriodIffNoWrap`,
`FiresPeriodAfterLastTouch`), when queued work is not announced (`WakeupLostIffQueuedOutside`), when a quit is
forgotten (`QuitSurvivesIff`), when bytes are lost (`LossIsPeerGone`), when a connection is closed twice
(`DisconnectedOnceIffNoDoubleClose`, `DisconnectedOnceIffClosedCleanly`), when a scan misses an expired connection
(`ScanMissesIff`) or reads the front of an empty queue (`ScanConnections`), when covering a stone hides a win
(`OverwriteCheckIff`), when two logins make the user maps disagree (`AddKeepsInverseIff`), when a login, a lost
connection or a late win breaks the match queues (`LoginKeepsIff`, `LogoutKeepsIff`, `ScoreKeepsIff`), and which
segmentations of the input stream the dispatcher survives (`StreamArrivesIff`). Each that can
fail is shown to, by an input or a run; the queue of the connection pool stays in order, so its scans miss nothing.

Three places of the source are modelled as they are meant. `removeUser` calls `passiveRemoveRoom` while it holds the
lock that function takes (`GameRoomManager.cc:59,73`): one critical section here. `_roomCount` is never set
(`GameRoomInfo.cc:3-7`): a room starts with 2. `removeOnlineUser` reads an entry after erasing it
(`UserManager.cc:28-29`): it is read before. `_enable_inactive_release_` of a connection has no initial value
(`TcpConnection.cc:20-36`), and the model allows any. Comments and code disagree about `ProtocolDispatcher.cc:39`: the
comment says a whole message is there, the comparison asks for at most one; the model follows the comparison.

## Model

| member | source | states |
|---|---|---|
| `TimerWheels.RunWheel` | GomukuServer/MyMuduo/TimerWheel.cc:75-133 | Over every run of adds, refreshes, cancels and expirations the 60-slot wheel of counted references behaves as the deadline map `Deadlines.Run`: same live ids, due ticks, cancel flags and callbacks. |
| `TimerWheels.TimerWheel.constructor` | GomukuServer/MyMuduo/TimerWheel.cc:24-34 | A new wheel is the empty deadline map at tick 0. |
| `TimerWheels.TimerWheel.TimerTaskAddInLoop` | GomukuServer/MyMuduo/TimerWheel.cc:101-107 | Adding under an id that is not live gives it the due tick `now + Hop(now, delay)`, with the 32-bit sum and the wrap it can have; nothing else changes. |
| `TimerWheels.TimerWheel.PushReference` | GomukuServer/MyMuduo/TimerWheel.cc:105 | One more reference moves the due tick of a task to the later of the old one and the tick at which the chosen slot is cleared next. |
| `TimerWheels.TimerWheel.TimerTaskRefreshInLoop` | GomukuServer/MyMuduo/TimerWheel.cc:109-119 | A refresh extends the due tick of a live id and changes nothing for an unknown one; the weak entry it locks always has its task. |
| `TimerWheels.TimerWheel.TimerTaskCancelInLoop` | GomukuServer/MyMuduo/TimerWheel.cc:121-133 | A cancel sets the flag of a live id, leaves its due tick alone, and changes nothing for an unknown one. |
| `TimerWheels.TimerWheel.TimerTaskIsExist` | GomukuServer/MyMuduo/TimerWheel.cc:55-63 | True exactly while the id has a deadline still to come. |
| `TimerWheels.TimerWheel.ClearSlot` | GomukuServer/MyMuduo/TimerWheel.cc:78 | Emptying the slot reference by reference destroys exactly the tasks whose due tick this is, each callback running once, and no task that still has a reference elsewhere. |
| `TimerWheels.TimerWheel.WheelRunOne` | GomukuServer/MyMuduo/TimerWheel.cc:75-79 | One step of the hand is one tick of the deadline map. |
| `TimerWheels.TimerWheel.OnTime` | GomukuServer/MyMuduo/TimerWheel.cc:92-99 | Reading n expirations (none if the number is negative, any number beyond 60) fires exactly the uncancelled deadlines of the next n ticks, logged in order of deadline. |
| `TimerWheels.TimerWheel.WeakMapAgreesWithReferences` | GomukuServer/MyMuduo/TimerWheel.cc:70-73 | A task is in the weak map if and only if some slot still holds a reference to it. |
| `TimerWheels.HopReachesSlot` | GomukuServer/MyMuduo/TimerWheel.cc:105 | The slot chosen with 32-bit arithmetic is cleared next exactly `Hop` ticks from now. |
| `TimerWheels.PushKeepsAgreement` | GomukuServer/MyMuduo/TimerWheel.cc:105-118 | Pushing a reference keeps slots, weak map and due ticks in agreement. |
| `TimerWheels.ClearKeepsAgreement` | GomukuServer/MyMuduo/TimerWheel.cc:75-79 | Clearing the next slot and dropping the tasks that are due keeps them in agreement one tick later. |
| `TimerWheels.DueTasksOnlyInNextSlot` | GomukuServer/MyMuduo/TimerWheel.cc:75-79 | A task due at the next tick is referenced in the next slot and nowhere else; every other live task is referenced elsewhere. |
| `Deadlines.HopIsPeriodIffNoWrap` | GomukuServer/MyMuduo/TimerWheel.cc:105 | The wheel picks the intended tick, the delay folded into 1 to 60, if and only if the sum of tick and delay does not wrap around 2^32. |
| `Deadlines.PromiseIsBroken` | GomukuServer/MyMuduo/TimerWheel.cc:105 | A run in which it does not: the longest delay, added after one tick, is due at tick 60 instead of 16. |
| `Deadlines.FiresPeriodAfterLastTouch` | GomukuServer/MyMuduo/TimerWheel.cc:101-119 | An uncancelled task added or refreshed at tick T with delay d, then left alone, fires exactly once, at its due tick, and lives exactly until then; that tick is T + ((d - 1) mod 60) + 1 if and only if the 32-bit sum does not wrap around and no earlier reference lies later (or an earlier reference makes up for the wrap), as always for delays 60 below 2^32. |
| `Deadlines.LiveTaskFiresOnceAtDue` | GomukuServer/MyMuduo/TimerTask.cc:11-18 | In any run that leaves it alone a live task fires at its due tick, once and not earlier, or never if it was cancelled. |
| `Deadlines.DeadTaskStaysSilent` | GomukuServer/MyMuduo/TimerWheel.cc:109-119 | A task whose last reference is gone never fires again unless it is added again. |
| `Deadlines.CancelledNeverFires` | GomukuServer/MyMuduo/TimerWheel.cc:121-133 | A task cancelled while live never fires, whatever refreshes follow. |
| `Deadlines.CancelSilences` | GomukuServer/MyMuduo/TimerWheel.cc:121-133 | A cancel of a live task silences it for good. |
| `Deadlines.RefreshedInTimeNeverFires` | GomukuServer/MyMuduo/TimerWheel.cc:109-119 | A task of 1 to 60 ticks refreshed before every gap of that length runs out never fires. |
| `Deadlines.TicksAdd` | GomukuServer/MyMuduo/TimerWheel.cc:92-99 | m ticks and then n ticks are m + n ticks: batching loses and repeats nothing. |
| `Deadlines.RunKeepsWellFormed` | GomukuServer/MyMuduo/TimerWheel.cc:75-119 | In every run each live task is due within one turn of the wheel, and within its folded delay if the delay stays 60 below 2^32. |
| `LoopProtocol.NoLostWakeup` | GomukuServer/MyMuduo/EventLoop.cc:59-140 | In every interleaving, a loop about to block finds the eventfd readable or another thread just about to write it, if a quit is requested or anything is pending besides what its own thread queued outside `loop()`. |
| `LoopProtocol.WakeupLostIffQueuedOutside` | GomukuServer/MyMuduo/EventLoop.cc:105-116 | The exact condition: with nobody signalling at `poll`, work is pending if and only if the history has an action of the loop's own thread that queues outside `loop()` with no batch swapped since, and then nothing else is pending. |
| `LoopProtocol.ReadableIffWokenSince` | GomukuServer/MyMuduo/EventLoop.cc:105-140 | In every interleaving the eventfd is readable if and only if some wake-up, by another thread or by the loop's own in a drain, has not been read since: wake-ups that were read do not keep the loop from blocking. |
| `LoopProtocol.CallingIffInDrain` | GomukuServer/MyMuduo/EventLoop.cc:158-173 | The flag that makes the loop's own thread wake itself is up exactly from the start of a drain to its end. |
| `LoopProtocol.QueuedOutsideIsNotAnnounced` | GomukuServer/MyMuduo/EventLoop.cc:112 | The failing case is reachable: queue from the owning thread, then enter `loop()`. |
| `LoopProtocol.QuitSurvivesIff` | GomukuServer/MyMuduo/EventLoop.cc:59-88 | In every run a quit stands if and only if one was requested and `loop()` was not entered after it. |
| `LoopProtocol.ReturnsIffQuitStands` | GomukuServer/MyMuduo/EventLoop.cc:66-79 | At its test `loop()` returns if and only if such a quit stands, and otherwise goes to block. |
| `LoopProtocol.RoundOfTheLoop` | GomukuServer/MyMuduo/EventLoop.cc:66-79 | The loop thread goes round in the order test, poll, dispatch, drain, and a drain ends only with its batch. |
| `LoopProtocol.EachRoundRunsWhatWasQueued` | GomukuServer/MyMuduo/EventLoop.cc:66-78 | When the loop tests, blocks again or returns, everything that was queued when `poll` last returned has been started. |
| `LoopProtocol.QuitBeforeLoopIsForgotten` | GomukuServer/MyMuduo/EventLoop.cc:62 | A quit before `loop()` is overwritten on entry, and the loop blocks. |
| `LoopProtocol.FunctorsRunOnceInOrder` | GomukuServer/MyMuduo/EventLoop.cc:105-116 | At every point what the threads pushed, read off the history, is what has run, what is left of the batch and what is pending, in this order. |
| `LoopProtocol.DrainIsBounded` | GomukuServer/MyMuduo/EventLoop.cc:158-173 | While a batch is drained all that is queued goes to a later batch, so a batch of n functors ends after n of them. |
| `LoopProtocol.RunKeepsInvariant` | GomukuServer/MyMuduo/EventLoop.cc:59-173 | The invariant behind these results holds in every interleaving of the loop thread and any number of other threads. |
| `LoopProtocol.StepKeepsAnnounced` | GomukuServer/MyMuduo/EventLoop.cc:81-140 | No single atomic action loses an announcement. |
| `EventLoops.EventLoop.QueueInLoop` | GomukuServer/MyMuduo/EventLoop.cc:105-116 | On the owning thread it is the push followed by the decision about the wake-up, on any other the push followed by a wake-up. |
| `EventLoops.EventLoop.Quit` | GomukuServer/MyMuduo/EventLoop.cc:81-88 | The quit store, followed by a wake-up from any other thread. |
| `EventLoops.EventLoop.Wakeup` | GomukuServer/MyMuduo/EventLoop.cc:131-140 | Afterwards the eventfd is readable, even when its counter is full and the write fails. |
| `EventLoops.EventLoop.HandlerRead` | GomukuServer/MyMuduo/EventLoop.cc:119-128 | The eventfd is zero afterwards, the step that `ReadableIffWokenSince` is about, so the loop can block again. |
| `EventLoops.EventLoop.DoPendingFunctor` | GomukuServer/MyMuduo/EventLoop.cc:158-173 | Exactly what was pending on entry runs, in order; what functors queue, and what other threads queue after each of them, waits in order for the next batch; the whole is a run of the step system. |
| `Buffers.RunBuffer` | GomukuServer/MyMuduo/Buffer.h:41-100 | Over runs of any length, with reads of whatever size the buffer has room for, the buffer is a byte queue, its indices lie where the layout says, and if m bounds readable plus requested length its vector never exceeds max(8 + initial size, 7 + 2m). |
| `Buffers.LayoutStaysProper` | GomukuServer/MyMuduo/Buffer.h:41-106 | Every operation keeps 8 <= reader <= writer <= size and the size within max(before, 7 + 2m). |
| `Buffers.LargestFirstRead` | GomukuServer/MyMuduo/Buffer.cc:20-22 | The first read of a buffer is covered if and only if it fits into its initial size and 64K of stack space. |
| `Buffers.QueueConserves` | GomukuServer/MyMuduo/Buffer.h:41-72 | What was put in is what was taken out followed by what is left: no byte lost, invented or reordered. |
| `Buffers.Buffer.constructor` | GomukuServer/MyMuduo/Buffer.h:19-24 | A new buffer holds nothing and has 8 bytes in front of its initial size. |
| `Buffers.Buffer.Retrieve` | GomukuServer/MyMuduo/Buffer.h:41-47 | Drops exactly a prefix, or everything when asked for at least what is there. |
| `Buffers.Buffer.RetrieveAsString` | GomukuServer/MyMuduo/Buffer.h:51-56 | Hands out and drops exactly a prefix; asked for more, the string starts with all that was readable and goes on with stale bytes. |
| `Buffers.Buffer.RetrieveAllAsString` | GomukuServer/MyMuduo/Buffer.h:57 | Hands out everything readable and leaves the buffer empty. |
| `Buffers.Buffer.EnsureWriteableBytes` | GomukuServer/MyMuduo/Buffer.h:60-64 | Makes the requested room without touching what is readable; the vector grows only if compaction would not do. |
| `Buffers.Buffer.MakePlace` | GomukuServer/MyMuduo/Buffer.h:87-106 | The choice between growing and compacting keeps the contents and makes the room. |
| `Buffers.Buffer.MoveToFront` | GomukuServer/MyMuduo/Buffer.h:97 | The overlapping forward copy is correct, and it only runs when the reader index lies beyond its target. |
| `Buffers.Buffer.Append` | GomukuServer/MyMuduo/Buffer.h:67-72 | Extends the contents by exactly the data, within the space bound. |
| `Buffers.Buffer.Readfd` | GomukuServer/MyMuduo/Buffer.cc:7-39 | Whatever the kernel hands over, spilled or not, extends the contents by exactly those bytes; an error changes nothing. |
| `Pollers.InterestsAreIndependent` | GomukuServer/MyMuduo/Channel.h:46-75 | Switching one interest on or off does that and leaves the other as it was. |
| `Pollers.InterestBits` | GomukuServer/MyMuduo/Channel.cc:6-9 | In bits: reading is watching for input or urgent data, 1 and 2, and writing for room, 4; each operation sets or clears its own bits and no others. |
| `Pollers.Channel.EnableReading` | GomukuServer/MyMuduo/Channel.h:46-50 | Adds the read interest, and kernel and registration state follow. |
| `Pollers.Channel.EnableWriting` | GomukuServer/MyMuduo/Channel.h:56-60 | Adds the write interest, and kernel and registration state follow. |
| `Pollers.Channel.DisableReading` | GomukuServer/MyMuduo/Channel.h:51-55 | Takes the read interest away, and kernel and registration state follow. |
| `Pollers.Channel.DisableWriting` | GomukuServer/MyMuduo/Channel.h:61-65 | Takes the write interest away, and kernel and registration state follow. |
| `Pollers.Channel.DisableAll` | GomukuServer/MyMuduo/Channel.h:66-70 | Empties the mask, and kernel and registration state follow. |
| `Pollers.Channel.Remove` | GomukuServer/MyMuduo/Channel.cc:39-42 | The channel is new again and its descriptor unknown to poller and kernel. |
| `Pollers.EPollPoller.UpdateChannel` | GomukuServer/MyMuduo/EPollPoller.cc:81-107 | After it the kernel has exactly the current mask, or nothing if an added channel has an empty mask; other descriptors are untouched, and no kernel call is ever refused. |
| `Pollers.EPollPoller.RemoveChannel` | GomukuServer/MyMuduo/EPollPoller.cc:110-123 | Takes the descriptor out of map and kernel set and nothing else. |
| `Pollers.EPollPoller.EpollCtl` | GomukuServer/MyMuduo/EPollPoller.cc:140-165 | The kernel set changes as asked; callers never add what is present nor modify or delete what is absent. |
| `Pollers.EPollPoller.HasPoller` | GomukuServer/MyMuduo/Poller.cc:9-13 | True exactly for a channel that is not new. |
| `Pollers.EPollPoller.KernelMirrorsChannels` | GomukuServer/MyMuduo/EPollPoller.cc:81-123 | Added if and only if the kernel watches the descriptor with exactly the channel's mask; deleted means absent with an empty mask. |
| `TcpConnections.RunConnection` | GomukuServer/MyMuduo/TcpConnection.cc:53-156 | Every run of loop-thread events, with whatever the kernel answers, is a run of the outbound stream: the data of all sends between establishment and the first shutdown or close is accepted, and is what was written followed by what waits unless some was lost; the callbacks queued and the shutdown of the write side are those the events call for. |
| `TcpConnections.TcpConnection.SendInLoop` | GomukuServer/MyMuduo/TcpConnection.cc:75-135 | A send on a connection that is not disconnected is one step of the outbound stream. |
| `TcpConnections.TcpConnection.WriteDirectly` | GomukuServer/MyMuduo/TcpConnection.cc:80-117 | With nothing waiting the data is offered to the socket; how much it took, and whether the peer is gone. |
| `TcpConnections.TcpConnection.BufferRest` | GomukuServer/MyMuduo/TcpConnection.cc:119-134 | What the socket did not take is buffered in order and the write interest set, with one high-water callback when the mark is crossed; nothing is buffered when the peer is gone. |
| `TcpConnections.TcpConnection.Send` | GomukuServer/MyMuduo/TcpConnection.cc:53-72 | A connected connection accepts all of the data, whether bytes wait or not, and every byte accepted is written, waiting or lost; any other connection accepts nothing. |
| `TcpConnections.TcpConnection.HandleWrite` | GomukuServer/MyMuduo/TcpConnection.cc:203-234 | What the socket takes leaves the buffer from the front; the write that drains it ends the write interest and carries out a waiting shutdown. |
| `TcpConnections.TcpConnection.Shutdown` | GomukuServer/MyMuduo/TcpConnection.cc:138-156 | A connected connection stops accepting and shuts its write side down now, or when the buffer has drained. |
| `TcpConnections.TcpConnection.ConnectEstablished` | GomukuServer/MyMuduo/TcpConnection.cc:159-163 | Connected, reading, and watched by the kernel. |
| `TcpConnections.TcpConnection.HandlerClose` | GomukuServer/MyMuduo/TcpConnection.cc:236-240 | Disconnected with an empty interest mask. |
| `Outbound.OutboundStreamIsConserved` | GomukuServer/MyMuduo/TcpConnection.cc:53-156 | Over every run accepted bytes are written bytes followed by buffered ones if and only if nothing was lost; the write interest is on exactly while bytes wait; the write side is shut down at most once, after every accepted byte was written. |
| `Outbound.AcceptedIsWhatWasSent` | GomukuServer/MyMuduo/TcpConnection.cc:53-62 | From the events alone: accepted is the data of exactly the sends after establishment and before the first shutdown or close, and the state of the connection is told by which of these have happened. |
| `Outbound.SendTo` | GomukuServer/MyMuduo/TcpConnection.cc:75-135 | Where the bytes of a send go: behind what waits; with nothing waiting, what the socket takes is written and the rest waits, or is lost if the peer is gone. |
| `Outbound.WritableTakes` | GomukuServer/MyMuduo/TcpConnection.cc:203-234 | While bytes wait on a connection that is not closed a writable socket takes them from the front, and otherwise nothing happens. |
| `Outbound.CallbacksQueued` | GomukuServer/MyMuduo/TcpConnection.cc:87-128 | Over every run exactly these callbacks are queued: write-complete when an event leaves nothing to write, high-water when what waits crosses the mark upwards, with its length. |
| `Outbound.ShutDownIffDrained` | GomukuServer/MyMuduo/TcpConnection.cc:138-156 | The write side has been shut down if and only if at some time after a shutdown was asked for and before a close nothing waited. |
| `Outbound.LossIsPeerGone` | GomukuServer/MyMuduo/TcpConnection.cc:104-116 | The exact condition for a loss: a send of something on a connected connection with nothing waiting, answered by EPIPE or ECONNRESET. |
| `Outbound.LossIsReachable` | GomukuServer/MyMuduo/TcpConnection.cc:104-116 | It happens on the first byte sent on a new connection. |
| `Outbound.NothingAfterShutdown` | GomukuServer/MyMuduo/TcpConnection.cc:138-156 | After the write side is shut down nothing is accepted or written any more. |
| `Outbound.DrainCarriesOutShutdown` | GomukuServer/MyMuduo/TcpConnection.cc:212-222 | A shutdown waiting for the buffer is carried out by the write that drains it and by no earlier one. |
| `Outbound.RunKeepsInvariant` | GomukuServer/MyMuduo/TcpConnection.cc:53-234 | The invariant behind these results holds in every run. |
| `ConnectionLives.LivesAlone` | GomukuServer/MyMuduo/TcpServer.cc:62-119 | Connections do not interfere: what any run leaves of a connection, its map entries and the calls queued about it is what the actions about it leave on a server of its own. |
| `ConnectionLives.ConnectionLivesOnce` | GomukuServer/MyMuduo/TcpConnection.cc:159-181 | In every interleaving of main and I/O loops, whatever happens to other connections, a connection not closed twice is told connected once, disconnected at most once after that, destroyed at most once after that; both server maps agree; closed, the kernel no longer watches it; destroyed, it is in neither map and its channel is new. |
| `ConnectionLives.EachCloseIsDestroyedOnce` | GomukuServer/MyMuduo/TcpServer.cc:105-119 | After its close exactly one of three holds for a connection: destruction has run, or one removal waits in the main loop, or one destruction waits in its I/O loop. |
| `ConnectionLives.EachConnectionIsBroughtUp` | GomukuServer/MyMuduo/TcpServer.cc:102 | A connection has been told Up if and only if the call that does it is no longer queued in its loop, where accepting put it. |
| `ConnectionLives.NothingAfterDestroyed` | GomukuServer/MyMuduo/TcpConnection.cc:168-181 | Once a connection not closed twice is destroyed, in any continuation whatever no callback runs on it again, its timer's shutdown included; it stays out of both maps and unwatched. |
| `Lifecycle.DisconnectedOnceIffNoDoubleClose` | GomukuServer/MyMuduo/Channel.cc:61-92 | On all connections the disconnected callback runs at most once if and only if no dispatch reports hang-up and urgent data without input while the read finds the end of the stream. |
| `ConnectionLives.DisconnectedOnceIffClosedCleanly` | GomukuServer/MyMuduo/Channel.cc:61-92 | The same for each connection by itself: told disconnected at most once if and only if no dispatch to this one closes twice. |
| `ConnectionLives.DoubleCloseIsReachable` | GomukuServer/MyMuduo/Channel.cc:61-79 | Such a dispatch comes up in a run from the start, and the callback does run twice. |
| `ConnectionLives.WatchFollowsIndex` | GomukuServer/MyMuduo/EPollPoller.cc:81-123 | In every run, double closes included, the kernel watches a connection exactly while its channel is added, for exactly its interests, and never refuses a call. |
| `Lifecycle.TwiceClosed` | GomukuServer/MyMuduo/Channel.cc:61-79 | Such a dispatch does run the disconnected callback twice. |
| `Lifecycle.RunKeepsInvariant` | GomukuServer/MyMuduo/TcpServer.cc:63-119 | The life-cycle invariant holds in every interleaving. |
| `Lifecycle.AcceptKeeps` | GomukuServer/MyMuduo/TcpServer.cc:63-103 | Accepting a connection keeps it, with inactive release on or off and the timer flag of the new connection arbitrary. |
| `Lifecycle.CloseKeeps` | GomukuServer/MyMuduo/TcpConnection.cc:236-245 | Handling a close keeps it, on the main loop and on another one. |
| `Lifecycle.EventKeeps` | GomukuServer/MyMuduo/Channel.cc:61-92 | Dispatching any other mask, in the order close, read, write, keeps it. |
| `Lifecycle.TaskKeeps` | GomukuServer/MyMuduo/TcpServer.cc:105-119 | Running the oldest queued call of any loop keeps it. |
| `Lifecycle.OnlySubjectChanges` | GomukuServer/MyMuduo/Channel.cc:61-92 | Every action changes one connection only and never takes back what was logged. |
| `Effects.DispatchInARun` | GomukuServer/MyMuduo/Channel.cc:61-92 | In every run, for every dispatch that does not close twice on a connection that has not been closed twice: it is told Down by this dispatch if and only if there is a hang-up without input, or input or urgent data and the end of the stream; it is Disconnecting afterwards exactly if it was or the message callback asked for it; its write interest ends exactly with the close or a drained buffer. |
| `Effects.DispatchEffect` | GomukuServer/MyMuduo/TcpConnection.cc:183-245 | The same with all that follows: the kernel entry, and the removal queued in the main loop or, on the main loop, made at once. |
| `Effects.AcceptEffect` | GomukuServer/MyMuduo/TcpServer.cc:63-103 | On the main loop a new connection is up at once, with its timer if idle release is on; on another loop the calls that bring it up are queued there in order, the timer first. |
| `Effects.TaskEffect` | GomukuServer/MyMuduo/TcpConnection.cc:159-181 | What each queued call finds and leaves: the timer, the callbacks, both maps, the kernel entry and the next call queued. |
| `Effects.LocalEffect` | GomukuServer/MyMuduo/TcpConnection.cc:138-147 | `shutdown` makes a connected connection Disconnecting and does nothing else; bytes left over make the kernel watch for room. |
| `Lifecycle.StepKeepsGoneClosed` | GomukuServer/MyMuduo/TcpConnection.cc:168-181 | A connection that has been destroyed is not connected and its channel is new, after every action, double closes included. |
| `Lifecycle.DroppedTimerShutsDownIff` | GomukuServer/MyMuduo/TimerTask.cc:11-18 | The end of a connection's timer shuts it down if and only if the timer was not cancelled; after a cancellation it leaves no trace but its absence, and cancelling twice is cancelling once. |
| `IdleRelease.IdleReleaseIff` | GomukuServer/MyMuduo/TcpConnection.cc:264-280 | With the life cycle and the wheels of all loops put together: from the start of its timer of 1 to 60 ticks on, no dispatch having closed twice before, a connection is shut down by it if and only if that many ticks of its loop go by without a dispatch to it before it is destroyed. |
| `IdleRelease.ShutDownIffIdle` | GomukuServer/MyMuduo/TcpConnection.cc:264-280 | The same from any point on at which the timer runs. |
| `IdleRelease.LeftAloneIsShutDownOnTime` | GomukuServer/MyMuduo/TcpConnection.cc:272-280 | A connection left alone has been shut down if and only if its loop has made the ticks that were missing: neither earlier nor later. |
| `IdleRelease.TimeoutHalfCloses` | GomukuServer/MyMuduo/TcpConnection.cc:138-156 | The tick at which that happens runs its shutdown once, which half-closes it exactly if it is connected. |
| `IdleRelease.StoppedForGood` | GomukuServer/MyMuduo/TcpConnection.cc:176-180 | Once its timer is cancelled or gone it is never shut down by it, whatever follows. |
| `IdleRelease.StartCounts` | GomukuServer/MyMuduo/TcpConnection.cc:272-280 | Enabling inactive release starts the full count, on the main loop at once and on another one when the queued call runs. |
| `IdleRelease.RunKeepsCoupled` | GomukuServer/MyMuduo/TcpConnection.cc:264-289 | In every run a connection and the wheel of its loop agree about its timer: there or not, cancelled or not, refreshed by every dispatch while not cancelled. |
| `IdleRelease.EveryTimerRuns` | GomukuServer/MyMuduo/TcpServer.cc:96-100 | Over every run without double closes: with idle release on, the timer of every connection that is up and not destroyed runs uncancelled unless it has shut it down; with idle release off there are no timers. |
| `IdleRelease.TickIsEnabled` | GomukuServer/MyMuduo/TimerWheel.cc:75-79 | A tick can clear its slot in any order: each timer that is due is that of a connection that has it. |
| `IdleRelease.ServerRuns` | GomukuServer/MyMuduo/TcpServer.cc:62-119 | The server in every such run does a run of the life cycle, so all its results hold. |
| `IdleRelease.WheelRuns` | GomukuServer/MyMuduo/TimerWheel.cc:75-133 | And the wheel of each loop does a run of the deadline map, adding no id that is live. |
| `Servers.RunServer` | GomukuServer/MyMuduo/TcpServer.cc:62-119 | Every run of the server object with its connections, their channels, one poller for each loop and the queues is a run of the life cycle, and keeps its invariant if no dispatch closes twice; a descriptor number may come back once its connection has been destroyed and no queued call holds it. |
| `Servers.TcpServer.constructor` | GomukuServer/MyMuduo/TcpServer.cc:14-34 | A server without connections and with empty queues. |
| `Servers.TcpServer.NewConnection` | GomukuServer/MyMuduo/TcpServer.cc:63-103 | The next id, a connection on a new channel of its loop's poller in both maps, and the calls that start it handed to its loop, the timer first if inactive release is on. |
| `Servers.TcpServer.RemoveConnectionInLoop` | GomukuServer/MyMuduo/TcpServer.cc:110-119 | Out of both maps, and the destruction queued in the loop of the connection. |
| `Servers.TcpServer.RunInLoop` | GomukuServer/MyMuduo/TcpServer.cc:105-108 | On the owning thread the call runs, from any other it is queued; so removal runs at once on the main loop and is queued there from any other. |
| `Servers.TcpServer.HandlerClose` | GomukuServer/MyMuduo/TcpConnection.cc:236-245 | The connection is disconnected, told so, and its removal goes to the main loop. |
| `Servers.TcpServer.HandlerRead` | GomukuServer/MyMuduo/TcpConnection.cc:183-201 | Data goes to the message callback, the end of the stream closes, an error does nothing to the life of the connection. |
| `Servers.TcpServer.HandlerEvent` | GomukuServer/MyMuduo/Channel.cc:61-92 | Close, read and write callbacks run in this order for whatever mask is reported; on a connection that is served the disconnected callback runs if and only if there is a hang-up without input or input or urgent data ends the stream, and the write interest ends exactly with that or with a drained buffer. |
| `Servers.TcpServer.Perform` | GomukuServer/MyMuduo/TcpServer.cc:62-119 | Every action of any loop on the objects is the step of the life cycle of that name. |
| `Servers.TcpServer.Advance` | GomukuServer/MyMuduo/TcpServer.cc:62-119 | The same when the descriptor of an accepted connection was another's before. |
| `Servers.TcpServer.Retire` | GomukuServer/MyMuduo/TcpConnection.cc:168-181 | When the socket of a connection that has been destroyed is closed, its channel leaves the loop and nothing else can be told apart from before. |
| `Servers.Connection.ConnectEstablished` | GomukuServer/MyMuduo/TcpConnection.cc:159-165 | Connected, reading, registered, and told so. |
| `Servers.Connection.EnableReading` | GomukuServer/MyMuduo/Channel.h:46-50 | Enabling on the channel and its poller is the update of the life cycle, with the kernel entry, and touches no other connection's entry. |
| `Servers.Connection.DisableAll` | GomukuServer/MyMuduo/Channel.h:66-70 | The same for disabling everything. |
| `Servers.Connection.RemoveChannel` | GomukuServer/MyMuduo/Channel.cc:39-42 | Removing the channel takes the kernel entry away if there is one, and no other. |
| `Servers.TcpServer.OneChanged` | GomukuServer/MyMuduo/TcpServer.cc:62-119 | A member of one connection, its channel and its poller leaves all other connections and the server as they were, even one whose socket is closed and whose descriptor number another one has now. |
| `Servers.Connection.ConnectDestroyed` | GomukuServer/MyMuduo/TcpConnection.cc:168-181 | Disconnected if it still was connected, its timer cancelled if there is one, its channel removed from poller and kernel. |
| `MysqlPool.ScanIsComplete` | GomukuServer/MysqlConnectionPool/MysqlConnectionPool.cc:155-168 | On a queue ordered by idle start, with the clock read anew for each connection, stopping at the first fresh one misses nothing that had expired at the last reading; the scan drops all that had expired at the first one, up to the surplus. |
| `MysqlPool.ScanMissesIff` | GomukuServer/MysqlConnectionPool/MysqlConnectionPool.cc:155-168 | On an arbitrary queue the scan misses an expired connection if and only if, within the surplus and behind expired ones only, a fresh one stands before one that has expired; then the queue is out of order. |
| `MysqlPool.DropsAllIff` | GomukuServer/MysqlConnectionPool/MysqlConnectionPool.cc:155-168 | Everything queued is dropped if and only if each has expired by the time it is looked at and none is needed for the initial size. |
| `MysqlPool.FreshFrontMeansNoneExpired` | GomukuServer/MysqlConnectionPool/MysqlConnectionPool.cc:164-167 | If the front of an ordered queue is fresh so is the rest. |
| `MysqlPool.MysqlConnectionPool.constructor` | GomukuServer/MysqlConnectionPool/MysqlConnectionPool.cc:44-60 | The pool starts with its initial number of connections, all queued in the order in which they were made. |
| `MysqlPool.MysqlConnectionPool.GetMysqlConnection` | GomukuServer/MysqlConnectionPool/MysqlConnectionPool.cc:12-41 | Nothing exactly when the queue is empty, else the connection idle longest moves from the queue to the leased ones. |
| `MysqlPool.MysqlConnectionPool.GiveBack` | GomukuServer/MysqlConnectionPool/MysqlConnectionPool.cc:30-35 | A leased connection goes to the end of the queue with its idle time starting now; count and order are kept. |
| `MysqlPool.MysqlConnectionPool.ProduceConnection` | GomukuServer/MysqlConnectionPool/MysqlConnectionPool.cc:120-143 | One new connection exactly when the queue is empty and the count is below the maximum. |
| `MysqlPool.MysqlConnectionPool.ScanConnections` | GomukuServer/MysqlConnectionPool/MysqlConnectionPool.cc:146-170 | The scan drops a prefix of connections each idle for at least 1000 times `maxIdleTime` when it is looked at, keeps every leased one, and leaves none idle for so long at its last reading of the clock while the count is above the initial size; it reads the front of an empty queue if and only if more than the initial number is leased and each queued one has been idle for so long. |
| `MysqlPool.MysqlConnectionPool.DropExpired` | GomukuServer/MysqlConnectionPool/MysqlConnectionPool.cc:155-168 | The loop drops exactly the prefix that the recursive definition says. |
| `MysqlPool.ScanOfEmptyQueue` | GomukuServer/MysqlConnectionPool/MysqlConnectionPool.cc:157 | That undefined read is reachable: lease the only initial connection, let the producer add one, lease it, scan. |
| `Gomoku.FirstReportedWinIsFirstFive` | GomukuServer/GameServer/model/GameRoomInfo.cc:29-97 | In a game from the empty board with no win reported yet, the next stone on an empty cell is reported as a win if and only if the board then has a maximal run of exactly five anywhere, of either colour. |
| `Gomoku.LastStoneDecides` | GomukuServer/GameServer/model/GameRoomInfo.cc:88-97 | On a board without a five, checking around the new stone is as good as scanning the whole board. |
| `Gomoku.NewFiveRunsThroughStone` | GomukuServer/GameServer/model/GameRoomInfo.cc:42-97 | A five that was not there before runs through the stone just placed on an empty cell, in its colour. |
| `Gomoku.CountIsFiveThrough` | GomukuServer/GameServer/model/GameRoomInfo.cc:42-85 | The two arms counted by the loops make five if and only if a maximal run of exactly five goes through the stone. |
| `Gomoku.FiveThroughReversed` | GomukuServer/GameServer/model/GameRoomInfo.cc:88-97 | A direction and its reverse see the same five, so four calls cover eight directions. |
| `Gomoku.UndecidedMeansNoFive` | GomukuServer/GameServer/model/GameRoomInfo.cc:29-39 | As long as no move was reported as a win there is no five on the board. |
| `Gomoku.OverwriteCheckIff` | GomukuServer/GameServer/model/GameRoomInfo.cc:29-39 | On a five-free board, whatever the cell holds, the check agrees with the scan if and only if four stones of the new colour adjoin the cell on some line or the stone it covers does not end a run of the opponent's with exactly five more; both read off the board before the move. |
| `Gomoku.StoneWinsIff` | GomukuServer/GameServer/model/GameRoomInfo.cc:42-97 | Whether the stone just placed is reported as a win can be read off the board before, whatever the cell held: four of its colour adjoin the cell on some line, on both sides together. |
| `Gomoku.MissedWinIsReachable` | GomukuServer/GameServer/model/GameRoomInfo.cc:29-39 | On every board of at least six by six play can get there: six in a row closed in the gap are not reported, and covering their end leaves an unreported five. |
| `Gomoku.GameRoomInfo.constructor` | GomukuServer/GameServer/model/GameRoomInfo.cc:3-16 | An empty board for the two players. |
| `Gomoku.GameRoomInfo.IsValidPosition` | GomukuServer/GameServer/model/GameRoomInfo.cc:19-26 | True exactly for an empty cell on the board. |
| `Gomoku.GameRoomInfo.CountAlong` | GomukuServer/GameServer/model/GameRoomInfo.cc:51-63 | The walking loop ends, and has added the length of the arm. |
| `Gomoku.GameRoomInfo.Five` | GomukuServer/GameServer/model/GameRoomInfo.cc:42-85 | True if and only if a maximal run of exactly five goes through the stone in this direction, and the same for the reverse direction. |
| `Gomoku.GameRoomInfo.CheckWin` | GomukuServer/GameServer/model/GameRoomInfo.cc:88-97 | True if and only if that holds in some direction. |
| `Gomoku.GameRoomInfo.HandleChess` | GomukuServer/GameServer/model/GameRoomInfo.cc:29-39 | Places the stone of the sender, nothing else; on a board without a five it reports a win exactly when the board then has one, under exactly the condition of `OverwriteCheckIff`. |
| `Lobby.RunKeepsInvariant` | GomukuServer/GameServer/module/MatchHandler.cc:27-136 | In every run: a user waits at most once, in the queue of its bracket, exactly while MATCHING; queues are in joining order; a room is registered exactly while its count, the number of its players, is positive; joins = waiting + cancelled + 2 x rooms made; players in rooms are exactly the GAMING ones. |
| `Lobby.RequestEffect` | GomukuServer/GameServer/module/MatchHandler.cc:27-78 | What each request does to its user: logging in and leaving a room make it ONLINE, joining takes an ONLINE user to the end of the queue for below 2000, below 4000 or more points, cancelling takes a MATCHING one out of all queues; it changes nobody else. |
| `Lobby.MatchPairsLongestWaiting` | GomukuServer/GameServer/module/MatchHandler.cc:92-126 | A match pairs two different users, the two of one bracket who joined first, puts both in one new room and in no queue. |
| `Lobby.NeighboursPlay` | GomukuServer/GameServer/module/MatchHandler.cc:83-134 | After k passes without a wait the first k pairs of neighbours of each queue, or as many as it has, play each other in rooms made since, the 2i-th with the next one, and the others wait in the order they had. |
| `Lobby.SettledAfterExactly` | GomukuServer/GameServer/module/MatchHandler.cc:85-88 | No queue holds two if and only if the thread has passed at least as often as the longest queue has pairs. |
| `Lobby.NobodyIsOvertaken` | GomukuServer/GameServer/module/MatchHandler.cc:90-98 | Over any run, while an earlier user of a bracket still waits, no later one who does not cancel has been matched. |
| `Lobby.RoomIdsAreNotReused` | GomukuServer/GameServer/manager/GameRoomManager.cc:13-22 | Over any run a room that is gone stays gone, and one that stays is for the same two players with no more of them. |
| `Lobby.JoinKeeps` | GomukuServer/GameServer/module/MatchHandler.cc:27-52 | Joining keeps the invariant. |
| `Lobby.CancelKeeps` | GomukuServer/GameServer/module/MatchHandler.cc:54-78 | Cancelling keeps the invariant. |
| `Lobby.CancelKeepsQueues` | GomukuServer/GameServer/module/MatchHandler.cc:54-78 | Cancelling takes exactly one entry out of the queue of the user's bracket. |
| `Lobby.MatchKeeps` | GomukuServer/GameServer/module/MatchHandler.cc:90-134 | Matching keeps the invariant. |
| `Lobby.RoomKeepsRooms` | GomukuServer/GameServer/manager/GameRoomManager.cc:13-22 | A new room for two players who are in none has a new id and keeps the counts right. |
| `Lobby.LeaveKeepsRooms` | GomukuServer/GameServer/manager/GameRoomManager.cc:57-75 | A player leaving keeps the counts right, and the last one takes the room with it. |
| `Lobby.LeaveKeeps` | GomukuServer/GameServer/manager/GameRoomManager.cc:57-78 | Leaving keeps the invariant, whoever leaves. |
| `Lobby.LoginKeepsIff` | GomukuServer/GameServer/module/UserHandler.cc:56-64 | A login keeps the invariant if and only if the id is not waiting or playing under an earlier login. |
| `Lobby.LogoutKeepsIff` | GomukuServer/GameServer/manager/ConnManager.cc:26-32 | Losing a connection keeps the invariant if and only if its user is neither waiting nor playing. |
| `Lobby.LostWaiterIsReachable` | GomukuServer/GameServer/manager/ConnManager.cc:26-32 | From an empty lobby a state is reached in which a lost connection breaks the invariant, and a second login too. |
| `Lobby.ScoreKeepsIff` | GomukuServer/GameServer/module/GameRoomHandler.cc:77-78 | Scoring a win keeps the invariant if and only if it does not move an opponent who has left and waits again to another bracket. |
| `Lobby.WinPays` | GomukuServer/GameServer/module/GameRoomHandler.cc:53-78 | A win gives a player in a room ten points, takes five from a logged-in opponent, in 32 bits, and changes nothing else. |
| `Lobby.ScoringMovesBracketIff` | GomukuServer/GameServer/model/UserInfo.cc:3-13 | A loss changes the bracket exactly within five points above a threshold and below five points, where it raises the points to the top of 32 bits; a win exactly within ten points below a threshold and at that top. |
| `Lobby.OtherIdRoundTripIff` | GomukuServer/GameServer/model/GameRoomInfo.h:28 | Asking twice for the other player gives the player back exactly for the two players of a room. |
| `Lobby.LateWinLeavesStaleEntry` | GomukuServer/GameServer/module/MatchHandler.cc:63-75 | After such a win, cancelling looks in the wrong queue: the user is ONLINE and still queued. |
| `Lobby.LateWinIsReachable` | GomukuServer/GameServer/module/GameRoomHandler.cc:57-78 | Such a win is reachable from an empty lobby. |
| `Lobby.WithoutFacts` | GomukuServer/GameServer/module/MatchHandler.cc:65 | Removing a user from a queue keeps order and others and takes exactly its entry. |
| `Users.AddKeepsInverseIff` | GomukuServer/GameServer/manager/UserManager.cc:11-19 | The two maps between ids and connections stay inverse if and only if neither the id nor the connection belonged to another one. |
| `Users.SecondLoginDiverges` | GomukuServer/GameServer/manager/UserManager.cc:11-19 | A second login of the same user over another connection breaks them, from empty maps on. |
| `Users.UserManager.AddOnlineUser` | GomukuServer/GameServer/manager/UserManager.cc:11-19 | All three maps get the user; they still agree under exactly that condition. |
| `Users.UserManager.RemoveOnlineUser` | GomukuServer/GameServer/manager/UserManager.cc:22-33 | The maps lose the user, its connection and its record, and agree afterwards if they did before. |
| `Users.UserManager.GetUserByConn` | GomukuServer/GameServer/manager/UserManager.cc:44-61 | The user found by a connection is the one whose connection it is, and nobody exactly when there is none. |
| `Users.UserManager.GetUserByUserId` | GomukuServer/GameServer/manager/UserManager.cc:36-40 | Nobody exactly for an id that is not logged in; otherwise a user whose id it is and whose connection leads back to the id. |
| `Users.UserManager.GetConnByUserId` | GomukuServer/GameServer/manager/UserManager.cc:72-77 | The connection of the user logged in under the id. |
| `Users.UserManager.GetUserIdByConn` | GomukuServer/GameServer/manager/UserManager.cc:64-69 | The id whose user has the connection, or 0. |
| `Users.UserManager.SetUserState` | GomukuServer/GameServer/manager/UserManager.cc:80-88 | Changes the state of one user that is logged in and of nobody else. |
| `Users.UserManager.WinGame` | GomukuServer/GameServer/manager/UserManager.cc:90-98 | One user has ten points, one game and one win more, as 32-bit numbers; nobody else's record changes. |
| `Users.UserManager.LoseGame` | GomukuServer/GameServer/manager/UserManager.cc:100-108 | One user has five points less, wrapping around below five, and one game more; nobody else's record changes. |
| `Rooms.GameRoomManager.CreateRoom` | GomukuServer/GameServer/manager/GameRoomManager.cc:13-22 | Both players and the new id lead to one new room with a count of two, the first player white, and an empty 15 by 15 board; every other room is as before. |
| `Rooms.GameRoomManager.PassiveRemoveRoom` | GomukuServer/GameServer/manager/GameRoomManager.cc:25-31 | Only that room is gone. |
| `Rooms.GameRoomManager.RemoveUser` | GomukuServer/GameServer/manager/GameRoomManager.cc:57-78 | The player leaves its room, the count drops, an empty room goes, and the player is ONLINE; for someone in no room nothing happens. |
| `Rooms.GameRoomManager.GetUserIdFromOtherId` | GomukuServer/GameServer/manager/GameRoomManager.cc:81-91 | The other player of the room, even after it has left; 0 for someone in no room. |
| `Rooms.GameRoomManager.HandChess` | GomukuServer/GameServer/manager/GameRoomManager.cc:94-104 | Plays in the sender's room and in no other; reports a win exactly when a maximal five runs through the stone. |
| `Matching.RunLobby` | GomukuServer/GameServer/module/MatchHandler.cc:27-136 | Every run of the managers, with a connection of its own for each user, is the run of the lobby. |
| `Matching.MatchPool.constructor` | GomukuServer/GameServer/module/MatchHandler.cc:14-21 | Three empty queues. |
| `Matching.MatchPool.AddUser` | GomukuServer/GameServer/module/MatchHandler.cc:27-52 | One join step; true exactly for a user who was ONLINE. |
| `Matching.MatchPool.RemoveUser` | GomukuServer/GameServer/module/MatchHandler.cc:54-78 | One cancel step; true exactly for a user who was MATCHING. |
| `Matching.MatchPool.MatchBracket` | GomukuServer/GameServer/module/MatchHandler.cc:92-133 | One bracket of a pass is one match step. |
| `Matching.MatchPool.StartGame` | GomukuServer/GameServer/module/MatchHandler.cc:99-126 | The users found through their connections are the two that were queued, and both get the room and the state GAMING. |
| `Matching.MatchPool.MatchPass` | GomukuServer/GameServer/module/MatchHandler.cc:90-134 | One pass of the matching thread is the three match steps in order. |
| `Matching.MatchPool.MatchThread` | GomukuServer/GameServer/module/MatchHandler.cc:83-134 | From one wait to the next the thread makes exactly as many passes as the longest queue has pairs; then no queue holds two. |
| `Matching.OnLogin` | GomukuServer/GameServer/module/UserHandler.cc:55-64 | A login step over any connection; the record under the id is the one read from the database, field by field; all is well afterwards if and only if the user was not waiting or playing and neither the id nor the connection belonged to another one. |
| `Matching.DropUser` | GomukuServer/GameServer/manager/ConnManager.cc:26-32 | A logout step; the invariant survives exactly as `LogoutKeepsIff` says. |
| `Matching.OnExitRoom` | GomukuServer/GameServer/module/GameRoomHandler.cc:108-115 | A leave step. |
| `Matching.Award` | GomukuServer/GameServer/module/GameRoomHandler.cc:53-78 | The winner's record has ten points, a game and a win more, that of a logged-in opponent five points less and a game more, nobody else's changes; the invariant survives exactly as `ScoreKeepsIff` says. |
| `Matching.OnChess` | GomukuServer/GameServer/module/GameRoomHandler.cc:43-78 | The stone of the sender's colour, 1 or 2, is on the board and nothing else changed there; the records change as in `Award` exactly when a maximal five runs through it, and otherwise not at all. |
| `Framing.StreamArrivesIff` | GomukuServer/GameServer/net/ProtocolDispatcher.cc:23-42 | Of a stream of frames with payloads of 1 to 1024 bytes exactly the payloads come out, in order and nothing else, if and only if each dispatch finds at most the first four bytes of a frame or exactly one whole frame: no segment runs past the end of the frame it completes. |
| `Framing.TwoFramesAtOnceAreLost` | GomukuServer/GameServer/net/ProtocolDispatcher.cc:23-42 | Any two frames that arrive in one segment are lost, and so is all that follows. |
| `Framing.CutFrameIsMisread` | GomukuServer/GameServer/net/ProtocolDispatcher.cc:39 | Any frame cut behind its first four bytes is misread. |
| `Framing.FrameIff` | GomukuServer/GameServer/net/ProtocolDispatcher.cc:27-42 | A payload comes out if and only if the readable bytes are exactly one frame of 1 to 1024 payload bytes, and then it is the payload that went in. |
| `Framing.JudgedByLength` | GomukuServer/GameServer/net/ProtocolDispatcher.cc:29-39 | Every announced length above 1024 is refused however little has arrived; a shorter one is taken, kept waiting or misread as it equals, falls below or exceeds what has arrived. |
| `Framing.JudgedByBytes` | GomukuServer/GameServer/net/ProtocolDispatcher.cc:26-39 | The same for all contents, read byte by byte, with lengths that read as negative misread and up to four bytes waiting. |
| `Framing.StuckForGood` | GomukuServer/GameServer/net/ProtocolDispatcher.cc:33-39 | Once a length is refused or more than one frame has piled up, nothing that follows gets through any more. |
| `Framing.HeaderRoundTrip` | GomukuServer/GameServer/manager/ConnManager.cc:60-61 | The length read back is the length written, for every length below 2^31. |
| `Framing.SizeRoundTrip` | GomukuServer/GameServer/net/ProtocolDispatcher.cc:29-30 | Four bytes that read as a length are the header of that length. |
| `Framing.JudgePrefix` | GomukuServer/GameServer/net/ProtocolDispatcher.cc:39 | A stream of frames cut short inside the first frame is misread; cut beyond it, it waits. |
| `Framing.BuildMessage` | GomukuServer/GameServer/manager/ConnManager.cc:59-67 | The block built from a text is its length, most significant byte first, followed by the text. |
| `Framing.Dispatch` | GomukuServer/GameServer/net/ProtocolDispatcher.cc:23-42 | What one call does to the buffer and hands on, for every content: it refuses, with the buffer untouched, exactly an announced length from 1025 to 2^31 - 1, waits exactly with at most four bytes or with more than the one short message, and never hands on more than 1024 bytes. |
| `Framing.ReceiveAll` | GomukuServer/GameServer/net/ProtocolDispatcher.cc:23-42 | With aligned segments every payload comes out in order and the buffer is empty at the end, whatever happened to it before. |

## Left out

- TimerWheels.TimerWheel.TimerTaskAddInLoop: does not model adding under an id that is live, which `TcpConnection.cc:275-279` rules out.
- TimerWheels.TimerWheel.DestroyTask: does not model callbacks that add, refresh or cancel timers while a slot is cleared; without them it makes no difference that the callback runs before the id is released.
- EventLoops.EventLoop.DoPendingFunctor: does not model `loop()` and `poll` as methods, because other threads act between their steps; the step system in `LoopProtocol` has them. Here other threads act between functors, each with its push and wake-up in one piece.
- TcpConnections.TcpConnection.SendInLoop: does not model the truncation of the length to `int` above 2^31 bytes nor `size_t` overflow.
- TcpConnections.TcpConnection.Send: does not model `send` and `shutdown` from other threads, whose order the source leaves open.
- Servers.RunServer: does not model the destructor of the server, the wrap of connection ids, nor names longer than their buffer; each member runs in one piece, as it does on its own thread.
- IdleRelease.IdleReleaseIff: does not model delays above 60 ticks, where `FiresPeriodAfterLastTouch` says what the wheel does, nor dispatches that close twice before the timer is started.
- Framing.Dispatch: does not model parsing the text and calling the registered handler.
- MysqlPool.MysqlConnectionPool.GetMysqlConnection: does not model the waits on the condition variable; it starts when the wait has ended.
- MysqlPool.MysqlConnectionPool.ScanConnections: does not model an overflow of the idle limit times 1000.
- Lobby.RoomIdsAreNotReused: does not model the wrap of room ids after 2^32 rooms.
- Matching.MatchPool.MatchBracket: does not model a match of users who went offline while waiting, where the source falls through to creating the room with a null user.
- Matching.MatchPool.RemoveUser: does not model ids of users who are not logged in, where the source dereferences a null pointer.
- Matching.MatchPool.AddUser: does not model ids of users who are not logged in, where the source dereferences a null pointer.
- Gomoku.GameRoomInfo.constructor: states the count of two that is meant; the source leaves it unset.
- Gomoku.GameRoomInfo.HandleChess: does not model a cell off the board, which the source does not check and which is undefined there; it does not model whose turn it is, because the source does not either.
- Rooms.GameRoomManager.HandChess: does not model a cell off the board either.
- Matching.OnChess: does not model a cell off the board either.
- A room created and its players set to GAMING is one step of `MatchStep`; requests of the players in between are left out.
- `activeRemoveRoom` and `isValidPosition` are never called by the source; only the second is modelled.
- Liveness of condition variables, fairness of the poller and real time.
- System calls, sockets, acceptor, thread pool and start handshake, time stamps, logging, singletons, `main`.
- Database access, SQL, configuration files, JSON, and the chat handler, which only forwards text.
