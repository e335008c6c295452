# Verified models of an Android device tree

This project models the parts of the device tree in which state, ownership or concurrency is
hard to get right, and proves what those parts are for. Code that works in place is modelled as
classes with linked nodes, arrays and loops; each method is proved against a function on values,
and the properties are theorems about those functions, mostly about every run.

- **Event loop of libril** (`TimeVal`, `TimerQueue`, `EventLists`, `EventLoop`, `TimerRun`,
  `LoopRun`): circular lists with sentinels, sorted timers, the watch table with its cached select
  arguments, and any number of turns in which callbacks and other threads add timers and add, re-set
  and delete watches. The early exits of the two scans are proved equal to filters over everything.
- **Wake lock of libril** (`WakeLock`, `WakeRun`): the counted lock with its cancellable timer, and
  the lock without a count of older versions, for any order of grabs, releases, scans and timer
  callbacks.
- **Requests of libril** (`Requests`, `RequestRun`, `RequestAnswers`, `RequestList`): the pending
  list, acks, completions, disconnects and local requests, in the single-SIM build, for any
  interleaving of the event thread with any number of vendor threads, and every word that is sent.
- **Command socket of libril** (`Framing`, `Senders`): length-framed packets over partial writes,
  for one sender, and for any number of threads while clients hang up and others connect.
- **SMS parcel and data call list of libril** (`CdmaSms`, `DnsFailures`): the encoder and decoder
  that mirror each other, and the DNS failure counter.
- **SAP socket of libril** (`SapRecords`, `SapQueue`): the record queue and who owns and frees
  which record.
- **Audio wrapper** (`AudioLocks`, `AudioSafety`, `AudioCalls`, `StreamTable`): mutexes taken by any
  number of threads, deadlock freedom, exclusion, the stream that each call works with, and the
  stream tables.
- **Data channels of the Rapid RIL** (`DataChannels`, `HsiAllocator`, `ChildContexts`): channels
  and HSI slots tied by context ids, with rollback, and the mask of child contexts.
- **AT responses of the Rapid RIL** (`Text`, `Responses`, `ResponseAnswers`, `ResponseBuffer`,
  `ResponseCuts`): when a buffer holds a complete response, what its result is and where it ends,
  what a channel makes of a byte stream, and which cuts of the stream do no harm. The forms are those of section 5.7 of ITU-T V.250, section 9.2 of
  3GPP TS 27.007 and section 3.2.5 of 3GPP TS 27.005.
- **Timeouts and init strings of the Rapid RIL** (`TimeoutCache`, `InitStrings`,
  `CommandContexts`): the write-once cache under racing threads, and the one completion of an init
  string.
- **Graphic buffers** (`GraphicBuffers`): flattening to words and descriptors, and back.

## What the models decide from outside

Clocks, partial write results, ready descriptor sets, allocation failures, the vendor RIL and HALs,
the silos that recognise unsolicited responses, repository contents and the outcome of queueing are
parameters or steps that may happen in any order. A state machine over steps stands for threads.
Integer widths are written out where they matter: 32-bit timeouts and error codes, 64-bit ids, the
context mask, the short status, the length header.

## Where code and expectation differ

The code is modelled as it is; these are theorems, with the exact condition and an input that
shows the difference.

- `userTimerCallback` reads its parameter before taking the mutex. Acting on the stale value is
  harmless iff the count is zero or the timer is still the last one (`WakeLock.LateCallback`);
  otherwise a fresh grab loses its lock (`WakeLock.LateCallbackLosesGrab`).
- A completion takes its record off the list, and only later reads the descriptor of the command
  socket. The reply goes to the client that asked iff none has hung up in between
  (`RequestAnswers.ResponseTheorem`); else it may go to the next client
  (`RequestRun.ReplyToAnotherClient`).
- `sendResponseRaw` reads the descriptor before it takes the mutex, and the event thread closes it
  without the mutex. Frames stay whole iff no client is accepted under the descriptor that a call is
  in the middle of writing to (`Senders.WholeFrames`, `Senders.CutGoesOn`); else a client can read a
  packet that nobody sent (`Senders.NobodySentThis`).
- An opening of an audio stream that finds no memory for its row returns without closing the vendor
  stream, which then stays open until the device is closed: in every run the open vendor streams
  are those that have a row, are on their way, or were lost in this way
  (`AudioCalls.NothingForgotten`).
- `ril_event_add` does not look for the descriptor among those watched. The select arguments stay
  right iff it is not there (`EventLoop.CacheAdd`, `EventLoop.SecondWatchIsLost`).
- `Ril_queue` is documented as a queue, but `enqueue` and `dequeue` both work at the front: a stack.
  `onRequestComplete` frees the first pending record of an id and token, which is the completed one
  iff none before it has the same pair (`SapRecords.CompletePending`,
  `SapRecords.WrongRequestIsFreed`).
- `GetFreeChnlsRilHsi` documents NULL on failure. For a class-1 profile without a slot it returns the
  channel and its id while the channel is free again (`DataChannels.AcquireOutcome`,
  `DataChannels.FullSlotsGiveFreeChannel`). An index error in `GetFreeHSIChannel` returns with the
  mutex held (`DataChannels.MutexIsReleased`, `DataChannels.BadRangeHoldsMutex`). The two checks of
  the configuration do not exclude it: they let a negative channel number pass
  (`DataChannels.CheckedConfigIsSafe`, `DataChannels.CheckedConfigHoldsMutex`).
- An error report cut before the return behind its digits is taken as it stands. Cuts do no harm iff
  each is before the end of the token, or between return and line feed (`ResponseCuts.CutTheorem`,
  `ResponseCuts.SplitMatters`). An unsolicited response without a line end is called complete with
  no end marked, and the transfer fails (`Responses.JudgeEnd`,
  `Responses.UnsolicitedWithoutLineEnd`).
- `flatten` and `unflatten` are inverse iff the handle holds something or the buffer is empty
  (`GraphicBuffers.RoundTripIff`, `GraphicBuffers.FieldsAreLost`). The size guard of `unflatten` is
  for eight words while ten are read: it stays inside the given size iff that is below 32, or 40 and
  more, or the magic word is wrong (`GraphicBuffers.ReadsInside`, `GraphicBuffers.ReadsBeyond`).
- Timeouts doubled for multi-SIM modems can wrap, even to zero (`TimeoutCache.ExactIffFits`,
  `TimeoutCache.ExtensionCanBeZero`).

## Model

| member | source | states |
|---|---|---|
| TimeVal.AddIsExact | modules/ril/libril/ril_event.cpp:38-46 | on normalised timevals the one-carry macro is addition of microseconds, a million to the second, and stays normalised |
| TimeVal.SubIsExact | modules/ril/libril/ril_event.cpp:57-65 | on normalised timevals the one-borrow macro is subtraction of microseconds, for negative differences too |
| TimeVal.BeforeIsMicros | modules/ril/libril/ril_event.cpp:50-53 | the field-wise comparison is the comparison of microseconds |
| TimerQueue.SlotIsUnique | modules/ril/libril/ril_event.cpp:302-307 | the insertion point is the only cut with strictly earlier timers before it and none behind it |
| TimerQueue.InsertKeepsOrder | modules/ril/libril/ril_event.cpp:286-312 | insertion keeps the list sorted; a newcomer stands before timers of equal deadline |
| TimerQueue.ExpiredIsPrefix | modules/ril/libril/ril_event.cpp:158-180 | on a sorted list the early exit splits exactly like a filter over the whole list |
| TimerQueue.ExpirySplits | modules/ril/libril/ril_event.cpp:158-180 | expiry loses, invents and duplicates no timer, and takes exactly those strictly past their deadline |
| EventLists.AddToList | modules/ril/libril/ril_event.cpp:112-119 | linking before any node of a circular list of any length refines insertion into a sequence; next and prev stay inverse around the sentinel |
| EventLists.RemoveFromList | modules/ril/libril/ril_event.cpp:121-132 | unlinking any node refines removal from the sequence and clears the node |
| EventLoop.CacheAdd | modules/ril/libril/ril_event.cpp:265-283 | after an added watch the fd set is the set of watched fds and nfds is one above the highest iff the fd was not watched before |
| EventLoop.CacheRemove | modules/ril/libril/ril_event.cpp:134-156 | after a removal, with its conditional rescan, the fd set and nfds still describe the table |
| EventLoop.SecondWatchIsLost | modules/ril/libril/ril_event.cpp:134-156 | with two watches of one fd, deleting one takes the fd out of the set that select sees |
| EventLoop.ReadyPrefix | modules/ril/libril/ril_event.cpp:182-200 | scanning on only appends, and stopping once all ready events are found misses none |
| EventLoop.ReadyCount | modules/ril/libril/ril_event.cpp:182-200 | with one event per fd the number of ready fds is the number of events to queue |
| EventLoop.Loop.constructor | modules/ril/libril/ril_event.cpp:241-249 | both lists empty, eight slots and none taken, every invariant holds |
| EventLoop.Loop.FindSlot | modules/ril/libril/ril_event.cpp:301-306 | the walk over the list stops at the insertion point of the specification |
| EventLoop.Loop.TimerAdd | modules/ril/libril/ril_event.cpp:286-312 | the timer list becomes the old one with the new deadline inserted; everything else is unchanged |
| EventLoop.Loop.ProcessTimeouts | modules/ril/libril/ril_event.cpp:158-180 | the timer list keeps exactly the live timers and the pending list gains exactly the expired ones, in deadline order |
| EventLoop.Loop.CalcNextTimeout | modules/ril/libril/ril_event.cpp:215-238 | nothing without timers, else max(0, earliest deadline - now) |
| EventLoop.Loop.EventAdd | modules/ril/libril/ril_event.cpp:265-283 | the first free slot takes the event; a full table changes nothing; slots and indices stay consistent; the table becomes what the deed says |
| EventLoop.Loop.RemoveWatch | modules/ril/libril/ril_event.cpp:134-156 | the slot is emptied and the select arguments follow |
| EventLoop.Loop.EventDel | modules/ril/libril/ril_event.cpp:315-329 | a watched event leaves its slot, an unwatched one changes nothing, also while it is pending |
| EventLoop.Loop.SelectCounts | modules/ril/libril/ril_event.cpp:345-382 | select's return value covers the watched ready events, and counts them exactly iff none of the ready fds was unwatched meanwhile |
| EventLoop.Loop.ProcessReadReadies | modules/ril/libril/ril_event.cpp:182-200 | queues the first n ready events in slot order, all of them if n covers them, and then the table has lost exactly the ready non-persistent ones |
| EventLoop.Loop.FirePending | modules/ril/libril/ril_event.cpp:202-213 | every pending event is unlinked and called once, in order, while callbacks add timers and add, re-set and delete watches; an event whose watch was deleted is called all the same |
| EventLoop.Loop.Turn | modules/ril/libril/ril_event.cpp:345-384 | one turn calls the expired timers in deadline order, then the ready events; the timers are the live ones plus those that other threads and callbacks added, and the table is what the deeds of other threads, the scan and the deeds of the callbacks make of it, in this order |
| EventLoop.DeedsJoin | modules/ril/libril/ril.cpp:4016-4021 | the deeds of callbacks may be taken together: the table after all of them is the table after the one part, then the other |
| EventLoop.Loop.Callback | modules/ril/libril/ril.cpp:4011-4023 | a callback that adds timers, adds or re-sets watches and deletes watches leaves timers and table as its deeds say, in their order |
| TimerRun.FiringTheorem | modules/ril/libril/ril_event.cpp:158-312 | over any run: callbacks in non-decreasing deadline order, each timer at most once, released by the first scan whose clock is strictly past its deadline |
| TimerRun.NoTimerIsMissed | modules/ril/libril/ril_event.cpp:158-312 | over any run, once drained: a timer has fired iff some scan since its birth found its deadline past |
| LoopRun.TurnIsRun | modules/ril/libril/ril_event.cpp:345-384 | timers and callbacks of a turn are those of the run that adds, scans once, adds and makes the callbacks |
| LoopRun.TurnsAreRun | modules/ril/libril/ril_event.cpp:345-384 | turns one after the other, on values, are one run, with the timer callbacks in the same order |
| LoopRun.RunTurns | modules/ril/libril/ril_event.cpp:345-384 | any number of turns of the heap loop: its timers and timer callbacks are those of a run that fires well and misses no timer, its table is what the turns on values say, and it ends iff select fails other than by EINTR |
| WakeLock.RilWakeLock.GrabPartialWakeLock | modules/ril/libril/ril.cpp:4910-4934 | the globals change as the value-level grab says, allocation failure and old versions included |
| WakeLock.RilWakeLock.ReleaseWakeLock | modules/ril/libril/ril.cpp:4936-4957 | decrements above one, else zeroes the count, drops the lock and cancels the last timer |
| WakeLock.RilWakeLock.UserTimerCallback | modules/ril/libril/ril.cpp:4390-4404 | the callback with the parameter it read, then the cleanup that forgets and frees the timer |
| WakeLock.CallbackGuarded | modules/ril/libril/ril.cpp:4963-4981 | a timer callback keeps the guard: count positive iff the last timer is live and uncancelled, all others cancelled |
| WakeLock.LateCallback | modules/ril/libril/ril.cpp:4390-4404 | acting on a parameter read before the mutex keeps the guard iff the count is zero or the timer is still the last one |
| WakeLock.LateCallbackLosesGrab | modules/ril/libril/ril.cpp:4390-4404 | a run in which the stale parameter takes the lock from a fresh grab |
| WakeRun.LockTheorem | modules/ril/libril/ril.cpp:4910-4981 | over any run of version 13+: held iff count positive (and no starved grab since); count positive iff the last timer is live and uncancelled, others cancelled; while no release outnumbered the grabs the count is at most grabs minus releases, and exactly that while no uncancelled timer was called: then the lock is held iff grabs outnumber releases and no starved grab came since |
| WakeRun.BalanceTheorem | modules/ril/libril/ril.cpp:4910-4957 | from any reachable state, over any further run in which no release meets a zero count and no uncancelled timer is called, the count moves by exactly the grabs minus the releases of that run |
| WakeRun.CountEnds | modules/ril/libril/ril.cpp:4943-4981 | an uncancelled timer that is called, and a release at count zero, leave the count zero and the lock free |
| WakeRun.OldLockTheorem | modules/ril/libril/ril.cpp:5199-5214 | before version 13, over any run: held iff the last of grabs, releases and uncancelled timer calls was a grab; all timers but the last set are cancelled; once the scans are past 200000 microseconds behind the last setting no timer is left to answer |
| WakeRun.LockIsBounded | modules/ril/libril/ril.cpp:4910-4981 | over any run the lock does not outlive the last grab by more than 200000 microseconds and one drained scan |
| WakeRun.PendingTimersAreLive | modules/ril/libril/ril.cpp:4390-4404 | over any run every timer about to be called is allocated and listed once, so none is freed twice |
| Requests.CompleteTwice | modules/ril/libril/ril.cpp:4835-4908 | a second completion of the same request changes nothing |
| Requests.AnswerIsSingle | modules/ril/libril/ril.cpp:1717-1766 | without a radio the two attempted completions send RADIO_NOT_AVAILABLE once; else the one number the state stands for, once: technology 3 with a SIM and 6 otherwise, subscription source 1 with NV and 0 otherwise; with the radio on nothing |
| RequestAnswers.ResponseTheorem | modules/ril/libril/ril.cpp:4835-4908 | over any interleaving of vendor threads, commands and disconnects each record gets at most one final response, cancelled and local records none: 3 or 0 as version 13+ and acked before or not, its own token, the response function's return value if it was called and failed and else the vendor's error, then the payload if it was called and nothing else; it goes to the client that asked iff no client hung up between the record leaving the list and the write; the wake lock is grabbed once for each reply built that begins with 3, and for nothing else |
| RequestAnswers.OtherMessages | modules/ril/libril/ril.cpp:4797-4833 | every other message is an acknowledgement with the token of an acknowledged record, or the refusal of an unknown request |
| RequestAnswers.AddressNames | modules/ril/libril/ril.cpp:4713-4768 | in any reachable state the address of a listed record names it alone: an ack marks it, a completion takes it and nothing else off the list |
| RequestAnswers.RepliesAreBuilt | modules/ril/libril/ril.cpp:4797-4908 | a record in hand gets a reply built iff it is neither local nor cancelled; an ack goes to the open connection iff the write succeeds and the record was not cancelled |
| RequestAnswers.CommandIs | modules/ril/libril/ril.cpp:491-578 | 800 releases the wake lock; numbers from 1 below the number of known requests make a record, if there is memory; all others get [0, token, 2]; short buffers nothing |
| RequestAnswers.LocalIs | modules/ril/libril/ril.cpp:447-483 | a local request makes a record with the token 0xffffffff at the front, if there is memory, and sends nothing |
| RequestRun.CompletionAnswers | modules/ril/libril/ril.cpp:4895-4908 | in any reachable state a reply goes out iff the descriptor read names the open connection, the reply fits and the write succeeds; a failed write breaks the connection, every other case changes nothing; the asker gets it iff the call is also quiet |
| RequestRun.CancelledIsSilent | modules/ril/libril/ril.cpp:4862-4869 | a local or cancelled record is freed without a reply and without any other change |
| RequestRun.Undisturbed | modules/ril/libril/ril.cpp:4835-4908 | with nothing in between, the three steps of a completion are the one call that the list is proved to do |
| RequestRun.ReplyToAnotherClient | modules/ril/libril/ril.cpp:3936-3978 | a run in which the reply to the first client goes to the second, which connected between dequeue and send |
| RequestList.Ril.CheckAndDequeue | modules/ril/libril/ril.cpp:4713-4768 | the pointer-to-link search marks or unlinks exactly the first record at that address and keeps the rest in order |
| RequestList.Ril.OnRequestAck | modules/ril/libril/ril.cpp:4797-4833 | marks the record and sends an ack unless it was cancelled |
| RequestList.Ril.BuildReply | modules/ril/libril/ril.cpp:4850-4899 | the parcel written word by word and rewound on failure is the specified reply |
| RequestList.Ril.OnRequestComplete | modules/ril/libril/ril.cpp:4835-4908 | the whole new state: record gone, wake lock grabbed if it was acked, reply sent unless local or cancelled |
| RequestList.Ril.ProcessCommandBuffer | modules/ril/libril/ril.cpp:491-578 | malformed buffers ignored, client acks release the lock, unknown requests answered, known ones pushed to the front |
| RequestList.Ril.IssueLocalRequest | modules/ril/libril/ril.cpp:447-483 | a local record with the unused token is pushed; without memory nothing happens |
| RequestList.Ril.OnCommandsSocketClosed | modules/ril/libril/ril.cpp:3936-3978 | every pending record is cancelled and none removed |
| RequestList.Ril.DispatchFromState | modules/ril/libril/ril.cpp:1717-1766 | both completions attempted, and passed on to the vendor iff the radio is on |
| Framing.HeaderRoundTrip | modules/ril/libril/ril.cpp:2192-2253 | the header holds the length, highest byte first, and decodes to it |
| Framing.FramesDecode | modules/ril/libril/ril.cpp:2192-2253 | frames followed by an unfinished frame decode to exactly those packets and that rest |
| Framing.FramesInjective | modules/ril/libril/ril.cpp:2192-2253 | the byte stream determines the packets |
| Framing.CommandSocket.BlockingWrite | modules/ril/libril/ril.cpp:2164-2190 | under any partial writes, EINTR and EAGAIN a prefix of the buffer is on the socket, all of it on success; any other error closes it |
| Framing.CommandSocket.SendResponseRaw | modules/ril/libril/ril.cpp:2192-2253 | packets above 8192 bytes write nothing; else a prefix of the frame, the whole frame on success |
| Senders.StreamTheorem | modules/ril/libril/ril.cpp:2164-2253 | over any interleaving of senders, hang-ups and new clients the stream of every connection is the end of a frame begun on an earlier one, if any, then whole frames and at most one unfinished frame, and behind that first part decodes to the completed packets in order |
| Senders.ReturnTheorem | modules/ril/libril/ril.cpp:2192-2253 | a call that returned 0 has its whole frame in exactly one place of one stream, or split it between two connections; any other finished or waiting call has none |
| Senders.WholeFrames | modules/ril/libril/ril.cpp:4013-4014 | no stream begins inside a frame and no frame is split, unless a client is accepted under the descriptor that a call is in the middle of writing to |
| Senders.CutGoesOn | modules/ril/libril/ril.cpp:2192-2253 | after such an accept, in any reachable state, the next write puts the middle of the frame at the beginning of the new client's stream |
| Senders.NobodySentThis | modules/ril/libril/ril.cpp:2192-2253 | a run in which the next client reads a packet that no call sent |
| Senders.SomeoneCanMove | modules/ril/libril/ril.cpp:2192-2253 | while a call is unfinished some call can move, and meets a write error only if its descriptor no longer names the open connection |
| AudioLocks.LockOrder | modules/audiowrapper/audiowrapper.c:70-129 | every thread waits only for a mutex above all it holds: out-streams, in-streams, stream, HAL |
| AudioLocks.Unblocked | modules/audiowrapper/audiowrapper.c:70-129 | in any state, from any blocked thread the owners lead to a thread that can move |
| AudioLocks.AdvanceDrops | modules/audiowrapper/audiowrapper.c:198-230 | every step brings the calls in progress closer to their end |
| AudioLocks.EveryCallCanFinish | modules/audiowrapper/audiowrapper.c:541-574 | from any state, with any number of threads, all calls in progress can be run to their end |
| AudioSafety.VendorTheorem | modules/audiowrapper/audiowrapper.c:198-230 | over any run: no mutex held twice; vendor functions only on open streams of the table, under the table's and the stream's mutex; closes only of open streams, opens and closes under the HAL mutex; locked HAL calls and device close hold all three and exclude every vendor stream call |
| AudioSafety.RelocationTheorem | modules/audiowrapper/audiowrapper.c:385-418 | over any run rows are moved in memory only while no other thread holds or awaits a stream mutex of that table |
| AudioSafety.AdvanceKeepsTables | modules/audiowrapper/audiowrapper.c:385-418 | each row stands for an open vendor stream of its own, through opens, closes and device close |
| AudioCalls.HandleTheorem | modules/audiowrapper/audiowrapper.c:70-129 | over any run a thread in a stream's vendor function, or closing a stream, works with the first row of the handle its call began with, in the table of its direction; a finished call has searched, and has used the row it found iff it found one; a finished HAL call or opening has called the vendor |
| AudioCalls.LookupGoesOn | modules/audiowrapper/audiowrapper.c:88-98 | a search goes on to the mutex of the first row of its handle iff the table has such a row at that moment, else the call leaves |
| AudioCalls.OpenAndClose | modules/audiowrapper/audiowrapper.c:237-313 | an opening leaves the row of its vendor stream behind the others, or loses the stream when memory is short; a close closes the stream of its row |
| AudioCalls.NothingForgotten | modules/audiowrapper/audiowrapper.c:198-313 | over any run an open vendor stream has a row, or a thread is opening or closing it, or its opening found no memory; with all calls over the open streams are those of the rows and the lost ones |
| AudioCalls.MutexTheorem | modules/audiowrapper/audiowrapper.c:262-313 | over any run no two rows of the two tables share a mutex |
| StreamTable.StreamRows.Find | modules/audiowrapper/audiowrapper.c:88-98 | the search loop finds the first row of the handle |
| StreamTable.StreamRows.Append | modules/audiowrapper/audiowrapper.c:262-313 | the row is added behind the grown table, all others unchanged; when realloc or malloc fails the rows are the old ones and the call fails |
| StreamTable.StreamRows.Remove | modules/audiowrapper/audiowrapper.c:205-221 | memmove and realloc take out exactly the first row of the handle and keep the order |
| DataChannels.AcquireKeeps | modules/ril/rapid_ril/CORE/channel_data.cpp:438-466 | an acquisition keeps the pool in order: distinct context ids, slots and direct channels in bijection, class ranges |
| DataChannels.AcquireOutcome | modules/ril/rapid_ril/CORE/channel_data.cpp:438-466 | a channel is returned iff one is free, always with its id; active iff it is not class 1 without a slot; at most one slot is filled, an empty one |
| DataChannels.AcquireInNumbers | modules/ril/rapid_ril/CORE/channel_data.cpp:438-609 | for the first free channel: on path 1 it is direct iff a slot from ipcMin below ipcMin + class1 is empty, else free again; on path 2 iff a slot from there below ipcMin + direct is; it gets the first such slot, which takes its id; any other profile gets none; bounds outside the table count as no slot and leave the mutex held |
| DataChannels.FreeSlotIsExact | modules/ril/rapid_ril/CORE/channel_data.cpp:611-632 | freeing by context id empties exactly the slot of the channel, if it has one |
| DataChannels.ResetKeeps | modules/ril/rapid_ril/CORE/channel_data.cpp:753-786 | a reset keeps the pool in order iff the modem frees slots or the channel held none |
| DataChannels.ResetUndoesAcquire | modules/ril/rapid_ril/CORE/channel_data.cpp:753-786 | resetting an acquired channel restores the slots and the set of active channels |
| DataChannels.MutexIsReleased | modules/ril/rapid_ril/CORE/channel_data.cpp:582-609 | the accessor mutex is released iff no slot search ran with a range outside the table |
| DataChannels.CheckedConfigReleases | modules/ril/rapid_ril/CORE/ND/MODEMS/initializer.cpp:1168-1206 | a configuration that passes the two checks, which are only logged, releases the mutex iff the lower bound of the class range is not negative, or no slot search runs |
| DataChannels.CheckedConfigIsSafe | modules/ril/rapid_ril/CORE/ND/MODEMS/initializer.cpp:1168-1206 | such a configuration releases the mutex in every pool and for every profile iff no class in use has a negative lower bound |
| DataChannels.CheckedConfigHoldsMutex | modules/ril/rapid_ril/CORE/ND/MODEMS/initializer.cpp:1168-1206 | a minimal channel number of -1 passes both checks, and the acquisition leaves the mutex held |
| DataChannels.BadRangeHoldsMutex | modules/ril/rapid_ril/CORE/channel_data.cpp:582-609 | a range beyond the table leaves the mutex held |
| DataChannels.FullSlotsGiveFreeChannel | modules/ril/rapid_ril/CORE/channel_data.cpp:516-580 | with full slots a class-1 profile gets a channel and a context id while the channel is free again |
| DataChannels.ChannelTheorem | modules/ril/rapid_ril/CORE/channel_data.cpp:438-632 | over any run: distinct ids of active channels, slots in use in bijection with direct channels, a direct channel's slot from ipcMin below ipcMin + class1 on path 1 and from there below ipcMin + direct on path 2, every active channel of path 1 direct, class-1 slots below class-2 slots |
| HsiAllocator.Allocator.GetFreeChnl | modules/ril/rapid_ril/CORE/channel_data.cpp:646-686 | the scan takes the first free channel below the limit and sets its id, nothing else changes |
| HsiAllocator.Allocator.GetFreeHSIChannel | modules/ril/rapid_ril/CORE/channel_data.cpp:582-609 | the first empty slot of the range takes the id; on an index error the mutex stays held |
| HsiAllocator.Allocator.FreeHSIChannel | modules/ril/rapid_ril/CORE/channel_data.cpp:611-632 | the first slot with the id is emptied and the result tells whether there was one |
| HsiAllocator.Allocator.GetChnlsRilHsi | modules/ril/rapid_ril/CORE/channel_data.cpp:516-580 | the switch over the class on the objects does what the value-level assignment says, class-1 rollback included |
| HsiAllocator.Allocator.GetFreeChnlsRilHsi | modules/ril/rapid_ril/CORE/channel_data.cpp:438-466 | the whole acquisition on the objects is the value-level one |
| HsiAllocator.Allocator.ResetDataCallInfo | modules/ril/rapid_ril/CORE/channel_data.cpp:753-774 | the reset on the objects is the value-level one |
| ChildContexts.MaskIsSet | modules/ril/rapid_ril/CORE/channel_data.cpp:363-413 | over any calls the mask holds exactly the ids added in range and neither removed nor cleared since |
| ChildContexts.SameSetSameMask | modules/ril/rapid_ril/CORE/channel_data.cpp:363-413 | masks that stand for the same set are equal |
| ChildContexts.AddedRefines | modules/ril/rapid_ril/CORE/channel_data.cpp:363-376 | setting the bit inserts the id; out of range nothing changes |
| ChildContexts.RemovedRefines | modules/ril/rapid_ril/CORE/channel_data.cpp:379-393 | clearing the bit removes the id; out of range nothing changes |
| ChildContexts.Contexts.AddChildContextID | modules/ril/rapid_ril/CORE/channel_data.cpp:363-376 | the object's set gains the id iff it is from 1 to 31 |
| ChildContexts.Contexts.RemoveChildContextID | modules/ril/rapid_ril/CORE/channel_data.cpp:379-393 | the object's set loses the id |
| ChildContexts.Contexts.ClearChildsContextID | modules/ril/rapid_ril/CORE/channel_data.cpp:395-402 | the object's set becomes empty |
| ChildContexts.Contexts.HasChildContextID | modules/ril/rapid_ril/CORE/channel_data.cpp:405-413 | membership, false out of range |
| ChildContexts.Rff1 | modules/ril/rapid_ril/CORE/channel_data.cpp:417-423 | ends for every word and returns its least set bit, -1 for zero |
| Text.FoundIffContained | modules/ril/rapid_ril/UTIL/ND/extract.cpp:19-39 | skipping spaces first loses no occurrence of a token |
| Text.ReadDigits | modules/ril/rapid_ril/UTIL/ND/extract.cpp:192-225 | the digit loop computes the value of the maximal run of digits in 32-bit arithmetic |
| Text.ValueIsDecimal | modules/ril/rapid_ril/UTIL/ND/extract.cpp:192-225 | that value is the decimal number modulo 2^32 |
| Responses.JudgeIsComplete | modules/ril/rapid_ril/CORE/response.cpp:71-118 | IsCompleteResponse says yes iff the buffer is complete, a condition stated without the order of the checks |
| Responses.OkEndIff | modules/ril/rapid_ril/CORE/response.cpp:258-295 | the OK recogniser fires iff OK CR LF stands anywhere or the prompt stands at the start |
| Responses.ExtendedIff | modules/ril/rapid_ril/CORE/response.cpp:163-209 | the extended-error recogniser fires iff its token is there and not merely waiting for the line end of its code |
| Responses.JudgeEnd | modules/ril/rapid_ril/CORE/response.cpp:71-118 | a check leaves the bytes alone and marks an end inside the buffer iff it says yes, except for an unsolicited response without line end |
| Responses.UnsolicitedWithoutLineEnd | modules/ril/rapid_ril/CORE/response.cpp:71-118 | an unsolicited text without CR LF is called complete with no end marked, and the transfer fails |
| Responses.DrainConserves | modules/ril/rapid_ril/CORE/ND/channel_nd.cpp:948-971 | emitted responses plus buffer are the bytes there were, and no response is empty |
| Responses.DrainIsThorough | modules/ril/rapid_ril/CORE/ND/channel_nd.cpp:948-971 | a drain that succeeds ends on a buffer that is not complete |
| Responses.StreamIsConserved | modules/ril/rapid_ril/CORE/ND/channel_nd.cpp:902-981 | over any arrivals, oracles and failures, emitted responses plus buffer equal the received stream |
| Responses.ExtendedCutsEarly | modules/ril/rapid_ril/CORE/response.cpp:163-209 | either error token without a return behind it is taken at once with the whole buffer, as unrecognised |
| ResponseAnswers.CodeAnswer | modules/ril/rapid_ril/CORE/response.cpp:163-209 | a finished code of the first token that decides gives its number, illegal SIM or ME iff it is 103 or 106 and a generic failure otherwise, and ends behind its line end; a malformed one is unrecognised and ends behind a line end or takes the buffer |
| ResponseAnswers.WordAnswer | modules/ril/rapid_ril/CORE/response.cpp:71-118 | without a code that decides: OK, the prompt, CONNECT and ABORTED succeed, ERROR is a generic failure, tried in the order of the code, each ending right behind its first occurrence; then the corrupt check, else no |
| ResponseAnswers.SiloAnswer | modules/ril/rapid_ril/CORE/response.cpp:124-157 | a text that a silo takes is unsolicited whatever it holds, and ends behind the first line end from the silo's pointer |
| ResponseAnswers.FirstEmitted | modules/ril/rapid_ril/CORE/ND/channel_nd.cpp:902-981 | what comes in joins the buffer; the first response that leaves is what the check said of all of it, cut at the marked end, and without an end nothing leaves |
| ResponseCuts.JudgePart | modules/ril/rapid_ril/CORE/response.cpp:71-118 | what the check makes of the first k characters of an error report, for every report, both tokens and every k |
| ResponseCuts.CutVerdict | modules/ril/rapid_ril/CORE/response.cpp:71-118 | a part of an error report is taken for complete iff the cut is neither before the end of the token nor between return and line feed |
| ResponseCuts.CutTheorem | modules/ril/rapid_ril/CORE/ND/channel_nd.cpp:902-981 | an error report read in any number of parts becomes the one response it becomes uncut iff every cut is harmless |
| ResponseCuts.SplitMatters | modules/ril/rapid_ril/CORE/ND/channel_nd.cpp:902-981 | an error report whose last digit is read separately emits something else than uncut |
| ResponseBuffer.Response.Append | modules/ril/rapid_ril/UTIL/ND/util.cpp:231-271 | whatever the capacity was, the bytes are appended and room for the terminator remains |
| ResponseBuffer.Response.IsUnsolicitedResponse | modules/ril/rapid_ril/CORE/response.cpp:124-157 | the flag follows the silos; the marker goes behind the next line end, if there is one |
| ResponseBuffer.Response.IsExtendedError | modules/ril/rapid_ril/CORE/response.cpp:163-209 | flags, codes, marker and answer as specified, for a malformed, a waiting and a finished code |
| ResponseBuffer.Response.RetrieveErrorCode | modules/ril/rapid_ril/CORE/response.cpp:478-521 | needs a return and a digit; else nothing changes |
| ResponseBuffer.Response.IsOkResponse | modules/ril/rapid_ril/CORE/response.cpp:258-295 | the three forms tried in order set marker and result as specified |
| ResponseBuffer.Response.IsFinalResponse | modules/ril/rapid_ril/CORE/response.cpp:301-381 | ERROR, CONNECT and ABORTED between line ends set marker and result |
| ResponseBuffer.Response.IsCorruptResponse | modules/ril/rapid_ril/CORE/response.cpp:216-252 | the flag is cleared; CR LF followed by CR cuts behind the LF |
| ResponseBuffer.Response.IsCompleteResponse | modules/ril/rapid_ril/CORE/response.cpp:71-118 | the object ends as the value-level check says |
| ResponseBuffer.Response.TransferData | modules/ril/rapid_ril/CORE/response.cpp:388-427 | refused without bytes or marker; else the old object keeps the bytes up to the marker and a new one gets the rest |
| ResponseBuffer.Receiver.ProcessModemData | modules/ril/rapid_ril/CORE/ND/channel_nd.cpp:902-981 | append, corrupt flag after a timeout and draining loop do what the value-level receive says; the loop ends |
| SapQueue.RilQueue.Enqueue | modules/ril/libril/rilSocketQueue.h:121-134 | the new request stands in front of all others: a stack |
| SapQueue.RilQueue.Dequeue | modules/ril/libril/rilSocketQueue.h:102-118 | takes the front and keeps the rest; an empty queue stays as it is and yields nothing, where the code goes on waiting |
| SapQueue.RilQueue.CheckAndDequeue | modules/ril/libril/rilSocketQueue.h:137-156 | removes exactly the first element with the id and token, keeps the order of the rest, and reports iff there was one |
| SapQueue.SapSocket.PushRecord | modules/ril/libril/RilSapSocket.cpp:397-426 | headers and requests are allocated, queued or freed as specified on every failure path |
| SapQueue.SapSocket.ProcessRequest | modules/ril/libril/RilSapSocket.cpp:197-213 | one round takes the front record, dispatches its header and frees the record; on an empty queue nothing changes |
| SapQueue.SapSocket.DispatchRequest | modules/ril/libril/RilSapSocket.cpp:267-296 | a new pending request owns the header, or without memory the header is freed |
| SapQueue.SapSocket.SOnRequestComplete | modules/ril/libril/RilSapSocket.cpp:50-71 | a request of an unlisted socket is freed with its header, any other is completed |
| SapQueue.SapSocket.OnRequestComplete | modules/ril/libril/RilSapSocket.cpp:298-333 | the first pending match and the header of the completed request are freed |
| SapRecords.CompletePending | modules/ril/libril/RilSapSocket.cpp:298-333 | a completion releases the very request it was given, and keeps ownership, iff no earlier pending request has its id and token |
| SapRecords.WrongRequestIsFreed | modules/ril/libril/RilSapSocket.cpp:298-333 | two pending requests with one id and token: completing the older frees the newer request and the header of the older, which stays queued |
| SapRecords.CompleteTwice | modules/ril/libril/RilSapSocket.cpp:50-71 | completing a request again touches freed memory |
| SapRecords.OwnershipTheorem | modules/ril/libril/RilSapSocket.cpp:197-426 | over any disciplined run from the empty socket no freed memory is touched or freed again, the live memory is what the queues and the vendor hold, and once those are empty nothing is left allocated |
| SapRecords.NothingLeaks | modules/ril/libril/RilSapSocket.cpp:197-426 | with empty queues and nothing outstanding the state is the empty one: no request and no header is allocated |
| GraphicBuffers.IdSurvives | modules/libshims/ui/GraphicBuffer.cpp:391-392 | a 64-bit id comes back from its two signed words |
| GraphicBuffers.RoundTrip | modules/libshims/ui/GraphicBuffer.cpp:299-413 | unflatten takes exactly what flatten wrote, whatever follows, and gives the buffer back if its handle holds anything, else only the id |
| GraphicBuffers.RoundTripIff | modules/libshims/ui/GraphicBuffer.cpp:299-413 | the buffer comes back iff its handle holds something or it is the empty buffer |
| GraphicBuffers.FieldsAreLost | modules/libshims/ui/GraphicBuffer.cpp:376-413 | a buffer with fields and no handle comes back with its id only |
| GraphicBuffers.TooLargeIsRefused | modules/libshims/ui/GraphicBuffer.cpp:346-357 | 4096 descriptors or 4086 ints and more are refused, and the receiver loses its fields and handle but not its id |
| GraphicBuffers.TruncatedIsRefused | modules/libshims/ui/GraphicBuffer.cpp:336-365 | a flattened buffer cut short is refused and leaves the receiver as it was |
| GraphicBuffers.FlatIs | modules/libshims/ui/GraphicBuffer.cpp:299-334 | the magic word, width, height, stride, format, usage, the halves of the id, the two counts and the ints, in this order, four bytes each |
| GraphicBuffers.FailuresClear | modules/libshims/ui/GraphicBuffer.cpp:366-400 | a handle that cannot be made or mapped leaves the receiver without fields and handle, with its own id or the flattened one |
| GraphicBuffers.OthersAreRefused | modules/libshims/ui/GraphicBuffer.cpp:336-346 | fewer than 32 bytes, or another first word, leave the receiver as it was |
| GraphicBuffers.GraphicBuffer.Flatten | modules/libshims/ui/GraphicBuffer.cpp:299-334 | writes the ten header words, descriptors and ints, nothing behind them, and lowers size and count by what it wrote; refused without room |
| GraphicBuffers.GraphicBuffer.UnflattenFrom | modules/libshims/ui/GraphicBuffer.cpp:336-413 | every path of unflatten on the object, and how many words it reads; a freed handle is never left in place |
| GraphicBuffers.ReadsInside | modules/libshims/ui/GraphicBuffer.cpp:336-365 | unflatten reads only inside the size it is given iff that is below 32, or holds ten words, or the magic word is wrong |
| GraphicBuffers.ReadsBeyond | modules/libshims/ui/GraphicBuffer.cpp:336-346 | with a size of 36 and the right magic word ten words are read |
| CdmaSms.RoundTrip | modules/ril/libril/ril.cpp:1159-1237 | decoding an encoded message, whatever follows, gives back every field, and the arrays up to their clamped counts with zeros behind, and leaves exactly what follows |
| CdmaSms.EncodeIs | modules/ril/libril/ril.cpp:3840-3896 | every word of an encoded message by its place, with at most 36 digits, 36 subaddress digits and 255 bytes of bearer data |
| CdmaSms.TruncatedIsRejected | modules/ril/libril/ril.cpp:1159-1237 | every proper prefix of an encoded message is rejected, though only the last status is checked and stale values are used |
| CdmaSms.DecodeExtends | modules/ril/libril/ril.cpp:1159-1237 | an accepted parcel means the same whatever is appended |
| CdmaSms.Parcel.ConstructCdmaSms | modules/ril/libril/ril.cpp:1159-1237 | the reads and digit loops on the parcel are the specified decoder |
| CdmaSms.Parcel.ResponseCdmaSms | modules/ril/libril/ril.cpp:3840-3896 | the writes and digit loops are the specified encoder; a null or wrongly sized response writes nothing |
| DnsFailures.CounterIsRow | modules/ril/libril/ril.cpp:2573-2595 | the static counter is the number of failures since the last recovery modulo 3, so 0, 1 or 2 |
| DnsFailures.ShortComesBack | modules/ril/libril/ril.cpp:2574-2579 | the conversion of the status undoes a short copied into the low bytes of an int, whatever the other bytes hold |
| DnsFailures.FailsIs | modules/ril/libril/ril.cpp:2548-2583 | with zero low 16 bits of the status an entry fails iff its DNS address is null, 0.0.0.0 or ::, and recovers otherwise; no other entry does either |
| DnsFailures.EveryThirdFailure | modules/ril/libril/ril.cpp:2573-2597 | an entry is 36 iff it is the 3rd, 6th, ... failure of its row, other failures 31, any other entry its sign-extended low 16 bits |
| DnsFailures.OthersDoNotCount | modules/ril/libril/ril.cpp:2573-2595 | entries with a non-zero status neither count nor reset |
| DnsFailures.ListsContinue | modules/ril/libril/ril.cpp:2552-2621 | two calls report what one call with both lists would |
| DnsFailures.Responder.ResponseDataCallListV6 | modules/ril/libril/ril.cpp:2552-2621 | refuses null and odd lengths untouched; else 6, the count, and for each entry status, retry, cid, active and the five strings in nine items, and the counter as specified |
| TimeoutCache.ExactIffFits | modules/ril/rapid_ril/CORE/request_info_table.cpp:127-181 | an extended timeout is exact iff it is at most (2^32-1-extra)/2 before, and zero iff the sum is 2^32 or 2^33 |
| TimeoutCache.SmallTimeoutsAreSafe | modules/ril/rapid_ril/CORE/request_info_table.cpp:127-181 | configured timeouts up to (2^32-1-50000)/2 give non-zero, exact results |
| TimeoutCache.ExtensionCanBeZero | modules/ril/rapid_ril/CORE/request_info_table.cpp:127-138 | a configured timeout whose extension wraps to zero |
| TimeoutCache.RunIsWriteOnce | modules/ril/rapid_ril/CORE/request_info_table.cpp:184-203 | over any interleaving, even with a changing repository, a cached entry is never overwritten and the lock excludes |
| TimeoutCache.AnswersAgree | modules/ril/rapid_ril/CORE/request_info_table.cpp:58-207 | over any interleaving with one configuration every answer is that of its id: t, 2^32-1 for 0, 2t+50000 or 2t+10000 modulo 2^32 for the two groups of a multi-SIM modem, the internal timeout from 500 on, else the default; so answers for an id agree, misses and hits alike |
| TimeoutCache.RequestInfoTable.GetRequestInfo | modules/ril/rapid_ril/CORE/request_info_table.cpp:58-207 | the same answer for every kind of id, the default without a table, and the cache gains at most the entry of a missed id |
| InitStrings.JoinOfSplit | modules/ril/rapid_ril/CORE/channelbase.cpp:786-846 | the segments put together are the init string and hold no bar |
| InitStrings.SplitOfJoin | modules/ril/rapid_ril/CORE/channelbase.cpp:786-846 | no other segments do that |
| InitStrings.CommandsAre | modules/ril/rapid_ril/CORE/channelbase.cpp:801-828 | the commands are A, T, the segment and CR for the non-empty segments in order; final iff last and the last segment is not empty |
| InitStrings.SendIs | modules/ril/rapid_ril/CORE/channelbase.cpp:786-848 | a front of the commands is queued, all of them iff the loop gets through, and only then an empty last segment triggers the event |
| InitStrings.SendSucceeds | modules/ril/rapid_ril/CORE/channelbase.cpp:801-828 | the loop gets through iff every non-empty segment has at most 1020 characters and its command is queued |
| InitStrings.OneCompletion | modules/ril/rapid_ril/CORE/cmdcontext.cpp:73-97 | exactly one completion source per sent init string; it becomes a clean-up iff the final command fails; a failed send completes nothing |
| InitStrings.Channel.SendCommands | modules/ril/rapid_ril/CORE/channelbase.cpp:773-848 | cutting the string in place queues and triggers exactly what the specification says |
| CommandContexts.ContextContainer.Add | modules/ril/rapid_ril/CORE/cmdcontext.cpp:52-58 | the linked list gains the context at its end |
| CommandContexts.ContextContainer.ExecuteAll | modules/ril/rapid_ril/CORE/cmdcontext.cpp:45-50 | every context is executed once, in list order: events signal iff the command succeeded, the final init context completes or cleans up, others nothing |

## Left out

- `telephony/ril.h`, `record_stream`, `Parcel`, protobuf, `CTE`, `CRepository` and `CRilQueue` are not part of this model: constants of `ril.h` are written as literals, a parcel is a sequence of 32-bit words, the decoder of SAP records and the repository are parameters, and the command queue keeps commands in the order they are queued.
- Overflow of the seconds of a timeval, and intervals that are not normalised.
- EventLoop.Loop.TimerAdd: an event that is already linked or watched is outside the contract; the code does not check for it and would link it into a second place.
- EventLoop.Loop.EventAdd: an event that is already watched is outside the contract, and so is a descriptor that is watched, for which `EventLoop.CacheAdd` says what goes wrong; the code checks for neither.
- EventLoop.Loop.Turn: in the turn in which an event is called it is not set to another descriptor; what other threads do while callbacks run is counted as deeds of the callback, and what they do between the two scans as done before the scans.
- LoopRun.RunTurns: intervals are not negative, the clock does not go back, and no two timers share a name.
- WakeRun.LockTheorem: takes timer callback and cleanup as one step; the race inside the callback is described by `WakeLock.LateCallback` instead.
- RequestAnswers.ResponseTheorem: claims uniqueness for final responses only, since the code allows repeated acks and acks of local requests; the rest of an ack, after its record is marked, is one step, also when the record has been completed and freed meanwhile.
- The dispatch functions that unpack request arguments, and the long response layouts (signal strength, cell info, SIM status).
- Senders.StreamTheorem: a descriptor number is given to clients only; that a file which is no client gets the number of a closed one is not modelled.
- AudioLocks.EveryCallCanFinish: vendor calls return, `in_use` is never set by the code, and calls into a HAL that was already closed, `wrapper_open` and the unlocked `WRAP_HAL` calls are not modelled.
- `ReserveFreeChnlsRilHsi` and the other ways to set a context id: runs use `GetFreeChnlsRilHsi` and `ResetDataCallInfo` only, each as one step, with at most five data channels; the other fields that `ResetDataCallInfo` clears are not modelled.
- Responses.JudgeIsComplete: what stands behind the terminator of the buffer, which the corrupt-response check may look at, is an input; silos leave their pointer inside the text; buffer allocation succeeds.
- ResponseBuffer.Response.TransferData: the check for null in and non-null out arguments is left to types.
- The payload buffers of SAP records, which the normal path does not free: ownership is claimed for headers and request records. The single-SIM socket list is a flag on the record.
- SapQueue.RilQueue.Dequeue: waiting on an empty queue is a call that yields nothing.
- GraphicBuffers.GraphicBuffer.Flatten: does not model where the buffer cursor ends, because the code advances an int pointer by a byte count; remaining sizes and counts are modelled.
- GraphicBuffers.GraphicBuffer.UnflattenFrom: the array holds the words that are read, which may be more than the size given; `GraphicBuffers.ReadsInside` says when.
- TimeoutCache.AnswersAgree: which request ids belong to the two groups of the switch is an input; name and channel of a request are not modelled, and the unlocked read of a cache entry is one step.
- How the init string is put together before it is split, and the file and line of log messages everywhere.
- Camera, lights, NFC, vibrator, power hints, corkscrew and ICU shims, per-channel subclasses and plain headers: thin wrappers.
