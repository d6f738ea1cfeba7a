# front_server: a Dafny model

front_server is a small TCP server with two event loops: an edge-triggered epoll reactor
(`Server::InitServer`) and a libevent echo server (`Server::InitEventServer`, the one its constructor
selects). This project models both as transition systems in which the network acts between any two
steps, proves what holds over all their runs, and writes the loops and callbacks out as imperative
code. The network and the replies of kernel and library are a script, which may be any run of the
transition system; the code is proved to follow it, so the theorems about runs apply to that code.
Self-contained code
that the server relies on is modelled beside them: the counters of the rate-limited logging macros,
`struct timeval` arithmetic, the truncating test printers and `MethodName`.

## Modules

- `Basics`, `Bytes`: shared definitions; byte strings, concatenation of chunks, zero padding to the 1024-byte buffer.
- `EpollModel`: states, actions, `Enabled` (the contract of the system calls) and `Apply` (their effect).
  Every system call is a step of its own.
- `EpollSafety`: the invariant of every step and what it means in every reachable state.
- `EpollQuiescence`: how much the loop works for the traffic it gets, and what it has done once the network is silent.
- `EpollBacklog`: who is accepted, left waiting or lost by then.
- `EpollStreams`: the bytes from end to end: what each peer sends, told from the run alone, and what the log shows.
- `EpollLoop`: `InitServer` as nested loops over an events array and a buffer cleared in place, following a script.
- `EventModel`: bufferevents, callbacks and the record of library calls.
- `EventOwnership`, `EventStreams`, `EventBacklog`: order of calls and ownership, told from the run alone; the echo as
  a stream; how much input stays unread.
- `EventServer`: `InitEventServer`, the callbacks and the destructor as imperative code.
- `LogCounters`, `Timeval`, `Printers`, `MethodName`.

## What is assumed of the environment

- epoll raises an edge for a descriptor registered with EPOLLET at each arrival, connect and close, and when one
  that is already readable is registered. `epoll_wait` reports 1 to 1024 distinct descriptors that have an edge
  (or, without EPOLLET, are readable), in any order, and a descriptor with bytes buffered as readable; or it fails.
- `accept` returns a descriptor that is not open. It may fail although a connection waits, and it may then lose that
  connection: server/src/server.cc:162 leaves the address length that is passed to it uninitialised.
- `read` returns between 1 and 1024 of the buffered bytes, any number of them. It returns 0 or less only when
  nothing is buffered, and then at once only if the socket is nonblocking or at its end.
  `LeavingTheDrainEarly` shows what breaks if it did so earlier.
- `bufferevent_read` takes min(1024, available) bytes, `bufferevent_write` appends all it is given or fails,
  `bufferevent_free` closes the socket of a bufferevent made with `BEV_OPT_CLOSE_ON_FREE`. Callbacks are not
  deferred and the server has one thread, so a callback runs to its end.
- libevent calls back, while the loop runs, only for bufferevents that are not freed and have their callbacks set; the
  read and write callbacks only for bufferevents that are enabled for reading and writing, and the listener callback
  with a descriptor that is not open. The order of calls in `CallsAreLawful` rests on this.

## Properties that the code does not have

- Whoever connects is accepted: false, because there is one accept per edge (`SecondPeerIsStranded`), and because a
  failing accept may take its connection with it (`OnlyPeerIsLost`). `AllAcceptedExactlyWhen` gives the exact condition,
  and `BacklogAtRest` the number of those left waiting.
- A `recv:` line shows what was read: the buffer does (`LogShowsWhatWasRead`), its text exactly if the chunk is shorter
  than the buffer and has no zero byte; a full buffer without one is not terminated (`TextIsChunkExactlyWhen`).
- The echo is what was sent: false, every chunk comes back as 1024 bytes (`ShortMessageIsPadded`). It is true
  exactly if every callback filled its buffer (`EchoIsExact`), which can be told from the arrivals and callbacks of
  the run (`EchoIsExactExactlyWhen`).
- A read callback leaves no input behind: false (`OneByteTooMany`). `InputIsEmptyExactlyWhen` gives the exact
  condition.
- `MethodName` returns a name: it ends at the last parenthesis, so it contains the first one exactly if the two
  differ (`NameIsClean`, `FunctionPointerParameter`).
- `evutil_timercmp` orders by time: false (`UnnormalisedCompareWrongly`). It does so exactly if the difference of
  the microsecond fields does not outweigh the difference in seconds (`ComparesByTimeExactlyWhen`), so always on
  normalised values (`ComparisonIsOrder`).

## Model

| member | source | states |
|---|---|---|
| `EpollSafety.StepKeepsInv` | server/src/server.cc:157-203 | each step of server or network keeps the whole invariant: no lost edge, byte conservation, descriptor soundness, batch soundness, accounting |
| `EpollSafety.ReachableInv` | server/src/server.cc:156-203 | the invariant holds in every state that any run reaches |
| `EpollSafety.NeverLosesAnEdge` | server/src/server.cc:157-194 | a registered connection with unread bytes has an edge pending, is reported readable in the unhandled part of the batch, or is being drained |
| `EpollSafety.BytesConserved` | server/src/server.cc:182-194 | what the peer sent is the chunks read, in order, followed by what is unread; chunks have 1 to 1024 bytes |
| `EpollSafety.WatchedIsNonblocking` | server/src/server.cc:261-275 | whatever epoll watches, listener or connection, is O_NONBLOCK and has otherwise the flag bits it had before SetNonblocking |
| `EpollSafety.DispatchIsTrue` | server/src/server.cc:160-187 | an event carries the descriptor it belongs to; the test against listen_sock is true for the listener only, and no descriptor is negative |
| `EpollSafety.AcceptedAreAccountedFor` | server/src/server.cc:159-181 | apart from the one in flight, accepted descriptors are registered or dropped, never both; backlog = arrivals - accepts - connections lost in accept; accepts never exceed listener events handled |
| `EpollSafety.RunExtends` | server/src/server.cc:156-203 | over any run the open set only grows, registrations never change, and bytes and chunks are only appended |
| `EpollSafety.LeavingTheDrainEarly` | server/src/server.cc:191-194 | leaving the read loop keeps the no-lost-edge property exactly if nothing is unread or a new edge is pending |
| `EpollQuiescence.NeverStuck` | server/src/server.cc:157-203 | in every reachable state the server has a step to take, unless it sleeps in epoll_wait with no edge: read and accept never block |
| `EpollQuiescence.RoundsStep` | server/src/server.cc:157-203 | pending edges + 1 if the listener's is among them strictly decreases per epoll_wait round, whatever is registered meanwhile |
| `EpollQuiescence.WorkIsPaidFor` | server/src/server.cc:156-203 | over every run, the server's steps are at most those due at the start plus a fixed price per connect, arrival, close and interrupted wait plus one per byte; rounds likewise, with bytes free |
| `EpollQuiescence.QuietRunIsBounded` | server/src/server.cc:156-203 | a silent run has at most StepsDue steps and RoundsDue rounds, with more than 1024 ready descriptors too |
| `EpollQuiescence.EverythingIsReadAtRest` | server/src/server.cc:156-203 | a silent run that cannot go on ends asleep, within the bounds, with every registered connection's bytes read completely and in order |
| `EpollQuiescence.RestIsReached` | server/src/server.cc:156-203 | from every state of the invariant there is a silent run to rest |
| `EpollBacklog.BacklogAtRest` | server/src/server.cc:160-167 | at rest, max(0, waiting - listener events due + accepts refused) connections still wait; none exactly if waiting and refusals together are at most the events due, and those are at most two |
| `EpollBacklog.AllAcceptedExactlyWhen` | server/src/server.cc:160-167 | at rest all that waited are accepted exactly if no accept lost its connection and waiting and refusals together are at most the listener events due |
| `EpollBacklog.SecondPeerIsStranded` | server/src/server.cc:160-167 | from every reachable state in which the loop sleeps: after two connects, every silent run to rest leaves one more connection waiting than before |
| `EpollBacklog.OnlyPeerIsLost` | server/src/server.cc:160-167 | from every reachable state in which the loop sleeps and nobody waits: after one connect there is a silent run to rest that leaves nobody waiting and nobody accepted |
| `EpollStreams.DeliveredIsSent` | server/src/server.cc:160-194 | told from the run alone: the connections are the accepted ones, each of a different peer, in the order of connecting; what was delivered to one is what its peer sent before and after the accept; the rest wait in the backlog with what they sent |
| `EpollStreams.LogShowsWhatWasRead` | server/src/server.cc:189-194 | over every run, the buffers logged for a connection are the chunks read from it, in order, each followed by zeros |
| `EpollStreams.TextIsChunkExactlyWhen` | server/src/server.cc:190-194 | the text of a log line is the chunk exactly if it has less than 1024 bytes and no zero; it runs past the buffer exactly if it has 1024 bytes and no zero |
| `EpollStreams.LogHoldsWhatWasSent` | server/src/server.cc:156-203 | in every run, what is logged of a connection followed by what is unread is, without zero bytes, what its peer sent |
| `EpollStreams.EverythingIsLoggedAtRest` | server/src/server.cc:156-203 | whenever the loop sleeps, the log has all non-zero bytes sent to each watched connection, in order |
| `EpollQuiescence.DrainIterations` | server/src/server.cc:189-194 | with L bytes buffered and none arriving, the read loop body runs between ceil(L/1024) and L times |
| `EpollLoop.Reactor.EpollWait` | server/src/server.cc:158-158 | takes the network's actions and then one reply from the script: -1 if it is a failure, else fills the events array with the batch reported, at most 1024; does not return if the script ends |
| `EpollLoop.Reactor.Accept` | server/src/server.cc:163-167 | takes one reply from the script: its descriptor, or -1 if accept fails, which may cost the connection |
| `EpollLoop.Reactor.SetNonblocking` | server/src/server.cc:261-275 | two fcntl calls with the network acting in between; O_NONBLOCK is added to the flags exactly if both replies are successes, otherwise the descriptor is given up |
| `EpollLoop.Reactor.WatchOrDrop` | server/src/server.cc:169-181 | after accept: follows the script to the next entry, after which the descriptor is watched exactly if it was not given up |
| `EpollLoop.Reactor.EpollCtlAdd` | server/src/server.cc:175-181 | success exactly if the script says so, exactly if the descriptor is now in the interest list, and exactly if it was not given up |
| `EpollLoop.Reactor.Read` | server/src/server.cc:191-191 | takes one reply: a positive size moves that many unread bytes to the start of the buffer, leaves the rest of it and makes a line due; any other size means that nothing was buffered |
| `EpollLoop.Reactor.HandleListener` | server/src/server.cc:160-181 | follows the script from this entry to the next, with exactly one listener event handled |
| `EpollLoop.Reactor.LogAndClear` | server/src/server.cc:192-193 | logs the whole array and clears it |
| `EpollLoop.Reactor.DrainSocket` | server/src/server.cc:189-194 | follows the script from the drain to the next entry; nothing is unread at its end, and the log has exactly the lines of the run: each chunk zero-padded, no residue of earlier ones |
| `EpollLoop.Reactor.HandleEntry` | server/src/server.cc:160-201 | follows the script from this entry to the next, in state and log; a readable connection has nothing unread at its end |
| `EpollLoop.Reactor.HandleBatch` | server/src/server.cc:159-202 | follows the script, in state and log, from the first entry of the batch to its end, also for nfds = -1 |
| `EpollLoop.Reactor.Round` | server/src/server.cc:157-203 | one iteration is the run of the actions that it takes from the script, in state and log, with exactly one return of epoll_wait unless the script ends there |
| `EpollLoop.Reactor.Serve` | server/src/server.cc:156-203 | for every script the loop ends in exactly the state of its run; the log grows by the lines of the run, which for every connection are the chunks read meanwhile, zero-padded, in order; nothing open, watched, delivered or read is taken back |
| `EpollLoop.Reactor.InitServer` | server/src/server.cc:118-156 | serves exactly if every set-up call succeeds, and then ends, for every script, in the state of its run from an initial state, with the lines of it logged; a failed set-up leaves open exactly socket and epoll descriptor as far as it got them |
| `EpollLoop.AnyRunIsScripted` | server/src/server.cc:156-203 | every run from a state of the invariant is the beginning of a script, so the code is proved for all of them |
| `EventOwnership.LawfulMeans` | server/src/server.cc:47-57 | a lawful record of calls sets callbacks before enabling, frees once and mentions nothing after its free |
| `EventOwnership.StepKeepsInv` | server/src/server.cc:37-116 | each callback keeps ownership, the record and lawfulness |
| `EventOwnership.AcceptsAreAccountedFor` | server/src/server.cc:102-116 | accepts = live + freed + failed bufferevents; exactly the freed ones have a bufferevent_free call |
| `EventOwnership.FreedExactlyByItsEvent` | server/src/server.cc:47-57 | in every run a bufferevent is freed exactly if its event callback ran, for any event mask |
| `EventOwnership.CallsAreLawful` | server/src/server.cc:37-116 | in every run: callbacks set before enabled, one free at most, no call on a bufferevent after it |
| `EventOwnership.CallsAreThoseOfTheRun` | server/src/server.cc:27-116 | the library calls of a run are those of its callbacks, in their order, and no others |
| `EventOwnership.ExitsAreSignals` | server/src/server.cc:93-100 | event_base_loopexit is called once per signal |
| `EventOwnership.DestroyedReleasesAll` | server/src/server.cc:27-31 | a destroyed server has freed listener, signal event and base as its last three calls, in this order, and none of them before |
| `EventOwnership.LoopKeepsItsEvents` | server/src/server.cc:27-31 | until destruction listener, signal event and base stay; live bufferevents are never freed by destruction |
| `EventOwnership.OpenDescriptors` | server/src/server.cc:102-110 | open descriptors are those of live bufferevents, one owner each, and those leaked by a failed bufferevent_socket_new |
| `EventOwnership.MadeExactlyByItsAccept` | server/src/server.cc:102-116 | accept number id has a bufferevent, on its own descriptor, exactly if bufferevent_socket_new succeeded for it; otherwise it counts as failed |
| `EventOwnership.LeakedExactlyByFailure` | server/src/server.cc:107-110 | a descriptor is left without an owner exactly if bufferevent_socket_new failed for it; it is never closed |
| `EventOwnership.OpenExactlyWhen` | server/src/server.cc:47-116 | told from the run alone: a descriptor is open exactly if its bufferevent could not be made, or was made and had no event callback yet |
| `EventStreams.RunFaithful` | server/src/server.cc:37-42 | for every bufferevent of every run, bytes delivered = chunks drained ++ input, and sent ++ output = the padded chunks |
| `EventStreams.DeliveredIsSent` | server/src/server.cc:37-42 | the bytes on record for a connection, live or freed, are those that arrived for it in the run |
| `EventStreams.EchoLaw` | server/src/server.cc:37-42 | the output is the drained chunks zero-padded to 1024, and the chunks followed by the input are the bytes that arrived in the run; without zero bytes it is the non-zero bytes of the written chunks, and for NUL-free data with no failed write it is, with the input, exactly what was sent |
| `EventStreams.AnsweredEcho` | server/src/server.cc:37-42 | the non-zero bytes of the echo of a connection with nothing unread and no failed write are those of what was sent |
| `EventStreams.SegmentationIsInvisible` | server/src/server.cc:37-42 | two connections of any runs in which the same bytes arrive, and are drained, have the same non-zero bytes echoed, however arrivals are cut |
| `EventStreams.EchoIsExact` | server/src/server.cc:37-42 | the raw echo equals what was sent exactly if every callback took 1024 bytes |
| `EventStreams.ShortMessageIsPadded` | server/src/server.cc:37-42 | a one-byte message comes back as that byte and 1023 zeros |
| `EventBacklog.InputIsQueue` | server/src/server.cc:37-42 | the input buffer of a connection is a queue that serves 1024 bytes per callback |
| `EventBacklog.QueueIsMaximalExcess` | server/src/server.cc:37-42 | the queue is the largest excess of arrivals over 1024 bytes per callback among all suffixes of the run |
| `EventBacklog.InputIsEmptyExactlyWhen` | server/src/server.cc:37-42 | nothing is unread exactly if over every suffix of the run arrivals are at most 1024 per callback |
| `EventBacklog.BacklogIsAtLeast` | server/src/server.cc:37-42 | after k callbacks at least delivered - 1024k bytes are unread |
| `EventBacklog.SmallAndPromptLeavesNothing` | server/src/server.cc:37-42 | if every arrival is at most 1024 bytes and is answered at once, nothing is left |
| `EventBacklog.OneByteTooMany` | server/src/server.cc:37-42 | an arrival of 1025 bytes, answered at once, leaves its last byte |
| `EventBacklog.EchoIsExactExactlyWhen` | server/src/server.cc:37-42 | with no failed write, the echo is what was sent exactly if arrivals and earlier callbacks had left at least 1024 bytes waiting before every read callback; for connections still open and freed ones |
| `EventServer.FrontServer.BuffereventRead` | thirdparty/event2/bufferevent.h:403-414 | moves min(size, available) bytes from the input to the start of the array |
| `EventServer.FrontServer.BuffereventWrite` | thirdparty/event2/bufferevent.h:372-387 | the output grows by the whole array, or not at all if the write fails; nothing else of the server changes |
| `EventServer.FrontServer.ListenerCallBack` | server/src/server.cc:102-116 | exactly the step: new bufferevent, callbacks, then enable write and read; on failure the descriptor is left over |
| `EventServer.FrontServer.ConnReadCallBack` | server/src/server.cc:37-42 | exactly the step: up to 1024 bytes into a zeroed array, which is written whole |
| `EventServer.FrontServer.ConnEventCallBack` | server/src/server.cc:47-57 | exactly the step: frees the bufferevent for any event mask |
| `EventServer.FrontServer.SignalCallBack` | server/src/server.cc:93-100 | asks the loop to exit and changes nothing else |
| `EventServer.FrontServer.Dispatch` | server/src/server.cc:89-90 | calling back for a script of events is the run of the transition system over that script |
| `EventServer.FrontServer.InitEventServer` | server/src/server.cc:59-91 | serves exactly if base, listener, signal event and event_add succeed; otherwise keeps what it made so far |
| `EventServer.FrontServer.Destructor` | server/src/server.cc:27-31 | frees exactly the members that are not NULL, each once, listener, signal event, base, also after a failed set-up |
| `LogCounters.EveryNSite.Hit` | thirdparty/glog/logging.h:891-898 | the statements of the macro compute the specified outcome |
| `LogCounters.IfEveryNSite.Hit` | thirdparty/glog/logging.h:900-907 | the statements of the macro compute the specified outcome |
| `LogCounters.FirstNSite.Hit` | thirdparty/glog/logging.h:918-925 | the statements of the macro compute the specified outcome |
| `LogCounters.EverySchedule` | thirdparty/glog/logging.h:891-916 | call k writes exactly if (k-1) mod n = 0 and carries k; also for n <= 0; when the counters overflow |
| `LogCounters.IfEverySchedule` | thirdparty/glog/logging.h:900-907 | a call writes exactly if its condition holds and is number 1 mod n of those that do; the message carries the number of calls |
| `LogCounters.IfEveryTotal` | thirdparty/glog/logging.h:900-907 | over conditions of which c hold, ceil(c/n) messages |
| `LogCounters.IfEverySign` | thirdparty/glog/logging.h:904-905 | a negative n gives the same outcomes as its absolute value |
| `LogCounters.IfEveryUndefined` | thirdparty/glog/logging.h:900-907 | for every n, undefined exactly beyond INT_MAX calls or, with n = 0, from the first true condition |
| `LogCounters.TwoFormsAgree` | thirdparty/glog/logging.h:891-907 | the subtracting and the dividing counter write at the same calls with the same counters, n = 1 included |
| `LogCounters.FirstSchedule` | thirdparty/glog/logging.h:918-925 | exactly the first n calls write; the counter is min(calls, n+1); it overflows only for n = INT_MAX |
| `LogCounters.FirstTotal` | thirdparty/glog/logging.h:918-925 | any number of calls, up to INT_MAX if n is that, writes min(calls, n) messages |
| `Timeval.TimerAdd` | thirdparty/event2/util.h:518-526 | the field-by-field body gives the sum under every aliasing of the three pointers |
| `Timeval.TimerSub` | thirdparty/event2/util.h:527-535 | the field-by-field body gives the difference under every aliasing of the three pointers |
| `Timeval.SumIsAddition` | thirdparty/event2/util.h:518-526 | microseconds add up; the result is normalised exactly if one carry suffices |
| `Timeval.DifferenceIsSubtraction` | thirdparty/event2/util.h:527-535 | microseconds subtract; the result is normalised exactly if one borrow suffices |
| `Timeval.Laws` | thirdparty/event2/util.h:518-535 | on normalised values subtraction undoes addition and the reverse; addition commutes and associates |
| `Timeval.ComparesByTimeExactlyWhen` | thirdparty/event2/util.h:545-550 | all five comparisons agree with the order of microseconds exactly if the microsecond fields never outweigh the difference in seconds |
| `Timeval.ComparisonIsOrder` | thirdparty/event2/util.h:545-550 | on normalised values all five comparisons agree with the order of microseconds |
| `Printers.DefaultPrintTo` | thirdparty/gtest/gtest-printers.h:369-395 | the loop with its break writes the specified tokens |
| `Printers.ContainerRoundTrip` | thirdparty/gtest/gtest-printers.h:373-394 | the tokens parse back to the first min(32, n) elements, marked as cut exactly if n > 32 |
| `Printers.PrintRawArrayTo` | thirdparty/gtest/gtest-printers.h:547-554 | prints count elements from begin, in range, for every count >= 1 |
| `Printers.UniversalPrintArray` | thirdparty/gtest/gtest-printers.h:715-736 | writes the specified tokens; every inner call has a count of at least 1 |
| `Printers.ArrayShows` | thirdparty/gtest/gtest-printers.h:721-733 | up to 18 elements all appear in order, of more the first 8 and last 8 without overlap; the array can be read back exactly if it has at most 18 |
| `MethodName.MethodNameIs` | server/src/defines.h:20-25 | neither substr throws, nothing underflows, the result is the slice from the last word before the first "(" to the last "(" |
| `MethodName.MethodNameNeverThrows` | server/src/defines.h:20-25 | such positions exist in every string, so the result is always defined |
| `MethodName.NameIsClean` | server/src/defines.h:20-25 | the result is free of "(" exactly if the first and the last one are the same |
| `MethodName.FunctionPointerParameter` | server/src/defines.h:20-25 | a second "(" puts the first one into the name |

## Left out

- Kernel and libevent internals: their bodies are not part of this repository; only the contracts listed above are used.
- `LogAndClear`: a line is the buffer that it is written from; what its text shows of that is `TextIsChunkExactlyWhen`.
- `GetAddressBySocket`, `strerror` and other I/O (server/src/helper.cc): foreign calls; the model records that a bufferevent is touched by them.
- `SignalCallBack`'s two seconds: when the loop ends after `event_base_loopexit` is decided by the library; the model lets it end at any time.
- `SetReuseAddr`, `Listen` and `CreateSocket`: thin wrappers, present as success or failure of the set-up.
- Endless loops: `Serve` goes on for as long as its script, which is finite and ends in epoll_wait; any run is the beginning of such a script (`AnyRunIsScripted`).
- `SetNonblocking` of the listener during the set-up: the same two calls, present as two replies.
- `TimerAdd` and `TimerSub`: tv_sec is an unbounded integer; overflow of a 64-bit time_t is not modelled. The bodies are the fallback branch of util.h, which thirdparty/event2/event-config.h:361 replaces by the system macros.
- `EveryNSite.Hit`, `IfEveryNSite.Hit` and `FirstNSite.Hit`: for n fixed per site; the macros evaluate it anew each time. Concurrent use of the static counters is not modelled.
- Tuple printers of gtest-printers.h and `PrintSequence` of stl_logging.h: same shape as the printers here, would only add easy members.
- `DOUBLE_NE`, `DOUBLE_GT`: floating point with little to prove.
- zookeeper_proxy, config, main.cc, libkafka_asio: empty classes, flags, entry point, interfaces without bodies.
