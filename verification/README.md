# Wineing's control protocol, modelled and proved in Dafny

Wineing runs NxCore under Wine and lets a remote client steer it. A control thread answers requests
and publishes commands through one versioned record that the other threads poll; most polls skip the
lock because the version has not changed. This project models that server down to single memory
accesses, together with the Java client's request/response matching, and proves what it guarantees
under every interleaving.

| file | what it holds |
|---|---|
| `Ctrl.dfy` | the control record, publications, the two prefix-only copies, one write at a time and as the source's loops |
| `Lazy.dfy` | 32-bit versions, what one undisturbed publish or poll does, the two functions of `conc.cc` as methods |
| `Cell.dfy` | the cell under concurrency: any number of writers and readers, one program counter each |
| `SingleWriter.dfy` | what holds when only one thread publishes, as in Wineing |
| `Register.dfy` | the atomic register, and the refinement |
| `Solo.dfy` | an uninterrupted call of the fine-grained cell does what the plain function says |
| `Limits.dfy` | where the cell stops working: too many publications, two writers |
| `Requests.dfy` | the request handler as a function, and what a series of requests guarantees |
| `ControlThread.dfy` | the request handler and its loop as the source runs them |
| `Wire.dfy` | the encoding of a response, read back, and whether it fits the buffer the output thread receives it into |
| `Server.dfy` | all threads, the response queue and the main thread's joins as one transition system |
| `Guarantees.dfy` | what every run of the server guarantees |
| `Callbacks.dfy` | tape callbacks: that they happen, and both their outcomes |
| `Schedules.dfy` | calls left alone run to their end; the whole turns that the exhibited runs are made of |
| `Tapes.dfy` | what NxCore is handed as a tape, in terms of the requests and their answers |
| `RealTime.dfy` | starts without a tape: exactly when NxCore gets an empty path |
| `ShutdownProtocol.dfy` | the shutdown handshake, termination, and what may still happen after the last command |
| `LostResponse.dfy` | runs in which pushes fail: exactly when the output thread is stranded |
| `Readers.dfy` | the three readers as the source runs them |
| `Client.dfy` | calls, sender, transport, server and receiver of the Java client as one transition system |
| `Flow.dfy` | where the server's responses are, whatever the ids |
| `Collisions.dfy` | equal request ids: exactly when a response can be misrouted |
| `Leaks.dfy` | which registered processors can still run, and which stay in the map for good |
| `Wrappers.dfy` | `Option` |
| `Workers.dfy` | the Java client's workers and `put` as the source runs them |

A step of a transition system is a total function, and a step that cannot be taken (a blocked lock, an
empty queue) leaves the state as it is. A run is therefore any sequence of labels, and a theorem over
all sequences is a theorem over all interleavings. The record's `history`, and fields documented as
only recording, are never read by a step's decisions.

The publication of a command takes effect at the version write (`conc.cc:78`), before its bytes are
copied. A poll takes effect at the unlocked comparison when versions match, and at the locked version
read when they do not.

Premises. Unlocked version reads are sequentially consistent. Versions wrap around at 32 bits; results
that need equal versions to mean equal publications are stated for up to 2^32 - 2 publications
(`Limits.SkipIsSoundExactly` shows that this is the exact bound), and C itself leaves the increment
undefined past 2^31 - 1 (`Lazy.VersionsNeverOverflow`). Channel setup and sends succeed and the inproc
queue is a reliable FIFO; `LostResponse` is about runs in which pushes into it fail. A request that
does not parse changes nothing and has no step. NxCore calls back or comes to the end of the tape, and
returns once a callback says STOP. Strings are byte strings, one character a byte.

Two buffers of 1024 bytes are filled without regard to their size. A tape that NxCore's file lookup finds
must have a path that fits the data buffer with its NUL (`Requests.Fits`); a request that breaks this has
no step. A tape that is missing is answered with its path in the text, and the output thread receives that
answer into its own buffer (`wineing.cc:460-465`). Such answers are modelled: a response that does not
fit ends the run there, because C gives what follows no meaning. `Wire.Answerable` bounds the path of a
missing tape by 990 to 999 characters, depending on the length of the request's id, and
`Guarantees.OverrunExactly` proves that this is exactly what it takes.

Where code and comments disagree the model follows the code. The comment at `wineing.cc:230-233`
promises real-time data when no tape is named; the market thread passes its buffer all the same
(`wineing.cc:381`), so after an earlier tape NxCore is handed that tape's path again.
`RealTime.RealTimeReplaysTape` gives the smallest case and `RealTime.RealTimeExactly` the exact
condition. The proto file promises a response for every request (`WineingCtrlProto.proto:11-13`); at a
shutdown responses can be dropped, and `ShutdownProtocol.RepliesExactly` says when none is. Request ids
come from a clock and are not made distinct; `Collisions.CorrelationExactly` says which coincidences
matter.

## Model

| member | source | states |
|---|---|---|
| Ctrl.MemCpy | src/main/c/inc/core/wineing.h:122-124 | only the payload's bytes are overwritten, whatever followed them in the buffer stays |
| Ctrl.CopyLocalToShared | src/main/c/inc/core/wineing.h:115-125 | the shared record shows exactly the local one's command and payload, over its own old bytes |
| Ctrl.CopySharedToLocal | src/main/c/inc/core/wineing.h:127-137 | the same in the other direction |
| Ctrl.CopyStepAdvances | src/main/c/inc/core/wineing.h:120-124 | from any torn record of a copy, the next single write gives the next torn record |
| Ctrl.OverlayByte | src/main/c/inc/core/wineing.h:115-137 | after any series of copies, byte i is byte i of the latest publication long enough to reach it |
| Ctrl.OverlayKeeps | src/main/c/inc/core/wineing.h:115-137 | a byte no publication reached is still the original one |
| Lazy.VersionsIdentify | src/main/c/inc/core/wineing.h:15-16 | comparing 32-bit versions tells n publications and the readers' initial -1 apart if and only if n is at most 2^32 - 2 |
| Lazy.VersionsNeverOverflow | src/main/c/impl/all/conc/conc.cc:78 | versions equal publication numbers, without signed overflow, if and only if there are at most 2^31 - 1 publications |
| Lazy.PollDelivers | src/main/c/impl/all/conc/conc.cc:126-158 | a poll after a publication returns its version, and delivers it unless the reader's stale version equals the new one and its record differs |
| Lazy.LazyCell.LazyInit | src/main/c/impl/all/conc/conc.cc:20-28 | the cell starts at the given version with the mutex free |
| Lazy.LazyCell.UpdateGlobalIfOwner | src/main/c/impl/all/conc/conc.cc:62-93 | refused with the global version on a mismatch, otherwise version bumped and record overwritten; the mutex is released |
| Lazy.LazyCell.UpdateLocalIfChanged | src/main/c/impl/all/conc/conc.cc:126-158 | record untouched on a match, otherwise overwritten with the shared one together with its version; the mutex is released |
| Cell.TickKeeps | src/main/c/impl/all/conc/conc.cc:62-158 | every single memory access of any publish or poll keeps mutual exclusion, the overlay of publications, and every reader's record |
| Cell.NoTornRecord | src/main/c/impl/all/conc/conc.cc:72-84 | with any number of writers and readers: whenever the mutex is free the shared record is one whole publication, and so is every reader's record outside a copy, with the bytes past the payload characterised |
| SingleWriter.WriterNeverRefused | src/main/c/impl/all/conc/conc.cc:70-91 | with one writer, no publish is ever refused, and between calls the writer carries the global version |
| SingleWriter.Snapshot | src/main/c/impl/all/conc/conc.cc:136-156 | a reader not in the middle of a copy with version v holds exactly publication v, whether its last poll skipped the lock or copied; the publications it copied are an increasing subsequence of the history |
| SingleWriter.PollIsFresh | src/main/c/impl/all/conc/conc.cc:126-158 | a poll delivers a publication at least as new as the latest when it began, and a reader never moves back |
| Register.CellRefinesRegister | src/main/c/impl/all/conc/conc.cc:62-158 | every interleaving is a run of an atomic register in which publish appends and poll takes the latest, and a reader's memory holds what the register delivered |
| Register.ReaderMoves | src/main/c/impl/all/conc/conc.cc:136-156 | each memory access of a poll is, for its thread, the register's one effect on the latest publication, its return, or nothing |
| Register.WriterMoves | src/main/c/impl/all/conc/conc.cc:70-91 | each memory access of a publish is, for its thread, the register's one effect (at the version write), its return, or nothing |
| Solo.SoloPublish | src/main/c/impl/all/conc/conc.cc:62-93 | scheduled alone from a free mutex, the fine-grained publish ends, and leaves what the plain function computes |
| Solo.SoloPoll | src/main/c/impl/all/conc/conc.cc:126-158 | scheduled alone from a free mutex, the fine-grained poll ends, and leaves what the plain function computes |
| Limits.SkipIsSoundExactly | src/main/c/impl/all/conc/conc.cc:136-138 | skipping the lock on equal versions never misses a publication in runs of up to n publications if and only if n is at most 2^32 - 2 |
| Limits.TwoWritersLoseUpdate | src/main/c/impl/all/conc/conc.cc:70-78 | two writers that pass the unlocked check together publish under one version, and a reader between them then skips the second publication |
| Limits.OneWriterExactly | src/main/c/impl/all/conc/conc.cc:62-158 | in a cell with a writer and a reader, and within the version bound, no run skips a publication at that reader if and only if there is no second writer |
| Requests.HandleVerdict | src/main/c/impl/all/core/wineing.cc:208-292 | one request is answered under its own id by the verdict for the command in force, published exactly when that is an OK, and leaves the command the answer stands for; a refusal says that a tape plays already, or which path is missing: base directory, then tape, the path the request would have published; a missing tape only clears the size, a refused start changes nothing, and bytes past the payload stay |
| Requests.ServeAccounted | src/main/c/impl/all/core/wineing.cc:192-310 | over every series of requests: one answer each, in order, with its id, the verdict the earlier answers imply, and its text; OK answers count publications; replaying answers gives the command in force; INIT only first, SHUTDOWN only last, never two RUNs in a row; each publication says what its request asked for |
| Requests.StopBetweenRuns | src/main/c/impl/all/core/wineing.cc:216-275 | two RUNs in a history are at least two versions apart with a STOP right after the first |
| Requests.CStringStops | src/main/c/impl/all/core/wineing.cc:249-253 | a NUL-terminated string reads back from a longer buffer as itself if and only if it contains no NUL, and otherwise up to its first NUL |
| ControlThread.Handler.constructor | src/main/c/impl/all/core/wineing.cc:46-50 | the handler starts on the empty request series, at version 0 |
| ControlThread.Handler.Publish | src/main/c/impl/all/core/wineing.cc:258-261 | a publication of the handler is never refused and moves both versions together |
| ControlThread.Handler.Handle | src/main/c/impl/all/core/wineing.cc:208-292 | one request handled in place extends the sequential specification by exactly that request: record, shared record, version and answer |
| ControlThread.Handler.Loop | src/main/c/impl/all/core/wineing.cc:192-310 | the loop answers the parsed requests as specified, skips the others, stops after a shutdown, and leaves the command its answers replay to |
| ControlThread.NothingAfterShutdown | src/main/c/impl/all/core/wineing.cc:192 | requests after a shutdown change nothing |
| Readers.Reader.constructor | src/main/c/impl/all/core/wineing.cc:332-337 | a reader starts at version -1 with the INIT command |
| Readers.Reader.Refresh | src/main/c/impl/all/core/wineing.cc:367-370 | a reader's version and record after a refresh are those of one poll |
| Readers.Reader.MarketPass | src/main/c/impl/all/core/wineing.cc:365-387 | the market thread polls and then restarts, plays or ends by the command it holds; the tape it passes is the C string in its buffer |
| Readers.Reader.TapeCallback | src/main/c/impl/wine/nx/nxtape.cc:33-100 | the callback polls into its own record and continues unless the command is below RUN |
| Readers.Reader.OutPass | src/main/c/impl/all/core/wineing.cc:446-483 | the output thread ends on SHUTDOWN, waits on an empty queue, and otherwise receives the first response into its 1024-byte buffer and sends exactly the bytes of its encoding, keeping the rest |
| Wire.ResponseRoundTrip | src/main/resources/protobuf/WineingCtrlProto.proto:36-51 | an encoded response decodes to itself: id, type and, on refusals, text |
| Wire.EncodeFields | src/main/resources/protobuf/WineingCtrlProto.proto:36-51 | a generic protobuf reader finds in an encoded response: as field 1 the id in two's complement, as field 2 the type as the proto file numbers it, and, on refusals only, as field 3 the text |
| Wire.AnswerFits | src/main/c/impl/all/core/wineing.cc:241-246 | an answer fits the receive buffer if and only if it is not the refusal of a missing tape whose path is over the limit |
| Wire.AnswersFitExactly | src/main/c/impl/all/core/wineing.cc:192-310 | every answer to every series drawn from a set of requests fits the receive buffer if and only if every missing tape in the set has a path within the limit |
| Server.PlayInOk | src/main/c/impl/all/core/wineing.cc:154-318 | in every run the control thread's record, answers and publications are those of the sequential handler up to the call in progress, and no answer is lost between queue and client |
| Server.PlaySysOk | src/main/c/impl/all/core/wineing.cc:154-491 | in every run the readers' knowledge, the queue handshake, the receive buffer and the joins stay consistent with the published history and the requests |
| Schedules.Finish | src/main/c/impl/all/conc/conc.cc:62-158 | inside the running server too, a call that nothing blocks runs to its end from wherever it stands: a publish adds its one publication, a poll copies the latest one unless it had it |
| Guarantees.Accounting | src/main/c/impl/all/core/wineing.cc:192-310 | in every run each parsed request has exactly one answer in order, with its text, the history is well formed, and at the loop head the version counts OK answers and the published command, the control thread's own and the replayed one agree |
| Guarantees.SameAsSequential | src/main/c/impl/all/core/wineing.cc:192-310 | interleaving does not change answers or publications: they are those of handling the parsed requests one after another |
| Guarantees.Forwarding | src/main/c/impl/all/core/wineing.cc:446-483 | what the client is sent is a prefix of what was produced, the rest being in hand or in the queue; with every missing tape within the limit, every response fits the buffer it is received into |
| Guarantees.OverrunReachable | src/main/c/impl/all/core/wineing.cc:457-465 | a single request for a missing tape over the limit: a run in which its refusal overruns the output thread's buffer |
| Guarantees.OverrunExactly | src/main/c/impl/all/core/wineing.cc:457-465 | no run on requests from a set overruns the output thread's buffer if and only if every missing tape in the set has a path within the limit |
| Tapes.TapePlayed | src/main/c/impl/all/core/wineing.cc:234-261 | whenever NxCore plays, the market thread's version was published by an accepted start, and a named tape reads back as base directory plus tape file, over leftovers of any earlier tape |
| Tapes.TapeHandedOver | src/main/c/impl/all/core/wineing.cc:367-381 | in every run, whether or not the start in force names a tape, NxCore is handed the path of the accepted start behind the latest nonempty payload the market thread copied, that is of the last RUN published up to it, or the initial buffer if it copied none |
| Tapes.NoTapeSoFar | src/main/c/impl/all/core/wineing.cc:228-261 | in every run, as long as no start naming a tape has been answered OK, NxCore is handed the initial buffer |
| Tapes.AcceptedIs | src/main/c/impl/all/core/wineing.cc:208-292 | a request was answered OK if and only if it stands behind some publication |
| RealTime.CopiesEverything | src/main/c/impl/all/core/wineing.cc:361-387 | for every series of requests without an accepted shutdown there is a run in which the market thread copies every publication |
| RealTime.RealTimeExactly | src/main/c/impl/all/core/wineing.cc:228-233 | after any series of requests that ends with a start without a tape in force, NxCore gets an empty path in every run if and only if no start naming a tape with a nonempty path was answered OK and its buffer began with a NUL |
| RealTime.RealTimeReplaysTape | src/main/c/impl/all/core/wineing.cc:228-261 | tape, stop, start without a tape: a run in which NxCore is handed the first tape again |
| Callbacks.CallbackHappens | src/main/c/impl/wine/nx/nxtape.cc:33-100 | in every run, while a tape plays and the mutex is free, NxCore can call back: the callback's own record then shows the latest publication, and the tape goes on, counted as a CONTINUE, if and only if that is a RUN |
| Callbacks.CallbackContinues | src/main/c/impl/wine/nx/nxtape.cc:98-99 | a run from the start in which a callback returns CONTINUE |
| Callbacks.CallbackStops | src/main/c/impl/wine/nx/nxtape.cc:47-50 | a run from the start in which a callback stops the tape after a STOP |
| Guarantees.CallbackSees | src/main/c/impl/wine/nx/nxtape.cc:47-50 | a callback sees a publication no older than the one that started the run, never INIT, and lets the tape go on exactly on a RUN |
| Guarantees.PollsDecide | src/main/c/impl/all/core/wineing.cc:365-387 | in every run the market and the output thread act on a publication no older than their poll: play exactly on RUN, end exactly on SHUTDOWN |
| Guarantees.ShutdownSeen | src/main/c/impl/all/core/wineing.cc:277-283 | in every run a poll that begins after SHUTDOWN is published returns SHUTDOWN, in each of the three readers |
| ShutdownProtocol.NeverWaitsInVain | src/main/c/impl/all/core/wineing.cc:277-303 | in every run, an output thread waiting on the queue after SHUTDOWN is published finds its response there or the control thread has yet to send it |
| ShutdownProtocol.RankFalls | src/main/c/impl/all/core/wineing.cc:154-491 | after SHUTDOWN is published every event with any effect lowers a measure, and nothing more is published |
| ShutdownProtocol.NeverStuck | src/main/c/impl/all/core/wineing.cc:79-117 | after SHUTDOWN is published, until the teardown is over and unless a response overran its buffer, some event has an effect |
| ShutdownProtocol.ShutdownTerminates | src/main/c/impl/all/core/wineing.cc:79-117 | from any moment after SHUTDOWN is published: at most the measure's number of effective steps, and, with every missing tape within the limit, never stuck before the joins and the teardown, and a finishing schedule exists |
| ShutdownProtocol.TeardownIsClean | src/main/c/impl/all/core/wineing.cc:94-114 | when all three joins have returned the mutex about to be destroyed is free and no thread is inside a call |
| ShutdownProtocol.AtMostOneForwarded | src/main/c/impl/all/core/wineing.cc:446-483 | at most one response reaches the client after SHUTDOWN is published |
| ShutdownProtocol.RepliesExactly | src/main/resources/protobuf/WineingCtrlProto.proto:11-13 | once SHUTDOWN is published, a run that gets joined sends exactly as many more responses as the output thread has credit for, none or one: every request is answered to the client if and only if that is all that was still owed |
| ShutdownProtocol.ReplyDropped | src/main/c/impl/all/core/wineing.cc:446-455 | a joined run in which not even the shutdown's own response reaches the client |
| ShutdownProtocol.AtMostOneContinue | src/main/c/impl/wine/nx/nxtape.cc:98-99 | once STOP or SHUTDOWN is published and no RUN follows, at most one callback returns CONTINUE |
| LostResponse.OnlyFailedLost | src/main/c/impl/all/core/wineing.cc:303-308 | in every run in which pushes may fail, what is sent, in hand or queued is what was produced without exactly the responses whose push failed, in order |
| LostResponse.LostResponsesExactly | src/main/c/impl/all/core/wineing.cc:303-308 | in every run, however many pushes have failed, once SHUTDOWN is published the server can still be joined and torn down if and only if it is not the case that the control thread is through and the output thread about to wait on an old command with an empty queue |
| LostResponse.LostResponseExactly | src/main/c/impl/all/core/wineing.cc:303-308 | the same at the moment the push of the shutdown's response fails, after any number of earlier failures |
| LostResponse.StrandedForEver | src/main/c/impl/all/core/wineing.cc:446-483 | such an output thread stays there in every run in which its receive does not fail, and is never joined |
| LostResponse.FailureFrees | src/main/c/impl/all/core/wineing.cc:466-472 | a failing receive lets such an output thread poll again, and then the server can finish |
| LostResponse.LostResponseReachable | src/main/c/impl/all/core/wineing.cc:277-308 | runs from the start that reach both states, the poll made but not returned, and the wait begun; the failing push then leaves nothing for the output thread |
| Client.SendOrder | src/main/java/org/instilled/wineing/WorkerCtrlOut.java:29-83 | requests sent, in hand and queued are the enqueued ones in order, at most 20 queued, nothing after the first SHUTDOWN |
| Client.Correlation | src/main/java/org/instilled/wineing/WorkerCtrlIn.java:93-104 | if calls share an id only when none of them has a processor, in every interleaving: removal never fails, each call's processor runs at most once and on its own call's response, and only calls without one fall to the default; every response taken in goes one of these two ways |
| Flow.ServerAnswers | src/main/c/impl/all/core/wineing.cc:192-310 | in every run, a request that has been sent with no shutdown in front of it is read and answered by the verdict and text that the earlier responses and the file lookup imply, and its response gets under way |
| Flow.ResponseFlow | src/main/java/org/instilled/wineing/WorkerCtrlIn.java:93-104 | in every run, whatever the ids: one response for each request read, each of them under way, taken in or lost, and only one of these; the receiver never crashes, and what it takes in reaches the default processor or a registered one |
| Collisions.CorrelationExactly | src/main/java/org/instilled/wineing/WineingExampleClient.java:250-280 | for given calls this holds in every interleaving if and only if calls share an id only when none of them has a processor |
| Collisions.Misroutes | src/main/java/org/instilled/wineing/WineingExampleClient.java:250-257 | for any two calls that share an id, one with a processor the other has not: a run in which that processor gets the other call's response |
| Collisions.CollisionMisroutes | src/main/java/org/instilled/wineing/WineingExampleClient.java:277-280 | the smallest case: the first call's response runs the second call's processor |
| Leaks.RejectedLeaks | src/main/java/org/instilled/wineing/WineingExampleClient.java:250-257 | a call turned away by a full queue leaves a processor registered for good if and only if it came with one |
| Leaks.RejectedReachable | src/main/java/org/instilled/wineing/WorkerCtrlOut.java:29-41 | 21 calls before the sender takes any: the last one is turned away and its processor is registered |
| Leaks.ProcessorRunsExactly | src/main/java/org/instilled/wineing/WorkerCtrlIn.java:93-104 | in every run, a call's processor has run or runs in some continuation if and only if it has, or the call can still be enqueued ahead of any shutdown, or its response is at the receiver, under way, or still to be made with no shutdown in front |
| Leaks.LeaksExactly | src/main/java/org/instilled/wineing/WorkerCtrlIn.java:51-54 | in every run, a registered processor stays in the map for good if and only if it has not run and cannot any more: rejected, lost, or behind a shutdown |
| Workers.ResponseWorker.constructor | src/main/java/org/instilled/wineing/WorkerCtrlIn.java:32-38 | no processor and no default to begin with |
| Workers.ResponseWorker.SetResponseProcessor | src/main/java/org/instilled/wineing/WorkerCtrlIn.java:51-54 | the id's processor is set or replaced, all others stay |
| Workers.ResponseWorker.ProcessResponse | src/main/java/org/instilled/wineing/WorkerCtrlIn.java:93-104 | exactly one processor runs, the registered one if there is one, which is then gone; else the default if set |
| Workers.SendableIs | src/main/java/org/instilled/wineing/WorkerCtrlOut.java:71-78 | what the sender gets out of a queue is a prefix that ends at the first SHUTDOWN or at the end |
| Workers.RequestWorker.constructor | src/main/java/org/instilled/wineing/WorkerCtrlOut.java:26-30 | the queue starts empty |
| Workers.RequestWorker.AddRequest | src/main/java/org/instilled/wineing/WorkerCtrlOut.java:38-41 | appends unless the queue is full, which is reported |
| Workers.RequestWorker.Run | src/main/java/org/instilled/wineing/WorkerCtrlOut.java:44-83 | sends exactly that prefix and leaves the rest queued |
| Workers.Put | src/main/java/org/instilled/wineing/WineingExampleClient.java:250-257 | the processor is registered whether or not the request then fits the queue |

## Left out

- ZeroMQ sockets, endpoint types, binding and its retries, and receive errors on the request channel.
- The encoding of requests: they are datatypes, and a message that does not parse has no step. Of a response's encoding, `Wire` has what this one message needs.
- NxCore itself: file lookup is an answer supplied with each request, tape contents and market messages are not modelled, and callbacks come from the environment.
- The market condition variable and its mutex: signalled, never waited on.
- Weak memory, cache lines and timing.
- Command line, logging, memory release, the Linux stubs, the Java market worker, and `ZMQChannel.receive`, which is an unimplemented stub in the source.
- Tape paths of 1024 characters or more that the file lookup nevertheless finds: the source copies them into a 1024-byte buffer, so `Requests.Fits` excludes them.
- What the program does after the output thread's buffer has been overrun. `Client` lets its server read no request whose answer would do that.
- Failing pushes, except in `LostResponse`.
- What makes a processor its call's own: processors are numbers, and `Collisions.CorrelationExactly` is about calls that do not share one with another call of their id.
- Interrupted or failing sends in the Java client.
- Readers.Reader.OutPass: one pass over a given queue; where the source blocks on an empty one it reports that it waits.
- Workers.RequestWorker.Run: returns when the queue is empty, where the source blocks; further requests are a further call.
