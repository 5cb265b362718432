# Verification of LMonitor

A Dafny model of the monitoring system: how an agent prints, frames and sends its snapshots, how
the server reassembles and parses them, how it hands work between threads, and how its stores,
alerts and log files evolve over whole runs. The theorems hold for every input, every run and
every interleaving of the steps they speak about.

| file | models |
|---|---|
| `Decimal.dfy`, `Metrics.dfy` | numbers as printed and read, the snapshot and its 21 fields |
| `Serializer.dfy`, `Deserializer.dfy` | the printer and the parser of the text format |
| `Acceptance.dfy`, `RoundTrip.dfy`, `Printability.dfy` | what the parser accepts; that it undoes the printer, and exactly when |
| `Format.dfy`, `Errors.dfy` | the text format spelled out, line by line and value by value; which error a payload is refused with |
| `Frames.dfy`, `Connection.dfy`, `Agent.dfy` | framing, the receiving connection, the agent's loop with reconnecting and backoff |
| `SampleTransport.dfy` | snapshots over the wire, from the agent's printer to the server's parser |
| `ThreadPool.dfy`, `EventLoop.dfy` | the two hand-off protocols, as transition systems |
| `Pipeline.dfy`, `Effects.dfy` | reactor, worker pool and timer together, over the stores; what each message does to them |
| `Alerts.dfy`, `Logger.dfy`, `Stores.dfy`, `Processes.dfy` | alert states, log rotation, history and liveness, process selection |
| `Wrappers.dfy`, `Clock.dfy` | shared datatypes and the unit of time |

`dafny verify dfyconfig.toml` checks everything.

## How the code is modelled

- Code that changes objects in place is a class whose methods are proved against specification
  functions (`AlertManager.DoUpdate` against `UpdateSpec`, `MonitorAgent.DoTick` against `Tick`,
  `TcpConnection.HandleRead` against `Parse`, `Deserialize` against `Interpret`). The results
  about runs are lemmas about those functions.
- The pool and the reactor are transition systems with a program counter for each thread. What
  happens under a lock is one step. Notifying, and writing the eventfd, are steps of their own,
  because the code does them after unlocking. Spurious wakeups, saturated counters, interrupted
  calls, failing waits and throwing handlers are steps or branches. `EventLoop.Reactor` holds the
  code of the loop, each call being proved to be a sequence of these steps; `ThreadPool.TaskQueue`
  holds the locked blocks of the pool, which decide by the same functions as its steps. In the
  pipeline every call on a store is logged with its contents and its clock reading, so that the
  stores can be compared with what was asked of them.
- What comes from outside is an input: results of `recv`, `send` and `connect`, clock readings,
  failures of file operations, the order in which a hash table is walked.
- A double is a sign and an exact magnitude, so that `-0.00` exists, and the printer's rounding
  to hundredths, ties to even, is a step of its own. `stoull`, `stoll` and `stod` are a parameter:
  any partial functions for the acceptance results, functions that read printed numbers back for
  the round trip. `PlainLibraryReadsPrintedNumbers` shows that such functions exist.
- `std::sort` is an insertion sort here. The results use only that it yields a permutation in
  descending order.

## What the proofs found

- A second call to `ThreadPool::stop` returns at once, possibly with tasks still queued
  (`SecondStopReturnsEarly`); everything has run when it returns exactly if nothing was queued or
  running when it was called (`LaterStopReturnsDrainedExactly`). Only the call that set the flag
  waits for the drain.
- A channel handler that throws leaves the loop between reading the eventfd and swapping the
  queue. Functors queued then can be left with nobody about to wake the loop
  (`ThrowingHandlerStrandsFunctors`). Without throwing handlers that does not happen
  (`NoForgottenFunctor`, `NeverThrown`), and a throw is harmless exactly if no functor is queued,
  the counter is positive or a wakeup is owed (`ThrowIsHarmlessExactly`).
- `EventLoop::loop` lowers the quit flag when it starts, so a quit requested before is lost
  (`EarlyQuitIsLost`, and `QuitHoldsUntilStart` for when).
- Every alert update looks at the alerts of all hosts, so a snapshot of one host resolves the
  firing alerts of the others (`QuietHostResolvesOther`); all other records of theirs stay as they
  are (`OtherHostsResolve`). The time of first detection is never reset
  (`FirstDetectionIsKept`), so the second of two brief excesses fires if they are far enough
  apart, without any lasting excess (`BriefExcessesFire`, and `FiresExactlyWhen` for when).
- After one failure to create the fresh file during a rotation, the logger stays closed and
  silent (`LineIsLostAfterFailedRotation`, `SilentAfterFailedRotation`), until a line of its own
  passes the limit (`ClosedLoggerWrites`).
- include/store/MetricsStore.h documents ages of at most 5 and at most 15 seconds for online and
  stale. The code cuts the age down to whole seconds first, so that 5.9 seconds is still online
  (`StatusLagsTheDocumentation`). The model follows the code.
- The repository's README lists the alert states NORMAL and FIRING; the code also has a pending
  state, which `getActiveAlerts` returns. The model follows the code.
- A log file found at exactly 10 MiB on start is not rotated, although the constructor asks for
  it, because `rotateIfNeeded(0)` compares with "at most" (`FileAtTheLimitStays`,
  `StartRotatesAboveTheLimit`).

## Model

| member | source | states |
|---|---|---|
| `Frames.BigEndian` | src/protocol/FrameCodec.cpp:21-30 | the header is the length with its most significant byte first, and decodes back to it |
| `Frames.HeaderIsDetermined` | src/protocol/FrameCodec.cpp:84-94 | a header is the encoding of the length it announces, so no two headers announce the same length |
| `Frames.ParseHead` | src/protocol/FrameCodec.cpp:65-158 | in any reading of a stream as frames, the first message and the rest are fixed by the bytes at its head; there is none exactly if the decoder is stuck |
| `Frames.ParseIsUnique` | src/protocol/FrameCodec.cpp:65-158 | a byte stream has at most one reading as frames followed by a remainder where the decoder is stuck |
| `Frames.ParseReads` | src/protocol/FrameCodec.cpp:65-158 | the reference parse is such a reading, for every stream |
| `Frames.ParseAppend` | src/protocol/FrameCodec.cpp:65-158 | parsing a stream in two parts, carrying the remainder over, gives the messages and the remainder of parsing it whole |
| `Frames.ParseOfFrames` | src/protocol/FrameCodec.cpp:9-158 | decoding the frames of any list of payloads gives back that list, whatever stuck remainder follows |
| `Frames.CutFrameIsStuck` | src/protocol/FrameCodec.cpp:74-127 | a frame cut anywhere before its end is neither decoded nor refused |
| `Frames.OversizedIsFinal` | src/protocol/FrameCodec.cpp:102-108 | behind a header above the cap nothing is ever decoded, whatever bytes follow, and the header stays at the head |
| `Frames.Encode` | src/protocol/FrameCodec.cpp:9-62 | refuses exactly the payloads above one mebibyte, otherwise returns header and payload |
| `Frames.TryDecode` | src/protocol/FrameCodec.cpp:65-158 | takes exactly the first frame off the buffer; when the frame is incomplete or oversized it leaves the buffer unchanged and says which |
| `Connection.AbsorbAllIsParse` | src/network/TcpConnection.cpp:163-187 | decoding after every chunk gives the parse of everything received |
| `Connection.ChunkingConfluence` | src/network/TcpConnection.cpp:163-315 | for every stream, valid or malformed, and every split into chunks, the delivered messages and the remainder are the reference parse of the whole stream |
| `Connection.NothingAfterOversizedHeader` | src/network/TcpConnection.cpp:277-304 | once a header above the cap has come to the head, no later chunk delivers a message |
| `Connection.DeliveredIsMonotone` | src/network/TcpConnection.cpp:270-315 | a receiver that has seen a prefix of a stream has delivered a prefix of its messages |
| `Connection.EventBringsIn` | src/network/TcpConnection.cpp:163-228 | a readable event brings in every chunk before the first result that is neither data nor an interruption, and ends the connection exactly if that result is the end of the stream or an error |
| `Connection.TcpConnection.constructor` | src/network/TcpConnection.cpp:28-76 | a new connection is open and has received and delivered nothing |
| `Connection.TcpConnection.RequestClose` | src/network/TcpConnection.cpp:322-346 | marks the connection as closing and calls the close callback on the first request only |
| `Connection.TcpConnection.ProcessPendingData` | src/network/TcpConnection.cpp:270-315 | the decode loop delivers all messages of the parse of the buffer in order, leaves the remainder, and closes exactly on an oversized header |
| `Connection.TcpConnection.TakeIn` | src/network/TcpConnection.cpp:174-187 | taking in one chunk keeps delivered and buffered equal to the parse of all received bytes |
| `Connection.TcpConnection.HandleRead` | src/network/TcpConnection.cpp:151-228 | takes in everything up to the first result that is neither data nor an interruption, keeps delivered and buffered equal to the parse of all received bytes, and closes exactly on end of stream, error or oversized header; a closing connection reads nothing |
| `Agent.TcpClient.ConnectToServer` | src/network/TcpClient.cpp:76-216 | an open client stays as it is; otherwise a successful attempt opens a fresh connection on which nothing has been sent |
| `Agent.TcpClient.Disconnect` | src/network/TcpClient.cpp:223-237 | closes the socket |
| `Agent.TcpClient.SendAll` | src/network/TcpClient.cpp:254-361 | returns true exactly if the whole frame went out; the wire grows by the accepted prefix in either case, and on failure the socket is closed |
| `Agent.MonitorAgent.constructor` | src/agent/MonitorAgent.cpp:687-699 | the loop starts disconnected, with a delay of one second and an attempt due at once |
| `Agent.MonitorAgent.DoTick` | src/agent/MonitorAgent.cpp:875-988 | one iteration of the loop: frame, reconnect when due, send; the new state is that of the specification function, of which `TickConnects`, `TickSends` and `TickWaits` say what it does |
| `Agent.SendTakes` | src/network/TcpClient.cpp:296-357 | of the bytes handed over the socket takes what the results before the first failure or zero have room for |
| `Agent.TickConnects` | src/agent/MonitorAgent.cpp:897-953 | an attempt is made exactly if the loop goes on, the client is disconnected and its time has come, recorded with its time and outcome; a connection is opened exactly if it succeeds; the loop ends exactly on a payload above one mebibyte |
| `Agent.TickSends` | src/agent/MonitorAgent.cpp:897-988 | a tick that is or gets connected completes its sample on the current connection if the results of `send` have room for the whole frame; otherwise it has sent what there was room for, disconnects, and the next attempt is due one second after the failure with the delay back at one |
| `Agent.TickWaits` | src/agent/MonitorAgent.cpp:926-953 | a tick that stays disconnected sends nothing; a failed attempt sets the next one by the delay and doubles the delay up to 30, and without an attempt both stay as they are |
| `Agent.AllGoesWell` | src/agent/MonitorAgent.cpp:875-988 | if the server is reachable and `send` takes every frame, every sample is completed on one connection, made by the first attempt |
| `Agent.RunKeepsDelivery` | src/agent/MonitorAgent.cpp:875-988 | over every run each connection carries the frames of the samples whose send succeeded on it, in order, followed at most by one cut frame |
| `Agent.EndToEnd` | src/agent/MonitorAgent.cpp:956-988 | for every run, partial send and chunking, a connection delivers a prefix of the payloads whose send returned true on it, all of them once every byte has arrived; a cut frame is never delivered nor refused |
| `Agent.CompletedAtMostOnce` | src/agent/MonitorAgent.cpp:875-988 | over all connections of a run the samples whose send succeeded appear in order and never twice |
| `Agent.AtMostOnce` | src/agent/MonitorAgent.cpp:875-988 | each sample arrives at most once overall: of any two messages delivered from the connections of one run, under any chunkings, the one from the earlier connection, or earlier on the same one, is an earlier sample |
| `Agent.AllArrives` | src/agent/MonitorAgent.cpp:875-988 | and then the server, once it has read what was sent in whatever chunks, has delivered every payload of the run in order |
| `Agent.RunKeepsBackoff` | src/agent/MonitorAgent.cpp:897-980 | over every run the delay follows the number of trailing failures, and after each failed attempt the next waits for the delay then in force |
| `Agent.DelayAfterFailures` | src/agent/MonitorAgent.cpp:947-951 | after k consecutive failed attempts the delay is min(2^k, 30) seconds |
| `Agent.AttemptsAreSpaced` | src/agent/MonitorAgent.cpp:897-953 | attempt n+1 of a failure run comes at least the sum of min(2^i, 30) seconds, i below n, after the first |
| `Agent.TotalBackoffClosedForm` | src/agent/MonitorAgent.cpp:687-699 | that sum is 31 + 30(n - 5) for n of at least 5 |
| `Agent.AttemptsInWindow` | src/agent/MonitorAgent.cpp:897-953 | in a failure run any T of at least 31 seconds holds at most 6 + (T - 31) / 30 attempts |
| `Decimal.RoundHalfEven` | src/serializer/MetricsSerializer.cpp:12-14 | the nearest whole number, ties going to the even one |
| `Decimal.RoundedIsNearest` | src/serializer/MetricsSerializer.cpp:12-14 | rounding to hundredths keeps the sign and moves the magnitude by half a hundredth at most |
| `Decimal.TwoPlaces` | src/serializer/MetricsSerializer.cpp:12-14 | a number of hundredths prints as its whole part, a point and two digits |
| `Decimal.NoLeadingZero` | src/serializer/MetricsSerializer.cpp:28-31 | no number of several digits starts with a zero |
| `Decimal.RoundedPrintsTheSame` | src/serializer/MetricsSerializer.cpp:12-14 | rounding to hundredths does not change the printed text |
| `Decimal.ReadPrinted` | src/serializer/MetricsSerializer.cpp:28-31 | reading the printed digits of a natural number gives the number |
| `Decimal.PrintedLength` | src/serializer/MetricsSerializer.cpp:28-31 | a number below 10^k prints in at most k digits |
| `Decimal.PlainLibraryReadsPrintedNumbers` | src/serializer/MetricsDeserializer.cpp:42-275 | decimal reading undoes decimal printing for all 64-bit counts, 32-bit integers and finite doubles rounded to hundredths, so what is assumed of the number library can be met |
| `Metrics.NamesAreDistinct` | src/serializer/MetricsDeserializer.cpp:447-478 | the 21 field names are pairwise different: looking a field up by its name finds that field |
| `Metrics.SnapshotIsItsFields` | src/serializer/MetricsSerializer.cpp:22-157 | two snapshots with equal fields and processes are equal |
| `Metrics.BuildAssigns` | src/serializer/MetricsDeserializer.cpp:665-945 | storing one value in the struct under construction is what adding it to the collected values builds; no other member changes |
| `Metrics.RoundedFields` | src/serializer/MetricsSerializer.cpp:12-14 | rounding a snapshot rounds its numbers and nothing else |
| `Serializer.PutField` | src/serializer/MetricsSerializer.cpp:23-140 | appending a line extends the text of the first k fields to that of the first k + 1, provided value and name are those of the next field |
| `Serializer.PrintHostFields` | src/serializer/MetricsSerializer.cpp:17-43 | prints the version and the four system and CPU fields |
| `Serializer.PrintMemoryFields` | src/serializer/MetricsSerializer.cpp:46-82 | prints the memory and load fields after them |
| `Serializer.PrintDiskFields` | src/serializer/MetricsSerializer.cpp:85-109 | prints the disk fields after those |
| `Serializer.PrintNetworkFields` | src/serializer/MetricsSerializer.cpp:112-140 | prints the network, sampling and process count fields last |
| `Serializer.Serialize` | src/serializer/MetricsSerializer.cpp:7-161 | the text is the version, the 21 fields in order and one line for each process in order, each ended by a line feed |
| `Deserializer.SplitUndoesJoin` | src/serializer/MetricsDeserializer.cpp:306-348 | splitting at the first n commas undoes joining n + 1 fields of which only the last may hold commas, and succeeds on nothing else |
| `Deserializer.SplitProcessRecord` | src/serializer/MetricsDeserializer.cpp:297-358 | the loop of four searches returns exactly that split, and fails exactly if there are fewer than four commas |
| `Deserializer.ParseProcessRecord` | src/serializer/MetricsDeserializer.cpp:294-413 | the record parser agrees with its specification, failures included |
| `Deserializer.GetLine` | src/serializer/MetricsDeserializer.cpp:574-588 | reads the next line without its line feed and without one trailing carriage return, and moves past it |
| `Deserializer.ReadLine` | src/serializer/MetricsDeserializer.cpp:583-649 | one turn of the loop does to the local variables what one step of the record fold prescribes, or fails with its error |
| `Deserializer.ReadScalar` | src/serializer/MetricsDeserializer.cpp:655-962 | a duplicate key is refused before its value is looked at; otherwise the value is stored |
| `Deserializer.StoreHostField` | src/serializer/MetricsDeserializer.cpp:665-725 | the system and CPU branches of the chain store or refuse as the fold prescribes, and the chain goes on only if the key is none of theirs |
| `Deserializer.StoreMemoryField` | src/serializer/MetricsDeserializer.cpp:729-805 | the same for memory and load |
| `Deserializer.StoreDiskField` | src/serializer/MetricsDeserializer.cpp:809-865 | the same for disk |
| `Deserializer.StoreNetworkField` | src/serializer/MetricsDeserializer.cpp:869-902 | the same for network |
| `Deserializer.StoreSampleField` | src/serializer/MetricsDeserializer.cpp:909-945 | the same for the sample interval and the process count |
| `Deserializer.StoreField` | src/serializer/MetricsDeserializer.cpp:665-962 | the whole chain, unknown keys being refused |
| `Deserializer.VerifyRequiredFields` | src/serializer/MetricsDeserializer.cpp:444-494 | succeeds exactly if all 21 fields were received |
| `Deserializer.Deserialize` | src/serializer/MetricsDeserializer.cpp:503-1004 | the parser, with its set of received keys and its struct filled in place, computes the record fold on every payload, errors included |
| `Deserializer.Conclude` | src/serializer/MetricsDeserializer.cpp:970-1003 | the final checks accept exactly if every field was given and the process count matches |
| `Acceptance.FoldSucceeds` | src/serializer/MetricsDeserializer.cpp:574-963 | the loop gets through exactly if every line is valid on its own and no field is given twice |
| `Acceptance.RecordsAccepted` | src/serializer/MetricsDeserializer.cpp:574-1003 | a list of records yields m exactly if each of the 21 fields is given once with the value it has in m, every record is valid, and the process records are those of m in order |
| `Acceptance.Accepted` | src/serializer/MetricsDeserializer.cpp:503-1004 | a payload yields the snapshot m if and only if it starts with the version line and its other lines describe m in that sense |
| `Acceptance.OrderIndependence` | src/serializer/MetricsDeserializer.cpp:570-663 | payloads with the same version line whose other lines are a permutation that keeps process records in order, blank lines added or removed at will, give the same snapshot or are both refused |
| `Acceptance.LineEndingsAreEquivalent` | src/serializer/MetricsDeserializer.cpp:538-588 | payloads whose lines agree but for one carriage return at their end give the same result, errors included, so LF and CR LF may be mixed |
| `Acceptance.CrlfIsEquivalent` | src/serializer/MetricsDeserializer.cpp:538-588 | in particular every LF may be replaced by CR LF, on lines that do not already end in CR |
| `RoundTrip.ParseFieldOfPrinted` | src/serializer/MetricsDeserializer.cpp:665-945 | each printed field value parses to its rounded value and meets the check on it |
| `RoundTrip.KeyedLine` | src/serializer/MetricsDeserializer.cpp:583-631 | a line made of a key and a value splits into that key and that value less one final carriage return, even if the value holds more equals signs |
| `RoundTrip.PrintedProcessParses` | src/serializer/MetricsDeserializer.cpp:294-413 | a printed process record parses to the rounded process even if its name holds commas |
| `RoundTrip.PrintedDescribes` | src/serializer/MetricsSerializer.cpp:22-157 | the printed lines give every field once and every process in order |
| `RoundTrip.PrintThenParse` | src/serializer/MetricsDeserializer.cpp:503-1004 | for every printable snapshot, parsing what the printer printed succeeds and gives the snapshot with every double rounded to hundredths |
| `RoundTrip.ReprintIsTheSame` | src/serializer/MetricsSerializer.cpp:7-161 | printing the parsed snapshot again gives the same text |
| `Printability.OnlyPrintableComesBack` | src/serializer/MetricsDeserializer.cpp:503-1004 | whatever the number library does, a snapshot with finite numbers that comes back rounded from the parser is printable: no line feed or final carriage return in its texts, none of them empty, no negative pid, at least one CPU, an interval that rounds to at least 0.01 |
| `Printability.RoundTripExactly` | src/serializer/MetricsDeserializer.cpp:503-1004 | with a library that reads printed numbers, a snapshot with finite numbers comes back rounded exactly if it is printable |
| `Format.PrintedVersion` | src/serializer/MetricsSerializer.cpp:17-21 | the first line is the version, and 21 fields and the processes follow |
| `Format.PrintedHostAndMemory` | src/serializer/MetricsSerializer.cpp:22-65 | then the system, CPU and memory lines, each with its name and its value |
| `Format.PrintedLoadAndDisk` | src/serializer/MetricsSerializer.cpp:68-109 | then the load and disk lines |
| `Format.PrintedNetworkAndCount` | src/serializer/MetricsSerializer.cpp:112-140 | then the network, interval and process count lines |
| `Format.PrintedProcessLine` | src/serializer/MetricsSerializer.cpp:143-157 | then a line for each process, in order: pid, CPU, memory and resident kilobytes, and name, with commas between them |
| `Format.PayloadIsItsLines` | src/serializer/MetricsDeserializer.cpp:574-588 | the lines of a payload hold no line feed and make up the payload when each is ended by one, which the last may lack |
| `Format.OneCrIsDropped` | src/serializer/MetricsDeserializer.cpp:583-588 | of a line one final carriage return is dropped, and nothing else |
| `Format.RecordExactly` | src/serializer/MetricsDeserializer.cpp:590-649 | a line is blank if empty, malformed exactly if it has no equals sign, without a key exactly if it starts with one, and otherwise a key and a value cut at the first equals sign |
| `Format.CountExactly` | src/serializer/MetricsDeserializer.cpp:29-127 | a count is accepted exactly if the library reads all of a text that is not empty; what follows a number makes it invalid |
| `Format.IntegerExactly` | src/serializer/MetricsDeserializer.cpp:130-206 | an integer likewise, and exactly if it fits 32 bits |
| `Format.DoubleExactly` | src/serializer/MetricsDeserializer.cpp:208-275 | a double likewise, and exactly if it is finite |
| `Format.ProcessExactly` | src/serializer/MetricsDeserializer.cpp:294-413 | a process record is accepted exactly if it is an integer that is not negative, two doubles, a count and a name that is not empty, with commas between them; only the name may hold commas |
| `Format.AcceptedIsValid` | src/serializer/MetricsDeserializer.cpp:665-962 | an accepted snapshot has host, mount and interface names, at least one CPU, a positive interval, and processes with a pid that is not negative and a name |
| `Format.AcceptedLine` | src/serializer/MetricsDeserializer.cpp:583-963 | in an accepted payload every line after the version is blank, a process record or a value for one of the 21 keys |
| `Format.PrintableMeans` | src/serializer/MetricsSerializer.cpp:22-157 | printable means: texts fit for a line, at least one CPU, finite numbers, an interval that rounds to more than zero, and pids that are not negative |
| `Errors.ErrorExactly` | src/serializer/MetricsDeserializer.cpp:503-1004 | a payload is refused with error e exactly if it is empty or of another version and e says so, or e is what is wrong with the first line at fault, or no line is and e names a missing field or else a wrong process count |
| `Errors.FirstFaultEndsTheLoop` | src/serializer/MetricsDeserializer.cpp:574-963 | the loop ends with the error of the first line that is malformed, has an unknown key, repeats a key or has an invalid value, a repeated key being found before its value is looked at |
| `Errors.EndsWith` | src/serializer/MetricsDeserializer.cpp:970-1003 | after the loop a missing field is reported exactly if some field was not given, and a count mismatch exactly if all were and the count given is not the number of process records |
| `SampleTransport.SerializedLength` | src/serializer/MetricsSerializer.cpp:10-160 | the printed snapshot is at most a fixed number of characters longer than its strings, for at most five processes and finite doubles |
| `SampleTransport.SnapshotFits` | src/protocol/FrameCodec.cpp:12-18 | so a snapshot whose strings stay within the rest of one mebibyte is never refused by the encoder, whatever the strings are |
| `SampleTransport.SamplesAreSnapshots` | src/agent/MonitorAgent.cpp:875-890 | over every run of such snapshots, printable or not, the loop never stops on an encoding error, and its samples are the printed snapshots |
| `SampleTransport.DeliveredSnapshotsParse` | src/server/TcpServer.cpp:672-686 | every message delivered from a connection of such a run is the text of the snapshot of the tick whose send it completed, and the parser makes the rounded snapshot of it exactly if that snapshot is printable |
| `ThreadPool.NewTaskQueue` | src/thread/ThreadPool.cpp:15-36 | refuses exactly zero threads and a zero bound, in this order, and otherwise makes a queue |
| `ThreadPool.TaskQueue.constructor` | src/thread/ThreadPool.cpp:19-21 | the queue starts empty and not stopping, with the given bound |
| `ThreadPool.TaskQueue.TrySubmit` | src/thread/ThreadPool.cpp:111-135 | a task is appended exactly if the pool is not stopping and holds fewer tasks than its bound; otherwise nothing changes |
| `ThreadPool.TaskQueue.BeginStop` | src/thread/ThreadPool.cpp:152-167 | sets the flag and tells the first caller from later ones |
| `ThreadPool.TaskQueue.NextTurn` | src/thread/ThreadPool.cpp:235-272 | takes the oldest task if there is one, exits exactly if stopping with an empty queue, waits otherwise |
| `ThreadPool.StepInv` | src/thread/ThreadPool.cpp:103-295 | every step of every thread keeps the invariants on tasks, shutdown and wakeups |
| `ThreadPool.RefusedExactly` | src/thread/ThreadPool.cpp:103-143 | over every run a submission is refused, changing nothing, exactly if the pool is stopping or holds as many tasks as its bound; otherwise it goes to the end of the queue and its caller owes a notification |
| `ThreadPool.StopTakesEffect` | src/thread/ThreadPool.cpp:152-167 | a call to stop raises the flag, and only the first goes on to notify and join |
| `ThreadPool.LookTakesTheOldest` | src/thread/ThreadPool.cpp:235-272 | a worker that looks takes the oldest task if there is one, and else exits or falls asleep |
| `ThreadPool.NoLostWakeup` | src/thread/ThreadPool.cpp:111-264 | in every interleaving, with work queued or a shutdown to be noticed, some worker is awake or a notification is still owed |
| `ThreadPool.SleepersAreNotNeeded` | src/thread/ThreadPool.cpp:241-264 | while a worker sleeps there are no more queued tasks than workers about to look plus notifications owed |
| `ThreadPool.ExactlyOnce` | src/thread/ThreadPool.cpp:103-295 | accepted tasks are those started followed by the queue, in order; each is queued, running or finished exactly once; the queue keeps its bound |
| `ThreadPool.ExitedMeansDrained` | src/thread/ThreadPool.cpp:256-262 | after a worker has exited the pool is stopping, its queue is empty and nothing more is accepted, for ever |
| `ThreadPool.StopReturnsDrained` | src/thread/ThreadPool.cpp:150-184 | when the call to stop that set the flag returns, every accepted task has finished, once |
| `ThreadPool.SecondStopReturnsEarly` | src/thread/ThreadPool.cpp:156-161 | a later call to stop can return while a task is still queued |
| `ThreadPool.LaterStopReturnsDrainedExactly` | src/thread/ThreadPool.cpp:156-161 | a call to stop that finds the flag set changes nothing; every accepted task has finished on its return exactly if none was queued or running at the call |
| `ThreadPool.DrainStep` | src/thread/ThreadPool.cpp:150-295 | every effective step of a stopping pool decreases a measure |
| `ThreadPool.DrainIsBounded` | src/thread/ThreadPool.cpp:150-295 | so a stopping pool takes no more steps than its measure |
| `ThreadPool.DrainHasNextStep` | src/thread/ThreadPool.cpp:150-295 | and has a step, spurious wakeups and new calls not being relied on, as long as a worker has not exited or a caller has not returned |
| `ThreadPool.DrainEndsComplete` | src/thread/ThreadPool.cpp:150-184 | a stopping pool that cannot proceed in that sense has finished every accepted task and its stop has returned; no worker sleeps through the shutdown |
| `ThreadPool.QuietPoolHasRunEverything` | src/thread/ThreadPool.cpp:111-264 | a pool that cannot proceed in that sense, stopping or not, has finished every accepted task; none waits for a worker that sleeps |
| `EventLoop.UndisturbedBatch` | src/reactor/EventLoop.cpp:498-525 | the steps that run a batch, left undisturbed, run all of it in order and return to the check |
| `EventLoop.Reactor.constructor` | src/reactor/EventLoop.cpp:21-131 | starts in an initial state of the transition system |
| `EventLoop.Reactor.PushPending` | src/reactor/EventLoop.cpp:352-364 | the locked block is the push step of the calling thread |
| `EventLoop.Reactor.Wake` | src/reactor/EventLoop.cpp:375-420 | the call is the write step of the calling thread, and leaves the counter positive even if it is saturated |
| `EventLoop.Reactor.QueueInLoop` | src/reactor/EventLoop.cpp:344-368 | the call is a push step followed by a write step |
| `EventLoop.Reactor.Quit` | src/reactor/EventLoop.cpp:329-337 | the call is a request step followed by a write step |
| `EventLoop.Reactor.HandleWakeup` | src/reactor/EventLoop.cpp:427-472 | the call is the dispatch step of the wakeup event |
| `EventLoop.Reactor.HandleEvent` | src/reactor/EventLoop.cpp:573-604 | handing one event to its channel is the dispatch step; it runs no queued functor |
| `EventLoop.Reactor.DoPendingFunctors` | src/reactor/EventLoop.cpp:479-526 | the call is the swap step followed by the steps of the batch; it empties the queue and runs what was in it, in order, once each |
| `EventLoop.Reactor.LoopOnce` | src/reactor/EventLoop.cpp:533-608 | one undisturbed iteration is the return of the wait, one dispatch step for each event, the swap and the batch, and runs what was queued before it |
| `EventLoop.Reactor.Start` | src/reactor/EventLoop.cpp:285-304 | the start of the loop lowers the flag |
| `EventLoop.Reactor.CheckQuit` | src/reactor/EventLoop.cpp:306-306 | the condition of the loop is the check step |
| `EventLoop.StepInv` | src/reactor/EventLoop.cpp:285-608 | every step of the loop and of every other thread keeps the invariants on hand-off, quit, order and batches |
| `EventLoop.CallsTakeEffect` | src/reactor/EventLoop.cpp:329-420 | a push puts its functor at the end of the queue, a quit raises the flag, both leave a wakeup owed, and writing it makes the counter positive |
| `EventLoop.NoForgottenFunctor` | src/reactor/EventLoop.cpp:344-420 | in every interleaving, a loop that blocks with functors queued has a positive counter or a thread about to write it, unless a handler has thrown since the last swap |
| `EventLoop.NeverThrown` | src/reactor/EventLoop.cpp:573-604 | that exception does not arise in runs without throwing handlers |
| `EventLoop.ThrowingHandlerStrandsFunctors` | src/reactor/EventLoop.cpp:311-317 | a throwing handler can leave a functor queued in a loop started again that blocks with nobody about to wake it |
| `EventLoop.ThrowStrandsExactly` | src/reactor/EventLoop.cpp:311-317 | otherwise a new start right after the throw leaves a waiting loop with functors queued and no wakeup to come |
| `EventLoop.ThrowKeepsHandOff` | src/reactor/EventLoop.cpp:311-317 | if at a throw no functor is queued, the counter is positive or somebody owes a wakeup, then after everything that can follow up to the next throw a waiting loop with functors queued has a wakeup coming |
| `EventLoop.ThrowIsHarmlessExactly` | src/reactor/EventLoop.cpp:311-317 | and only then |
| `EventLoop.ExecutedInQueueOrder` | src/reactor/EventLoop.cpp:479-526 | in every interleaving functors run once each, in the order in which all threads together queued them |
| `EventLoop.QueuedDuringBatchRunsLater` | src/reactor/EventLoop.cpp:485-495 | a functor queued while a batch runs is not part of that batch |
| `EventLoop.QuitStep` | src/reactor/EventLoop.cpp:306-309 | with the flag up every step of the loop thread brings it closer to leaving and it never waits again |
| `EventLoop.QuitIsNoticed` | src/reactor/EventLoop.cpp:329-337 | a running loop with the flag up can always proceed, failures and other channels not being relied on: it has a step of its own, a wakeup is about to be written, or the wait returns for one |
| `EventLoop.QuitIsHonoured` | src/reactor/EventLoop.cpp:299-322 | unless the loop is started anew, a quit stays requested and the loop enters no further wait |
| `EventLoop.QuitLeavesOneIteration` | src/reactor/EventLoop.cpp:306-309 | unless the loop is started anew, at most one more batch is swapped out after a quit, and none if the loop was past its swap |
| `EventLoop.QuitEndsTheLoop` | src/reactor/EventLoop.cpp:306-322 | a started loop that was asked to quit and cannot proceed in that sense has left; it is never blocked in the wait |
| `EventLoop.QuietLoopHasRunEverything` | src/reactor/EventLoop.cpp:479-608 | a running loop that cannot proceed, no handler having thrown since the last swap, waits with an empty queue and has run every functor ever queued, in order |
| `EventLoop.QuitHoldsUntilStart` | src/reactor/EventLoop.cpp:299-301 | a quit that is not repeated stays in force exactly as long as the loop is not started |
| `EventLoop.EarlyQuitIsLost` | src/reactor/EventLoop.cpp:299-301 | a quit requested before the loop resets its flag is lost and the loop blocks |
| `Pipeline.ParserRejectsEmptyHostname` | src/serializer/MetricsDeserializer.cpp:665-678 | a parsed snapshot has a host name |
| `Pipeline.StepInv` | src/server/TcpServer.cpp:637-1008 | every step of reactor, workers and timer keeps the invariants on tasks, hosts, accounts, verdicts and the origin of records |
| `Pipeline.MessagesAreConserved` | src/server/TcpServer.cpp:637-1008 | in every interleaving each delivered message is in exactly one place: dropped, queued, running, rejected by the parser, or accepted by it with its host stored |
| `Pipeline.DroppedExactly` | src/server/TcpServer.cpp:658-1000 | over every run a delivered message is dropped exactly by a stopping pool and by a full queue; any other goes to the end of the queue |
| `Pipeline.VerdictsAreRight` | src/server/TcpServer.cpp:672-830 | in every interleaving a completed message was accepted by the parser and its host is stored, a rejected one was refused by the parser |
| `Pipeline.StoredRecordsWereDelivered` | src/server/TcpServer.cpp:672-830 | in every interleaving each stored record is filed under its own host and is what the parser makes of a delivered message |
| `Pipeline.HostsAreNested` | src/server/TcpServer.cpp:239-284 | in every interleaving tracked hosts are stored hosts, and stored hosts and hosts with an alert have a non-empty history |
| `Pipeline.EmptyNameGuardsNeverFire` | src/store/MetricsStore.cpp:20-25 | the guard against an empty host name never fires, because the parser refuses such snapshots |
| `Pipeline.StoppedServerHasProcessedEverything` | src/server/TcpServer.cpp:637-1008 | once the stop of the pool has returned, each message not dropped was completed and its host is stored if the parser accepts it, and rejected if not, exactly once |
| `Pipeline.QuietServerHasProcessedEverything` | src/server/TcpServer.cpp:637-1008 | a server that can no longer proceed, stopped or not, has completed or rejected every message not dropped, once, and has stored the host of each accepted one |
| `Effects.StepInv` | src/server/TcpServer.cpp:637-1008 | every step of reactor, workers and timer keeps the stores equal to what their calls amount to, the calls right and counted |
| `Effects.StoresFollowTheirCalls` | src/server/TcpServer.cpp:764-864 | in every interleaving the histories are the replay of their additions, the alerts the run of the manager over its samples, the store holds the last record kept for each host, with its time, and the tracker the last report |
| `Effects.CallsAreRight` | src/server/TcpServer.cpp:672-864 | in every interleaving every call carries what the parser made of a delivered message, and the timer reports on records the store has held |
| `Effects.EachMessageTakesEffectOnce` | src/server/TcpServer.cpp:672-905 | in every interleaving a completed message has been added to the history, evaluated for alerts, stored and reported, once each; one that is dropped, rejected or queued has made none of these calls |
| `Effects.RunningMessageIsHalfway` | src/server/TcpServer.cpp:764-864 | in every interleaving a running message has made exactly the calls before the point its worker has reached, once each |
| `Effects.TimerCoversEveryHost` | src/server/TcpServer.cpp:250-252 | a pass of the timer covers every stored host |
| `Effects.TimerReportsEveryHost` | src/server/TcpServer.cpp:255-272 | and in every interleaving each record it began with is reported, with the status at some clock reading, or still to be |
| `Alerts.MakeKeyIsInjective` | src/alert/AlertManager.cpp:47-60 | a key determines host and metric when metric names hold no underscore |
| `Alerts.EvaluationKeys` | src/alert/AlertEvaluator.cpp:33-200 | one evaluation raises alerts under different keys, all of the evaluated host, with metric names free of underscores |
| `Alerts.EvaluationIs` | src/alert/AlertEvaluator.cpp:33-200 | an evaluation holds exactly the alerts of the metrics cpu, memory and disk whose percentage has reached its threshold, 90 for disk, each with host, level, percentage, threshold and message |
| `Alerts.RaisesExactly` | src/alert/AlertEvaluator.cpp:33-200 | the key of a host and a metric is raised exactly if the snapshot is of that host and the percentage of that metric has reached its threshold, and then by that alert |
| `Alerts.AlertManager.constructor` | src/alert/AlertManager.cpp:9-40 | no alerts at first |
| `Alerts.AlertManager.DoUpdate` | src/alert/AlertManager.cpp:70-327 | the raising loop followed by the resolving loop leave the table and return the firings of the specification function |
| `Alerts.AlertManager.ResolveLoop` | src/alert/AlertManager.cpp:262-319 | every firing alert whose key was not raised becomes normal, in any order of the table, and nothing else changes |
| `Alerts.AlertManager.GetActiveAlerts` | src/alert/AlertManager.cpp:338-379 | returns exactly the alerts that are not normal, one entry for each key |
| `Alerts.UpdateAt` | src/alert/AlertManager.cpp:70-327 | what an update does to one key depends only on that key and on whether the evaluation raises it |
| `Alerts.UpdateHosts` | src/alert/AlertManager.cpp:110-195 | an update adds records only for the host of its snapshot and moves none to another host |
| `Alerts.OnlyTheseTransitions` | src/alert/AlertManager.cpp:110-319 | over every run a key only goes from absent to pending, pending to firing, firing to normal and normal to firing |
| `Alerts.FirstDetectionIsKept` | src/alert/AlertManager.cpp:138-195 | a key has a record exactly if it was ever raised, and the record keeps the time of the first raise for ever |
| `Alerts.NeverFiresEarly` | src/alert/AlertManager.cpp:217-251 | a key fires neither on the sample that first raises it nor before the fire duration has passed since that sample |
| `Alerts.FiresExactlyWhen` | src/alert/AlertManager.cpp:138-253 | a key fires exactly if the sample raises it, its record is not firing, and the fire duration has passed since the sample that first raised it, whatever came in between |
| `Alerts.FiresOnExcessExactly` | src/alert/AlertManager.cpp:110-253 | the alert of a host and a metric fires exactly if the sample exceeds the threshold, its record is not firing, and the fire duration has passed since the first sample that exceeded it |
| `Alerts.BriefExcessesFire` | src/alert/AlertManager.cpp:217-251 | a run of three samples in which the last fires although the one before it did not raise the key |
| `Alerts.WholeSecondsTruncate` | src/alert/AlertManager.cpp:217-232 | on a clock set back the seconds are cut towards zero as well |
| `Alerts.WholeSecondsAreSeconds` | src/alert/AlertManager.cpp:217-232 | on a clock that does not go back, comparing truncated seconds compares the elapsed time |
| `Alerts.FiringFollowsTheEvaluator` | src/alert/AlertManager.cpp:231-317 | with such a clock, a key that has fired once is firing after any update exactly if that update raised it |
| `Alerts.FiringIsExcess` | src/alert/AlertManager.cpp:110-317 | with such a clock, an alert that has fired once is firing after any update exactly if that snapshot exceeds the threshold |
| `Alerts.RecordCarries` | src/alert/AlertManager.cpp:138-210 | over every run a record carries host, metric, level, threshold and message of its own, and percentage and time of the last sample that exceeded the threshold |
| `Alerts.ReportsAreRecords` | src/alert/AlertManager.cpp:231-327 | what an update returns are firing records of the table it leaves |
| `Alerts.UpdateReports` | src/alert/AlertManager.cpp:231-251 | the returned list names a key once if it fires in that update, and not otherwise |
| `Alerts.RecordsStayUnderTheirKeys` | src/alert/AlertManager.cpp:145-189 | over every run each record is filed under its own host and metric |
| `Alerts.EdgesAlternate` | src/alert/AlertManager.cpp:231-315 | firings and resolutions of a key alternate, a firing first, and the key is firing exactly if the last of them was a firing |
| `Alerts.OtherHostsResolve` | src/alert/AlertManager.cpp:262-319 | an update from another host resolves the record if it is firing and changes nothing in it otherwise: the record survives unchanged exactly if it was not firing |
| `Alerts.QuietHostResolvesOther` | src/alert/AlertManager.cpp:262-319 | a run in which a quiet snapshot of one host resolves the firing alert of another |
| `Logger.FileLogger.constructor` | src/log/Logger.cpp:70-111 | takes over the size of an existing log, asks for a rotation if it has reached the limit, and opens it; the state is that of the specification function |
| `Logger.StartRotatesAboveTheLimit` | src/log/Logger.cpp:101-107 | without failures of remove, rename and open, a log found on start becomes the backup exactly if it is longer than 10 MiB; otherwise both files stay as they are |
| `Logger.StartKeepsFileAtTheLimit` | src/log/Logger.cpp:373-378 | a log of exactly 10 MiB is left in place on start, whatever fails, although the constructor asks for a rotation |
| `Logger.FileAtTheLimitStays` | src/log/Logger.cpp:373-378 | there is such a log |
| `Logger.FileLogger.OpenLogFile` | src/log/Logger.cpp:297-358 | opens for appending and takes over the size of the file; on failure the logger is closed |
| `Logger.FileLogger.RotateIfNeeded` | src/log/Logger.cpp:365-517 | rotates exactly if the line would pass 10 MiB, with each of the failures of remove, rename and open |
| `Logger.FileLogger.Log` | src/log/Logger.cpp:268-289 | rotates if needed, then appends and counts the line if the file is open |
| `Logger.WrittenExactly` | src/log/Logger.cpp:268-289 | a line that fits is written exactly if the file is open, one that does not exactly if the rotation it causes can open a file; a written line is the last of the active file, any other is lost |
| `Logger.RotatesExactly` | src/log/Logger.cpp:365-517 | nothing happens up to 10 MiB; beyond it, without failures, the active file becomes the backup and a fresh one is open |
| `Logger.RotationKeeps` | src/log/Logger.cpp:365-517 | whatever fails, a rotation keeps the active file, loses the old backup unless neither removing nor replacing it succeeded, and leaves the logger open exactly if it could open a file |
| `Logger.EveryLineIsWritten` | src/log/Logger.cpp:70-289 | without failures, what the files have ever held after any run is what was found at the start followed by all lines logged, in order |
| `Logger.FilesHoldASuffix` | src/log/Logger.cpp:268-517 | for every sequence of lines and pattern of failures, backup followed by active is the end of everything written, in whole lines, and the counter is the size of the open file |
| `Logger.LimitsHold` | src/log/Logger.cpp:373-517 | without failures the active file stays within 10 MiB, a single longer line excepted, and nothing is dropped before both files together exceed 10 MiB |
| `Logger.ClosedLoggerWrites` | src/log/Logger.cpp:277-289 | a closed logger writes a line exactly if the line passes the limit and the rotation it causes opens a file |
| `Logger.SilentAfterFailedRotation` | src/log/Logger.cpp:490-512 | after one failure to create the fresh file no line of at most 10 MiB is ever logged again |
| `Logger.LineIsLostAfterFailedRotation` | src/log/Logger.cpp:490-512 | a run in which a short line is lost after such a failure although nothing fails any more |
| `Processes.IndexByPid` | src/collector/ProcessCollector.cpp:272-284 | the index maps each pid to the last previous entry with that pid |
| `Processes.CalculateUsage` | src/collector/ProcessCollector.cpp:257-363 | the result is the nested-loop join of both lists, rearranged in descending usage; empty if a total is zero |
| `Processes.SortByUsage` | src/collector/ProcessCollector.cpp:352-360 | the sort gives a permutation in descending usage |
| `Processes.SelectTop` | src/agent/MonitorAgent.cpp:201-245 | the first five entries in order, all if there are fewer |
| `Processes.LastWithPidIs` | src/collector/ProcessCollector.cpp:281-284 | the last previous entry with a pid is there exactly if the pid occurs, and no later one has that pid |
| `Processes.EligibleIsListed` | src/collector/ProcessCollector.cpp:286-350 | every current process with a matching earlier entry is listed |
| `Processes.ListedIsEligible` | src/collector/ProcessCollector.cpp:286-350 | and nothing else is |
| `Processes.EligibleExactly` | src/collector/ProcessCollector.cpp:286-330 | a process is listed exactly if an earlier entry has its pid, the last such entry has the same start time and no more CPU time |
| `Processes.EntrySays` | src/collector/ProcessCollector.cpp:313-350 | an entry says pid, name and memory of the process, its CPU time since that entry over that of the system times the number of CPUs, and its share of the memory, both in percent |
| `Processes.UsageOrdersByDelta` | src/collector/ProcessCollector.cpp:313-338 | ordering by usage is ordering by CPU time used between the samples, over exact rationals |
| `Processes.TopDominates` | src/agent/MonitorAgent.cpp:201-245 | each selected process used at least as much as each one left out |
| `Stores.MetricsHistoryStore.constructor` | src/store/MetricsHistoryStore.cpp:6-16 | a bound of zero counts as one |
| `Stores.MetricsHistoryStore.Add` | src/store/MetricsHistoryStore.cpp:23-80 | the new histories are the replay of the log with the addition; an empty host name changes none |
| `Stores.MetricsHistoryStore.Get` | src/store/MetricsHistoryStore.cpp:88-114 | the last points ever added for that host, as many as the bound allows |
| `Stores.HistoryIsMostRecent` | src/store/MetricsHistoryStore.cpp:60-80 | over every run a history is the end of that host's own log, whatever was added for others |
| `Stores.LastOfIsNewest` | src/store/MetricsHistoryStore.cpp:60-80 | what the bound keeps are the newest points, in order |
| `Stores.MetricsStore.Update` | src/store/MetricsStore.cpp:12-62 | refuses exactly the empty host name, otherwise replaces that host's record and no other |
| `Stores.MetricsStore.GetAll` | src/store/MetricsStore.cpp:106-133 | every record, once |
| `Stores.StatusLagsTheDocumentation` | src/store/MetricsStore.cpp:157-187 | the status agrees with the documented thresholds except during the sixth and the sixteenth second of age |
| `Stores.StatusOnlyDegrades` | src/store/MetricsStore.cpp:157-187 | without an update a host never looks more alive later |
| `Stores.StateTracker.Update` | src/store/StateTracker.cpp:6-92 | reports a change exactly if the status differs from the last, the first report being a change from offline |
| `Stores.ChangesChain` | src/store/StateTracker.cpp:34-91 | the reported changes of a host follow on from each other from offline, and replaying them gives the stored status |

## Left out

- Sockets, epoll, eventfd, signalfd, timerfd, `/proc` and file system calls: foreign code, present only through their results.
- IEEE arithmetic: magnitudes are exact, so neither binary rounding before printing nor the rounding of usages is modelled.
- The lifetime of connections and file descriptors after a close, and destructors.
- Configuration and the main programs: thresholds, fire duration, queue and history bounds are parameters.
- `HttpServer`, `HttpResponse`, the web page and the terminal display: string building only.
- `Acceptor`, `Channel` and `TimerFd`: thin wrappers.
- `clear` and the single-host queries of the stores: they would only add easy members.
- Console output, timestamps and thread names in log lines: a line is its text; checks for the existence of files are taken to be truthful, and writes to an open file to succeed.
- Failure to create the worker threads in the constructor of the pool, and tasks that throw: a worker catches what a task throws, so that a task just finishes.
- Calls of `stop` or `trySubmit` made by worker tasks: callers of the pool are threads of their own.
- The log record that a worker task queues in the reactor as its last act: the two protocols are composed only through the pool.
- The reactor and the timer callback run on one thread; the pipeline model lets them interleave freely, which only adds interleavings.
- Termination of the drain assumes that tasks return; fairness of the scheduler is not modelled, only that a step remains and that each effective step decreases the measure.
- Isolation of alerts between hosts, and the order of samples across connections or workers: the code provides neither.
- The wording of error messages: an error is its kind with the key, line or version it concerns.
