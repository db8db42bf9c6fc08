# Verified model of the streaming audio decode service

This project models, in Dafny, how the service moves audio from a client through a pooled
decoder and back, and proves what that protocol guarantees over every interleaving of its
parts. It also covers the connection statistics, the option parser and the packet framing of
the Opus benchmark.

`dafny verify dfyconfig.toml` checks everything.

## How it is put together

**One decode job** (`Decoder.dfy`). A value `Dec` holds the two bounded channels of 32
entries, the position of the worker inside `process_job` (`src/pool.rs:70-158`) and the decode
pipeline. `WorkerTurn` is one atomic action of the worker, `PipeTurn` one of the pipeline,
`Push`, `Take` and the closing action those of the client. The pipeline is an abstract
transducer: which results a chunk adds is a function of the chunks accepted before it, a flush
list follows the end of input, and when a result becomes visible is up to the schedule. Whether
the pipeline accepts what it is sent is also up to the schedule; data is sent again until it is
accepted, the end of input is sent once. A run is any list of actions, so statements about all
lists are statements about all interleavings.

**A connection on that job** (`Session.dfy`). `HandlerTurn` is one step of the HTTP loop
(`src/router.rs:124-176`) or of one TCP session (`src/tcp_handler.rs:113-217`). `Deadlock.dfy`
says on which inputs handler and worker can block each other, `Termination.dfy` how every fair
run ends, `Release.dfy` when the pool gets the worker of a dropped handle back; `Reach.dfy`
builds the runs that show the failures.

**What a connection or a stream means.** `TcpProtocol.dfy` splits a connection's frames into
sessions and gives their answers; `GrpcSegments.dfy` splits a gRPC stream into segments;
`GrpcDrain.dfy` says what one segment gets out of its decoder under a given schedule, and
`GrpcAnswers.dfy` what the whole stream is answered with. All are pure functions.
`GrpcLive.dfy` and `GrpcFair.dfy` show which schedules answer a segment to its end, and
`GrpcBlocks.dfy` which inputs can keep its task from that for good.

**The code's own loops.** `ProcessJob.dfy`, `Handle.dfy`, `HttpHandler.dfy`, `TcpHandler.dfy`,
`GrpcHandler.dfy` and `GrpcTask.dfy` are imperative: classes with the fields the source
updates, loops in the shape of the source's loops. Before each channel operation everyone else
acts as an arbitrary finite schedule says; a method whose schedule is used up returns
`Suspended`. Each object keeps its schedule as a plan and ties what has happened to it, so a
method can neither skip turns nor stop without a cause. Each method is proved against the
machines and functions above; `Drive.dfy` ties each operation on a handle to the turn it
performs.

**The rest.** `Pool.dfy` (shared job queue), `Stats.dfy` (counter and sample deque, updated in
two steps by any number of connections), `Options.dfy` (query strings, defaults, gRPC options),
`Framing.dfy` (length-prefixed packets, padding frames) and `Quality.dfy` (error measures).

### Assumptions about the pipeline

* Results are a function of the chunks accepted so far; they only grow.
* Safety (order, prefix, conservation) assumes nothing else: sends may be refused at any time.
* That a run finishes assumes that the scheduler is fair (`FairRound`), so a data send is
  accepted eventually. That the end-of-input send is accepted is not assumed but part of the
  result (`FinishesIffEofAccepted`), except where peer and pipeline cooperate (`Ample`).

### Where the code and its documentation differ

The model follows the code.

* The HTTP response carries no seven metadata bytes, although `src/router.rs:83-85` says so.
* A gRPC response never carries metadata (`proto/decode.proto`), and an option of zero means the
  server's default, not the original format.
* The job queue itself holds `size` jobs (`src/pool.rs:37`), so acquiring does not block as soon
  as all workers are busy; the bound is twice the pool size.

### Properties that fail, and exactly when

* Handler and worker can block each other for good. On a given codec and input they can, if and
  only if the input has at least 32 chunks and those before the last 32 owe more than 32
  results: `Deadlock.DeadlocksIff`, with the run that blocks built by
  `Deadlock.BlockingSchedule`. Every fair cooperative schedule finishes a session if and only if
  no read of the session fails and its input cannot block it: `Termination.CooperationFinishesIff`.
* A gRPC task can block in the same way, also in the drop after a drain that gave up. On a given
  codec and segment it can, if and only if the segment has at least 31 chunks with data and those
  before the last 31 owe more than 32 results: `GrpcBlocks.TaskBlocksIff`. Every ample schedule
  answers a segment to its end if and only if it cannot (`GrpcBlocks.AmpleAnswersIff`), and so for
  a stream (`GrpcBlocks.StreamEndsIff`).
* A refused end-of-input send hangs the session for good (`Termination.LostEofNeverFinishes`),
  and every input can meet it (`Termination.EofCanBeLost`).
* A worker whose handle has been dropped need not come back to the pool. Under fair schedules it
  does if and only if the pipeline took the end of input or a result was left that it could not
  forward, and otherwise it never does: `Release.WorkerReturnsIff`.
* A gRPC segment can be answered with less than it decodes to. It is answered with everything if
  and only if, under its schedule, everything is taken before eleven polls have found nothing
  since the last audio (`GrpcDrain.SegmentIsWholeIff`, `GrpcAnswers.CompleteIff` for a stream).
  Whatever the codec, some schedule loses audio of a segment or a stream if and only if there is
  any (`GrpcDrain.AudioCanBeLostIff`, `GrpcAnswers.StreamCanLoseAudioIff`).
* The worker's duration divides by zero exactly when the bit depth in force is below 8, which a
  configured default or a gRPC request can bring about and a query cannot:
  `Options.HttpDivisorSafeIff`, `Options.GrpcDivisorSafeIff`.
* A gRPC option above 255 is not honoured where a byte is kept: `Options.ResolveHonoursIffFits`.
  A rate of zero means the default in a gRPC request and zero in a query, which is where the two
  differ: `Options.GrpcAgreesWithHttp`.
* Each job that panics costs the pool a worker for good; a pool accepts nothing any more exactly
  when it has been shut down, its queue is full, or as many jobs have panicked as it had workers:
  `Pool.AcquireAcceptedIff`.
* The benchmark's peak error is the largest error exactly when no difference overflows sixteen
  bits: `Quality.PeakRightIff`, and `Quality.PeakCanBeOne` for an overflow.
* `decode_meta` then `encode_meta` gives the bytes back exactly when the encoding byte is 0 or 1:
  `TcpProtocol.MetaRoundTripBack`.
* An encoder that makes an empty packet of a frame loses that frame; a track makes the round trip
  exactly if every frame got a packet: `Framing.TrackRoundTrip`.

## Model

| member | source | states |
|---|---|---|
| Decoder.AlwaysInv | src/pool.rs:84-158 | after any actions of client, worker and pipeline: chunks accepted, the chunk being retried, the end mark taken and the input queue together are the chunks sent; delivered, queued, in-hand and pipeline results together are exactly the results owed |
| Decoder.AnyClientIsServedInOrder | src/pool.rs:84-158 | for any client: received is a prefix of the decoding of what was sent up to the first empty chunk; the pipeline saw a prefix of that input, all of it if it took the end; a clean exit has forwarded everything |
| Decoder.ClosedMeansComplete | src/pool.rs:131-154 | whoever finds the output channel closed with the handle open has received the whole decoding |
| Decoder.NothingAfterEof | src/pool.rs:86-115 | once the end of input has been passed on, accepted or not, no later action of anyone gives the pipeline anything |
| Decoder.DataSendsNeverFail | src/pool.rs:218-225 | a handle that has not signalled the end of input finds its worker running, so its sends cannot be refused |
| Decoder.NeverDisconnected | src/pool.rs:109-113 | because dropping a handle sends an empty chunk first, the worker never meets an empty disconnected input channel |
| Decoder.AcceptedIsPrefix | src/pool.rs:86-115 | what the pipeline accepted, with the chunk in hand, is a prefix of the input before the first empty chunk; all of it once that chunk is taken |
| ProcessJob.Job.ServedInOrder | src/pool.rs:70-158 | at every moment of the loop, and however it ends, the client has received a prefix of the decoding of what it sent |
| ProcessJob.Job.SendOutput | src/pool.rs:124-128 | waits for room and appends the held result behind everything delivered and queued, or fails because the receiver is gone |
| ProcessJob.Job.RecvPipeline | src/pool.rs:131-151 | waits for the next result; none only when the pipeline has finished |
| ProcessJob.SendChunk | src/pool.rs:98-103 | a data chunk is retried until accepted, and counted once |
| ProcessJob.LookForInput | src/pool.rs:86-115 | one look at the input: nothing, a data chunk counted and kept for sending, or the end |
| ProcessJob.ReadInput | src/pool.rs:86-115 | after looking and passing on: bytes counted are exactly those of the chunks accepted |
| ProcessJob.Forwarding | src/pool.rs:118-128 | one result counted and sent on, or the abort |
| ProcessJob.DrainAvailable | src/pool.rs:118-129 | the polling drain leaves the worker polling, or in the last loop after the end of input |
| ProcessJob.CompletedCounts | src/pool.rs:92-129 | on a clean exit the input counter is the total of the chunks sent before the first empty one, the output counter the total of all audio forwarded, and the format that of the last audio |
| ProcessJob.Run | src/pool.rs:70-158 | the whole loop under any schedule: it ends completed, aborted or still running exactly as the schedule's actions leave the worker; metrics are exact at every suspension; on completion the whole decoding has been forwarded in order |
| Handle.PooledDecoder.Send | src/pool.rs:218-225 | a send waits only while the channel is full, appends at the end, and is refused only by a gone worker |
| Handle.PooledDecoder.TryRecv | src/pool.rs:227-235 | the oldest result, nothing yet, or closed, and when each |
| Handle.PooledDecoder.Recv | src/pool.rs:237-241 | waits only while nothing is queued; ends only when the worker is gone and everything has been taken |
| Handle.PooledDecoder.Drop | src/pool.rs:244-249 | an end-of-input send, completed or failed, then both channel ends close |
| Session.AlwaysSessInv | src/tcp_handler.rs:113-217 | over all interleavings: what was sent plus what is left to read is the source's input; what was written is the audio delivered; and the deadlock invariant on the current drain pass |
| Session.EndToEnd | src/router.rs:124-176 | over all interleavings, HTTP and TCP: the audio written is a prefix of the decoding of the source's input, all of it on finishing |
| Session.BodyFeeds | src/router.rs:125-154 | a body of some chunks that then ends or fails feeds its non-empty chunks in order, whatever comes after the failure |
| Session.ChunkingDoesNotMatter | src/router.rs:124-176 | if decoding depends on the bytes only, two handlers of either kind fed the same bytes in different chunks under any schedules write compatible PCM, equal once both finish |
| Session.WorkerIsThere | src/tcp_handler.rs:178-181 | the handler's recovery from a failed data send is never needed |
| Session.NextAudioIsDecoded | src/router.rs:136-147 | an audio the handler takes is the next one of the complete decoding |
| Deadlock.BlockedForever | src/pool.rs:125 | a full input channel on one side and a full output channel on the other stay so whatever anyone does |
| Deadlock.BlockedInALongPass | src/pool.rs:118-129 | any reachable blocked state is inside a drain pass that pulled more than 32 results |
| Deadlock.BlockingSchedule | src/router.rs:131-147 | for every codec and every HTTP or TCP input that meets the condition, a run that blocks both sides although peer and pipeline cooperate |
| Deadlock.DeadlocksIff | src/pool.rs:84-158 | on an input handler and worker can block each other if and only if it has at least 32 chunks and those before the last 32 owe more than 32 results; covers sends of data, of the end of input, and of the drop after a failed read |
| Deadlock.DeadlockFreeIff | src/pool.rs:118-129 | of all bounds on one drain pass, those up to 32 results and no others rule out blocking for every pipeline and input |
| Termination.TurnDescends | src/pool.rs:84-158 | every turn lowers the measure over unread input, queued chunks, results in flight and phases, or only idles |
| Termination.SomeoneCanMove | src/router.rs:131-174 | in every unsettled reachable state the handler, the worker or the pipeline can make progress |
| Termination.FairOutcome | src/pool.rs:131-154 | every fair schedule of enough rounds ends finished with everything written, blocked in a long pass, with a refused end of input, or after a failed read or write |
| Release.WorkerReturnsIff | src/pool.rs:131-154 | after the handle is gone, enough fair rounds bring the worker back to the pool if and only if the pipeline took the end of input or some owed result stayed undelivered; otherwise no continuation ever does |
| Release.AbandonedWorkerReturnsIff | src/router.rs:136-152 | the same for the worker of a session given up after a failed read or write, however it had run before |
| Termination.FinishesIffEofAccepted | src/pool.rs:88-92 | without a failed read or write, a fair session finishes if and only if the end-of-input send was not refused and the two sides are not blocked; on an input that cannot block, if and only if it was not refused |
| Termination.EofCanBeLost | src/pool.rs:88-92 | every HTTP or TCP input, for every codec, has a run in which the end-of-input send to the pipeline is refused |
| Termination.LostEofNeverFinishes | src/pool.rs:88-92 | after a refused end-of-input send no continuation finishes the session |
| Termination.CooperationFinishes | src/tcp_handler.rs:192-220 | with cooperative peer and pipeline every fair session whose own reads do not fail and whose input cannot block finishes and writes everything, whatever arrives after the session |
| Termination.CooperationFinishesIff | src/tcp_handler.rs:192-220 | every fair cooperative schedule finishes a session if and only if no read of the session fails and its input cannot block it |
| Drive.AmpleFinishes | src/router.rs:124-176 | a handler that has used up an ample schedule on an input that cannot block, with no failed read in its session, has finished or met a failed write |
| HttpHandler.Drain | src/router.rs:136-147 | the drain loop writes what it receives and stops when nothing is ready |
| HttpHandler.Flush | src/router.rs:160-174 | the last loop polls until the decoder has finished |
| HttpHandler.FeedBody | src/router.rs:125-154 | the feed loop skips empty chunks, stops at the end or an error of the body, and returns early on a failed write |
| HttpHandler.HandleDecodeStream | src/router.rs:124-176 | the response is a prefix of the PCM of the decoded body, the whole of it on completion; a failed write means the peer is full, a suspension that the whole schedule has been used; with an ample schedule, a patient peer and a body that cannot block it completes |
| TcpProtocol.TalksAreSessions | src/tcp_handler.rs:93-190 | for any sessions written as DCOD frames with data and frames of unknown tags, ended by DONE or by an empty DCOD, with anything but DCOD between them: the connection has one session for each, fed its DCOD payloads, and one more for what a hang-up or a failed read leaves unfinished |
| TcpProtocol.EveryConnectionIsWritten | src/tcp_handler.rs:93-190 | every list of arrivals is such a connection, so the law covers all |
| TcpProtocol.MetaRoundTrip | src/tcp_handler.rs:236-260 | decoding the encoded metadata gives the four parameters back |
| TcpProtocol.MetaRoundTripBack | src/tcp_handler.rs:245-260 | encoding the decoded metadata gives the bytes back if and only if the encoding byte is one the encoder writes |
| TcpProtocol.AnyPartReads | src/tcp_handler.rs:118-220 | any prefix of a connection's answers follows the grammar: META then at least one PCMS, or nothing, then DONE, repeated |
| TcpProtocol.AnswerCounts | src/tcp_handler.rs:118-220 | in complete answers: one DONE for each session, one META for each session with audio |
| TcpProtocol.DonesWritten | src/tcp_handler.rs:219-220 | on a connection that stops inside a session: as many DONE frames as sessions answered |
| TcpProtocol.MetaDescribesFirstAudio | src/tcp_handler.rs:139-152 | a session with audio is answered first by a META of seven bytes: the rate of its first audio with the high byte first, its channels, its bits, and 1 if and only if its samples are floats |
| TcpProtocol.AnswerCarriesAudio | src/tcp_handler.rs:154-220 | the payloads of the PCMS frames of an answer, joined, are the bytes of all its audio |
| TcpHandler.EncodeMeta | src/tcp_handler.rs:236-243 | the buffer filled in place is the seven metadata bytes |
| TcpHandler.Writer.WriteAudio | src/tcp_handler.rs:138-154 | META before the session's first audio only; on failure what was written is a prefix of that |
| TcpHandler.Flush | src/tcp_handler.rs:192-217 | the flush loop completes the session's answer up to its DONE |
| TcpHandler.FeedSession | src/tcp_handler.rs:118-190 | the read loop feeds the session's DCOD payloads, skips unknown tags, and stops behind the frame that ends the session |
| TcpHandler.RunSession | src/tcp_handler.rs:113-220 | one session writes exactly its answer behind what was written before; otherwise part of it, and then a read failed, the peer is full, or the schedule is one on which the session cannot finish |
| TcpHandler.Serve | src/tcp_handler.rs:91-224 | the persistent loop writes a prefix of the answers to the connection's sessions, with as many DONE frames as sessions answered, always within the grammar, and all of them when the client closes without a failed read; any other end is a failed read in the session next to be answered or after all of them, a full peer, a refused decoder or a used-up schedule |
| TcpHandler.ConnectionsAreServed | src/tcp_handler.rs:91-224 | with a patient peer and for each session an ample schedule and an input that cannot block, every session but the one that a failed read cuts off is answered completely, and the connection is served to its end if and only if no read fails |
| GrpcSegments.OptionsComeFromLatestSetting | src/grpc.rs:123-145 | the options in force are what the latest segment-starting message with options asks for: each field that fits as asked, each zero field the default of that same field; without such a message they are the defaults |
| GrpcSegments.WrittenSegments | src/grpc.rs:106-173 | a stream written as segments, each a starting message and continuing ones, is decoded in exactly these, each with its own data and with the options its first message asks for, else those of the segment before, at first the defaults |
| GrpcSegments.EveryStreamIsWritten | src/grpc.rs:106-173 | every list of messages is such a stream, so the law covers all |
| GrpcSegments.ContinuationOptionsIgnored | src/grpc.rs:108-145 | options on continuation messages change neither segments nor options |
| GrpcSegments.SegmentsPartitionData | src/grpc.rs:108-173 | the segments hold all data of all messages in order; there are as many as starting messages |
| GrpcDrain.DrainKeeps | src/grpc.rs:51-72 | the bounded drain, under any schedule: an order-preserving prefix of the payloads, all of them if it ends whole; at most ten sleeps per payload and ten more; at least ten before it gives up; polls bounded by results and sleeps |
| GrpcDrain.DrainIsWholeIff | src/grpc.rs:51-72 | the drain ends whole if and only if some poll finds the decoder finished and everything taken before eleven polls have found nothing since the last audio |
| GrpcDrain.DrainTakesAllIff | src/grpc.rs:51-72 | the drain brings everything that is owed, whether it ends whole or gives up, if and only if at some turn of its schedule everything has been taken and never before have eleven polls found nothing since the last audio |
| GrpcDrain.SegmentIsSound | src/grpc.rs:162-231 | a segment is answered with a prefix of what its data decodes to, all of it if its drain ends whole |
| GrpcDrain.SegmentIsWholeIff | src/grpc.rs:162-231 | a segment is answered with all it decodes to if and only if its drain takes everything in that time, or its messages have brought everything where the schedule ends before the answer does |
| GrpcDrain.CutShort | src/grpc.rs:46-73 | for every codec and every segment, however long, a schedule on which all its messages are accepted, the drain gives up and nothing is answered |
| GrpcDrain.AudioCanBeLostIff | src/grpc.rs:46-73 | for every codec and segment: some schedule answers it to its end with less than it decodes to if and only if it decodes to any audio |
| GrpcAnswers.BlockIsSound | src/grpc.rs:98-231 | each segment's block is a prefix of what that segment alone decodes to, whole if its drain ends whole |
| GrpcAnswers.CompleteIff | src/grpc.rs:98-231 | the stream is answered with all its segments decode to, in order, if and only if under its schedules every segment's audio is taken before that segment's drain gives up; whole drains suffice |
| GrpcAnswers.StreamCanLoseAudioIff | src/grpc.rs:98-231 | some decoders answer every segment of a stream to its end without all its audio if and only if the stream decodes to any |
| GrpcAnswers.WellProvidedCompletes | src/grpc.rs:94-232 | with a decoder for every segment, no schedule used up, no shutdown and a client that takes everything, the task completes and has sent the whole answer |
| GrpcFair.AmpleAnswers | src/grpc.rs:46-231 | enough fair rounds answer a segment to its end, through feeding, drain and drop, if its data cannot block the task |
| GrpcBlocks.TaskBlocksIff | src/grpc.rs:46-231 | some schedule leaves a segment unanswered whatever follows, if and only if it has at least 31 chunks and those before the last 31 owe more than 32 results; covers sends of data, of the end of input, and of the drop |
| GrpcBlocks.AmpleAnswersIff | src/grpc.rs:46-231 | every schedule of enough fair rounds answers a segment to its end if and only if its data cannot block the task |
| GrpcBlocks.StreamEndsIff | src/grpc.rs:94-232 | all ample decoders answer every segment of a stream to its end if and only if no segment can block the task |
| GrpcBlocks.StreamIsServed | src/grpc.rs:94-232 | with ample decoders, segments that cannot block, no shutdown and a client that takes everything, the task completes and has sent the whole answer |
| GrpcHandler.SendData | src/grpc.rs:166-173 | a message's data is accepted as soon as there is room; the recovery from a failed send is never needed |
| GrpcHandler.CollectAvailable | src/grpc.rs:175-192 | the loop collects exactly what the schedule makes ready until a poll finds nothing |
| GrpcHandler.DrainPolls | src/grpc.rs:50-71 | the polling loop with its try counter brings exactly the chunks, end, sleeps and polls of the drain as a function of schedule and decoder |
| GrpcHandler.DrainDecoderSync | src/grpc.rs:46-73 | signals the end of input, then that drain; its order, completeness and bounds |
| GrpcHandler.DrainAndDrop | src/grpc.rs:110-114 | the drain followed by the handle's drop |
| GrpcTask.Task.FinishSegment | src/grpc.rs:109-121 | drains and drops the held decoder and sends what the drain collected: the segment's answer is then complete, unless the client is full or the schedule used up |
| GrpcTask.Task.StartSegment | src/grpc.rs:108-160 | finishes the segment before, resolves the options, acquires a decoder for the new one |
| GrpcTask.Task.FeedAndPassOn | src/grpc.rs:162-206 | sends a message's data to the held decoder and passes on exactly what is ready |
| GrpcTask.Task.OnMessage | src/grpc.rs:106-207 | one message advances segments, options and answer as the stream's meaning says |
| GrpcTask.Task.Run | src/grpc.rs:94-232 | the responses are a prefix of the answer to the stream, one block for each segment in order; on completion all of it; on a shutdown, which must be the first event that is no message, exactly what all messages before it have brought; on a refused decoder, all segments before it answered in full; any other end is a full client or a used-up schedule |
| Pool.PoolIsFair | src/pool.rs:35-59 | in every reachable state at most one worker holds the receiver; every accepted job is queued, running, finished or crashed and only one of these; jobs start in acceptance order; queued plus running is at most twice the size |
| Pool.QueuedJobCanStart | src/pool.rs:46-55 | while some worker is idle the oldest queued job can be started within two events |
| Pool.AcquireAcceptedIff | src/pool.rs:191-209 | a job is accepted if and only if the pool has not been shut down, fewer jobs wait than it has workers, and fewer jobs have panicked than that; otherwise nothing changes |
| Pool.GoneAreCrashed | src/pool.rs:46-56 | in every reachable state of an open pool exactly as many workers are gone as jobs have panicked |
| Pool.OneMoreJobCanStart | src/pool.rs:46-56 | whatever has happened to an open pool that has not lost all workers to panics, its workers can go on until one more job is accepted and all jobs, that one too, have been started |
| Pool.ShutdownCanComplete | src/pool.rs:46-56 | after a shutdown the workers can start every accepted job, unless none is left, and then all leave |
| Stats.Stats.RecordSample | src/stats.rs:47-58 | appends the sample and drops the oldest beyond 6000 |
| Stats.Stats.ConnectionStart | src/stats.rs:35-38 | counter up by one and the new count recorded |
| Stats.Stats.ConnectionEnd | src/stats.rs:41-44 | counter down by one and the new count recorded |
| Stats.Stats.Average | src/stats.rs:71-90 | the mean of the samples in the window, or the current count if there is none |
| Stats.Stats.Alarm | src/stats.rs:87-101 | the alarm is on if and only if the samples of the last 10, 60, 120 or 300 seconds add up to at least the CPUs for each, or without samples the count reaches the CPUs; each average is taken at its own moment with other connections acting in between |
| Stats.OpenAndClose | src/stats.rs:35-44 | the two changes of the counter undo each other on every 64-bit value |
| Stats.StatsUnderAllInterleavings | src/stats.rs:35-58 | over all interleavings of the two-step updates: the counter is the number of open connections; the deque holds the last 6000 appends, sorted by time; each change of the counter is recorded exactly once or pending, with the value right after it |
| Stats.CloseNeverUnderflows | src/router.rs:95-103 | a connection that ends through its guard finds the counter positive |
| Stats.SamplesCanBeOutOfOrder | src/stats.rs:35-58 | a run in which the deque's order differs from the counter's order |
| Stats.WindowIsSuffix | src/stats.rs:75-79 | the samples of a window are those of the deque from the first on that is not older than the window |
| Stats.AverageWithin | src/stats.rs:71-90 | an average lies within any bounds of the samples it is taken over, or is the current count |
| Stats.OverCapacityIff | src/stats.rs:71-101 | a window is over capacity if and only if its samples add up to at least the CPUs for each; without samples, if the count reaches the CPUs |
| Stats.QuietRunRaisesNoAlarm | src/stats.rs:93-101 | if the counter stays below the CPUs throughout a run the alarm is off, whenever its averages are taken |
| Stats.BusyRunRaisesAlarm | src/stats.rs:87-101 | a counter at the CPUs or above, now and at every change recorded within any one of the four windows, raises the alarm, whenever its averages are taken |
| Options.ParseDecodeOptions | src/decode.rs:5-40 | the loop computes the last valid setting of each field among the pairs |
| Options.ParseDecimal | src/decode.rs:16 | a decimal number, with or without plus sign, parses to itself if and only if it fits the width |
| Options.ParseIsCompositional | src/decode.rs:5-40 | the parse of two queries joined by an ampersand is the first overridden field by field by the second |
| Options.InvalidNeverErases | src/decode.rs:16-31 | a field without a valid value in the later query keeps its earlier value |
| Options.QueryRoundTrip | src/decode.rs:15-31 | a query written out for some options, under any of the keys of each field, parses back to them if and only if depth and channels are supported |
| Options.JunkSetsNothing | src/decode.rs:11-33 | a pair with an unknown key, or with a value that is no unsigned decimal number, changes nothing |
| Options.MergeDecides | src/router.rs:40-52 | a field the query sets is the query's whatever the default; any other is the default of that same field |
| Options.AskedOverDefaults | src/router.rs:40-52 | from the query string to the options in force: any numbers asked for under any keys are taken where supported, the server's default everywhere else |
| Options.ResolveGives | src/grpc.rs:123-145 | a request resolves to exactly this: each field that fits as asked whatever the defaults and the other fields, a larger depth or channel count to its low byte, each zero field to the default of that same field |
| Options.GrpcAgreesWithHttp | src/grpc.rs:123-145 | a gRPC request and a query for the same options have the same effect if and only if the query does not ask for a zero rate over another default |
| Options.ResolveHonoursIffFits | src/grpc.rs:132-141 | a requested depth or channel count is honoured if and only if it fits a byte |
| Options.HttpDivisorSafeIff | src/router.rs:40-52 | for all queries the worker's duration divisor is non-zero, if and only if the configured default depth is absent or at least 8 |
| Options.GrpcDivisorSafeIff | src/grpc.rs:132-136 | for every request the divisor of a gRPC job is non-zero if and only if the depth it asks for, cut to a byte, is at least 8, or it asks for none and the default is absent or at least 8 |
| Options.DivisorNonZeroIff | src/pool.rs:165-171 | under the worker's guard the divisor is non-zero if and only if the depth in force is at least 8 |
| Options.DivisorOfDepths | src/pool.rs:165-171 | two, three and four bytes for each sample of 16, 24 and 32 bits, and two where no depth is asked for |
| Options.SecondsAreLogged | src/pool.rs:165-171 | so many whole seconds of sixteen-bit audio are logged as a thousand times as many milliseconds |
| Framing.PacketRoundTrip | src/bin/opus_benchmark.rs:284-336 | parsing the framed stream of any non-empty packets gives exactly those packets |
| Framing.LengthIsLittleEndian | src/bin/opus_benchmark.rs:293-294 | a packet's length is written in four bytes, the low one first |
| Framing.ZeroLengthIsSkipped | src/bin/opus_benchmark.rs:321-323 | a length of zero announces no packet and is skipped |
| Framing.CutStream | src/bin/opus_benchmark.rs:315-336 | any cut parses to the packets wholly before it, with an error exactly when a whole length but not its whole packet is left |
| Framing.FramesHoldSamples | src/bin/opus_benchmark.rs:280-282 | the padded frames are the samples followed by fewer than one frame of zeros, ceil(samples / size) frames of full size |
| Framing.LoadFrame | src/bin/opus_benchmark.rs:281-282 | the reused buffer holds the chunk followed by zeros whatever it held before |
| Framing.EncodeTrack | src/bin/opus_benchmark.rs:266-299 | the loop with its reused buffer encodes the padded frames in order and frames their packets; the first error ends it |
| Framing.FirstEncodeError | src/bin/opus_benchmark.rs:286 | encoding succeeds if and only if every frame does, and fails as the first that does not |
| Framing.ReadPacket | src/bin/opus_benchmark.rs:315-329 | on any bytes the cursor advances and stays within them; what is read is what parsing from there finds first |
| Framing.DecodeTrack | src/bin/opus_benchmark.rs:301-339 | on any bytes the loop decodes the parsed packets in order and reports the first error, a truncation last |
| Framing.DecodingFailsFirst | src/bin/opus_benchmark.rs:315-336 | decoding succeeds if and only if every packet found does and none is cut off; the first packet that fails decides the error, and a cut only where none fails |
| Framing.TrackRoundTrip | src/bin/opus_benchmark.rs:266-339 | with a codec lossless on the track's frames, decoding the encoded track gives the frames that got a packet; that is the samples followed by fewer than one frame of zeros if and only if every frame got one |
| Framing.RawTrackRoundTrip | src/bin/opus_benchmark.rs:266-339 | a codec that meets these conditions for every track in frames that fit its buffer, and the round trip with it |
| Quality.ComparePcm | src/bin/opus_benchmark.rs:430-477 | the loop computes the exact sums and the sixteen-bit peak over the shorter length; it panics exactly when overflow checks are on and some difference overflows |
| Quality.PeakIsMaximum | src/bin/opus_benchmark.rs:449-452 | the true peak bounds every error and is attained |
| Quality.MeanBelowRootMeanSquare | src/bin/opus_benchmark.rs:455-472 | mean error at most root mean square error (Cauchy-Schwarz on the sums) |
| Quality.NoErrorIffSame | src/bin/opus_benchmark.rs:443-455 | the mean square error is zero if and only if the compared samples agree |
| Quality.PeakBounds | src/bin/opus_benchmark.rs:449-472 | without overflow the peak is the largest error, the mean error is at most the peak and the mean square error at most peak times mean error; with an overflow the reported peak is too small |
| Quality.PeakRightIff | src/bin/opus_benchmark.rs:449-452 | the reported peak is the largest error if and only if no difference overflows |
| Quality.PeakCanBeOne | src/bin/opus_benchmark.rs:449-452 | two samples whose error is 65535 and whose reported peak is 1 |
| Quality.ReportedPeak | src/bin/opus_benchmark.rs:449-452 | with wrapping, the reported peak is the largest of the errors below 32768 and of what the larger ones lack to 65536 |
| Quality.ComparedLengths | src/bin/opus_benchmark.rs:466-470 | the shorter length is compared and reported twice, the longer one beside it |
| Quality.RatioCases | src/bin/opus_benchmark.rs:456-465 | the ratio is silent if and only if the compared reference is all zeros, else infinite if and only if the compared samples agree; otherwise it divides the reference's mean square by the mean square error |

## Left out

- Codecs: soundkit, libopus and audio detection are external; the pipeline is the abstract transducer described above, and `codec` in the worker's log line is not modelled.
- Bytes of TCP frames: `read_frame` and `write_frame` are external; frames are (tag, data) values and a failed read is one event.
- TLS, sockets, HTTP/2 and HTTP/3, tonic, routing, status pages, configuration, shutdown of the servers: I/O or easy members.
- Time: sleeps, yields and `Instant` arithmetic; a poll is a turn of the schedule, time stamps are integers.
- Deadlock.DeadlocksIff: leaves out the end-of-input send of a handle dropped after a failed write (src/pool.rs:247), which can run before the output was seen empty.
- HttpHandler.HandleDecodeStream: starts with the decoder acquired and the response head sent; failures before that write nothing. The result of finishing the response is not modelled.
- TcpHandler.RunSession: dropping the decoder after a session's DONE takes no turn of its own, because the worker is gone then and the send fails at once.
- TcpHandler.Serve: waiting for the pool is not a state of its own; an acquire yields a decoder with its schedule, fails, or suspends the connection.
- GrpcTask.Task.Run: a handle still held when the task returns early is not dropped explicitly, and the last handle is dropped before, not after, its last chunks are sent. A drop after the decoder has finished takes no turn of its own. The recovery from a failed data send has no branch here because `GrpcHandler.SendData` proves it is never taken.
- Pool.PoolIsFair: an acquire is its completed send; acquiring clients that wait are not states of their own.
- Stats.Stats.Average: exact rationals instead of `f64`; a poisoned lock is not modelled. The other fields of the status JSON are plain quotients of the same values.
- Stats.StatsUnderAllInterleavings: for runs of fewer events than a 64-bit counter can count.
- Options.DivisorNonZeroIff: the 64-bit product of output bytes and 1000 is not modelled.
- Framing.EncodeTrack: the encoder's answer fits its buffer of 1500 bytes (`FitsBuffer`), as slicing that buffer demands; a frame size of zero, on which `chunks` panics, is excluded.
- Framing.DecodeTrack: `cursor + length` cannot overflow here; the 64-bit `usize` makes that so.
- Quality.ComparePcm: sums are exact integers and means are kept as sum and count, where the source accumulates `f64`; the square root and the logarithm of the ratio are left out.
- CLI, track discovery, report printing, waveform drawing and load tests: presentation.
