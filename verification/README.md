# Verified models of the file-echo benchmarks

The repository holds several client/server benchmarks of one task: cut a file into chunks, send each
chunk, receive it back reversed, check it and account for it. Next to them lies a script with two ODE
integrators. This project models the protocols, the chunk readers, the codecs, the statistics and the
integrators in Dafny and proves what they keep, over all inputs, all interleavings and all run lengths.
`dafny verify dfyconfig.toml` checks everything.

## Contents

- **Pipelined gRPC client and echo server** (`Pipeline`, `PipelineSafety`, `PipelineAccounting`,
  `PipelineProgress`, `PipelineRuns`, `PipelineVerdict`, `PipelinedClient`, `GrpcServer`). Writer thread,
  reader thread, server and the two directions of the stream are one state machine whose actions are the code's own
  atomic steps. `InsertOrder` says where the writer files its map entry: after `Write`, as the code does,
  or before it. `World` says who answers: the echo server over a FIFO stream that can break at any time,
  or an environment that may do anything to the stream. `PipelinedClient.GrpcFileClient` is the client as
  an object; each method is proved to be one step of the state machine.
- **Sequential Cap'n Proto client** (`SequentialClient`): the one-at-a-time loop, and the theorem that the
  pipelined client reports the same.
- **TCP benchmarks** (`Framing`, `CppMessaging`, `GoMessaging`, `TcpClientModel`, `TcpLockStep`, `TcpServer`,
  `TcpPrograms`): the length-prefixed codec in both languages, the Go programs, the C++ client's callbacks
  against an arbitrary server, and the product of client and session over two byte streams that deliver
  arbitrary fragments, as state machines and as objects.
- **Chunk readers** (`Chunking`, `ChunkReaders`): three implementations with three end-of-file rules, one
  specification.
- **Statistics** (`RttStatistics`) and **integrators** (`Integrators`, `Perturbation`, `Stability`,
  `Exactness`, `EulerLaws`), both over the real numbers; `Products` holds their facts about signs of products.
- `Bytes`, `Reversal` and `Io`: octet strings, their reversal, and how reads and writes end.

## What comes out

- The client as written files its map entry *after* `Write` (src/grpc_app/grpc_client.cpp:141-151), so a
  response can be looked up before its entry exists. The code comments that leftovers "should not be
  there"; on a perfect stream they can. `PipelineRuns.OrphanSetsExactly` gives the orphan sets of complete
  runs exactly: every set of ids smaller than the window, and no other. `PipelineAccounting.ExactAccounting`
  gives the exact account of each such run, and that success is reported if and only if the set is empty.
- The predicate of the condition variable looks only at the map's size (line 106).
  `PipelineRuns.HangsExactlyWhen` and `HangsAfterBreakExactlyWhen` give the exact conditions under which the
  client can hang: on an unbroken stream, a late insert and at least a window of chunks; after a break (a
  deadline that expires is one), at least a window of chunks, in either order. With the insert moved before
  `Write`, every run on an unbroken stream ends clean (`PipelineProgress.MaximalRuns`).
- The comment in messaging.go (lines 41-42) says that `io.ReadFull` returns `io.ErrUnexpectedEOF` when the
  connection ends before the header is full, and line 58 names only that error for the body. In both places
  the code returns a bare `io.EOF` when not one octet came, so also right after a complete header with a
  non-zero length; the model follows the code (`Framing.ReadOneCut`, `Framing.ReadTruncated`).
- The length field survives exactly below 2^32 octets (`Framing.LengthSurvives`).
- The C++ session answers like the Go server on the same octets, up to the first message above twice the chunk
  size, which ends it unanswered (`TcpServer.SessionAnswers`, `TcpServer.ServersAgree`).
- The guards "empty chunk before EOF" of the clients can never fire: they are dead branches in
  `GrpcFileClient.TakeChunk` and `TcpClient.SendNextChunk`.
- Runge-Kutta scales a perturbation of the initial values, measured by 100 dy^2 + 10 dy dz + dz^2, by one
  fixed factor in every step, and so does Euler; the Euler run is damped if and only if 0 < h < 1/10, and
  at h = 1/5, one of the script's steps, the form triples in every step. Runge-Kutta damps on one interval of
  steps from 0 whose end lies between 0.26 and 0.27.

## Model

| member | source | states |
|---|---|---|
| `Bytes.ReversedIsInvolution` | src/common/include/reversal_utils.hpp:10-12 | reversing twice gives the payload back |
| `Bytes.ReversedIsInjective` | src/common/include/reversal_utils.hpp:10-12 | a correct answer identifies the chunk it answers |
| `Reversal.ReverseBytesInPlace` | GO++PROJECT/src/go_tcp_benchmark/pkg/reversal/reversal.go:7-11 | the swapping loop leaves the reversal of what the slice held |
| `Reversal.GetReversedBytes` | GO++PROJECT/src/go_tcp_benchmark/pkg/reversal/reversal.go:15-24 | returns a fresh slice with the reversal and leaves the argument alone |
| `Chunking.SplitIsPartition` | src/common/src/file_utils.cpp:73-96 | the pieces of a file are non-empty, full but for the last, and concatenate to the file |
| `Chunking.SplitIsUnique` | src/common/src/file_utils.cpp:73-96 | there is no other way to cut the file into full pieces and a non-empty last one |
| `Chunking.SplitCount` | GO++PROJECT/src/cpp_tcp_benchmark/common/src/chunk_reader.cpp:17-24 | both ceiling divisions of the code base equal the number of pieces |
| `Chunking.ShortTail` | GO++PROJECT/src/cpp_tcp_benchmark/common/src/chunk_reader.cpp:52-54 | the last piece is short exactly when the size is no multiple of the chunk size |
| `ChunkReaders.ReadIsPiece` | GO++PROJECT/src/cpp_tcp_benchmark/common/src/chunk_reader.cpp:43-59 | a full read at piece k's position delivers piece k, and is short only as the short tail |
| `ChunkReaders.StreamChunkReader.constructor` | src/common/src/file_utils.cpp:58-65 | a new reader has the whole split of the file before it |
| `ChunkReaders.StreamChunkReader.NextChunk` | src/common/src/file_utils.cpp:73-96 | returns the next piece of the split; an empty chunk comes exactly at the end, and then eof() holds |
| `ChunkReaders.StreamChunkReader.Eof` | src/common/src/file_utils.cpp:98-100 | true exactly when no piece is left, so already after the last piece |
| `ChunkReaders.StreamChunkReader.Reset` | src/common/src/file_utils.cpp:102-114 | the whole split is before the reader again |
| `ChunkReaders.StreamChunkReader.RemainingBytes` | src/common/src/file_utils.cpp:116-119 | equals the total size of the pieces still to come |
| `ChunkReaders.CountingChunkReader.constructor` | GO++PROJECT/src/cpp_tcp_benchmark/common/src/chunk_reader.cpp:5-24 | announces as many chunks as the split has; an empty file is at its end at once |
| `ChunkReaders.CountingChunkReader.ReadNextChunk` | GO++PROJECT/src/cpp_tcp_benchmark/common/src/chunk_reader.cpp:37-60 | returns piece number chunks_read of the split; the flag rises with a short tail, and for exact multiples only with the empty read after it |
| `ChunkReaders.CountedBytesReader.constructor` | GO++PROJECT/src/go_tcp_benchmark/pkg/fileutils/fileutils.go:75-102 | announces as many chunks as the split has, with the whole file before it |
| `ChunkReaders.CountedBytesReader.ReadNextChunk` | GO++PROJECT/src/go_tcp_benchmark/pkg/fileutils/fileutils.go:106-137 | under any short reads: takes a non-empty piece of at most a chunk off the front of what is left, and reports EOF exactly when nothing is left |
| `ChunkReaders.DrainStreamReader` | src/common/src/file_utils.cpp:73-100 | reading to exhaustion yields exactly the split of the file |
| `ChunkReaders.DrainCountingReader` | GO++PROJECT/src/cpp_tcp_benchmark/common/src/chunk_reader.cpp:37-67 | reading to exhaustion yields exactly the split, and chunks_read equals total_chunks |
| `ChunkReaders.DrainCountedBytesReader` | GO++PROJECT/src/go_tcp_benchmark/pkg/fileutils/fileutils.go:106-137 | reading to exhaustion yields non-empty pieces of at most a chunk that concatenate to the file, whatever the short reads |
| `Pipeline.ExecConcat` | src/grpc_app/grpc_client.cpp:98-260 | runs of the state machine compose |
| `PipelineSafety.InitInv` | src/grpc_app/grpc_client.cpp:89-100 | the client's invariant holds at the start |
| `PipelineSafety.WriterKeepsCounts` | src/grpc_app/grpc_client.cpp:103-172 | ids produced, written, counted and inserted stay in the relation the step order fixes, in either order |
| `PipelineSafety.WriterKeepsInv` | src/grpc_app/grpc_client.cpp:103-172 | every writer step keeps map, window and counters consistent |
| `PipelineSafety.ReaderKeepsInv` | src/grpc_app/grpc_client.cpp:182-260 | every reader step keeps the books: each id matched at most once, totals equal to the sizes of the accounted and the verified ids |
| `PipelineSafety.StepKeepsInv` | src/grpc_app/grpc_client.cpp:98-317 | no step of anyone, an arbitrary environment included, breaks the client's books |
| `PipelineSafety.ReachableInv` | src/grpc_app/grpc_client.cpp:98-317 | the books are in order in every reachable state |
| `PipelineSafety.WindowAndCounterSafety` | src/grpc_app/grpc_client.cpp:96-152 | against any responses the map never exceeds the window although the lock is dropped between check and insert; matched responses never exceed the sent counter |
| `PipelineSafety.SuccessIsSound` | src/grpc_app/grpc_client.cpp:182-317 | against any response stream the success message implies that every chunk was answered by its exact reversal, matched once and counted once, and that the map is empty |
| `PipelineAccounting.StepKeepsHonest` | src/grpc_app/grpc_client.cpp:98-317 | every step of client, echo server and stream keeps the FIFO split of the ids, the lookups, and the count of complaints |
| `PipelineAccounting.ReachableHonest` | src/grpc_app/grpc_client.cpp:98-317 | that invariant in every reachable state |
| `PipelineAccounting.StreamIsContiguous` | src/grpc_app/grpc_server.cpp:62-86 | the ids written so far split in order and without gaps into consumed, coming down, held by the server and going up, each with its own octets |
| `PipelineAccounting.OrphanTiming` | src/grpc_app/grpc_client.cpp:141-152 | a lookup in vain happens only while the writer is between Write and the insert of that very id |
| `PipelineAccounting.OrphanedOnlyInTheGap` | src/grpc_app/grpc_client.cpp:190-210 | in every reachable state the next lookup orphans its id if and only if the client inserts late and is in that gap for that id |
| `PipelineAccounting.MapIsStreamPlusOrphans` | src/grpc_app/grpc_client.cpp:141-210 | the map's keys are exactly the inserted ids still in the stream and the inserted orphans, and each entry holds its own chunk |
| `PipelineAccounting.ExactAccounting` | src/grpc_app/grpc_client.cpp:273-317 | on every complete unbroken run: leftovers are the orphans, verified octets plus the orphans' equal the file size, the error list has exactly the stated length, and success appears if and only if nobody was orphaned |
| `PipelineAccounting.InsertFirstIsClean` | src/grpc_app/grpc_client.cpp:141-151 | with the insert before Write no orphan is reachable, and complete unbroken runs end with an empty map, all octets verified and no error |
| `PipelineProgress.NoLostWakeUp` | src/grpc_app/grpc_client.cpp:103-107 | if the writer sleeps although the map has room, the reader is between its erase and its notify, which wakes it; in every world and either order |
| `PipelineProgress.SomeoneCanMove` | src/grpc_app/grpc_client.cpp:98-317 | a client that neither finished nor deadlocked has a step of its own or of the server, and which |
| `PipelineProgress.StuckIsDeadlock` | src/grpc_app/grpc_client.cpp:260-271 | an unfinished client is stuck if and only if the writer sleeps on a full window and nobody is left to notify it |
| `PipelineProgress.DeadlockMeansOrphans` | src/grpc_app/grpc_client.cpp:106-151 | on an unbroken stream a deadlock means that orphans alone fill the window |
| `PipelineProgress.DeadlockNeedsAWindow` | src/grpc_app/grpc_client.cpp:106-271 | any deadlock needs at least a window of chunks |
| `PipelineProgress.StepDoesWork` | src/grpc_app/grpc_client.cpp:98-317 | every step of the program lowers a measure over chunks left, positions and stream lengths |
| `PipelineProgress.RunsAreShort` | src/grpc_app/grpc_client.cpp:98-317 | a run has at most 16 steps a chunk and 10 more, plus two for each spurious wake-up and one for the break |
| `PipelineProgress.MaximalRuns` | src/grpc_app/grpc_client.cpp:98-317 | a run that cannot go on, unbroken, completes or has orphaned exactly a window of ids; inserting first, it always completes with success |
| `PipelineRuns.Rounds` | src/grpc_app/grpc_client.cpp:103-213 | a run that sends k chunks and orphans exactly the chosen ids exists whenever they stay below the window |
| `PipelineRuns.OrphanSetsExactly` | src/grpc_app/grpc_client.cpp:141-285 | with the late insert the orphan sets of complete unbroken runs are exactly the sets of ids smaller than the window |
| `PipelineRuns.HangsExactlyWhen` | src/grpc_app/grpc_client.cpp:103-151 | a deadlock on an unbroken stream is reachable if and only if the insert is late and there is a window of chunks |
| `PipelineRuns.HangsAfterBreakExactlyWhen` | src/grpc_app/grpc_client.cpp:103-271 | a deadlock after a break is reachable if and only if there is a window of chunks, in either order |
| `PipelineVerdict.StepKeepsLedger` | src/grpc_app/grpc_client.cpp:98-317 | every step of everyone keeps the account of the error list and of the verdict |
| `PipelineVerdict.ErrorsAndVerdict` | src/grpc_app/grpc_client.cpp:182-317 | for every run in every world, breaks and arbitrary answers included: the error list has one line for each vain lookup, each accounted id that was not verified, leftovers, a failed status, and a wrong total after a good status with no failed write; success means exactly a good status, no failed write and the right total |
| `PipelineVerdict.StatusDecides` | src/grpc_app/grpc_client.cpp:288-317 | in every reachable state a failed status costs one error and excludes success; a good one means success if and only if the finished writer is unbroken and the total is right, and otherwise at most one error |
| `PipelinedClient.GrpcFileClient.constructor` | src/grpc_app/grpc_client.cpp:60-100 | the client starts in the initial state on the split of the file |
| `PipelinedClient.GrpcFileClient.WaitForRoom` | src/grpc_app/grpc_client.cpp:104-107 | the window check is the machine's step |
| `PipelinedClient.GrpcFileClient.TakeChunk` | src/grpc_app/grpc_client.cpp:109-133 | reading a chunk is the machine's step; the branch for an empty chunk before EOF is dead |
| `PipelinedClient.GrpcFileClient.SendRequest` | src/grpc_app/grpc_client.cpp:141-146 | Write is the machine's step, failure included |
| `PipelinedClient.GrpcFileClient.BumpSent` | src/grpc_app/grpc_client.cpp:147 | the counter increment is the machine's step |
| `PipelinedClient.GrpcFileClient.FileEntry` | src/grpc_app/grpc_client.cpp:149-152 | the insert is the machine's step |
| `PipelinedClient.GrpcFileClient.Finish` | src/grpc_app/grpc_client.cpp:160-173 | the finished flag, then WritesDone unless the stream broke, are the machine's two steps |
| `PipelinedClient.GrpcFileClient.ReceiveResponse` | src/grpc_app/grpc_client.cpp:182-185 | Read is the machine's step, end of stream included |
| `PipelinedClient.GrpcFileClient.LookUp` | src/grpc_app/grpc_client.cpp:189-210 | find and erase under the lock is the machine's step, the warning included |
| `PipelinedClient.GrpcFileClient.NotifyOne` | src/grpc_app/grpc_client.cpp:212 | the notification is the machine's step |
| `PipelinedClient.GrpcFileClient.Verify` | src/grpc_app/grpc_client.cpp:213-245 | counting, recording and comparing, size first, is the machine's step |
| `PipelinedClient.GrpcFileClient.Join` | src/grpc_app/grpc_client.cpp:267-271 | the join is the machine's step |
| `PipelinedClient.GrpcFileClient.ReportLeftovers` | src/grpc_app/grpc_client.cpp:273-285 | the complaint about leftovers is the machine's step |
| `PipelinedClient.GrpcFileClient.Conclusion` | src/grpc_app/grpc_client.cpp:288-317 | status, final complaint and success message are the machine's step |
| `PipelinedClient.ProcessFile` | src/grpc_app/grpc_client.cpp:54-318 | under any feasible schedule and with anyone answering, the object is in the machine's state and within its window, a success message means that every chunk was answered by its reversal and counted once and that the status was good, and the error list is exactly the one the schedule calls for; with the echo server, an unbroken stream and nothing left to do, in either order: the leftovers are the orphans, and the client is done, with the exact account and success if and only if there are none, or hangs with a window of them |
| `PipelinedClient.ShippedClient` | src/grpc_app/grpc_client.cpp:96-151 | with the shipped constants (10 GiB, 64 KiB, window 2000) there are 163840 chunks, the client can hang on a perfect stream, and can orphan exactly any 1999 or fewer ids |
| `GrpcServer.ProcessFileChunks` | src/grpc_app/grpc_server.cpp:53-90 | answers every request with its own id and its reversal, in order, up to the first response that cannot be written; status OK if and only if all could |
| `GrpcServer.RunPays` | src/grpc_app/grpc_server.cpp:62-89 | from any state and along any run the state machine's server writes the responses it owes, in order, but for the last one at most |
| `GrpcServer.ServerIsTheLoop` | src/grpc_app/grpc_server.cpp:53-90 | along any run, breaks included, that server has written what the loop returns for the requests it has read, and it ends with the status the loop returns |
| `SequentialClient.GoodAnswers` | src/capnp_app/capnp_client.cpp:115-171 | how many chunks are answered correctly before the first wrong answer |
| `SequentialClient.Matches` | src/capnp_app/capnp_client.cpp:146-163 | comparing sizes first and contents then accepts exactly the reversal |
| `SequentialClient.TransferChunks` | src/capnp_app/capnp_client.cpp:115-171 | against any service the loop ends after the whole file, or with the first wrong answer booked and one error |
| `SequentialClient.Transfer` | src/capnp_app/capnp_client.cpp:105-191 | against any service the client verifies the chunks before the first wrong answer, books that one too, and complains twice, or not at all; no complaint if and only if the whole file was verified |
| `SequentialClient.ReportInOctets` | src/capnp_app/capnp_client.cpp:115-191 | after k right answers and a wrong one the report says k chunk sizes verified, up to one more sent, k + 1 round trips and two errors; after right answers only, the whole file and none |
| `SequentialClient.FileConfigIsValid` | src/grpc_app/grpc_client.cpp:60-60 | the real chunk reader meets every assumption of the protocol proofs |
| `SequentialClient.PipelinedRefinesSequential` | src/grpc_app/grpc_client.cpp:182-317 | a complete unbroken pipelined run reports the same verified and payload totals, RTT count and errors as the sequential loop on the same file if and only if nobody was orphaned; inserting first, always |
| `Framing.GetAfterPut` | GO++PROJECT/src/go_tcp_benchmark/pkg/messaging/messaging.go:19-48 | a length read from the header written for it is that length |
| `Framing.PutAfterGet` | GO++PROJECT/src/go_tcp_benchmark/pkg/messaging/messaging.go:19-48 | a header written for the length read from it is that header |
| `Framing.LengthSurvives` | GO++PROJECT/src/go_tcp_benchmark/pkg/messaging/messaging.go:19-19 | the length on the wire is the payload's if and only if that is below 2^32 |
| `Framing.ReadOne` | GO++PROJECT/src/go_tcp_benchmark/pkg/messaging/messaging.go:38-61 | a message read is the payload of the frame at the front of the stream, and the rest is left |
| `Framing.ReadOneFrame` | GO++PROJECT/src/go_tcp_benchmark/pkg/messaging/messaging.go:14-61 | reading a frame followed by anything returns its payload and leaves the rest |
| `Framing.ReadOneCut` | GO++PROJECT/src/go_tcp_benchmark/pkg/messaging/messaging.go:38-61 | a cut frame fails with a bare EOF exactly when cut before it or right after its header, otherwise with an unexpected one |
| `Framing.ReadTruncated` | GO++PROJECT/src/go_tcp_benchmark/pkg/messaging/messaging.go:14-61 | reading any truncation of concatenated frames returns exactly the messages that fit, in order, and the kind of end the cut calls for |
| `Framing.RoundTrip` | GO++PROJECT/src/go_tcp_benchmark/pkg/messaging/messaging.go:14-61 | reading what was written returns exactly the messages, then a bare EOF |
| `Framing.Rewritten` | GO++PROJECT/src/go_tcp_benchmark/pkg/messaging/messaging.go:14-61 | writing the messages read from any octets gives a prefix of those octets |
| `CppMessaging.StoredHeaderIsNetworkOrder` | GO++PROJECT/src/cpp_tcp_benchmark/common/include/tcp_messaging.hpp:30-31 | htonl and memcpy give the network header on a host of either byte order |
| `CppMessaging.ParsedHeaderIsNetworkOrder` | GO++PROJECT/src/cpp_tcp_benchmark/common/include/tcp_messaging.hpp:59-64 | memcpy and ntohl read the network header on a host of either byte order |
| `CppMessaging.HeadersInteroperate` | GO++PROJECT/src/cpp_tcp_benchmark/common/include/tcp_messaging.hpp:27-64 | writer and reader on any two hosts are mutual inverses on all lengths and all headers |
| `CppMessaging.PrepareMessage` | GO++PROJECT/src/cpp_tcp_benchmark/common/include/tcp_messaging.hpp:27-39 | the gathered buffers are the octets of the Go frame; an empty payload has no second buffer |
| `GoMessaging.ReadFull` | GO++PROJECT/src/go_tcp_benchmark/pkg/messaging/messaging.go:40-45 | under any fragmentation fills the whole buffer, or says whether anything came before the end |
| `GoMessaging.ReadMessage` | GO++PROJECT/src/go_tcp_benchmark/pkg/messaging/messaging.go:38-61 | under any fragmentation returns exactly the message at the front of the stream, or the error the cut calls for |
| `GoMessaging.WriteMessage` | GO++PROJECT/src/go_tcp_benchmark/pkg/messaging/messaging.go:14-35 | puts one frame on the wire, or as much as fits and an error |
| `GoMessaging.AnswerOne` | GO++PROJECT/src/go_tcp_benchmark/server/main.go:18-39 | one turn of the loop leaves unchanged what is out together with what will still go out |
| `GoMessaging.HandleConnection` | GO++PROJECT/src/go_tcp_benchmark/server/main.go:12-40 | under any fragmentation the server writes exactly the reversed frames of all complete messages, in order, as far as they fit |
| `GoMessaging.Exchange` | GO++PROJECT/src/go_tcp_benchmark/client/main.go:94-130 | one exchange is verified if and only if the frame fits and the next message is the chunk's reversal |
| `GoMessaging.RunClient` | GO++PROJECT/src/go_tcp_benchmark/client/main.go:68-146 | against any peer the client finishes if and only if all pieces it read were sent and answered by exact reversals in order, and then they are the whole file; when it aborts, all but the last piece were, and the last counts as processed only if a whole message came back for it; it sends exactly the frames of its pieces, as far as they fit |
| `GoMessaging.ServerSatisfiesClient` | GO++PROJECT/src/go_tcp_benchmark/server/main.go:18-39 | after every prefix of the exchange the server's answer is what the client has to see next, and the beginning of its whole answer |
| `GoMessaging.EnoughRoom` | GO++PROJECT/src/go_tcp_benchmark/server/main.go:18-39 | what the server writes for the frames it is sent answers all pieces if and only if both connections have room for them |
| `GoMessaging.TransferFile` | GO++PROJECT/src/go_tcp_benchmark/client/main.go:68-146 | the two programs together: what the client does on the octets that reach it, what the server writes for what the client sends, and, if these are the same octets, that the client finishes with the whole file verified if and only if no write fails for want of room |
| `TcpClientModel.StartInv` | GO++PROJECT/src/cpp_tcp_benchmark/client/tcp_client.cpp:102-166 | the client's invariant holds when the first chunk goes out |
| `TcpClientModel.LateCallbacksChangeNothing` | GO++PROJECT/src/cpp_tcp_benchmark/client/tcp_client.cpp:56-80 | once stopped, no callback and no second stop changes anything |
| `TcpClientModel.HandleKeepsInv` | GO++PROJECT/src/cpp_tcp_benchmark/client/tcp_client.cpp:259-287 | handling any body keeps the records numbered, summed up and truthful |
| `TcpClientModel.HeaderKeepsInv` | GO++PROJECT/src/cpp_tcp_benchmark/client/tcp_client.cpp:168-220 | so does any header and any failure to read one |
| `TcpClientModel.BodyKeepsInv` | GO++PROJECT/src/cpp_tcp_benchmark/client/tcp_client.cpp:222-257 | so does any body read and any failure to read one |
| `TcpClientModel.RunKeepsInv` | GO++PROJECT/src/cpp_tcp_benchmark/client/tcp_client.cpp:102-287 | the invariant holds along every sequence of callbacks |
| `TcpClientModel.VerdictIsSound` | GO++PROJECT/src/cpp_tcp_benchmark/client/tcp_client.cpp:102-287 | against any server a stop without error means that the octets read are exactly the frames of the reversed chunks in order; records are numbered from 1, add up, and only the last can be unverified |
| `TcpClientModel.ReactsExactly` | GO++PROJECT/src/cpp_tcp_benchmark/client/tcp_client.cpp:148-287 | for a running client exactly a failed operation, a length of zero or above twice the chunk size, an incomplete body or a wrong body is fatal and stops it with an error; every other event moves it to the next operation of the chunk, to the frame of the next chunk, or to the stop without error; and a record is made exactly for a whole body or an announced empty one |
| `TcpClientModel.ErrorsExactlyWhen` | GO++PROJECT/src/cpp_tcp_benchmark/client/tcp_client.cpp:102-287 | over all callback sequences the client has stopped with an error if and only if an event was fatal to it while it ran; a client still running has seen good outcomes and possible lengths only |
| `TcpClientModel.OctetsDetermineChunks` | GO++PROJECT/src/cpp_tcp_benchmark/client/tcp_client.cpp:222-287 | two clients that read the same octets and stopped without error sent the same chunks |
| `TcpLockStep.ServerHeaderKeepsInv` | GO++PROJECT/src/cpp_tcp_benchmark/server/tcp_server.cpp:31-77 | in the product the session's length guard never fires |
| `TcpLockStep.ServerBodyKeepsInv` | GO++PROJECT/src/cpp_tcp_benchmark/server/tcp_server.cpp:79-116 | a complete body is the chunk in hand, and its reversal is queued |
| `TcpLockStep.ClientHeaderAnnounces` | GO++PROJECT/src/cpp_tcp_benchmark/client/tcp_client.cpp:168-187 | the header the client reads announces the size of the chunk in hand |
| `TcpLockStep.ClientHeaderKeepsInv` | GO++PROJECT/src/cpp_tcp_benchmark/client/tcp_client.cpp:168-195 | in the product the client's length guard never fires |
| `TcpLockStep.ClientBodyKeepsInv` | GO++PROJECT/src/cpp_tcp_benchmark/client/tcp_client.cpp:222-287 | in the product verification never fails |
| `TcpLockStep.StepKeepsInv` | GO++PROJECT/src/cpp_tcp_benchmark/client/tcp_client.cpp:102-287 | every handler and every fragment keeps the lock-step invariant: the octets in transit complete the one expected frame |
| `TcpLockStep.SomeoneCanMove` | GO++PROJECT/src/cpp_tcp_benchmark/client/tcp_client.cpp:102-287 | a system whose client has not stopped has an enabled step |
| `TcpLockStep.StepDoesWork` | GO++PROJECT/src/cpp_tcp_benchmark/server/tcp_server.cpp:31-144 | every handler and every fragment lowers a measure |
| `TcpLockStep.EveryRunSucceeds` | GO++PROJECT/src/cpp_tcp_benchmark/client/tcp_client.cpp:102-287 | under any fragmentation and interleaving runs are bounded, the client never stops with an error, and a run that cannot go on has sent, verified and recorded every chunk |
| `TcpLockStep.OneMessageOutstanding` | GO++PROJECT/src/cpp_tcp_benchmark/server/tcp_server.cpp:31-144 | at every point of every run octets are in transit in one direction only, as the missing part of the current frame |
| `TcpServer.HeaderKeepsFuture` | GO++PROJECT/src/cpp_tcp_benchmark/server/tcp_server.cpp:38-60 | a complete header leaves what is due to the client unchanged, be the message empty, acceptable or too long |
| `TcpServer.StepKeepsFuture` | GO++PROJECT/src/cpp_tcp_benchmark/server/tcp_server.cpp:31-144 | every handler and fragment of the session keeps what is out together with what will still go out |
| `TcpServer.SessionAnswers` | GO++PROJECT/src/cpp_tcp_benchmark/server/tcp_server.cpp:31-144 | fed any octets in any fragments, the session has at every point written a prefix of the reversed frames of the messages before the first one above twice the chunk size, and all of them when it can do no more |
| `TcpServer.ServersAgree` | GO++PROJECT/src/cpp_tcp_benchmark/server/tcp_server.cpp:31-144 | on octets without such a message it writes what the Go server writes |
| `TcpPrograms.MetricsAggregator.StartTimer` | GO++PROJECT/src/cpp_tcp_benchmark/common/src/metrics_aggregator.cpp:26-34 | the timer runs, and a second start keeps the first start time |
| `TcpPrograms.MetricsAggregator.StopTimer` | GO++PROJECT/src/cpp_tcp_benchmark/common/src/metrics_aggregator.cpp:36-44 | the timer does not run, and only the stop that ended it set the end time |
| `TcpPrograms.MetricsAggregator.StopAndRecordChunkRtt` | GO++PROJECT/src/cpp_tcp_benchmark/common/src/metrics_aggregator.cpp:50-63 | appends one record with the next index and moves the three counters as the callback model says |
| `TcpPrograms.TcpClient.constructor` | GO++PROJECT/src/cpp_tcp_benchmark/client/tcp_client.cpp:22-37 | the client announces as many chunks as the split of the file has and has sent none |
| `TcpPrograms.TcpClient.Connected` | GO++PROJECT/src/cpp_tcp_benchmark/client/tcp_client.cpp:86-94 | once connected the client is in the callback model's start state, and its timer runs until it stops |
| `TcpPrograms.TcpClient.Sent` | GO++PROJECT/src/cpp_tcp_benchmark/client/tcp_client.cpp:148-149 | octets of the pending write leave from its front |
| `TcpPrograms.TcpClient.Received` | GO++PROJECT/src/cpp_tcp_benchmark/client/tcp_client.cpp:226-230 | octets of the pending read collect at its end |
| `TcpPrograms.TcpClient.StopClientOperations` | GO++PROJECT/src/cpp_tcp_benchmark/client/tcp_client.cpp:56-80 | stopping is the model's transition; its effects take place once |
| `TcpPrograms.TcpClient.TakeNext` | GO++PROJECT/src/cpp_tcp_benchmark/client/tcp_client.cpp:122-141 | taking a chunk from the real reader is the model's, and an empty one comes at the end of the file only |
| `TcpPrograms.TcpClient.SendNextChunk` | GO++PROJECT/src/cpp_tcp_benchmark/client/tcp_client.cpp:102-166 | on the real chunk reader and codec, the model's transition; the branch for an empty chunk before EOF is dead |
| `TcpPrograms.TcpClient.WriteDone` | GO++PROJECT/src/cpp_tcp_benchmark/client/tcp_client.cpp:150-165 | the write handler is the model's transition |
| `TcpPrograms.TcpClient.HeaderDone` | GO++PROJECT/src/cpp_tcp_benchmark/client/tcp_client.cpp:174-219 | the header handler is the model's transition, every exit included |
| `TcpPrograms.TcpClient.BodyDone` | GO++PROJECT/src/cpp_tcp_benchmark/client/tcp_client.cpp:231-256 | the body handler is the model's transition, every exit included |
| `TcpPrograms.TcpClient.HandleReceivedChunkData` | GO++PROJECT/src/cpp_tcp_benchmark/client/tcp_client.cpp:259-287 | verifying, recording and going on is the model's transition |
| `TcpPrograms.TcpSession.constructor` | GO++PROJECT/src/cpp_tcp_benchmark/server/tcp_server.cpp:16-28 | a session starts waiting for a header |
| `TcpPrograms.TcpSession.Sent` | GO++PROJECT/src/cpp_tcp_benchmark/server/tcp_server.cpp:124-127 | octets of the pending write leave from its front |
| `TcpPrograms.TcpSession.Received` | GO++PROJECT/src/cpp_tcp_benchmark/server/tcp_server.cpp:79-88 | octets of the pending read collect at its end, those of a body in the buffer of the announced length |
| `TcpPrograms.TcpSession.HeaderDone` | GO++PROJECT/src/cpp_tcp_benchmark/server/tcp_server.cpp:35-76 | the header handler is the session's transition: empty message, excessive length, body with a buffer of that length, or an error, which ends the session |
| `TcpPrograms.TcpSession.BodyDone` | GO++PROJECT/src/cpp_tcp_benchmark/server/tcp_server.cpp:87-115 | the octets received are reversed where they lie and their frame queued; an incomplete read or an error ends the session |
| `TcpPrograms.TcpSession.DoWrite` | GO++PROJECT/src/cpp_tcp_benchmark/server/tcp_server.cpp:118-144 | the frame of the body buffer is queued |
| `TcpPrograms.TcpSession.WriteDone` | GO++PROJECT/src/cpp_tcp_benchmark/server/tcp_server.cpp:124-143 | the session waits for the next header, or ends on an error |
| `TcpPrograms.FileConfigIsValid` | GO++PROJECT/src/cpp_tcp_benchmark/client/tcp_client.cpp:22-37 | the client's chunk reader meets every assumption of the protocol proofs |
| `TcpPrograms.PerformClient` | GO++PROJECT/src/cpp_tcp_benchmark/client/tcp_client.cpp:102-287 | a fragment at the client's end, or one of its handlers on what its operation collected, is one step of the product |
| `TcpPrograms.PerformServer` | GO++PROJECT/src/cpp_tcp_benchmark/server/tcp_server.cpp:31-144 | so is a fragment at the session's end or one of its handlers |
| `TcpPrograms.PerformAll` | GO++PROJECT/src/cpp_tcp_benchmark/client/tcp_client.cpp:102-287 | a run of such steps takes both objects where it takes the product |
| `TcpPrograms.TransferFile` | GO++PROJECT/src/cpp_tcp_benchmark/client/tcp_client.cpp:39-287 | client and session objects under any fragments and interleaving are in the state of the product, never in error; when nothing is left to do all chunks were sent and verified, the recorded octets are the size of the file, and the client stopped once with its timer |
| `Integrators.EulerMethod` | mat.py:21-32 | the arrays hold the iterates of the Euler step |
| `Integrators.RungeKuttaBody` | mat.py:41-62 | the eight increments in the script's order make the four-stage step |
| `Integrators.RungeKutta4` | mat.py:35-64 | the arrays hold the iterates of the four-stage step |
| `Integrators.Grid` | mat.py:31-63 | both methods keep x at x0 + n h |
| `EulerLaws.EulerSums` | mat.py:21-32 | on z' = g(x) with any g: after n steps z is z0 plus h times the sum of g over the n grid points behind, and y is y0 plus n h z0 plus h^2 times the sum of those sums |
| `EulerLaws.DifferenceEquation` | mat.py:17-32 | at every grid point of a run on the script's equation: y[i+1] - y[i] = h z[i] and 0.2 (z[i+1] - z[i]) + h (2 z[i] + 20 y[i]) = 10 h sin(2 x[i]) |
| `EulerLaws.EulerOnCubic` | mat.py:21-32 | on an equation with a cubic solution, the exact lag of z and of y at every grid point |
| `EulerLaws.EulerExactWhen` | mat.py:21-32 | such a run is exact after n > 0 steps if and only if the solution is linear |
| `Perturbation.SlopesDiffer` | mat.py:17-18 | between two points with the same x the forcing term cancels |
| `Perturbation.VOfComb` | mat.py:17-18 | the form of a v + b P v is a^2 - a b + b^2 times the form of v |
| `Perturbation.VBoundsY` | mat.py:17-18 | the form is positive definite and at least 75 dy^2 |
| `Perturbation.EulerStepLaw` | mat.py:27-31 | one Euler step multiplies the form of every difference by 1 - 10 h + 100 h^2 |
| `Perturbation.RkStepLaw` | mat.py:41-63 | one Runge-Kutta step multiplies the form of every difference by one fixed factor |
| `Perturbation.EulerLaw` | mat.py:21-32 | so do n steps of any two Euler runs with the same h and x0, n times |
| `Perturbation.RkLaw` | mat.py:35-64 | so do n steps of any two Runge-Kutta runs with the same h and x0, n times |
| `Stability.RkFactorIs` | mat.py:41-63 | the factor is the Taylor polynomial of exp(-10 h) plus a square of order six, and the norm form of 1 + c^3/6, c + c^4/24, c^2/2 |
| `Perturbation.RkErrorBound` | mat.py:35-64 | 75 dy^2 after n steps is at most the initial form scaled n times |
| `Stability.EulerDampsExactlyWhen` | mat.py:21-32 | after n > 0 steps the form has shrunk if and only if 0 < h < 1/10, is unchanged if and only if h is 0 or 1/10, and at h = 1/5 has tripled n times |
| `Stability.RkDampsExactlyWhen` | mat.py:35-73 | after n > 0 steps the form has shrunk if and only if h > 0 and the polynomial Excess is negative at 10 h, is unchanged if and only if h is 0 or a positive root of it; it shrinks for all 0 < h <= 0.26, so for all steps of the script, and grows for h < 0 and h >= 0.27 |
| `Stability.DampingIsAnInterval` | mat.py:35-73 | the positive steps that damp form an interval: with a step, every smaller one does |
| `Stability.FactorByExcess` | mat.py:41-63 | the Runge-Kutta factor is 1 + c Excess(c) with c = 10 h |
| `Stability.FactorsUsed` | mat.py:73-73 | the factors at the script's steps: 3, 1 and 3/4 for Euler; 1/3, 217/576 and just above 0.6 for Runge-Kutta |
| `Exactness.StepOnQuadrature` | mat.py:41-62 | on an equation in x alone the step is Simpson's rule for z and a three-point rule for y |
| `Exactness.RunOnPolynomial` | mat.py:35-64 | if the exact solution is a quintic, x and z are exact at every grid point and y is behind by n c5 h^5 / 6, for all n, h and initial values |
| `Exactness.ExactWhen` | mat.py:35-64 | such a run is exact after n > 0 steps if and only if z' is at most quadratic |
| `Exactness.SolutionSolves` | mat.py:35-64 | every cubic right-hand side with any initial values has such a solution, so all of them are covered |
| `RttStatistics.MeanWithin` | src/common/src/metrics_aggregator.cpp:74-78 | the average lies between any bounds of the round trips |
| `RttStatistics.MeanIsBest` | src/common/src/metrics_aggregator.cpp:90-96 | squared distances summed around any m exceed those around the mean by n (m - mean)^2 |
| `RttStatistics.NoSpreadExactlyWhen` | src/common/src/metrics_aggregator.cpp:90-97 | the spread is zero if and only if all round trips took the same time |
| `RttStatistics.BhatiaDavis` | src/common/src/metrics_aggregator.cpp:80-97 | the spread is at most n (max - mean)(mean - min) |
| `RttStatistics.Popoviciu` | src/common/src/metrics_aggregator.cpp:80-97 | the spread is at most n (max - min)^2 / 4 |
| `RttStatistics.VarianceBounds` | src/common/src/metrics_aggregator.cpp:90-98 | the value under the root lies between 0 and n/(n-1) (max - min)^2 / 4, and is 0 if and only if all round trips are equal |
| `RttStatistics.VarianceByPairs` | src/common/src/metrics_aggregator.cpp:90-97 | for n > 1 round trips, 2 n (n - 1) times the variance is the sum of the squared differences of all pairs |
| `RttStatistics.MetricsAggregator.RecordChunkRttUs` | src/common/src/metrics_aggregator.cpp:24-26 | appends the round trip |
| `RttStatistics.MetricsAggregator.GetAvgChunkRttMs` | src/common/src/metrics_aggregator.cpp:74-78 | the accumulated average, 0 without data, within every bound of the data |
| `RttStatistics.MetricsAggregator.GetMinChunkRttMs` | src/common/src/metrics_aggregator.cpp:80-83 | a recorded round trip that no other undercuts, 0 without data |
| `RttStatistics.MetricsAggregator.GetMaxChunkRttMs` | src/common/src/metrics_aggregator.cpp:85-88 | a recorded round trip that no other exceeds, 0 without data |
| `RttStatistics.MetricsAggregator.GetVariance` | src/common/src/metrics_aggregator.cpp:90-96 | the accumulated sample variance, as determined by the squared differences of all pairs; 0 for fewer than two round trips |
| `RttStatistics.MetricsAggregator.GetStdDevChunkRttMs` | src/common/src/metrics_aggregator.cpp:90-98 | for any square root function, the non-negative number of milliseconds whose square is the variance |

## Left out

- Sockets, Boost.Asio, gRPC and Cap'n Proto internals: streams are FIFO sequences of messages or octets, with arbitrary fragments and a step that breaks the stream; resolving, connecting, accepting, signals and shutdown are not modelled.
- Exceptions and file errors: files exist and reads fail only at the end; a file is an immutable sequence of octets, and a file that changes size while it is read is not modelled.
- Clocks, deadlines and RTT values: a clock reading is an arbitrary integer, a deadline that expires is a break of the stream, and the statistics take arbitrary integers.
- On-wire sizes, overhead and throughput figures, CPU and memory sampling, CSV files, console output and log texts; error lists are modelled by their lengths.
- Data races: each call of the metrics object is one atomic step of its thread, and each named step of the gRPC model (lock-protected block, flag, counter, stream call) is atomic.
- Integer widths of ids, counters and sizes in the gRPC, Cap'n Proto and metrics code: they are unbounded here; the 32-bit length field of the TCP codec is modelled exactly.
- Fairness: the bounds on runs count steps; that a thread that can move eventually does is left to the scheduler.
- Empty requests in the gRPC and Cap'n Proto clients: the chunk reader never yields one, so they are not part of the protocol models.
- Test file generation, file size checks before a run, the Go client's progress counters by index, `record_chunk_processed` and the legacy `record_chunk_verified`: they would only add easy members.
- The Cap'n Proto server and its task set: `Service` stands for whatever it answers.
- The square root in the standard deviation: it is a parameter, of which only the defining equation is assumed.
- Floating-point rounding in the integrators and the statistics: both are over the real numbers.
- `exact_solution`, the plots and the RMSE of the script: transcendental functions; the sine in the equation is an uninterpreted function.
- The `y_prime_func` parameter of both integrators: the script never calls it, and neither does the model.
