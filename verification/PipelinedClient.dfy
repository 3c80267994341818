/**
 * The client of the gRPC benchmark as an object whose methods are the atomic steps of its two
 * threads, on top of the real chunk reader; each is one step of the state machine in `Pipeline`.
 */
module PipelinedClient {
  import opened Bytes
  import opened Chunking
  import opened ChunkReaders
  import opened Pipeline
  import opened PipelineSafety
  import opened PipelineAccounting
  import opened PipelineProgress
  import PipelineRuns
  import opened PipelineVerdict
  import opened SequentialClient

  const MAX_INFLIGHT_REQUESTS: nat := 2000
  const CHUNK_SIZE_BYTES: nat := 64 * 1024
  const ACTUAL_FILE_SIZE_BYTES: nat := 10 * 1024 * 1024 * 1024

  class GrpcFileClient {
    ghost const config: Config
    const order: InsertOrder
    const window: nat
    const expectedSize: nat
    const reader: StreamChunkReader

    // the writer thread
    var writer: Writer
    var chunkIdCounter: nat
    var chunksActuallySent: nat
    var finishedSending: bool
    var streamBroken: bool

    // shared under the map mutex
    var inflight: map<int, Bytes>

    // the stream and its far end
    var net: Net

    // the reader thread
    var readerAt: Reader
    var receivedResponses: nat
    var verifiedBytes: nat
    var payloadBytes: nat
    var errorCount: nat
    var saidSuccess: bool

    // history
    ghost var inserted: nat
    ghost var seen: Seen

    ghost function View(): State
      reads this
    {
      State(WriterState(writer, chunkIdCounter, chunksActuallySent, inserted, finishedSending, streamBroken),
            ReaderState(readerAt, Tally(receivedResponses, verifiedBytes, payloadBytes, errorCount), seen, saidSuccess),
            inflight,
            net)
    }

    ghost predicate Valid()
      reads this, reader
    {
      && config.order == order && config.window == window && config.expected == expectedSize
      && reader.Valid()
      && chunkIdCounter <= |config.chunks|
      && reader.Pending() == config.chunks[chunkIdCounter..]
    }

    constructor (file: Bytes, chunkSize: nat, window: nat, order: InsertOrder, ghost world: World)
      requires chunkSize > 0
      ensures Valid() && fresh(reader)
      ensures config == FileConfig(file, chunkSize, window, order, world) && View() == Init()
    {
      config := FileConfig(file, chunkSize, window, order, world);
      this.order, this.window, expectedSize := order, window, |file|;
      reader := new StreamChunkReader(file, chunkSize);
      writer, chunkIdCounter, chunksActuallySent, finishedSending, streamBroken := CheckWindow, 0, 0, false, false;
      inflight := map[];
      net := Net([], false, [], false, ReadRequest);
      readerAt, receivedResponses, verifiedBytes, payloadBytes := ReadResponse, 0, 0, 0;
      errorCount, saidSuccess := 0, false;
      inserted, seen := 0, Seen([], {}, {}, {});
    }

    // ---- writer thread ----

    /** One evaluation of the condition variable's predicate, under the lock. */
    method WaitForRoom()
      requires Valid() && Enabled(config, View(), WCheck)
      modifies this
      ensures Valid() && View() == Apply(config, old(View()), WCheck)
    {
      if |inflight| < window {
        writer := ReadChunk;
      } else {
        writer := Asleep;
      }
    }

    method TakeChunk()
      requires Valid() && Enabled(config, View(), WRead)
      modifies this, reader
      ensures Valid() && View() == Apply(config, old(View()), WRead)
    {
      var buffer := reader.NextChunk();
      var atEof := reader.Eof();
      if buffer == [] && atEof {
        writer := SetFinished;
        return;
      }
      if buffer == [] && !atEof {
        // "empty chunk before EOF": the reader never gets here
        assert false;
      }
      chunkIdCounter := chunkIdCounter + 1;
      writer := if order.AfterWrite? then WriteRequest(buffer) else InsertEntry(buffer);
    }

    method SendRequest(ok: bool)
      requires Valid() && Enabled(config, View(), WWrite(ok))
      modifies this
      ensures Valid() && View() == Apply(config, old(View()), WWrite(ok))
    {
      var data := writer.data;
      if !ok {
        streamBroken := true;
        writer := SetFinished;
        return;
      }
      net := net.(up := net.up + [Message(chunkIdCounter, data)]);
      writer := CountSent(data);
    }

    method BumpSent()
      requires Valid() && Enabled(config, View(), WCount)
      modifies this
      ensures Valid() && View() == Apply(config, old(View()), WCount)
    {
      chunksActuallySent := chunksActuallySent + 1;
      writer := if order.AfterWrite? then InsertEntry(writer.data) else CheckWindow;
    }

    method FileEntry()
      requires Valid() && Enabled(config, View(), WInsert)
      modifies this
      ensures Valid() && View() == Apply(config, old(View()), WInsert)
    {
      var data := writer.data;
      inflight := inflight[chunkIdCounter := data];
      inserted := inserted + 1;
      writer := if order.AfterWrite? then CheckWindow else WriteRequest(data);
    }

    /** The flag, then `WritesDone` unless the stream is broken. */
    method Finish()
      requires Valid() && (Enabled(config, View(), WFinish) || Enabled(config, View(), WHalfClose))
      modifies this
      ensures Valid()
      ensures View() == Apply(config, old(View()), if old(writer).SetFinished? then WFinish else WHalfClose)
    {
      if writer.SetFinished? {
        finishedSending := true;
        writer := HalfClose;
      } else {
        if !streamBroken {
          net := net.(halfClosed := true);
        }
        writer := WriterDone;
      }
    }

    // ---- reader thread ----

    method ReceiveResponse(ok: bool)
      requires Valid() && Enabled(config, View(), RRead(ok))
      modifies this
      ensures Valid() && View() == Apply(config, old(View()), RRead(ok))
    {
      if !ok {
        readerAt := JoinWriter;
        return;
      }
      var response := net.down[0];
      net := net.(down := net.down[1..]);
      seen := seen.(consumed := seen.consumed + [response]);
      readerAt := FindEntry(response);
    }

    /** Find and erase, under the lock. */
    method LookUp()
      requires Valid() && Enabled(config, View(), RFind)
      modifies this
      ensures Valid() && View() == Apply(config, old(View()), RFind)
    {
      var response := readerAt.resp;
      if response.id in inflight {
        var entry := Message(response.id, inflight[response.id]);
        inflight := inflight - {response.id};
        seen := seen.(matched := seen.matched + {response.id});
        readerAt := NotifyWriter(entry, response);
      } else {
        errorCount := errorCount + 1;
        seen := seen.(orphans := seen.orphans + {response.id});
        readerAt := ReadResponse;
      }
    }

    method NotifyOne()
      requires Valid() && Enabled(config, View(), RNotify)
      modifies this
      ensures Valid() && View() == Apply(config, old(View()), RNotify)
    {
      if writer.Asleep? {
        writer := CheckWindow;
      }
      readerAt := Account(readerAt.entry, readerAt.resp);
    }

    method Verify()
      requires Valid() && Enabled(config, View(), RAccount)
      modifies `readerAt, `receivedResponses, `verifiedBytes, `payloadBytes, `errorCount, `seen
      ensures Valid() && View() == Apply(config, old(View()), RAccount)
    {
      var entry, response := readerAt.entry, readerAt.resp;
      var same := Matches(entry.data, response.data);
      CountResponse(entry, same);
      readerAt := ReadResponse;
    }

    method CountResponse(entry: Message, same: bool)
      modifies `receivedResponses, `verifiedBytes, `payloadBytes, `errorCount, `seen
      ensures receivedResponses == old(receivedResponses) + 1
      ensures payloadBytes == old(payloadBytes) + |entry.data|
      ensures verifiedBytes == old(verifiedBytes) + (if same then |entry.data| else 0)
      ensures errorCount == old(errorCount) + (if same then 0 else 1)
      ensures seen == if same then old(seen).(verified := old(seen).verified + {entry.id}) else old(seen)
    {
      receivedResponses := receivedResponses + 1;
      payloadBytes := payloadBytes + |entry.data|;
      if same {
        verifiedBytes := verifiedBytes + |entry.data|;
        seen := seen.(verified := seen.verified + {entry.id});
      } else {
        errorCount := errorCount + 1;
      }
    }

    method Join()
      requires Valid() && Enabled(config, View(), RJoin)
      modifies this
      ensures Valid() && View() == Apply(config, old(View()), RJoin)
    {
      readerAt := CheckLeftovers;
    }

    method ReportLeftovers()
      requires Valid() && Enabled(config, View(), RLeftovers)
      modifies this
      ensures Valid() && View() == Apply(config, old(View()), RLeftovers)
    {
      if inflight != map[] {
        errorCount := errorCount + 1;
      }
      readerAt := FinishCall;
    }

    method Conclusion(ok: bool)
      requires Valid() && Enabled(config, View(), RFinish(ok))
      modifies this
      ensures Valid() && View() == Apply(config, old(View()), RFinish(ok))
    {
      if !ok {
        errorCount := errorCount + 1;
      }
      saidSuccess := false;
      if finishedSending && !streamBroken && ok && verifiedBytes != expectedSize {
        errorCount := errorCount + 1;
      } else if finishedSending && !streamBroken && ok && verifiedBytes == expectedSize {
        saidSuccess := true;
      }
      readerAt := ReaderDone;
    }

    // ---- server and stream ----

    method Elsewhere(a: Action)
      requires Valid() && Enabled(config, View(), a) && !IsWriterAction(a) && !IsReaderAction(a)
      modifies this
      ensures Valid() && View() == Apply(config, old(View()), a)
    {
      if a.Break? {
        net := net.(broken := true);
      } else if a.Meddle? {
        net := a.net;
      } else {
        net := ServerStep(net, a);
      }
    }

    method Perform(a: Action)
      requires Valid() && Enabled(config, View(), a)
      modifies this, reader
      ensures Valid() && View() == Apply(config, old(View()), a)
    {
      match a
      case WCheck => WaitForRoom();
      case WSpurious => writer := CheckWindow;
      case WRead => TakeChunk();
      case WInsert => FileEntry();
      case WWrite(ok) => SendRequest(ok);
      case WCount => BumpSent();
      case WFinish => Finish();
      case WHalfClose => Finish();
      case RRead(ok) => ReceiveResponse(ok);
      case RFind => LookUp();
      case RNotify => NotifyOne();
      case RAccount => Verify();
      case RJoin => Join();
      case RLeftovers => ReportLeftovers();
      case RFinish(ok) => Conclusion(ok);
      case SRead(_) => Elsewhere(a);
      case SWrite(_) => Elsewhere(a);
      case Break => Elsewhere(a);
      case Meddle(_) => Elsewhere(a);
    }
  }

  /** What the success message stands for: everything answered by its exact reversal, and counted once. */
  ghost predicate Delivered(c: Config, s: State) {
    && s.r.seen.verified == s.r.seen.matched == Ids(|c.chunks|)
    && s.r.tally.verified == s.r.tally.payload == c.expected && s.r.tally.received == |c.chunks|
    && s.inflight == map[]
    && forall i :: 0 <= i < |c.chunks| ==> Message(i + 1, Reversed(c.chunks[i])) in s.r.seen.consumed
  }

  /** The account of a client that got through, or hung, on an unbroken stream. */
  ghost predicate Settled(c: Config, s: State) {
    var orphans := s.r.seen.orphans;
    && s.inflight.Keys == orphans
    && (c.order.BeforeWrite? ==> orphans == {})
    && if s.r.pc.ReaderDone? then
         && |orphans| < c.window
         && (s.r.success <==> orphans == {})
         && s.r.tally.verified + SizeOfIds(c, orphans) == c.expected
         && s.r.tally.errors == (if orphans == {} then 0 else |orphans| + 2)
       else |orphans| == c.window && s.w.pc.Asleep?
  }

  /**
   * A whole transfer under any schedule, with whoever answers. The map fits the window, the success
   * message is sound and takes a good status, and every line of the error list is accounted for. If
   * the echo server answers, the stream does not break and the schedule cannot be continued, the
   * client is done or hangs, and the account is exact either way.
   */
  method ProcessFile(
    file: Bytes, chunkSize: nat, window: nat, order: InsertOrder, ghost world: World, schedule: seq<Action>)
    returns (client: GrpcFileClient)
    requires chunkSize > 0 && window > 0
    requires Feasible(FileConfig(file, chunkSize, window, order, world), Init(), schedule)
    ensures client.Valid() && client.config == FileConfig(file, chunkSize, window, order, world)
    ensures client.View() == Exec(client.config, Init(), schedule)
    ensures |client.inflight| <= window
    ensures client.saidSuccess ==> Delivered(client.config, client.View()) && RFinish(true) in schedule
    ensures Ledger(client.config, client.View(), schedule)
    ensures world.Honest? && Stuck(client.config, client.View()) && !client.net.broken ==>
      Settled(client.config, client.View())
  {
    client := new GrpcFileClient(file, chunkSize, window, order, world);
    var i := 0;
    while i < |schedule|
      invariant 0 <= i <= |schedule|
      invariant fresh(client) && fresh(client.reader) && client.Valid()
      invariant client.config == FileConfig(file, chunkSize, window, order, world)
      invariant Feasible(client.config, client.View(), schedule[i..])
      invariant Exec(client.config, client.View(), schedule[i..]) == Exec(client.config, Init(), schedule)
    {
      assert schedule[i..][0] == schedule[i] && schedule[i..][1..] == schedule[i + 1..];
      client.Perform(schedule[i]);
      i := i + 1;
    }
    WholeRun(client.config, file, chunkSize, schedule);
  }

  lemma WholeRun(c: Config, file: Bytes, chunkSize: nat, run: seq<Action>)
    requires chunkSize > 0 && c.window > 0 && c == FileConfig(file, chunkSize, c.window, c.order, c.world)
    requires Feasible(c, Init(), run)
    ensures
      var s := Exec(c, Init(), run);
      && |s.inflight| <= c.window
      && (s.r.success ==> Delivered(c, s))
      && Ledger(c, s, run)
      && (c.world.Honest? && Stuck(c, s) && !s.net.broken ==> Settled(c, s))
  {
    var s := Exec(c, Init(), run);
    FileConfigIsValid(file, chunkSize, c.window, c.order, c.world);
    assert Reachable(c, s);
    WindowAndCounterSafety(c, s);
    ErrorsAndVerdict(c, run);
    if s.r.success {
      SuccessIsSound(c, s);
    }
    if c.world.Honest? && Stuck(c, s) && !s.net.broken {
      SettledWhenStuck(c, s);
    }
  }

  lemma SettledWhenStuck(c: Config, s: State)
    requires c.world.Honest? && ValidConfig(c) && Reachable(c, s)
    requires c.expected == SizeOfIds(c, Ids(|c.chunks|))
    requires Stuck(c, s) && !s.net.broken
    ensures Settled(c, s)
  {
    if c.order.BeforeWrite? {
      InsertFirstIsClean(c, s);
    }
    if s.r.pc.ReaderDone? {
      ExactAccounting(c, s);
    } else {
      StuckIsDeadlock(c, s);
      DeadlockMeansOrphans(c, s);
    }
  }

  /**
   * With the constants of the configuration the client as written can hang on a perfect stream, and
   * can lose the account of any 1999 or fewer of its 163840 chunks.
   */
  lemma ShippedClient(file: Bytes, lost: set<int>)
    requires |file| == ACTUAL_FILE_SIZE_BYTES
    ensures
      var c := FileConfig(file, CHUNK_SIZE_BYTES, MAX_INFLIGHT_REQUESTS, AfterWrite, Honest);
      && |c.chunks| == 163840
      && (exists s :: Reachable(c, s) && Deadlocked(c, s) && !s.net.broken)
      && ((exists s :: Reachable(c, s) && Complete(s) && s.r.seen.orphans == lost)
           <==> lost <= Ids(|c.chunks|) && |lost| < 2000)
  {
    var c := FileConfig(file, CHUNK_SIZE_BYTES, MAX_INFLIGHT_REQUESTS, AfterWrite, Honest);
    FileConfigIsValid(file, CHUNK_SIZE_BYTES, MAX_INFLIGHT_REQUESTS, AfterWrite, Honest);
    SplitCount(file, CHUNK_SIZE_BYTES);
    QuotientIsUnique(ACTUAL_FILE_SIZE_BYTES + CHUNK_SIZE_BYTES - 1, CHUNK_SIZE_BYTES, 163840, CHUNK_SIZE_BYTES - 1);
    PipelineRuns.HangsExactlyWhen(c);
    PipelineRuns.OrphanSetsExactly(c, lost);
  }
}
