/**
 * The C++ TCP client and session as objects: the callbacks, on the real chunk reader, the real codec
 * and the in-place reversal. Each callback is one transition of the state machines.
 */
module TcpPrograms {
  import opened Bytes
  import opened Chunking
  import opened ChunkReaders
  import opened CppMessaging
  import opened Framing
  import opened Reversal
  import opened TcpClientModel
  import opened TcpLockStep

  /** The steady clock, about which nothing is assumed. */
  method Now() returns (t: int) {
    t := *;
  }

  class MetricsAggregator {
    var chunkRttData: seq<Record>
    var processedChunksCount: nat
    var totalBytesProcessed: nat
    var verifiedChunksCount: nat
    var timerRunning: bool
    var startTime: int
    var endTime: int

    ghost function View(): Metrics
      reads this
    {
      Metrics(chunkRttData, processedChunksCount, totalBytesProcessed, verifiedChunksCount)
    }

    constructor ()
      ensures View() == Metrics([], 0, 0, 0) && !timerRunning
    {
      chunkRttData, processedChunksCount, totalBytesProcessed, verifiedChunksCount := [], 0, 0, 0;
      timerRunning, startTime, endTime := false, 0, 0;
    }

    /** Only the first of several starts sets the time. */
    method StartTimer(now: int)
      modifies this`timerRunning, this`startTime
      ensures timerRunning && startTime == if old(timerRunning) then old(startTime) else now
    {
      if !timerRunning {
        startTime := now;
        timerRunning := true;
      }
    }

    /** Only a running timer takes the time, so only the first of several stops does. */
    method StopTimer(now: int)
      modifies this`timerRunning, this`endTime
      ensures !timerRunning && endTime == if old(timerRunning) then now else old(endTime)
    {
      if timerRunning {
        endTime := now;
        timerRunning := false;
      }
    }

    method StopAndRecordChunkRtt(chunkSizeBytes: nat, verified: bool)
      modifies this
      ensures View() == Recorded(old(View()), chunkSizeBytes, verified)
      ensures timerRunning == old(timerRunning) && startTime == old(startTime) && endTime == old(endTime)
    {
      chunkRttData := chunkRttData + [Record(processedChunksCount + 1, chunkSizeBytes, verified)];
      processedChunksCount := processedChunksCount + 1;
      totalBytesProcessed := totalBytesProcessed + chunkSizeBytes;
      if verified {
        verifiedChunksCount := verifiedChunksCount + 1;
      }
    }
  }

  class TcpClient {
    ghost const config: Config
    const host: Host
    const chunkSize: nat
    const totalChunksToSend: nat
    const reader: CountingChunkReader
    const metrics: MetricsAggregator
    const writeHeaderBuffer: array<byte>

    var currentChunk: Bytes
    var expectedReversed: Bytes
    var readBodyBuffer: Bytes
    var chunksSent: nat
    var timerStoppedFlag: bool
    var operationsStopped: bool
    /** The operation handed to the event loop. */
    var pending: Phase

    ghost var heard: Heard
    /** How often the effects of stopping took place. */
    ghost var stops: nat

    ghost function View(): Client
      reads this, reader, metrics
    {
      Client(pending, chunksSent, Source(reader.chunksRead, reader.eof, currentChunk), metrics.View(), heard)
    }

    /** What the constructor fixes for good. */
    ghost predicate Configured() {
      && reader.chunkSize == chunkSize == config.chunkSize > 0
      && config.chunks == Split(reader.file, chunkSize)
      && config.shortTail == EndsShort(reader.file, chunkSize)
      && totalChunksToSend == |config.chunks|
      && writeHeaderBuffer.Length == HEADER_SIZE
    }

    ghost predicate Ready()
      reads this, reader
    {
      && Configured()
      && reader.Valid()
      && expectedReversed == Reversed(currentChunk)
    }

    /** Not connected yet: nothing is sent, nothing is stopped. */
    ghost predicate Idle()
      reads this, reader, metrics
    {
      && Ready()
      && View() == Unconnected(config)
      && !operationsStopped && !timerStoppedFlag && stops == 0
    }

    ghost predicate Valid()
      reads this, reader, metrics
    {
      Ready() && Stops()
    }

    /** The timer runs until stopping, which takes effect once. */
    ghost predicate Stops()
      reads this, metrics
    {
      && (operationsStopped <==> pending.Stopped?)
      && (if operationsStopped then timerStoppedFlag && !metrics.timerRunning
          else !timerStoppedFlag && metrics.timerRunning)
      && stops == (if operationsStopped then 1 else 0)
    }

    constructor (file: Bytes, chunkSize: nat, host: Host)
      requires 0 < chunkSize < TWO_TO_32
      ensures Idle() && fresh(reader) && fresh(metrics) && fresh(writeHeaderBuffer)
      ensures reader.file == file && config == FileConfig(file, chunkSize)
    {
      config := FileConfig(file, chunkSize);
      this.host, this.chunkSize := host, chunkSize;
      var r := new CountingChunkReader(file, chunkSize);
      reader, totalChunksToSend := r, r.totalChunks;
      metrics := new MetricsAggregator();
      writeHeaderBuffer := new byte[HEADER_SIZE];
      currentChunk, expectedReversed, readBodyBuffer := [], [], [];
      chunksSent, timerStoppedFlag, operationsStopped := 0, false, false;
      pending, heard, stops := Sending([]), Heard([], []), 0;
    }

    /** The timer starts and the first chunk is on its way. */
    method Connected()
      requires Idle()
      modifies this, reader, metrics, writeHeaderBuffer
      ensures Valid() && View() == Start(config)
    {
      var now := Now();
      metrics.StartTimer(now);
      SendNextChunk();
    }

    // ---- what the event loop does between two handlers ----

    /** Some octets of the pending write are out. */
    method Sent(k: nat)
      requires Valid() && pending.Sending? && k <= |pending.out|
      modifies this
      ensures Valid() && View() == old(View()).(phase := Sending(old(pending.out)[k..]))
    {
      pending := Sending(pending.out[k..]);
    }

    /** Some octets of the pending read are in. */
    method Received(data: Bytes)
      requires Valid() && (pending.ReadingHeader? || pending.ReadingBody?)
      modifies this
      ensures Valid() && View() == old(View()).(phase := old(pending).(got := old(pending.got) + data))
    {
      pending := pending.(got := pending.got + data);
    }

    // ---- handlers ----

    method StopClientOperations(errorOccurred: bool)
      requires Valid()
      modifies this, metrics`timerRunning, metrics`endTime
      ensures Valid() && View() == Stop(old(View()), !errorOccurred)
    {
      if !operationsStopped {
        operationsStopped := true;
        if !timerStoppedFlag {
          var now := Now();
          metrics.StopTimer(now);
          timerStoppedFlag := true;
        }
        stops := stops + 1;
        pending := Stopped(!errorOccurred);
      }
    }

    /** The next chunk and its reversal; an empty one comes at the end of the file only. */
    method TakeNext()
      requires Valid()
      modifies `currentChunk, `expectedReversed, reader
      ensures Valid() && View() == old(View()).(source := TakeChunk(config, old(View().source)))
      ensures currentChunk == [] ==> reader.eof
    {
      currentChunk := reader.ReadNextChunk();
      expectedReversed := Reversed(currentChunk);
    }

    method SendNextChunk()
      requires Valid()
      modifies this, reader, metrics`timerRunning, metrics`endTime, writeHeaderBuffer
      ensures Valid() && View() == SendNext(config, old(View()))
    {
      if operationsStopped {
        return;
      }
      if chunksSent >= totalChunksToSend || reader.eof {
        StopClientOperations(false);
        return;
      }
      TakeNext();
      var atEof := reader.eof;
      if currentChunk == [] && !atEof {
        // "empty chunk unexpectedly before EOF": the reader never gets here
        assert false;
      }
      if currentChunk == [] && atEof {
        StopClientOperations(false);
        return;
      }
      var buffers := PrepareMessage(host, currentChunk, writeHeaderBuffer);
      pending := Sending(Gather(buffers));
    }

    method WriteDone(ec: Outcome)
      requires Valid()
      modifies this, metrics`timerRunning, metrics`endTime
      ensures Valid() && View() == OnWritten(old(View()), ec)
    {
      if operationsStopped {
        return;
      }
      if ec.Ok? {
        pending := ReadingHeader([]);
      } else {
        StopClientOperations(true);
      }
    }

    method HeaderDone(ec: Outcome, header: Bytes)
      requires Valid() && |header| == HEADER_SIZE
      modifies this, reader, metrics, writeHeaderBuffer
      ensures Valid() && View() == OnHeader(config, old(View()), ec, header)
    {
      if operationsStopped {
        return;
      }
      match ec
      case Ok =>
        heard := heard.(taken := heard.taken + header);
        var bodyLength := ParseHeader(host, header);
        ParsedHeaderIsNetworkOrder(host, header);
        if bodyLength > chunkSize * 2 {
          StopClientOperations(true);
          return;
        }
        if bodyLength == 0 {
          readBodyBuffer := [];
          HandleReceivedChunkData();
        } else {
          pending := ReadingBody(bodyLength, []);
        }
      case AtEof =>
        if chunksSent >= totalChunksToSend {
          StopClientOperations(false);
        } else {
          StopClientOperations(true);
        }
      case OtherError =>
        StopClientOperations(true);
    }

    method BodyDone(ec: Outcome, body: Bytes)
      requires Valid() && (operationsStopped || pending.ReadingBody?)
      modifies this, reader, metrics, writeHeaderBuffer
      ensures Valid() && View() == OnBody(config, old(View()), ec, body)
    {
      if operationsStopped {
        return;
      }
      if ec.Ok? {
        if |body| != pending.need {
          StopClientOperations(true);
          return;
        }
        heard := heard.(taken := heard.taken + body);
        readBodyBuffer := body;
        HandleReceivedChunkData();
      } else {
        StopClientOperations(true);
      }
    }

    method HandleReceivedChunkData()
      requires Valid()
      modifies this, reader, metrics, writeHeaderBuffer
      ensures Valid() && View() == HandleChunk(config, old(View()), old(readBodyBuffer))
    {
      if operationsStopped {
        return;
      }
      var verified := readBodyBuffer == expectedReversed;
      metrics.StopAndRecordChunkRtt(|currentChunk|, verified);
      heard := heard.(answers := heard.answers + [readBodyBuffer]);
      if !verified {
        StopClientOperations(true);
        return;
      }
      chunksSent := chunksSent + 1;
      if chunksSent >= totalChunksToSend || reader.eof {
        StopClientOperations(false);
      } else {
        SendNextChunk();
      }
    }
  }

  /** The session reads a body into an array of its length, and reverses it where it lies before it is sent back. */
  class TcpSession {
    ghost const config: Config
    const host: Host
    const chunkSize: nat
    const writeHeaderBuffer: array<byte>
    var readBodyBuffer: array<byte>
    var pending: Session

    ghost predicate Ready()
      reads this
    {
      && chunkSize == config.chunkSize
      && writeHeaderBuffer.Length == HEADER_SIZE
      && writeHeaderBuffer != readBodyBuffer
    }

    /** The buffer has the length the header announced and holds what has come in. */
    ghost predicate Valid()
      reads this, readBodyBuffer
    {
      && Ready()
      && (pending.AwaitBody? ==>
            && |pending.got| <= pending.need == readBodyBuffer.Length
            && readBodyBuffer[..|pending.got|] == pending.got)
    }

    constructor (ghost config: Config, chunkSize: nat, host: Host)
      requires chunkSize == config.chunkSize
      ensures Valid() && pending == AwaitHeader([]) && this.config == config
      ensures fresh(writeHeaderBuffer) && fresh(readBodyBuffer)
    {
      this.config, this.chunkSize, this.host := config, chunkSize, host;
      writeHeaderBuffer := new byte[HEADER_SIZE];
      readBodyBuffer := new byte[0];
      pending := AwaitHeader([]);
    }

    // ---- what the event loop does between two handlers ----

    /** Some octets of the pending write are out. */
    method Sent(k: nat)
      requires Valid() && pending.Replying? && k <= |pending.out|
      modifies this`pending
      ensures Valid() && pending == Replying(old(pending.out)[k..])
    {
      pending := Replying(pending.out[k..]);
    }

    /** Some octets of the pending read are in; those of a body lie in the buffer. */
    method Received(data: Bytes)
      requires Valid() && |ServerGot(pending)| + |data| <= ServerWants(pending)
      requires pending.AwaitHeader? || pending.AwaitBody?
      modifies this`pending, readBodyBuffer
      ensures Valid() && pending == old(pending).(got := old(pending.got) + data)
    {
      if pending.AwaitBody? {
        var at := |pending.got|;
        forall i | 0 <= i < |data| {
          readBodyBuffer[at + i] := data[i];
        }
        assert readBodyBuffer[..at] == pending.got;
        assert readBodyBuffer[at..at + |data|] == data;
        assert readBodyBuffer[..at + |data|] == readBodyBuffer[..at] + readBodyBuffer[at..at + |data|];
      }
      pending := pending.(got := pending.got + data);
    }

    // ---- handlers ----

    method HeaderDone(ec: Outcome, header: Bytes)
      requires Valid() && |header| == HEADER_SIZE
      modifies this, writeHeaderBuffer
      ensures Valid() && pending == if ec.Ok? then SessionHeader(config, header) else Closed
      ensures readBodyBuffer == old(readBodyBuffer) || fresh(readBodyBuffer)
    {
      if !ec.Ok? {
        pending := Closed;
        return;
      }
      var bodyLength := ParseHeader(host, header);
      ParsedHeaderIsNetworkOrder(host, header);
      if bodyLength == 0 {
        readBodyBuffer := new byte[0];
        DoWrite();
        return;
      }
      if bodyLength > chunkSize * 2 {
        pending := Closed;
        return;
      }
      readBodyBuffer := new byte[bodyLength];
      pending := AwaitBody(bodyLength, []);
    }

    /** Anything but the whole body ends the session. */
    method BodyDone(ec: Outcome, lengthRead: nat)
      requires Valid() && pending.AwaitBody? && lengthRead == |pending.got|
      modifies this`pending, readBodyBuffer, writeHeaderBuffer
      ensures Valid()
      ensures pending ==
        if ec.Ok? && lengthRead == old(pending.need) then SessionBody(old(pending.got)) else Closed
    {
      if !ec.Ok? || lengthRead != readBodyBuffer.Length {
        pending := Closed;
        return;
      }
      assert readBodyBuffer[..] == pending.got;
      ReverseBytesInPlace(readBodyBuffer);
      DoWrite();
    }

    method DoWrite()
      requires Ready()
      modifies this`pending, writeHeaderBuffer
      ensures Valid() && pending == Replying(Frame(readBodyBuffer[..]))
    {
      var buffers := PrepareMessage(host, readBodyBuffer[..], writeHeaderBuffer);
      pending := Replying(Gather(buffers));
    }

    method WriteDone(ec: Outcome)
      requires Valid() && pending.Replying?
      modifies this`pending
      ensures Valid() && pending == if ec.Ok? then AwaitHeader([]) else Closed
    {
      pending := if ec.Ok? then AwaitHeader([]) else Closed;
    }
  }

  // ---- client and session together ----

  /** The client's chunks as the real chunk reader yields them. */
  function FileConfig(file: Bytes, chunkSize: nat): Config
    requires chunkSize > 0
  {
    Config(Split(file, chunkSize), EndsShort(file, chunkSize), chunkSize)
  }

  /** The client's chunk reader meets the assumptions of the protocol proofs, at the shipped chunk size too. */
  lemma FileConfigIsValid(file: Bytes, chunkSize: nat)
    requires 0 < chunkSize < TWO_TO_32
    ensures ValidConfig(FileConfig(file, chunkSize))
    ensures TotalSize(Split(file, chunkSize)) == |file|
  {
    SplitIsPartition(file, chunkSize);
  }

  ghost function Both(client: TcpClient, session: TcpSession, up: Bytes, down: Bytes): System
    reads client, client.reader, client.metrics, session
  {
    System(client.View(), session.pending, up, down)
  }

  ghost predicate Apart(client: TcpClient, session: TcpSession)
    reads session
  {
    && client.config == session.config
    && client.writeHeaderBuffer != session.writeHeaderBuffer
    && client.writeHeaderBuffer != session.readBodyBuffer
  }

  /** A fragment moves at the client's end, or a handler runs with what its operation has collected. */
  method PerformClient(client: TcpClient, ghost q: Session, up: Bytes, down: Bytes, step: Step)
    returns (up': Bytes, down': Bytes)
    requires client.Valid() && IsClientStep(step)
    requires Enabled(System(client.View(), q, up, down), step)
    modifies client, client.reader, client.metrics, client.writeHeaderBuffer
    ensures client.Valid()
    ensures System(client.View(), q, up', down')
      == Next(client.config, old(System(client.View(), q, up, down)), step)
  {
    up', down' := up, down;
    match step
    case ClientSends(k) =>
      up' := up + client.pending.out[..k];
      client.Sent(k);
    case ClientWritten =>
      client.WriteDone(Ok);
    case ClientReceives(k) =>
      client.Received(down[..k]);
      down' := down[k..];
    case ClientHeader =>
      client.HeaderDone(Ok, client.pending.got);
    case ClientBody =>
      client.BodyDone(Ok, client.pending.got);
  }

  method PerformServer(session: TcpSession, ghost p: Client, up: Bytes, down: Bytes, step: Step)
    returns (up': Bytes, down': Bytes)
    requires session.Valid() && !IsClientStep(step)
    requires Enabled(System(p, session.pending, up, down), step)
    modifies session, session.readBodyBuffer, session.writeHeaderBuffer
    ensures session.Valid()
    ensures session.readBodyBuffer == old(session.readBodyBuffer) || fresh(session.readBodyBuffer)
    ensures System(p, session.pending, up', down')
      == Next(session.config, System(p, old(session.pending), up, down), step)
  {
    up', down' := up, down;
    match step
    case ServerSends(k) =>
      down' := down + session.pending.out[..k];
      session.Sent(k);
    case ServerWritten =>
      session.WriteDone(Ok);
    case ServerReceives(k) =>
      session.Received(up[..k]);
      up' := up[k..];
    case ServerHeader =>
      session.HeaderDone(Ok, session.pending.got);
    case ServerBody =>
      session.BodyDone(Ok, |session.pending.got|);
  }

  /** One step of the product. */
  method Perform(client: TcpClient, session: TcpSession, up: Bytes, down: Bytes, step: Step)
    returns (up': Bytes, down': Bytes)
    requires client.Valid() && session.Valid() && Apart(client, session)
    requires Enabled(Both(client, session, up, down), step)
    modifies client, client.reader, client.metrics, client.writeHeaderBuffer
    modifies session, session.readBodyBuffer, session.writeHeaderBuffer
    ensures client.Valid() && session.Valid() && Apart(client, session)
    ensures session.readBodyBuffer == old(session.readBodyBuffer) || fresh(session.readBodyBuffer)
    ensures Both(client, session, up', down') == Next(client.config, old(Both(client, session, up, down)), step)
  {
    if IsClientStep(step) {
      up', down' := PerformClient(client, session.pending, up, down, step);
    } else {
      up', down' := PerformServer(session, client.View(), up, down, step);
    }
  }

  /** All steps of a run. */
  method PerformAll(client: TcpClient, session: TcpSession, up: Bytes, down: Bytes, run: seq<Step>)
    returns (up': Bytes, down': Bytes)
    requires client.Valid() && session.Valid() && Apart(client, session)
    requires Feasible(client.config, Both(client, session, up, down), run)
    modifies client, client.reader, client.metrics, client.writeHeaderBuffer
    modifies session, session.readBodyBuffer, session.writeHeaderBuffer
    ensures client.Valid() && session.Valid() && Apart(client, session)
    ensures Both(client, session, up', down') == Exec(client.config, old(Both(client, session, up, down)), run)
    decreases |run|
  {
    up', down' := up, down;
    if run != [] {
      up', down' := Perform(client, session, up, down, run[0]);
      up', down' := PerformAll(client, session, up', down', run[1..]);
    }
  }

  /**
   * A whole transfer of a file under any fragments and any interleaving. If nothing is left to do,
   * every chunk was sent, verified and recorded, the recorded octets are the file's, and the client
   * stopped once, with its timer.
   */
  method TransferFile(file: Bytes, chunkSize: nat, clientHost: Host, serverHost: Host, run: seq<Step>)
    returns (client: TcpClient, session: TcpSession, up: Bytes, down: Bytes)
    requires 0 < chunkSize < TWO_TO_32
    requires Feasible(FileConfig(file, chunkSize), Begin(FileConfig(file, chunkSize)), run)
    ensures client.Valid() && session.Valid() && client.config == FileConfig(file, chunkSize)
    ensures Both(client, session, up, down) == Exec(client.config, Begin(client.config), run)
    ensures client.pending != Stopped(false) && session.pending != Closed
    ensures !client.operationsStopped ==> client.metrics.timerRunning
    ensures (forall step :: !Enabled(Both(client, session, up, down), step)) ==>
      && client.pending == Stopped(true) && client.stops == 1 && !client.metrics.timerRunning
      && client.chunksSent == client.totalChunksToSend == client.metrics.verifiedChunksCount
      && client.metrics.totalBytesProcessed == |file|
  {
    client := new TcpClient(file, chunkSize, clientHost);
    session := new TcpSession(client.config, chunkSize, serverHost);
    client.Connected();
    up, down := [], [];
    up, down := PerformAll(client, session, up, down, run);
    WholeTransfer(file, chunkSize, run);
  }

  lemma WholeTransfer(file: Bytes, chunkSize: nat, run: seq<Step>)
    requires 0 < chunkSize < TWO_TO_32
    requires Feasible(FileConfig(file, chunkSize), Begin(FileConfig(file, chunkSize)), run)
    ensures
      var c := FileConfig(file, chunkSize);
      var s := Exec(c, Begin(c), run);
      && s.client.phase != Stopped(false) && s.session != Closed
      && ((forall step :: !Enabled(s, step)) ==>
            && s.client.phase == Stopped(true)
            && s.client.chunksSent == s.client.metrics.verified == |c.chunks|
            && s.client.metrics.bytes == |file|)
  {
    FileConfigIsValid(file, chunkSize);
    EveryRunSucceeds(FileConfig(file, chunkSize), run);
  }
}
