/** The Go codec over a connection that delivers any fragments, and the two Go programs built on it. */
module GoMessaging {
  import opened Bytes
  import opened Chunking
  import opened ChunkReaders
  import opened Framing
  import opened Io
  import opened Reversal

  /**
   * One end of a TCP connection: what the peer will still deliver before it closes, what was
   * written so far, and how many octets can be written before a write fails.
   */
  class Conn {
    var inbound: Bytes
    var outbound: Bytes
    var capacity: nat

    constructor (inbound: Bytes, capacity: nat)
      ensures this.inbound == inbound && this.outbound == [] && this.capacity == capacity
    {
      this.inbound, outbound, this.capacity := inbound, [], capacity;
    }

    /** Delivers any positive number of octets into `buf[at..]`, possibly with the end of file right behind them. */
    method Read(buf: array<byte>, at: nat) returns (n: nat, err: IoError)
      requires at < buf.Length
      modifies this`inbound, buf
      ensures n <= buf.Length - at && n <= |old(inbound)|
      ensures inbound == old(inbound)[n..]
      ensures buf[..] == old(buf[..at]) + old(inbound)[..n] + old(buf[at + n..])
      ensures err == NoError || (err == EOF && inbound == [])
      ensures n == 0 ==> err == EOF
    {
      if inbound == [] {
        n, err := 0, EOF;
        assert inbound[..0] == [];
        return;
      }
      n :| 0 < n <= buf.Length - at && n <= |inbound|;
      forall i | at <= i < at + n {
        buf[i] := inbound[i - at];
      }
      inbound := inbound[n..];
      var together: bool :| true;
      err := if together && inbound == [] then EOF else NoError;
    }

    /** Writes everything, or what fits and then fails. */
    method Write(data: Bytes) returns (err: IoError)
      modifies this`outbound, this`capacity
      ensures err == if |data| <= old(capacity) then NoError else WriteFailed
      ensures outbound == old(outbound) + Fitting(data, old(capacity))
      ensures capacity == old(capacity) - |Fitting(data, old(capacity))|
    {
      if |data| <= capacity {
        outbound, capacity := outbound + data, capacity - |data|;
        err := NoError;
      } else {
        outbound, capacity := outbound + data[..capacity], 0;
        err := WriteFailed;
      }
    }
  }

  /** The part of `data` a connection takes that accepts `room` more octets. */
  function Fitting(data: Bytes, room: nat): (r: Bytes)
    ensures |r| <= room
  {
    if |data| <= room then data else data[..room]
  }

  lemma FittingConcat(a: Bytes, b: Bytes, room: nat)
    ensures Fitting(a + b, room) == Fitting(a, room) + Fitting(b, room - |Fitting(a, room)|)
  {
  }

  /** `io.ReadFull`: the whole buffer, or how far it got and which end of file that was. */
  method ReadFull(conn: Conn, buf: array<byte>) returns (err: IoError)
    modifies conn`inbound, buf
    ensures |old(conn.inbound)| >= buf.Length ==>
      && err == NoError
      && buf[..] == old(conn.inbound)[..buf.Length] && conn.inbound == old(conn.inbound)[buf.Length..]
    ensures |old(conn.inbound)| < buf.Length ==> err == CutShort(old(conn.inbound)) && conn.inbound == []
  {
    var n := 0;
    err := NoError;
    while n < buf.Length && err == NoError
      invariant 0 <= n <= buf.Length && n <= |old(conn.inbound)|
      invariant conn.inbound == old(conn.inbound)[n..]
      invariant buf[..n] == old(conn.inbound)[..n]
      invariant err == NoError || (err == EOF && conn.inbound == [])
      decreases |conn.inbound|, err == NoError
    {
      var k, e := conn.Read(buf, n);
      n, err := n + k, e;
      assert buf[..n] == old(conn.inbound)[..n];
    }
    if n >= buf.Length {
      err := NoError;
    } else if n > 0 && err == EOF {
      err := UnexpectedEOF;
    }
  }

  method ReadMessage(conn: Conn) returns (body: array<byte>, err: IoError)
    modifies conn`inbound
    ensures fresh(body)
    ensures match ReadOne(old(conn.inbound))
      case Got(payload, rest) => err == NoError && body[..] == payload && conn.inbound == rest
      case Failed(e) => err == e && conn.inbound == []
  {
    var header := new byte[HEADER_SIZE];
    err := ReadFull(conn, header);
    if err != NoError {
      return new byte[0], err;
    }
    var bodyLength := GetUint32(header[..]);
    if bodyLength == 0 {
      return new byte[0], NoError;
    }
    body := new byte[bodyLength];
    err := ReadFull(conn, body);
  }

  /** Header and payload are two writes; together they put one frame on the wire, or as much of it as fits. */
  method WriteMessage(conn: Conn, payload: Bytes) returns (err: IoError)
    modifies conn`outbound, conn`capacity
    ensures err == if |Frame(payload)| <= old(conn.capacity) then NoError else WriteFailed
    ensures conn.outbound == old(conn.outbound) + Fitting(Frame(payload), old(conn.capacity))
    ensures conn.capacity == old(conn.capacity) - |Fitting(Frame(payload), old(conn.capacity))|
  {
    var header := PutUint32(|payload| % TWO_TO_32);
    FittingConcat(header, payload, conn.capacity);
    err := conn.Write(header);
    if err != NoError {
      return;
    }
    if |payload| > 0 {
      err := conn.Write(payload);
    }
  }

  function ReversedAll(messages: seq<Bytes>): (r: seq<Bytes>)
    ensures |r| == |messages|
    ensures forall i :: 0 <= i < |messages| ==> r[i] == Reversed(messages[i])
  {
    seq(|messages|, i requires 0 <= i < |messages| => Reversed(messages[i]))
  }

  /** What the server owes for everything the client sends: one reversed frame per message. */
  function Replies(inbound: Bytes): Bytes {
    FrameAll(ReversedAll(ReadAll(inbound).0))
  }

  lemma ReversedAllConcat(a: seq<Bytes>, b: seq<Bytes>)
    ensures ReversedAll(a + b) == ReversedAll(a) + ReversedAll(b)
  {
  }

  /** The next reply goes out first; what still fits of the others follows it. */
  lemma RepliesStep(inbound: Bytes, room: nat)
    requires ReadOne(inbound).Got?
    ensures
      var r := ReadOne(inbound);
      var next := Fitting(Frame(Reversed(r.payload)), room);
      Fitting(Replies(inbound), room) == next + Fitting(Replies(r.rest), room - |next|)
  {
    var r := ReadOne(inbound);
    var others := ReadAll(r.rest).0;
    assert ReadAll(inbound).0 == [r.payload] + others;
    ReversedAllConcat([r.payload], others);
    assert ReversedAll([r.payload] + others)[1..] == ReversedAll(others);
    FittingConcat(Frame(Reversed(r.payload)), Replies(r.rest), room);
  }

  lemma NoReplies(inbound: Bytes, room: nat)
    requires ReadOne(inbound).Failed?
    ensures Fitting(Replies(inbound), room) == []
  {
    assert ReadAll(inbound).0 == [];
    assert ReversedAll([]) == [];
  }

  /** Once around the server's loop; false when the loop ends. What is out and what will still go out stays the same. */
  method AnswerOne(conn: Conn) returns (again: bool)
    modifies conn
    ensures conn.outbound + Fitting(Replies(conn.inbound), conn.capacity)
      == old(conn.outbound) + Fitting(Replies(old(conn.inbound)), old(conn.capacity))
    ensures again ==> |conn.inbound| < |old(conn.inbound)|
    ensures !again ==> Fitting(Replies(conn.inbound), conn.capacity) == []
  {
    ghost var inbound, outbound, room := conn.inbound, conn.outbound, conn.capacity;
    var data, err := ReadMessage(conn);
    if err != NoError {
      NoReplies(inbound, room);
      NoReplies([], room);
      return false;
    }
    RepliesStep(inbound, room);
    assert |inbound| == |Frame(ReadOne(inbound).payload)| + |conn.inbound|;
    ReverseBytesInPlace(data);
    ghost var next, later := Fitting(Frame(data[..]), room), Replies(conn.inbound);
    err := WriteMessage(conn, data[..]);
    assert conn.outbound == outbound + next && conn.capacity == room - |next|;
    Associate(outbound, next, Fitting(later, room - |next|));
    again := err == NoError;
  }

  /**
   * The server's connection loop: whatever the fragments, it answers every complete message with its
   * reversal, in order, and nothing else, until the stream ends or a write fails.
   */
  method HandleConnection(conn: Conn)
    modifies conn
    ensures conn.outbound == old(conn.outbound) + Fitting(Replies(old(conn.inbound)), old(conn.capacity))
  {
    ghost var target := conn.outbound + Fitting(Replies(conn.inbound), conn.capacity);
    var again := true;
    while again
      invariant target == conn.outbound + Fitting(Replies(conn.inbound), conn.capacity)
      invariant !again ==> Fitting(Replies(conn.inbound), conn.capacity) == []
      decreases again, |conn.inbound|
    {
      again := AnswerOne(conn);
    }
  }

  datatype ClientOutcome = Finished | Aborted

  /** All pieces fit through the connection, and exact reversals of them come back, in order. */
  predicate Answered(pieces: seq<Bytes>, room: nat, inbound: Bytes) {
    && |FrameAll(pieces)| <= room
    && FrameAll(ReversedAll(pieces)) <= inbound
  }

  /**
   * All pieces but the last were answered; the last was not, and counts as processed only if it
   * went out whole and a whole message came back.
   */
  ghost predicate FailedAt(pieces: seq<Bytes>, processedBytes: nat, verifiedChunks: nat, room: nat, inbound: Bytes) {
    && pieces != []
    && var before, last := pieces[..|pieces| - 1], pieces[|pieces| - 1];
       && Answered(before, room, inbound) && verifiedChunks == |before|
       && var waiting := inbound[|FrameAll(ReversedAll(before))|..];
          processedBytes == |Flatten(before)| +
            (if |FrameAll(before)| + |Frame(last)| <= room && ReadOne(waiting).Got? then |last| else 0)
  }

  /** What was written, and what came and is still to come, after all `pieces` were exchanged. */
  ghost predicate InStep(pieces: seq<Bytes>, outbound: Bytes, inbound: Bytes,
                         out: Bytes, capacity: nat, waiting: Bytes, room: nat)
  {
    && |FrameAll(pieces)| + capacity == room
    && out == outbound + FrameAll(pieces)
    && inbound == FrameAll(ReversedAll(pieces)) + waiting
  }

  /**
   * The Go client's loop against an arbitrary peer, whose octets are `conn.inbound`. `pieces` is
   * what it read from the file. It finishes if and only if all of them were answered, and then they
   * are the whole file.
   */
  method RunClient(file: Bytes, chunkSize: nat, conn: Conn)
    returns (outcome: ClientOutcome, pieces: seq<Bytes>, processedBytes: nat, verifiedChunks: nat)
    requires 0 < chunkSize < TWO_TO_32
    modifies conn
    ensures Sized(pieces, chunkSize)
    ensures Flatten(pieces) <= file
    ensures conn.outbound == old(conn.outbound) + Fitting(FrameAll(pieces), old(conn.capacity))
    ensures outcome == Finished <==> Answered(pieces, old(conn.capacity), old(conn.inbound))
    ensures outcome == Finished ==>
      Flatten(pieces) == file && processedBytes == |file| && verifiedChunks == |pieces|
    ensures outcome == Aborted ==>
      FailedAt(pieces, processedBytes, verifiedChunks, old(conn.capacity), old(conn.inbound))
  {
    var reader := new CountedBytesReader(file, chunkSize);
    pieces, processedBytes, verifiedChunks := [], 0, 0;
    ghost var inbound, outbound, room := conn.inbound, conn.outbound, conn.capacity;
    while true
      invariant fresh(reader) && reader.Valid() && !reader.eofReached
      invariant reader.chunkSize == chunkSize && reader.file == file
      invariant Sized(pieces, chunkSize)
      invariant Flatten(pieces) + reader.Rest() == file
      invariant InStep(pieces, outbound, inbound, conn.outbound, conn.capacity, conn.inbound, room)
      invariant processedBytes == |Flatten(pieces)| && verifiedChunks == |pieces|
      decreases |reader.Rest()|
    {
      ghost var before, waiting, rest := pieces, conn.inbound, reader.Rest();
      var chunk, readErr := reader.ReadNextChunk();
      if readErr == EOF {
        break;
      }
      NextPiece(file, before, chunk, reader.Rest(), rest, chunkSize);
      ghost var left := conn.capacity;
      pieces := pieces + [chunk];
      var answered, verified := Exchange(conn, chunk);
      if answered {
        processedBytes := processedBytes + |chunk|;
      }
      if !verified {
        Refused(before, chunk, outbound, inbound, left, waiting, room);
        return Aborted, pieces, processedBytes, verifiedChunks;
      }
      verifiedChunks := verifiedChunks + 1;
      Accepted(before, chunk, outbound, inbound, left, waiting, room);
      if reader.eofReached && |chunk| > 0 {
        break;
      }
    }
    outcome := Finished;
    AllServed(pieces, outbound, inbound, conn.outbound, conn.capacity, conn.inbound, room);
  }

  lemma AllServed(pieces: seq<Bytes>, outbound: Bytes, inbound: Bytes,
                  out: Bytes, capacity: nat, waiting: Bytes, room: nat)
    requires InStep(pieces, outbound, inbound, out, capacity, waiting, room)
    ensures Answered(pieces, room, inbound) && out == outbound + Fitting(FrameAll(pieces), room)
  {
  }

  /** A failed exchange: the pieces read so far, this one included, were not all answered. */
  lemma Refused(before: seq<Bytes>, chunk: Bytes, outbound: Bytes, inbound: Bytes,
                left: nat, waiting: Bytes, room: nat)
    requires |chunk| < TWO_TO_32
    requires InStep(before, outbound, inbound, outbound + FrameAll(before), left, waiting, room)
    requires !(|Frame(chunk)| <= left && ReadOne(waiting).Got? && ReadOne(waiting).payload == Reversed(chunk))
    ensures !Answered(before + [chunk], room, inbound)
    ensures outbound + FrameAll(before) + Fitting(Frame(chunk), left)
      == outbound + Fitting(FrameAll(before + [chunk]), room)
  {
    NextExchange(before, chunk, waiting, inbound, left, room);
  }

  /** A good exchange keeps the two streams in step. */
  lemma Accepted(before: seq<Bytes>, chunk: Bytes, outbound: Bytes, inbound: Bytes,
                 left: nat, waiting: Bytes, room: nat)
    requires |chunk| < TWO_TO_32
    requires InStep(before, outbound, inbound, outbound + FrameAll(before), left, waiting, room)
    requires |Frame(chunk)| <= left && ReadOne(waiting).Got? && ReadOne(waiting).payload == Reversed(chunk)
    ensures InStep(before + [chunk], outbound, inbound, outbound + FrameAll(before) + Frame(chunk),
                   left - |Frame(chunk)|, ReadOne(waiting).rest, room)
  {
    NextExchange(before, chunk, waiting, inbound, left, room);
    AfterExchange(before, chunk, waiting, ReadOne(waiting).rest, inbound);
    Associate(outbound, FrameAll(before), Frame(chunk));
  }

  /** Send one piece, wait for the answer, compare. */
  method Exchange(conn: Conn, chunk: Bytes) returns (answered: bool, verified: bool)
    requires |chunk| < TWO_TO_32
    modifies conn
    ensures conn.outbound == old(conn.outbound) + Fitting(Frame(chunk), old(conn.capacity))
    ensures conn.capacity == old(conn.capacity) - |Fitting(Frame(chunk), old(conn.capacity))|
    ensures answered <==> |Frame(chunk)| <= old(conn.capacity) && ReadOne(old(conn.inbound)).Got?
    ensures verified <==> answered && ReadOne(old(conn.inbound)).payload == Reversed(chunk)
    ensures verified ==> conn.inbound == ReadOne(old(conn.inbound)).rest
  {
    var err := WriteMessage(conn, chunk);
    if err != NoError {
      return false, false;
    }
    var received, rerr := ReadMessage(conn);
    if rerr != NoError {
      return false, false;
    }
    return true, received[..] == Reversed(chunk);
  }

  lemma AfterExchange(before: seq<Bytes>, chunk: Bytes, waiting: Bytes, after: Bytes, inbound: Bytes)
    requires |chunk| < TWO_TO_32
    requires inbound == FrameAll(ReversedAll(before)) + waiting
    requires ReadOne(waiting) == Got(Reversed(chunk), after)
    requires FrameAll(ReversedAll(before + [chunk])) == FrameAll(ReversedAll(before)) + Frame(Reversed(chunk))
    ensures inbound == FrameAll(ReversedAll(before + [chunk])) + after
  {
    Associate(FrameAll(ReversedAll(before)), Frame(Reversed(chunk)), after);
  }

  /** What one more exchange means for the octets sent and the octets expected. */
  lemma NextExchange(before: seq<Bytes>, chunk: Bytes, waiting: Bytes, inbound: Bytes, left: nat, room: nat)
    requires |chunk| < TWO_TO_32
    requires inbound == FrameAll(ReversedAll(before)) + waiting
    requires |FrameAll(before)| + left == room
    ensures FrameAll(before + [chunk]) == FrameAll(before) + Frame(chunk)
    ensures Fitting(FrameAll(before + [chunk]), room) == FrameAll(before) + Fitting(Frame(chunk), left)
    ensures FrameAll(ReversedAll(before + [chunk])) == FrameAll(ReversedAll(before)) + Frame(Reversed(chunk))
    ensures FrameAll(ReversedAll(before + [chunk])) <= inbound <==>
      ReadOne(waiting).Got? && ReadOne(waiting).payload == Reversed(chunk)
  {
    FrameAllAppend(before, chunk);
    ReversedAllConcat(before, [chunk]);
    assert ReversedAll([chunk]) == [Reversed(chunk)];
    FrameAllAppend(ReversedAll(before), Reversed(chunk));
    FittingConcat(FrameAll(before), Frame(chunk), room);
    PrefixAfter(FrameAll(ReversedAll(before)), Frame(Reversed(chunk)), waiting);
    FrameIsNext(Reversed(chunk), waiting);
  }

  lemma PrefixAfter(a: Bytes, b: Bytes, c: Bytes)
    ensures a + b <= a + c <==> b <= c
  {
    assert b <= c ==> a + b <= a + c;
    if a + b <= a + c {
      assert b == (a + b)[|a|..] && c[..|b|] == (a + c)[..|a + b|][|a|..];
    }
  }

  /** A frame is at the head of the stream exactly when the next message read is its payload. */
  lemma FrameIsNext(payload: Bytes, stream: Bytes)
    requires |payload| < TWO_TO_32
    ensures Frame(payload) <= stream <==> ReadOne(stream).Got? && ReadOne(stream).payload == payload
  {
    var frame := Frame(payload);
    if frame <= stream {
      assert stream == frame + stream[|frame|..];
      ReadOneFrame(payload, stream[|frame|..]);
    }
  }

  /**
   * Causality: at every point of the exchange the server's answer to the pieces sent so far is
   * exactly what the client has to see to go on, and the beginning of its whole answer.
   */
  lemma ServerSatisfiesClient(pieces: seq<Bytes>, k: nat)
    requires Framable(pieces) && k <= |pieces|
    ensures Replies(FrameAll(pieces[..k])) == FrameAll(ReversedAll(pieces[..k]))
    ensures Replies(FrameAll(pieces[..k])) <= Replies(FrameAll(pieces))
  {
    var sent, later := pieces[..k], pieces[k..];
    assert pieces == sent + later;
    RoundTrip(sent);
    RoundTrip(pieces);
    ReversedAllConcat(sent, later);
    FrameAllConcat(ReversedAll(sent), ReversedAll(later));
  }

  lemma {:induction false} FrameAllConcat(a: seq<Bytes>, b: seq<Bytes>)
    ensures FrameAll(a + b) == FrameAll(a) + FrameAll(b)
  {
    if a == [] {
      assert a + b == b;
    } else {
      assert (a + b)[1..] == a[1..] + b;
      FrameAllConcat(a[1..], b);
    }
  }

  lemma {:induction false} FrameAllSize(messages: seq<Bytes>)
    ensures |FrameAll(messages)| == |FrameAll(ReversedAll(messages))|
  {
    if messages != [] {
      FrameAllSize(messages[1..]);
      assert ReversedAll(messages)[1..] == ReversedAll(messages[1..]);
    }
  }

  lemma SizedIsFramable(pieces: seq<Bytes>, chunkSize: nat)
    requires Sized(pieces, chunkSize) && chunkSize < TWO_TO_32
    ensures Framable(pieces)
  {
  }

  /** What the server writes for the frames of some pieces is all the client needs exactly if both have room. */
  lemma EnoughRoom(pieces: seq<Bytes>, clientRoom: nat, serverRoom: nat, written: Bytes)
    requires Framable(pieces)
    requires written == Fitting(Replies(Fitting(FrameAll(pieces), clientRoom)), serverRoom)
    ensures Answered(pieces, clientRoom, written) <==>
      |FrameAll(pieces)| <= clientRoom && |FrameAll(pieces)| <= serverRoom
  {
    FrameAllSize(pieces);
    if |FrameAll(pieces)| <= clientRoom {
      RoundTrip(pieces);
      assert Replies(FrameAll(pieces)) == FrameAll(ReversedAll(pieces));
    }
  }

  /**
   * The two Go programs together: the client on a connection that delivers `promised`, and then the
   * server on what the client sent. If the octets that reach the client are the octets the server
   * writes, the client finishes with the whole file verified, unless one of the two fails a write.
   */
  method TransferFile(file: Bytes, chunkSize: nat, promised: Bytes, clientRoom: nat, serverRoom: nat)
    returns (outcome: ClientOutcome, pieces: seq<Bytes>, processedBytes: nat, verifiedChunks: nat, written: Bytes)
    requires 0 < chunkSize < TWO_TO_32
    ensures Sized(pieces, chunkSize) && Flatten(pieces) <= file
    ensures outcome == Finished <==> Answered(pieces, clientRoom, promised)
    ensures outcome == Finished ==>
      Flatten(pieces) == file && processedBytes == |file| && verifiedChunks == |pieces|
    ensures outcome == Aborted ==> FailedAt(pieces, processedBytes, verifiedChunks, clientRoom, promised)
    ensures written == Fitting(Replies(Fitting(FrameAll(pieces), clientRoom)), serverRoom)
    ensures promised == written ==>
      (outcome == Finished <==> |FrameAll(pieces)| <= clientRoom && |FrameAll(pieces)| <= serverRoom)
  {
    var client := new Conn(promised, clientRoom);
    outcome, pieces, processedBytes, verifiedChunks := RunClient(file, chunkSize, client);
    assert client.outbound == Fitting(FrameAll(pieces), clientRoom);
    var server := new Conn(client.outbound, serverRoom);
    HandleConnection(server);
    written := server.outbound;
    SizedIsFramable(pieces, chunkSize);
    EnoughRoom(pieces, clientRoom, serverRoom, written);
  }
}
