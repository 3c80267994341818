/**
 * The C++ TCP client and server session together, over two byte streams that deliver arbitrary
 * fragments: at most one message is outstanding, and every run that cannot go on has succeeded.
 */
module TcpLockStep {
  import opened Bytes
  import opened Chunking
  import opened Framing
  import opened TcpClientModel

  // ---- the server session ----

  datatype Session =
    | AwaitHeader(got: Bytes)
    | AwaitBody(need: nat, got: Bytes)
    | Replying(out: Bytes)
    | Closed

  /** Header complete: an empty message is answered at once, an oversized one closes the session. */
  function SessionHeader(c: Config, header: Bytes): Session
    requires |header| == HEADER_SIZE
  {
    var length := GetUint32(header);
    if length == 0 then Replying(Frame([]))
    else if length > 2 * c.chunkSize then Closed
    else AwaitBody(length, [])
  }

  function SessionBody(body: Bytes): Session {
    Replying(Frame(Reversed(body)))
  }

  // ---- the product ----

  /** `up` carries octets from client to server, `down` the other way. */
  datatype System = System(client: Client, session: Session, up: Bytes, down: Bytes)

  /** The transfers move any positive number of octets; the others are completion handlers. */
  datatype Step =
    | ClientSends(k: nat)
    | ClientReceives(k: nat)
    | ClientWritten
    | ClientHeader
    | ClientBody
    | ServerReceives(k: nat)
    | ServerSends(k: nat)
    | ServerHeader
    | ServerBody
    | ServerWritten

  /** Octets the client is waiting for, and what it has of them. */
  function ClientWants(p: Phase): nat {
    if p.ReadingHeader? then HEADER_SIZE else if p.ReadingBody? then p.need else 0
  }

  function ClientGot(p: Phase): Bytes {
    if p.ReadingHeader? || p.ReadingBody? then p.got else []
  }

  function ServerWants(q: Session): nat {
    if q.AwaitHeader? then HEADER_SIZE else if q.AwaitBody? then q.need else 0
  }

  function ServerGot(q: Session): Bytes {
    if q.AwaitHeader? || q.AwaitBody? then q.got else []
  }

  predicate Enabled(s: System, step: Step) {
    var p, q := s.client.phase, s.session;
    match step
    case ClientSends(k) => p.Sending? && 0 < k <= |p.out|
    case ClientWritten => p.Sending? && p.out == []
    case ClientReceives(k) => 0 < k <= |s.down| && |ClientGot(p)| + k <= ClientWants(p)
    case ClientHeader => p.ReadingHeader? && |p.got| == HEADER_SIZE
    case ClientBody => p.ReadingBody? && |p.got| == p.need
    case ServerSends(k) => q.Replying? && 0 < k <= |q.out|
    case ServerWritten => q.Replying? && q.out == []
    case ServerReceives(k) => 0 < k <= |s.up| && |ServerGot(q)| + k <= ServerWants(q)
    case ServerHeader => q.AwaitHeader? && |q.got| == HEADER_SIZE
    case ServerBody => q.AwaitBody? && |q.got| == q.need
  }

  function Next(c: Config, s: System, step: Step): System
    requires Enabled(s, step)
  {
    var p, q := s.client.phase, s.session;
    match step
    case ClientSends(k) => s.(client := s.client.(phase := Sending(p.out[k..])), up := s.up + p.out[..k])
    case ClientWritten => s.(client := OnWritten(s.client, Ok))
    case ClientReceives(k) =>
      var got := p.got + s.down[..k];
      var p' := if p.ReadingHeader? then ReadingHeader(got) else ReadingBody(p.need, got);
      s.(client := s.client.(phase := p'), down := s.down[k..])
    case ClientHeader => s.(client := OnHeader(c, s.client, Ok, p.got))
    case ClientBody => s.(client := OnBody(c, s.client, Ok, p.got))
    case ServerSends(k) => s.(session := Replying(q.out[k..]), down := s.down + q.out[..k])
    case ServerWritten => s.(session := AwaitHeader([]))
    case ServerReceives(k) =>
      var got := q.got + s.up[..k];
      s.(session := if q.AwaitHeader? then AwaitHeader(got) else AwaitBody(q.need, got), up := s.up[k..])
    case ServerHeader => s.(session := SessionHeader(c, q.got))
    case ServerBody => s.(session := SessionBody(q.got))
  }

  predicate IsClientStep(step: Step) {
    step.ClientSends? || step.ClientReceives? || step.ClientWritten? || step.ClientHeader? || step.ClientBody?
  }

  function Begin(c: Config): System {
    System(Start(c), AwaitHeader([]), [], [])
  }

  // ---- the lock-step invariant ----

  /** Octets of the current request the session has taken in. */
  function Taken(q: Session): Bytes {
    match q
    case AwaitHeader(got) => got
    case AwaitBody(need, got) => (if need < TWO_TO_32 then PutUint32(need) else []) + got
    case _ => []
  }

  /** Octets of the current response the client has taken in. */
  function Returned(p: Phase): Bytes {
    match p
    case ReadingHeader(got) => got
    case ReadingBody(need, got) => (if need < TWO_TO_32 then PutUint32(need) else []) + got
    case _ => []
  }

  /** Each side's buffers are within what it waits for. */
  ghost predicate Shapes(s: System, current: Bytes) {
    && (s.client.phase.ReadingHeader? ==> |s.client.phase.got| <= HEADER_SIZE)
    && (s.client.phase.ReadingBody? ==> s.client.phase.need == |current| && |s.client.phase.got| <= |current|)
    && (s.session.AwaitHeader? ==> |s.session.got| <= HEADER_SIZE)
    && (s.session.AwaitBody? ==> s.session.need == |current| && |s.session.got| <= |current|)
  }

  /** The request is on its way: server, wire and client hold exactly its frame, and nothing is coming back. */
  ghost predicate Asking(s: System, current: Bytes) {
    && s.down == []
    && (s.client.phase.Sending? || s.client.phase == ReadingHeader([]))
    && (s.session.AwaitHeader? || s.session.AwaitBody? || s.session == Replying([]))
    && Taken(s.session) + s.up + (if s.client.phase.Sending? then s.client.phase.out else []) == Frame(current)
  }

  /** The response is on its way: client, wire and server hold exactly its frame, and nothing is going up. */
  ghost predicate Answering(s: System, current: Bytes) {
    && s.up == []
    && (s.client.phase == Sending([]) || s.client.phase.ReadingHeader? || s.client.phase.ReadingBody?)
    && (s.session.Replying? || s.session == AwaitHeader([]))
    && Returned(s.client.phase) + s.down + (if s.session.Replying? then s.session.out else [])
      == Frame(Reversed(current))
  }

  ghost predicate Done(s: System) {
    && s.client.phase == Stopped(true) && s.up == s.down == []
    && (s.session == Replying([]) || s.session == AwaitHeader([]))
  }

  ghost predicate LockStep(s: System) {
    var current := s.client.source.current;
    Done(s) || (!s.client.phase.Stopped? && Shapes(s, current) && (Asking(s, current) || Answering(s, current)))
  }

  ghost predicate Inv(c: Config, s: System) {
    && InHand(c, s.client)
    && Books(c, s.client.metrics, s.client.heard.answers)
    && Progress(c, s.client)
    && LockStep(s)
  }

  // ---- preservation ----

  /** Moving octets across a boundary changes nothing in the whole. */
  lemma Shift(a: Bytes, b: Bytes, c: Bytes, k: nat)
    requires k <= |c|
    ensures a + b + c == a + (b + c[..k]) + c[k..]
  {
    assert c == c[..k] + c[k..];
  }

  lemma ClientSendsKeepsInv(c: Config, s: System, k: nat)
    requires Inv(c, s) && Enabled(s, ClientSends(k))
    ensures Inv(c, Next(c, s, ClientSends(k)))
  {
    var t, out := Next(c, s, ClientSends(k)), s.client.phase.out;
    Shift(Taken(s.session), s.up, out, k);
    assert Asking(t, t.client.source.current);
  }

  lemma ClientReceivesKeepsInv(c: Config, s: System, k: nat)
    requires Inv(c, s) && Enabled(s, ClientReceives(k))
    ensures Inv(c, Next(c, s, ClientReceives(k)))
  {
    var t, p := Next(c, s, ClientReceives(k)), s.client.phase;
    Shift([], Returned(p), s.down, k);
    assert Returned(p) + s.down == Returned(t.client.phase) + t.down;
    assert Answering(t, t.client.source.current);
  }

  lemma ClientWrittenKeepsInv(c: Config, s: System)
    requires Inv(c, s) && Enabled(s, ClientWritten)
    ensures Inv(c, Next(c, s, ClientWritten))
  {
  }

  lemma ServerSendsKeepsInv(c: Config, s: System, k: nat)
    requires Inv(c, s) && Enabled(s, ServerSends(k))
    ensures Inv(c, Next(c, s, ServerSends(k)))
  {
    var t, out := Next(c, s, ServerSends(k)), s.session.out;
    Shift(Returned(s.client.phase), s.down, out, k);
    assert Answering(t, t.client.source.current);
  }

  lemma ServerReceivesKeepsInv(c: Config, s: System, k: nat)
    requires Inv(c, s) && Enabled(s, ServerReceives(k))
    ensures Inv(c, Next(c, s, ServerReceives(k)))
  {
    var t := Next(c, s, ServerReceives(k));
    Shift([], Taken(s.session), s.up, k);
    assert Taken(s.session) + s.up == Taken(t.session) + t.up;
    assert Asking(t, t.client.source.current);
  }

  lemma ServerWrittenKeepsInv(c: Config, s: System)
    requires Inv(c, s) && Enabled(s, ServerWritten)
    ensures Inv(c, Next(c, s, ServerWritten))
  {
  }

  /** A complete header at the front of a frame announces the size of its payload. */
  lemma HeaderOf(payload: Bytes, header: Bytes, tail: Bytes)
    requires |payload| < TWO_TO_32 && |header| == HEADER_SIZE
    requires header + tail == Frame(payload)
    ensures GetUint32(header) == |payload| && tail == payload
  {
    assert header == (header + tail)[..HEADER_SIZE] == Frame(payload)[..HEADER_SIZE] == PutUint32(|payload|);
    assert tail == (header + tail)[HEADER_SIZE..] == Frame(payload)[HEADER_SIZE..] == payload;
    GetAfterPut(|payload|);
  }

  /** A complete body behind its header leaves nothing of the frame outstanding. */
  lemma BodyOf(payload: Bytes, body: Bytes, tail: Bytes)
    requires |payload| < TWO_TO_32 && |body| == |payload|
    requires PutUint32(|payload|) + body + tail == Frame(payload)
    ensures body == payload && tail == []
  {
    var whole := PutUint32(|payload|) + body + tail;
    assert |whole| == HEADER_SIZE + |body| + |tail|;
    assert body == whole[HEADER_SIZE..HEADER_SIZE + |body|] == Frame(payload)[HEADER_SIZE..] == payload;
  }

  /** The session's body-length guard never fires. */
  lemma ServerHeaderKeepsInv(c: Config, s: System)
    requires ValidConfig(c) && Inv(c, s) && Enabled(s, ServerHeader)
    ensures Inv(c, Next(c, s, ServerHeader)) && Next(c, s, ServerHeader).session.AwaitBody?
  {
    var current, header := s.client.source.current, s.session.got;
    var tail := s.up + (if s.client.phase.Sending? then s.client.phase.out else []);
    assert header + tail == Taken(s.session) + s.up + (if s.client.phase.Sending? then s.client.phase.out else []);
    HeaderOf(current, header, tail);
    PutAfterGet(header);
  }

  lemma ServerBodyKeepsInv(c: Config, s: System)
    requires ValidConfig(c) && Inv(c, s) && Enabled(s, ServerBody)
    ensures Inv(c, Next(c, s, ServerBody))
  {
    var current, body := s.client.source.current, s.session.got;
    var out := if s.client.phase.Sending? then s.client.phase.out else [];
    assert PutUint32(|current|) + body + (s.up + out) == Taken(s.session) + s.up + out;
    BodyOf(current, body, s.up + out);
  }

  /** The header in hand announces the chunk in hand. */
  lemma ClientHeaderAnnounces(c: Config, s: System)
    requires ValidConfig(c) && Inv(c, s) && Enabled(s, ClientHeader)
    ensures Answering(s, s.client.source.current)
    ensures 0 < |s.client.source.current| <= c.chunkSize
    ensures GetUint32(s.client.phase.got) == |s.client.source.current|
    ensures PutUint32(|s.client.source.current|) == s.client.phase.got
  {
    var current, header := s.client.source.current, s.client.phase.got;
    var out := if s.session.Replying? then s.session.out else [];
    assert header + (s.down + out) == Returned(s.client.phase) + s.down + out;
    HeaderOf(Reversed(current), header, s.down + out);
    PutAfterGet(header);
  }

  /** The client's body-length guard never fires either. */
  lemma ClientHeaderKeepsInv(c: Config, s: System)
    requires ValidConfig(c) && Inv(c, s) && Enabled(s, ClientHeader)
    ensures Inv(c, Next(c, s, ClientHeader)) && Next(c, s, ClientHeader).client.phase.ReadingBody?
  {
    ClientHeaderAnnounces(c, s);
    var current, header := s.client.source.current, s.client.phase.got;
    TakenIsSeparate(c, s.client, s.client.heard.taken + header);
    var u := s.client.(heard := s.client.heard.(taken := s.client.heard.taken + header));
    var t := s.(client := u.(phase := ReadingBody(|current|, [])));
    assert Next(c, s, ClientHeader) == t;
    assert Returned(t.client.phase) == header;
    assert Answering(t, current);
  }

  /** Verification never fails: the body is the reversal, and the next chunk follows or the client is done. */
  lemma ClientBodyKeepsInv(c: Config, s: System)
    requires ValidConfig(c) && Inv(c, s) && Enabled(s, ClientBody)
    ensures Inv(c, Next(c, s, ClientBody)) && Next(c, s, ClientBody).client.phase != Stopped(false)
  {
    var current, body := s.client.source.current, s.client.phase.got;
    var out := if s.session.Replying? then s.session.out else [];
    assert PutUint32(|current|) + body + (s.down + out) == Returned(s.client.phase) + s.down + out;
    BodyOf(Reversed(current), body, s.down + out);
    BooksStep(c, s.client.metrics, s.client.heard.answers, s.client.chunksSent, body);
    NextChunkKeepsInv(c, s, body);
  }

  lemma NextChunkKeepsInv(c: Config, s: System, body: Bytes)
    requires ValidConfig(c) && Inv(c, s) && Enabled(s, ClientBody)
    requires body == s.client.phase.got == Reversed(s.client.source.current)
    requires s.down == s.up == [] && (s.session == Replying([]) || s.session == AwaitHeader([]))
    requires Books(c, Recorded(s.client.metrics, |s.client.source.current|, true), s.client.heard.answers + [body])
    ensures Inv(c, Next(c, s, ClientBody)) && Next(c, s, ClientBody).client.phase != Stopped(false)
  {
    var t := Next(c, s, ClientBody);
    if !t.client.phase.Stopped? {
      assert t.client.phase == Sending(Frame(t.client.source.current));
      assert Taken(t.session) + t.up + t.client.phase.out == Frame(t.client.source.current);
    }
  }

  lemma StepKeepsInv(c: Config, s: System, step: Step)
    requires ValidConfig(c) && Inv(c, s) && Enabled(s, step)
    ensures Inv(c, Next(c, s, step))
  {
    match step
    case ClientHeader => ClientHeaderKeepsInv(c, s);
    case ClientBody => ClientBodyKeepsInv(c, s);
    case ServerHeader => ServerHeaderKeepsInv(c, s);
    case ServerBody => ServerBodyKeepsInv(c, s);
    case ClientSends(k) => ClientSendsKeepsInv(c, s, k);
    case ClientReceives(k) => ClientReceivesKeepsInv(c, s, k);
    case ClientWritten => ClientWrittenKeepsInv(c, s);
    case ServerSends(k) => ServerSendsKeepsInv(c, s, k);
    case ServerReceives(k) => ServerReceivesKeepsInv(c, s, k);
    case ServerWritten => ServerWrittenKeepsInv(c, s);
  }

  lemma BeginInv(c: Config)
    requires ValidConfig(c)
    ensures Inv(c, Begin(c))
  {
    StartInv(c);
    var s := Begin(c);
    if !s.client.phase.Stopped? {
      assert Taken(s.session) + s.up + s.client.phase.out == Frame(s.client.source.current);
    }
  }

  predicate Feasible(c: Config, s: System, run: seq<Step>)
    decreases |run|
  {
    run == [] || (Enabled(s, run[0]) && Feasible(c, Next(c, s, run[0]), run[1..]))
  }

  function Exec(c: Config, s: System, run: seq<Step>): System
    requires Feasible(c, s, run)
    decreases |run|
  {
    if run == [] then s else Exec(c, Next(c, s, run[0]), run[1..])
  }

  lemma {:induction false} RunKeepsInv(c: Config, s: System, run: seq<Step>)
    requires ValidConfig(c) && Inv(c, s) && Feasible(c, s, run)
    ensures Inv(c, Exec(c, s, run))
    decreases |run|
  {
    if run != [] {
      StepKeepsInv(c, s, run[0]);
      RunKeepsInv(c, Next(c, s, run[0]), run[1..]);
    }
  }

  // ---- progress ----

  /** As long as the client runs, somebody can move. */
  lemma SomeoneCanMove(c: Config, s: System) returns (step: Step)
    requires ValidConfig(c) && Inv(c, s) && !s.client.phase.Stopped?
    ensures Enabled(s, step)
  {
    var p, q, current := s.client.phase, s.session, s.client.source.current;
    if p.Sending? {
      step := if p.out == [] then ClientWritten else ClientSends(|p.out|);
    } else if q.Replying? {
      step := if q.out == [] then ServerWritten else ServerSends(|q.out|);
    } else if Asking(s, current) {
      if |q.got| == ServerWants(q) {
        step := if q.AwaitHeader? then ServerHeader else ServerBody;
      } else {
        assert |Taken(q)| + |s.up| == |Frame(current)|;
        step := ServerReceives(1);
      }
    } else {
      if |p.got| == ClientWants(p) {
        step := if p.ReadingHeader? then ClientHeader else ClientBody;
      } else {
        assert |Returned(p)| + |s.down| == |Frame(Reversed(current))|;
        step := ClientReceives(1);
      }
    }
  }

  /** Work in the chunks from number `i` on. */
  function Ahead(c: Config, i: nat): nat
    decreases |c.chunks| - i
  {
    if i >= |c.chunks| then 0 else 5 * (HEADER_SIZE + |c.chunks[i]|) + 4 + Ahead(c, i + 1)
  }

  function PhaseWork(p: Phase): nat {
    match p
    case Sending(out) => 5 * |out| + 3
    case ReadingHeader(_) => 2
    case ReadingBody(_, _) => 1
    case Stopped(_) => 0
  }

  function SessionWork(q: Session): nat {
    match q
    case AwaitHeader(got) => 3 * |got| + 2
    case AwaitBody(_, got) => 3 * (HEADER_SIZE + |got|) + 1
    case Replying(out) => 2 * |out| + 3
    case Closed => 0
  }

  function Work(c: Config, s: System): nat {
    Ahead(c, s.client.source.chunksRead) + PhaseWork(s.client.phase) + SessionWork(s.session) + 4 * |s.up| + |s.down|
  }

  lemma ClientBodyDoesWork(c: Config, s: System)
    requires ValidConfig(c) && Inv(c, s) && Enabled(s, ClientBody)
    ensures Work(c, Next(c, s, ClientBody)) < Work(c, s)
  {
    ClientBodyKeepsInv(c, s);
  }

  lemma TransferDoesWork(c: Config, s: System, step: Step)
    requires Enabled(s, step) && !step.ClientHeader? && !step.ClientBody? && !step.ServerHeader?
    ensures Work(c, Next(c, s, step)) < Work(c, s)
  {
  }

  /** Every step of either side, and every fragment, does some of the work. */
  lemma StepDoesWork(c: Config, s: System, step: Step)
    requires ValidConfig(c) && Inv(c, s) && Enabled(s, step)
    ensures Work(c, Next(c, s, step)) < Work(c, s)
  {
    if step.ClientHeader? {
      ClientHeaderKeepsInv(c, s);
    } else if step.ServerHeader? {
      ServerHeaderKeepsInv(c, s);
    } else if step.ClientBody? {
      ClientBodyDoesWork(c, s);
    } else {
      TransferDoesWork(c, s, step);
    }
  }

  lemma {:induction false} RunDoesWork(c: Config, s: System, run: seq<Step>)
    requires ValidConfig(c) && Inv(c, s) && Feasible(c, s, run)
    ensures |run| + Work(c, Exec(c, s, run)) <= Work(c, s)
    decreases |run|
  {
    if run != [] {
      StepKeepsInv(c, s, run[0]);
      StepDoesWork(c, s, run[0]);
      RunDoesWork(c, Next(c, s, run[0]), run[1..]);
    }
  }

  /**
   * Whatever the fragments and the interleaving: runs are bounded, the client never stops with an
   * error, and a run that cannot go on has sent, verified and recorded every chunk.
   */
  lemma EveryRunSucceeds(c: Config, run: seq<Step>)
    requires ValidConfig(c) && Feasible(c, Begin(c), run)
    ensures |run| <= Work(c, Begin(c))
    ensures
      var s := Exec(c, Begin(c), run);
      && s.client.phase != Stopped(false)
      && s.session != Closed
      && ((forall step :: !Enabled(s, step)) ==> s.client.phase == Stopped(true))
      && (s.client.phase == Stopped(true) ==>
            && s.client.chunksSent == s.client.metrics.verified == s.client.metrics.processed == |c.chunks|
            && s.client.metrics.bytes == TotalSize(c.chunks)
            && s.up == s.down == [])
  {
    BeginInv(c);
    RunKeepsInv(c, Begin(c), run);
    RunDoesWork(c, Begin(c), run);
    var s := Exec(c, Begin(c), run);
    if !s.client.phase.Stopped? {
      var step := SomeoneCanMove(c, s);
    }
    assert c.chunks[..|c.chunks|] == c.chunks;
  }

  /** At most one message is outstanding: request and response octets are never in transit together. */
  lemma OneMessageOutstanding(c: Config, run: seq<Step>)
    requires ValidConfig(c) && Feasible(c, Begin(c), run)
    ensures
      var s := Exec(c, Begin(c), run);
      var current := s.client.source.current;
      && (s.up == [] || s.down == [])
      && (s.client.phase.Stopped? || Asking(s, current) || Answering(s, current))
  {
    BeginInv(c);
    RunKeepsInv(c, Begin(c), run);
  }
}
