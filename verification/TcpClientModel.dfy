/**
 * The C++ TCP client as a state machine of callbacks, and what its verdict and its metrics mean
 * against an arbitrary server.
 */
module TcpClientModel {
  import opened Bytes
  import opened Chunking
  import opened Framing

  /** The chunks of the file, whether the last one is short, and config::CHUNK_SIZE. */
  datatype Config = Config(chunks: seq<Bytes>, shortTail: bool, chunkSize: nat)

  ghost predicate ValidConfig(c: Config) {
    && 0 < c.chunkSize < TWO_TO_32
    && forall i :: 0 <= i < |c.chunks| ==> 0 < |c.chunks[i]| <= c.chunkSize
  }

  /** The operation in progress, with the octets still to be written or already read. */
  datatype Phase =
    | Sending(out: Bytes)
    | ReadingHeader(got: Bytes)
    | ReadingBody(need: nat, got: Bytes)
    | Stopped(ok: bool)

  /** The chunk reader as this client sees it, and the chunk it took last. */
  datatype Source = Source(chunksRead: nat, eof: bool, current: Bytes)

  datatype Record = Record(index: nat, size: nat, verified: bool)

  /** The metrics aggregator's per-chunk records and its three counters. */
  datatype Metrics = Metrics(records: seq<Record>, processed: nat, bytes: nat, verified: nat)

  /** Bodies handled so far and every octet read to get them. */
  datatype Heard = Heard(answers: seq<Bytes>, taken: Bytes)

  datatype Client = Client(phase: Phase, chunksSent: nat, source: Source, metrics: Metrics, heard: Heard)

  // ---- the callbacks ----

  function Stop(s: Client, ok: bool): Client {
    if s.phase.Stopped? then s else s.(phase := Stopped(ok))
  }

  /** Take the next chunk; a reader at the end yields nothing and raises its flag. */
  function TakeChunk(c: Config, source: Source): Source {
    if source.chunksRead < |c.chunks| then
      Source(source.chunksRead + 1, source.chunksRead + 1 == |c.chunks| && c.shortTail, c.chunks[source.chunksRead])
    else
      Source(source.chunksRead, true, [])
  }

  function SendNext(c: Config, s: Client): Client {
    if s.phase.Stopped? then s
    else if s.chunksSent >= |c.chunks| || s.source.eof then Stop(s, true)
    else
      var source := TakeChunk(c, s.source);
      var t := s.(source := source);
      if source.current == [] && !source.eof then Stop(t, false)
      else if source.current == [] then Stop(t, true)
      else t.(phase := Sending(Frame(source.current)))
  }

  function Recorded(m: Metrics, size: nat, verified: bool): Metrics {
    Metrics(m.records + [Record(m.processed + 1, size, verified)], m.processed + 1, m.bytes + size,
            m.verified + (if verified then 1 else 0))
  }

  function HandleChunk(c: Config, s: Client, body: Bytes): Client {
    if s.phase.Stopped? then s
    else
      var verified := body == Reversed(s.source.current);
      var t := s.(metrics := Recorded(s.metrics, |s.source.current|, verified),
                  heard := s.heard.(answers := s.heard.answers + [body]));
      if !verified then Stop(t, false)
      else
        var u := t.(chunksSent := t.chunksSent + 1);
        if u.chunksSent >= |c.chunks| || u.source.eof then Stop(u, true) else SendNext(c, u)
  }

  /** How an operation ended: with what it asked for, at the end of the stream, or with another error. */
  datatype Outcome = Ok | AtEof | OtherError

  function OnWritten(s: Client, ec: Outcome): Client {
    if s.phase.Stopped? then s
    else if ec.Ok? then s.(phase := ReadingHeader([]))
    else Stop(s, false)
  }

  function OnHeader(c: Config, s: Client, ec: Outcome, header: Bytes): Client
    requires |header| == HEADER_SIZE
  {
    if s.phase.Stopped? then s
    else match ec
      case Ok =>
        var t := s.(heard := s.heard.(taken := s.heard.taken + header));
        var length := GetUint32(header);
        if length > 2 * c.chunkSize then Stop(t, false)
        else if length == 0 then HandleChunk(c, t, [])
        else t.(phase := ReadingBody(length, []))
      case AtEof => Stop(s, s.chunksSent >= |c.chunks|)
      case OtherError => Stop(s, false)
  }

  function OnBody(c: Config, s: Client, ec: Outcome, body: Bytes): Client {
    if s.phase.Stopped? then s
    else if ec.Ok? && s.phase.ReadingBody? && |body| == s.phase.need then
      HandleChunk(c, s.(heard := s.heard.(taken := s.heard.taken + body)), body)
    else Stop(s, false)
  }

  /** Before the connection is there. */
  function Unconnected(c: Config): Client {
    Client(Sending([]), 0, Source(0, |c.chunks| == 0, []), Metrics([], 0, 0, 0), Heard([], []))
  }

  function Start(c: Config): Client {
    SendNext(c, Unconnected(c))
  }

  // ---- what holds whatever the server sends ----

  /** While running, the chunk in hand is number `chunksSent` and the reader is one ahead. */
  ghost predicate InHand(c: Config, s: Client) {
    !s.phase.Stopped? ==>
      && s.chunksSent < |c.chunks|
      && s.source.chunksRead == s.chunksSent + 1
      && s.source.current == c.chunks[s.chunksSent]
      && (s.source.eof <==> s.source.chunksRead == |c.chunks| && c.shortTail)
  }

  /** Record `i` is about chunk `i`, is numbered `i + 1`, and says whether answer `i` was the exact reversal. */
  ghost predicate Books(c: Config, m: Metrics, answers: seq<Bytes>) {
    && m.processed == |m.records| == |answers| <= |c.chunks|
    && (forall i :: 0 <= i < |answers| ==>
          m.records[i] == Record(i + 1, |c.chunks[i]|, answers[i] == Reversed(c.chunks[i])))
    && m.bytes == TotalSize(c.chunks[..m.processed])
  }

  /** All answers but possibly the last were right; a wrong one stops the client with an error. */
  ghost predicate Progress(c: Config, s: Client) {
    && s.metrics.verified == s.chunksSent <= |c.chunks|
    && (forall i :: 0 <= i < s.chunksSent && i < |s.heard.answers| ==>
          s.heard.answers[i] == Reversed(c.chunks[i]))
    && (|s.heard.answers| == s.chunksSent ||
          (s.phase == Stopped(false) && |s.heard.answers| == s.chunksSent + 1 <= |c.chunks|
           && s.heard.answers[s.chunksSent] != Reversed(c.chunks[s.chunksSent])))
    && (s.phase == Stopped(true) ==> s.chunksSent == |c.chunks|)
  }

  /** The octets read are the frames of the answers, up to the frame in progress or given up. */
  ghost predicate Octets(s: Client) {
    && (s.phase.Sending? || s.phase.ReadingHeader? || s.phase == Stopped(true) ==>
          s.heard.taken == FrameAll(s.heard.answers))
    && (s.phase.ReadingBody? ==>
          0 < s.phase.need < TWO_TO_32 && s.heard.taken == FrameAll(s.heard.answers) + PutUint32(s.phase.need))
    && FrameAll(s.heard.answers) <= s.heard.taken
  }

  ghost predicate ClientInv(c: Config, s: Client) {
    && InHand(c, s)
    && Books(c, s.metrics, s.heard.answers)
    && Progress(c, s)
    && Octets(s)
  }

  lemma StartInv(c: Config)
    requires ValidConfig(c)
    ensures ClientInv(c, Start(c))
  {
    assert c.chunks[..0] == [];
  }

  /** Once stopped, every callback that still arrives changes nothing: stopping takes effect once. */
  lemma LateCallbacksChangeNothing(c: Config, s: Client, ec: Outcome, header: Bytes, body: Bytes, ok: bool)
    requires s.phase.Stopped? && |header| == HEADER_SIZE
    ensures OnWritten(s, ec) == OnHeader(c, s, ec, header) == OnBody(c, s, ec, body) == s
    ensures HandleChunk(c, s, body) == SendNext(c, s) == Stop(s, ok) == s
  {
  }

  lemma BooksStep(c: Config, m: Metrics, answers: seq<Bytes>, i: nat, body: Bytes)
    requires Books(c, m, answers) && i == |answers| < |c.chunks|
    ensures Books(c, Recorded(m, |c.chunks[i]|, body == Reversed(c.chunks[i])), answers + [body])
  {
    TotalSizeTake(c.chunks, i);
  }

  /** A handled body is booked; a right one leads to the next chunk or to a stop without error. */
  lemma HandleKeepsInv(c: Config, s: Client, body: Bytes)
    requires ValidConfig(c) && !s.phase.Stopped? && |body| < TWO_TO_32
    requires InHand(c, s) && Books(c, s.metrics, s.heard.answers) && Progress(c, s)
    requires s.heard.taken == FrameAll(s.heard.answers) + Frame(body)
    ensures ClientInv(c, HandleChunk(c, s, body))
  {
    BooksStep(c, s.metrics, s.heard.answers, s.chunksSent, body);
    FrameAllAppend(s.heard.answers, body);
    var t := HandleChunk(c, s, body);
    assert t.heard == Heard(s.heard.answers + [body], s.heard.taken);
  }

  lemma WrittenKeepsInv(c: Config, s: Client, ec: Outcome)
    requires ClientInv(c, s) && (s.phase.Stopped? || s.phase.Sending?)
    ensures ClientInv(c, OnWritten(s, ec))
  {
  }

  lemma HeaderKeepsInv(c: Config, s: Client, ec: Outcome, header: Bytes)
    requires ValidConfig(c) && ClientInv(c, s) && (s.phase.Stopped? || s.phase.ReadingHeader?)
    requires |header| == HEADER_SIZE
    ensures ClientInv(c, OnHeader(c, s, ec, header))
  {
    if !s.phase.Stopped? && ec.Ok? {
      PutAfterGet(header);
      var t := s.(heard := s.heard.(taken := s.heard.taken + header));
      if GetUint32(header) == 0 {
        assert Frame([]) == header;
        HandleKeepsInv(c, t, []);
      }
    }
  }

  /** Reading more octets alone changes nothing that is not about octets. */
  lemma TakenIsSeparate(c: Config, s: Client, taken: Bytes)
    requires InHand(c, s) && Progress(c, s)
    ensures var t := s.(heard := s.heard.(taken := taken)); InHand(c, t) && Progress(c, t)
  {
  }

  lemma WholeBodyKeepsInv(c: Config, s: Client, body: Bytes)
    requires ValidConfig(c) && ClientInv(c, s) && s.phase.ReadingBody? && |body| == s.phase.need
    ensures ClientInv(c, HandleChunk(c, s.(heard := s.heard.(taken := s.heard.taken + body)), body))
  {
    TakenIsSeparate(c, s, s.heard.taken + body);
    FrameComplete(FrameAll(s.heard.answers), s.phase.need, body);
    var t := s.(heard := s.heard.(taken := s.heard.taken + body));
    assert t.heard.answers == s.heard.answers && t.metrics == s.metrics && !t.phase.Stopped?;
    HandleKeepsInv(c, t, body);
  }

  lemma FrameComplete(before: Bytes, need: nat, body: Bytes)
    requires |body| == need < TWO_TO_32
    ensures before + PutUint32(need) + body == before + Frame(body)
  {
    ShortFrame(body);
    Associate(before, PutUint32(need), body);
  }

  lemma BodyKeepsInv(c: Config, s: Client, ec: Outcome, body: Bytes)
    requires ValidConfig(c) && ClientInv(c, s) && (s.phase.Stopped? || s.phase.ReadingBody?)
    ensures ClientInv(c, OnBody(c, s, ec, body))
  {
    if !s.phase.Stopped? && ec.Ok? && |body| == s.phase.need {
      WholeBodyKeepsInv(c, s, body);
    }
  }

  // ---- whole runs against an arbitrary server ----

  datatype Event =
    | Written(ec: Outcome)
    | HeaderRead(ec: Outcome, header: Bytes)
    | BodyRead(ec: Outcome, body: Bytes)

  /** A callback comes from the operation in progress, or late. */
  predicate Possible(s: Client, e: Event) {
    match e
    case Written(_) => s.phase.Stopped? || s.phase.Sending?
    case HeaderRead(_, header) => |header| == HEADER_SIZE && (s.phase.Stopped? || s.phase.ReadingHeader?)
    case BodyRead(_, _) => s.phase.Stopped? || s.phase.ReadingBody?
  }

  function React(c: Config, s: Client, e: Event): Client
    requires Possible(s, e)
  {
    match e
    case Written(ec) => OnWritten(s, ec)
    case HeaderRead(ec, header) => OnHeader(c, s, ec, header)
    case BodyRead(ec, body) => OnBody(c, s, ec, body)
  }

  predicate Plausible(c: Config, s: Client, events: seq<Event>)
    decreases |events|
  {
    events == [] || (Possible(s, events[0]) && Plausible(c, React(c, s, events[0]), events[1..]))
  }

  function ReactAll(c: Config, s: Client, events: seq<Event>): Client
    requires Plausible(c, s, events)
    decreases |events|
  {
    if events == [] then s else ReactAll(c, React(c, s, events[0]), events[1..])
  }

  lemma {:induction false} RunKeepsInv(c: Config, s: Client, events: seq<Event>)
    requires ValidConfig(c) && ClientInv(c, s) && Plausible(c, s, events)
    ensures ClientInv(c, ReactAll(c, s, events))
    decreases |events|
  {
    if events != [] {
      match events[0] {
        case Written(ec) => WrittenKeepsInv(c, s, ec);
        case HeaderRead(ec, header) => HeaderKeepsInv(c, s, ec, header);
        case BodyRead(ec, body) => BodyKeepsInv(c, s, ec, body);
      }
      RunKeepsInv(c, React(c, s, events[0]), events[1..]);
    }
  }

  /**
   * Against any server: a stop without error means that the octets read were exactly the frames of
   * the reversed chunks, all of them, in order. In every state the records are numbered from 1, add
   * up, and at most the last one is unverified, and then the client has stopped with an error.
   */
  lemma VerdictIsSound(c: Config, events: seq<Event>)
    requires ValidConfig(c) && Plausible(c, Start(c), events)
    ensures
      var s := ReactAll(c, Start(c), events);
      var m := s.metrics;
      && (s.phase == Stopped(true) ==>
            && s.chunksSent == m.processed == m.verified == |c.chunks|
            && m.bytes == TotalSize(c.chunks)
            && |s.heard.answers| == |c.chunks|
            && (forall i :: 0 <= i < |c.chunks| ==> s.heard.answers[i] == Reversed(c.chunks[i]))
            && s.heard.taken == FrameAll(s.heard.answers))
      && m.processed == |m.records| <= |c.chunks|
      && (forall i :: 0 <= i < |m.records| ==> m.records[i].index == i + 1 && m.records[i].size == |c.chunks[i]|)
      && m.bytes == TotalSize(c.chunks[..m.processed])
      && (forall i :: 0 <= i < |m.records| && !m.records[i].verified ==>
            i == |m.records| - 1 && s.phase == Stopped(false))
  {
    StartInv(c);
    RunKeepsInv(c, Start(c), events);
    assert c.chunks[..|c.chunks|] == c.chunks;
  }

  // ---- exactly how every callback moves the client ----

  /** What goes wrong for a running client: an operation that failed, an impossible length, or a wrong body. */
  predicate Fatal(c: Config, s: Client, e: Event)
    requires !s.phase.Stopped? && s.chunksSent < |c.chunks| && Possible(s, e)
  {
    match e
    case Written(ec) => !ec.Ok?
    case HeaderRead(ec, header) => !ec.Ok? || GetUint32(header) == 0 || GetUint32(header) > 2 * c.chunkSize
    case BodyRead(ec, body) =>
      !ec.Ok? || |body| != s.phase.need || body != Reversed(c.chunks[s.chunksSent])
  }

  /** Where a running client is after an event that is not fatal: the operations of one chunk follow one another. */
  function Onward(c: Config, s: Client, e: Event): Phase
    requires Possible(s, e)
  {
    match e
    case Written(_) => ReadingHeader([])
    case HeaderRead(_, header) => ReadingBody(GetUint32(header), [])
    case BodyRead(_, _) =>
      if s.chunksSent + 1 < |c.chunks| then Sending(Frame(c.chunks[s.chunksSent + 1])) else Stopped(true)
  }

  /** A whole body, or a header that announces an empty one, makes a record. */
  predicate MakesRecord(s: Client, e: Event)
    requires Possible(s, e)
  {
    match e
    case Written(_) => false
    case HeaderRead(ec, header) => ec.Ok? && GetUint32(header) == 0
    case BodyRead(ec, body) => ec.Ok? && s.phase.ReadingBody? && |body| == s.phase.need
  }

  /** One event: exactly the fatal ones stop the client with an error, the others move it on. */
  lemma ReactsExactly(c: Config, s: Client, e: Event)
    requires ValidConfig(c) && ClientInv(c, s) && !s.phase.Stopped? && Possible(s, e)
    ensures
      var t, i := React(c, s, e), s.chunksSent;
      && i < |c.chunks|
      && t.phase == (if Fatal(c, s, e) then Stopped(false) else Onward(c, s, e))
      && t.chunksSent == (if e.BodyRead? && !Fatal(c, s, e) then i + 1 else i)
      && t.metrics ==
          (if MakesRecord(s, e) then Recorded(s.metrics, |c.chunks[i]|, !Fatal(c, s, e)) else s.metrics)
  {
  }

  /** Some event was fatal to a client still running. */
  predicate Derailed(c: Config, s: Client, events: seq<Event>)
    requires Plausible(c, s, events)
    decreases |events|
  {
    && events != [] && !s.phase.Stopped? && s.chunksSent < |c.chunks|
    && (Fatal(c, s, events[0]) || Derailed(c, React(c, s, events[0]), events[1..]))
  }

  function OutcomeOf(e: Event): Outcome {
    match e
    case Written(ec) => ec
    case HeaderRead(ec, _) => ec
    case BodyRead(ec, _) => ec
  }

  predicate WentWell(c: Config, e: Event) {
    && OutcomeOf(e).Ok?
    && (e.HeaderRead? ==> |e.header| == HEADER_SIZE && 0 < GetUint32(e.header) <= 2 * c.chunkSize)
  }

  lemma {:induction false} StaysStopped(c: Config, s: Client, events: seq<Event>)
    requires s.phase.Stopped? && Plausible(c, s, events)
    ensures ReactAll(c, s, events) == s
    decreases |events|
  {
    if events != [] {
      StaysStopped(c, s, events[1..]);
    }
  }

  lemma {:induction false} DerailsExactlyWhen(c: Config, s: Client, events: seq<Event>)
    requires ValidConfig(c) && ClientInv(c, s) && Plausible(c, s, events) && !s.phase.Stopped?
    ensures ReactAll(c, s, events).phase == Stopped(false) <==> Derailed(c, s, events)
    ensures !ReactAll(c, s, events).phase.Stopped? ==>
      forall e :: e in events ==> WentWell(c, e)
    decreases |events|
  {
    if events != [] {
      var t, rest := React(c, s, events[0]), events[1..];
      ReactsExactly(c, s, events[0]);
      RunKeepsInv(c, s, [events[0]]);
      assert ReactAll(c, s, [events[0]]) == t;
      if t.phase.Stopped? {
        StaysStopped(c, t, rest);
      } else {
        DerailsExactlyWhen(c, t, rest);
        assert events == [events[0]] + rest;
      }
    }
  }

  /**
   * Whole runs from the start: the client has stopped with an error exactly if an event was fatal to
   * it while it ran, and a client still running has seen only good outcomes and possible lengths.
   */
  lemma ErrorsExactlyWhen(c: Config, events: seq<Event>)
    requires ValidConfig(c) && Plausible(c, Start(c), events)
    ensures ReactAll(c, Start(c), events).phase == Stopped(false) <==> Derailed(c, Start(c), events)
    ensures !ReactAll(c, Start(c), events).phase.Stopped? ==>
      forall e :: e in events ==> WentWell(c, e)
  {
    StartInv(c);
    if Start(c).phase.Stopped? {
      StaysStopped(c, Start(c), events);
    } else {
      DerailsExactlyWhen(c, Start(c), events);
    }
  }

  lemma FromReversals(chunks: seq<Bytes>, others: seq<Bytes>, answers: seq<Bytes>)
    requires |chunks| == |others| == |answers|
    requires forall i :: 0 <= i < |answers| ==> answers[i] == Reversed(chunks[i]) == Reversed(others[i])
    ensures chunks == others
  {
    forall i | 0 <= i < |chunks| ensures chunks[i] == others[i] {
      ReversedIsInjective(chunks[i], others[i]);
    }
  }

  /** The octets a client read before a stop without error determine the chunks it sent. */
  lemma OctetsDetermineChunks(c: Config, events: seq<Event>, d: Config, others: seq<Event>)
    requires ValidConfig(c) && Plausible(c, Start(c), events)
    requires ValidConfig(d) && Plausible(d, Start(d), others)
    requires ReactAll(c, Start(c), events).phase == ReactAll(d, Start(d), others).phase == Stopped(true)
    requires ReactAll(c, Start(c), events).heard.taken == ReactAll(d, Start(d), others).heard.taken
    ensures c.chunks == d.chunks
  {
    VerdictIsSound(c, events);
    VerdictIsSound(d, others);
    var heard, also := ReactAll(c, Start(c), events).heard, ReactAll(d, Start(d), others).heard;
    RoundTrip(heard.answers);
    RoundTrip(also.answers);
    FromReversals(c.chunks, d.chunks, heard.answers);
  }
}
