/**
 * The pipelined gRPC client and its server as a state machine. Each action is one atomic step of the
 * writer thread, the reader thread, the server or the stream, in the order the code performs them.
 */
module Pipeline {
  import opened Bytes

  /** Where the writer files the entry: after `Write`, as the client does, or before it. */
  datatype InsertOrder = AfterWrite | BeforeWrite

  /** Who answers: the echo server over a FIFO stream, or an environment that may do anything to the stream. */
  datatype World = Honest | Arbitrary

  /** `chunks` is what the chunk reader yields, `expected` the size the client compares with at the end. */
  datatype Config = Config(
    chunks: seq<Bytes>,
    expected: nat,
    window: nat,
    order: InsertOrder,
    world: World)

  datatype Message = Message(id: int, data: Bytes)

  datatype Writer =
    | CheckWindow
    | Asleep                  // in cv_can_send.wait, the window was full
    | ReadChunk
    | InsertEntry(data: Bytes)
    | WriteRequest(data: Bytes)
    | CountSent(data: Bytes)
    | SetFinished
    | HalfClose
    | WriterDone

  datatype Reader =
    | ReadResponse
    | FindEntry(resp: Message)
    | NotifyWriter(entry: Message, resp: Message)
    | Account(entry: Message, resp: Message)
    | JoinWriter
    | CheckLeftovers
    | FinishCall
    | ReaderDone

  datatype Server =
    | ReadRequest
    | WriteResponse(resp: Message)
    | ServerDone(ok: bool)

  /** The writer thread's own variables and the flags and counters only it writes. */
  datatype WriterState = WriterState(
    pc: Writer,
    produced: nat,                // client_chunk_id_counter, also the number of chunks taken from the file
    sent: nat,                    // total_chunks_actually_sent_by_writer
    inserted: nat,                // entries put into the map so far
    finished: bool,               // writer_thread_finished_sending
    broken: bool)                 // writer_stream_broken

  /** The duplex stream and the server at its other end. */
  datatype Net = Net(
    up: seq<Message>,
    halfClosed: bool,
    down: seq<Message>,
    broken: bool,
    server: Server)

  datatype Tally = Tally(
    received: nat,                // received_responses_count, also the number of recorded RTTs
    verified: nat,                // total_bytes_verified_payload_by_reader
    payload: nat,                 // actual_payload_transferred_bytes_
    errors: nat)                  // length of the error list

  /** What the reader has seen so far. */
  datatype Seen = Seen(
    consumed: seq<Message>,       // responses returned by Read
    matched: set<int>,            // ids whose entry was found
    orphans: set<int>,            // ids whose response was looked up in vain
    verified: set<int>)           // ids whose response had the right content

  /** `success` stands for the message that everything was transferred and verified. */
  datatype ReaderState = ReaderState(pc: Reader, tally: Tally, seen: Seen, success: bool)

  datatype State = State(w: WriterState, r: ReaderState, inflight: map<int, Bytes>, net: Net)

  datatype Action =
    | WCheck
    | WSpurious                   // a spurious wake-up
    | WRead
    | WInsert
    | WWrite(ok: bool)
    | WCount
    | WFinish
    | WHalfClose
    | SRead(ok: bool)
    | SWrite(ok: bool)
    | RRead(ok: bool)
    | RFind
    | RNotify
    | RAccount
    | RJoin
    | RLeftovers
    | RFinish(ok: bool)
    | Break
    | Meddle(net: Net)

  ghost predicate ValidConfig(c: Config) {
    && c.window > 0
    && forall i :: 0 <= i < |c.chunks| ==> c.chunks[i] != []
  }

  function Init(): State {
    State(WriterState(CheckWindow, 0, 0, 0, false, false),
          ReaderState(ReadResponse, Tally(0, 0, 0, 0), Seen([], {}, {}, {}), false),
          map[],
          Net([], false, [], false, ReadRequest))
  }

  function Echo(m: Message): Message {
    Message(m.id, Reversed(m.data))
  }

  predicate Enabled(c: Config, s: State, a: Action) {
    match a
    case WCheck => s.w.pc.CheckWindow?
    case WSpurious => s.w.pc.Asleep?
    case WRead => s.w.pc.ReadChunk?
    case WInsert => s.w.pc.InsertEntry?
    case WWrite(ok) => s.w.pc.WriteRequest? && (ok || s.net.broken)
    case WCount => s.w.pc.CountSent?
    case WFinish => s.w.pc.SetFinished?
    case WHalfClose => s.w.pc.HalfClose?
    case SRead(ok) => c.world.Honest? && s.net.server.ReadRequest? &&
      (if ok then s.net.up != [] else s.net.broken || (s.net.up == [] && s.net.halfClosed))
    case SWrite(ok) => c.world.Honest? && s.net.server.WriteResponse? && (ok || s.net.broken)
    case RRead(ok) => s.r.pc.ReadResponse? &&
      (if ok then s.net.down != [] else s.net.broken || (s.net.down == [] && s.net.server.ServerDone?))
    case RFind => s.r.pc.FindEntry?
    case RNotify => s.r.pc.NotifyWriter?
    case RAccount => s.r.pc.Account?
    case RJoin => s.r.pc.JoinWriter? && s.w.pc.WriterDone?
    case RLeftovers => s.r.pc.CheckLeftovers?
    case RFinish(ok) => s.r.pc.FinishCall? && (s.net.broken || s.net.server == ServerDone(ok))
    case Break => !s.net.broken
    case Meddle(_) => c.world.Arbitrary?
  }

  function Apply(c: Config, s: State, a: Action): State
    requires Enabled(c, s, a)
  {
    match a
    case WCheck | WSpurious | WRead | WInsert | WWrite(_) | WCount | WFinish | WHalfClose =>
      WriterStep(c, s, a)
    case SRead(_) | SWrite(_) =>
      s.(net := ServerStep(s.net, a))
    case RRead(_) | RFind | RNotify | RAccount | RJoin | RLeftovers | RFinish(_) =>
      ReaderStep(c, s, a)
    case Break =>
      s.(net := s.net.(broken := true))
    case Meddle(net) =>
      s.(net := net)
  }

  predicate IsWriterAction(a: Action) {
    a.WCheck? || a.WSpurious? || a.WRead? || a.WInsert? || a.WWrite? || a.WCount? || a.WFinish? || a.WHalfClose?
  }

  predicate IsReaderAction(a: Action) {
    a.RRead? || a.RFind? || a.RNotify? || a.RAccount? || a.RJoin? || a.RLeftovers? || a.RFinish?
  }

  /** The writer lambda. The chunk just read travels in the program counter; its id is `produced`. */
  function WriterStep(c: Config, s: State, a: Action): State
    requires IsWriterAction(a) && Enabled(c, s, a)
  {
    var w := s.w;
    match a
    case WCheck =>
      s.(w := w.(pc := if |s.inflight| < c.window then ReadChunk else Asleep))
    case WSpurious =>
      s.(w := w.(pc := CheckWindow))
    case WRead =>
      if w.produced < |c.chunks| then
        var data := c.chunks[w.produced];
        var next := if c.order.AfterWrite? then WriteRequest(data) else InsertEntry(data);
        s.(w := w.(produced := w.produced + 1, pc := next))
      else
        s.(w := w.(pc := SetFinished))
    case WInsert =>
      var next := if c.order.AfterWrite? then CheckWindow else WriteRequest(w.pc.data);
      s.(inflight := s.inflight[w.produced := w.pc.data], w := w.(inserted := w.inserted + 1, pc := next))
    case WWrite(ok) =>
      if ok then
        s.(net := s.net.(up := s.net.up + [Message(w.produced, w.pc.data)]), w := w.(pc := CountSent(w.pc.data)))
      else
        s.(w := w.(broken := true, pc := SetFinished))
    case WCount =>
      var next := if c.order.AfterWrite? then InsertEntry(w.pc.data) else CheckWindow;
      s.(w := w.(sent := w.sent + 1, pc := next))
    case WFinish =>
      s.(w := w.(finished := true, pc := HalfClose))
    case WHalfClose =>
      s.(net := s.net.(halfClosed := s.net.halfClosed || !w.broken), w := w.(pc := WriterDone))
  }

  /** The echo service. */
  function ServerStep(n: Net, a: Action): Net
    requires (a.SRead? && (a.ok ==> n.up != [])) || (a.SWrite? && n.server.WriteResponse?)
  {
    match a
    case SRead(ok) =>
      if ok then n.(up := n.up[1..], server := WriteResponse(Echo(n.up[0])))
      else n.(server := ServerDone(true))
    case SWrite(ok) =>
      if ok then n.(down := n.down + [n.server.resp], server := ReadRequest)
      else n.(server := ServerDone(false))
  }

  /** Compare a response with the entry it answers and book the outcome. */
  function AccountFor(r: ReaderState): ReaderState
    requires r.pc.Account?
  {
    var entry, t := r.pc.entry, r.tally;
    if r.pc.resp.data == Reversed(entry.data) then
      r.(pc := ReadResponse,
         tally := Tally(t.received + 1, t.verified + |entry.data|, t.payload + |entry.data|, t.errors),
         seen := r.seen.(verified := r.seen.verified + {entry.id}))
    else
      r.(pc := ReadResponse,
         tally := Tally(t.received + 1, t.verified, t.payload + |entry.data|, t.errors + 1))
  }

  /** After the join: the last complaints and the verdict. */
  function Conclude(c: Config, r: ReaderState, w: WriterState, ok: bool): ReaderState {
    var clean := w.finished && !w.broken && ok;
    var complete := r.tally.verified == c.expected;
    var complaints := (if ok then 0 else 1) + (if clean && !complete then 1 else 0);
    r.(pc := ReaderDone, tally := r.tally.(errors := r.tally.errors + complaints), success := clean && complete)
  }

  /** The reader loop and everything after it. */
  function ReaderStep(c: Config, s: State, a: Action): State
    requires IsReaderAction(a) && Enabled(c, s, a)
  {
    var r := s.r;
    match a
    case RRead(ok) =>
      if ok then
        var resp := s.net.down[0];
        s.(net := s.net.(down := s.net.down[1..]),
           r := r.(pc := FindEntry(resp), seen := r.seen.(consumed := r.seen.consumed + [resp])))
      else
        s.(r := r.(pc := JoinWriter))
    case RFind =>
      var id := r.pc.resp.id;
      if id in s.inflight then
        s.(inflight := s.inflight - {id},
           r := r.(pc := NotifyWriter(Message(id, s.inflight[id]), r.pc.resp),
                   seen := r.seen.(matched := r.seen.matched + {id})))
      else
        s.(r := r.(pc := ReadResponse,
                   tally := r.tally.(errors := r.tally.errors + 1),
                   seen := r.seen.(orphans := r.seen.orphans + {id})))
    case RNotify =>
      s.(w := if s.w.pc.Asleep? then s.w.(pc := CheckWindow) else s.w,
         r := r.(pc := Account(r.pc.entry, r.pc.resp)))
    case RAccount =>
      s.(r := AccountFor(r))
    case RJoin =>
      s.(r := r.(pc := CheckLeftovers))
    case RLeftovers =>
      s.(r := r.(pc := FinishCall,
                 tally := if s.inflight != map[] then r.tally.(errors := r.tally.errors + 1) else r.tally))
    case RFinish(ok) =>
      s.(r := Conclude(c, r, s.w, ok))
  }

  predicate Feasible(c: Config, s: State, run: seq<Action>)
    decreases |run|
  {
    run == [] || (Enabled(c, s, run[0]) && Feasible(c, Apply(c, s, run[0]), run[1..]))
  }

  function Exec(c: Config, s: State, run: seq<Action>): State
    requires Feasible(c, s, run)
    decreases |run|
  {
    if run == [] then s else Exec(c, Apply(c, s, run[0]), run[1..])
  }

  ghost predicate Reachable(c: Config, s: State) {
    exists run :: Feasible(c, Init(), run) && Exec(c, Init(), run) == s
  }

  /** Runs compose. */
  lemma {:induction false} ExecConcat(c: Config, s: State, run: seq<Action>, more: seq<Action>)
    requires Feasible(c, s, run) && Feasible(c, Exec(c, s, run), more)
    ensures Feasible(c, s, run + more)
    ensures Exec(c, s, run + more) == Exec(c, Exec(c, s, run), more)
    decreases |run|
  {
    if run == [] {
      assert run + more == more;
    } else {
      assert (run + more)[1..] == run[1..] + more;
      ExecConcat(c, Apply(c, s, run[0]), run[1..], more);
    }
  }

  // ---- sums of chunk sizes over a set of ids ----

  /** Octets of the chunks whose ids are in `ids`, among the first `n`; chunk `i` of the list has id `i + 1`. */
  function SizeOf(chunks: seq<Bytes>, ids: set<int>, n: nat): nat
    requires n <= |chunks|
  {
    if n == 0 then 0
    else SizeOf(chunks, ids, n - 1) + (if n in ids then |chunks[n - 1]| else 0)
  }

  function SizeOfIds(c: Config, ids: set<int>): nat {
    SizeOf(c.chunks, ids, |c.chunks|)
  }

  lemma {:induction false} SizeOfAdd(chunks: seq<Bytes>, ids: set<int>, id: int, n: nat)
    requires n <= |chunks| && 1 <= id <= |chunks| && id !in ids
    ensures SizeOf(chunks, ids + {id}, n) == SizeOf(chunks, ids, n) + (if id <= n then |chunks[id - 1]| else 0)
  {
    if n > 0 {
      SizeOfAdd(chunks, ids, id, n - 1);
    }
  }

  lemma {:induction false} SizeOfDisjoint(chunks: seq<Bytes>, a: set<int>, b: set<int>, n: nat)
    requires n <= |chunks| && a !! b
    ensures SizeOf(chunks, a + b, n) == SizeOf(chunks, a, n) + SizeOf(chunks, b, n)
  {
    if n > 0 {
      SizeOfDisjoint(chunks, a, b, n - 1);
    }
  }

  /** The ids of the first `n` chunks. */
  function Ids(n: nat): (ids: set<int>)
    ensures forall i :: i in ids <==> 1 <= i <= n
    ensures |ids| == n
  {
    if n == 0 then {} else Ids(n - 1) + {n}
  }
}
