/**
 * The C++ session on its own, fed any octets in any fragments: it writes what the Go server would,
 * up to the first message that is longer than it accepts.
 */
module TcpServer {
  import opened Bytes
  import opened Framing
  import opened GoMessaging
  import opened TcpClientModel
  import opened TcpLockStep

  /** The messages before the first one that is too long. */
  function Acceptable(c: Config, messages: seq<Bytes>): seq<Bytes> {
    if messages == [] || |messages[0]| > 2 * c.chunkSize then []
    else [messages[0]] + Acceptable(c, messages[1..])
  }

  /** What a session owes a client that sends these octets: the reversals of its acceptable messages. */
  function Due(c: Config, stream: Bytes): Bytes {
    FrameAll(ReversedAll(Acceptable(c, ReadAll(stream).0)))
  }

  /** What will still go out, with `up` still to come in. */
  function Future(c: Config, q: Session, up: Bytes): Bytes {
    match q
    case AwaitHeader(got) => Due(c, got + up)
    case AwaitBody(need, got) =>
      var body := got + up;
      if |body| < need then [] else Frame(Reversed(body[..need])) + Due(c, body[need..])
    case Replying(out) => out + Due(c, up)
    case Closed => []
  }

  /** What is read so far does not exceed what is awaited. */
  predicate Waiting(q: Session) {
    |ServerGot(q)| <= ServerWants(q)
  }

  lemma DueNothing(c: Config, stream: Bytes)
    requires ReadOne(stream).Failed?
    ensures Due(c, stream) == []
  {
    assert ReversedAll([]) == [];
  }

  lemma DueNext(c: Config, stream: Bytes)
    requires ReadOne(stream).Got?
    ensures
      var r := ReadOne(stream);
      Due(c, stream)
        == if |r.payload| > 2 * c.chunkSize then [] else Frame(Reversed(r.payload)) + Due(c, r.rest)
  {
    var r := ReadOne(stream);
    var all, others := ReadAll(stream).0, ReadAll(r.rest).0;
    assert all == [r.payload] + others && all[1..] == others;
    if |r.payload| > 2 * c.chunkSize {
      assert ReversedAll([]) == [];
    } else {
      var later := Acceptable(c, others);
      ReversedAllConcat([r.payload], later);
      assert ReversedAll([r.payload] + later)[1..] == ReversedAll(later);
    }
  }

  lemma ReadOneBy(header: Bytes, up: Bytes)
    requires |header| == HEADER_SIZE
    ensures
      var n := GetUint32(header);
      ReadOne(header + up) == if |up| < n then Failed(CutShort(up)) else Got(up[..n], up[n..])
  {
    Divided(header, up);
  }

  lemma EmptyIsAnswered(c: Config, header: Bytes, up: Bytes)
    requires |header| == HEADER_SIZE && GetUint32(header) == 0
    ensures Due(c, header + up) == Frame([]) + Due(c, up)
  {
    ReadOneBy(header, up);
    DueNext(c, header + up);
    assert up[..0] == [] && up[0..] == up && Reversed([]) == [];
  }

  /** A complete header leaves what is due unchanged: empty messages, acceptable ones and too long ones alike. */
  lemma HeaderKeepsFuture(c: Config, header: Bytes, up: Bytes)
    requires |header| == HEADER_SIZE
    ensures Future(c, SessionHeader(c, header), up) == Due(c, header + up)
    ensures Waiting(SessionHeader(c, header))
  {
    var n := GetUint32(header);
    ReadOneBy(header, up);
    if n == 0 {
      EmptyIsAnswered(c, header, up);
    } else if |up| < n {
      DueNothing(c, header + up);
    } else {
      DueNext(c, header + up);
    }
    assert [] + up == up;
  }

  lemma BodyKeepsFuture(c: Config, got: Bytes, up: Bytes)
    ensures Future(c, SessionBody(got), up) == Future(c, AwaitBody(|got|, got), up)
  {
    Divided(got, up);
  }

  lemma ReceivingKeepsFuture(c: Config, q: Session, up: Bytes, k: nat)
    requires q.AwaitHeader? || q.AwaitBody?
    requires k <= |up|
    ensures Future(c, q.(got := q.got + up[..k]), up[k..]) == Future(c, q, up)
  {
    assert (q.got + up[..k]) + up[k..] == q.got + up;
  }

  lemma SendingKeepsFuture(c: Config, out: Bytes, up: Bytes, down: Bytes, k: nat)
    requires k <= |out|
    ensures (down + out[..k]) + Future(c, Replying(out[k..]), up) == down + Future(c, Replying(out), up)
  {
    Shift(down, [], out + Due(c, up), 0);
    assert out[..k] + (out[k..] + Due(c, up)) == out + Due(c, up);
    Associate(down, out[..k], out[k..] + Due(c, up));
  }

  /** Every step of the session keeps what is out together with what will still go out. */
  lemma StepKeepsFuture(c: Config, s: System, step: Step)
    requires !IsClientStep(step) && Enabled(s, step) && Waiting(s.session)
    ensures
      var t := Next(c, s, step);
      && Waiting(t.session) && t.client == s.client
      && t.down + Future(c, t.session, t.up) == s.down + Future(c, s.session, s.up)
  {
    var q := s.session;
    match step
    case ServerReceives(k) => ReceivingKeepsFuture(c, q, s.up, k);
    case ServerHeader => HeaderKeepsFuture(c, q.got, s.up);
    case ServerBody => BodyKeepsFuture(c, q.got, s.up);
    case ServerSends(k) => SendingKeepsFuture(c, q.out, s.up, s.down, k);
    case ServerWritten => assert [] + Due(c, s.up) == Due(c, s.up) && [] + s.up == s.up;
  }

  predicate ServerOnly(run: seq<Step>) {
    forall step :: step in run ==> !IsClientStep(step)
  }

  lemma {:induction false} RunKeepsFuture(c: Config, s: System, run: seq<Step>)
    requires ServerOnly(run) && Feasible(c, s, run) && Waiting(s.session)
    ensures
      var t := Exec(c, s, run);
      Waiting(t.session) && t.down + Future(c, t.session, t.up) == s.down + Future(c, s.session, s.up)
    decreases |run|
  {
    if run != [] {
      StepKeepsFuture(c, s, run[0]);
      RunKeepsFuture(c, Next(c, s, run[0]), run[1..]);
    }
  }

  /** A session that has no step left owes nothing. */
  lemma NothingLeft(c: Config, s: System)
    requires Waiting(s.session)
    requires forall step :: !IsClientStep(step) ==> !Enabled(s, step)
    ensures Future(c, s.session, s.up) == []
  {
    var q := s.session;
    assert !Enabled(s, ServerReceives(1)) && !Enabled(s, ServerHeader) && !Enabled(s, ServerBody);
    assert !Enabled(s, ServerSends(1)) && !Enabled(s, ServerWritten);
    match q
    case AwaitHeader(got) =>
      assert got + s.up == got;
      DueNothing(c, got);
    case AwaitBody(need, got) => assert got + s.up == got;
    case Replying(out) => assert false;
    case Closed =>
  }

  /**
   * Fed any octets in any fragments, a session has at every point written a prefix of the reversed
   * frames of its acceptable messages, and exactly those when it can do no more.
   */
  lemma SessionAnswers(c: Config, client: Client, stream: Bytes, run: seq<Step>)
    requires ServerOnly(run) && Feasible(c, System(client, AwaitHeader([]), stream, []), run)
    ensures
      var t := Exec(c, System(client, AwaitHeader([]), stream, []), run);
      && t.down <= Due(c, stream)
      && ((forall step :: !IsClientStep(step) ==> !Enabled(t, step)) ==> t.down == Due(c, stream))
  {
    var s := System(client, AwaitHeader([]), stream, []);
    var t := Exec(c, s, run);
    assert [] + stream == stream && [] + Due(c, stream) == Due(c, stream);
    RunKeepsFuture(c, s, run);
    if forall step :: !IsClientStep(step) ==> !Enabled(t, step) {
      NothingLeft(c, t);
      assert t.down + [] == t.down;
    }
  }

  lemma {:induction false} AllAcceptable(c: Config, messages: seq<Bytes>)
    requires forall i :: 0 <= i < |messages| ==> |messages[i]| <= 2 * c.chunkSize
    ensures Acceptable(c, messages) == messages
  {
    if messages != [] {
      AllAcceptable(c, messages[1..]);
    }
  }

  /** Where no message is too long, the two servers answer the same octets alike. */
  lemma ServersAgree(c: Config, stream: Bytes)
    requires forall i :: 0 <= i < |ReadAll(stream).0| ==> |ReadAll(stream).0[i]| <= 2 * c.chunkSize
    ensures Due(c, stream) == Replies(stream)
  {
    AllAcceptable(c, ReadAll(stream).0);
  }
}
