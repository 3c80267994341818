/** The gRPC service as a loop over its request stream. */
module GrpcServer {
  import opened Bytes
  import opened Pipeline
  import opened Reversal

  function EchoAll(requests: seq<Message>): (r: seq<Message>)
    ensures |r| == |requests|
    ensures forall i :: 0 <= i < |requests| ==> r[i] == Echo(requests[i])
  {
    seq(|requests|, i requires 0 <= i < |requests| => Echo(requests[i]))
  }

  /**
   * Reads until the client is done, answers each request with its own id and its reversed octets,
   * and fails at the first response that cannot be written; `room` of them can.
   */
  method ProcessFileChunks(requests: seq<Message>, room: nat) returns (responses: seq<Message>, ok: bool)
    ensures ok <==> |requests| <= room
    ensures responses == EchoAll(requests)[..if ok then |requests| else room]
  {
    responses := [];
    var processed := 0;
    while processed < |requests|
      invariant 0 <= processed <= |requests| && processed <= room
      invariant responses == EchoAll(requests)[..processed]
    {
      var request := requests[processed];
      var buffer := new byte[|request.data|];
      forall i | 0 <= i < buffer.Length {
        buffer[i] := request.data[i];
      }
      assert buffer[..] == request.data;
      ReverseBytesInPlace(buffer);
      if processed == room {
        return responses, false;
      }
      responses := responses + [Message(request.id, buffer[..])];
      processed := processed + 1;
    }
    ok := true;
  }

  // ---- the server inside the state machine ----

  /** The requests the server takes from the stream along a run, and the responses it puts on it. */
  function ReadAlong(c: Config, s: State, run: seq<Action>): seq<Message>
    requires Feasible(c, s, run)
    decreases |run|
  {
    if run == [] then []
    else (if run[0] == SRead(true) then [s.net.up[0]] else []) + ReadAlong(c, Apply(c, s, run[0]), run[1..])
  }

  function WrittenAlong(c: Config, s: State, run: seq<Action>): seq<Message>
    requires Feasible(c, s, run)
    decreases |run|
  {
    if run == [] then []
    else (if run[0] == SWrite(true) then [s.net.server.resp] else []) + WrittenAlong(c, Apply(c, s, run[0]), run[1..])
  }

  /** Responses to the request in the server's hands, and to those it will read. */
  function Owed(server: Server, requests: seq<Message>): seq<Message> {
    match server
    case WriteResponse(resp) => [resp] + EchoAll(requests)
    case ReadRequest => EchoAll(requests)
    case ServerDone(_) => []
  }

  lemma EchoNext(m: Message, requests: seq<Message>)
    ensures EchoAll([m] + requests) == [Echo(m)] + EchoAll(requests)
  {
    var a, b := EchoAll([m] + requests), [Echo(m)] + EchoAll(requests);
    assert |a| == |b|;
    forall i | 0 <= i < |a| ensures a[i] == b[i] {
      if i > 0 {
        assert ([m] + requests)[i] == requests[i - 1];
      }
    }
  }

  /** How many of the owed responses were not written, and when the server says so. */
  ghost predicate Short(server: Server, before: Server, missing: int) {
    match server
    case ReadRequest => missing == 0
    case WriteResponse(_) => missing == 1
    case ServerDone(ok) => before.ServerDone? || (if ok then missing == 0 else missing == 1)
  }

  /** What was written is what was owed, but for the last one at most. */
  ghost predicate Paid(before: Server, after: Server, requests: seq<Message>, responses: seq<Message>) {
    responses <= Owed(before, requests) && Short(after, before, |Owed(before, requests)| - |responses|)
  }

  lemma ReadingPays(m: Message, after: Server, requests: seq<Message>, responses: seq<Message>)
    requires Paid(WriteResponse(Echo(m)), after, requests, responses)
    ensures Paid(ReadRequest, after, [m] + requests, responses)
  {
    EchoNext(m, requests);
  }

  lemma WritingPays(resp: Message, after: Server, requests: seq<Message>, responses: seq<Message>)
    requires Paid(ReadRequest, after, requests, responses)
    ensures Paid(WriteResponse(resp), after, requests, [resp] + responses)
  {
    Prepend(resp, responses, EchoAll(requests));
  }

  lemma Prepend(m: Message, a: seq<Message>, b: seq<Message>)
    requires a <= b
    ensures [m] + a <= [m] + b
  {
  }

  /** From any state, along any run, the server pays what it owes. */
  lemma {:induction false} RunPays(c: Config, s: State, run: seq<Action>)
    requires c.world.Honest? && Feasible(c, s, run)
    ensures Paid(s.net.server, Exec(c, s, run).net.server, ReadAlong(c, s, run), WrittenAlong(c, s, run))
    decreases |run|
  {
    if run != [] {
      var a, t, rest := run[0], Apply(c, s, run[0]), run[1..];
      var after, requests, responses := Exec(c, t, rest).net.server, ReadAlong(c, t, rest), WrittenAlong(c, t, rest);
      RunPays(c, t, rest);
      if a == SRead(true) {
        ReadingPays(s.net.up[0], after, requests, responses);
      } else if a == SWrite(true) {
        WritingPays(s.net.server.resp, after, requests, responses);
      } else if a == SRead(false) || a == SWrite(false) {
        StopsForGood(c, t, rest);
      } else {
        assert t.net.server == s.net.server;
      }
      Unfolded(c, s, run);
    }
  }

  lemma Unfolded(c: Config, s: State, run: seq<Action>)
    requires run != [] && Feasible(c, s, run)
    ensures
      var more := ReadAlong(c, Apply(c, s, run[0]), run[1..]);
      ReadAlong(c, s, run) == (if run[0] == SRead(true) then [s.net.up[0]] + more else more)
    ensures
      var more := WrittenAlong(c, Apply(c, s, run[0]), run[1..]);
      WrittenAlong(c, s, run) == (if run[0] == SWrite(true) then [s.net.server.resp] + more else more)
  {
  }

  lemma {:induction false} StopsForGood(c: Config, s: State, run: seq<Action>)
    requires c.world.Honest? && Feasible(c, s, run) && s.net.server.ServerDone?
    ensures Exec(c, s, run).net.server == s.net.server
    ensures ReadAlong(c, s, run) == WrittenAlong(c, s, run) == []
    decreases |run|
  {
    if run != [] {
      StopsForGood(c, Apply(c, s, run[0]), run[1..]);
    }
  }

  /**
   * The service inside the state machine is the loop above: along any run, whatever the client does
   * and whenever the stream breaks, it has written what `ProcessFileChunks` returns for the requests
   * it has read when as many responses can be written, and it ends with that status.
   */
  lemma ServerIsTheLoop(c: Config, run: seq<Action>)
    requires c.world.Honest? && Feasible(c, Init(), run)
    ensures
      var requests, responses := ReadAlong(c, Init(), run), WrittenAlong(c, Init(), run);
      var server := Exec(c, Init(), run).net.server;
      && |responses| <= |requests| <= |responses| + 1
      && responses == EchoAll(requests)[..|responses|]
      && (server.ServerDone? ==> (server.ok <==> |requests| <= |responses|))
  {
    RunPays(c, Init(), run);
  }
}
