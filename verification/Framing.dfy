/**
 * The wire format shared by the Go and the C++ TCP benchmarks: a four-octet length in network byte
 * order (RFC 791, appendix B), then the payload.
 */
module Framing {
  import opened Bytes
  import opened Io

  const HEADER_SIZE: nat := 4
  const TWO_TO_32: nat := 0x1_0000_0000

  type uint32 = n: int | 0 <= n < TWO_TO_32

  // ---- the header ----

  /** Most significant octet first. */
  function PutUint32(n: uint32): (h: Bytes)
    ensures |h| == HEADER_SIZE
  {
    [(n / 0x100_0000) as byte, (n / 0x1_0000 % 256) as byte, (n / 256 % 256) as byte, (n % 256) as byte]
  }

  function GetUint32(h: Bytes): uint32
    requires |h| == HEADER_SIZE
  {
    h[0] as int * 0x100_0000 + h[1] as int * 0x1_0000 + h[2] as int * 256 + h[3] as int
  }

  lemma Octets(n: uint32)
    ensures n == n / 0x100_0000 * 0x100_0000 + n / 0x1_0000 % 256 * 0x1_0000 + n / 256 % 256 * 256 + n % 256
  {
    assert n == n / 256 * 256 + n % 256;
    assert n / 256 == n / 0x1_0000 * 256 + n / 256 % 256;
    assert n / 0x1_0000 == n / 0x100_0000 * 256 + n / 0x1_0000 % 256;
  }

  lemma GetAfterPut(n: uint32)
    ensures GetUint32(PutUint32(n)) == n
  {
    Octets(n);
  }

  /** Four octets are recovered from the number they spell. */
  lemma Spelled(a: int, b: int, c: int, d: int, n: int)
    requires 0 <= a < 256 && 0 <= b < 256 && 0 <= c < 256 && 0 <= d < 256
    requires n == a * 0x100_0000 + b * 0x1_0000 + c * 256 + d
    ensures 0 <= n < TWO_TO_32
    ensures n / 0x100_0000 == a && n / 0x1_0000 % 256 == b && n / 256 % 256 == c && n % 256 == d
  {
    assert n / 256 == a * 0x1_0000 + b * 256 + c;
    assert n / 0x1_0000 == a * 256 + b;
  }

  lemma PutAfterGet(h: Bytes)
    requires |h| == HEADER_SIZE
    ensures PutUint32(GetUint32(h)) == h
  {
    Spelled(h[0] as int, h[1] as int, h[2] as int, h[3] as int, GetUint32(h));
  }

  /** `uint32(len(payload))` keeps the low 32 bits of the length. */
  function LengthField(payload: Bytes): uint32 {
    |payload| % TWO_TO_32
  }

  function Frame(payload: Bytes): Bytes {
    PutUint32(LengthField(payload)) + payload
  }

  lemma ShortFrame(payload: Bytes)
    requires |payload| < TWO_TO_32
    ensures Frame(payload) == PutUint32(|payload|) + payload
  {
    assert LengthField(payload) == |payload|;
  }

  /** The length on the wire is the length of the payload exactly below 2^32. */
  lemma LengthSurvives(payload: Bytes)
    ensures GetUint32(Frame(payload)[..HEADER_SIZE]) == |payload| <==> |payload| < TWO_TO_32
  {
    Divided(PutUint32(LengthField(payload)), payload);
    GetAfterPut(LengthField(payload));
  }

  lemma Divided(a: Bytes, b: Bytes)
    ensures (a + b)[..|a|] == a && (a + b)[|a|..] == b
  {
  }

  // ---- reading from a stream that ends ----

  /** What remains to be said when a read of some octets finds only `got` before the end. */
  function CutShort(got: Bytes): IoError {
    if got == [] then EOF else UnexpectedEOF
  }

  datatype ReadResult = Got(payload: Bytes, rest: Bytes) | Failed(err: IoError)

  lemma FrameAtFront(stream: Bytes, n: nat)
    requires HEADER_SIZE + n <= |stream| && GetUint32(stream[..HEADER_SIZE]) == n
    ensures Frame(stream[HEADER_SIZE..][..n]) + stream[HEADER_SIZE..][n..] == stream
  {
    var header, payload, rest := stream[..HEADER_SIZE], stream[HEADER_SIZE..][..n], stream[HEADER_SIZE..][n..];
    PutAfterGet(header);
    assert |payload| == n && LengthField(payload) == n;
    assert Frame(payload) == header + payload;
    assert stream == header + (payload + rest);
    Associate(header, payload, rest);
  }

  /** One `ReadMessage` on a stream of which `stream` is still to come. */
  function ReadOne(stream: Bytes): (r: ReadResult)
    ensures r.Got? ==> |r.payload| < TWO_TO_32 && Frame(r.payload) + r.rest == stream
    ensures r.Failed? ==> r.err == EOF || r.err == UnexpectedEOF
  {
    if |stream| < HEADER_SIZE then Failed(CutShort(stream))
    else
      var n := GetUint32(stream[..HEADER_SIZE]);
      var body := stream[HEADER_SIZE..];
      if |body| < n then Failed(CutShort(body))
      else
        FrameAtFront(stream, n);
        Got(body[..n], body[n..])
  }

  /** `ReadMessage` until it fails. */
  function ReadAll(stream: Bytes): (r: (seq<Bytes>, IoError))
    decreases |stream|
  {
    match ReadOne(stream)
    case Failed(err) => ([], err)
    case Got(payload, rest) =>
      assert |stream| == |Frame(payload)| + |rest|;
      var later := ReadAll(rest);
      ([payload] + later.0, later.1)
  }

  function FrameAll(messages: seq<Bytes>): Bytes {
    if messages == [] then [] else Frame(messages[0]) + FrameAll(messages[1..])
  }

  ghost predicate Framable(messages: seq<Bytes>) {
    forall i :: 0 <= i < |messages| ==> |messages[i]| < TWO_TO_32
  }

  lemma ReadOneFrame(payload: Bytes, rest: Bytes)
    requires |payload| < TWO_TO_32
    ensures ReadOne(Frame(payload) + rest) == Got(payload, rest)
  {
    var header := PutUint32(|payload|);
    assert Frame(payload) + rest == header + (payload + rest) by {
      Associate(header, payload, rest);
    }
    Divided(header, payload + rest);
    Divided(payload, rest);
    GetAfterPut(|payload|);
    ReadOneParts(Frame(payload) + rest, payload, rest);
  }

  lemma ReadOneParts(stream: Bytes, payload: Bytes, rest: Bytes)
    requires |stream| == HEADER_SIZE + |payload| + |rest|
    requires GetUint32(stream[..HEADER_SIZE]) == |payload|
    requires stream[HEADER_SIZE..][..|payload|] == payload && stream[HEADER_SIZE..][|payload|..] == rest
    ensures ReadOne(stream) == Got(payload, rest)
  {
  }

  /** A frame cut after `k` octets: a bare end of file before it and right after its header, else an unexpected one. */
  lemma ReadOneCut(payload: Bytes, k: nat)
    requires |payload| < TWO_TO_32 && k < |Frame(payload)|
    ensures ReadOne(Frame(payload)[..k]) == Failed(if k == 0 || k == HEADER_SIZE then EOF else UnexpectedEOF)
  {
    var stream := Frame(payload)[..k];
    if k >= HEADER_SIZE {
      CutInBody(payload, k);
      GetAfterPut(|payload|);
      assert ReadOne(stream) == Failed(CutShort(payload[..k - HEADER_SIZE]));
    } else {
      assert ReadOne(stream) == Failed(CutShort(stream));
    }
  }

  lemma CutInBody(payload: Bytes, k: nat)
    requires |payload| < TWO_TO_32 && HEADER_SIZE <= k < |Frame(payload)|
    ensures Frame(payload)[..k][..HEADER_SIZE] == PutUint32(|payload|)
    ensures Frame(payload)[..k][HEADER_SIZE..] == payload[..k - HEADER_SIZE]
  {
    CutBehind(PutUint32(|payload|), payload, k);
  }

  lemma CutBehind(a: Bytes, b: Bytes, k: nat)
    requires |a| <= k <= |a + b|
    ensures (a + b)[..k][..|a|] == a && (a + b)[..k][|a|..] == b[..k - |a|]
  {
  }

  lemma ReadAllFrame(payload: Bytes, rest: Bytes)
    requires |payload| < TWO_TO_32
    ensures ReadAll(Frame(payload) + rest) == ([payload] + ReadAll(rest).0, ReadAll(rest).1)
  {
    ReadOneFrame(payload, rest);
  }

  /** Frames wholly inside the first `k` octets. */
  function WholeFrames(messages: seq<Bytes>, k: nat): (j: nat)
    ensures j <= |messages|
  {
    if messages == [] || k < |Frame(messages[0])| then 0
    else 1 + WholeFrames(messages[1..], k - |Frame(messages[0])|)
  }

  /** Octets of the first `k` that belong to the frame the cut goes through. */
  function CutOffset(messages: seq<Bytes>, k: nat): nat {
    if messages == [] || k < |Frame(messages[0])| then k
    else CutOffset(messages[1..], k - |Frame(messages[0])|)
  }

  /** The messages before the cut, and how the cut is reported: bare at a message boundary or right after a header. */
  function Truncated(messages: seq<Bytes>, k: nat): (seq<Bytes>, IoError) {
    var off := CutOffset(messages, k);
    (messages[..WholeFrames(messages, k)], if off == 0 || off == HEADER_SIZE then EOF else UnexpectedEOF)
  }

  lemma TruncatedStep(messages: seq<Bytes>, k: nat)
    requires messages != [] && k >= |Frame(messages[0])|
    ensures
      var later := Truncated(messages[1..], k - |Frame(messages[0])|);
      Truncated(messages, k) == ([messages[0]] + later.0, later.1)
  {
    var j := WholeFrames(messages[1..], k - |Frame(messages[0])|);
    assert messages[..1 + j] == [messages[0]] + messages[1..][..j];
  }

  /**
   * Round trip with truncation. Reading what is left of the concatenated frames after `k` octets
   * returns exactly the messages that fit, in order, and tells the two kinds of cut apart.
   */
  lemma {:induction false} ReadTruncated(messages: seq<Bytes>, k: nat)
    requires Framable(messages) && k <= |FrameAll(messages)|
    ensures ReadAll(FrameAll(messages)[..k]) == Truncated(messages, k)
    decreases |messages|
  {
    if messages != [] {
      var first, others := Frame(messages[0]), FrameAll(messages[1..]);
      if k < |first| {
        assert FrameAll(messages)[..k] == first[..k];
        ReadOneCut(messages[0], k);
      } else {
        assert FrameAll(messages)[..k] == first + others[..k - |first|];
        ReadAllFrame(messages[0], others[..k - |first|]);
        ReadTruncated(messages[1..], k - |first|);
        TruncatedStep(messages, k);
      }
    }
  }

  lemma {:induction false} NothingCut(messages: seq<Bytes>)
    ensures WholeFrames(messages, |FrameAll(messages)|) == |messages|
    ensures CutOffset(messages, |FrameAll(messages)|) == 0
  {
    if messages != [] {
      var first, others := Frame(messages[0]), FrameAll(messages[1..]);
      var k := |FrameAll(messages)|;
      assert k - |first| == |others|;
      NothingCut(messages[1..]);
      assert WholeFrames(messages, k) == 1 + WholeFrames(messages[1..], |others|);
    }
  }

  /** Nothing is lost when nothing is cut. */
  lemma RoundTrip(messages: seq<Bytes>)
    requires Framable(messages)
    ensures ReadAll(FrameAll(messages)) == (messages, EOF)
  {
    ReadTruncated(messages, |FrameAll(messages)|);
    NothingCut(messages);
    assert FrameAll(messages)[..|FrameAll(messages)|] == FrameAll(messages);
    assert messages[..|messages|] == messages;
  }

  /** The other way round: whatever the octets, writing the messages read again gives back what they were read from. */
  lemma {:induction false} Rewritten(stream: Bytes)
    ensures Framable(ReadAll(stream).0)
    ensures FrameAll(ReadAll(stream).0) <= stream
    decreases |stream|
  {
    var r := ReadOne(stream);
    if r.Got? {
      assert |stream| == |Frame(r.payload)| + |r.rest|;
      Rewritten(r.rest);
      var later := ReadAll(r.rest).0;
      assert ReadAll(stream).0[1..] == later;
    }
  }

  lemma {:induction false} FrameAllAppend(messages: seq<Bytes>, last: Bytes)
    ensures FrameAll(messages + [last]) == FrameAll(messages) + Frame(last)
  {
    if messages == [] {
      assert FrameAll([last]) == Frame(last) + FrameAll([last][1..]);
    } else {
      assert (messages + [last])[1..] == messages[1..] + [last];
      FrameAllAppend(messages[1..], last);
    }
  }
}
