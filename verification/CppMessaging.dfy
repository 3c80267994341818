/** The C++ codec: `htonl`/`ntohl` and `memcpy` on a host of either byte order. */
module CppMessaging {
  import opened Bytes
  import opened Framing

  datatype Host = BigEndian | LittleEndian

  /** `memcpy` of a 32-bit number into four octets. */
  function Store(host: Host, n: uint32): (b: Bytes)
    ensures |b| == HEADER_SIZE
  {
    match host
    case BigEndian => PutUint32(n)
    case LittleEndian =>
      [(n % 256) as byte, (n / 256 % 256) as byte, (n / 0x1_0000 % 256) as byte, (n / 0x100_0000) as byte]
  }

  /** `memcpy` of four octets into a 32-bit number. */
  function Load(host: Host, b: Bytes): uint32
    requires |b| == HEADER_SIZE
  {
    match host
    case BigEndian => GetUint32(b)
    case LittleEndian => b[0] as int + b[1] as int * 256 + b[2] as int * 0x1_0000 + b[3] as int * 0x100_0000
  }

  function SwapOctets(n: uint32): uint32 {
    n % 256 * 0x100_0000 + n / 256 % 256 * 0x1_0000 + n / 0x1_0000 % 256 * 256 + n / 0x100_0000
  }

  function Htonl(host: Host, n: uint32): uint32 {
    match host
    case BigEndian => n
    case LittleEndian => SwapOctets(n)
  }

  /** `ntohl` is the same function as `htonl`. */
  function Ntohl(host: Host, n: uint32): uint32 {
    Htonl(host, n)
  }

  function ParseHeader(host: Host, header: Bytes): uint32
    requires |header| == HEADER_SIZE
  {
    Ntohl(host, Load(host, header))
  }

  /** The header written is the network header, on either host. */
  lemma StoredHeaderIsNetworkOrder(host: Host, n: uint32)
    ensures Store(host, Htonl(host, n)) == PutUint32(n)
  {
    if host.LittleEndian? {
      Spelled(n % 256, n / 256 % 256, n / 0x1_0000 % 256, n / 0x100_0000, SwapOctets(n));
    }
  }

  /** The header parsed is the network header, on either host. */
  lemma ParsedHeaderIsNetworkOrder(host: Host, header: Bytes)
    requires |header| == HEADER_SIZE
    ensures ParseHeader(host, header) == GetUint32(header)
  {
    if host.LittleEndian? {
      Spelled(header[3] as int, header[2] as int, header[1] as int, header[0] as int, Load(host, header));
    }
  }

  /** A writer on one host and a reader on another agree, in both directions: the two are mutual inverses. */
  lemma HeadersInteroperate(writer: Host, reader: Host, n: uint32, header: Bytes)
    requires |header| == HEADER_SIZE
    ensures ParseHeader(reader, Store(writer, Htonl(writer, n))) == n
    ensures Store(writer, Htonl(writer, ParseHeader(reader, header))) == header
  {
    StoredHeaderIsNetworkOrder(writer, n);
    ParsedHeaderIsNetworkOrder(reader, PutUint32(n));
    GetAfterPut(n);
    ParsedHeaderIsNetworkOrder(reader, header);
    StoredHeaderIsNetworkOrder(writer, GetUint32(header));
    PutAfterGet(header);
  }

  /** Scatter/gather buffers as they go on the wire. */
  function Gather(buffers: seq<Bytes>): Bytes {
    if buffers == [] then [] else buffers[0] + Gather(buffers[1..])
  }

  /**
   * What goes on the wire is what the Go side writes, whichever host this is; an empty payload has
   * no second buffer.
   */
  method PrepareMessage(host: Host, payload: Bytes, headerBuffer: array<byte>) returns (buffers: seq<Bytes>)
    requires headerBuffer.Length == HEADER_SIZE
    modifies headerBuffer
    ensures headerBuffer[..] == PutUint32(LengthField(payload))
    ensures Gather(buffers) == Frame(payload)
    ensures |buffers| == if payload == [] then 1 else 2
  {
    var sizeNet := Htonl(host, |payload| % TWO_TO_32);
    var octets := Store(host, sizeNet);
    StoredHeaderIsNetworkOrder(host, LengthField(payload));
    forall i | 0 <= i < HEADER_SIZE {
      headerBuffer[i] := octets[i];
    }
    assert headerBuffer[..] == octets;
    buffers := [octets];
    if payload != [] {
      buffers := buffers + [payload];
      assert buffers[1..] == [payload] && [payload][1..] == [];
      assert Gather([payload]) == payload;
    } else {
      assert buffers[1..] == [] && Frame(payload) == octets;
    }
  }
}
