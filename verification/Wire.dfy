/**
 The peer wire format: 32-bit big-endian integers, length-prefixed messages and
 the stream of frames a socket delivers.

 A `uint32_t` is an integer below 2^32: masking with 0xFF and shifting by 8 are
 remainder and quotient by 256, and or-ing disjoint bytes adds them.
 */
module Wire {
  import opened Octets
  import opened Options
  import opened Sequences

  const UINT32_MAX: int := 0xFFFF_FFFF

  // ----- Integers -----

  predicate IsUint32(n: int) {
    0 <= n <= UINT32_MAX
  }

  /** The value of four big-endian bytes. */
  function Number(b: seq<Octet>): (n: nat)
    requires |b| == 4
    ensures IsUint32(n)
  {
    0x100_0000 * b[0] as int + 0x1_0000 * b[1] as int + 0x100 * b[2] as int + b[3]
  }

  function BigEndian(n: nat): (b: seq<Octet>)
    ensures |b| == 4
  {
    [n / 0x100_0000 % 256, n / 0x1_0000 % 256, n / 0x100 % 256, n % 256]
  }

  lemma {:induction false} Shift8(q: int, r: int)
    requires 0 <= q && 0 <= r < 256
    ensures (256 * q + r) / 256 == q && (256 * q + r) % 256 == r
  {
  }

  lemma {:induction false} ShiftTwice(n: int)
    requires 0 <= n
    ensures n / 0x1_0000 == n / 256 / 256 && n / 0x100_0000 == n / 256 / 256 / 256
  {
  }

  lemma {:induction false} SplitDigits(n: int)
    requires IsUint32(n)
    ensures 0x100_0000 * (n / 0x100_0000 % 256) + 0x1_0000 * (n / 0x1_0000 % 256) + 0x100 * (n / 0x100 % 256) +
            n % 256 == n
  {
    ShiftTwice(n);
    var q1 := n / 256;
    var q2 := q1 / 256;
    var q3 := q2 / 256;
    assert n == 256 * q1 + n % 256 && q1 == 256 * q2 + q1 % 256 && q2 == 256 * q3 + q2 % 256;
    assert q3 < 256 && q3 % 256 == q3;
  }

  lemma {:induction false} JoinDigits(b0: int, b1: int, b2: int, b3: int)
    requires 0 <= b0 < 256 && 0 <= b1 < 256 && 0 <= b2 < 256 && 0 <= b3 < 256
    ensures var n := 0x100_0000 * b0 + 0x1_0000 * b1 + 0x100 * b2 + b3;
      n / 0x100_0000 % 256 == b0 && n / 0x1_0000 % 256 == b1 && n / 0x100 % 256 == b2 && n % 256 == b3
  {
    var q2 := 256 * b0 + b1;
    var q1 := 256 * q2 + b2;
    var n := 256 * q1 + b3;
    ShiftTwice(n);
    Shift8(q1, b3);
    Shift8(q2, b2);
    Shift8(b0, b1);
    assert n == 0x100_0000 * b0 + 0x1_0000 * b1 + 0x100 * b2 + b3;
  }

  lemma {:induction false} NumberOfBytes(n: int)
    requires IsUint32(n)
    ensures Number(BigEndian(n)) == n
  {
    SplitDigits(n);
  }

  lemma {:induction false} BytesOfNumber(b: seq<Octet>)
    requires |b| == 4
    ensures BigEndian(Number(b)) == b
  {
    JoinDigits(b[0], b[1], b[2], b[3]);
  }

  /** `encode_integer`: fills a four-byte array from the right; throws outside 32 bits. */
  method EncodeInteger(n: int) returns (r: Option<seq<Octet>>)
    ensures r.Some? <==> IsUint32(n)
    ensures r.Some? ==> r.value == BigEndian(n) && Number(r.value) == n
  {
    if n < 0 || n > UINT32_MAX {
      return None;
    }
    var encodeMe: nat := n;
    var result := new Octet[4];
    var i := 3;
    while i >= 0
      invariant -1 <= i <= 3
      invariant encodeMe == Shifted(n, 3 - i)
      invariant forall k | i < k < 4 :: result[k] == BigEndian(n)[k]
    {
      result[i] := encodeMe % 256;
      encodeMe := encodeMe / 256;
      i := i - 1;
    }
    NumberOfBytes(n);
    assert result[..] == BigEndian(n);
    return Some(result[..]);
  }

  /** `n` shifted right by `k` bytes. */
  function Shifted(n: nat, k: nat): nat {
    if k == 0 then n
    else if k == 1 then n / 0x100
    else if k == 2 then n / 0x1_0000
    else if k == 3 then n / 0x100_0000
    else n / 0x1_0000_0000
  }

  /** `decode_integer`: adds in one byte at a time from the left. */
  method DecodeInteger(buf: seq<Octet>) returns (n: int)
    requires |buf| == 4
    ensures n == Number(buf)
  {
    n := 0;
    var weights: seq<int> := [0x100_0000, 0x1_0000, 0x100, 1];
    for i := 0 to 4
      invariant n == (if i > 0 then 0x100_0000 * buf[0] as int else 0) +
                     (if i > 1 then 0x1_0000 * buf[1] as int else 0) +
                     (if i > 2 then 0x100 * buf[2] as int else 0) + (if i > 3 then buf[3] else 0)
    {
      n := n + buf[i] as int * weights[i];
    }
  }

  // ----- Messages -----

  datatype Message =
    | KeepAlive
    | Choke
    | Unchoke
    | Interested
    | NotInterested
    | Have(index: int)
    | BitfieldMessage(bytes: seq<Octet>, len: int)
    | Request(index: int, begin: int, length: int)
    | PieceMessage(index: int, begin: int, block: seq<Octet>)

  datatype DecodeError = UnexpectedPayload | InvalidHeader | UnknownMessageID | InvalidPayloadLength

  datatype Decoded = Ok(message: Message) | Err(error: DecodeError)

  function MessageId(m: Message): Octet
    requires !m.KeepAlive?
  {
    match m
    case Choke => 0
    case Unchoke => 1
    case Interested => 2
    case NotInterested => 3
    case Have(_) => 4
    case BitfieldMessage(_, _) => 5
    case Request(_, _, _) => 6
    case PieceMessage(_, _, _) => 7
  }

  /** The integers of a message that go on the wire fit in 32 bits. */
  predicate FieldsFit(m: Message) {
    match m
    case Have(index) => IsUint32(index)
    case Request(index, begin, length) => IsUint32(index) && IsUint32(begin) && IsUint32(length)
    case PieceMessage(index, begin, _) => IsUint32(index) && IsUint32(begin)
    case _ => true
  }

  function EncodePayload(m: Message): seq<Octet>
    requires FieldsFit(m)
  {
    match m
    case Have(index) => BigEndian(index)
    case BitfieldMessage(bytes, _) => bytes
    case Request(index, begin, length) => BigEndian(index) + BigEndian(begin) + BigEndian(length)
    case PieceMessage(index, begin, block) => BigEndian(index) + BigEndian(begin) + block
    case _ => []
  }

  /** Neither a field nor the frame length makes `encode` throw. */
  predicate Encodable(m: Message) {
    FieldsFit(m) && IsUint32(1 + |EncodePayload(m)|)
  }

  function Encode(m: Message): (b: seq<Octet>)
    requires Encodable(m)
    ensures |b| >= 4
  {
    if m.KeepAlive? then [0, 0, 0, 0]
    else BigEndian(1 + |EncodePayload(m)|) + ([MessageId(m)] + EncodePayload(m))
  }

  function DecodePayload(piecesCount: int, id: Octet, payload: seq<Octet>): Decoded {
    if id == 0 then Ok(Choke)
    else if id == 1 then Ok(Unchoke)
    else if id == 2 then Ok(Interested)
    else if id == 3 then Ok(NotInterested)
    else if id == 4 then
      if |payload| != 4 then Err(InvalidPayloadLength) else Ok(Have(Number(payload)))
    else if id == 5 then Ok(BitfieldMessage(payload, piecesCount))
    else if id == 6 then
      if |payload| != 12 then Err(InvalidPayloadLength)
      else Ok(Request(Number(payload[..4]), Number(payload[4..8]), Number(payload[8..12])))
    else if id == 7 then
      if |payload| < 8 then Err(InvalidPayloadLength)
      else Ok(PieceMessage(Number(payload[..4]), Number(payload[4..8]), payload[8..]))
    else Err(UnknownMessageID)
  }

  /** `Message::decode`. The length prefix is skipped, not checked, and ids below 4 ignore their payload. */
  function Decode(piecesCount: int, buf: seq<Octet>): Decoded {
    if buf == [0, 0, 0, 0] then Ok(KeepAlive)
    else if |buf| < 5 then Err(InvalidHeader)
    else DecodePayload(piecesCount, buf[4], buf[5..])
  }

  /** The high byte comes first: byte `i` counts 256 to the power of the bytes behind it. */
  lemma {:induction false} BytesInPlace()
    ensures Number([1, 0, 0, 0]) == 0x0100_0000 && Number([0, 1, 0, 0]) == 0x0001_0000
    ensures Number([0, 0, 1, 0]) == 0x0000_0100 && Number([0, 0, 0, 1]) == 0x0000_0001
    ensures BigEndian(0x0102_0304) == [1, 2, 3, 4] && Number([1, 2, 3, 4]) == 0x0102_0304
  {
  }

  /** The bytes of the messages without a payload. */
  lemma {:induction false} SimpleBytes()
    ensures Encode(KeepAlive) == [0, 0, 0, 0]
    ensures Encode(Choke) == [0, 0, 0, 1, 0] && Encode(Unchoke) == [0, 0, 0, 1, 1]
    ensures Encode(Interested) == [0, 0, 0, 1, 2] && Encode(NotInterested) == [0, 0, 0, 1, 3]
  {
    assert BigEndian(1) == [0, 0, 0, 1];
  }

  lemma {:induction false} HaveBytes(index: int)
    requires IsUint32(index)
    ensures Encode(Have(index)) == [0, 0, 0, 5, 4] + BigEndian(index)
  {
    assert BigEndian(5) == [0, 0, 0, 5];
  }

  lemma {:induction false} BitfieldBytes(bytes: seq<Octet>, len: int)
    requires IsUint32(1 + |bytes|)
    ensures Encode(BitfieldMessage(bytes, len)) == BigEndian(1 + |bytes|) + [5] + bytes
  {
  }

  lemma {:induction false} RequestParts(index: int, begin: int, length: int)
    requires IsUint32(index) && IsUint32(begin) && IsUint32(length)
    ensures Encode(Request(index, begin, length)) ==
            [0, 0, 0, 13, 6] + BigEndian(index) + BigEndian(begin) + BigEndian(length)
  {
    assert BigEndian(13) == [0, 0, 0, 13];
  }

  lemma {:induction false} PieceParts(index: int, begin: int, block: seq<Octet>)
    requires IsUint32(index) && IsUint32(begin) && IsUint32(9 + |block|)
    ensures Encode(PieceMessage(index, begin, block)) ==
            BigEndian(9 + |block|) + [7] + BigEndian(index) + BigEndian(begin) + block
  {
  }

  lemma {:induction false} RequestBytes()
    ensures Encode(Request(1, 2, 3)) == [0, 0, 0, 13, 6, 0, 0, 0, 1, 0, 0, 0, 2, 0, 0, 0, 3]
  {
    RequestParts(1, 2, 3);
    assert BigEndian(1) == [0, 0, 0, 1] && BigEndian(2) == [0, 0, 0, 2] && BigEndian(3) == [0, 0, 0, 3];
  }

  /** Which frames are refused, and how: too short, of an unknown kind, or of a size the kind does not have. */
  lemma {:induction false} RefusedExact(piecesCount: int, buf: seq<Octet>)
    ensures var d := Decode(piecesCount, buf);
      && (d == Err(InvalidHeader) <==> |buf| < 5 && buf != [0, 0, 0, 0])
      && (d == Err(UnknownMessageID) <==> |buf| >= 5 && buf[4] >= 8)
      && (d == Err(InvalidPayloadLength) <==>
           |buf| >= 5 && ((buf[4] == 4 && |buf| != 9) || (buf[4] == 6 && |buf| != 17) || (buf[4] == 7 && |buf| < 13)))
      && d != Err(UnexpectedPayload)
  {
  }

  lemma {:induction false} PayloadRoundTrip(piecesCount: int, m: Message)
    requires FieldsFit(m) && !m.KeepAlive?
    ensures DecodePayload(piecesCount, MessageId(m), EncodePayload(m)) ==
            Ok(if m.BitfieldMessage? then BitfieldMessage(m.bytes, piecesCount) else m)
  {
    match m
    case Have(index) => NumberOfBytes(index);
    case Request(index, begin, length) =>
      var p := EncodePayload(m);
      assert p[..4] == BigEndian(index) && p[4..8] == BigEndian(begin) && p[8..12] == BigEndian(length);
      NumberOfBytes(index);
      NumberOfBytes(begin);
      NumberOfBytes(length);
    case PieceMessage(index, begin, block) =>
      var p := EncodePayload(m);
      assert p[..4] == BigEndian(index) && p[4..8] == BigEndian(begin) && p[8..] == block;
      NumberOfBytes(index);
      NumberOfBytes(begin);
    case _ =>
  }

  /** Decoding inverts encoding, except that a bitfield comes back with the torrent's own piece count. */
  lemma {:induction false} MessageRoundTrip(piecesCount: int, m: Message)
    requires Encodable(m)
    ensures Decode(piecesCount, Encode(m)) == Ok(m) <==> (m.BitfieldMessage? ==> m.len == piecesCount)
  {
    if !m.KeepAlive? {
      var e := Encode(m);
      assert e[4] == MessageId(m) && e[5..] == EncodePayload(m);
      PayloadRoundTrip(piecesCount, m);
    }
  }

  lemma {:induction false} PayloadInverse(piecesCount: int, id: Octet, payload: seq<Octet>)
    ensures var d := DecodePayload(piecesCount, id, payload);
      d.Ok? ==>
        && !d.message.KeepAlive? && FieldsFit(d.message) && MessageId(d.message) == id
        && EncodePayload(d.message) == if id < 4 then [] else payload
  {
    if id == 4 && |payload| == 4 {
      BytesOfNumber(payload);
    } else if id == 6 && |payload| == 12 {
      BytesOfNumber(payload[..4]);
      BytesOfNumber(payload[4..8]);
      BytesOfNumber(payload[8..12]);
      assert payload == payload[..4] + payload[4..8] + payload[8..12];
    } else if id == 7 && |payload| >= 8 {
      BytesOfNumber(payload[..4]);
      BytesOfNumber(payload[4..8]);
      assert payload == payload[..4] + payload[4..8] + payload[8..];
    }
  }

  // ----- The stream -----

  datatype Received = Got(message: Message, rest: seq<Octet>) | Closed | Invalid(error: DecodeError)

  /** `recv_message`: four bytes of length, that many more bytes, then `decode`; the socket fails when bytes run out. */
  function Recv(piecesCount: int, stream: seq<Octet>): (r: Received)
    ensures r.Got? ==> |r.rest| + 4 <= |stream|
  {
    if |stream| < 4 then Closed
    else
      var n := Number(stream[..4]);
      if |stream| < 4 + n then Closed
      else
        match Decode(piecesCount, stream[..4 + n])
        case Ok(m) => Got(m, stream[4 + n..])
        case Err(e) => Invalid(e)
  }

  /** Reading messages until the socket or the format gives out. */
  function RecvAll(piecesCount: int, stream: seq<Octet>): (seq<Message>, Received)
    decreases |stream|
  {
    var r := Recv(piecesCount, stream);
    if r.Got? then
      var (more, end) := RecvAll(piecesCount, r.rest);
      ([r.message] + more, end)
    else ([], r)
  }

  /** Messages this torrent's peers can send: encodable, with bitfields of its piece count. */
  predicate Sendable(piecesCount: int, m: Message) {
    Encodable(m) && (m.BitfieldMessage? ==> m.len == piecesCount)
  }

  predicate AllSendable(piecesCount: int, ms: seq<Message>) {
    forall k | 0 <= k < |ms| :: Sendable(piecesCount, ms[k])
  }

  function EncodeAll(piecesCount: int, ms: seq<Message>): seq<Octet>
    requires AllSendable(piecesCount, ms)
  {
    if ms == [] then [] else Encode(ms[0]) + EncodeAll(piecesCount, ms[1..])
  }

  /** The frame of one message is read back whole, whatever follows it. */
  lemma {:induction false} RecvOne(piecesCount: int, m: Message, tail: seq<Octet>)
    requires Sendable(piecesCount, m)
    ensures Recv(piecesCount, Encode(m) + tail) == Got(m, tail)
  {
    var e := Encode(m);
    var stream := e + tail;
    FramePrefix(m);
    assert stream[..4] == e[..4];
    assert stream[..|e|] == e && stream[|e|..] == tail;
    MessageRoundTrip(piecesCount, m);
  }

  lemma {:induction false} FramePrefix(m: Message)
    requires Encodable(m)
    ensures Number(Encode(m)[..4]) == |Encode(m)| - 4
  {
    var e := Encode(m);
    if m.KeepAlive? {
      assert e[..4] == e;
    } else {
      var n := 1 + |EncodePayload(m)|;
      NumberOfBytes(n);
      assert e[..4] == BigEndian(n);
    }
  }

  /** Stream framing: the concatenated encodings read back as the same messages, then whatever the tail reads as. */
  lemma {:induction false} StreamRoundTrip(piecesCount: int, ms: seq<Message>, tail: seq<Octet>)
    requires AllSendable(piecesCount, ms)
    ensures RecvAll(piecesCount, EncodeAll(piecesCount, ms) + tail).0 == ms + RecvAll(piecesCount, tail).0
    ensures RecvAll(piecesCount, EncodeAll(piecesCount, ms) + tail).1 == RecvAll(piecesCount, tail).1
    decreases |ms|
  {
    var more := RecvAll(piecesCount, tail).0;
    if ms == [] {
      assert EncodeAll(piecesCount, ms) + tail == tail;
      assert ms + more == more;
    } else {
      var rest := EncodeAll(piecesCount, ms[1..]) + tail;
      StreamRoundTrip(piecesCount, ms[1..], tail);
      RecvAllOne(piecesCount, ms[0], rest);
      Associative(Encode(ms[0]), EncodeAll(piecesCount, ms[1..]), tail);
      HeadTail(ms, more);
    }
  }

  lemma {:induction false} RecvAllOne(piecesCount: int, m: Message, rest: seq<Octet>)
    requires Sendable(piecesCount, m)
    ensures RecvAll(piecesCount, Encode(m) + rest).0 == [m] + RecvAll(piecesCount, rest).0
    ensures RecvAll(piecesCount, Encode(m) + rest).1 == RecvAll(piecesCount, rest).1
  {
    RecvOne(piecesCount, m, rest);
  }

  lemma {:induction false} EncodeParts(m: Message, n: nat, id: Octet, payload: seq<Octet>)
    requires !m.KeepAlive? && FieldsFit(m) && MessageId(m) == id && EncodePayload(m) == payload
    requires n == 1 + |payload| && IsUint32(n)
    ensures Encodable(m) && Encode(m) == BigEndian(n) + ([id] + payload)
  {
  }

  lemma {:induction false} FrameParts(frame: seq<Octet>)
    requires |frame| >= 5 && Number(frame[..4]) == |frame| - 4
    ensures frame == BigEndian(|frame| - 4) + ([frame[4]] + frame[5..])
  {
    BytesOfNumber(frame[..4]);
  }

  /** A frame is the encoding of its message unless it is a simple message that carried a payload. */
  lemma {:induction false} FrameInverse(piecesCount: int, frame: seq<Octet>, m: Message)
    requires |frame| >= 4 && Number(frame[..4]) == |frame| - 4 && Decode(piecesCount, frame) == Ok(m)
    ensures Encodable(m)
    ensures Encode(m) == frame <==> !(|frame| > 5 && frame[4] < 4)
  {
    BytesOfNumber(frame[..4]);
    if |frame| > 4 {
      var id, payload := frame[4], frame[5..];
      PayloadInverse(piecesCount, id, payload);
      FrameParts(frame);
      EncodeParts(m, 1 + |EncodePayload(m)|, id, EncodePayload(m));
      if id < 4 && |frame| > 5 {
        assert |Encode(m)| == 5;
      }
    }
  }

  lemma {:induction false} CancelRest(a: seq<Octet>, b: seq<Octet>, rest: seq<Octet>)
    ensures a + rest == b + rest <==> a == b
  {
    if a + rest == b + rest {
      assert |a| == |b| && a == (a + rest)[..|a|] == (b + rest)[..|b|] == b;
    }
  }

  /** A received frame is the encoding of its message unless it is a simple message that carried a payload. */
  lemma {:induction false} RecvInverse(piecesCount: int, stream: seq<Octet>)
    requires Recv(piecesCount, stream).Got?
    ensures var r := Recv(piecesCount, stream);
      && Encodable(r.message)
      && (stream == Encode(r.message) + r.rest <==> !(Number(stream[..4]) > 1 && stream[4] < 4))
  {
    var r := Recv(piecesCount, stream);
    var frame := stream[..4 + Number(stream[..4])];
    assert stream == frame + r.rest && frame[..4] == stream[..4];
    FrameInverse(piecesCount, frame, r.message);
    CancelRest(Encode(r.message), frame, r.rest);
  }

  /** A Choke with one byte of payload is received as a Choke, whose encoding is shorter. */
  lemma {:induction false} ChokeWithPayload()
    ensures Recv(1, [0, 0, 0, 2, 0, 7]) == Got(Choke, [])
    ensures Encodable(Choke) && Encode(Choke) != [0, 0, 0, 2, 0, 7]
  {
    var stream: seq<Octet> := [0, 0, 0, 2, 0, 7];
    assert stream[..4] == [0, 0, 0, 2] && Number(stream[..4]) == 2;
    assert stream[4..] == [0, 7] && stream[4..][..2] == [0, 7] && stream[4..][2..] == [];
    assert stream[..6] == stream && stream[6..] == [];
    assert stream[5..] == [7];
    RecvInverse(1, stream);
  }

  /** The socket of a connection, as the bytes still to come. */
  class Connection {
    var incoming: seq<Octet>
    var open: bool

    constructor (incoming: seq<Octet>)
      ensures this.incoming == incoming && open
    {
      this.incoming := incoming;
      open := true;
    }

    /** A read of exactly `n` bytes; it fails when the peer sends fewer. */
    method Read(n: nat) returns (r: Option<seq<Octet>>)
      modifies this`incoming
      ensures r.Some? <==> n <= |old(incoming)|
      ensures r.Some? ==> r.value == old(incoming)[..n] && incoming == old(incoming)[n..]
      ensures r.None? ==> incoming == old(incoming)
    {
      if n > |incoming| {
        return None;
      }
      r := Some(incoming[..n]);
      incoming := incoming[n..];
    }

    method RecvMessage(piecesCount: int) returns (r: Received)
      requires open
      modifies this
      ensures r == Recv(piecesCount, old(incoming))
      ensures open <==> r.Got?
      ensures r.Got? ==> incoming == r.rest
    {
      var lengthBytes := Read(4);
      if lengthBytes.None? {
        open := false;
        return Closed;
      }
      var length := DecodeInteger(lengthBytes.value);
      var rest := Read(length);
      if rest.None? {
        open := false;
        return Closed;
      }
      var whole := lengthBytes.value + rest.value;
      assert whole == old(incoming)[..4 + length];
      var message := Decode(piecesCount, whole);
      if message.Err? {
        open := false;
        return Invalid(message.error);
      }
      return Got(message.message, incoming);
    }
  }
}
