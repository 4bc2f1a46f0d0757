/** The peer wire protocol: length-prefixed messages and the payloads that carry piece indices, offsets and blocks. */
module Wire {
  import opened Base

  const MAX_MESSAGE_LENGTH := 128 * 1024
  const MAX_REQUEST_LENGTH := 16 * 1024

  /** An int8; keep-alive is a sentinel that no byte on the wire stands for. */
  type MessageId = i: int | -128 <= i < 128

  const KEEP_ALIVE: MessageId := -1
  const CHOKE: MessageId := 0
  const UNCHOKE: MessageId := 1
  const INTERESTED: MessageId := 2
  const NOT_INTERESTED: MessageId := 3
  const HAVE: MessageId := 4
  const BITFIELD: MessageId := 5
  const REQUEST: MessageId := 6
  const PIECE: MessageId := 7

  datatype Message = Message(id: MessageId, payload: Bytes)

  datatype WireError = Truncated | TooLong

  // ----- 32-bit big-endian numbers -----

  const U32 := 0x1_0000_0000

  /** The low 32 bits of n, most significant byte first. */
  function ToBigEndian(n: nat): (b: Bytes)
    ensures |b| == 4
  {
    [n / 0x100_0000 % 256, n / 0x1_0000 % 256, n / 0x100 % 256, n % 256]
  }

  function FromBigEndian(b: Bytes): (n: nat)
    requires |b| == 4
    ensures n < U32
  {
    var b0: int, b1: int, b2: int, b3: int := b[0], b[1], b[2], b[3];
    b0 * 0x100_0000 + b1 * 0x1_0000 + b2 * 0x100 + b3
  }

  lemma {:induction false} NumberRoundTrip(n: nat)
    requires n < U32
    ensures FromBigEndian(ToBigEndian(n)) == n
  {
    var a, b, c := n / 0x100, n / 0x1_0000, n / 0x100_0000;
    assert b == a / 0x100 && c == b / 0x100;
    assert n == a * 0x100 + n % 256;
    assert a == b * 0x100 + a % 256;
    assert b == c * 0x100 + b % 256;
    assert c % 256 == c;
  }

  lemma {:induction false} BytesRoundTrip(b: Bytes)
    requires |b| == 4
    ensures ToBigEndian(FromBigEndian(b)) == b
  {
    var n := FromBigEndian(b);
    var b0: int, b1: int, b2: int := b[0], b[1], b[2];
    assert n / 0x100 == b0 * 0x1_0000 + b1 * 0x100 + b2;
    assert n / 0x1_0000 == b0 * 0x100 + b1;
    assert n / 0x100_0000 == b0;
  }

  // ----- framing -----

  function ToByte(id: MessageId): Byte { if id < 0 then id + 256 else id }

  function ToMessageId(b: Byte): MessageId { if b < 128 then b else b - 256 }

  function Serialize(m: Message): Bytes {
    if m.id == KEEP_ALIVE then [0, 0, 0, 0]
    else ToBigEndian(1 + |m.payload|) + [ToByte(m.id)] + m.payload
  }

  /** The next message of a stream and the number of bytes it took. */
  function ReadMessage(s: Bytes): Result<(Message, nat), WireError> {
    if |s| < 4 then Err(Truncated)
    else
      var length := FromBigEndian(s[..4]);
      if length == 0 then Ok((Message(KEEP_ALIVE, []), 4))
      else if length > MAX_MESSAGE_LENGTH then Err(TooLong)
      else if |s| < 4 + length then Err(Truncated)
      else Ok((Message(ToMessageId(s[4]), s[5..4 + length]), 4 + length))
  }

  /** What this client can put on the wire: a keep-alive is empty, everything else fits under the cap. */
  predicate Sendable(m: Message) {
    && (m.id == KEEP_ALIVE ==> m.payload == [])
    && 1 + |m.payload| <= MAX_MESSAGE_LENGTH
  }

  /** A serialized message is read back as itself, whatever follows it on the stream. */
  lemma {:induction false} MessageRoundTrip(m: Message, rest: Bytes)
    requires Sendable(m)
    ensures ReadMessage(Serialize(m) + rest) == Ok((m, |Serialize(m)|))
  {
    var s := Serialize(m) + rest;
    if m.id == KEEP_ALIVE {
      assert s[..4] == [0, 0, 0, 0];
    } else {
      var length := 1 + |m.payload|;
      NumberRoundTrip(length);
      assert s[..4] == ToBigEndian(length);
      assert s[4] == ToByte(m.id);
      assert s[5..4 + length] == m.payload;
    }
  }

  /** Reading and writing back reproduces the bytes unless the id byte was 255, which reads as the keep-alive
      sentinel. */
  lemma {:induction false} BytesReadWriteBack(s: Bytes)
    requires ReadMessage(s).Ok?
    ensures var (m, n) := ReadMessage(s).value;
      n <= |s| && (Serialize(m) == s[..n] <==> n == 4 || s[4] != 255)
  {
    var (m, n) := ReadMessage(s).value;
    BytesRoundTrip(s[..4]);
    if n > 4 {
      if s[4] != 255 {
        assert s[..n] == s[..4] + [s[4]] + s[5..n];
      } else {
        assert |Serialize(m)| == 4;
      }
    } else {
      assert s[..4] == ToBigEndian(0) == [0, 0, 0, 0];
    }
  }

  function SerializeAll(messages: seq<Message>): Bytes {
    if messages == [] then [] else Serialize(messages[0]) + SerializeAll(messages[1..])
  }

  /** Every message of a stream that ends on a message boundary. */
  function ReadAll(s: Bytes): Result<seq<Message>, WireError> {
    if s == [] then Ok([])
    else
      match ReadMessage(s)
      case Err(e) => Err(e)
      case Ok((m, n)) =>
        match ReadAll(s[n..])
        case Err(e) => Err(e)
        case Ok(rest) => Ok([m] + rest)
  }

  /** Any conversation survives the wire: the other side reads back exactly the messages that were written. */
  lemma {:induction false} StreamRoundTrip(messages: seq<Message>)
    requires forall m :: m in messages ==> Sendable(m)
    ensures ReadAll(SerializeAll(messages)) == Ok(messages)
  {
    if messages != [] {
      var first, rest := messages[0], SerializeAll(messages[1..]);
      MessageRoundTrip(first, rest);
      StreamRoundTrip(messages[1..]);
      assert (Serialize(first) + rest)[|Serialize(first)|..] == rest;
      assert messages == [first] + messages[1..];
    }
  }

  /** A stream of bytes and how far it has been consumed. */
  class Reader {
    const data: Bytes
    var pos: nat

    ghost predicate Valid()
      reads this
    {
      pos <= |data|
    }

    constructor (data: Bytes)
      ensures Valid() && this.data == data && pos == 0
    {
      this.data := data;
      pos := 0;
    }

    /** Exactly n bytes, or none of them to the caller when the stream ends first. */
    method ReadFull(n: nat) returns (buf: Option<Bytes>)
      requires Valid()
      modifies this
      ensures Valid()
      ensures buf == if old(pos) + n <= |data| then Some(data[old(pos)..old(pos) + n]) else None
      ensures pos == if buf.Some? then old(pos) + n else |data|
    {
      if pos + n <= |data| {
        buf := Some(data[pos..pos + n]);
        pos := pos + n;
      } else {
        buf := None;
        pos := |data|;
      }
    }

    method Next() returns (r: Result<Message, WireError>)
      requires Valid()
      modifies this
      ensures Valid()
      ensures r == match ReadMessage(data[old(pos)..])
        case Ok((m, n)) => Ok(m)
        case Err(e) => Err(e)
      ensures ReadMessage(data[old(pos)..]).Ok? ==> pos == old(pos) + ReadMessage(data[old(pos)..]).value.1
    {
      ghost var s := data[pos..];
      var prefix := ReadFull(4);
      if prefix == None { return Err(Truncated); }
      assert s[..4] == prefix.value;
      var length := FromBigEndian(prefix.value);
      if length == 0 { return Ok(Message(KEEP_ALIVE, [])); }
      if length > MAX_MESSAGE_LENGTH { return Err(TooLong); }
      var body := ReadFull(length);
      if body == None { return Err(Truncated); }
      assert body.value == s[4..4 + length];
      assert s[5..4 + length] == body.value[1..];
      r := Ok(Message(ToMessageId(body.value[0]), body.value[1..]));
    }
  }

  /** Fills a fresh buffer with the wire form of a message. */
  method SerializeInto(m: Message) returns (buf: array<Byte>)
    ensures fresh(buf) && buf[..] == Serialize(m)
  {
    hide ToBigEndian;
    if m.id == KEEP_ALIVE {
      buf := new Byte[4](_ => 0);
      return;
    }
    var length := 1 + |m.payload|;
    buf := new Byte[4 + length](_ => 0);
    var prefix := ToBigEndian(length);
    buf[0], buf[1], buf[2], buf[3] := prefix[0], prefix[1], prefix[2], prefix[3];
    buf[4] := ToByte(m.id);
    for i := 0 to |m.payload|
      invariant forall k :: 0 <= k < 4 ==> buf[k] == prefix[k]
      invariant buf[4] == ToByte(m.id)
      invariant forall k :: 5 <= k < 5 + i ==> buf[k] == m.payload[k - 5]
    {
      buf[5 + i] := m.payload[i];
    }
    assert buf[..] == prefix + [ToByte(m.id)] + m.payload;
  }

  // ----- payloads -----

  datatype PayloadError = WrongSize | IndexOutOfRange | BeginOutOfRange | PastPieceEnd

  datatype Request = Request(index: nat, begin: nat, length: nat)

  datatype Block = Block(index: nat, begin: nat, data: Bytes)

  function ParseHave(payload: Bytes, pieceCount: int): Result<nat, PayloadError> {
    if |payload| != 4 then Err(WrongSize)
    else
      var index := FromBigEndian(payload);
      if index >= pieceCount then Err(IndexOutOfRange) else Ok(index)
  }

  function ParseRequest(payload: Bytes, pieceCount: int, pieceLength: int): Result<Request, PayloadError> {
    if |payload| != 12 then Err(WrongSize)
    else
      var index := FromBigEndian(payload[0..4]);
      var begin := FromBigEndian(payload[4..8]);
      var length := FromBigEndian(payload[8..12]);
      if index >= pieceCount then Err(IndexOutOfRange)
      else if begin >= pieceLength then Err(BeginOutOfRange)
      else if begin + length > pieceLength then Err(PastPieceEnd)
      else Ok(Request(index, begin, length))
  }

  function ParsePiece(payload: Bytes, pieceCount: int, pieceLength: int): (r: Result<Block, PayloadError>)
    ensures r.Ok? ==> r.value.index < pieceCount && r.value.begin + |r.value.data| <= pieceLength
  {
    if |payload| < 8 then Err(WrongSize)
    else
      var index := FromBigEndian(payload[0..4]);
      var begin := FromBigEndian(payload[4..8]);
      var data := payload[8..];
      if index >= pieceCount then Err(IndexOutOfRange)
      else if begin >= pieceLength then Err(BeginOutOfRange)
      else if begin + |data| > pieceLength then Err(PastPieceEnd)
      else Ok(Block(index, begin, data))
  }

  function HaveMessage(index: nat): Message { Message(HAVE, ToBigEndian(index)) }

  function RequestMessage(index: nat, begin: nat, length: nat): Message {
    Message(REQUEST, ToBigEndian(index) + ToBigEndian(begin) + ToBigEndian(length))
  }

  function PieceMessage(index: nat, begin: nat, data: Bytes): Message {
    Message(PIECE, ToBigEndian(index) + ToBigEndian(begin) + data)
  }

  /** What one side announces, asks for or sends is what the other side parses: accepted exactly when it is in range. */
  lemma {:induction false} PayloadsRoundTrip(
    index: nat, begin: nat, length: nat, data: Bytes, pieceCount: int, pieceLength: int)
    requires index < U32 && begin < U32 && length < U32
    ensures ParseHave(HaveMessage(index).payload, pieceCount) ==
      if index < pieceCount then Ok(index) else Err(IndexOutOfRange)
    ensures ParseRequest(RequestMessage(index, begin, length).payload, pieceCount, pieceLength) ==
      if index >= pieceCount then Err(IndexOutOfRange)
      else if begin >= pieceLength then Err(BeginOutOfRange)
      else if begin + length > pieceLength then Err(PastPieceEnd)
      else Ok(Request(index, begin, length))
    ensures ParsePiece(PieceMessage(index, begin, data).payload, pieceCount, pieceLength) ==
      if index >= pieceCount then Err(IndexOutOfRange)
      else if begin >= pieceLength then Err(BeginOutOfRange)
      else if begin + |data| > pieceLength then Err(PastPieceEnd)
      else Ok(Block(index, begin, data))
  {
    NumberRoundTrip(index);
    NumberRoundTrip(begin);
    NumberRoundTrip(length);
    var asked, sent := RequestMessage(index, begin, length).payload, PieceMessage(index, begin, data).payload;
    assert asked[0..4] == ToBigEndian(index) && asked[4..8] == ToBigEndian(begin);
    assert asked[8..12] == ToBigEndian(length);
    assert sent[0..4] == ToBigEndian(index) && sent[4..8] == ToBigEndian(begin) && sent[8..] == data;
  }

  // ----- byte for byte -----

  /** The number that some digits in base 256 stand for, the first digit weighing most. */
  function Base256(b: Bytes): nat {
    if b == [] then 0
    else
      var last: int := b[|b| - 1];
      Base256(b[..|b| - 1]) * 256 + last
  }

  lemma {:induction false} FirstByteWeighsMost(b: Bytes)
    requires |b| == 4
    ensures FromBigEndian(b) == Base256(b)
  {
    assert b[..3][..2] == b[..2] && b[..2][..1] == b[..1] && b[..1][..0] == [];
    var b0: int, b1: int, b2: int := b[0], b[1], b[2];
    assert Base256(b[..1]) == b0;
    assert Base256(b[..2]) == b0 * 256 + b1;
    assert Base256(b[..3]) == (b0 * 256 + b1) * 256 + b2;
  }

  /** Every kind of message this client writes, as it goes out: length, id, payload. */
  lemma {:induction false} MessagesOnTheWire(index: nat, begin: nat, length: nat, data: Bytes)
    requires index < U32 && begin < U32 && length < U32
    ensures Serialize(Message(KEEP_ALIVE, [])) == [0, 0, 0, 0]
    ensures Serialize(Message(CHOKE, [])) == [0, 0, 0, 1, 0]
    ensures Serialize(Message(UNCHOKE, [])) == [0, 0, 0, 1, 1]
    ensures Serialize(Message(INTERESTED, [])) == [0, 0, 0, 1, 2]
    ensures Serialize(Message(NOT_INTERESTED, [])) == [0, 0, 0, 1, 3]
    ensures Serialize(HaveMessage(index)) == [0, 0, 0, 5, 4] + ToBigEndian(index)
    ensures Serialize(Message(BITFIELD, data)) == ToBigEndian(1 + |data|) + [5] + data
    ensures Serialize(RequestMessage(index, begin, length)) ==
      [0, 0, 0, 13, 6] + ToBigEndian(index) + ToBigEndian(begin) + ToBigEndian(length)
    ensures Serialize(PieceMessage(index, begin, data)) ==
      ToBigEndian(9 + |data|) + [7] + ToBigEndian(index) + ToBigEndian(begin) + data
    ensures Base256(ToBigEndian(index)) == index
  {
    SmallNumbers();
    hide ToBigEndian, FromBigEndian;
    NumberRoundTrip(index);
    FirstByteWeighsMost(ToBigEndian(index));
  }

  lemma {:induction false} SmallNumbers()
    ensures ToBigEndian(1) == [0, 0, 0, 1] && ToBigEndian(5) == [0, 0, 0, 5] && ToBigEndian(13) == [0, 0, 0, 13]
  {
  }

  /** Exactly what is read off the front of a stream: a length, then as many bytes, the first of them the id. */
  lemma {:induction false} FramesAreRead(s: Bytes)
    ensures ReadMessage(s) == Err(Truncated) <==>
      |s| < 4 || (Base256(s[..4]) <= 131072 && |s| < 4 + Base256(s[..4]))
    ensures ReadMessage(s) == Err(TooLong) <==> |s| >= 4 && Base256(s[..4]) > 131072
    ensures ReadMessage(s).Ok? ==>
      var (m, n) := ReadMessage(s).value;
      && n == 4 + Base256(s[..4]) <= |s|
      && (n == 4 ==> m == Message(KEEP_ALIVE, []))
      && (n > 4 ==> m.payload == s[5..n] && if s[4] < 128 then m.id == s[4] else m.id + 256 == s[4])
  {
    if |s| >= 4 { FirstByteWeighsMost(s[..4]); }
  }
}
