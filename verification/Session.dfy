/** One connection: what it records about the peer, how it reacts to a message or a command, and which requests it
    serves. Network writes and hand-offs to the coordinator may fail at any point; which ones do is a parameter. */
module Session {
  import opened Base
  import opened Bitfield
  import opened Events
  import opened Geometry
  import opened Storage
  import opened Wire

  /** What we serve from at the moment a request arrives: the pieces on disk, and the disk. */
  datatype SeedConfig = NoSeed | Seed(layout: Layout, have: set<int>, file: Bytes) {
    predicate Valid() { Seed? ==> layout.pieceLength > 0 && layout.totalLength >= 0 }
  }

  type SeedSnapshot = s: SeedConfig | s.Valid() witness NoSeed

  /** Which write attempts and which event hand-offs fail, by their position in the connection's life. */
  datatype Faults = Faults(writes: set<nat>, events: set<nat>)

  const NO_FAULTS := Faults({}, {})

  datatype Link = Link(
    addr: Addr,
    pieceCount: int,
    faults: Faults,
    amChoking: bool,
    peerChoking: bool,
    peerInterested: bool,
    bitfield: Bytes,
    sent: seq<Message>,
    attempts: nat,
    events: seq<Event>,
    offers: nat)

  /** Both sides start out choking, and nothing is known about the peer. */
  function NewLink(addr: Addr, pieceCount: nat, faults: Faults): Link {
    Link(addr, pieceCount, faults, true, true, false, seq((pieceCount + 7) / 8, _ => 0), [], 0, [], 0)
  }

  /** A write, and whether it went out. */
  function Write(l: Link, m: Message): (Link, bool) {
    var ok := l.attempts !in l.faults.writes;
    (l.(attempts := l.attempts + 1, sent := if ok then l.sent + [m] else l.sent), ok)
  }

  /** An event for the coordinator, and whether it was taken before the download was cancelled. */
  function Emit(l: Link, e: Event): (Link, bool) {
    var ok := l.offers !in l.faults.events;
    (l.(offers := l.offers + 1, events := if ok then l.events + [e] else l.events), ok)
  }

  // ----- serving -----

  /** Declining is not an error: the peer just never gets an answer. */
  datatype Service = Refused | Declined | Reply(block: Block)

  function ServeRequest(amChoking: bool, seed: SeedSnapshot, payload: Bytes): Service
    requires seed.Seed?
  {
    if |payload| != 12 then Refused
    else
      var index := FromBigEndian(payload[0..4]);
      if index >= seed.layout.pieceCount then Refused
      else if amChoking then Declined
      else if index !in seed.have then Declined
      else
        match seed.layout.Length(index)
        case None => Refused
        case Some(pieceLength) =>
          match ParseRequest(payload, seed.layout.pieceCount, pieceLength)
          case Err(_) => Refused
          case Ok(request) =>
            if request.length > MAX_REQUEST_LENGTH then Refused
            else
              match ReadBlock(seed.layout, seed.file, index, request.begin, request.length)
              case Err(_) => Refused
              case Ok(data) => Reply(Block(index, request.begin, data))
  }

  /** Every check a served request passes. */
  ghost predicate Accepts(seed: SeedSnapshot, payload: Bytes, request: Request)
    requires seed.Seed?
  {
    && request.index in seed.have && seed.layout.Length(request.index).Some?
    && ParseRequest(payload, seed.layout.pieceCount, seed.layout.Length(request.index).value) == Ok(request)
    && request.length <= MAX_REQUEST_LENGTH
  }

  lemma {:induction false} ReplyMeetsEveryCheck(amChoking: bool, seed: SeedSnapshot, payload: Bytes)
    returns (request: Request)
    requires seed.Seed? && ServeRequest(amChoking, seed, payload).Reply?
    ensures !amChoking && Accepts(seed, payload, request)
    ensures request.begin + request.length <= seed.layout.Length(request.index).value
    ensures var read := ReadBlock(seed.layout, seed.file, request.index, request.begin, request.length);
      read.Ok? && ServeRequest(amChoking, seed, payload) == Reply(Block(request.index, request.begin, read.value))
  {
    hide FromBigEndian, ReadBlock;
    var index := FromBigEndian(payload[0..4]);
    request := ParseRequest(payload, seed.layout.pieceCount, seed.layout.Length(index).value).value;
  }

  /** The block is what a piece holds at that place. */
  ghost predicate IsSlice(l: Layout, file: Bytes, block: Block)
    requires l.Valid() && |file| == l.totalLength
  {
    && 0 <= block.index < l.pieceCount
    && block.begin + |block.data| <= l.Size(block.index)
    && block.data == PieceBytes(l, file, block.index)[block.begin..block.begin + |block.data|]
  }

  /** Whatever is sent in answer to a request is the requested slice of a piece we have, sent while not choking. */
  lemma {:induction false} RepliesAreSlices(amChoking: bool, seed: SeedSnapshot, payload: Bytes)
    requires seed.Seed? && seed.layout.Valid() && |seed.file| == seed.layout.totalLength
    requires ServeRequest(amChoking, seed, payload).Reply?
    ensures !amChoking
    ensures var block := ServeRequest(amChoking, seed, payload).block;
      && IsSlice(seed.layout, seed.file, block)
      && Accepts(seed, payload, Request(block.index, block.begin, |block.data|))
  {
    var request := ReplyMeetsEveryCheck(amChoking, seed, payload);
    PieceInside(seed.layout, request.index);
    ReadsAreSlices(seed.layout, seed.file, request.index, request.begin, request.length);
  }

  /** Served exactly when we are not choking and the request passes every check; nothing else is ever answered. */
  lemma {:induction false} AcceptedIsServed(seed: SeedSnapshot, payload: Bytes, request: Request)
    requires seed.Seed? && seed.layout.Valid() && |seed.file| == seed.layout.totalLength
    requires Accepts(seed, payload, request)
    ensures ServeRequest(false, seed, payload).Reply?
    ensures ServeRequest(false, seed, payload).block.index == request.index
    ensures ServeRequest(false, seed, payload).block.begin == request.begin
    ensures |ServeRequest(false, seed, payload).block.data| == request.length
  {
    hide FromBigEndian;
    PieceInside(seed.layout, request.index);
    ReadsAreSlices(seed.layout, seed.file, request.index, request.begin, request.length);
  }

  /** A request in full: answered when we are not choking, have the piece, and the block lies in it and is no
      longer than 16 KiB; let go unanswered when it names a piece that we do not have or we are choking; refused
      otherwise. */
  lemma {:induction false} ServedExactly(amChoking: bool, seed: SeedSnapshot, payload: Bytes)
    requires seed.Seed? && seed.layout.Valid() && |seed.file| == seed.layout.totalLength
    ensures var service := ServeRequest(amChoking, seed, payload);
      if |payload| != 12 then service == Refused
      else
        var index, begin, length := Base256(payload[..4]), Base256(payload[4..8]), Base256(payload[8..]);
        if index >= seed.layout.pieceCount then service == Refused
        else if amChoking || index !in seed.have then service == Declined
        else if begin < seed.layout.Size(index) && begin + length <= seed.layout.Size(index) && length <= 16384 then
          && service.Reply?
          && service.block.index == index && service.block.begin == begin && |service.block.data| == length
        else service == Refused
  {
    hide FromBigEndian, ReadBlock;
    if |payload| == 12 {
      assert payload[0..4] == payload[..4] && payload[8..12] == payload[8..];
      FirstByteWeighsMost(payload[..4]);
      FirstByteWeighsMost(payload[4..8]);
      FirstByteWeighsMost(payload[8..]);
      var index, begin, length := Base256(payload[..4]), Base256(payload[4..8]), Base256(payload[8..]);
      if index < seed.layout.pieceCount && begin + length <= seed.layout.Size(index) {
        PieceInside(seed.layout, index);
        ReadsAreSlices(seed.layout, seed.file, index, begin, length);
      }
    }
  }

  // ----- reacting -----

  /** Chokes or unchokes the peer; false when the connection has to be torn down. */
  function ApplyCommand(l: Link, command: Command): (Link, bool) {
    if !command.ChokePeer? && !command.UnchokePeer? then (l, true)
    else
      var (l1, ok) := Write(l, ChokeMessage(command.ChokePeer?));
      (if ok then l1.(amChoking := command.ChokePeer?) else l1, ok)
  }

  function ChokeMessage(choke: bool): Message { Message(if choke then CHOKE else UNCHOKE, []) }

  /** Reacts to a message that is not part of a piece download; false when the connection has to be torn down. */
  function HandleMessage(l: Link, seed: SeedSnapshot, m: Message): (Link, bool) {
    if m.id == BITFIELD then
      if !Sized(m.payload, l.pieceCount) then (l, false)
      else Emit(l.(bitfield := m.payload), BitfieldReceived(l.addr, Marked(m.payload)))
    else if m.id == HAVE then
      match ParseHave(m.payload, l.pieceCount)
      case Err(_) => (l, true)
      case Ok(index) => Emit(l.(bitfield := SetPiece(l.bitfield, index)), HaveReceived(l.addr, index))
    else if m.id == CHOKE then Emit(l.(peerChoking := true), ChokeReceived(l.addr))
    else if m.id == UNCHOKE then Emit(l.(peerChoking := false), UnchokeReceived(l.addr))
    else if m.id == INTERESTED then Emit(l.(peerInterested := true), InterestedReceived(l.addr))
    else if m.id == NOT_INTERESTED then Emit(l.(peerInterested := false), NotInterestedReceived(l.addr))
    else if m.id == REQUEST && seed.Seed? then
      match ServeRequest(l.amChoking, seed, m.payload)
      case Refused => (l, false)
      case Declined => (l, true)
      case Reply(block) => Write(l, BlockMessage(block))
    else (l, true)
  }

  function BlockMessage(block: Block): (m: Message)
    ensures m.id == PIECE
  {
    PieceMessage(block.index, block.begin, block.data)
  }

  /** While writes and hand-offs succeed, a message ends the connection only if it is a bitfield of the wrong size or a
      request that is refused. */
  lemma {:induction false} TornDownExactly(l: Link, seed: SeedSnapshot, m: Message)
    requires l.faults == NO_FAULTS
    ensures !HandleMessage(l, seed, m).1 <==>
      || (m.id == BITFIELD && |m.payload| != (l.pieceCount + 7) / 8)
      || (m.id == REQUEST && seed.Seed? && ServeRequest(l.amChoking, seed, m.payload) == Refused)
  {
    hide ServeRequest, SetPiece, Marked, ParseHave, BlockMessage;
  }
}
