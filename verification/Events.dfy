/** What workers tell the coordinator, what it tells them, and the channel it tells them on. */
module Events {
  import opened Base

  /** A peer's address; only equality matters. */
  datatype Addr = Addr(ip: int, port: int)

  /** What a worker reports to the coordinator. A bitfield is taken as the set of pieces it marks. */
  datatype Event =
    | PeerJoined(addr: Addr)
    | BitfieldReceived(addr: Addr, bits: set<int>)
    | HaveReceived(addr: Addr, index: int)
    | PieceDownloaded(addr: Addr, index: int, data: Bytes)
    | PieceFailed(addr: Addr, index: int)
    | PeerReady(addr: Addr)
    | PeerLeft(addr: Addr)
    | InterestedReceived(addr: Addr)
    | NotInterestedReceived(addr: Addr)
    | ChokeReceived(addr: Addr)
    | UnchokeReceived(addr: Addr)

  /** Workers check an index against the piece count before they report it. */
  predicate Reportable(event: Event, pieceCount: int) {
    match event
    case HaveReceived(addr, index) => 0 <= index < pieceCount
    case PieceDownloaded(addr, index, data) => 0 <= index < pieceCount
    case PieceFailed(addr, index) => 0 <= index < pieceCount
    case _ => true
  }

  datatype Command =
    | AssignPiece(index: nat, length: int, expectedHash: Digest)
    | CancelPiece(index: nat)
    | Pause
    | Shutdown
    | ChokePeer
    | UnchokePeer

  /** A verified piece on its way to disk. */
  datatype PieceResult = PieceResult(index: int, data: Bytes)

  /** How many commands a worker's channel buffers. */
  const COMMAND_CAPACITY := 1

  /** A worker's command channel: what the worker has received so far, and what still waits in the buffer. */
  datatype Channel = Channel(taken: seq<Command>, queued: seq<Command>) {
    predicate HasRoom() { |queued| < COMMAND_CAPACITY }

    /** Every command ever accepted, oldest first. */
    function Accepted(): seq<Command> { taken + queued }

    /** A send that the buffer has room for. A refused send changes nothing. */
    function Send(command: Command): Channel { Channel(taken, queued + [command]) }

    /** The worker receives the oldest buffered command. */
    function Take(): Channel {
      if queued == [] then this else Channel(taken + [queued[0]], queued[1..])
    }
  }

  const NEW_CHANNEL := Channel([], [])

  /** Whether a worker that has executed these commands is choking its peer; connections start choked. */
  function ChokingAfter(commands: seq<Command>): bool {
    if commands == [] then true
    else
      match commands[|commands| - 1]
      case ChokePeer => true
      case UnchokePeer => false
      case _ => ChokingAfter(commands[..|commands| - 1])
  }

  /** No choke while choking and no unchoke while not: the choke commands strictly alternate, unchoke first. */
  ghost predicate ChokesAlternate(commands: seq<Command>) {
    forall k :: 0 <= k < |commands| ==>
      && (commands[k].ChokePeer? ==> !ChokingAfter(commands[..k]))
      && (commands[k].UnchokePeer? ==> ChokingAfter(commands[..k]))
  }

  lemma {:induction false} ChokingAfterSend(commands: seq<Command>, command: Command)
    requires ChokesAlternate(commands)
    requires command.ChokePeer? ==> !ChokingAfter(commands)
    requires command.UnchokePeer? ==> ChokingAfter(commands)
    ensures ChokesAlternate(commands + [command])
    ensures ChokingAfter(commands + [command]) ==
      if command.ChokePeer? then true else if command.UnchokePeer? then false else ChokingAfter(commands)
  {
    var longer := commands + [command];
    assert longer[..|commands|] == commands;
    forall k | 0 <= k < |commands| ensures longer[..k] == commands[..k] && longer[k] == commands[k] {}
  }
}
