/** The parts put together: what the coordinator's invariants say about a running client, what its workers may report
    to it, and what its peers are served. */
module EndToEnd {
  import opened Base
  import opened Assembly
  import opened AssignmentInvariants
  import opened Choking
  import opened Connection
  import opened CoordinatorState
  import opened Events
  import opened Pipeline
  import opened Session
  import opened Storage
  import opened Wire

  /** The coordinator's step in a move of the client. */
  ghost function StepOf(m: Move): Step {
    match m
    case Coordinate(step) => step
    case StoreResult => ResultTaken
  }

  ghost function Coords(trace: seq<Client>): seq<State> {
    seq(|trace|, k requires 0 <= k < |trace| => trace[k].coord)
  }

  ghost function Steps(moves: seq<Move>): seq<Step> {
    seq(|moves|, k requires 0 <= k < |moves| => StepOf(moves[k]))
  }

  lemma {:induction false} MoveIsAStep(c: Config, sha: Bytes -> Digest, y: Client, m: Move)
    requires CoordinatorState.Shape(c, y.coord) && CanMove(c, sha, y, m)
    ensures Enabled(c, y.coord, StepOf(m)) && After(c, sha, y, m).coord == Next(c, y.coord, StepOf(m))
  {
    hide Next, Enabled, Store, Genuine;
    if m.StoreResult? { EnabledResultTaken(c, y.coord); }
  }

  /** A run of the client is a run of its coordinator, so everything proved about those holds here. */
  lemma {:induction false} ClientRunsCoordinate(
    c: Config, sha: Bytes -> Digest, initial: Bytes, trace: seq<Client>, moves: seq<Move>)
    requires IsClientRun(c, sha, initial, trace, moves)
    ensures AssignmentInvariants.IsRun(c, Coords(trace), Steps(moves))
  {
    hide Next, Enabled, CanMove, After, StepOf, Starts;
    StartUpStarts(c, sha, initial);
    forall k | 0 <= k < |moves|
      ensures Enabled(c, Coords(trace)[k], Steps(moves)[k])
      ensures Coords(trace)[k + 1] == Next(c, Coords(trace)[k], Steps(moves)[k])
    {
      var m := moves[k];
      MoveIsAStep(c, sha, trace[k], m);
    }
  }

  lemma {:induction false} StartUpStarts(c: Config, sha: Bytes -> Digest, initial: Bytes)
    requires c.layout.Valid() && |initial| == c.layout.totalLength
    ensures CoordinatorState.Shape(c, StartUp(c, sha, initial).coord) && Starts(c, StartUp(c, sha, initial).coord)
  {
  }

  /** A connection that has been given only commands from its own channel reports only pieces the torrent has, and only
      with bytes that hash to what the torrent says. */
  lemma {:induction false} WorkersReportGenuinePieces(
    c: Config, sha: Bytes -> Digest, trace: seq<State>, steps: seq<Step>, k: nat,
    addr: Addr, faults: Faults, bits: Option<Bytes>, inputs: seq<Input>, e: Event)
    requires c.layout.Valid() && AssignmentInvariants.IsRun(c, trace, steps) && k < |trace| && addr in trace[k].peers
    requires CommandsAmong(inputs, trace[k].peers[addr].commands.Accepted())
    requires e in RunConnection(sha, NewLink(addr, c.layout.pieceCount, faults), bits, inputs).link.events
    ensures e.addr == addr && Reportable(e, c.layout.pieceCount)
    ensures e.PieceDownloaded? ==> Genuine(c, sha, e.index, e.data)
  {
    hide AssignmentInvariants.IsRun, RunConnection, CommandsAmong;
    var commands := trace[k].peers[addr].commands.Accepted();
    ChokeRecordMatchesWire(c, trace, steps, k);
    assert RecordMatches(c, trace[k].peers[addr]);
    ReportsAreBacked(sha, addr, c.layout.pieceCount, faults, bits, inputs, commands);
    var r := RunConnection(sha, NewLink(addr, c.layout.pieceCount, faults), bits, inputs).link;
    var j :| 0 <= j < |r.events| && r.events[j] == e;
    assert Backed(sha, r, commands, e);
    if e.PieceDownloaded? {
      IssuedWorkIsWellFormed(c, trace[k].peers[addr], AssignPiece(e.index, |e.data|, sha(e.data)));
    } else if e.PieceFailed? {
      var command :| command in commands && command.AssignPiece? && command.index == e.index;
      IssuedWorkIsWellFormed(c, trace[k].peers[addr], command);
    }
  }

  /** Every piece ever assigned exists, and is assigned with its own length and hash. */
  lemma {:induction false} IssuedWorkIsWellFormed(c: Config, p: PeerInfo, command: Command)
    requires c.layout.Valid() && RecordMatches(c, p) && command in p.commands.Accepted() && command.AssignPiece?
    ensures 0 <= command.index < c.layout.pieceCount
    ensures command.length == c.layout.Size(command.index) && command.expectedHash == c.hashes[command.index]
  {
    var k :| 0 <= k < |p.commands.Accepted()| && p.commands.Accepted()[k] == command;
    assert WellFormed(c, p.commands.Accepted()[k]);
  }

  /** While it is up, a worker that has taken every command its channel accepted is choking its peer exactly when the
      coordinator's record says so, whatever sends were refused on the way. */
  lemma {:induction false} WorkerAgreesWithChokeRecord(
    c: Config, sha: Bytes -> Digest, trace: seq<State>, steps: seq<Step>, k: nat,
    addr: Addr, pieceCount: nat, faults: Faults, bits: Option<Bytes>, inputs: seq<Input>)
    requires AssignmentInvariants.IsRun(c, trace, steps) && k < |trace| && addr in trace[k].peers
    requires trace[k].peers[addr].commands.queued == []
    requires CommandsIn(inputs) == trace[k].peers[addr].commands.taken
    requires RunConnection(sha, NewLink(addr, pieceCount, faults), bits, inputs).Listening?
    ensures RunConnection(sha, NewLink(addr, pieceCount, faults), bits, inputs).link.amChoking ==
      trace[k].peers[addr].choked
  {
    hide AssignmentInvariants.IsRun, RunConnection;
    ChokeRecordMatchesWire(c, trace, steps, k);
    ChokeDecisionsReachThePeer(sha, addr, pieceCount, faults, bits, inputs);
  }

  /** In every reachable state, whatever is asked for: a block we send is the requested slice of a piece whose bytes on
      disk hash to what the torrent says, and is sent only while not choking. */
  lemma {:induction false} ServedBlocksAreVerified(
    c: Config, sha: Bytes -> Digest, initial: Bytes, trace: seq<Client>, moves: seq<Move>, k: nat,
    amChoking: bool, payload: Bytes)
    requires IsClientRun(c, sha, initial, trace, moves) && k < |trace|
    requires ServeRequest(amChoking, Seed(c.layout, trace[k].ledger.have, trace[k].ledger.disk), payload).Reply?
    ensures var disk := trace[k].ledger.disk;
      var block := ServeRequest(amChoking, Seed(c.layout, trace[k].ledger.have, disk), payload).block;
      && !amChoking && |disk| == c.layout.totalLength && block.index < c.layout.pieceCount
      && ParseRequest(payload, c.layout.pieceCount, c.layout.Size(block.index)) ==
           Ok(Request(block.index, block.begin, |block.data|))
      && IsSlice(c.layout, disk, block)
      && sha(PieceBytes(c.layout, disk, block.index)) == c.hashes[block.index]
  {
    hide IsClientRun, ServeRequest, ParseRequest, PieceBytes, IsSlice;
    HadPiecesAreVerified(c, sha, initial, trace, moves, k);
    RepliesAreSlices(amChoking, Seed(c.layout, trace[k].ledger.have, trace[k].ledger.disk), payload);
  }

  /** The same holds for what is served after a result has been written and before its piece is marked as had: the file
      is the new one, the bitfield still the old. */
  lemma {:induction false} ServedWhileStoringIsVerified(
    c: Config, sha: Bytes -> Digest, initial: Bytes, trace: seq<Client>, moves: seq<Move>, k: nat,
    amChoking: bool, payload: Bytes)
    requires IsClientRun(c, sha, initial, trace, moves) && k < |trace| && trace[k].coord.results != []
    requires Store(c, trace[k].ledger, trace[k].coord.results[0]).Ok?
    requires var disk := Store(c, trace[k].ledger, trace[k].coord.results[0]).value.disk;
      ServeRequest(amChoking, Seed(c.layout, trace[k].ledger.have, disk), payload).Reply?
    ensures var disk := Store(c, trace[k].ledger, trace[k].coord.results[0]).value.disk;
      var block := ServeRequest(amChoking, Seed(c.layout, trace[k].ledger.have, disk), payload).block;
      && |disk| == c.layout.totalLength && IsSlice(c.layout, disk, block)
      && sha(PieceBytes(c.layout, disk, block.index)) == c.hashes[block.index]
  {
    hide IsClientRun, ServeRequest, ParseRequest, PieceBytes, IsSlice, Store;
    HadPiecesAreVerified(c, sha, initial, trace, moves, k);
    var g, result := trace[k].ledger, trace[k].coord.results[0];
    assert Genuine(c, sha, result.index, result.data);
    StoringKeepsIntact(c, sha, g, result);
    RepliesAreSlices(amChoking, Seed(c.layout, g.have, Store(c, g, result).value.disk), payload);
  }
}
