/** The coordinator, the main loop and every connection in one run: connections read from their peers and from their
    command channels, and the coordinator handles what they report, in any interleaving. Nothing is assumed about what
    a worker reports; it is what its connection computes from what it has read. */
module Joint {
  import opened Base
  import opened AssignmentInvariants
  import opened Assembly
  import opened Choking
  import opened Connection
  import opened CoordinatorState
  import opened Events
  import opened Pipeline
  import opened Session
  import EndToEnd

  /** A connection: which writes and hand-offs will fail, what it greeted with, what it has read so far, every
      command its channel ever accepted, how many of those it has taken, and how many of its events the coordinator
      has handled. */
  datatype Conn = Conn(
    addr: Addr,
    faults: Faults,
    bits: Option<Bytes>,
    inputs: seq<Input>,
    issued: seq<Command>,
    taken: nat,
    reported: nat)

  /** The owner of an address is the connection whose joining made the record kept under it. */
  datatype World = World(client: Client, conns: seq<Conn>, owner: map<Addr, nat>)

  datatype Act =
    | Connect(addr: Addr, faults: Faults, bits: Option<Bytes>)
    | Read(id: nat, input: Input)
    | Take(id: nat)
    | Report(id: nat, pick: int, now: int, delivered: bool, written: set<int>)
    | Wake(step: Step)
    | Stored

  /** What the connection has come to; its events are what it reports, in order. */
  ghost function LifeOf(c: Config, sha: Bytes -> Digest, n: Conn): Life {
    RunConnection(sha, NewLink(n.addr, c.layout.pieceCount, n.faults), n.bits, n.inputs)
  }

  /** What the coordinator does on its own, and what a worker may write to a bitfield it shares. */
  predicate Unprompted(step: Step) {
    step.Ticked? || step.Rechoked? || step.Rotated? || step.BitWritten? || step.BitfieldReplaced?
  }

  /** The tie-break drawn for an offer of work is one of the rarest pieces; that is all that is asked of a step. */
  ghost predicate Settled(c: Config, s: State, step: Step)
    requires CoordinatorState.Shape(c, s)
  {
    match step
    case GotBitfield(a, bits, pick, now) => Enabled(c, s, step)
    case GotHave(a, index, pick, now) => 0 <= index < c.layout.pieceCount ==> Enabled(c, s, step)
    case Ready(a, pick, now) => Enabled(c, s, step)
    case UnchokedUs(a, pick, now) => Enabled(c, s, step)
    case _ => true
  }

  /** What a request is served from: nothing yet, or the pieces marked as had and the file, which may be ahead of
      them by the one result that is being stored. */
  ghost predicate SeedNow(c: Config, y: Client, seed: SeedSnapshot) {
    var g := y.ledger;
    || seed == NoSeed
    || seed == Seed(c.layout, g.have, g.disk)
    || (y.coord.results != [] && Store(c, g, y.coord.results[0]).Ok? &&
        seed == Seed(c.layout, g.have, Store(c, g, y.coord.results[0]).value.disk))
  }

  predicate Registered(w: World, id: nat)
    requires id < |w.conns|
  {
    var a := w.conns[id].addr;
    a in w.client.coord.peers && a in w.owner && w.owner[a] == id
  }

  ghost predicate CanAct(c: Config, sha: Bytes -> Digest, w: World, act: Act)
    requires CoordinatorState.Shape(c, w.client.coord)
  {
    match act
    case Connect(addr, faults, bits) => true
    case Read(id, input) =>
      id < |w.conns| && !input.FromCoordinator? && (input.FromPeer? ==> SeedNow(c, w.client, input.seed))
    case Take(id) => id < |w.conns| && w.conns[id].taken < |w.conns[id].issued|
    case Report(id, pick, now, delivered, written) =>
      && id < |w.conns| && w.conns[id].reported < |LifeOf(c, sha, w.conns[id]).link.events|
      && Settled(c, w.client.coord, StepFor(NextEvent(c, sha, w.conns[id]), pick, now, delivered, written))
    case Wake(step) => Unprompted(step) && Enabled(c, w.client.coord, step)
    case Stored => w.client.coord.results != [] && Store(c, w.client.ledger, w.client.coord.results[0]).Ok?
  }

  ghost function NextEvent(c: Config, sha: Bytes -> Digest, n: Conn): Event
    requires n.reported < |LifeOf(c, sha, n).link.events|
  {
    LifeOf(c, sha, n).link.events[n.reported]
  }

  /** What the client does when a connection or a timer acts; nothing, when a connection only reads. */
  ghost function MoveOf(c: Config, sha: Bytes -> Digest, w: World, act: Act): Option<Move>
    requires CoordinatorState.Shape(c, w.client.coord) && CanAct(c, sha, w, act)
  {
    match act
    case Connect(addr, faults, bits) => None
    case Read(id, input) => None
    case Take(id) => if Registered(w, id) then Some(Coordinate(WorkerTook(w.conns[id].addr))) else None
    case Report(id, pick, now, delivered, written) =>
      Some(Coordinate(StepFor(NextEvent(c, sha, w.conns[id]), pick, now, delivered, written)))
    case Wake(step) => Some(Coordinate(step))
    case Stored => Some(StoreResult)
  }

  /** The connections and the owners, before the channels are looked at again. */
  ghost function Acted(c: Config, sha: Bytes -> Digest, w: World, act: Act): World
    requires CoordinatorState.Shape(c, w.client.coord) && CanAct(c, sha, w, act)
  {
    match act
    case Connect(addr, faults, bits) => w.(conns := w.conns + [Conn(addr, faults, bits, [], [], 0, 0)])
    case Read(id, input) => w.(conns := w.conns[id := w.conns[id].(inputs := w.conns[id].inputs + [input])])
    case Take(id) => w.(conns := w.conns[id := Taking(w.conns[id])])
    case Report(id, pick, now, delivered, written) =>
      var n := w.conns[id];
      w.(conns := w.conns[id := n.(reported := n.reported + 1)],
         owner := if NextEvent(c, sha, n).PeerJoined? then w.owner[n.addr := id] else w.owner)
    case _ => w
  }

  function Taking(n: Conn): Conn
    requires n.taken < |n.issued|
  {
    n.(inputs := n.inputs + [FromCoordinator(n.issued[n.taken])], taken := n.taken + 1)
  }

  /** The channel of a registered connection has accepted what its record says. */
  ghost function Synced(w: World, client: Client): World {
    var r := w.(client := client);
    r.(conns := seq(|w.conns|, id requires 0 <= id < |w.conns| =>
      if Registered(r, id) then w.conns[id].(issued := client.coord.peers[w.conns[id].addr].commands.Accepted())
      else w.conns[id]))
  }

  /** A move that the client cannot make would change nothing about it; EveryReportCanBeHandled says that none is
      made. */
  ghost function AfterAct(c: Config, sha: Bytes -> Digest, w: World, act: Act): World
    requires CoordinatorState.Shape(c, w.client.coord) && CanAct(c, sha, w, act)
  {
    var m := MoveOf(c, sha, w, act);
    if m.Some? && CanMove(c, sha, w.client, m.value)
    then Synced(Acted(c, sha, w, act), After(c, sha, w.client, m.value))
    else Acted(c, sha, w, act)
  }

  ghost predicate IsJointRun(c: Config, sha: Bytes -> Digest, disk: Bytes, worlds: seq<World>, acts: seq<Act>) {
    && c.layout.Valid() && |disk| == c.layout.totalLength
    && |worlds| == |acts| + 1 && worlds[0] == World(StartUp(c, sha, disk), [], map[])
    && forall k :: 0 <= k < |acts| ==>
         && CoordinatorState.Shape(c, worlds[k].client.coord) && CanAct(c, sha, worlds[k], acts[k])
         && worlds[k + 1] == AfterAct(c, sha, worlds[k], acts[k])
  }

  // ----- channels across the coordinator's steps -----

  /** The same channel, with nothing taken and perhaps more accepted. */
  predicate Extends(p: Channel, q: Channel) { q.taken == p.taken && p.queued <= q.queued }

  ghost predicate ChannelsExtend(s: State, r: State) {
    forall a :: a in r.peers ==> a in s.peers && Extends(s.peers[a].commands, r.peers[a].commands)
  }

  lemma {:induction false} ExtendThen(s: State, m: State, r: State)
    requires ChannelsExtend(s, m) && ChannelsExtend(m, r)
    ensures ChannelsExtend(s, r)
  {
  }

  lemma {:induction false} AssigningExtends(c: Config, s: State, r: State)
    requires OnlyAssigns(c, s, r)
    ensures ChannelsExtend(s, r)
  {
    forall a | a in r.peers ensures a in s.peers && Extends(s.peers[a].commands, r.peers[a].commands) {
      assert a in r.peers.Keys;
    }
  }

  lemma {:induction false} OfferExtends(c: Config, s: State, r: State, a: Addr, pick: int, now: int)
    requires CoordinatorState.Shape(c, r) && ChannelsExtend(s, r)
    ensures ChannelsExtend(s, TryAssign(c, r, a, pick, now))
  {
    hide TryAssign, ChannelsExtend, OnlyAssigns;
    AssigningExtends(c, r, TryAssign(c, r, a, pick, now));
    ExtendThen(s, r, TryAssign(c, r, a, pick, now));
  }

  lemma {:induction false} BitfieldExtends(c: Config, s: State, a: Addr, bits: set<int>, pick: int, now: int)
    requires CoordinatorState.Shape(c, s)
    ensures ChannelsExtend(s, AfterBitfieldReceived(c, s, a, bits, pick, now))
  {
    hide TryAssign;
    if a in s.peers && !s.peers[a].gotBitfield { OfferExtends(c, s, BitfieldCounted(c, s, a, bits), a, pick, now); }
  }

  lemma {:induction false} HaveExtends(c: Config, s: State, a: Addr, i: int, pick: int, now: int)
    requires CoordinatorState.Shape(c, s) && 0 <= i < c.layout.pieceCount
    ensures ChannelsExtend(s, AfterHaveReceived(c, s, a, i, pick, now))
  {
    hide TryAssign;
    if a in s.peers && i !in s.peers[a].have { OfferExtends(c, s, HaveCounted(c, s, a, i), a, pick, now); }
  }

  lemma {:induction false} UnchokeExtends(c: Config, s: State, a: Addr, pick: int, now: int)
    requires CoordinatorState.Shape(c, s)
    ensures ChannelsExtend(s, AfterUnchokeReceived(c, s, a, pick, now))
  {
    hide TryAssign;
    if a in s.peers { OfferExtends(c, s, PeerUnchoked(c, s, a), a, pick, now); }
  }

  lemma {:induction false} ReadyExtends(c: Config, s: State, a: Addr, pick: int, now: int)
    requires CoordinatorState.Shape(c, s)
    ensures ChannelsExtend(s, TryAssign(c, s, a, pick, now))
  {
    hide TryAssign;
    OfferExtends(c, s, s, a, pick, now);
  }

  lemma {:induction false} TickExtends(c: Config, s: State, order: seq<Addr>, turns: seq<Turn>, now: int)
    requires CoordinatorState.Shape(c, s)
    ensures ChannelsExtend(s, Tick(c, s, order, turns, now))
  {
    hide AssignAnyAll, AssignIdle, OnlyAssigns;
    var s1 := FreeStale(c, s, now);
    assert ChannelsExtend(s, s1);
    hide ChannelsExtend, FreeStale;
    var s2 := MaybeEnterEndgame(c, s1, order, now);
    EnteringExtends(c, s1, order, now);
    ExtendThen(s, s1, s2);
    AssigningExtends(c, s2, AssignIdle(c, s2, turns, now));
    ExtendThen(s, s2, AssignIdle(c, s2, turns, now));
  }

  lemma {:induction false} EnteringExtends(c: Config, s: State, order: seq<Addr>, now: int)
    requires CoordinatorState.Shape(c, s)
    ensures ChannelsExtend(s, MaybeEnterEndgame(c, s, order, now))
  {
    hide AssignAnyAll, OnlyAssigns;
    if EntersEndgame(s) {
      AssigningExtends(c, s.(endgame := true), AssignAnyAll(c, s.(endgame := true), order, now));
    }
  }

  lemma {:induction false} FinishExtends(c: Config, s: State, a: Addr, i: int, data: Bytes, delivered: bool)
    requires CoordinatorState.Shape(c, s) && 0 <= i < c.layout.pieceCount
    ensures ChannelsExtend(s, AfterPieceDownloaded(c, s, a, i, data, delivered))
  {
    hide Listed, Assignees;
    if s.pieces[i] != Complete {
      var r := Finish(s, a, i);
      forall b | b in r.peers ensures b in s.peers && Extends(s.peers[b].commands, r.peers[b].commands) {
        assert b in r.peers.Keys;
      }
      assert ChannelsExtend(s, r);
      hide Finish;
      assert ChannelsExtend(r, Idle(r, a));
      ExtendThen(s, r, Idle(r, a));
    }
  }

  lemma {:induction false} NotesExtend(c: Config, s: State, a: Addr)
    requires CoordinatorState.Shape(c, s)
    ensures ChannelsExtend(s, AfterInterestedReceived(c, s, a)) && ChannelsExtend(s, AfterChokeReceived(c, s, a))
    ensures ChannelsExtend(s, AfterBitfieldReplaced(c, s, a))
  {
    hide ChannelsExtend;
    NoteExtends(s, s, a, NEW_PEER);
    if a in s.peers {
      var p := s.peers[a];
      NoteExtends(s, AfterInterestedReceived(c, s, a), a, p.(interested := true));
      NoteExtends(s, AfterChokeReceived(c, s, a), a, p.(peerChoking := true));
      NoteExtends(s, AfterBitfieldReplaced(c, s, a), a, p.(shared := false));
    }
  }

  lemma {:induction false} NoteExtends(s: State, r: State, a: Addr, q: PeerInfo)
    requires r.peers == s.peers || (a in s.peers && q.commands == s.peers[a].commands && r.peers == s.peers[a := q])
    ensures ChannelsExtend(s, r)
  {
  }

  lemma {:induction false} WrittenBitExtends(c: Config, s: State, a: Addr, index: int)
    requires CoordinatorState.Shape(c, s) && 0 <= index < c.layout.pieceCount
    ensures ChannelsExtend(s, AfterBitWritten(c, s, a, index))
  {
  }

  lemma {:induction false} RecalcExtends(c: Config, s: State, regular: set<Addr>)
    requires CoordinatorState.Shape(c, s)
    ensures ChannelsExtend(s, CoordinatorState.RecalcChoke(c, s, regular))
  {
    hide UnchokeSet, KeepsOptimistic, Refuses;
  }

  lemma {:induction false} QuietExtends(c: Config, s: State, step: Step)
    requires CoordinatorState.Shape(c, s) && Enabled(c, s, step) && Quiet(step) && !step.WorkerTook?
    ensures ChannelsExtend(s, Next(c, s, step))
  {
    hide TryAssign, AfterPeerLeft, AfterPeerJoined, Tick, AfterPieceDownloaded, AfterPieceFailed,
         AfterBitfieldReceived, AfterHaveReceived, AfterUnchokeReceived, Drawn, Visits, TurnsDrawn, BestByRate,
         OptimisticCandidates, RecalcChoke, RotateOptimistic, AfterNotInterestedReceived, AfterInterestedReceived,
         AfterChokeReceived, AfterBitWritten, AfterBitfieldReplaced;
    match step
    case BecameInterested(a) => NotesExtend(c, s, a);
    case LostInterest(a) => LosingInterestExtends(c, s, a);
    case ChokedUs(a) => NotesExtend(c, s, a);
    case Rechoked(down, up, regular) => RecalcExtends(c, s, regular);
    case Rotated(optimistic) => RotationExtends(c, s, optimistic);
    case BitWritten(a, index) => WrittenBitExtends(c, s, a, index);
    case BitfieldReplaced(a) => NotesExtend(c, s, a);
    case ResultTaken =>
  }

  lemma {:induction false} ChokingExtends(c: Config, s: State, a: Addr, choked: bool)
    requires CoordinatorState.Shape(c, s)
    ensures ChannelsExtend(s, CoordinatorState.SetChoked(c, s, a, choked))
  {
  }

  lemma {:induction false} LosingInterestExtends(c: Config, s: State, a: Addr)
    requires CoordinatorState.Shape(c, s)
    ensures ChannelsExtend(s, AfterNotInterestedReceived(c, s, a))
  {
    hide CoordinatorState.SetChoked;
    if a in s.peers {
      var s1 := s.(peers := s.peers[a := s.peers[a].(interested := false)]);
      ChokingExtends(c, s1, a, true);
      ExtendThen(s, s1, CoordinatorState.SetChoked(c, s1, a, true));
    }
  }

  lemma {:induction false} RotationExtends(c: Config, s: State, pick: Option<Addr>)
    requires CoordinatorState.Shape(c, s)
    ensures ChannelsExtend(s, CoordinatorState.RotateOptimistic(c, s, pick))
  {
    hide CoordinatorState.SetChoked;
    ChokingExtends(c, s, s.optimisticAddr, true);
    var s1 := ReleaseOptimistic(c, s);
    assert ChannelsExtend(s, s1);
    if pick.Some? {
      var s2 := s1.(hasOptimistic := true, optimisticAddr := pick.value);
      ChokingExtends(c, s2, pick.value, false);
      ExtendThen(s, s1, CoordinatorState.RotateOptimistic(c, s, pick));
    }
  }

  lemma {:induction false} LeavingExtends(c: Config, s: State, a: Addr)
    requires CoordinatorState.Shape(c, s)
    ensures ChannelsExtend(s, AfterPeerLeft(c, s, a)) && a !in AfterPeerLeft(c, s, a).peers
    ensures AfterPeerJoined(c, s, a).peers == AfterPeerLeft(c, s, a).peers[a := NEW_PEER]
  {
    hide RemoveAvailability;
  }

  lemma {:induction false} FailureExtends(c: Config, s: State, a: Addr, i: int)
    requires CoordinatorState.Shape(c, s) && 0 <= i < c.layout.pieceCount
    ensures ChannelsExtend(s, AfterPieceFailed(c, s, a, i))
  {
    hide Release;
  }

  /** No step but the worker's own takes a command, and none takes one back. */
  lemma {:induction false} StepExtends(c: Config, s: State, step: Step)
    requires CoordinatorState.Shape(c, s) && Enabled(c, s, step) && !step.WorkerTook?
    ensures !step.Joined? ==> ChannelsExtend(s, Next(c, s, step))
    ensures step.Joined? ==>
      Next(c, s, step).peers == AfterPeerLeft(c, s, step.addr).peers[step.addr := NEW_PEER] &&
      ChannelsExtend(s, AfterPeerLeft(c, s, step.addr))
  {
    hide TryAssign, AfterPeerLeft, AfterPeerJoined, Tick, AfterPieceDownloaded, AfterPieceFailed, AfterBitfieldReceived,
         AfterHaveReceived, AfterUnchokeReceived, Drawn, Visits, TurnsDrawn, BestByRate, OptimisticCandidates,
         ChannelsExtend;
    match step
    case Joined(a) => LeavingExtends(c, s, a);
    case Left(a) => LeavingExtends(c, s, a);
    case GotBitfield(a, bits, pick, now) => BitfieldExtends(c, s, a, bits, pick, now);
    case GotHave(a, i, pick, now) => HaveExtends(c, s, a, i, pick, now);
    case Ready(a, pick, now) => ReadyExtends(c, s, a, pick, now);
    case UnchokedUs(a, pick, now) => UnchokeExtends(c, s, a, pick, now);
    case Ticked(order, turns, now) => TickExtends(c, s, order, turns, now);
    case Downloaded(a, i, data, delivered) => FinishExtends(c, s, a, i, data, delivered);
    case Failed(a, i) => FailureExtends(c, s, a, i);
    case _ => QuietExtends(c, s, step);
  }

  // ----- what holds in every joint run -----

  /** Only commands that came down the connection's own channel, in order; each of them well-formed. */
  ghost predicate Obeys(c: Config, n: Conn) {
    && n.taken <= |n.issued| && CommandsIn(n.inputs) == n.issued[..n.taken]
    && (n.reported == 0 ==> n.issued == [])
    && forall k :: 0 <= k < |n.issued| ==> WellFormed(c, n.issued[k])
  }

  /** The record under an address and the connection that owns it agree on the channel between them. */
  ghost predicate Agrees(w: World, a: Addr)
    requires a in w.client.coord.peers
  {
    && a in w.owner && w.owner[a] < |w.conns| && w.conns[w.owner[a]].addr == a && w.conns[w.owner[a]].reported > 0
    && var channel, n := w.client.coord.peers[a].commands, w.conns[w.owner[a]];
       n.issued == channel.Accepted() && n.taken == |channel.taken|
  }

  ghost predicate Consistent(c: Config, w: World) {
    && CoordinatorState.Shape(c, w.client.coord) && RecordsMatch(c, w.client.coord)
    && (forall a :: a in w.client.coord.peers ==> Agrees(w, a))
    && forall id :: 0 <= id < |w.conns| ==> Obeys(c, w.conns[id])
  }

  lemma {:induction false} StartIsConsistent(c: Config, sha: Bytes -> Digest, disk: Bytes)
    requires c.layout.Valid() && |disk| == c.layout.totalLength
    ensures Consistent(c, World(StartUp(c, sha, disk), [], map[]))
  {
  }

  lemma {:induction false} TakenAreAmong(inputs: seq<Input>)
    ensures CommandsAmong(inputs, CommandsIn(inputs))
  {
    if inputs != [] {
      var init, last := inputs[..|inputs| - 1], inputs[|inputs| - 1];
      TakenAreAmong(init);
      forall k | 0 <= k < |inputs| && inputs[k].FromCoordinator? ensures inputs[k].command in CommandsIn(inputs) {
        if k < |init| { assert inputs[k] == init[k] && init[k].command in CommandsIn(init); }
      }
    }
  }

  lemma {:induction false} OneMoreInput(inputs: seq<Input>, input: Input)
    ensures CommandsIn(inputs + [input]) == CommandsIn(inputs) + if input.FromCoordinator? then [input.command] else []
  {
    assert (inputs + [input])[..|inputs|] == inputs;
  }

  /** Whatever a connection reports is in range, under its own address, and genuine. */
  lemma {:induction false} EventsAreGenuine(c: Config, sha: Bytes -> Digest, n: Conn, e: Event)
    requires c.layout.Valid() && Obeys(c, n) && e in LifeOf(c, sha, n).link.events
    ensures e.addr == n.addr && Reportable(e, c.layout.pieceCount)
    ensures e.PeerJoined? ==> e == LifeOf(c, sha, n).link.events[0]
    ensures e.PieceDownloaded? ==> Genuine(c, sha, e.index, e.data)
  {
    hide RunConnection, CommandsAmong;
    TakenAreAmong(n.inputs);
    ReportsAreBacked(sha, n.addr, c.layout.pieceCount, n.faults, n.bits, n.inputs, n.issued[..n.taken]);
    var l := LifeOf(c, sha, n).link;
    var j :| 0 <= j < |l.events| && l.events[j] == e;
    assert Backed(sha, l, n.issued[..n.taken], e);
    if e.PieceDownloaded? {
      IssuedIsWellFormed(c, n, AssignPiece(e.index, |e.data|, sha(e.data)));
    } else if e.PieceFailed? {
      var command :| command in n.issued[..n.taken] && command.AssignPiece? && command.index == e.index;
      IssuedIsWellFormed(c, n, command);
    }
  }

  lemma {:induction false} IssuedIsWellFormed(c: Config, n: Conn, command: Command)
    requires c.layout.Valid() && Obeys(c, n) && command in n.issued[..n.taken] && command.AssignPiece?
    ensures 0 <= command.index < c.layout.pieceCount
    ensures command.length == c.layout.Size(command.index) && command.expectedHash == c.hashes[command.index]
  {
    var k :| 0 <= k < n.taken && n.issued[k] == command;
    assert WellFormed(c, n.issued[k]);
  }

  /** So the client can handle whatever is reported next, whatever else is going on. */
  lemma {:induction false} EveryReportCanBeHandled(c: Config, sha: Bytes -> Digest, w: World, act: Act)
    requires c.layout.Valid() && Consistent(c, w) && CanAct(c, sha, w, act)
    ensures MoveOf(c, sha, w, act).Some? ==> CanMove(c, sha, w.client, MoveOf(c, sha, w, act).value)
  {
    hide LifeOf, Genuine, Drawn, Visits, TurnsDrawn, BestByRate, OptimisticCandidates, Obeys, RecordsMatch, Store;
    if act.Report? {
      var n := w.conns[act.id];
      assert Obeys(c, n);
      EventsAreGenuine(c, sha, n, NextEvent(c, sha, n));
    }
  }

  lemma {:induction false} JoinsOnlyOnce(c: Config, sha: Bytes -> Digest, n: Conn)
    requires Obeys(c, n) && n.reported < |LifeOf(c, sha, n).link.events| && NextEvent(c, sha, n).PeerJoined?
    ensures n.reported == 0
  {
    hide RunConnection, CommandsAmong;
    TakenAreAmong(n.inputs);
    ReportsAreBacked(sha, n.addr, c.layout.pieceCount, n.faults, n.bits, n.inputs, n.issued[..n.taken]);
  }

  lemma {:induction false} TakingObeys(c: Config, n: Conn)
    requires Obeys(c, n) && n.taken < |n.issued|
    ensures Obeys(c, Taking(n))
  {
    OneMoreInput(n.inputs, FromCoordinator(n.issued[n.taken]));
    assert n.issued[..n.taken + 1] == n.issued[..n.taken] + [n.issued[n.taken]];
  }

  /** The record under an address as the coordinator leaves it, and the connection that owns it then. */
  ghost predicate CanSync(w: World, s: State, a: Addr)
    requires a in s.peers
  {
    && a in w.owner && w.owner[a] < |w.conns| && w.conns[w.owner[a]].addr == a && w.conns[w.owner[a]].reported > 0
    && var channel, n := s.peers[a].commands, w.conns[w.owner[a]];
       n.issued <= channel.Accepted() && n.taken == |channel.taken|
  }

  lemma {:induction false} SyncingObeys(c: Config, n: Conn, p: PeerInfo)
    requires Obeys(c, n) && RecordMatches(c, p) && n.reported > 0
    requires n.issued <= p.commands.Accepted()
    ensures Obeys(c, n.(issued := p.commands.Accepted()))
  {
    assert p.commands.Accepted()[..n.taken] == n.issued[..n.taken];
  }

  lemma {:induction false} SyncedIsConsistent(c: Config, w: World, client: Client)
    requires CoordinatorState.Shape(c, client.coord) && RecordsMatch(c, client.coord)
    requires forall id :: 0 <= id < |w.conns| ==> Obeys(c, w.conns[id])
    requires forall a :: a in client.coord.peers ==> CanSync(w, client.coord, a)
    ensures Consistent(c, Synced(w, client))
  {
    hide Obeys, RecordMatches;
    var r := Synced(w, client);
    forall id | 0 <= id < |w.conns| ensures Obeys(c, r.conns[id]) {
      var a := w.conns[id].addr;
      if Registered(w.(client := client), id) {
        assert CanSync(w, client.coord, a);
        SyncingObeys(c, w.conns[id], client.coord.peers[a]);
      }
    }
    forall a | a in client.coord.peers ensures Agrees(r, a) {
      assert CanSync(w, client.coord, a);
    }
  }

  /** Any step of the coordinator but a worker's taking a command. */
  lemma {:induction false} HandlingCanSync(c: Config, w: World, id: nat, step: Step)
    requires Consistent(c, w) && Enabled(c, w.client.coord, step) && !step.WorkerTook?
    requires step.Joined? ==> id < |w.conns| && w.conns[id].addr == step.addr && w.conns[id].reported == 0
    ensures var s := Next(c, w.client.coord, step);
      var conns :=
        if id < |w.conns| then w.conns[id := w.conns[id].(reported := w.conns[id].reported + 1)] else w.conns;
      var r := w.(conns := conns, owner := if step.Joined? then w.owner[step.addr := id] else w.owner);
      && (forall a :: a in s.peers ==> CanSync(r, s, a))
      && forall i :: 0 <= i < |conns| ==> Obeys(c, conns[i])
  {
    hide Next, Enabled, RecordsMatch;
    StepExtends(c, w.client.coord, step);
    var s0, s := w.client.coord, Next(c, w.client.coord, step);
    forall a | a in s.peers && !(step.Joined? && step.addr == a)
      ensures a in s0.peers && Extends(s0.peers[a].commands, s.peers[a].commands) && Agrees(w, a) {}
  }

  lemma {:induction false} TakingCanSync(c: Config, w: World, id: nat)
    requires Consistent(c, w) && id < |w.conns| && Registered(w, id) && w.conns[id].taken < |w.conns[id].issued|
    ensures var s := TakeCommand(c, w.client.coord, w.conns[id].addr);
      var r := w.(conns := w.conns[id := Taking(w.conns[id])]);
      && (forall a :: a in s.peers ==> CanSync(r, s, a))
      && forall i :: 0 <= i < |r.conns| ==> Obeys(c, r.conns[i])
  {
    hide RecordsMatch, Obeys;
    TakingObeys(c, w.conns[id]);
    var a := w.conns[id].addr;
    assert Agrees(w, a);
    var s := TakeCommand(c, w.client.coord, a);
    forall b | b in s.peers ensures CanSync(w.(conns := w.conns[id := Taking(w.conns[id])]), s, b) {
      assert Agrees(w, b);
    }
  }

  lemma {:induction false} ReadingKeepsConsistent(c: Config, w: World, id: nat, input: Input)
    requires Consistent(c, w) && id < |w.conns| && !input.FromCoordinator?
    ensures Consistent(c, w.(conns := w.conns[id := w.conns[id].(inputs := w.conns[id].inputs + [input])]))
  {
    hide RecordsMatch, CommandsIn;
    OneMoreInput(w.conns[id].inputs, input);
    assert Obeys(c, w.conns[id]);
    assert CommandsIn(w.conns[id].inputs) + [] == CommandsIn(w.conns[id].inputs);
    var r := w.(conns := w.conns[id := w.conns[id].(inputs := w.conns[id].inputs + [input])]);
    forall a | a in w.client.coord.peers ensures Agrees(r, a) { assert Agrees(w, a); }
  }

  lemma {:induction false} ConnectingKeepsConsistent(c: Config, w: World, n: Conn)
    requires Consistent(c, w) && n.inputs == [] && n.issued == [] && n.taken == n.reported == 0
    ensures Consistent(c, w.(conns := w.conns + [n]))
  {
    hide RecordsMatch;
    var r := w.(conns := w.conns + [n]);
    forall a | a in w.client.coord.peers ensures Agrees(r, a) { assert Agrees(w, a); }
    forall i | 0 <= i < |r.conns| ensures Obeys(c, r.conns[i]) {
      if i < |w.conns| { assert Obeys(c, w.conns[i]); }
    }
  }

  /** A retired connection reads on what its channel had accepted. */
  lemma {:induction false} LateTakingKeepsConsistent(c: Config, w: World, id: nat)
    requires Consistent(c, w) && id < |w.conns| && !Registered(w, id) && w.conns[id].taken < |w.conns[id].issued|
    ensures Consistent(c, w.(conns := w.conns[id := Taking(w.conns[id])]))
  {
    hide RecordsMatch, Obeys;
    TakingObeys(c, w.conns[id]);
    var r := w.(conns := w.conns[id := Taking(w.conns[id])]);
    forall a | a in w.client.coord.peers ensures Agrees(r, a) { assert Agrees(w, a); }
  }

  lemma {:induction false} MovingKeepsConsistent(c: Config, sha: Bytes -> Digest, w: World, act: Act)
    requires c.layout.Valid() && Consistent(c, w) && CanAct(c, sha, w, act) && MoveOf(c, sha, w, act).Some?
    ensures CanMove(c, sha, w.client, MoveOf(c, sha, w, act).value)
    ensures Consistent(c, Synced(Acted(c, sha, w, act), After(c, sha, w.client, MoveOf(c, sha, w, act).value)))
  {
    hide LifeOf, Genuine, Drawn, Visits, TurnsDrawn, BestByRate, OptimisticCandidates, Obeys, RecordsMatch, Store,
         Settled, Next, Enabled, TakeCommand, CanSync, Synced, Agrees;
    EveryReportCanBeHandled(c, sha, w, act);
    var m := MoveOf(c, sha, w, act).value;
    EndToEnd.MoveIsAStep(c, sha, w.client, m);
    StepKeepsRecords(c, w.client.coord, EndToEnd.StepOf(m));
    if act.Take? {
      TakingCanSync(c, w, act.id);
      TakingIsAStep(c, w.client.coord, w.conns[act.id].addr);
    } else if act.Report? {
      var n := w.conns[act.id];
      assert Obeys(c, n);
      var e := NextEvent(c, sha, n);
      EventsAreGenuine(c, sha, n, e);
      if e.PeerJoined? { JoinsOnlyOnce(c, sha, n); }
      HandlingCanSync(c, w, act.id, m.step);
    } else {
      HandlingCanSync(c, w, |w.conns|, EndToEnd.StepOf(m));
    }
    SyncedIsConsistent(c, Acted(c, sha, w, act), After(c, sha, w.client, m));
  }

  lemma {:induction false} TakingIsAStep(c: Config, s: State, a: Addr)
    requires CoordinatorState.Shape(c, s)
    ensures Enabled(c, s, WorkerTook(a)) && Next(c, s, WorkerTook(a)) == TakeCommand(c, s, a)
  {
  }

  lemma {:induction false} ActKeepsConsistent(c: Config, sha: Bytes -> Digest, w: World, act: Act)
    requires c.layout.Valid() && Consistent(c, w) && CanAct(c, sha, w, act)
    ensures Consistent(c, AfterAct(c, sha, w, act))
  {
    hide Consistent, LifeOf, Registered, CanMove, After, Synced, Settled, Enabled;
    ConsistentShape(c, w);
    if MoveOf(c, sha, w, act).Some? {
      MovingKeepsConsistent(c, sha, w, act);
    } else {
      match act
      case Connect(addr, faults, bits) => ConnectingKeepsConsistent(c, w, Conn(addr, faults, bits, [], [], 0, 0));
      case Read(id, input) => ReadingKeepsConsistent(c, w, id, input);
      case Take(id) => LateTakingKeepsConsistent(c, w, id);
    }
  }

  /** Every joint run is a run of the client: whatever the connections read, and however what they report is
      interleaved, the client always can handle it, and goes through the states that runs of the client go through. */
  lemma {:induction false} JointRunsAreClientRuns(
    c: Config, sha: Bytes -> Digest, disk: Bytes, worlds: seq<World>, acts: seq<Act>, k: nat)
    returns (trace: seq<Client>, moves: seq<Move>)
    requires IsJointRun(c, sha, disk, worlds, acts) && k < |worlds|
    ensures Consistent(c, worlds[k])
    ensures IsClientRun(c, sha, disk, trace, moves) && trace[|moves|] == worlds[k].client
    ensures forall act :: CanAct(c, sha, worlds[k], act) && MoveOf(c, sha, worlds[k], act).Some? ==>
      CanMove(c, sha, worlds[k].client, MoveOf(c, sha, worlds[k], act).value)
  {
    hide Consistent, CanAct, MoveOf, Acted, CanMove, After, Synced, StartUp, Enabled;
    if k == 0 {
      StartIsConsistent(c, sha, disk);
      trace, moves := [StartUp(c, sha, disk)], [];
    } else {
      var w, act := worlds[k - 1], acts[k - 1];
      trace, moves := JointRunsAreClientRuns(c, sha, disk, worlds, acts, k - 1);
      ActKeepsConsistent(c, sha, w, act);
      ClientOf(c, sha, w, act);
      var m := MoveOf(c, sha, w, act);
      if m.Some? {
        ClientRunsExtend(c, sha, disk, trace, moves, m.value);
        trace, moves := trace + [After(c, sha, trace[|moves|], m.value)], moves + [m.value];
      }
    }
    ConsistentShape(c, worlds[k]);
    forall act | CanAct(c, sha, worlds[k], act) && MoveOf(c, sha, worlds[k], act).Some?
      ensures CanMove(c, sha, worlds[k].client, MoveOf(c, sha, worlds[k], act).value)
    {
      EveryReportCanBeHandled(c, sha, worlds[k], act);
    }
  }

  lemma {:induction false} ConsistentShape(c: Config, w: World)
    requires Consistent(c, w)
    ensures CoordinatorState.Shape(c, w.client.coord)
  {
  }

  lemma {:induction false} ClientOf(c: Config, sha: Bytes -> Digest, w: World, act: Act)
    requires CoordinatorState.Shape(c, w.client.coord) && CanAct(c, sha, w, act)
    ensures var m := MoveOf(c, sha, w, act);
      AfterAct(c, sha, w, act).client ==
        if m.Some? && CanMove(c, sha, w.client, m.value) then After(c, sha, w.client, m.value) else w.client
  {
    hide LifeOf, CanMove, After, Settled, Enabled, Registered;
  }

  /** Integrity, with nothing assumed about workers: in every state of a joint run the pieces marked as had are exactly
      those that hash correctly on disk, and the next result can be written. */
  lemma {:induction false} HadPiecesAreVerifiedJointly(
    c: Config, sha: Bytes -> Digest, disk: Bytes, worlds: seq<World>, acts: seq<Act>, k: nat)
    requires IsJointRun(c, sha, disk, worlds, acts) && k < |worlds|
    ensures Intact(c, sha, worlds[k].client)
    ensures var y := worlds[k].client;
      && (forall i :: i in y.ledger.have <==>
            0 <= i < c.layout.pieceCount && Storage.OnDisk(sha, c.layout, c.hashes, y.ledger.disk, i))
      && (y.coord.results != [] ==> Store(c, y.ledger, y.coord.results[0]).Ok?)
  {
    hide IsJointRun, IsClientRun, Store, Consistent, CanAct, CanMove, MoveOf;
    var trace, moves := JointRunsAreClientRuns(c, sha, disk, worlds, acts, k);
    RunLength(c, sha, disk, trace, moves);
    HadPiecesAreVerified(c, sha, disk, trace, moves, |moves|);
  }

  lemma {:induction false} RunLength(
    c: Config, sha: Bytes -> Digest, disk: Bytes, trace: seq<Client>, moves: seq<Move>)
    requires IsClientRun(c, sha, disk, trace, moves)
    ensures |trace| == |moves| + 1
  {
  }

  /** In every state of a joint run, a connection that is up, is the registered one and has taken what it was sent is
      choking its peer exactly when the coordinator's record says so. */
  lemma {:induction false} WorkersAgreeJointly(
    c: Config, sha: Bytes -> Digest, disk: Bytes, worlds: seq<World>, acts: seq<Act>, k: nat, id: nat)
    requires IsJointRun(c, sha, disk, worlds, acts) && k < |worlds| && id < |worlds[k].conns|
    requires Registered(worlds[k], id) && worlds[k].conns[id].taken == |worlds[k].conns[id].issued|
    requires LifeOf(c, sha, worlds[k].conns[id]).Listening?
    ensures LifeOf(c, sha, worlds[k].conns[id]).link.amChoking ==
      worlds[k].client.coord.peers[worlds[k].conns[id].addr].choked
  {
    hide IsJointRun, IsClientRun, CanAct, CanMove, MoveOf, RunConnection;
    var trace, moves := JointRunsAreClientRuns(c, sha, disk, worlds, acts, k);
    var n := worlds[k].conns[id];
    assert Agrees(worlds[k], n.addr) && Obeys(c, n) && RecordMatches(c, worlds[k].client.coord.peers[n.addr]);
    assert n.issued[..n.taken] == n.issued;
    ChokeDecisionsReachThePeer(sha, n.addr, c.layout.pieceCount, n.faults, n.bits, n.inputs);
  }

  // ----- an address used twice -----

  /** A connection that reports leaving takes whatever record stands under its address with it, and no other. So it
      takes another connection's record exactly when the address has been joined again since. */
  lemma {:induction false} LeavingTakesTheAddress(c: Config, sha: Bytes -> Digest, w: World, act: Act)
    requires c.layout.Valid() && Consistent(c, w) && CanAct(c, sha, w, act)
    requires act.Report? && NextEvent(c, sha, w.conns[act.id]).PeerLeft?
    ensures var r, a := AfterAct(c, sha, w, act), w.conns[act.id].addr;
      && |r.conns| == |w.conns|
      && (forall j :: 0 <= j < |w.conns| ==> (Registered(r, j) <==> Registered(w, j) && w.conns[j].addr != a))
      && ((exists j :: 0 <= j < |w.conns| && j != act.id && Registered(w, j) && !Registered(r, j)) <==>
            a in w.client.coord.peers && w.owner[a] != act.id)
  {
    hide LifeOf, Genuine, RecordsMatch, Obeys, Settled, After, CanMove;
    var n := w.conns[act.id];
    assert Obeys(c, n);
    EventsAreGenuine(c, sha, n, NextEvent(c, sha, n));
    EveryReportCanBeHandled(c, sha, w, act);
    LeftMove(c, sha, w.client, n.addr);
    var r := AfterAct(c, sha, w, act);
    assert r.client.coord.peers.Keys == w.client.coord.peers.Keys - {n.addr} && r.owner == w.owner;
    forall j | 0 <= j < |w.conns| ensures r.conns[j].addr == w.conns[j].addr {}
    if n.addr in w.client.coord.peers {
      assert Agrees(w, n.addr);
      var j := w.owner[n.addr];
      assert Registered(w, j) && !Registered(r, j);
    }
  }

  lemma {:induction false} LeftMove(c: Config, sha: Bytes -> Digest, y: Client, a: Addr)
    requires CoordinatorState.Shape(c, y.coord)
    ensures CanMove(c, sha, y, Coordinate(Left(a)))
    ensures After(c, sha, y, Coordinate(Left(a))).coord.peers.Keys == y.coord.peers.Keys - {a}
  {
    hide RemoveAvailability, Release;
  }

  /** A connection that nothing goes wrong with, and what it has read. */
  function Plain(a: Addr, inputs: seq<Input>, reported: nat): Conn { Conn(a, NO_FAULTS, None, inputs, [], 0, reported) }

  lemma {:induction false} PlainLife(c: Config, sha: Bytes -> Digest, a: Addr, reported: nat)
    ensures var up, gone := LifeOf(c, sha, Plain(a, [], reported)), LifeOf(c, sha, Plain(a, [PeerClosed], reported));
      && up.Listening? && up.link.events == [PeerJoined(a)]
      && gone.Over? && gone.link.events == [PeerJoined(a), PeerLeft(a)]
  {
    assert [] + [PeerJoined(a)] == [PeerJoined(a)];
    assert [PeerJoined(a)] + [PeerLeft(a)] == [PeerJoined(a), PeerLeft(a)];
  }

  /** Registering connection id, whatever was registered under its address before. */
  lemma {:induction false} JoiningTakesTheAddress(c: Config, sha: Bytes -> Digest, w: World, id: nat, a: Addr)
    requires c.layout.Valid() && Consistent(c, w) && id < |w.conns| && w.conns[id] == Plain(a, [], 0)
    ensures CanAct(c, sha, w, Report(id, 0, 0, true, {}))
    ensures var r := AfterAct(c, sha, w, Report(id, 0, 0, true, {}));
      && Registered(r, id) && |r.conns| == |w.conns| && r.conns[id] == Plain(a, [], 1)
      && forall j :: 0 <= j < |w.conns| && j != id && w.conns[j].addr == a ==> r.conns[j] == w.conns[j]
  {
    hide LifeOf, RecordsMatch, Obeys, Settled, After, CanMove, Genuine;
    PlainLife(c, sha, a, 0);
    JoinedMove(c, sha, w.client, a);
  }

  lemma {:induction false} JoinedMove(c: Config, sha: Bytes -> Digest, y: Client, a: Addr)
    requires CoordinatorState.Shape(c, y.coord)
    ensures Settled(c, y.coord, Joined(a)) && CanMove(c, sha, y, Coordinate(Joined(a)))
    ensures var peers := After(c, sha, y, Coordinate(Joined(a))).coord.peers; a in peers && peers[a] == NEW_PEER
  {
    hide RemoveAvailability, Release;
  }

  /** Taking one possible act after another is a joint run. */
  lemma {:induction false} JointRunsExtend(
    c: Config, sha: Bytes -> Digest, disk: Bytes, worlds: seq<World>, acts: seq<Act>, act: Act)
    requires IsJointRun(c, sha, disk, worlds, acts)
    requires CoordinatorState.Shape(c, worlds[|acts|].client.coord) && CanAct(c, sha, worlds[|acts|], act)
    ensures IsJointRun(c, sha, disk, worlds + [AfterAct(c, sha, worlds[|acts|], act)], acts + [act])
    ensures IsJointRun(c, sha, disk, [World(StartUp(c, sha, disk), [], map[])], [])
  {
    hide CanAct, AfterAct, StartUp;
    var longer, more := worlds + [AfterAct(c, sha, worlds[|acts|], act)], acts + [act];
    forall k | 0 <= k < |more|
      ensures CoordinatorState.Shape(c, longer[k].client.coord) && CanAct(c, sha, longer[k], more[k])
      ensures longer[k + 1] == AfterAct(c, sha, longer[k], more[k])
    {
      if k < |acts| { assert more[k] == acts[k] && longer[k] == worlds[k] && longer[k + 1] == worlds[k + 1]; }
    }
  }

  ghost predicate JointlyReached(c: Config, sha: Bytes -> Digest, disk: Bytes, w: World) {
    exists worlds: seq<World>, acts: seq<Act> :: IsJointRun(c, sha, disk, worlds, acts) && worlds[|acts|] == w
  }

  lemma {:induction false} ReachedNext(c: Config, sha: Bytes -> Digest, disk: Bytes, w: World, act: Act)
    requires JointlyReached(c, sha, disk, w) && CoordinatorState.Shape(c, w.client.coord) && CanAct(c, sha, w, act)
    requires c.layout.Valid() && Consistent(c, w)
    ensures JointlyReached(c, sha, disk, AfterAct(c, sha, w, act)) && Consistent(c, AfterAct(c, sha, w, act))
  {
    hide CanAct, AfterAct, Consistent;
    var worlds, acts :| IsJointRun(c, sha, disk, worlds, acts) && worlds[|acts|] == w;
    JointRunsExtend(c, sha, disk, worlds, acts, act);
    var longer, more := worlds + [AfterAct(c, sha, w, act)], acts + [act];
    assert IsJointRun(c, sha, disk, longer, more) && longer[|more|] == AfterAct(c, sha, w, act);
    ActKeepsConsistent(c, sha, w, act);
  }

  lemma {:induction false} StartIsReached(c: Config, sha: Bytes -> Digest, disk: Bytes)
    requires c.layout.Valid() && |disk| == c.layout.totalLength
    ensures JointlyReached(c, sha, disk, World(StartUp(c, sha, disk), [], map[]))
    ensures Consistent(c, World(StartUp(c, sha, disk), [], map[]))
  {
    hide Consistent, StartUp;
    StartIsConsistent(c, sha, disk);
    ConsistentShape(c, World(StartUp(c, sha, disk), [], map[]));
    var worlds, acts: seq<Act> := [World(StartUp(c, sha, disk), [], map[])], [];
    assert IsJointRun(c, sha, disk, worlds, acts) && worlds[|acts|] == World(StartUp(c, sha, disk), [], map[]);
  }

  lemma {:induction false} OnlyConnections(c: Config, sha: Bytes -> Digest, w: World, a: Addr, id: nat)
    requires CoordinatorState.Shape(c, w.client.coord)
    ensures var act := Connect(a, NO_FAULTS, None);
      CanAct(c, sha, w, act) && AfterAct(c, sha, w, act) == w.(conns := w.conns + [Plain(a, [], 0)])
    ensures id < |w.conns| ==> var n := w.conns[id];
      && CanAct(c, sha, w, Read(id, PeerClosed))
      && AfterAct(c, sha, w, Read(id, PeerClosed)) == w.(conns := w.conns[id := n.(inputs := n.inputs + [PeerClosed])])
  {
    hide LifeOf;
  }

  /** Two connections from one address; the second has just registered. */
  lemma {:induction false} JoinedTwice(c: Config, sha: Bytes -> Digest, disk: Bytes, a: Addr) returns (w: World)
    requires c.layout.Valid() && |disk| == c.layout.totalLength
    ensures JointlyReached(c, sha, disk, w) && Consistent(c, w)
    ensures w.conns == [Plain(a, [], 1), Plain(a, [], 1)] && Registered(w, 1)
  {
    hide Consistent, Registered, StartUp, JointlyReached, AfterAct, CanAct;
    var join := Connect(a, NO_FAULTS, None);
    w := World(StartUp(c, sha, disk), [], map[]);
    StartIsReached(c, sha, disk);
    ConsistentShape(c, w);
    OnlyConnections(c, sha, w, a, 0);
    ReachedNext(c, sha, disk, w, join);
    w := AfterAct(c, sha, w, join);
    ConsistentShape(c, w);
    JoiningTakesTheAddress(c, sha, w, 0, a);
    ReachedNext(c, sha, disk, w, Report(0, 0, 0, true, {}));
    w := AfterAct(c, sha, w, Report(0, 0, 0, true, {}));
    ConsistentShape(c, w);
    OnlyConnections(c, sha, w, a, 0);
    ReachedNext(c, sha, disk, w, join);
    w := AfterAct(c, sha, w, join);
    assert w.conns == [Plain(a, [], 1), Plain(a, [], 0)];
    ConsistentShape(c, w);
    JoiningTakesTheAddress(c, sha, w, 1, a);
    ReachedNext(c, sha, disk, w, Report(1, 0, 0, true, {}));
    w := AfterAct(c, sha, w, Report(1, 0, 0, true, {}));
  }

  /** It happens: two connections come from one address, the first one's peer closes, and its leaving removes the record
      of the second, which is up and goes on listening; from then on the coordinator knows of neither. */
  lemma {:induction false} AddressReuseLosesRecord(c: Config, sha: Bytes -> Digest, disk: Bytes, a: Addr)
    requires c.layout.Valid() && |disk| == c.layout.totalLength
    ensures exists w: World :: JointlyReached(c, sha, disk, w) && LosesRecord(c, sha, w, a)
  {
    hide Consistent, StartUp, JointlyReached, AfterAct, CanAct, LifeOf;
    var w := JoinedTwice(c, sha, disk, a);
    ConsistentShape(c, w);
    OnlyConnections(c, sha, w, a, 0);
    ReachedNext(c, sha, disk, w, Read(0, PeerClosed));
    var closed := AfterAct(c, sha, w, Read(0, PeerClosed));
    ConsistentShape(c, closed);
    assert [] + [PeerClosed] == [PeerClosed];
    assert closed.conns == [Plain(a, [PeerClosed], 1), Plain(a, [], 1)] && Registered(closed, 1);
    LeavingLosesRecord(c, sha, closed, a);
  }

  /** The retired connection's next event is handled, and the other one's record is gone while it is still up. */
  ghost predicate LosesRecord(c: Config, sha: Bytes -> Digest, w: World, a: Addr) {
    && CoordinatorState.Shape(c, w.client.coord) && |w.conns| == 2 && w.conns[0].addr == w.conns[1].addr == a
    && Registered(w, 1) && LifeOf(c, sha, w.conns[1]).Listening?
    && CanAct(c, sha, w, Report(0, 0, 0, true, {})) && NextEvent(c, sha, w.conns[0]) == PeerLeft(a)
    && a !in AfterAct(c, sha, w, Report(0, 0, 0, true, {})).client.coord.peers
  }

  lemma {:induction false} LeavingLosesRecord(c: Config, sha: Bytes -> Digest, w: World, a: Addr)
    requires c.layout.Valid() && Consistent(c, w)
    requires w.conns == [Plain(a, [PeerClosed], 1), Plain(a, [], 1)] && Registered(w, 1)
    ensures LosesRecord(c, sha, w, a)
  {
    hide LifeOf, RecordsMatch, Obeys, After, CanMove, Genuine;
    PlainLife(c, sha, a, 1);
    LeftMove(c, sha, w.client, a);
  }
}
