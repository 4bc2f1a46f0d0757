/** One run of the client, from start-up on, at whose end it believes a two-piece torrent complete although its
    second piece is missing. Two peers have the first piece only; endgame gives it to both; the loser fails after
    the winner has delivered it. */
module EarlyCompletion {
  import opened Base
  import opened Events
  import opened Geometry
  import opened Storage
  import opened CoordinatorState
  import opened Pipeline

  const A := Addr(1, 1)
  const B := Addr(2, 2)

  const AT_A := Assignment(A, 0)
  const AT_B := Assignment(B, 0)

  /** Two pieces of one byte each; both should hold the byte 1. */
  function TwoPieces(sha: Bytes -> Digest): Config { Torrent(Layout(2, 1, 2), [sha([1]), sha([1])]) }

  function FirstPiece(sha: Bytes -> Digest): Command { AssignPiece(0, 1, sha([1])) }

  const TELLS := NEW_PEER.(gotBitfield := true, have := {0}, shared := true)

  /** A peer that has told us of the first piece and does not choke us. */
  function Peer(work: int, taken: seq<Command>, queued: seq<Command>): PeerInfo {
    TELLS.(peerChoking := false, assignedTo := work, commands := Channel(taken, queued))
  }

  /** The coordinator's state, as far as it changes in this run. */
  function At(
    first: PieceState, counts: int, peers: map<Addr, PeerInfo>, list: seq<Assignment>, endgame: bool,
    results: seq<PieceResult>): State
  {
    State([first, Missing], [counts, 0], peers, if list == [] then map[] else map[0 := list], endgame, results,
          false, Addr(0, 0), [0, 0], [0, 0], false)
  }

  /** An outcome is reported by a worker whose latest command was that very assignment. */
  predicate CarriesOut(s: State, step: Step) {
    step.Downloaded? || step.Failed? ==>
      && step.addr in s.peers
      && var taken := s.peers[step.addr].commands.taken;
         taken != [] && taken[|taken| - 1].AssignPiece? && taken[|taken| - 1].index == step.index
  }

  lemma {:induction false} SendToEmpty(taken: seq<Command>, command: Command)
    ensures Channel(taken, []).HasRoom() && Channel(taken, []).Send(command) == Channel(taken, [command])
  {
  }

  ghost predicate Goes(sha: Bytes -> Digest, s: State, step: Step, r: State) {
    && Shape(TwoPieces(sha), s) && Enabled(TwoPieces(sha), s, step) && Next(TwoPieces(sha), s, step) == r
    && CarriesOut(s, step) && (step.Failed? ==> FailsLate(s, step))
  }

  // ----- up to endgame -----

  lemma {:induction false} FirstPeerArrives(sha: Bytes -> Digest)
    ensures var c, none := TwoPieces(sha), At(Missing, 0, map[], [], false, []);
      && Initial(c) == none
      && Goes(sha, none, Joined(A), At(Missing, 0, map[A := NEW_PEER], [], false, []))
  {
    var none := At(Missing, 0, map[], [], false, []);
    assert none.peers[A := NEW_PEER] == map[A := NEW_PEER];
  }

  lemma {:induction false} FirstPeerTells(sha: Bytes -> Digest)
    ensures var c, s := TwoPieces(sha), At(Missing, 0, map[A := NEW_PEER], [], false, []);
      Goes(sha, s, GotBitfield(A, {0}, 0, 0), At(Missing, 1, map[A := TELLS], [], false, []))
  {
    var c, s := TwoPieces(sha), At(Missing, 0, map[A := NEW_PEER], [], false, []);
    var r := At(Missing, 1, map[A := TELLS], [], false, []);
    assert AddAvailability([0, 0], {0}) == [1, 0];
    assert s.peers[A := TELLS] == r.peers;
    assert BitfieldCounted(c, s, A, {0}) == r;
    assert Candidates(r, {0}) == {0};
    assert 0 in Rarest(r, {0});
  }

  lemma {:induction false} FirstPeerIsGivenWork(sha: Bytes -> Digest)
    ensures var c, s := TwoPieces(sha), At(Missing, 1, map[A := TELLS], [], false, []);
      Goes(sha, s, UnchokedUs(A, 0, 0), At(InFlight, 1, map[A := Peer(0, [], [FirstPiece(sha)])], [AT_A], false, []))
  {
    var c, s := TwoPieces(sha), At(Missing, 1, map[A := TELLS], [], false, []);
    var r := At(InFlight, 1, map[A := Peer(0, [], [FirstPiece(sha)])], [AT_A], false, []);
    var open := PeerUnchoked(c, s, A);
    assert open == At(Missing, 1, map[A := Peer(-1, [], [])], [], false, []);
    assert Candidates(open, {0}) == {0};
    assert 0 in Rarest(open, {0});
    assert AssignCommand(c, 0) == Some(FirstPiece(sha));
    assert Assignees(open, 0) + [AT_A] == [AT_A];
    assert SendAssign(c, open, A, 0, 0).assignments == map[0 := [AT_A]];
    SendToEmpty([], FirstPiece(sha));
    assert SendAssign(c, open, A, 0, 0).peers == map[A := Peer(-1, [], [FirstPiece(sha)])];
    assert Assign(c, open, A, 0, 0).peers == r.peers;
    assert Assign(c, open, A, 0, 0).pieces == r.pieces;
  }

  function Both(a: PeerInfo, b: PeerInfo): map<Addr, PeerInfo> { map[A := a, B := b] }

  lemma {:induction false} SetFirst(a: PeerInfo, b: PeerInfo, a': PeerInfo, b': PeerInfo)
    ensures Both(a, b)[A := a'] == Both(a', b) && Both(a, b)[B := b'] == Both(a, b')
    ensures map[A := a][B := b] == Both(a, b)
    ensures Both(a, b).Keys == {A, B}
  {
  }

  /** The second peer comes to stand where the first does, but finds the piece taken. */
  lemma {:induction false} SecondPeerArrives(sha: Bytes -> Digest)
    ensures var work := Peer(0, [], [FirstPiece(sha)]);
      Goes(sha, At(InFlight, 1, map[A := work], [AT_A], false, []), Joined(B),
           At(InFlight, 1, Both(work, NEW_PEER), [AT_A], false, []))
  {
  }

  lemma {:induction false} SecondPeerTells(sha: Bytes -> Digest)
    ensures var work := Peer(0, [], [FirstPiece(sha)]);
      Goes(sha, At(InFlight, 1, Both(work, NEW_PEER), [AT_A], false, []), GotBitfield(B, {0}, 0, 0),
           At(InFlight, 2, Both(work, TELLS), [AT_A], false, []))
  {
    var c, work := TwoPieces(sha), Peer(0, [], [FirstPiece(sha)]);
    SetFirst(work, NEW_PEER, work, TELLS);
    var joined := At(InFlight, 1, Both(work, NEW_PEER), [AT_A], false, []);
    var told := At(InFlight, 2, Both(work, TELLS), [AT_A], false, []);
    assert AddAvailability([1, 0], {0}) == [2, 0];
    assert BitfieldCounted(c, joined, B, {0}) == told;
    assert Candidates(told, {0}) == {};
  }

  lemma {:induction false} SecondPeerFindsNothing(sha: Bytes -> Digest)
    ensures var work := Peer(0, [], [FirstPiece(sha)]);
      Goes(sha, At(InFlight, 2, Both(work, TELLS), [AT_A], false, []), UnchokedUs(B, 0, 0),
           At(InFlight, 2, Both(work, Peer(-1, [], [])), [AT_A], false, []))
  {
    var c, work := TwoPieces(sha), Peer(0, [], [FirstPiece(sha)]);
    SetFirst(work, TELLS, work, Peer(-1, [], []));
    var told := At(InFlight, 2, Both(work, TELLS), [AT_A], false, []);
    var open := At(InFlight, 2, Both(work, Peer(-1, [], [])), [AT_A], false, []);
    assert PeerUnchoked(c, told, B) == open;
    assert Candidates(open, {0}) == {};
  }

  // ----- endgame -----

  const ORDER := [A, B]
  const TURNS := [Turn(A, 0), Turn(B, 0)]

  lemma {:induction false} OffersInOrder(sha: Bytes -> Digest)
    ensures var cmd := FirstPiece(sha);
      var s := At(InFlight, 2, Both(Peer(0, [], [cmd]), Peer(-1, [], [])), [AT_A], true, []);
      AssignAnyAll(TwoPieces(sha), s, ORDER, 0) ==
        At(InFlight, 2, Both(Peer(0, [], [cmd]), Peer(0, [], [cmd])), [AT_A, AT_B], true, [])
  {
    hide AssignAny;
    var c, cmd := TwoPieces(sha), FirstPiece(sha);
    var entered := At(InFlight, 2, Both(Peer(0, [], [cmd]), Peer(-1, [], [])), [AT_A], true, []);
    FirstIsBusy(sha, entered);
    SecondIsGiven(sha);
    assert ORDER[..1] == [A] && [A][..0] == [];
    assert AssignAnyAll(c, entered, [], 0) == entered;
    assert AssignAnyAll(c, entered, [A], 0) == entered;
  }

  lemma {:induction false} OrderVisitsBoth()
    ensures Visits(ORDER, {A, B}) && Addrs(TURNS) == ORDER
  {
  }

  lemma {:induction false} EntryTick(c: Config, s: State, order: seq<Addr>, turns: seq<Turn>, now: int, r: State)
    requires Shape(c, s) && FreeStale(c, s, now) == s && EntersEndgame(s)
    requires AssignAnyAll(c, s.(endgame := true), order, now) == r && AssignIdle(c, r, turns, now) == r
    requires Visits(order, s.peers.Keys) && Visits(Addrs(turns), s.peers.Keys) && TurnsDrawn(c, r, turns, now)
    ensures Enabled(c, s, Ticked(order, turns, now)) && Tick(c, s, order, turns, now) == r
  {
    hide AssignAnyAll, AssignIdle, TurnsDrawn, FreeStale, Visits, EntersEndgame, Addrs;
  }

  /** The tick enters endgame and gives the second peer the same piece. */
  lemma {:induction false} EndgameDoublesTheWork(sha: Bytes -> Digest)
    ensures var c, cmd := TwoPieces(sha), FirstPiece(sha);
      var s := At(InFlight, 2, Both(Peer(0, [], [cmd]), Peer(-1, [], [])), [AT_A], false, []);
      Goes(sha, s, Ticked(ORDER, TURNS, 0),
           At(InFlight, 2, Both(Peer(0, [], [cmd]), Peer(0, [], [cmd])), [AT_A, AT_B], true, []))
  {
    hide Tick, AssignAnyAll, AssignIdle, TurnsDrawn, FreeStale, Visits, Addrs, Peer, At, Both, EntersEndgame,
         Incomplete, Shape, ORDER, TURNS, FirstPiece, TwoPieces;
    var c, cmd := TwoPieces(sha), FirstPiece(sha);
    var s := At(InFlight, 2, Both(Peer(0, [], [cmd]), Peer(-1, [], [])), [AT_A], false, []);
    var r := At(InFlight, 2, Both(Peer(0, [], [cmd]), Peer(0, [], [cmd])), [AT_A, AT_B], true, []);
    EntersNow(sha);
    OrderVisitsBoth();
    OffersInOrder(sha);
    BothAreBusy(sha);
    EntryTick(c, s, ORDER, TURNS, 0, r);
  }

  lemma {:induction false} EntersNow(sha: Bytes -> Digest)
    ensures var c, cmd := TwoPieces(sha), FirstPiece(sha);
      var s := At(InFlight, 2, Both(Peer(0, [], [cmd]), Peer(-1, [], [])), [AT_A], false, []);
      && Shape(c, s) && s.peers.Keys == {A, B} && FreeStale(c, s, 0) == s && EntersEndgame(s)
      && s.(endgame := true) == At(InFlight, 2, Both(Peer(0, [], [cmd]), Peer(-1, [], [])), [AT_A], true, [])
  {
    var cmd := FirstPiece(sha);
    var s := At(InFlight, 2, Both(Peer(0, [], [cmd]), Peer(-1, [], [])), [AT_A], false, []);
    NothingIsStale(sha, s, [AT_A]);
    assert Incomplete(s.pieces) == {0, 1};
    SetFirst(Peer(0, [], [cmd]), Peer(-1, [], []), NEW_PEER, NEW_PEER);
  }

  lemma {:induction false} NothingIsStale(sha: Bytes -> Digest, s: State, list: seq<Assignment>)
    requires Shape(TwoPieces(sha), s) && s.assignments == map[0 := list] && list == [AT_A]
    ensures FreeStale(TwoPieces(sha), s, 0) == s
  {
    assert list[..0] == [];
    assert Kept(list, 0) == list;
    assert forall a :: !HasStale(list, a, 0);
    var r := FreeStale(TwoPieces(sha), s, 0);
    assert r.peers == s.peers && r.assignments == s.assignments && r.pieces == s.pieces;
  }

  lemma {:induction false} FirstIsBusy(sha: Bytes -> Digest, s: State)
    requires Shape(TwoPieces(sha), s) && A in s.peers && s.peers[A].assignedTo == 0
    ensures AssignAny(TwoPieces(sha), s, A, 0) == s
    ensures TryAssign(TwoPieces(sha), s, A, 0, 0) == s
  {
  }

  lemma {:induction false} SecondIsGiven(sha: Bytes -> Digest)
    ensures var cmd := FirstPiece(sha);
      AssignAny(TwoPieces(sha), At(InFlight, 2, Both(Peer(0, [], [cmd]), Peer(-1, [], [])), [AT_A], true, []), B, 0) ==
        At(InFlight, 2, Both(Peer(0, [], [cmd]), Peer(0, [], [cmd])), [AT_A, AT_B], true, [])
  {
    var c, cmd := TwoPieces(sha), FirstPiece(sha);
    var busy := Peer(0, [], [cmd]);
    var s := At(InFlight, 2, Both(busy, Peer(-1, [], [])), [AT_A], true, []);
    var best := FewestAssignees(s, {0}, 2);
    assert s.pieces[0] != Complete && 0 in {0};
    assert best == 0;
    assert AssignCommand(c, 0) == Some(cmd);
    SendToEmpty([], cmd);
    assert Assignees(s, 0) + [AT_B] == [AT_A, AT_B];
    assert SendAssign(c, s, B, 0, 0).assignments == map[0 := [AT_A, AT_B]];
    SetFirst(busy, Peer(-1, [], []), busy, Peer(-1, [], [cmd]));
    SetFirst(busy, Peer(-1, [], [cmd]), busy, busy);
  }

  lemma {:induction false} BothAreBusy(sha: Bytes -> Digest)
    ensures var c, busy := TwoPieces(sha), Peer(0, [], [FirstPiece(sha)]);
      var r := At(InFlight, 2, Both(busy, busy), [AT_A, AT_B], true, []);
      TurnsDrawn(c, r, TURNS, 0) && AssignIdle(c, r, TURNS, 0) == r && Addrs(TURNS) == ORDER
  {
    var c, busy := TwoPieces(sha), Peer(0, [], [FirstPiece(sha)]);
    var r := At(InFlight, 2, Both(busy, busy), [AT_A, AT_B], true, []);
    assert Candidates(r, {0}) == {};
    assert TURNS[..1] == [Turn(A, 0)] && [Turn(A, 0)][..0] == [];
    assert AssignIdle(c, r, [], 0) == r && TurnsDrawn(c, r, [], 0);
    assert AssignIdle(c, r, [Turn(A, 0)], 0) == r && TurnsDrawn(c, r, [Turn(A, 0)], 0);
  }

  lemma {:induction false} BothTakeIt(sha: Bytes -> Digest)
    ensures var c, cmd := TwoPieces(sha), FirstPiece(sha);
      var given, took := Peer(0, [], [cmd]), Peer(0, [cmd], []);
      var list := [AT_A, AT_B];
      && Goes(sha, At(InFlight, 2, Both(given, given), list, true, []), WorkerTook(A),
              At(InFlight, 2, Both(took, given), list, true, []))
      && Goes(sha, At(InFlight, 2, Both(took, given), list, true, []), WorkerTook(B),
              At(InFlight, 2, Both(took, took), list, true, []))
  {
    var cmd := FirstPiece(sha);
    TakeOnly([], cmd);
    SetFirst(Peer(0, [], [cmd]), Peer(0, [], [cmd]), Peer(0, [cmd], []), Peer(0, [cmd], []));
    SetFirst(Peer(0, [cmd], []), Peer(0, [], [cmd]), Peer(0, [cmd], []), Peer(0, [cmd], []));
  }

  lemma {:induction false} TakeOnly(taken: seq<Command>, command: Command)
    ensures Channel(taken, [command]).Take() == Channel(taken + [command], [])
    ensures [] + [command] == [command] && [command] + [command] == [command, command]
  {
  }

  // ----- the loser's failure -----

  function Delivered(): seq<PieceResult> { [PieceResult(0, [1])] }

  lemma {:induction false} LoserIsTold(took: PeerInfo, told: PeerInfo)
    requires took.assignedTo == 0 && took.commands.HasRoom()
    requires told == took.(assignedTo := -1, commands := took.commands.Send(CancelPiece(0)))
    ensures CancelOthers(Both(took, took), [AT_A, AT_B], 0, A) == Both(took, told)
  {
    var list := [AT_A, AT_B];
    assert list[1].addr == B && list[0].addr == A && Listed(list, B);
  }

  /** The winner delivers; the loser is told to stop, but has not read that yet. */
  lemma {:induction false} WinnerDelivers(sha: Bytes -> Digest)
    ensures var took := Peer(0, [FirstPiece(sha)], []);
      var idle, told := Peer(-1, [FirstPiece(sha)], []), Peer(-1, [FirstPiece(sha)], [CancelPiece(0)]);
      Goes(sha, At(InFlight, 2, Both(took, took), [AT_A, AT_B], true, []), Downloaded(A, 0, [1], true),
           At(Complete, 2, Both(idle, told), [], true, Delivered()))
  {
    hide CancelOthers;
    var cmd := FirstPiece(sha);
    var took, idle, told := Peer(0, [cmd], []), Peer(-1, [cmd], []), Peer(-1, [cmd], [CancelPiece(0)]);
    SendToEmpty([cmd], CancelPiece(0));
    LoserIsTold(took, told);
    assert At(InFlight, 2, Both(took, took), [AT_A, AT_B], true, []).assignments - {0} == map[];
    SetFirst(took, told, idle, told);
    assert [] + Delivered() == Delivered();
  }

  /** The loser's failure makes the piece missing again. */
  lemma {:induction false} LoserFails(sha: Bytes -> Digest)
    ensures var c, cmd := TwoPieces(sha), FirstPiece(sha);
      var peers := Both(Peer(-1, [cmd], []), Peer(-1, [cmd], [CancelPiece(0)]));
      Goes(sha, At(Complete, 2, peers, [], true, []), Failed(B, 0), At(Missing, 2, peers, [], true, []))
  {
    var cmd := FirstPiece(sha);
    var a, b := Peer(-1, [cmd], []), Peer(-1, [cmd], [CancelPiece(0)]);
    SetFirst(a, b, a, b);
    assert [Complete, Missing][0 := Missing] == [Missing, Missing];
  }

  /** The winner, idle, is given the piece once more, takes it and delivers it. */
  lemma {:induction false} GivenAgain(sha: Bytes -> Digest, b: PeerInfo)
    requires b.assignedTo == -1
    ensures var cmd := FirstPiece(sha);
      Goes(sha, At(Missing, 2, Both(Peer(-1, [cmd], []), b), [], true, []), Ready(A, 0, 0),
           At(InFlight, 2, Both(Peer(0, [cmd], [cmd]), b), [AT_A], true, []))
  {
    var c, cmd := TwoPieces(sha), FirstPiece(sha);
    var s := At(Missing, 2, Both(Peer(-1, [cmd], []), b), [], true, []);
    assert Candidates(s, {0}) == {0} && 0 in Rarest(s, {0});
    assert s.pieces[0] != Complete && 0 in {0};
    assert FewestAssignees(s, {0}, 2) == 0;
    assert AssignCommand(c, 0) == Some(cmd);
    SendToEmpty([cmd], cmd);
    assert Assignees(s, 0) + [AT_A] == [AT_A];
    assert SendAssign(c, s, A, 0, 0).assignments == map[0 := [AT_A]];
    SetFirst(Peer(-1, [cmd], []), b, Peer(-1, [cmd], [cmd]), b);
    SetFirst(Peer(-1, [cmd], [cmd]), b, Peer(0, [cmd], [cmd]), b);
    assert [Missing, Missing][0 := InFlight] == [InFlight, Missing];
  }

  lemma {:induction false} TakenAgain(sha: Bytes -> Digest, b: PeerInfo)
    requires b.assignedTo == -1
    ensures var cmd := FirstPiece(sha);
      Goes(sha, At(InFlight, 2, Both(Peer(0, [cmd], [cmd]), b), [AT_A], true, []), WorkerTook(A),
           At(InFlight, 2, Both(Peer(0, [cmd, cmd], []), b), [AT_A], true, []))
  {
    var cmd := FirstPiece(sha);
    TakeOnly([cmd], cmd);
    SetFirst(Peer(0, [cmd], [cmd]), b, Peer(0, [cmd, cmd], []), b);
  }

  lemma {:induction false} DeliveredAgain(sha: Bytes -> Digest, b: PeerInfo)
    requires b.assignedTo == -1
    ensures var cmd := FirstPiece(sha);
      Goes(sha, At(InFlight, 2, Both(Peer(0, [cmd, cmd], []), b), [AT_A], true, []), Downloaded(A, 0, [1], true),
           At(Complete, 2, Both(Peer(-1, [cmd, cmd], []), b), [], true, Delivered()))
  {
    var cmd := FirstPiece(sha);
    var took := At(InFlight, 2, Both(Peer(0, [cmd, cmd], []), b), [AT_A], true, []);
    var list := [AT_A];
    assert list[..0] == [];
    assert CancelOthers(took.peers, list, 0, A) == took.peers;
    assert took.assignments - {0} == map[];
    SetFirst(Peer(0, [cmd, cmd], []), b, Peer(-1, [cmd, cmd], []), b);
    assert [] + Delivered() == Delivered();
  }

  // ----- the disk -----

  lemma {:induction false} StoringIt(sha: Bytes -> Digest, g: Ledger)
    requires g.disk == [0, 0] || g.disk == [1, 0]
    ensures TwoPieces(sha).layout.Valid() && TwoPieces(sha).layout.Size(0) == 1
    ensures Store(TwoPieces(sha), g, PieceResult(0, [1])) ==
      Ok(Ledger([1, 0], g.have + {0}, g.completed + 1, g.bytesOwned + 1, g.complete || g.completed + 1 == 2))
  {
    var l := TwoPieces(sha).layout;
    assert l.Range(0) == Some((0, 1));
    assert WriteAt(g.disk, 0, [1]) == [1, 0];
  }

  lemma {:induction false} NothingOnDisk(sha: Bytes -> Digest)
    requires sha([0]) != sha([1])
    ensures TwoPieces(sha).layout.Valid()
    ensures StartUp(TwoPieces(sha), sha, [0, 0]) ==
      Client(At(Missing, 0, map[], [], false, []), Ledger([0, 0], {}, 0, 0, false), 0, [], [])
  {
    var c := TwoPieces(sha);
    var disk: Bytes := [0, 0];
    forall i | 0 <= i < 2 ensures !OnDisk(sha, c.layout, c.hashes, disk, i) {
      assert c.layout.Size(i) == 1 && c.layout.Start(i) == i;
      assert PieceBytes(c.layout, disk, i) == [0];
    }
    assert VerifiedOn(c, sha, disk) == {};
    NothingOwned(c.layout, {}, 2);
    assert MarkAll(c, {}).pieces == [Missing, Missing];
    assert Initial(c) == At(Missing, 0, map[], [], false, []);
  }

  // ----- the run -----

  /** Both peers join, tell of the first piece and stop choking us; a tick enters endgame; both take the piece; the
      first delivers, the second fails; the first asks for work, is given the piece again and delivers it again. */
  const RUN := [
    Coordinate(Joined(A)), Coordinate(GotBitfield(A, {0}, 0, 0)), Coordinate(UnchokedUs(A, 0, 0)),
    Coordinate(Joined(B)), Coordinate(GotBitfield(B, {0}, 0, 0)), Coordinate(UnchokedUs(B, 0, 0)),
    Coordinate(Ticked(ORDER, TURNS, 0)), Coordinate(WorkerTook(A)), Coordinate(WorkerTook(B)),
    Coordinate(Downloaded(A, 0, [1], true)), StoreResult, Coordinate(Failed(B, 0)),
    Coordinate(Ready(A, 0, 0)), Coordinate(WorkerTook(A)), Coordinate(Downloaded(A, 0, [1], true)), StoreResult]

  /** The first k moves are a run that ends in y, and each outcome in it is one that a worker was carrying out. */
  ghost predicate Leads(sha: Bytes -> Digest, trace: seq<Client>, k: nat, y: Client)
    requires k <= |RUN|
  {
    && IsClientRun(TwoPieces(sha), sha, [0, 0], trace, RUN[..k]) && trace[k] == y
    && forall j :: 0 <= j < k && RUN[j].Coordinate? ==> CarriesOut(trace[j].coord, RUN[j].step)
  }

  ghost predicate Reached(sha: Bytes -> Digest, k: nat, y: Client) {
    k <= |RUN| && exists trace: seq<Client> :: Leads(sha, trace, k, y)
  }

  lemma {:induction false} ReachedNext(sha: Bytes -> Digest, k: nat, y: Client, r: Client)
    requires k < |RUN| && Reached(sha, k, y)
    requires Shape(TwoPieces(sha), y.coord) && CanMove(TwoPieces(sha), sha, y, RUN[k])
    requires r == After(TwoPieces(sha), sha, y, RUN[k]) && (RUN[k].Coordinate? ==> CarriesOut(y.coord, RUN[k].step))
    ensures Reached(sha, k + 1, r)
  {
    hide IsClientRun, CanMove, After, CarriesOut, TwoPieces, RUN;
    var trace :| Leads(sha, trace, k, y);
    MovesSoFar(sha, trace, k);
    var moves := RUN[..k];
    ClientRunsExtend(TwoPieces(sha), sha, [0, 0], trace, moves, RUN[k]);
    assert moves + [RUN[k]] == RUN[..k + 1];
    assert Leads(sha, trace + [r], k + 1, r);
  }

  lemma {:induction false} MovesSoFar(sha: Bytes -> Digest, trace: seq<Client>, k: nat)
    requires k <= |RUN| && IsClientRun(TwoPieces(sha), sha, [0, 0], trace, RUN[..k])
    ensures |trace| == k + 1
  {
  }

  lemma {:induction false} Begins(sha: Bytes -> Digest)
    requires sha([0]) != sha([1])
    ensures Reached(sha, 0, Client(At(Missing, 0, map[], [], false, []), NOTHING, 0, [], []))
  {
    NothingOnDisk(sha);
    var start := StartUp(TwoPieces(sha), sha, [0, 0]);
    assert Leads(sha, [start], 0, start);
  }

  /** A coordinator step that drops nothing, and is a late failure if it is a failure at all. */
  lemma {:induction false} StepOn(sha: Bytes -> Digest, k: nat, y: Client, step: Step, r: State)
    requires Reached(sha, k, y) && k < |RUN| && RUN[k] == Coordinate(step)
    requires Goes(sha, y.coord, step, r)
    ensures Reached(sha, k + 1, y.(coord := r, late := y.late + if step.Failed? then 1 else 0))
  {
    hide Next, Enabled, CarriesOut, Reached;
    StoringIt(sha, NOTHING);
    assert y.dropped + [] == y.dropped;
    ReachedNext(sha, k, y, y.(coord := r, late := y.late + if step.Failed? then 1 else 0));
  }

  lemma {:induction false} TheRun()
    ensures |RUN| == 16
    ensures RUN[0] == Coordinate(Joined(A)) && RUN[3] == Coordinate(Joined(B))
    ensures RUN[1] == Coordinate(GotBitfield(A, {0}, 0, 0)) && RUN[4] == Coordinate(GotBitfield(B, {0}, 0, 0))
    ensures RUN[2] == Coordinate(UnchokedUs(A, 0, 0)) && RUN[5] == Coordinate(UnchokedUs(B, 0, 0))
    ensures RUN[6] == Coordinate(Ticked(ORDER, TURNS, 0))
    ensures RUN[7] == RUN[13] == Coordinate(WorkerTook(A)) && RUN[8] == Coordinate(WorkerTook(B))
    ensures RUN[9] == RUN[14] == Coordinate(Downloaded(A, 0, [1], true)) && RUN[10] == RUN[15] == StoreResult
    ensures RUN[11] == Coordinate(Failed(B, 0)) && RUN[12] == Coordinate(Ready(A, 0, 0))
  {
  }

  lemma {:induction false} StoreOn(
    sha: Bytes -> Digest, k: nat, a: PeerInfo, b: PeerInfo, g: Ledger, late: nat, again: seq<int>)
    requires Reached(sha, k, Client(At(Complete, 2, Both(a, b), [], true, Delivered()), g, late, [], again))
    requires a.assignedTo == b.assignedTo == -1
    requires k < |RUN| && RUN[k] == StoreResult && (g.disk == [0, 0] || g.disk == [1, 0])
    ensures Reached(sha, k + 1, Client(At(Complete, 2, Both(a, b), [], true, []),
      Ledger([1, 0], g.have + {0}, g.completed + 1, g.bytesOwned + 1, g.complete || g.completed + 1 == 2),
      late, [], again + if 0 in g.have then [0] else []))
  {
    hide Reached, Store;
    var y := Client(At(Complete, 2, Both(a, b), [], true, Delivered()), g, late, [], again);
    StoringIt(sha, g);
    assert Delivered()[1..] == [];
    ReachedNext(sha, k, y, After(TwoPieces(sha), sha, y, StoreResult));
  }

  lemma {:induction false} Idle(taken: seq<Command>, queued: seq<Command>)
    ensures Peer(-1, taken, queued).assignedTo == -1
  {
  }

  const NOTHING := Ledger([0, 0], {}, 0, 0, false)

  lemma {:induction false} Join(sha: Bytes -> Digest)
    requires sha([0]) != sha([1])
    ensures Reached(sha, 6, Client(
      At(InFlight, 2, Both(Peer(0, [], [FirstPiece(sha)]), Peer(-1, [], [])), [AT_A], false, []), NOTHING, 0, [], []))
  {
    hide Reached, Goes, TwoPieces, RUN, ORDER, TURNS, At, Peer, Both, FirstPiece;
    var work := Peer(0, [], [FirstPiece(sha)]);
    var none, one := At(Missing, 0, map[], [], false, []), At(Missing, 0, map[A := NEW_PEER], [], false, []);
    var told := At(Missing, 1, map[A := TELLS], [], false, []);
    var busy := At(InFlight, 1, map[A := work], [AT_A], false, []);
    var two := At(InFlight, 1, Both(work, NEW_PEER), [AT_A], false, []);
    var both := At(InFlight, 2, Both(work, TELLS), [AT_A], false, []);
    var open := At(InFlight, 2, Both(work, Peer(-1, [], [])), [AT_A], false, []);
    Begins(sha);
    FirstPeerArrives(sha);
    FirstPeerTells(sha);
    FirstPeerIsGivenWork(sha);
    SecondPeerArrives(sha);
    SecondPeerTells(sha);
    SecondPeerFindsNothing(sha);
    TheRun();
    StepOn(sha, 0, Client(none, NOTHING, 0, [], []), Joined(A), one);
    StepOn(sha, 1, Client(one, NOTHING, 0, [], []), GotBitfield(A, {0}, 0, 0), told);
    StepOn(sha, 2, Client(told, NOTHING, 0, [], []), UnchokedUs(A, 0, 0), busy);
    StepOn(sha, 3, Client(busy, NOTHING, 0, [], []), Joined(B), two);
    StepOn(sha, 4, Client(two, NOTHING, 0, [], []), GotBitfield(B, {0}, 0, 0), both);
    StepOn(sha, 5, Client(both, NOTHING, 0, [], []), UnchokedUs(B, 0, 0), open);
  }

  lemma {:induction false} Double(sha: Bytes -> Digest)
    requires sha([0]) != sha([1])
    ensures var took := Peer(0, [FirstPiece(sha)], []);
      Reached(sha, 9, Client(At(InFlight, 2, Both(took, took), [AT_A, AT_B], true, []), NOTHING, 0, [], []))
  {
    hide Reached, Goes, TwoPieces, RUN, ORDER, TURNS, At, Peer, Both, FirstPiece;
    var cmd, list := FirstPiece(sha), [AT_A, AT_B];
    var given, took := Peer(0, [], [cmd]), Peer(0, [cmd], []);
    var s6, s7 := At(InFlight, 2, Both(given, Peer(-1, [], [])), [AT_A], false, []),
                  At(InFlight, 2, Both(given, given), list, true, []);
    var s8, s9 := At(InFlight, 2, Both(took, given), list, true, []), At(InFlight, 2, Both(took, took), list, true, []);
    Join(sha);
    EndgameDoublesTheWork(sha);
    BothTakeIt(sha);
    TheRun();
    StepOn(sha, 6, Client(s6, NOTHING, 0, [], []), Ticked(ORDER, TURNS, 0), s7);
    StepOn(sha, 7, Client(s7, NOTHING, 0, [], []), WorkerTook(A), s8);
    StepOn(sha, 8, Client(s8, NOTHING, 0, [], []), WorkerTook(B), s9);
  }

  const FIRST := Ledger([1, 0], {0}, 1, 1, false)

  lemma {:induction false} Win(sha: Bytes -> Digest)
    requires sha([0]) != sha([1])
    ensures var idle, told := Peer(-1, [FirstPiece(sha)], []), Peer(-1, [FirstPiece(sha)], [CancelPiece(0)]);
      Reached(sha, 11, Client(At(Complete, 2, Both(idle, told), [], true, []), FIRST, 0, [], []))
  {
    hide Reached, Goes, TwoPieces, RUN, ORDER, TURNS, At, Peer, Both, FirstPiece;
    var cmd := FirstPiece(sha);
    var took, idle, told := Peer(0, [cmd], []), Peer(-1, [cmd], []), Peer(-1, [cmd], [CancelPiece(0)]);
    var s9 := At(InFlight, 2, Both(took, took), [AT_A, AT_B], true, []);
    var s10 := At(Complete, 2, Both(idle, told), [], true, Delivered());
    var none: seq<int> := [];
    assert {} + {0} == {0} && none + [] == none;
    Idle([cmd], []);
    Idle([cmd], [CancelPiece(0)]);
    Double(sha);
    WinnerDelivers(sha);
    TheRun();
    StepOn(sha, 9, Client(s9, NOTHING, 0, [], []), Downloaded(A, 0, [1], true), s10);
    StoreOn(sha, 10, idle, told, NOTHING, 0, []);
  }

  const SECOND := Ledger([1, 0], {0}, 2, 2, true)

  lemma {:induction false} Lose(sha: Bytes -> Digest)
    requires sha([0]) != sha([1])
    ensures exists s: State :: Reached(sha, 16, Client(s, SECOND, 1, [], [0]))
  {
    hide Reached, Goes, TwoPieces, RUN, ORDER, TURNS, At, Peer, Both, FirstPiece;
    var cmd := FirstPiece(sha);
    var b := Peer(-1, [cmd], [CancelPiece(0)]);
    var s11, s12 := At(Complete, 2, Both(Peer(-1, [cmd], []), b), [], true, []),
                    At(Missing, 2, Both(Peer(-1, [cmd], []), b), [], true, []);
    var s13 := At(InFlight, 2, Both(Peer(0, [cmd], [cmd]), b), [AT_A], true, []);
    var s14 := At(InFlight, 2, Both(Peer(0, [cmd, cmd], []), b), [AT_A], true, []);
    var a := Peer(-1, [cmd, cmd], []);
    var s15 := At(Complete, 2, Both(a, b), [], true, Delivered());
    assert {0} + {0} == {0} && [] + [0] == [0];
    Idle([cmd, cmd], []);
    Idle([cmd], [CancelPiece(0)]);
    Win(sha);
    LoserFails(sha);
    GivenAgain(sha, b);
    TakenAgain(sha, b);
    DeliveredAgain(sha, b);
    TheRun();
    StepOn(sha, 11, Client(s11, FIRST, 0, [], []), Failed(B, 0), s12);
    StepOn(sha, 12, Client(s12, FIRST, 1, [], []), Ready(A, 0, 0), s13);
    StepOn(sha, 13, Client(s13, FIRST, 1, [], []), WorkerTook(A), s14);
    StepOn(sha, 14, Client(s14, FIRST, 1, [], []), Downloaded(A, 0, [1], true), s15);
    StoreOn(sha, 15, a, b, FIRST, 1, []);
  }

  /** From start-up on, with every outcome reported by a worker that was carrying out that assignment: one late failure,
      and the client counts two pieces, announces that nothing is left and is complete, while the second piece was never
      downloaded and does not check out. */
  lemma {:induction false} CompleteWithAPieceMissing(sha: Bytes -> Digest)
    requires sha([0]) != sha([1])
    ensures TwoPieces(sha).layout.Valid() && exists trace: seq<Client> ::
      && IsClientRun(TwoPieces(sha), sha, [0, 0], trace, RUN)
      && (forall k :: 0 <= k < |RUN| && RUN[k].Coordinate? ==> CarriesOut(trace[k].coord, RUN[k].step))
      && var end := trace[|RUN|];
         && end.ledger.complete && end.ledger.completed == 2 && Announced(TwoPieces(sha), end.ledger) == 0
         && end.ledger.disk == [1, 0] && end.ledger.have == {0} && end.late == 1 && end.again == [0]
         && !OnDisk(sha, TwoPieces(sha).layout, TwoPieces(sha).hashes, end.ledger.disk, 1)
  {
    Lose(sha);
    var s: State :| Reached(sha, 16, Client(s, SECOND, 1, [], [0]));
    var trace :| Leads(sha, trace, 16, Client(s, SECOND, 1, [], [0]));
    assert RUN[..16] == RUN;
    HadPiecesAreVerified(TwoPieces(sha), sha, [0, 0], trace, RUN, 16);
  }
}
