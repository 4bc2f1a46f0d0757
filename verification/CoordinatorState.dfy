/** The coordinator's state and, for every event and timer, the state that handling it leaves behind. What the
    source leaves open (which rarest piece is drawn, in which order a map is visited, whose rates are best) is a
    parameter of the step. */
module CoordinatorState {
  import opened Base
  import opened Events
  import opened Geometry

  const ASSIGNMENT_TIMEOUT := 30 * 1_000_000_000
  const ENDGAME_THRESHOLD := 10
  const UNCHOKE_SLOTS := 4

  datatype Torrent = Torrent(layout: Layout, hashes: seq<Digest>) {
    predicate Valid() { layout.pieceLength > 0 && 0 <= layout.pieceCount == |hashes| }
  }

  type Config = t: Torrent | t.Valid() witness Torrent(Layout(0, 1, 0), [])

  datatype PieceState = Missing | InFlight | Complete

  /** A registered peer. The bitfield it was registered with is the coordinator's own; the one it accepted from the peer
      is the very slice that the peer's worker goes on writing to: shared says that have is still that slice. */
  datatype PeerInfo = PeerInfo(
    commands: Channel,
    have: set<int>,
    assignedTo: int,
    interested: bool,
    choked: bool,
    peerChoking: bool,
    gotBitfield: bool,
    shared: bool)

  const NEW_PEER := PeerInfo(NEW_CHANNEL, {}, -1, false, true, true, false, false)

  datatype Assignment = Assignment(addr: Addr, at: int)

  datatype State = State(
    pieces: seq<PieceState>,
    availability: seq<int>,
    peers: map<Addr, PeerInfo>,
    assignments: map<nat, seq<Assignment>>,
    endgame: bool,
    results: seq<PieceResult>,
    hasOptimistic: bool,
    optimisticAddr: Addr,
    // History, never read by a step: how often an accepted bitfield replaced a piece already counted from a have, how
    // often a worker set a bit of a shared bitfield before its have was counted, and whether any choke or unchoke send
    // has been refused by a full channel.
    overwritten: seq<nat>,
    uncounted: seq<nat>,
    refused: bool)

  predicate Shape(c: Config, s: State) {
    && |s.pieces| == |s.availability| == |s.overwritten| == |s.uncounted| == c.layout.pieceCount
    && (forall i :: i in s.assignments ==> 0 <= i < c.layout.pieceCount)
    && (forall a :: a in s.peers ==> -1 <= s.peers[a].assignedTo < c.layout.pieceCount)
  }

  function Initial(c: Config): (s: State)
    ensures Shape(c, s)
  {
    var n := c.layout.pieceCount;
    State(seq(n, _ => Missing), seq(n, _ => 0), map[], map[], false, [], false, Addr(0, 0),
          seq(n, _ => 0), seq(n, _ => 0), false)
  }

  function MarkComplete(c: Config, s: State, index: int): (r: State)
    requires Shape(c, s) && 0 <= index < c.layout.pieceCount
    ensures Shape(c, r)
  {
    s.(pieces := s.pieces[index := Complete])
  }

  // ----- assignee lists -----

  function Assignees(s: State, index: int): seq<Assignment> {
    if index in s.assignments then s.assignments[index] else []
  }

  predicate Listed(list: seq<Assignment>, a: Addr) {
    exists k :: 0 <= k < |list| && list[k].addr == a
  }

  function RemoveFirst(list: seq<Assignment>, a: Addr): seq<Assignment> {
    if list == [] then []
    else if list[0].addr == a then list[1..]
    else [list[0]] + RemoveFirst(list[1..], a)
  }

  predicate Fresh(entry: Assignment, now: int) { now - entry.at < ASSIGNMENT_TIMEOUT }

  function Kept(list: seq<Assignment>, now: int): seq<Assignment> {
    if list == [] then []
    else
      var last := list[|list| - 1];
      Kept(list[..|list| - 1], now) + if Fresh(last, now) then [last] else []
  }

  predicate HasStale(list: seq<Assignment>, a: Addr, now: int) {
    exists k :: 0 <= k < |list| && list[k].addr == a && !Fresh(list[k], now)
  }

  function RemoveAssignee(s: State, index: int, a: Addr): (r: State)
    ensures r == s.(assignments := r.assignments)
  {
    if Listed(Assignees(s, index), a)
    then s.(assignments := s.assignments[index := RemoveFirst(Assignees(s, index), a)])
    else s
  }

  /** Takes a off index's list; a list left empty puts the piece back to missing. */
  function Release(c: Config, s: State, index: int, a: Addr): (r: State)
    requires Shape(c, s) && 0 <= index < c.layout.pieceCount
    ensures Shape(c, r)
    ensures r == s.(pieces := r.pieces, assignments := r.assignments)
  {
    var s1 := RemoveAssignee(s, index, a);
    if Assignees(s1, index) == [] then s1.(pieces := s1.pieces[index := Missing]) else s1
  }

  function Idle(s: State, a: Addr): (r: State)
    ensures r == s.(peers := r.peers) && r.peers.Keys == s.peers.Keys
    ensures forall b :: b in r.peers ==> r.peers[b] == if b == a then s.peers[a].(assignedTo := -1) else s.peers[b]
  {
    if a in s.peers then s.(peers := s.peers[a := s.peers[a].(assignedTo := -1)]) else s
  }

  // ----- selecting and assigning -----

  function Incomplete(pieces: seq<PieceState>): set<int> {
    set i | 0 <= i < |pieces| && pieces[i] != Complete
  }

  function Candidates(s: State, have: set<int>): set<int> {
    set i | 0 <= i < |s.pieces| && s.pieces[i] == Missing && i in have
  }

  /** The missing pieces in have that the fewest connected peers hold. */
  function Rarest(s: State, have: set<int>): set<int>
    requires |s.pieces| == |s.availability|
  {
    set i | i in Candidates(s, have) &&
      forall j :: j in Candidates(s, have) ==> s.availability[i] <= s.availability[j]
  }

  function AssignCommand(c: Config, index: int): Option<Command> {
    match c.layout.Length(index)
    case None => None
    case Some(length) => Some(AssignPiece(index, length, c.hashes[index]))
  }

  /** Sends an assign command and records it, unless the channel is full. */
  function SendAssign(c: Config, s: State, a: Addr, index: int, now: int): (r: State)
    requires Shape(c, s)
    ensures Shape(c, r)
  {
    if a !in s.peers || !s.peers[a].commands.HasRoom() then s
    else
      match AssignCommand(c, index)
      case None => s
      case Some(command) =>
        var p := s.peers[a];
        s.(pieces := s.pieces[index := InFlight],
           assignments := s.assignments[index := Assignees(s, index) + [Assignment(a, now)]],
           peers := s.peers[a := p.(commands := p.commands.Send(command))])
  }

  predicate CanSend(s: State, a: Addr) { a in s.peers && s.peers[a].commands.HasRoom() }

  function Assign(c: Config, s: State, a: Addr, index: int, now: int): (r: State)
    requires Shape(c, s) && 0 <= index < c.layout.pieceCount
    ensures Shape(c, r)
  {
    if CanSend(s, a)
    then
      var s1 := SendAssign(c, s, a, index, now);
      s1.(peers := s1.peers[a := s1.peers[a].(assignedTo := index)])
    else s
  }

  /** An idle peer with room in its channel has been given a piece and told so. */
  ghost predicate GivenPiece(c: Config, before: PeerInfo, after: PeerInfo) {
    && before.assignedTo < 0 && before.commands.HasRoom()
    && AssignCommand(c, after.assignedTo).Some?
    && after == before.(assignedTo := after.assignedTo,
                        commands := before.commands.Send(AssignCommand(c, after.assignedTo).value))
  }

  /** All that handing out work may change: idle peers are given pieces, and missing pieces go in flight. */
  ghost predicate OnlyAssigns(c: Config, s: State, r: State) {
    && r == s.(pieces := r.pieces, peers := r.peers, assignments := r.assignments)
    && |r.pieces| == |s.pieces|
    && (forall i :: 0 <= i < |s.pieces| ==>
          r.pieces[i] == s.pieces[i] || (s.pieces[i] == Missing && r.pieces[i] == InFlight))
    && r.peers.Keys == s.peers.Keys
    && (forall a :: a in s.peers ==> r.peers[a] == s.peers[a] || GivenPiece(c, s.peers[a], r.peers[a]))
  }

  /** What sending an assignment and recording it amounts to. */
  lemma {:induction false} AssignEffect(c: Config, s: State, a: Addr, index: int, now: int)
    requires Shape(c, s) && CanSend(s, a) && 0 <= index < c.layout.pieceCount
    ensures AssignCommand(c, index).Some?
    ensures var p := s.peers[a];
      Assign(c, s, a, index, now) == s.(
        pieces := s.pieces[index := InFlight],
        assignments := s.assignments[index := Assignees(s, index) + [Assignment(a, now)]],
        peers := s.peers[a := p.(commands := p.commands.Send(AssignCommand(c, index).value), assignedTo := index)])
  {
    var p, command := s.peers[a], AssignCommand(c, index).value;
    var sent := p.(commands := p.commands.Send(command));
    assert SendAssign(c, s, a, index, now).peers == s.peers[a := sent];
    hide SendAssign, Assignees, Shape, AssignCommand, Channel.Send, Channel.HasRoom;
    SetTwice(s.peers, a, sent, sent.(assignedTo := index));
  }

  lemma {:induction false} SetTwice(peers: map<Addr, PeerInfo>, a: Addr, p: PeerInfo, q: PeerInfo)
    ensures peers[a := p][a := q] == peers[a := q]
  {
  }

  lemma {:induction false} AssigningOnly(c: Config, s: State, a: Addr, index: int, now: int)
    requires Shape(c, s) && a in s.peers && s.peers[a].assignedTo < 0
    requires 0 <= index < c.layout.pieceCount && s.pieces[index] != Complete
    ensures OnlyAssigns(c, s, Assign(c, s, a, index, now))
  {
    if CanSend(s, a) {
      AssignEffect(c, s, a, index, now);
      hide Assign, Shape, Assignees;
      var p := s.peers[a];
      var given := p.(commands := p.commands.Send(AssignCommand(c, index).value), assignedTo := index);
      assert GivenPiece(c, p, given);
    }
  }

  lemma {:induction false} OnlyAssignsThen(c: Config, s: State, m: State, r: State)
    requires OnlyAssigns(c, s, m) && OnlyAssigns(c, m, r)
    requires forall a :: a in s.peers ==> s.peers[a].assignedTo < c.layout.pieceCount
    ensures OnlyAssigns(c, s, r)
  {
    hide AssignCommand;
    forall a | a in s.peers ensures r.peers[a] == s.peers[a] || GivenPiece(c, s.peers[a], r.peers[a]) {
      assert a in m.peers.Keys;
      if GivenPiece(c, s.peers[a], m.peers[a]) { AssignedIndex(c, m.peers[a].assignedTo); }
    }
  }

  lemma {:induction false} AssignedIndex(c: Config, index: int)
    requires AssignCommand(c, index).Some?
    ensures 0 <= index < c.layout.pieceCount
  {
  }

  /** Of the incomplete pieces below upto that have holds, the one with the fewest assignees, lowest index first;
      -1 when there is none. */
  function FewestAssignees(s: State, have: set<int>, upto: nat): (best: int)
    requires upto <= |s.pieces|
    ensures best == -1 || (0 <= best < upto && s.pieces[best] != Complete && best in have)
    ensures forall i :: 0 <= i < upto && s.pieces[i] != Complete && i in have ==>
      && best != -1 && |Assignees(s, best)| <= |Assignees(s, i)|
      && (|Assignees(s, best)| == |Assignees(s, i)| ==> best <= i)
  {
    if upto == 0 then -1
    else
      var best := FewestAssignees(s, have, upto - 1);
      var i := upto - 1;
      if s.pieces[i] == Complete || i !in have then best
      else if best == -1 || |Assignees(s, i)| < |Assignees(s, best)| then i
      else best
  }

  /** The endgame assignment: any incomplete piece the idle peer has, least covered first. */
  function AssignAny(c: Config, s: State, a: Addr, now: int): (r: State)
    requires Shape(c, s)
    ensures Shape(c, r)
    ensures OnlyAssigns(c, s, r)
  {
    if a !in s.peers || s.peers[a].assignedTo >= 0 then s
    else
      var best := FewestAssignees(s, s.peers[a].have, |s.pieces|);
      if best == -1 then s else AssigningOnly(c, s, a, best, now); Assign(c, s, a, best, now)
  }

  /** pick is the rarest piece the random tie-break settles on. */
  function TryAssign(c: Config, s: State, a: Addr, pick: int, now: int): (r: State)
    requires Shape(c, s)
    ensures Shape(c, r)
    ensures OnlyAssigns(c, s, r)
  {
    if a !in s.peers || s.peers[a].assignedTo >= 0 || s.peers[a].peerChoking then s
    else if s.endgame then AssignAny(c, s, a, now)
    else if pick in Rarest(s, s.peers[a].have) then AssigningOnly(c, s, a, pick, now); Assign(c, s, a, pick, now)
    else s
  }

  /** The draw really is one of the rarest pieces, if the peer has any missing piece. */
  predicate Drawn(s: State, a: Addr, pick: int)
    requires |s.pieces| == |s.availability|
  {
    a in s.peers && Candidates(s, s.peers[a].have) != {} ==> pick in Rarest(s, s.peers[a].have)
  }

  // ----- events -----

  function AddAvailability(availability: seq<int>, have: set<int>): seq<int> {
    seq(|availability|, i requires 0 <= i < |availability| => availability[i] + if i in have then 1 else 0)
  }

  function RemoveAvailability(availability: seq<int>, have: set<int>): seq<int> {
    seq(|availability|, i requires 0 <= i < |availability| => availability[i] - if i in have then 1 else 0)
  }

  function AfterPeerLeft(c: Config, s: State, a: Addr): (r: State)
    requires Shape(c, s)
    ensures Shape(c, r)
  {
    if a !in s.peers then s
    else
      var p := s.peers[a];
      var s1 := s.(availability := RemoveAvailability(s.availability, p.have));
      var s2 := if p.assignedTo >= 0 then Release(c, s1, p.assignedTo, a) else s1;
      s2.(hasOptimistic := s2.hasOptimistic && s2.optimisticAddr != a, peers := s2.peers - {a})
  }

  function AfterPeerJoined(c: Config, s: State, a: Addr): (r: State)
    requires Shape(c, s)
    ensures Shape(c, r)
  {
    var s1 := AfterPeerLeft(c, s, a);
    s1.(peers := s1.peers[a := NEW_PEER])
  }

  function AfterBitfieldReceived(c: Config, s: State, a: Addr, bits: set<int>, pick: int, now: int): (r: State)
    requires Shape(c, s)
    ensures Shape(c, r)
  {
    if a !in s.peers || s.peers[a].gotBitfield then s
    else TryAssign(c, BitfieldCounted(c, s, a, bits), a, pick, now)
  }

  function BitfieldCounted(c: Config, s: State, a: Addr, bits: set<int>): (r: State)
    requires Shape(c, s) && a in s.peers
    ensures Shape(c, r)
  {
    var p := s.peers[a];
    s.(peers := s.peers[a := p.(gotBitfield := true, have := bits, shared := true)],
       availability := AddAvailability(s.availability, bits),
       overwritten := seq(|s.overwritten|, i requires 0 <= i < |s.overwritten| =>
         s.overwritten[i] + if i in p.have then 1 else 0))
  }

  function HaveCounted(c: Config, s: State, a: Addr, index: int): (r: State)
    requires Shape(c, s) && a in s.peers && 0 <= index < c.layout.pieceCount
    ensures Shape(c, r)
  {
    var p := s.peers[a];
    s.(peers := s.peers[a := p.(have := p.have + {index})],
       availability := s.availability[index := s.availability[index] + 1])
  }

  /** A worker reads a have and sets the bit in its own bitfield. Where that is the slice the coordinator keeps, the
      piece is held from now on without having been counted, and the have that follows will look redundant. */
  function AfterBitWritten(c: Config, s: State, a: Addr, index: int): (r: State)
    requires Shape(c, s) && 0 <= index < c.layout.pieceCount
    ensures Shape(c, r)
  {
    if a !in s.peers || !s.peers[a].shared || index in s.peers[a].have then s
    else
      var p := s.peers[a];
      s.(peers := s.peers[a := p.(have := p.have + {index})],
         uncounted := s.uncounted[index := s.uncounted[index] + 1])
  }

  /** A worker reads another bitfield, which becomes its own; the coordinator keeps the old slice to itself. */
  function AfterBitfieldReplaced(c: Config, s: State, a: Addr): (r: State)
    requires Shape(c, s)
    ensures Shape(c, r)
    ensures SameWork(s, r)
  {
    if a in s.peers then s.(peers := s.peers[a := s.peers[a].(shared := false)]) else s
  }

  function AfterHaveReceived(c: Config, s: State, a: Addr, index: int, pick: int, now: int): (r: State)
    requires Shape(c, s) && 0 <= index < c.layout.pieceCount
    ensures Shape(c, r)
  {
    if a !in s.peers || index in s.peers[a].have then s
    else TryAssign(c, HaveCounted(c, s, a, index), a, pick, now)
  }

  function AfterChokeReceived(c: Config, s: State, a: Addr): (r: State)
    requires Shape(c, s)
    ensures Shape(c, r)
    ensures SameWork(s, r)
  {
    if a in s.peers then s.(peers := s.peers[a := s.peers[a].(peerChoking := true)]) else s
  }

  function PeerUnchoked(c: Config, s: State, a: Addr): (r: State)
    requires Shape(c, s) && a in s.peers
    ensures Shape(c, r)
    ensures SameWork(s, r)
  {
    s.(peers := s.peers[a := s.peers[a].(peerChoking := false)])
  }

  function AfterUnchokeReceived(c: Config, s: State, a: Addr, pick: int, now: int): (r: State)
    requires Shape(c, s)
    ensures Shape(c, r)
  {
    if a in s.peers then TryAssign(c, PeerUnchoked(c, s, a), a, pick, now) else s
  }

  /** Tells every assignee but the winner to stop, and forgets what each of them was assigned. */
  function CancelOthers(peers: map<Addr, PeerInfo>, list: seq<Assignment>, index: nat, winner: Addr):
    (r: map<Addr, PeerInfo>)
    ensures r.Keys == peers.Keys
    ensures forall a :: a in peers ==>
      r[a] == if a != winner && Listed(list, a) then Cancelled(peers[a], index) else peers[a]
  {
    if list == [] then peers
    else
      var init, last := list[..|list| - 1], list[|list| - 1];
      var rest := CancelOthers(peers, init, index, winner);
      assert list == init + [last];
      assert forall a :: Listed(list, a) <==> Listed(init, a) || a == last.addr by { ListedAppend(init, last); }
      if last.addr == winner || last.addr !in rest then rest
      else rest[last.addr := Cancelled(rest[last.addr], index)]
  }

  /** Told to stop if the channel has room, and in any case no longer recorded as working on the piece. */
  function Cancelled(p: PeerInfo, index: nat): PeerInfo {
    p.(commands := if p.commands.HasRoom() then p.commands.Send(CancelPiece(index)) else p.commands,
       assignedTo := if p.assignedTo == index then -1 else p.assignedTo)
  }

  lemma {:induction false} ListedAppend(list: seq<Assignment>, entry: Assignment)
    ensures forall a :: Listed(list + [entry], a) <==> Listed(list, a) || a == entry.addr
  {
    var longer := list + [entry];
    forall a ensures Listed(longer, a) <==> Listed(list, a) || a == entry.addr {
      if k :| 0 <= k < |list| && list[k].addr == a { assert longer[k].addr == a; }
      assert longer[|list|].addr == entry.addr;
    }
  }

  /** delivered is false only when the download is cancelled while the result waits to be handed off. */
  function AfterPieceDownloaded(c: Config, s: State, a: Addr, index: int, data: Bytes, delivered: bool): (r: State)
    requires Shape(c, s) && 0 <= index < c.layout.pieceCount
    ensures Shape(c, r)
  {
    if s.pieces[index] == Complete then s
    else
      var s1 := Idle(Finish(s, a, index), a);
      s1.(results := if delivered then s1.results + [PieceResult(index, data)] else s1.results)
  }

  function Finish(s: State, a: Addr, index: int): State
    requires 0 <= index < |s.pieces|
  {
    s.(pieces := s.pieces[index := Complete],
       peers := CancelOthers(s.peers, Assignees(s, index), index, a),
       assignments := s.assignments - {index})
  }

  function AfterPieceFailed(c: Config, s: State, a: Addr, index: int): (r: State)
    requires Shape(c, s) && 0 <= index < c.layout.pieceCount
    ensures Shape(c, r)
  {
    Idle(Release(c, s, index, a), a)
  }

  // ----- the one-second timer -----

  function FreeStale(c: Config, s: State, now: int): (r: State)
    requires Shape(c, s)
    ensures Shape(c, r)
  {
    s.(peers := map a | a in s.peers :: Freed(s, a, now),
       assignments := map i | i in s.assignments && !AllStale(s.assignments[i], now) :: Kept(s.assignments[i], now),
       pieces := seq(|s.pieces|, i requires 0 <= i < |s.pieces| =>
         if AllStale(Assignees(s, i), now) then Missing else s.pieces[i]))
  }

  predicate AllStale(list: seq<Assignment>, now: int) { list != [] && Kept(list, now) == [] }

  function Freed(s: State, a: Addr, now: int): PeerInfo
    requires a in s.peers
  {
    var p := s.peers[a];
    if p.assignedTo in s.assignments && HasStale(s.assignments[p.assignedTo], a, now) then p.(assignedTo := -1) else p
  }

  /** The peers in visiting order, each offered an endgame piece. */
  function AssignAnyAll(c: Config, s: State, order: seq<Addr>, now: int): (r: State)
    requires Shape(c, s)
    ensures Shape(c, r)
    ensures OnlyAssigns(c, s, r)
  {
    if order == [] then s
    else
      var s1 := AssignAnyAll(c, s, order[..|order| - 1], now);
      OnlyAssignsThen(c, s, s1, AssignAny(c, s1, order[|order| - 1], now));
      AssignAny(c, s1, order[|order| - 1], now)
  }

  predicate EntersEndgame(s: State) {
    !s.endgame && 0 < |Incomplete(s.pieces)| <= ENDGAME_THRESHOLD
  }

  function MaybeEnterEndgame(c: Config, s: State, order: seq<Addr>, now: int): (r: State)
    requires Shape(c, s)
    ensures Shape(c, r)
  {
    if EntersEndgame(s) then AssignAnyAll(c, s.(endgame := true), order, now) else s
  }

  /** One peer's turn in a pass over all peers, with the piece its tie-break settles on. */
  datatype Turn = Turn(addr: Addr, pick: int)

  function AssignIdle(c: Config, s: State, turns: seq<Turn>, now: int): (r: State)
    requires Shape(c, s)
    ensures Shape(c, r)
    ensures OnlyAssigns(c, s, r)
  {
    if turns == [] then s
    else
      var s1, last := AssignIdle(c, s, turns[..|turns| - 1], now), turns[|turns| - 1];
      OnlyAssignsThen(c, s, s1, TryAssign(c, s1, last.addr, last.pick, now));
      TryAssign(c, s1, last.addr, last.pick, now)
  }

  predicate TurnsDrawn(c: Config, s: State, turns: seq<Turn>, now: int)
    requires Shape(c, s)
  {
    turns == [] ||
    (var init, last := turns[..|turns| - 1], turns[|turns| - 1];
     TurnsDrawn(c, s, init, now) && Drawn(AssignIdle(c, s, init, now), last.addr, last.pick))
  }

  /** Each key exactly once, in any order. */
  ghost predicate Visits(order: seq<Addr>, keys: set<Addr>) {
    && (forall a :: a in order <==> a in keys)
    && (forall i, j :: 0 <= i < j < |order| ==> order[i] != order[j])
  }

  function Addrs(turns: seq<Turn>): seq<Addr> {
    seq(|turns|, i requires 0 <= i < |turns| => turns[i].addr)
  }

  function Tick(c: Config, s: State, order: seq<Addr>, turns: seq<Turn>, now: int): (r: State)
    requires Shape(c, s)
    ensures Shape(c, r)
  {
    AssignIdle(c, MaybeEnterEndgame(c, FreeStale(c, s, now), order, now), turns, now)
  }

  // ----- choking -----

  /** Work in progress and piece counts are untouched: what every choke decision guarantees. */
  ghost predicate SameWork(s: State, r: State) {
    && r.pieces == s.pieces && r.assignments == s.assignments && r.endgame == s.endgame
    && r.availability == s.availability && r.overwritten == s.overwritten && r.uncounted == s.uncounted
    && r.results == s.results
    && r.peers.Keys == s.peers.Keys
    && forall b :: b in r.peers ==>
         r.peers[b].assignedTo == s.peers[b].assignedTo && r.peers[b].have == s.peers[b].have
  }

  /** Asks for a choke state; a full channel leaves the record as it was. */
  function Rechoke(p: PeerInfo, choked: bool): (r: PeerInfo)
    ensures r == p.(choked := r.choked, commands := r.commands)
  {
    if p.choked == choked || !p.commands.HasRoom() then p
    else p.(choked := choked, commands := p.commands.Send(if choked then ChokePeer else UnchokePeer))
  }

  predicate Refuses(p: PeerInfo, choked: bool) { p.choked != choked && !p.commands.HasRoom() }

  function SetChoked(c: Config, s: State, a: Addr, choked: bool): (r: State)
    requires Shape(c, s)
    ensures Shape(c, r)
    ensures SameWork(s, r)
  {
    if a !in s.peers then s
    else s.(peers := s.peers[a := Rechoke(s.peers[a], choked)],
            refused := s.refused || Refuses(s.peers[a], choked))
  }

  function AfterInterestedReceived(c: Config, s: State, a: Addr): (r: State)
    requires Shape(c, s)
    ensures Shape(c, r)
    ensures SameWork(s, r)
  {
    if a in s.peers then s.(peers := s.peers[a := s.peers[a].(interested := true)]) else s
  }

  function AfterNotInterestedReceived(c: Config, s: State, a: Addr): (r: State)
    requires Shape(c, s)
    ensures Shape(c, r)
    ensures SameWork(s, r)
  {
    if a !in s.peers then s
    else
      var s1 := SetChoked(c, s.(peers := s.peers[a := s.peers[a].(interested := false)]), a, true);
      s1.(hasOptimistic := s1.hasOptimistic && s1.optimisticAddr != a)
  }

  function InterestedPeers(s: State): set<Addr> {
    set a | a in s.peers && s.peers[a].interested
  }

  function Rate(rates: map<Addr, real>, a: Addr): real { if a in rates then rates[a] else 0.0 }

  /** Download rates while anything is missing, upload rates once everything is complete. */
  function Measured(s: State, down: map<Addr, real>, up: map<Addr, real>): map<Addr, real> {
    if Incomplete(s.pieces) == {} then up else down
  }

  /** The regular slots: the interested peers with the best rates, UNCHOKE_SLOTS of them if there are that many. */
  ghost predicate BestByRate(s: State, rates: map<Addr, real>, regular: set<Addr>) {
    var interested := InterestedPeers(s);
    && regular <= interested
    && |regular| == (if |interested| < UNCHOKE_SLOTS then |interested| else UNCHOKE_SLOTS)
    && forall a, b :: a in regular && b in interested && b !in regular ==> Rate(rates, a) >= Rate(rates, b)
  }

  predicate KeepsOptimistic(s: State) {
    s.hasOptimistic && s.optimisticAddr in s.peers && s.peers[s.optimisticAddr].interested
  }

  function UnchokeSet(s: State, regular: set<Addr>): set<Addr> {
    regular + if KeepsOptimistic(s) then {s.optimisticAddr} else {}
  }

  function RecalcChoke(c: Config, s: State, regular: set<Addr>): (r: State)
    requires Shape(c, s)
    ensures Shape(c, r)
    ensures SameWork(s, r)
  {
    var unchoked := UnchokeSet(s, regular);
    s.(hasOptimistic := KeepsOptimistic(s),
       peers := map a | a in s.peers :: Rechoke(s.peers[a], a !in unchoked),
       refused := s.refused || exists a :: a in s.peers && Refuses(s.peers[a], a !in unchoked))
  }

  function ReleaseOptimistic(c: Config, s: State): (r: State)
    requires Shape(c, s)
    ensures Shape(c, r)
    ensures SameWork(s, r)
  {
    (if s.hasOptimistic then SetChoked(c, s, s.optimisticAddr, true) else s).(hasOptimistic := false)
  }

  /** Whom the optimistic slot may go to: interested, choked, and not its previous holder. */
  function OptimisticCandidates(c: Config, s: State): set<Addr>
    requires Shape(c, s)
  {
    var s1 := ReleaseOptimistic(c, s);
    set a | a in s1.peers && s1.peers[a].interested && s1.peers[a].choked && !(s.hasOptimistic && a == s.optimisticAddr)
  }

  function RotateOptimistic(c: Config, s: State, pick: Option<Addr>): (r: State)
    requires Shape(c, s)
    ensures Shape(c, r)
    ensures SameWork(s, r)
  {
    var s1 := ReleaseOptimistic(c, s);
    match pick
    case None => s1
    case Some(a) => SetChoked(c, s1.(hasOptimistic := true, optimisticAddr := a), a, false)
  }

  // ----- runs -----

  datatype Step =
    | Joined(addr: Addr)
    | GotBitfield(addr: Addr, bits: set<int>, pick: int, now: int)
    | GotHave(addr: Addr, index: int, pick: int, now: int)
    | Downloaded(addr: Addr, index: int, data: Bytes, delivered: bool)
    | Failed(addr: Addr, index: int)
    | Ready(addr: Addr, pick: int, now: int)
    | Left(addr: Addr)
    | BecameInterested(addr: Addr)
    | LostInterest(addr: Addr)
    | ChokedUs(addr: Addr)
    | UnchokedUs(addr: Addr, pick: int, now: int)
    | Ticked(order: seq<Addr>, turns: seq<Turn>, now: int)
    | Rechoked(down: map<Addr, real>, up: map<Addr, real>, regular: set<Addr>)
    | Rotated(optimistic: Option<Addr>)
    | WorkerTook(addr: Addr)
    | BitWritten(addr: Addr, index: int)
    | BitfieldReplaced(addr: Addr)
    | ResultTaken

  /** The coordinator's step for an event. A bitfield is the slice its worker goes on writing to, so by the time it is
      handled it may mark more pieces than when it was sent. */
  function StepFor(e: Event, pick: int, now: int, delivered: bool, written: set<int>): Step {
    match e
    case PeerJoined(a) => Joined(a)
    case BitfieldReceived(a, bits) => GotBitfield(a, bits + written, pick, now)
    case HaveReceived(a, index) => GotHave(a, index, pick, now)
    case PieceDownloaded(a, index, data) => Downloaded(a, index, data, delivered)
    case PieceFailed(a, index) => Failed(a, index)
    case PeerReady(a) => Ready(a, pick, now)
    case PeerLeft(a) => Left(a)
    case InterestedReceived(a) => BecameInterested(a)
    case NotInterestedReceived(a) => LostInterest(a)
    case ChokeReceived(a) => ChokedUs(a)
    case UnchokeReceived(a) => UnchokedUs(a, pick, now)
  }

  /** What a worker or a timer can actually bring about; workers check indices before they report them. */
  ghost predicate Enabled(c: Config, s: State, step: Step)
    requires Shape(c, s)
  {
    match step
    case GotBitfield(a, bits, pick, now) =>
      a in s.peers && !s.peers[a].gotBitfield ==> Drawn(BitfieldCounted(c, s, a, bits), a, pick)
    case GotHave(a, index, pick, now) =>
      && 0 <= index < c.layout.pieceCount
      && (a in s.peers && index !in s.peers[a].have ==> Drawn(HaveCounted(c, s, a, index), a, pick))
    case Downloaded(a, index, data, delivered) => 0 <= index < c.layout.pieceCount
    case Failed(a, index) => 0 <= index < c.layout.pieceCount
    case Ready(a, pick, now) => Drawn(s, a, pick)
    case UnchokedUs(a, pick, now) => a in s.peers ==> Drawn(PeerUnchoked(c, s, a), a, pick)
    case Ticked(order, turns, now) =>
      && Visits(order, s.peers.Keys)
      && Visits(Addrs(turns), s.peers.Keys)
      && TurnsDrawn(c, MaybeEnterEndgame(c, FreeStale(c, s, now), order, now), turns, now)
    case Rechoked(down, up, regular) => BestByRate(s, Measured(s, down, up), regular)
    case Rotated(optimistic) =>
      if OptimisticCandidates(c, s) == {} then optimistic == None
      else optimistic.Some? && optimistic.value in OptimisticCandidates(c, s)
    case BitWritten(a, index) => 0 <= index < c.layout.pieceCount
    case ResultTaken => s.results != []
    case _ => true
  }

  function TakeCommand(c: Config, s: State, a: Addr): (r: State)
    requires Shape(c, s)
    ensures Shape(c, r)
    ensures SameWork(s, r)
  {
    if a in s.peers then s.(peers := s.peers[a := s.peers[a].(commands := s.peers[a].commands.Take())]) else s
  }

  ghost function Next(c: Config, s: State, step: Step): (r: State)
    requires Shape(c, s) && Enabled(c, s, step)
    ensures Shape(c, r)
  {
    match step
    case Joined(a) => AfterPeerJoined(c, s, a)
    case GotBitfield(a, bits, pick, now) => AfterBitfieldReceived(c, s, a, bits, pick, now)
    case GotHave(a, index, pick, now) => AfterHaveReceived(c, s, a, index, pick, now)
    case Downloaded(a, index, data, delivered) => AfterPieceDownloaded(c, s, a, index, data, delivered)
    case Failed(a, index) => AfterPieceFailed(c, s, a, index)
    case Ready(a, pick, now) => TryAssign(c, s, a, pick, now)
    case Left(a) => AfterPeerLeft(c, s, a)
    case BecameInterested(a) => AfterInterestedReceived(c, s, a)
    case LostInterest(a) => AfterNotInterestedReceived(c, s, a)
    case ChokedUs(a) => AfterChokeReceived(c, s, a)
    case UnchokedUs(a, pick, now) => AfterUnchokeReceived(c, s, a, pick, now)
    case Ticked(order, turns, now) => Tick(c, s, order, turns, now)
    case Rechoked(down, up, regular) => RecalcChoke(c, s, regular)
    case Rotated(optimistic) => RotateOptimistic(c, s, optimistic)
    case WorkerTook(a) => TakeCommand(c, s, a)
    case BitWritten(a, index) => AfterBitWritten(c, s, a, index)
    case BitfieldReplaced(a) => AfterBitfieldReplaced(c, s, a)
    case ResultTaken => s.(results := s.results[1..])
  }
}
