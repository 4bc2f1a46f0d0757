/** Whom we upload to: the coordinator's choke record, the commands that carry it to each worker, and how many peers
    are unchoked at once. */
module Choking {
  import opened Base
  import opened Events
  import opened CoordinatorState
  import opened AssignmentInvariants

  // ----- the record and the wire -----

  /** The commands accepted by a peer's channel alternate, the choke record is their last effect, the buffer never
      overflows, and every assignment carries the piece's own length and hash. */
  ghost predicate RecordMatches(c: Config, p: PeerInfo) {
    && ChokesAlternate(p.commands.Accepted())
    && p.choked == ChokingAfter(p.commands.Accepted())
    && |p.commands.queued| <= COMMAND_CAPACITY
    && forall k :: 0 <= k < |p.commands.Accepted()| ==> WellFormed(c, p.commands.Accepted()[k])
  }

  predicate WellFormed(c: Config, command: Command) {
    command.AssignPiece? ==> AssignCommand(c, command.index) == Some(command)
  }

  ghost predicate RecordsMatch(c: Config, s: State) {
    forall a :: a in s.peers ==> RecordMatches(c, s.peers[a])
  }

  /** One more command that is no choke, or a choke command that changes the record, keeps the record right. */
  lemma {:induction false} SendKeepsRecord(c: Config, p: PeerInfo, q: PeerInfo, command: Command)
    requires RecordMatches(c, p) && p.commands.HasRoom() && WellFormed(c, command)
    requires q.commands == p.commands.Send(command)
    requires match command
      case ChokePeer => !p.choked && q.choked
      case UnchokePeer => p.choked && !q.choked
      case _ => q.choked == p.choked
    ensures RecordMatches(c, q)
  {
    assert q.commands.Accepted() == p.commands.Accepted() + [command];
    ChokingAfterSend(p.commands.Accepted(), command);
  }

  lemma {:induction false} TakeKeepsRecord(c: Config, p: PeerInfo)
    requires RecordMatches(c, p)
    ensures RecordMatches(c, p.(commands := p.commands.Take()))
  {
    assert p.commands.Take().Accepted() == p.commands.Accepted();
  }

  lemma {:induction false} RechokeKeepsRecord(c: Config, p: PeerInfo, choked: bool)
    requires RecordMatches(c, p)
    ensures RecordMatches(c, Rechoke(p, choked))
  {
    if p.choked != choked && p.commands.HasRoom() {
      SendKeepsRecord(c, p, Rechoke(p, choked), if choked then ChokePeer else UnchokePeer);
    }
  }

  lemma {:induction false} GivenKeepsRecord(c: Config, p: PeerInfo, q: PeerInfo)
    requires RecordMatches(c, p) && GivenPiece(c, p, q)
    ensures RecordMatches(c, q)
  {
    SendKeepsRecord(c, p, q, AssignCommand(c, q.assignedTo).value);
  }

  /** The same channel and choke record as before, a fresh connection, or work given out. */
  ghost predicate CommandsFrom(c: Config, s: State, r: State) {
    forall a :: a in r.peers ==>
      || r.peers[a] == NEW_PEER
      || (a in s.peers && SameCommands(s.peers[a], r.peers[a]))
  }

  predicate SameCommands(p: PeerInfo, q: PeerInfo) { q.commands == p.commands && q.choked == p.choked }

  lemma {:induction false} QuietKeepsRecords(c: Config, s: State, r: State)
    requires RecordsMatch(c, s) && CommandsFrom(c, s, r)
    ensures RecordsMatch(c, r)
  {
    forall a | a in r.peers ensures RecordMatches(c, r.peers[a]) {
      if r.peers[a] == NEW_PEER { assert NEW_PEER.commands.Accepted() == []; }
      else { assert r.peers[a].commands == s.peers[a].commands; }
    }
  }

  lemma {:induction false} AssigningKeepsRecords(c: Config, s: State, r: State)
    requires RecordsMatch(c, s) && OnlyAssigns(c, s, r)
    ensures RecordsMatch(c, r)
  {
    forall a | a in r.peers ensures RecordMatches(c, r.peers[a]) {
      if r.peers[a] != s.peers[a] { GivenKeepsRecord(c, s.peers[a], r.peers[a]); }
    }
  }

  lemma {:induction false} FinishKeepsRecords(c: Config, s: State, a: Addr, i: int)
    requires RecordsMatch(c, s) && 0 <= i < |s.pieces|
    ensures RecordsMatch(c, Idle(Finish(s, a, i), a))
  {
    hide RecordMatches, Cancelled, Assignees, Listed;
    var r := Idle(Finish(s, a, i), a);
    forall b | b in r.peers ensures RecordMatches(c, r.peers[b]) {
      CancelledKeepsRecord(c, s.peers[b], i);
      assert r.peers[b] in {s.peers[b], Cancelled(s.peers[b], i), s.peers[b].(assignedTo := -1)};
    }
  }

  lemma {:induction false} CancelledKeepsRecord(c: Config, p: PeerInfo, i: nat)
    requires RecordMatches(c, p)
    ensures RecordMatches(c, Cancelled(p, i)) && RecordMatches(c, p.(assignedTo := -1))
  {
    if p.commands.HasRoom() { SendKeepsRecord(c, p, Cancelled(p, i), CancelPiece(i)); }
  }

  lemma {:induction false} FailureKeepsRecords(c: Config, s: State, a: Addr, i: int)
    requires Shape(c, s) && RecordsMatch(c, s) && 0 <= i < |s.pieces|
    ensures RecordsMatch(c, AfterPieceFailed(c, s, a, i))
  {
    hide RecordsMatch, Release;
    NotedKeepsRecords(c, s, AfterPieceFailed(c, s, a, i));
  }

  lemma {:induction false} OutcomeKeepsRecords(c: Config, s: State, a: Addr, i: int, data: Bytes, delivered: bool)
    requires Shape(c, s) && RecordsMatch(c, s) && 0 <= i < |s.pieces|
    ensures RecordsMatch(c, AfterPieceDownloaded(c, s, a, i, data, delivered))
  {
    hide RecordMatches, Finish;
    FinishKeepsRecords(c, s, a, i);
  }

  lemma {:induction false} SetChokedKeepsRecords(c: Config, s: State, a: Addr, choked: bool)
    requires Shape(c, s) && RecordsMatch(c, s)
    ensures RecordsMatch(c, SetChoked(c, s, a, choked))
  {
    if a in s.peers { RechokeKeepsRecord(c, s.peers[a], choked); }
  }

  lemma {:induction false} ChokeStepKeepsRecords(c: Config, s: State, step: Step)
    requires Shape(c, s) && Enabled(c, s, step) && RecordsMatch(c, s) && Quiet(step)
    ensures RecordsMatch(c, Next(c, s, step))
  {
    hide RotateOptimistic, RecalcChoke, AfterNotInterestedReceived, TakeCommand, RecordsMatch, BestByRate,
         OptimisticCandidates, Drawn, Visits, TurnsDrawn, TryAssign, AfterPeerLeft, AfterPeerJoined, Tick,
         AfterPieceDownloaded, AfterPieceFailed, AfterBitfieldReceived, AfterHaveReceived, AfterUnchokeReceived,
         AfterInterestedReceived, AfterChokeReceived, AfterBitWritten, AfterBitfieldReplaced;
    match step
    case LostInterest(a) => LosingInterestKeepsRecords(c, s, a);
    case Rechoked(down, up, regular) => RecalcKeepsRecords(c, s, regular);
    case Rotated(optimistic) => RotationKeepsRecords(c, s, optimistic);
    case WorkerTook(a) => TakingKeepsRecords(c, s, a);
    case BecameInterested(a) => NotesKeepRecords(c, s, a);
    case ChokedUs(a) => NotesKeepRecords(c, s, a);
    case BitWritten(a, index) => WrittenBitKeepsRecords(c, s, a, index);
    case BitfieldReplaced(a) => NotesKeepRecords(c, s, a);
    case ResultTaken => NotedKeepsRecords(c, s, s.(results := s.results[1..]));
  }

  lemma {:induction false} NotedKeepsRecords(c: Config, s: State, r: State)
    requires RecordsMatch(c, s) && r.peers.Keys == s.peers.Keys
    requires forall a :: a in r.peers ==> SameCommands(s.peers[a], r.peers[a])
    ensures RecordsMatch(c, r)
  {
    hide RecordsMatch, SameCommands;
    forall a | a in r.peers ensures a in s.peers { assert a in r.peers.Keys; }
    QuietKeepsRecords(c, s, r);
  }

  lemma {:induction false} NotesKeepRecords(c: Config, s: State, a: Addr)
    requires Shape(c, s) && RecordsMatch(c, s)
    ensures RecordsMatch(c, AfterInterestedReceived(c, s, a)) && RecordsMatch(c, AfterChokeReceived(c, s, a))
    ensures RecordsMatch(c, AfterBitfieldReplaced(c, s, a))
  {
    hide RecordsMatch;
    if a in s.peers {
      var p := s.peers[a];
      NoteKeepsRecords(c, s, AfterInterestedReceived(c, s, a), a, p.(interested := true));
      NoteKeepsRecords(c, s, AfterChokeReceived(c, s, a), a, p.(peerChoking := true));
      NoteKeepsRecords(c, s, AfterBitfieldReplaced(c, s, a), a, p.(shared := false));
    }
  }

  lemma {:induction false} NoteKeepsRecords(c: Config, s: State, r: State, a: Addr, q: PeerInfo)
    requires RecordsMatch(c, s) && a in s.peers && r.peers == s.peers[a := q] && SameCommands(s.peers[a], q)
    ensures RecordsMatch(c, r)
  {
    NotedKeepsRecords(c, s, r);
  }

  lemma {:induction false} WrittenBitKeepsRecords(c: Config, s: State, a: Addr, index: int)
    requires Shape(c, s) && RecordsMatch(c, s) && 0 <= index < c.layout.pieceCount
    ensures RecordsMatch(c, AfterBitWritten(c, s, a, index))
  {
    hide RecordsMatch;
    NotedKeepsRecords(c, s, AfterBitWritten(c, s, a, index));
  }

  lemma {:induction false} LosingInterestKeepsRecords(c: Config, s: State, a: Addr)
    requires Shape(c, s) && RecordsMatch(c, s)
    ensures RecordsMatch(c, AfterNotInterestedReceived(c, s, a))
  {
    hide RecordsMatch, SetChoked;
    if a in s.peers {
      var s1 := s.(peers := s.peers[a := s.peers[a].(interested := false)]);
      NotedKeepsRecords(c, s, s1);
      SetChokedKeepsRecords(c, s1, a, true);
      var s2 := SetChoked(c, s1, a, true);
      NotedKeepsRecords(c, s2, AfterNotInterestedReceived(c, s, a));
    }
  }

  lemma {:induction false} RecalcKeepsRecords(c: Config, s: State, regular: set<Addr>)
    requires Shape(c, s) && RecordsMatch(c, s)
    ensures RecordsMatch(c, RecalcChoke(c, s, regular))
  {
    hide RecordMatches;
    forall a | a in s.peers ensures RecordMatches(c, RecalcChoke(c, s, regular).peers[a]) {
      RechokeKeepsRecord(c, s.peers[a], a !in UnchokeSet(s, regular));
    }
  }

  lemma {:induction false} TakingKeepsRecords(c: Config, s: State, a: Addr)
    requires Shape(c, s) && RecordsMatch(c, s)
    ensures RecordsMatch(c, TakeCommand(c, s, a))
  {
    hide RecordMatches;
    if a in s.peers { TakeKeepsRecord(c, s.peers[a]); }
  }

  lemma {:induction false} RotationKeepsRecords(c: Config, s: State, pick: Option<Addr>)
    requires Shape(c, s) && RecordsMatch(c, s)
    ensures RecordsMatch(c, RotateOptimistic(c, s, pick))
  {
    SetChokedKeepsRecords(c, s, s.optimisticAddr, true);
    var s1 := ReleaseOptimistic(c, s);
    if pick.Some? {
      var s2 := s1.(hasOptimistic := true, optimisticAddr := pick.value);
      QuietKeepsRecords(c, s1, s2);
      SetChokedKeepsRecords(c, s2, pick.value, false);
    }
  }

  lemma {:induction false} OfferKeepsRecords(c: Config, s: State, r: State, a: Addr, pick: int, now: int)
    requires RecordsMatch(c, s) && Shape(c, r) && CommandsFrom(c, s, r)
    ensures RecordsMatch(c, TryAssign(c, r, a, pick, now))
  {
    QuietKeepsRecords(c, s, r);
    AssigningKeepsRecords(c, r, TryAssign(c, r, a, pick, now));
  }

  lemma {:induction false} TickKeepsRecords(c: Config, s: State, order: seq<Addr>, turns: seq<Turn>, now: int)
    requires Shape(c, s) && RecordsMatch(c, s)
    ensures RecordsMatch(c, Tick(c, s, order, turns, now))
  {
    var s1 := FreeStale(c, s, now);
    QuietKeepsRecords(c, s, s1);
    var s2 := MaybeEnterEndgame(c, s1, order, now);
    if EntersEndgame(s1) { AssigningKeepsRecords(c, s1.(endgame := true), s2); }
    AssigningKeepsRecords(c, s2, AssignIdle(c, s2, turns, now));
  }

  lemma {:induction false} LeavingKeepsRecords(c: Config, s: State, a: Addr)
    requires Shape(c, s) && RecordsMatch(c, s)
    ensures RecordsMatch(c, AfterPeerLeft(c, s, a)) && RecordsMatch(c, AfterPeerJoined(c, s, a))
  {
    QuietKeepsRecords(c, s, AfterPeerLeft(c, s, a));
    QuietKeepsRecords(c, s, AfterPeerJoined(c, s, a));
  }

  lemma {:induction false} StepKeepsRecords(c: Config, s: State, step: Step)
    requires Shape(c, s) && Enabled(c, s, step) && RecordsMatch(c, s)
    ensures RecordsMatch(c, Next(c, s, step))
  {
    hide TryAssign, AfterPeerLeft, AfterPeerJoined, Tick, AfterPieceDownloaded, AfterPieceFailed, SetChoked,
         RecalcChoke, RotateOptimistic;
    if Quiet(step) {
      ChokeStepKeepsRecords(c, s, step);
    } else {
      match step
      case Joined(a) => LeavingKeepsRecords(c, s, a);
      case Left(a) => LeavingKeepsRecords(c, s, a);
      case GotBitfield(a, bits, pick, now) =>
        if a in s.peers && !s.peers[a].gotBitfield {
          OfferKeepsRecords(c, s, BitfieldCounted(c, s, a, bits), a, pick, now);
        }
      case GotHave(a, i, pick, now) =>
        if a in s.peers && i !in s.peers[a].have { OfferKeepsRecords(c, s, HaveCounted(c, s, a, i), a, pick, now); }
      case Downloaded(a, i, data, delivered) => OutcomeKeepsRecords(c, s, a, i, data, delivered);
      case Failed(a, i) => FailureKeepsRecords(c, s, a, i);
      case Ready(a, pick, now) => OfferKeepsRecords(c, s, s, a, pick, now);
      case UnchokedUs(a, pick, now) =>
        if a in s.peers { OfferKeepsRecords(c, s, PeerUnchoked(c, s, a), a, pick, now); }
      case Ticked(order, turns, now) => TickKeepsRecords(c, s, order, turns, now);
    }
  }

  /** In every reachable state, refusals included, each channel's choke commands alternate starting with an unchoke and
      the record is what they amount to: a worker that has drained its channel is choking its peer exactly when the
      coordinator thinks so. */
  lemma {:induction false} ChokeRecordMatchesWire(c: Config, trace: seq<State>, steps: seq<Step>, k: nat)
    requires IsRun(c, trace, steps) && k < |trace|
    ensures RecordsMatch(c, trace[k])
    ensures forall a :: a in trace[k].peers && trace[k].peers[a].commands.queued == [] ==>
      trace[k].peers[a].choked == ChokingAfter(trace[k].peers[a].commands.taken)
  {
    hide Next;
    if k > 0 {
      ChokeRecordMatchesWire(c, trace, steps, k - 1);
      StepKeepsRecords(c, trace[k - 1], steps[k - 1]);
    }
    forall a | a in trace[k].peers && trace[k].peers[a].commands.queued == []
      ensures trace[k].peers[a].choked == ChokingAfter(trace[k].peers[a].commands.taken)
    {
      assert RecordMatches(c, trace[k].peers[a]);
      assert trace[k].peers[a].commands.Accepted() == trace[k].peers[a].commands.taken;
    }
  }

  // ----- how many are unchoked -----

  ghost function Unchoked(s: State): set<Addr> {
    set a | a in s.peers && !s.peers[a].choked
  }

  /** Only interested peers are unchoked, the optimistic peer is one of them, and there are no more of them than the
      four regular slots and the optimistic one. */
  ghost predicate Bounded(s: State) {
    && (forall a :: a in Unchoked(s) ==> s.peers[a].interested)
    && (s.hasOptimistic ==> s.optimisticAddr in Unchoked(s))
    && |Unchoked(s)| <= 4 + if s.hasOptimistic then 1 else 0
  }

  lemma {:induction false} SameChokesStayBounded(s: State, r: State)
    requires Bounded(s) && r.hasOptimistic == s.hasOptimistic && r.optimisticAddr == s.optimisticAddr
    requires r.peers.Keys == s.peers.Keys
    requires forall a :: a in r.peers ==>
      r.peers[a].choked == s.peers[a].choked && (s.peers[a].interested ==> r.peers[a].interested)
    ensures Bounded(r)
  {
    forall a ensures a in Unchoked(r) <==> a in Unchoked(s) {
      assert a in r.peers <==> a in r.peers.Keys;
      assert a in s.peers <==> a in s.peers.Keys;
    }
    assert Unchoked(r) == Unchoked(s);
  }

  lemma {:induction false} LeavingStaysBounded(c: Config, s: State, a: Addr)
    requires Shape(c, s) && Bounded(s)
    ensures Bounded(AfterPeerLeft(c, s, a))
    ensures a !in AfterPeerLeft(c, s, a).peers
    ensures AfterPeerLeft(c, s, a).hasOptimistic ==> AfterPeerLeft(c, s, a).optimisticAddr != a
  {
    var r := AfterPeerLeft(c, s, a);
    LeaveEffect(c, s, a);
    assert Unchoked(r) == Unchoked(s) - {a};
  }

  lemma {:induction false} JoiningStaysBounded(c: Config, s: State, a: Addr)
    requires Shape(c, s) && Bounded(s)
    ensures Bounded(AfterPeerJoined(c, s, a))
  {
    LeavingStaysBounded(c, s, a);
    assert Unchoked(AfterPeerJoined(c, s, a)) == Unchoked(AfterPeerLeft(c, s, a));
  }

  lemma {:induction false} LosingInterestStaysBounded(c: Config, s: State, a: Addr)
    requires Shape(c, s) && Bounded(s) && !AfterNotInterestedReceived(c, s, a).refused
    ensures Bounded(AfterNotInterestedReceived(c, s, a))
  {
    if a in s.peers { assert Unchoked(AfterNotInterestedReceived(c, s, a)) == Unchoked(s) - {a}; }
  }

  lemma {:induction false} RecalcBounds(c: Config, s: State, rates: map<Addr, real>, regular: set<Addr>)
    requires Shape(c, s) && BestByRate(s, rates, regular) && !RecalcChoke(c, s, regular).refused
    ensures Unchoked(RecalcChoke(c, s, regular)) == UnchokeSet(s, regular)
    ensures |regular| == if |InterestedPeers(s)| < 4 then |InterestedPeers(s)| else 4
    ensures Bounded(RecalcChoke(c, s, regular))
  {
    var r := RecalcChoke(c, s, regular);
    forall a | a in s.peers ensures r.peers[a].choked <==> a !in UnchokeSet(s, regular) {
      assert !Refuses(s.peers[a], a !in UnchokeSet(s, regular));
    }
    assert Unchoked(r) == UnchokeSet(s, regular);
  }

  lemma {:induction false} ReleasingFreesTheSlot(c: Config, s: State)
    requires Shape(c, s) && Bounded(s) && !ReleaseOptimistic(c, s).refused
    ensures Bounded(ReleaseOptimistic(c, s)) && |Unchoked(ReleaseOptimistic(c, s))| <= 4
  {
    assert Unchoked(ReleaseOptimistic(c, s)) ==
      if s.hasOptimistic then Unchoked(s) - {s.optimisticAddr} else Unchoked(s);
  }

  lemma {:induction false} RotationStaysBounded(c: Config, s: State, pick: Option<Addr>)
    requires Shape(c, s) && Bounded(s) && Enabled(c, s, Rotated(pick)) && !RotateOptimistic(c, s, pick).refused
    ensures Bounded(RotateOptimistic(c, s, pick))
  {
    hide ReleaseOptimistic, SetChoked, Bounded, Unchoked;
    var s1 := ReleaseOptimistic(c, s);
    if pick.Some? {
      RefusedStays(c, s1.(hasOptimistic := true, optimisticAddr := pick.value), pick.value, false);
      ReleasingFreesTheSlot(c, s);
      UnchokingOneStaysBounded(c, s1, pick.value);
    } else {
      ReleasingFreesTheSlot(c, s);
    }
  }

  lemma {:induction false} RefusedStays(c: Config, s: State, a: Addr, choked: bool)
    requires Shape(c, s)
    ensures s.refused ==> SetChoked(c, s, a, choked).refused
  {
  }

  lemma {:induction false} UnchokingOneStaysBounded(c: Config, s: State, a: Addr)
    requires Shape(c, s) && Bounded(s) && |Unchoked(s)| <= 4
    requires a in s.peers && s.peers[a].interested && s.peers[a].choked
    requires !SetChoked(c, s.(hasOptimistic := true, optimisticAddr := a), a, false).refused
    ensures Bounded(SetChoked(c, s.(hasOptimistic := true, optimisticAddr := a), a, false))
  {
    assert Unchoked(SetChoked(c, s.(hasOptimistic := true, optimisticAddr := a), a, false)) == Unchoked(s) + {a};
  }

  lemma {:induction false} OfferStaysBounded(c: Config, s: State, r: State, a: Addr, pick: int, now: int)
    requires Bounded(s) && Shape(c, r) && r.hasOptimistic == s.hasOptimistic && r.optimisticAddr == s.optimisticAddr
    requires r.peers.Keys == s.peers.Keys
    requires forall a :: a in r.peers ==>
      r.peers[a].choked == s.peers[a].choked && r.peers[a].interested == s.peers[a].interested
    ensures Bounded(TryAssign(c, r, a, pick, now))
  {
    SameChokesStayBounded(s, r);
    SameChokesStayBounded(r, TryAssign(c, r, a, pick, now));
  }

  lemma {:induction false} TickStaysBounded(c: Config, s: State, order: seq<Addr>, turns: seq<Turn>, now: int)
    requires Shape(c, s) && Bounded(s)
    ensures Bounded(Tick(c, s, order, turns, now))
  {
    hide AssignIdle, AssignAnyAll, Bounded;
    var s1 := FreeStale(c, s, now);
    var s2 := MaybeEnterEndgame(c, s1, order, now);
    SameChokesStayBounded(s, s1);
    SameChokesStayBounded(s1, s2);
    SameChokesStayBounded(s2, AssignIdle(c, s2, turns, now));
  }

  lemma {:induction false} OutcomeStaysBounded(c: Config, s: State, a: Addr, i: int, data: Bytes, delivered: bool)
    requires Shape(c, s) && Bounded(s) && 0 <= i < |s.pieces|
    ensures Bounded(AfterPieceDownloaded(c, s, a, i, data, delivered))
  {
    if s.pieces[i] != Complete {
      SameChokesStayBounded(s, Finish(s, a, i));
      SameChokesStayBounded(Finish(s, a, i), AfterPieceDownloaded(c, s, a, i, data, delivered));
    }
  }

  lemma {:induction false} FailureStaysBounded(c: Config, s: State, a: Addr, i: int)
    requires Shape(c, s) && Bounded(s) && 0 <= i < |s.pieces|
    ensures Bounded(AfterPieceFailed(c, s, a, i))
  {
    SameChokesStayBounded(s, AfterPieceFailed(c, s, a, i));
  }

  lemma {:induction false} NoteStaysBounded(s: State, a: Addr, p: PeerInfo)
    requires Bounded(s) && a in s.peers && p.choked == s.peers[a].choked && (s.peers[a].interested ==> p.interested)
    ensures Bounded(s.(peers := s.peers[a := p]))
  {
    assert Unchoked(s.(peers := s.peers[a := p])) == Unchoked(s);
  }

  lemma {:induction false} ChokeStepStaysBounded(c: Config, s: State, step: Step)
    requires Shape(c, s) && Enabled(c, s, step) && Bounded(s) && !Next(c, s, step).refused && Quiet(step)
    ensures Bounded(Next(c, s, step))
  {
    hide RotateOptimistic, RecalcChoke, AfterNotInterestedReceived, Bounded, TryAssign, AfterPeerLeft, AfterPeerJoined,
         Tick, AfterPieceDownloaded, AfterPieceFailed, AfterBitfieldReceived, AfterHaveReceived, AfterUnchokeReceived,
         Drawn, Visits, TurnsDrawn;
    if step.LostInterest? { LosingInterestStaysBounded(c, s, step.addr); }
    else if step.Rechoked? { RecalcBounds(c, s, Measured(s, step.down, step.up), step.regular); }
    else if step.Rotated? { RotationStaysBounded(c, s, step.optimistic); }
    else if step.ResultTaken? || step.BitWritten? { SameChokesStayBounded(s, Next(c, s, step)); }
    else if step.addr in s.peers { NoteStaysBounded(s, step.addr, Next(c, s, step).peers[step.addr]); }
  }

  lemma {:induction false} WorkStepStaysBounded(c: Config, s: State, step: Step)
    requires Shape(c, s) && Enabled(c, s, step) && Bounded(s) && !Quiet(step)
    ensures Bounded(Next(c, s, step))
  {
    hide TryAssign, AfterPeerLeft, AfterPeerJoined, Tick, AfterPieceDownloaded, AfterPieceFailed, SetChoked,
         RecalcChoke, RotateOptimistic;
    match step
    case Joined(a) => JoiningStaysBounded(c, s, a);
    case Left(a) => LeavingStaysBounded(c, s, a);
    case GotBitfield(a, bits, pick, now) =>
      if a in s.peers && !s.peers[a].gotBitfield {
        OfferStaysBounded(c, s, BitfieldCounted(c, s, a, bits), a, pick, now);
      }
    case GotHave(a, i, pick, now) =>
      if a in s.peers && i !in s.peers[a].have { OfferStaysBounded(c, s, HaveCounted(c, s, a, i), a, pick, now); }
    case Ready(a, pick, now) => OfferStaysBounded(c, s, s, a, pick, now);
    case UnchokedUs(a, pick, now) =>
      if a in s.peers { OfferStaysBounded(c, s, PeerUnchoked(c, s, a), a, pick, now); }
    case Ticked(order, turns, now) => TickStaysBounded(c, s, order, turns, now);
    case Downloaded(a, i, data, delivered) => OutcomeStaysBounded(c, s, a, i, data, delivered);
    case Failed(a, i) => FailureStaysBounded(c, s, a, i);
  }

  lemma {:induction false} StepStaysBounded(c: Config, s: State, step: Step)
    requires Shape(c, s) && Enabled(c, s, step) && Bounded(s) && !Next(c, s, step).refused
    ensures Bounded(Next(c, s, step))
  {
    if Quiet(step) { ChokeStepStaysBounded(c, s, step); } else { WorkStepStaysBounded(c, s, step); }
  }

  lemma {:induction false} RefusalsAreRemembered(c: Config, s: State, step: Step)
    requires Shape(c, s) && Enabled(c, s, step)
    ensures s.refused ==> Next(c, s, step).refused
  {
    hide TryAssign, AssignIdle, AssignAnyAll, CancelOthers, Release;
  }

  /** In every state reached without a choke or unchoke being refused by a full channel. */
  lemma {:induction false} UnchokedBoundOverRuns(c: Config, trace: seq<State>, steps: seq<Step>, k: nat)
    requires IsRun(c, trace, steps) && k < |trace|
    ensures !trace[k].refused ==> Bounded(trace[k])
  {
    hide Next;
    if k > 0 {
      UnchokedBoundOverRuns(c, trace, steps, k - 1);
      RefusalsAreRemembered(c, trace[k - 1], steps[k - 1]);
      if !trace[k].refused { StepStaysBounded(c, trace[k - 1], steps[k - 1]); }
    } else {
      assert Unchoked(trace[0]) == {};
    }
  }

  /** A rotation gives the optimistic slot to an interested, choked peer that did not just hold it, and unchokes
      it; the last holder, if it is still registered, is choked; nobody else's choke state changes. Where a full
      channel refuses, a choke state stays as it was. The slot stays free only if there is no such peer. */
  ghost predicate Moves(s: State, r: State, pick: Option<Addr>, b: Addr)
    requires b in s.peers
  {
    var held := s.hasOptimistic && b == s.optimisticAddr;
    && b in r.peers && r.hasOptimistic == pick.Some?
    && (pick == Some(b) ==> s.peers[b].interested && s.peers[b].choked && !held && r.optimisticAddr == b)
    && (pick == None ==> !(s.peers[b].interested && s.peers[b].choked && !held))
    && (pick != Some(b) && !held ==> r.peers[b] == s.peers[b])
    && (s.peers[b].commands.queued == [] ==>
          (pick == Some(b) ==> !r.peers[b].choked) && (held ==> r.peers[b].choked))
  }

  lemma {:induction false} RotationMoves(c: Config, s: State, pick: Option<Addr>, b: Addr)
    requires Shape(c, s) && Enabled(c, s, Rotated(pick)) && b in s.peers
    ensures Moves(s, Next(c, s, Rotated(pick)), pick, b)
  {
    hide RotateOptimistic, Moves, ReleaseOptimistic;
    SlotMoves(c, s, pick, b);
  }

  lemma {:induction false} SlotMoves(c: Config, s: State, pick: Option<Addr>, b: Addr)
    requires Shape(c, s) && b in s.peers
    requires if OptimisticCandidates(c, s) == {} then pick == None
      else pick.Some? && pick.value in OptimisticCandidates(c, s)
    ensures Moves(s, RotateOptimistic(c, s, pick), pick, b)
  {
    hide Shape;
    var held := s.hasOptimistic && b == s.optimisticAddr;
    if s.peers[b].interested && s.peers[b].choked && !held {
      assert ReleaseOptimistic(c, s).peers[b] == s.peers[b];
      assert b in OptimisticCandidates(c, s);
    }
  }

  lemma {:induction false} RatesDecide(
    c: Config, s: State, rates: map<Addr, real>, regular: set<Addr>, winner: Addr, loser: Addr)
    requires Shape(c, s) && BestByRate(s, rates, regular) && !RecalcChoke(c, s, regular).refused
    requires winner in regular && loser in s.peers && s.peers[loser].interested
    requires RecalcChoke(c, s, regular).peers[loser].choked
    ensures winner in Unchoked(RecalcChoke(c, s, regular))
    ensures (if winner in rates then rates[winner] else 0.0) >= (if loser in rates then rates[loser] else 0.0)
  {
    RecalcBounds(c, s, rates, regular);
  }

  /** After a recalculation no interested peer left choked has a better rate than a peer in a regular slot: we
      reciprocate with those we download from fastest while a piece is incomplete, and once all are complete we
      serve those we upload to fastest. A peer without a rate counts as zero. */
  lemma {:induction false} BestRatesAreUnchoked(
    c: Config, s: State, down: map<Addr, real>, up: map<Addr, real>, regular: set<Addr>, winner: Addr, loser: Addr)
    requires Shape(c, s) && Enabled(c, s, Rechoked(down, up, regular))
    requires !Next(c, s, Rechoked(down, up, regular)).refused
    requires winner in regular && loser in s.peers && s.peers[loser].interested
    requires Next(c, s, Rechoked(down, up, regular)).peers[loser].choked
    ensures winner in Unchoked(Next(c, s, Rechoked(down, up, regular)))
    ensures (exists i :: 0 <= i < |s.pieces| && s.pieces[i] != Complete) ==>
      (if winner in down then down[winner] else 0.0) >= (if loser in down then down[loser] else 0.0)
    ensures (forall i :: 0 <= i < |s.pieces| ==> s.pieces[i] == Complete) ==>
      (if winner in up then up[winner] else 0.0) >= (if loser in up then up[loser] else 0.0)
  {
    hide RecalcChoke, BestByRate, Unchoked;
    if i :| 0 <= i < |s.pieces| && s.pieces[i] != Complete { assert i in Incomplete(s.pieces); }
    RatesDecide(c, s, Measured(s, down, up), regular, winner, loser);
  }
}
