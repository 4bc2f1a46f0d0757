/** Who is offered which piece, and when: on every occasion the source offers work, and only then as it means to. */
module Offers {
  import opened Base
  import opened Events
  import opened CoordinatorState
  import opened AssignmentInvariants
  import opened Scheduling
  import opened Completion

  // ----- one offer -----

  /** Work that an offer gives out: to an idle peer that is not choking us and has room; outside endgame a missing
      piece it has that no missing piece it has is rarer than, and in endgame an incomplete one that none is less
      covered than. It is listed last, with the time of the offer. */
  lemma {:induction false} OfferIsRight(c: Config, s: State, a: Addr, pick: int, now: int)
    requires Shape(c, s) && a in s.peers
    ensures var r := TryAssign(c, s, a, pick, now);
      && a in r.peers
      && (r != s ==>
            var p, i := s.peers[a], r.peers[a].assignedTo;
            && p.assignedTo == -1 && !p.peerChoking && |p.commands.queued| == 0 && i in p.have
            && 0 <= i < |s.pieces| && r.pieces == s.pieces[i := InFlight]
            && Assignees(r, i) == Assignees(s, i) + [Assignment(a, now)]
            && (forall j :: j != i ==> Assignees(r, j) == Assignees(s, j))
            && (forall b :: b in s.peers && b != a ==> r.peers[b] == s.peers[b])
            && if s.endgame then
                 && s.pieces[i] != Complete
                 && (forall j :: 0 <= j < |s.pieces| && j in p.have && s.pieces[j] != Complete ==>
                      |Assignees(s, i)| <= |Assignees(s, j)|)
               else
                 && s.pieces[i] == Missing
                 && (forall j :: 0 <= j < |s.pieces| && j in p.have && s.pieces[j] == Missing ==>
                      s.availability[i] <= s.availability[j]))
  {
    hide Assign, FewestAssignees, OnlyAssigns;
    var p, r := s.peers[a], TryAssign(c, s, a, pick, now);
    if r != s {
      var i := if s.endgame then FewestAssignees(s, p.have, |s.pieces|) else pick;
      if !s.endgame {
        forall j | 0 <= j < |s.pieces| && j in p.have && s.pieces[j] == Missing
          ensures s.availability[i] <= s.availability[j] { assert j in Candidates(s, p.have); }
      }
      AssignedIsListed(c, s, a, i, now);
    }
  }

  lemma {:induction false} AssignedIsListed(c: Config, s: State, a: Addr, i: int, now: int)
    requires Shape(c, s) && a in s.peers && 0 <= i < c.layout.pieceCount
    ensures var r := Assign(c, s, a, i, now);
      && a in r.peers
      && (r != s ==>
            && |s.peers[a].commands.queued| == 0 && r.peers[a].assignedTo == i && r.pieces == s.pieces[i := InFlight]
            && Assignees(r, i) == Assignees(s, i) + [Assignment(a, now)]
            && (forall j :: j != i ==> Assignees(r, j) == Assignees(s, j))
            && forall b :: b in s.peers && b != a ==> r.peers[b] == s.peers[b])
  {
    if CanSend(s, a) {
      AssignEffect(c, s, a, i, now);
      hide Assign;
    }
  }

  // ----- every occasion -----

  /** A peer that has just sent its first bitfield, a have that was new to us, or an unchoke, or has just become
      ready, is offered work on the spot: if it is still idle, unchoking and has room, there is nothing for it. */
  lemma {:induction false} OffersAreMade(c: Config, s: State, step: Step)
    requires Shape(c, s) && Enabled(c, s, step)
    requires step.GotBitfield? || step.GotHave? || step.UnchokedUs? || step.Ready?
    requires step.addr in s.peers
    requires step.GotBitfield? ==> !s.peers[step.addr].gotBitfield
    requires step.GotHave? ==> step.index !in s.peers[step.addr].have
    ensures var r := Next(c, s, step);
      step.addr in r.peers && (Available(r.peers[step.addr]) ==> NothingFor(r, r.peers[step.addr].have))
  {
    hide TryAssign, NothingFor, Available, Tick, AfterPeerJoined, AfterPeerLeft, AfterPieceDownloaded, AfterPieceFailed,
         RecalcChoke, RotateOptimistic, Drawn, Visits, TurnsDrawn, BestByRate, OptimisticCandidates;
    match step
    case GotBitfield(a, bits, pick, now) => OfferLeavesNothing(c, BitfieldCounted(c, s, a, bits), a, pick, now);
    case GotHave(a, i, pick, now) => OfferLeavesNothing(c, HaveCounted(c, s, a, i), a, pick, now);
    case UnchokedUs(a, pick, now) => OfferLeavesNothing(c, PeerUnchoked(c, s, a), a, pick, now);
    case Ready(a, pick, now) => OfferLeavesNothing(c, s, a, pick, now);
  }

  lemma {:induction false} OfferLeavesNothing(c: Config, s: State, a: Addr, pick: int, now: int)
    requires Shape(c, s) && a in s.peers && Drawn(s, a, pick)
    ensures var r := TryAssign(c, s, a, pick, now);
      a in r.peers && (Available(r.peers[a]) ==> NothingFor(r, r.peers[a].have))
  {
    hide TryAssign, NothingFor, Drawn, OnlyAssigns, Available;
    var r := TryAssign(c, s, a, pick, now);
    KeepsHave(c, s, r, a);
    if Available(r.peers[a]) { TurnLeavesNothing(c, s, a, pick, now); }
  }

  // ----- endgame -----

  /** Endgame is entered at the first tick that finds between one and ten pieces incomplete, and never left. */
  lemma {:induction false} EndgameAfterStep(c: Config, s: State, step: Step)
    requires Shape(c, s) && Enabled(c, s, step) && Linked(c, s)
    ensures Next(c, s, step).endgame <==>
      s.endgame || (step.Ticked? && 1 <= |Incomplete(s.pieces)| <= 10)
  {
    hide TryAssign, Tick, AfterPieceDownloaded, AfterPieceFailed, AfterPeerLeft, AfterPeerJoined, RecalcChoke,
         AfterBitfieldReceived, AfterHaveReceived, AfterUnchokeReceived, RotateOptimistic, Linked, Incomplete, Drawn,
         Visits, TurnsDrawn, BestByRate, OptimisticCandidates, AfterNotInterestedReceived;
    match step
    case Ticked(order, turns, now) => TickEntersEndgame(c, s, order, turns, now);
    case GotBitfield(a, bits, pick, now) => OffersKeepEndgame(c, s, a, bits, 0, pick, now);
    case GotHave(a, i, pick, now) => OffersKeepEndgame(c, s, a, {}, i, pick, now);
    case UnchokedUs(a, pick, now) => OffersKeepEndgame(c, s, a, {}, 0, pick, now);
    case Ready(a, pick, now) => OffersKeepEndgame(c, s, a, {}, 0, pick, now);
    case Downloaded(a, i, data, delivered) => OutcomesKeepEndgame(c, s, a, i, data, delivered);
    case Failed(a, i) => OutcomesKeepEndgame(c, s, a, i, [], false);
    case Joined(a) => LeavingKeepsEndgame(c, s, a);
    case Left(a) => LeavingKeepsEndgame(c, s, a);
    case _ =>
  }

  lemma {:induction false} TickEntersEndgame(c: Config, s: State, order: seq<Addr>, turns: seq<Turn>, now: int)
    requires Shape(c, s) && Linked(c, s)
    ensures Tick(c, s, order, turns, now).endgame <==> s.endgame || 1 <= |Incomplete(s.pieces)| <= 10
  {
    hide AssignAnyAll, AssignIdle, Linked, Incomplete;
    FreeStaleCompletes(c, s, now);
  }

  lemma {:induction false} OffersKeepEndgame(
    c: Config, s: State, a: Addr, bits: set<int>, i: int, pick: int, now: int)
    requires Shape(c, s)
    ensures AfterBitfieldReceived(c, s, a, bits, pick, now).endgame == s.endgame
    ensures 0 <= i < c.layout.pieceCount ==> AfterHaveReceived(c, s, a, i, pick, now).endgame == s.endgame
    ensures AfterUnchokeReceived(c, s, a, pick, now).endgame == s.endgame
    ensures TryAssign(c, s, a, pick, now).endgame == s.endgame
  {
    hide TryAssign;
  }

  lemma {:induction false} OutcomesKeepEndgame(c: Config, s: State, a: Addr, i: int, data: Bytes, delivered: bool)
    requires Shape(c, s) && 0 <= i < c.layout.pieceCount
    ensures AfterPieceDownloaded(c, s, a, i, data, delivered).endgame == s.endgame
    ensures AfterPieceFailed(c, s, a, i).endgame == s.endgame
  {
    hide CancelOthers, Release;
  }

  lemma {:induction false} LeavingKeepsEndgame(c: Config, s: State, a: Addr)
    requires Shape(c, s)
    ensures AfterPeerLeft(c, s, a).endgame == AfterPeerJoined(c, s, a).endgame == s.endgame
  {
    hide Release, RemoveAvailability;
  }

  /** On entry everyone is offered an incomplete piece, whether it is choking us or not: whoever is still idle with
      room has none. */
  lemma {:induction false} EntryOffersEveryone(c: Config, s: State, order: seq<Addr>, now: int, a: Addr)
    requires Shape(c, s) && EntersEndgame(s) && Visits(order, s.peers.Keys) && a in s.peers
    ensures var r := MaybeEnterEndgame(c, s, order, now);
      && r.endgame && a in r.peers
      && (r.peers[a].assignedTo < 0 && r.peers[a].commands.HasRoom() ==>
            forall i :: 0 <= i < |r.pieces| && i in s.peers[a].have ==> r.pieces[i] == Complete)
  {
    hide AssignAnyAll, OnlyAssigns, EntersEndgame;
    assert a in s.peers.Keys && a in order;
    var k :| 0 <= k < |order| && order[k] == a;
    var entered := s.(endgame := true);
    EntryReachesPeer(c, entered, order, now, k);
    EndgameStays(c, entered, AssignAnyAll(c, entered, order, now));
  }

  lemma {:induction false} EndgameStays(c: Config, s: State, r: State)
    requires OnlyAssigns(c, s, r)
    ensures r.endgame == s.endgame
  {
  }

  lemma {:induction false} EntryReachesPeer(c: Config, s: State, order: seq<Addr>, now: int, k: nat)
    requires Shape(c, s) && k < |order| && order[k] in s.peers
    ensures var r := AssignAnyAll(c, s, order, now);
      && order[k] in r.peers
      && (r.peers[order[k]].assignedTo < 0 && r.peers[order[k]].commands.HasRoom() ==>
            forall i :: 0 <= i < |r.pieces| && i in s.peers[order[k]].have ==> r.pieces[i] == Complete)
  {
    hide AssignAny, OnlyAssigns;
    var init, last, a := order[..|order| - 1], order[|order| - 1], order[k];
    var s1, r := AssignAnyAll(c, s, init, now), AssignAnyAll(c, s, order, now);
    assert r == AssignAny(c, s1, last, now);
    KeepsHave(c, s, s1, a);
    KeepsHave(c, s1, r, a);
    if k == |order| - 1 {
      AnyLeavesNothing(c, s1, a, now);
    } else {
      assert init[k] == a;
      EntryReachesPeer(c, s, init, now, k);
      LaterAssignments(c, s1, r, a);
    }
  }

  lemma {:induction false} LaterAssignments(c: Config, s: State, r: State, a: Addr)
    requires OnlyAssigns(c, s, r) && a in s.peers
    ensures r.peers[a].assignedTo < 0 ==> r.peers[a] == s.peers[a]
    ensures |r.pieces| == |s.pieces|
    ensures forall i :: 0 <= i < |r.pieces| && s.pieces[i] == Complete ==> r.pieces[i] == Complete
  {
    if r.peers[a] != s.peers[a] { AssignedIndex(c, r.peers[a].assignedTo); }
  }

  lemma {:induction false} AnyLeavesNothing(c: Config, s: State, a: Addr, now: int)
    requires Shape(c, s) && a in s.peers
    ensures var r := AssignAny(c, s, a, now);
      && a in r.peers
      && (r.peers[a].assignedTo < 0 && r.peers[a].commands.HasRoom() ==>
            forall i :: 0 <= i < |r.pieces| && i in s.peers[a].have ==> r.pieces[i] == Complete)
  {
    var best := FewestAssignees(s, s.peers[a].have, |s.pieces|);
    if s.peers[a].assignedTo < 0 && best != -1 {
      assert AssignCommand(c, best).Some?;
      if CanSend(s, a) { AssignEffect(c, s, a, best, now); }
    }
  }

  /** The losers of a piece are told to stop, as far as their channels have room, and nobody else is told anything. */
  lemma {:induction false} LosersAreTold(
    c: Config, s: State, winner: Addr, i: int, data: Bytes, delivered: bool, b: Addr)
    requires Shape(c, s) && 0 <= i < c.layout.pieceCount && s.pieces[i] != Complete && b in s.peers
    ensures var r := AfterPieceDownloaded(c, s, winner, i, data, delivered);
      && b in r.peers
      && r.peers[b].commands.Accepted() == s.peers[b].commands.Accepted() +
           (if b != winner && Listed(Assignees(s, i), b) && s.peers[b].commands.queued == []
            then [CancelPiece(i)] else [])
      && r.peers[b].commands.taken == s.peers[b].commands.taken
  {
    hide Listed, Assignees;
    var p := s.peers[b].commands;
    assert p.taken + (p.queued + [CancelPiece(i)]) == p.taken + p.queued + [CancelPiece(i)];
    assert p.Accepted() + [] == p.Accepted();
    var r := Finish(s, winner, i);
    assert b in r.peers.Keys;
  }
}
