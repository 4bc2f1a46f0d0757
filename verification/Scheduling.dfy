/** What the one-second timer guarantees, and how endgame spreads peers over the last pieces. */
module Scheduling {
  import opened Base
  import opened Events
  import opened CoordinatorState
  import opened AssignmentInvariants

  // ----- staleness -----

  /** Lists only gain entries made now, at the end. */
  ghost predicate Grows(s: State, r: State, now: int) {
    forall i :: Assignees(s, i) <= Assignees(r, i) &&
      forall k :: |Assignees(s, i)| <= k < |Assignees(r, i)| ==> Assignees(r, i)[k].at == now
  }

  lemma {:induction false} AssignGrows(c: Config, s: State, a: Addr, index: int, now: int)
    requires Shape(c, s) && 0 <= index < |s.pieces|
    ensures Grows(s, Assign(c, s, a, index, now), now)
  {
    var r := Assign(c, s, a, index, now);
    forall i ensures Assignees(r, i) ==
      if CanSend(s, a) && i == index then Assignees(s, i) + [Assignment(a, now)] else Assignees(s, i) {}
  }

  lemma {:induction false} AssignAnyGrows(c: Config, s: State, a: Addr, now: int)
    requires Shape(c, s)
    ensures Grows(s, AssignAny(c, s, a, now), now)
  {
    if a in s.peers && s.peers[a].assignedTo < 0 {
      var best := FewestAssignees(s, s.peers[a].have, |s.pieces|);
      if best != -1 { AssignGrows(c, s, a, best, now); }
    }
  }

  lemma {:induction false} TryAssignGrows(c: Config, s: State, a: Addr, pick: int, now: int)
    requires Shape(c, s)
    ensures Grows(s, TryAssign(c, s, a, pick, now), now)
  {
    hide AssignAny, Assign;
    AssignAnyGrows(c, s, a, now);
    if 0 <= pick < |s.pieces| { AssignGrows(c, s, a, pick, now); }
  }

  lemma {:induction false} AssignAnyAllGrows(c: Config, s: State, order: seq<Addr>, now: int)
    requires Shape(c, s)
    ensures Grows(s, AssignAnyAll(c, s, order, now), now)
  {
    if order != [] {
      AssignAnyAllGrows(c, s, order[..|order| - 1], now);
      AssignAnyGrows(c, AssignAnyAll(c, s, order[..|order| - 1], now), order[|order| - 1], now);
    }
  }

  lemma {:induction false} AssignIdleGrows(c: Config, s: State, turns: seq<Turn>, now: int)
    requires Shape(c, s)
    ensures Grows(s, AssignIdle(c, s, turns, now), now)
  {
    if turns != [] {
      var init, last := turns[..|turns| - 1], turns[|turns| - 1];
      AssignIdleGrows(c, s, init, now);
      TryAssignGrows(c, AssignIdle(c, s, init, now), last.addr, last.pick, now);
    }
  }

  /** After a tick no assignment is thirty seconds old, and every assignment that was not is still there. */
  lemma {:induction false} TickLeavesNothingStale(
    c: Config, s: State, order: seq<Addr>, turns: seq<Turn>, now: int, i: int)
    requires Shape(c, s)
    ensures forall e :: e in Assignees(Tick(c, s, order, turns, now), i) ==> now - e.at < 30_000_000_000
    ensures forall e :: e in Assignees(s, i) && now - e.at < 30_000_000_000 ==>
      e in Assignees(Tick(c, s, order, turns, now), i)
  {
    var s1 := FreeStale(c, s, now);
    var s2 := MaybeEnterEndgame(c, s1, order, now);
    var r := AssignIdle(c, s2, turns, now);
    ListsAfterFreeStale(c, s, now, i);
    KeptEffect(Assignees(s, i), now);
    if EntersEndgame(s1) {
      var entered := s1.(endgame := true);
      AssignAnyAllGrows(c, entered, order, now);
      assert Assignees(entered, i) == Assignees(s1, i);
    }
    assert Assignees(s1, i) <= Assignees(s2, i);
    AssignIdleGrows(c, s2, turns, now);
    assert Assignees(s2, i) <= Assignees(r, i);
    forall e | e in Assignees(r, i) ensures Fresh(e, now) {
      var k :| 0 <= k < |Assignees(r, i)| && Assignees(r, i)[k] == e;
      if k < |Assignees(s2, i)| {
        assert e == Assignees(s2, i)[k];
        if k < |Assignees(s1, i)| { assert e == Assignees(s1, i)[k]; }
      }
    }
  }

  // ----- nobody who could work is left idle -----

  /** Ready to work: idle, not choking us, and with room for a command. */
  predicate Available(p: PeerInfo) { p.assignedTo < 0 && !p.peerChoking && p.commands.HasRoom() }

  /** The peer has nothing to offer: no missing piece, and in endgame no incomplete one. */
  ghost predicate NothingFor(s: State, have: set<int>) {
    forall i :: 0 <= i < |s.pieces| && i in have ==>
      s.pieces[i] != Missing && (s.endgame ==> s.pieces[i] == Complete)
  }

  lemma {:induction false} MinimumExists(counts: seq<int>, candidates: set<int>, start: int, upto: nat) returns (m: int)
    requires start in candidates && upto <= |counts|
    requires forall i :: i in candidates ==> 0 <= i < |counts|
    ensures m in candidates && forall j :: j in candidates && j < upto ==> counts[m] <= counts[j]
  {
    m := start;
    if upto > 0 {
      m := MinimumExists(counts, candidates, start, upto - 1);
      if upto - 1 in candidates && counts[upto - 1] < counts[m] { m := upto - 1; }
    }
  }

  /** There is a rarest piece exactly when there is a candidate at all. */
  lemma {:induction false} RarestExists(s: State, have: set<int>)
    requires |s.pieces| == |s.availability|
    ensures Rarest(s, have) == {} <==> Candidates(s, have) == {}
  {
    if i :| 0 <= i < |s.pieces| && i in Candidates(s, have) {
      var m := MinimumExists(s.availability, Candidates(s, have), i, |s.availability|);
      assert m in Rarest(s, have);
    } else {
      assert Candidates(s, have) == {};
    }
  }

  lemma {:induction false} TurnLeavesNothing(c: Config, s: State, a: Addr, pick: int, now: int)
    requires Shape(c, s) && a in s.peers && Drawn(s, a, pick)
    requires Available(TryAssign(c, s, a, pick, now).peers[a])
    ensures NothingFor(TryAssign(c, s, a, pick, now), s.peers[a].have)
  {
    var have := s.peers[a].have;
    if s.endgame {
      var best := FewestAssignees(s, have, |s.pieces|);
      assert best == -1;
    } else {
      assert Candidates(s, have) == {};
      assert forall i :: 0 <= i < |s.pieces| && i in have ==> i !in Candidates(s, have);
    }
  }

  lemma {:induction false} PassLeavesNothing(c: Config, s: State, turns: seq<Turn>, now: int, a: Addr)
    requires Shape(c, s) && TurnsDrawn(c, s, turns, now)
    requires a in s.peers && a in Addrs(turns) && Available(AssignIdle(c, s, turns, now).peers[a])
    ensures NothingFor(AssignIdle(c, s, turns, now), s.peers[a].have)
  {
    hide TryAssign, Drawn, NothingFor, Available, OnlyAssigns;
    var init, last := turns[..|turns| - 1], turns[|turns| - 1];
    var s1, r := AssignIdle(c, s, init, now), AssignIdle(c, s, turns, now);
    assert Addrs(turns) == Addrs(init) + [last.addr];
    assert r == TryAssign(c, s1, last.addr, last.pick, now);
    KeepsHave(c, s, s1, a);
    if last.addr == a {
      TurnLeavesNothing(c, s1, a, last.pick, now);
    } else {
      LaterTurns(c, s1, TryAssign(c, s1, last.addr, last.pick, now), a);
      PassLeavesNothing(c, s, init, now, a);
    }
  }

  lemma {:induction false} KeepsHave(c: Config, s: State, r: State, a: Addr)
    requires OnlyAssigns(c, s, r) && a in s.peers
    ensures a in r.peers && r.peers[a].have == s.peers[a].have
  {
  }

  /** Whoever is available after somebody else's turn was so before, and what had nothing for it still has nothing. */
  lemma {:induction false} LaterTurns(c: Config, s: State, r: State, a: Addr)
    requires OnlyAssigns(c, s, r) && a in s.peers && Available(r.peers[a])
    ensures Available(s.peers[a])
    ensures NothingFor(s, s.peers[a].have) ==> NothingFor(r, s.peers[a].have)
  {
    if r.peers[a] != s.peers[a] { AssignedIndex(c, r.peers[a].assignedTo); }
  }

  /** A tick is work-conserving, in whatever order the peers are visited: a peer that is idle afterwards although it is
      not choking us and its channel has room holds no missing piece, and no incomplete one once in endgame. */
  lemma {:induction false} TickIsWorkConserving(
    c: Config, s: State, order: seq<Addr>, turns: seq<Turn>, now: int, a: Addr)
    requires Shape(c, s) && Enabled(c, s, Ticked(order, turns, now))
    requires a in s.peers && Available(Tick(c, s, order, turns, now).peers[a])
    ensures NothingFor(Tick(c, s, order, turns, now), s.peers[a].have)
  {
    hide AssignIdle, AssignAnyAll, TurnsDrawn, NothingFor;
    var s2 := MaybeEnterEndgame(c, FreeStale(c, s, now), order, now);
    assert s2.peers[a].have == s.peers[a].have;
    assert a in s.peers.Keys;
    PassLeavesNothing(c, s2, turns, now, a);
  }

  // ----- endgame -----

  /** No incomplete piece has two assignees more than another. */
  ghost predicate Balanced(s: State) {
    forall i, j :: i in Incomplete(s.pieces) && j in Incomplete(s.pieces) ==>
      |Assignees(s, i)| <= |Assignees(s, j)| + 1
  }

  ghost predicate HoldsAll(s: State, a: Addr) {
    a in s.peers && s.peers[a].assignedTo < 0 ==> Incomplete(s.pieces) <= s.peers[a].have
  }

  lemma {:induction false} OfferKeepsBalance(c: Config, s: State, a: Addr, now: int)
    requires Shape(c, s) && Balanced(s) && HoldsAll(s, a)
    ensures Balanced(AssignAny(c, s, a, now))
  {
    var r := AssignAny(c, s, a, now);
    assert Incomplete(r.pieces) == Incomplete(s.pieces);
    if a in s.peers && s.peers[a].assignedTo < 0 {
      var best := FewestAssignees(s, s.peers[a].have, |s.pieces|);
      if best != -1 && CanSend(s, a) {
        forall i ensures |Assignees(r, i)| == |Assignees(s, i)| + if i == best then 1 else 0 {}
        forall i | i in Incomplete(s.pieces) ensures |Assignees(s, best)| <= |Assignees(s, i)| {
          assert i in s.peers[a].have;
        }
      }
    }
  }

  /** Handing out work leaves every idle peer's bitfield, and what is incomplete, as they were. */
  lemma {:induction false} AssigningKeepsHolding(c: Config, s: State, r: State, a: Addr)
    requires OnlyAssigns(c, s, r) && HoldsAll(s, a)
    ensures HoldsAll(r, a)
  {
    assert Incomplete(r.pieces) == Incomplete(s.pieces);
    assert a in s.peers <==> a in s.peers.Keys;
    assert a in r.peers <==> a in r.peers.Keys;
  }

  lemma {:induction false} OffersKeepBalance(c: Config, s: State, order: seq<Addr>, now: int)
    requires Shape(c, s) && Balanced(s) && forall a :: a in order ==> HoldsAll(s, a)
    ensures Balanced(AssignAnyAll(c, s, order, now))
  {
    if order != [] {
      hide Balanced, HoldsAll, OnlyAssigns, AssignAny;
      var init, last := order[..|order| - 1], order[|order| - 1];
      assert order == init + [last];
      OffersKeepBalance(c, s, init, now);
      var s1 := AssignAnyAll(c, s, init, now);
      AssigningKeepsHolding(c, s, s1, last);
      OfferKeepsBalance(c, s1, last, now);
    }
  }

  lemma {:induction false} TurnKeepsBalance(c: Config, s: State, a: Addr, pick: int, now: int)
    requires Shape(c, s) && s.endgame && Balanced(s) && HoldsAll(s, a)
    ensures Balanced(TryAssign(c, s, a, pick, now)) && TryAssign(c, s, a, pick, now).endgame
  {
    hide Balanced, HoldsAll, OnlyAssigns, AssignAny, Rarest;
    OfferKeepsBalance(c, s, a, now);
    assert AssignAny(c, s, a, now).endgame by { AssignAnyStaysInEndgame(c, s, a, now); }
  }

  lemma {:induction false} AssignAnyStaysInEndgame(c: Config, s: State, a: Addr, now: int)
    requires Shape(c, s)
    ensures AssignAny(c, s, a, now).endgame == s.endgame
  {
  }

  lemma {:induction false} TurnsKeepBalance(c: Config, s: State, turns: seq<Turn>, now: int)
    requires Shape(c, s) && s.endgame && Balanced(s) && forall a :: HoldsAll(s, a)
    ensures Balanced(AssignIdle(c, s, turns, now)) && AssignIdle(c, s, turns, now).endgame
  {
    if turns != [] {
      hide Balanced, HoldsAll, OnlyAssigns, TryAssign;
      var init, last := turns[..|turns| - 1], turns[|turns| - 1];
      TurnsKeepBalance(c, s, init, now);
      var s1 := AssignIdle(c, s, init, now);
      AssigningKeepsHolding(c, s, s1, last.addr);
      TurnKeepsBalance(c, s1, last.addr, last.pick, now);
    }
  }

  /** Entering endgame spreads the idle peers evenly when each of them holds every incomplete piece. */
  lemma {:induction false} EntryIsBalanced(c: Config, s: State, order: seq<Addr>, now: int)
    requires Shape(c, s) && Linked(c, s) && EntersEndgame(s)
    requires forall a :: a in order ==> HoldsAll(s, a)
    ensures Balanced(MaybeEnterEndgame(c, s, order, now)) && MaybeEnterEndgame(c, s, order, now).endgame
  {
    var entered := s.(endgame := true);
    forall i ensures Assignees(entered, i) == Assignees(s, i) {}
    assert Balanced(entered);
    assert forall a :: a in order ==> HoldsAll(s, a) ==> HoldsAll(entered, a);
    OffersKeepBalance(c, entered, order, now);
  }

  /** The tick that enters endgame leaves the coverage balanced, the pass over idle peers that ends it included. */
  lemma {:induction false} EntryTickIsBalanced(c: Config, s: State, order: seq<Addr>, turns: seq<Turn>, now: int)
    requires Shape(c, s) && Linked(c, s) && EntersEndgame(FreeStale(c, s, now))
    requires forall a :: HoldsAll(FreeStale(c, s, now), a)
    ensures Balanced(Tick(c, s, order, turns, now)) && Tick(c, s, order, turns, now).endgame
  {
    hide Balanced, HoldsAll, OnlyAssigns, AssignAnyAll, AssignIdle, EntersEndgame, FreeStale;
    var s1 := FreeStale(c, s, now);
    FreeStaleKeepsLinked(c, s, now);
    EntryIsBalanced(c, s1, order, now);
    var s2 := MaybeEnterEndgame(c, s1, order, now);
    forall a ensures HoldsAll(s2, a) {
      SameHolding(s1, s1.(endgame := true), a);
      AssigningKeepsHolding(c, s1.(endgame := true), s2, a);
    }
    TurnsKeepBalance(c, s2, turns, now);
  }

  lemma {:induction false} SameHolding(s: State, r: State, a: Addr)
    requires r.pieces == s.pieces && r.peers == s.peers && HoldsAll(s, a)
    ensures HoldsAll(r, a)
  {
  }

  ghost predicate NothingStale(s: State, now: int) {
    forall i :: i in s.assignments ==> forall e :: e in s.assignments[i] ==> Fresh(e, now)
  }

  lemma {:induction false} FreshAreKept(list: seq<Assignment>, now: int)
    requires forall e :: e in list ==> Fresh(e, now)
    ensures Kept(list, now) == list
  {
    if list != [] {
      assert list == list[..|list| - 1] + [list[|list| - 1]];
      FreshAreKept(list[..|list| - 1], now);
    }
  }

  lemma {:induction false} NothingStaleFreesNothing(c: Config, s: State, now: int)
    requires Shape(c, s) && NothingStale(s, now)
    ensures FreeStale(c, s, now) == s
  {
    hide Kept, Fresh;
    forall i | i in s.assignments
      ensures Kept(s.assignments[i], now) == s.assignments[i] && forall a :: !HasStale(s.assignments[i], a, now)
    {
      FreshAreKept(s.assignments[i], now);
      assert forall k :: 0 <= k < |s.assignments[i]| ==> s.assignments[i][k] in s.assignments[i];
    }
    var r := FreeStale(c, s, now);
    assert r.pieces == s.pieces && r.assignments == s.assignments && r.peers == s.peers;
  }

  /** What keeps endgame balanced: every offer made to a peer that, if idle, holds every incomplete piece, on whatever
      occasion it is made; wins; ticks that find nothing stale; peers that come, or go without work; and everything that
      leaves the lists alone, workers taking commands among it. */
  ghost predicate EndgameStep(c: Config, s: State, step: Step)
    requires Shape(c, s) && Enabled(c, s, step)
  {
    match step
    case Ready(a, pick, now) => HoldsAll(s, a)
    case UnchokedUs(a, pick, now) => HoldsAll(s, a)
    case GotHave(a, i, pick, now) => a in s.peers && i !in s.peers[a].have ==> HoldsAll(HaveCounted(c, s, a, i), a)
    case GotBitfield(a, bits, pick, now) =>
      a in s.peers && !s.peers[a].gotBitfield ==> HoldsAll(BitfieldCounted(c, s, a, bits), a)
    case Ticked(order, turns, now) => NothingStale(s, now) && forall a :: HoldsAll(s, a)
    case Joined(a) => a in s.peers ==> s.peers[a].assignedTo < 0
    case Left(a) => a in s.peers ==> s.peers[a].assignedTo < 0
    case Failed(_, _) => false
    case _ => true
  }

  lemma {:induction false} SameListsStayBalanced(s: State, r: State)
    requires Balanced(s) && r.pieces == s.pieces && r.assignments == s.assignments
    ensures Balanced(r)
  {
    forall i ensures Assignees(r, i) == Assignees(s, i) {}
  }

  lemma {:induction false} WinKeepsBalance(c: Config, s: State, a: Addr, i: int, data: Bytes, delivered: bool)
    requires Shape(c, s) && Balanced(s) && 0 <= i < c.layout.pieceCount
    ensures Balanced(AfterPieceDownloaded(c, s, a, i, data, delivered))
    ensures AfterPieceDownloaded(c, s, a, i, data, delivered).endgame == s.endgame
  {
    var r := AfterPieceDownloaded(c, s, a, i, data, delivered);
    if s.pieces[i] != Complete {
      assert Incomplete(r.pieces) == Incomplete(s.pieces) - {i};
      forall j | j != i ensures Assignees(r, j) == Assignees(s, j) {}
    }
  }

  lemma {:induction false} OfferAfterChangeKeepsBalance(c: Config, s: State, m: State, a: Addr, pick: int, now: int)
    requires Shape(c, m) && s.endgame && Balanced(s) && HoldsAll(m, a)
    requires m.pieces == s.pieces && m.assignments == s.assignments && m.endgame == s.endgame
    ensures Balanced(TryAssign(c, m, a, pick, now)) && TryAssign(c, m, a, pick, now).endgame
  {
    SameListsStayBalanced(s, m);
    TurnKeepsBalance(c, m, a, pick, now);
  }

  lemma {:induction false} UnchokedStillHolds(c: Config, s: State, a: Addr)
    requires Shape(c, s) && a in s.peers && HoldsAll(s, a)
    ensures HoldsAll(PeerUnchoked(c, s, a), a)
  {
  }

  lemma {:induction false} EndgameTickKeepsBalance(
    c: Config, s: State, order: seq<Addr>, turns: seq<Turn>, now: int)
    requires Shape(c, s) && s.endgame && Balanced(s) && NothingStale(s, now) && forall a :: HoldsAll(s, a)
    ensures Balanced(Tick(c, s, order, turns, now)) && Tick(c, s, order, turns, now).endgame
  {
    hide Balanced, HoldsAll, FreeStale, AssignIdle, NothingStale;
    NothingStaleFreesNothing(c, s, now);
    TurnsKeepBalance(c, s, turns, now);
  }

  lemma {:induction false} EndgameStepKeepsBalance(c: Config, s: State, step: Step)
    requires Shape(c, s) && Enabled(c, s, step) && s.endgame && Balanced(s) && EndgameStep(c, s, step)
    ensures Next(c, s, step).endgame && Balanced(Next(c, s, step))
  {
    hide TryAssign, Tick, AfterPieceDownloaded, SetChoked, RecalcChoke, RotateOptimistic, Balanced, HoldsAll,
         NothingStale, Drawn, TurnsDrawn;
    if Quiet(step) {
      SameListsStayBalanced(s, Next(c, s, step));
    } else {
      match step
      case Ready(a, pick, now) => TurnKeepsBalance(c, s, a, pick, now);
      case UnchokedUs(a, pick, now) =>
        if a in s.peers {
          UnchokedStillHolds(c, s, a);
          OfferAfterChangeKeepsBalance(c, s, PeerUnchoked(c, s, a), a, pick, now);
        }
      case GotHave(a, i, pick, now) =>
        if a in s.peers && i !in s.peers[a].have {
          OfferAfterChangeKeepsBalance(c, s, HaveCounted(c, s, a, i), a, pick, now);
        }
      case GotBitfield(a, bits, pick, now) =>
        if a in s.peers && !s.peers[a].gotBitfield {
          OfferAfterChangeKeepsBalance(c, s, BitfieldCounted(c, s, a, bits), a, pick, now);
        }
      case Ticked(order, turns, now) => EndgameTickKeepsBalance(c, s, order, turns, now);
      case Downloaded(a, i, data, delivered) => WinKeepsBalance(c, s, a, i, data, delivered);
      case Joined(a) => SameListsStayBalanced(s, Next(c, s, step));
      case Left(a) => SameListsStayBalanced(s, Next(c, s, step));
    }
  }

  /** From the tick at which a run enters endgame with every idle peer holding every incomplete piece, the coverage of
      the last pieces is balanced, and it stays so through any number of steps that keep it. */
  lemma {:induction false} EndgameStaysBalanced(c: Config, trace: seq<State>, steps: seq<Step>, entry: nat, k: nat)
    requires IsRun(c, trace, steps) && entry < k < |trace|
    requires steps[entry].Ticked? && EntersEndgame(FreeStale(c, trace[entry], steps[entry].now))
    requires forall a :: HoldsAll(FreeStale(c, trace[entry], steps[entry].now), a)
    requires forall j :: entry < j < k ==> EndgameStep(c, trace[j], steps[j])
    ensures Shape(c, trace[k]) && trace[k].endgame && Balanced(trace[k])
  {
    hide Enabled, EndgameStep, Balanced, HoldsAll, EntersEndgame, FreeStale, Tick, IsRun;
    var j := k - 1;
    RunStepsOn(c, trace, steps, j);
    if j == entry {
      AssignmentsAgreeOverRuns(c, trace, steps, j);
      EntryTickIsBalanced(c, trace[j], steps[j].order, steps[j].turns, steps[j].now);
    } else {
      EndgameStaysBalanced(c, trace, steps, entry, j);
      EndgameStepKeepsBalance(c, trace[j], steps[j]);
    }
  }

  lemma {:induction false} RunStepsOn(c: Config, trace: seq<State>, steps: seq<Step>, j: nat)
    requires IsRun(c, trace, steps) && j + 1 < |trace|
    ensures |trace| == |steps| + 1 && Shape(c, trace[j]) && Enabled(c, trace[j], steps[j])
    ensures trace[j + 1] == Next(c, trace[j], steps[j]) && Shape(c, trace[j + 1])
  {
    hide Next, Enabled;
  }
}
