/** Over every run, the availability counts agree with the peers' bitfields. */
module Availability {
  import opened Base
  import opened Events
  import opened CoordinatorState
  import opened AssignmentInvariants
  import Completion

  ghost function Holders(peers: map<Addr, PeerInfo>, i: int): set<Addr> {
    set a | a in peers && i in peers[a].have
  }

  /** A piece is counted once for each registered peer whose bitfield has it, once more for every bitfield that replaced
      a have of it that was already counted, and once less for every have of it that found its bit already set in a
      bitfield shared with the worker. */
  ghost predicate Counted(s: State)
    requires |s.availability| == |s.overwritten| == |s.uncounted|
  {
    forall i :: 0 <= i < |s.availability| ==> CountedAt(s, i)
  }

  ghost predicate CountedAt(s: State, i: int)
    requires 0 <= i < |s.availability| == |s.overwritten| == |s.uncounted|
  {
    s.availability[i] == |Holders(s.peers, i)| + s.overwritten[i] - s.uncounted[i]
  }

  lemma {:induction false} HoldersUpdate(peers: map<Addr, PeerInfo>, a: Addr, p: PeerInfo, i: int)
    ensures |Holders(peers[a := p], i)| ==
      |Holders(peers, i)| - (if a in peers && i in peers[a].have then 1 else 0) + if i in p.have then 1 else 0
  {
    var rest := Holders(peers, i) - {a};
    assert Holders(peers, i) == if a in peers && i in peers[a].have then rest + {a} else rest;
    assert Holders(peers[a := p], i) == if i in p.have then rest + {a} else rest;
  }

  lemma {:induction false} HoldersRemove(peers: map<Addr, PeerInfo>, a: Addr, i: int)
    requires a in peers
    ensures |Holders(peers - {a}, i)| == |Holders(peers, i)| - if i in peers[a].have then 1 else 0
  {
    var rest := Holders(peers, i) - {a};
    assert Holders(peers, i) == if i in peers[a].have then rest + {a} else rest;
    assert Holders(peers - {a}, i) == rest;
  }

  lemma {:induction false} SameHolders(peers: map<Addr, PeerInfo>, after: map<Addr, PeerInfo>, i: int)
    requires after.Keys == peers.Keys && forall b :: b in after ==> after[b].have == peers[b].have
    ensures Holders(after, i) == Holders(peers, i)
  {
    forall a ensures a in Holders(after, i) <==> a in Holders(peers, i) {
      assert a in after <==> a in after.Keys;
      assert a in peers <==> a in peers.Keys;
    }
  }

  /** Counts stay right when bitfields, counts and history stay as they are. */
  lemma {:induction false} SameBitfields(s: State, r: State)
    requires |s.availability| == |s.overwritten| == |s.uncounted| && Counted(s)
    requires r.availability == s.availability && r.overwritten == s.overwritten && r.uncounted == s.uncounted
    requires r.peers.Keys == s.peers.Keys && forall b :: b in r.peers ==> r.peers[b].have == s.peers[b].have
    ensures Counted(r)
  {
    forall i | 0 <= i < |r.availability| ensures CountedAt(r, i) {
      SameHolders(s.peers, r.peers, i);
      assert CountedAt(s, i);
    }
  }

  lemma {:induction false} PeerLeftKeepsCounts(c: Config, s: State, a: Addr)
    requires Shape(c, s) && Counted(s)
    ensures Counted(AfterPeerLeft(c, s, a))
  {
    if a in s.peers {
      var r := AfterPeerLeft(c, s, a);
      LeaveEffect(c, s, a);
      forall i | 0 <= i < |s.availability| ensures CountedAt(r, i) {
        assert CountedAt(s, i);
        HoldersRemove(s.peers, a, i);
      }
    }
  }

  lemma {:induction false} PeerJoinedKeepsCounts(c: Config, s: State, a: Addr)
    requires Shape(c, s) && Counted(s)
    ensures Counted(AfterPeerJoined(c, s, a))
  {
    PeerLeftKeepsCounts(c, s, a);
    var s1 := AfterPeerLeft(c, s, a);
    assert a !in s1.peers;
    forall i | 0 <= i < |s1.availability| ensures CountedAt(AfterPeerJoined(c, s, a), i) {
      assert CountedAt(s1, i);
      HoldersUpdate(s1.peers, a, NEW_PEER, i);
    }
  }

  lemma {:induction false} BitfieldKeepsCounts(c: Config, s: State, a: Addr, bits: set<int>)
    requires Shape(c, s) && Counted(s) && a in s.peers
    ensures Counted(BitfieldCounted(c, s, a, bits))
  {
    var r := BitfieldCounted(c, s, a, bits);
    forall i | 0 <= i < |s.availability| ensures CountedAt(r, i) {
      assert CountedAt(s, i);
      HoldersUpdate(s.peers, a, s.peers[a].(gotBitfield := true, have := bits, shared := true), i);
    }
  }

  lemma {:induction false} HaveKeepsCounts(c: Config, s: State, a: Addr, index: int)
    requires Shape(c, s) && Counted(s) && a in s.peers && 0 <= index < |s.pieces| && index !in s.peers[a].have
    ensures Counted(HaveCounted(c, s, a, index))
  {
    var r := HaveCounted(c, s, a, index);
    forall i | 0 <= i < |s.availability| ensures CountedAt(r, i) {
      assert CountedAt(s, i);
      HoldersUpdate(s.peers, a, s.peers[a].(have := s.peers[a].have + {index}), i);
    }
  }

  lemma {:induction false} WrittenBitKeepsCounts(c: Config, s: State, a: Addr, index: int)
    requires Shape(c, s) && Counted(s) && 0 <= index < |s.pieces|
    ensures Counted(AfterBitWritten(c, s, a, index))
  {
    if a in s.peers && s.peers[a].shared && index !in s.peers[a].have {
      var r := AfterBitWritten(c, s, a, index);
      forall i | 0 <= i < |s.availability| ensures CountedAt(r, i) {
        assert CountedAt(s, i);
        HoldersUpdate(s.peers, a, s.peers[a].(have := s.peers[a].have + {index}), i);
      }
    }
  }

  lemma {:induction false} OfferKeepsCounts(c: Config, s: State, a: Addr, pick: int, now: int)
    requires Shape(c, s) && Counted(s)
    ensures Counted(TryAssign(c, s, a, pick, now))
  {
    SameBitfields(s, TryAssign(c, s, a, pick, now));
  }

  lemma {:induction false} TickKeepsCounts(c: Config, s: State, order: seq<Addr>, turns: seq<Turn>, now: int)
    requires Shape(c, s) && Counted(s)
    ensures Counted(Tick(c, s, order, turns, now))
  {
    hide AssignAnyAll, AssignIdle;
    var s1 := FreeStale(c, s, now);
    SameBitfields(s, s1);
    SameBitfields(s1, MaybeEnterEndgame(c, s1, order, now));
    SameBitfields(MaybeEnterEndgame(c, s1, order, now), Tick(c, s, order, turns, now));
  }

  lemma {:induction false} OutcomeKeepsCounts(c: Config, s: State, a: Addr, i: int, data: Bytes, delivered: bool)
    requires Shape(c, s) && Counted(s) && 0 <= i < |s.pieces|
    ensures Counted(AfterPieceDownloaded(c, s, a, i, data, delivered))
  {
    if s.pieces[i] != Complete {
      SameBitfields(s, Finish(s, a, i));
      SameBitfields(Finish(s, a, i), AfterPieceDownloaded(c, s, a, i, data, delivered));
    }
  }

  lemma {:induction false} FailureKeepsCounts(c: Config, s: State, a: Addr, i: int)
    requires Shape(c, s) && Counted(s) && 0 <= i < |s.pieces|
    ensures Counted(AfterPieceFailed(c, s, a, i))
  {
    hide Counted;
    SameBitfields(s, AfterPieceFailed(c, s, a, i));
  }

  lemma {:induction false} BitfieldStepKeepsCounts(c: Config, s: State, a: Addr, bits: set<int>, pick: int, now: int)
    requires Shape(c, s) && Counted(s)
    ensures Counted(AfterBitfieldReceived(c, s, a, bits, pick, now))
  {
    hide TryAssign, Counted, BitfieldCounted;
    if a in s.peers && !s.peers[a].gotBitfield {
      BitfieldKeepsCounts(c, s, a, bits);
      OfferKeepsCounts(c, BitfieldCounted(c, s, a, bits), a, pick, now);
    }
  }

  lemma {:induction false} HaveStepKeepsCounts(c: Config, s: State, a: Addr, index: int, pick: int, now: int)
    requires Shape(c, s) && Counted(s) && 0 <= index < c.layout.pieceCount
    ensures Counted(AfterHaveReceived(c, s, a, index, pick, now))
  {
    hide TryAssign, Counted, HaveCounted;
    if a in s.peers && index !in s.peers[a].have {
      HaveKeepsCounts(c, s, a, index);
      OfferKeepsCounts(c, HaveCounted(c, s, a, index), a, pick, now);
    }
  }

  lemma {:induction false} UnchokeStepKeepsCounts(c: Config, s: State, a: Addr, pick: int, now: int)
    requires Shape(c, s) && Counted(s)
    ensures Counted(AfterUnchokeReceived(c, s, a, pick, now))
  {
    hide TryAssign, Counted, PeerUnchoked;
    if a in s.peers {
      SameBitfields(s, PeerUnchoked(c, s, a));
      OfferKeepsCounts(c, PeerUnchoked(c, s, a), a, pick, now);
    }
  }

  lemma {:induction false} QuietStepKeepsCounts(c: Config, s: State, step: Step)
    requires Shape(c, s) && Enabled(c, s, step) && Counted(s) && Quiet(step) && !step.BitWritten?
    ensures Counted(Next(c, s, step))
  {
    hide RecalcChoke, RotateOptimistic, Counted, TakeCommand, AfterNotInterestedReceived, BestByRate,
         OptimisticCandidates;
    SameBitfields(s, Next(c, s, step));
  }

  lemma {:induction false} StepKeepsCounts(c: Config, s: State, step: Step)
    requires Shape(c, s) && Enabled(c, s, step) && Counted(s)
    ensures Counted(Next(c, s, step))
  {
    hide Counted, Drawn, Visits, TurnsDrawn, BestByRate, OptimisticCandidates, AfterPeerJoined, AfterPeerLeft,
         AfterBitfieldReceived, AfterHaveReceived, AfterPieceDownloaded, AfterPieceFailed, TryAssign,
         AfterUnchokeReceived, Tick, AfterBitWritten;
    match step
    case Joined(a) => PeerJoinedKeepsCounts(c, s, a);
    case Left(a) => PeerLeftKeepsCounts(c, s, a);
    case GotBitfield(a, bits, pick, now) => BitfieldStepKeepsCounts(c, s, a, bits, pick, now);
    case GotHave(a, index, pick, now) => HaveStepKeepsCounts(c, s, a, index, pick, now);
    case Downloaded(a, i, data, delivered) => OutcomeKeepsCounts(c, s, a, i, data, delivered);
    case Failed(a, i) => FailureKeepsCounts(c, s, a, i);
    case Ready(a, pick, now) => OfferKeepsCounts(c, s, a, pick, now);
    case UnchokedUs(a, pick, now) => UnchokeStepKeepsCounts(c, s, a, pick, now);
    case Ticked(order, turns, now) => TickKeepsCounts(c, s, order, turns, now);
    case BitWritten(a, index) => WrittenBitKeepsCounts(c, s, a, index);
    case _ => QuietStepKeepsCounts(c, s, step);
  }

  lemma {:induction false} StartIsCounted(c: Config, s: State)
    requires Shape(c, s) && Starts(c, s)
    ensures Counted(s) && NothingOverwritten(s) && NothingUncounted(s)
  {
    assert forall i :: Holders(s.peers, i) == {};
  }

  /** In every reachable state, whatever a worker writes to a bitfield it shares: the counts are the holders, plus
      the counted haves that a bitfield overwrote, minus the haves that found their bit already set by the worker.
      So a count is exact if and only if those two make up for each other, and negative if and only if the
      uncounted haves outnumber the other two. */
  lemma {:induction false} AvailabilityOverRuns(c: Config, trace: seq<State>, steps: seq<Step>, k: nat, i: nat)
    requires IsRun(c, trace, steps) && k < |trace| && i < c.layout.pieceCount
    ensures Shape(c, trace[k]) && Counted(trace[k])
    ensures trace[k].availability[i] == |Holders(trace[k].peers, i)| <==>
      trace[k].overwritten[i] == trace[k].uncounted[i]
    ensures trace[k].availability[i] < 0 <==>
      trace[k].uncounted[i] > |Holders(trace[k].peers, i)| + trace[k].overwritten[i]
  {
    hide Next, Counted;
    if k > 0 {
      AvailabilityOverRuns(c, trace, steps, k - 1, i);
      StepKeepsCounts(c, trace[k - 1], steps[k - 1]);
    } else {
      StartIsCounted(c, trace[0]);
    }
    CountedHere(trace[k], i);
  }

  lemma {:induction false} CountedHere(s: State, i: nat)
    requires i < |s.availability| == |s.overwritten| == |s.uncounted| && Counted(s)
    ensures CountedAt(s, i)
  {
  }

  // ----- when the counts are exact -----

  /** A bitfield that replaces nothing counted. */
  ghost predicate BitfieldFirst(s: State, step: Step) {
    step.GotBitfield? && step.addr in s.peers && !s.peers[step.addr].gotBitfield ==> s.peers[step.addr].have == {}
  }

  /** A worker does not read a new have while its bitfield is the coordinator's too. */
  ghost predicate NoSharedHave(s: State, step: Step) {
    step.BitWritten? && step.addr in s.peers && s.peers[step.addr].shared ==> step.index in s.peers[step.addr].have
  }

  ghost predicate NothingOverwritten(s: State) {
    forall i :: 0 <= i < |s.overwritten| ==> s.overwritten[i] == 0
  }

  ghost predicate NothingUncounted(s: State) {
    forall i :: 0 <= i < |s.uncounted| ==> s.uncounted[i] == 0
  }

  /** What each step adds to the two histories. */
  lemma {:induction false} HistoryAfterStep(c: Config, s: State, step: Step)
    requires Shape(c, s) && Enabled(c, s, step)
    ensures BitfieldFirst(s, step) && NothingOverwritten(s) ==> NothingOverwritten(Next(c, s, step))
    ensures NoSharedHave(s, step) ==> Next(c, s, step).uncounted == s.uncounted
  {
    hide TryAssign, AfterPeerLeft, AfterPeerJoined, Tick, AfterPieceDownloaded, AfterPieceFailed, AfterHaveReceived,
         AfterUnchokeReceived, SetChoked, RecalcChoke, RotateOptimistic, Drawn, Visits, TurnsDrawn, BestByRate,
         OptimisticCandidates;
    Completion.ResultsAfterStep(c, s, step);
  }

  /** When every bitfield comes before its peer's haves and no worker reads a new have while it shares its bitfield, the
      counts are exactly the holders, in every state. */
  lemma {:induction false} ExactWhenNothingIsShared(c: Config, trace: seq<State>, steps: seq<Step>, k: nat)
    requires IsRun(c, trace, steps) && k < |trace|
    requires forall j :: 0 <= j < k ==> BitfieldFirst(trace[j], steps[j]) && NoSharedHave(trace[j], steps[j])
    ensures Shape(c, trace[k]) && NothingOverwritten(trace[k]) && NothingUncounted(trace[k])
    ensures forall i :: 0 <= i < |trace[k].availability| ==>
      trace[k].availability[i] == |Holders(trace[k].peers, i)|
  {
    hide Next, BitfieldFirst, NoSharedHave;
    if k > 0 {
      ExactWhenNothingIsShared(c, trace, steps, k - 1);
      HistoryAfterStep(c, trace[k - 1], steps[k - 1]);
    } else {
      StartIsCounted(c, trace[0]);
    }
    forall i: nat | i < c.layout.pieceCount ensures trace[k].availability[i] == |Holders(trace[k].peers, i)| {
      AvailabilityOverRuns(c, trace, steps, k, i);
    }
  }

  // ----- how a count goes wrong -----

  /** A coordinator that knows a single peer and has lost count of some haves. */
  ghost function Knowing(c: Config, a: Addr, p: PeerInfo, uncounted: seq<nat>): State {
    Initial(c).(peers := map[a := p], uncounted := uncounted)
  }

  const TOLD := NEW_PEER.(gotBitfield := true, shared := true)

  lemma {:induction false} JoinAndTell(c: Config, a: Addr, pick: int, now: int)
    ensures var joined := Knowing(c, a, NEW_PEER, Initial(c).uncounted);
      && AfterPeerJoined(c, Initial(c), a) == joined
      && Drawn(BitfieldCounted(c, joined, a, {}), a, pick)
      && AfterBitfieldReceived(c, joined, a, {}, pick, now) == Knowing(c, a, TOLD, Initial(c).uncounted)
  {
    var joined, told := Knowing(c, a, NEW_PEER, Initial(c).uncounted), Knowing(c, a, TOLD, Initial(c).uncounted);
    assert Initial(c).peers[a := NEW_PEER] == map[a := NEW_PEER];
    assert joined.peers[a := TOLD] == told.peers;
    assert AddAvailability(joined.availability, {}) == joined.availability;
    assert BitfieldCounted(c, joined, a, {}).overwritten == joined.overwritten;
    assert BitfieldCounted(c, joined, a, {}) == told;
    assert Candidates(told, {}) == {};
  }

  lemma {:induction false} WriteAndLeave(c: Config, a: Addr, index: nat)
    requires index < c.layout.pieceCount
    ensures var told := Knowing(c, a, TOLD, Initial(c).uncounted);
      var written := Knowing(c, a, TOLD.(have := {index}), Initial(c).uncounted[index := 1]);
      var left := AfterPeerLeft(c, written, a);
      && AfterBitWritten(c, told, a, index) == written
      && left.peers == map[] && left.availability[index] == -1
  {
    var told := Knowing(c, a, TOLD, Initial(c).uncounted);
    var written := Knowing(c, a, TOLD.(have := {index}), Initial(c).uncounted[index := 1]);
    assert TOLD.have + {index} == {index};
    assert told.peers[a := TOLD.(have := {index})] == written.peers;
    assert written.peers - {a} == map[];
  }

  /** A peer joins, sends an empty bitfield, and then has a piece: its worker sets the bit before it reports the have,
      which therefore looks redundant. The have is neither counted nor answered with work, and the peer's leaving
      subtracts it: the count ends at -1. */
  lemma {:induction false} SharedBitfieldLosesCount(c: Config, a: Addr, index: nat, pick: int, now: int)
    returns (trace: seq<State>, steps: seq<Step>)
    requires index < c.layout.pieceCount
    ensures steps ==
      [Joined(a), GotBitfield(a, {}, pick, now), BitWritten(a, index), GotHave(a, index, pick, now), Left(a)]
    ensures IsRun(c, trace, steps)
    ensures trace[4] == trace[3] && a in trace[3].peers && index in trace[3].peers[a].have
    ensures trace[4].availability[index] == 0
    ensures trace[5].availability[index] == -1 && trace[5].peers == map[]
  {
    hide AfterPeerJoined, AfterBitfieldReceived, AfterBitWritten, AfterPeerLeft, Drawn, Starts;
    JoinAndTell(c, a, pick, now);
    WriteAndLeave(c, a, index);
    var none := Initial(c).uncounted;
    var written := Knowing(c, a, TOLD.(have := {index}), none[index := 1]);
    steps := [Joined(a), GotBitfield(a, {}, pick, now), BitWritten(a, index), GotHave(a, index, pick, now), Left(a)];
    trace := [Initial(c), Knowing(c, a, NEW_PEER, none), Knowing(c, a, TOLD, none), written, written,
              AfterPeerLeft(c, written, a)];
    InitialStarts(c);
  }

  lemma {:induction false} InitialStarts(c: Config)
    ensures Starts(c, Initial(c))
  {
  }
}
