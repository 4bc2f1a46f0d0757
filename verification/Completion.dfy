/** What each step does to the set of incomplete pieces and to the results waiting for disk. */
module Completion {
  import opened Base
  import opened Events
  import opened CoordinatorState
  import opened AssignmentInvariants

  /** Only a download completes a piece, and only a failure that names it can undo that. The failure handler has no
      guard for a complete piece, so a late failure from an endgame loser always does. */
  lemma {:induction false} IncompleteAfterStep(c: Config, s: State, step: Step)
    requires Shape(c, s) && Enabled(c, s, step) && Linked(c, s)
    ensures Incomplete(Next(c, s, step).pieces) ==
      if step.Downloaded? then Incomplete(s.pieces) - {step.index}
      else if step.Failed? then Incomplete(s.pieces) + {step.index}
      else Incomplete(s.pieces)
  {
    hide TryAssign, AfterPeerLeft, AfterPeerJoined, Tick, AfterPieceDownloaded, AfterPieceFailed, AfterBitfieldReceived,
         AfterHaveReceived, AfterUnchokeReceived, SetChoked, RecalcChoke, RotateOptimistic, Linked, Incomplete, Drawn,
         Visits, TurnsDrawn, BestByRate, OptimisticCandidates;
    match step
    case Left(a) => ReleaseCompletes(c, s, a);
    case Joined(a) => JoiningCompletes(c, s, a);
    case Failed(a, i) => FailureOfComplete(c, s, a, i);
    case Ticked(order, turns, now) => TickCompletes(c, s, order, turns, now);
    case GotBitfield(a, bits, pick, now) => OffersComplete(c, s, a, bits, 0, pick, now);
    case GotHave(a, i, pick, now) => OffersComplete(c, s, a, {}, i, pick, now);
    case UnchokedUs(a, pick, now) => OffersComplete(c, s, a, {}, 0, pick, now);
    case Ready(a, pick, now) => OffersComplete(c, s, a, {}, 0, pick, now);
    case Downloaded(a, i, data, delivered) => DownloadCompletes(c, s, a, i, data, delivered);
    case _ => QuietCompletes(c, s, step);
  }

  lemma {:induction false} QuietCompletes(c: Config, s: State, step: Step)
    requires Shape(c, s) && Enabled(c, s, step) && Quiet(step)
    ensures Next(c, s, step).pieces == s.pieces
  {
    hide TryAssign, AfterPeerLeft, AfterPeerJoined, Tick, AfterPieceDownloaded, AfterPieceFailed, AfterBitfieldReceived,
         AfterHaveReceived, AfterUnchokeReceived, SetChoked, RecalcChoke, RotateOptimistic, Drawn, Visits, TurnsDrawn,
         BestByRate, OptimisticCandidates;
  }

  lemma {:induction false} DownloadCompletes(c: Config, s: State, a: Addr, i: int, data: Bytes, delivered: bool)
    requires Shape(c, s) && 0 <= i < |s.pieces|
    ensures Incomplete(AfterPieceDownloaded(c, s, a, i, data, delivered).pieces) == Incomplete(s.pieces) - {i}
  {
    hide CancelOthers;
  }

  lemma {:induction false} JoiningCompletes(c: Config, s: State, a: Addr)
    requires Shape(c, s) && Linked(c, s)
    ensures Incomplete(AfterPeerJoined(c, s, a).pieces) == Incomplete(s.pieces)
  {
    hide AfterPeerLeft;
    ReleaseCompletes(c, s, a);
  }

  lemma {:induction false} OffersComplete(
    c: Config, s: State, a: Addr, bits: set<int>, i: int, pick: int, now: int)
    requires Shape(c, s)
    ensures Incomplete(AfterBitfieldReceived(c, s, a, bits, pick, now).pieces) == Incomplete(s.pieces)
    ensures 0 <= i < c.layout.pieceCount ==>
      Incomplete(AfterHaveReceived(c, s, a, i, pick, now).pieces) == Incomplete(s.pieces)
    ensures Incomplete(AfterUnchokeReceived(c, s, a, pick, now).pieces) == Incomplete(s.pieces)
    ensures Incomplete(TryAssign(c, s, a, pick, now).pieces) == Incomplete(s.pieces)
  {
    hide TryAssign, Incomplete;
    GivingCompletes(c, s, a, pick, now);
    if a in s.peers {
      GivingCompletes(c, BitfieldCounted(c, s, a, bits), a, pick, now);
      GivingCompletes(c, PeerUnchoked(c, s, a), a, pick, now);
      if 0 <= i < c.layout.pieceCount { GivingCompletes(c, HaveCounted(c, s, a, i), a, pick, now); }
    }
  }

  lemma {:induction false} AssigningCompletes(c: Config, s: State, r: State)
    requires OnlyAssigns(c, s, r)
    ensures Incomplete(r.pieces) == Incomplete(s.pieces)
  {
  }

  lemma {:induction false} GivingCompletes(c: Config, s: State, a: Addr, pick: int, now: int)
    requires Shape(c, s)
    ensures Incomplete(TryAssign(c, s, a, pick, now).pieces) == Incomplete(s.pieces)
  {
    hide TryAssign;
    AssigningCompletes(c, s, TryAssign(c, s, a, pick, now));
  }

  lemma {:induction false} TickCompletes(c: Config, s: State, order: seq<Addr>, turns: seq<Turn>, now: int)
    requires Shape(c, s) && Linked(c, s)
    ensures Incomplete(Tick(c, s, order, turns, now).pieces) == Incomplete(s.pieces)
  {
    FreeStaleCompletes(c, s, now);
    var s1 := FreeStale(c, s, now);
    var s2 := MaybeEnterEndgame(c, s1, order, now);
    if EntersEndgame(s1) { AssigningCompletes(c, s1.(endgame := true), s2); }
    AssigningCompletes(c, s2, AssignIdle(c, s2, turns, now));
  }

  lemma {:induction false} FailureOfComplete(c: Config, s: State, a: Addr, i: int)
    requires Shape(c, s) && Linked(c, s) && 0 <= i < |s.pieces|
    ensures s.pieces[i] == Complete ==> AfterPieceFailed(c, s, a, i).pieces[i] == Missing
    ensures Incomplete(AfterPieceFailed(c, s, a, i).pieces) == Incomplete(s.pieces) + {i}
  {
    ListsAfterRelease(c, s, i, a);
    RemoveFirstEffect(Assignees(s, i), a);
    assert s.pieces[i] == InFlight <==> Assignees(s, i) != [];
  }

  lemma {:induction false} ReleaseCompletes(c: Config, s: State, a: Addr)
    requires Shape(c, s) && Linked(c, s)
    ensures Incomplete(AfterPeerLeft(c, s, a).pieces) == Incomplete(s.pieces)
  {
    if a in s.peers && s.peers[a].assignedTo >= 0 {
      var p := s.peers[a];
      assert WorkListed(s, a);
      assert s.pieces[p.assignedTo] == InFlight;
      ListsAfterRelease(c, s.(availability := RemoveAvailability(s.availability, p.have)), p.assignedTo, a);
    }
  }

  lemma {:induction false} FreeStaleCompletes(c: Config, s: State, now: int)
    requires Shape(c, s) && Linked(c, s)
    ensures Incomplete(FreeStale(c, s, now).pieces) == Incomplete(s.pieces)
  {
    forall i | 0 <= i < |s.pieces| && AllStale(Assignees(s, i), now) ensures s.pieces[i] == InFlight {}
  }

  // ----- results and histories -----

  /** The results and the two histories of the counts are as they were. */
  predicate SameBooks(s: State, r: State) {
    r.results == s.results && r.overwritten == s.overwritten && r.uncounted == s.uncounted
  }

  lemma {:induction false} LeavingKeepsBooks(c: Config, s: State, a: Addr)
    requires Shape(c, s)
    ensures SameBooks(s, AfterPeerLeft(c, s, a)) && SameBooks(s, AfterPeerJoined(c, s, a))
  {
    hide Release, RemoveAvailability;
  }

  lemma {:induction false} OffersKeepBooks(
    c: Config, s: State, a: Addr, bits: set<int>, i: int, pick: int, now: int)
    requires Shape(c, s)
    ensures SameBooks(s, AfterBitfieldReceived(c, s, a, bits, pick, now).(overwritten := s.overwritten))
    ensures 0 <= i < c.layout.pieceCount ==> SameBooks(s, AfterHaveReceived(c, s, a, i, pick, now))
    ensures SameBooks(s, AfterUnchokeReceived(c, s, a, pick, now)) && SameBooks(s, TryAssign(c, s, a, pick, now))
  {
    hide TryAssign, AddAvailability;
  }

  lemma {:induction false} TickKeepsBooks(c: Config, s: State, order: seq<Addr>, turns: seq<Turn>, now: int)
    requires Shape(c, s)
    ensures SameBooks(s, Tick(c, s, order, turns, now))
  {
    hide AssignAnyAll, AssignIdle;
  }

  lemma {:induction false} OutcomesKeepBooks(c: Config, s: State, a: Addr, i: int, data: Bytes, delivered: bool)
    requires Shape(c, s) && 0 <= i < c.layout.pieceCount
    ensures SameBooks(s, AfterPieceFailed(c, s, a, i))
    ensures SameBooks(
      s.(results := if s.pieces[i] != Complete && delivered then s.results + [PieceResult(i, data)] else s.results),
      AfterPieceDownloaded(c, s, a, i, data, delivered))
  {
    hide Release, CancelOthers;
  }

  lemma {:induction false} QuietKeepsBooks(c: Config, s: State, step: Step)
    requires Shape(c, s) && Enabled(c, s, step) && Quiet(step)
    ensures !step.ResultTaken? ==> Next(c, s, step).results == s.results
    ensures step.ResultTaken? ==> Next(c, s, step).results == s.results[1..]
    ensures Next(c, s, step).overwritten == s.overwritten
    ensures !step.BitWritten? ==> Next(c, s, step).uncounted == s.uncounted
  {
    hide TryAssign, AfterPeerLeft, AfterPeerJoined, Tick, AfterPieceDownloaded, AfterPieceFailed, AfterBitfieldReceived,
         AfterHaveReceived, AfterUnchokeReceived, SetChoked, RecalcChoke, RotateOptimistic, AfterNotInterestedReceived,
         TakeCommand, Drawn, Visits, TurnsDrawn, BestByRate, OptimisticCandidates;
  }

  /** A download is handed off exactly when it completes its piece, and nothing else adds a result. Only a bitfield
      overwrites counted haves, and only a worker's own write goes uncounted. */
  lemma {:induction false} ResultsAfterStep(c: Config, s: State, step: Step)
    requires Shape(c, s) && Enabled(c, s, step)
    ensures Next(c, s, step).results ==
      match step
      case Downloaded(a, i, data, delivered) =>
        if s.pieces[i] != Complete && delivered then s.results + [PieceResult(i, data)] else s.results
      case ResultTaken => s.results[1..]
      case _ => s.results
    ensures !step.GotBitfield? ==> Next(c, s, step).overwritten == s.overwritten
    ensures !step.BitWritten? ==> Next(c, s, step).uncounted == s.uncounted
  {
    hide TryAssign, AfterPeerLeft, AfterPeerJoined, Tick, AfterPieceDownloaded, AfterPieceFailed, AfterBitfieldReceived,
         AfterHaveReceived, AfterUnchokeReceived, Drawn, Visits, TurnsDrawn, BestByRate, OptimisticCandidates;
    match step
    case Left(a) => LeavingKeepsBooks(c, s, a);
    case Joined(a) => LeavingKeepsBooks(c, s, a);
    case GotBitfield(a, bits, pick, now) => OffersKeepBooks(c, s, a, bits, 0, pick, now);
    case GotHave(a, i, pick, now) => OffersKeepBooks(c, s, a, {}, i, pick, now);
    case UnchokedUs(a, pick, now) => OffersKeepBooks(c, s, a, {}, 0, pick, now);
    case Ready(a, pick, now) => OffersKeepBooks(c, s, a, {}, 0, pick, now);
    case Ticked(order, turns, now) => TickKeepsBooks(c, s, order, turns, now);
    case Downloaded(a, i, data, delivered) => OutcomesKeepBooks(c, s, a, i, data, delivered);
    case Failed(a, i) => OutcomesKeepBooks(c, s, a, i, [], false);
    case _ => QuietKeepsBooks(c, s, step);
  }
}
