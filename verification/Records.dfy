/** What a peer's record says about the peer, over every run: the last it was heard to say since it joined. */
module Records {
  import opened Base
  import opened Events
  import opened CoordinatorState
  import opened AssignmentInvariants

  // ----- one step -----

  /** What the peer has told us, as its record has it. */
  datatype Notes = Notes(peerChoking: bool, interested: bool, gotBitfield: bool, have: set<int>, shared: bool)

  function NotesOf(p: PeerInfo): Notes { Notes(p.peerChoking, p.interested, p.gotBitfield, p.have, p.shared) }

  ghost predicate SameNotes(s: State, r: State) {
    r.peers.Keys == s.peers.Keys && forall b :: b in r.peers ==> NotesOf(r.peers[b]) == NotesOf(s.peers[b])
  }

  /** Peer a is still registered and its notes are these; everyone else's are as they were. */
  ghost predicate OnlyNotes(s: State, r: State, a: Addr, notes: Notes) {
    && a in s.peers && r.peers.Keys == s.peers.Keys && NotesOf(r.peers[a]) == notes
    && forall b :: b in r.peers && b != a ==> NotesOf(r.peers[b]) == NotesOf(s.peers[b])
  }

  lemma {:induction false} SameThen(s: State, m: State, r: State)
    requires SameNotes(s, m) && SameNotes(m, r)
    ensures SameNotes(s, r)
  {
  }

  lemma {:induction false} OnlyThen(s: State, m: State, r: State, a: Addr, notes: Notes)
    requires OnlyNotes(s, m, a, notes) && SameNotes(m, r)
    ensures OnlyNotes(s, r, a, notes)
  {
  }

  lemma {:induction false} AssigningSaysNothing(c: Config, s: State, r: State)
    requires OnlyAssigns(c, s, r)
    ensures SameNotes(s, r)
  {
    forall b | b in r.peers ensures NotesOf(r.peers[b]) == NotesOf(s.peers[b]) { assert b in r.peers.Keys; }
  }

  lemma {:induction false} NoteIsTaken(s: State, r: State, a: Addr, q: PeerInfo)
    requires a in s.peers && r.peers == s.peers[a := q]
    ensures OnlyNotes(s, r, a, NotesOf(q))
  {
  }

  lemma {:induction false} OfferedNotes(
    c: Config, s: State, m: State, a: Addr, notes: Notes, pick: int, now: int)
    requires Shape(c, m) && OnlyNotes(s, m, a, notes)
    ensures OnlyNotes(s, TryAssign(c, m, a, pick, now), a, notes)
  {
    hide TryAssign, OnlyAssigns, OnlyNotes, SameNotes;
    AssigningSaysNothing(c, m, TryAssign(c, m, a, pick, now));
    OnlyThen(s, m, TryAssign(c, m, a, pick, now), a, notes);
  }

  lemma {:induction false} BitfieldNotes(c: Config, s: State, a: Addr, bits: set<int>, pick: int, now: int)
    requires Shape(c, s) && a in s.peers && !s.peers[a].gotBitfield
    ensures OnlyNotes(s, AfterBitfieldReceived(c, s, a, bits, pick, now), a,
      NotesOf(s.peers[a]).(gotBitfield := true, have := bits, shared := true))
  {
    hide TryAssign, OnlyNotes;
    var q := s.peers[a].(gotBitfield := true, have := bits, shared := true);
    NoteIsTaken(s, BitfieldCounted(c, s, a, bits), a, q);
    OfferedNotes(c, s, BitfieldCounted(c, s, a, bits), a, NotesOf(q), pick, now);
  }

  lemma {:induction false} HaveNotes(c: Config, s: State, a: Addr, index: int, pick: int, now: int)
    requires Shape(c, s) && a in s.peers && 0 <= index < c.layout.pieceCount
    ensures OnlyNotes(s, AfterHaveReceived(c, s, a, index, pick, now), a,
      NotesOf(s.peers[a]).(have := s.peers[a].have + {index}))
  {
    hide TryAssign, OnlyNotes, HaveCounted;
    var p := s.peers[a];
    var q := p.(have := p.have + {index});
    if index in p.have {
      assert p.have + {index} == p.have && s.peers[a := p] == s.peers;
      NoteIsTaken(s, s, a, p);
    } else {
      NewHaveNotes(c, s, a, index);
      OfferedNotes(c, s, HaveCounted(c, s, a, index), a, NotesOf(q), pick, now);
    }
  }

  lemma {:induction false} NewHaveNotes(c: Config, s: State, a: Addr, index: int)
    requires Shape(c, s) && a in s.peers && 0 <= index < c.layout.pieceCount
    ensures OnlyNotes(s, HaveCounted(c, s, a, index), a, NotesOf(s.peers[a]).(have := s.peers[a].have + {index}))
  {
    hide OnlyNotes;
    NoteIsTaken(s, HaveCounted(c, s, a, index), a, s.peers[a].(have := s.peers[a].have + {index}));
  }

  lemma {:induction false} UnchokeNotes(c: Config, s: State, a: Addr, pick: int, now: int)
    requires Shape(c, s) && a in s.peers
    ensures OnlyNotes(s, AfterUnchokeReceived(c, s, a, pick, now), a, NotesOf(s.peers[a]).(peerChoking := false))
  {
    hide TryAssign, OnlyNotes;
    var q := s.peers[a].(peerChoking := false);
    NoteIsTaken(s, PeerUnchoked(c, s, a), a, q);
    OfferedNotes(c, s, PeerUnchoked(c, s, a), a, NotesOf(q), pick, now);
  }

  lemma {:induction false} InterestNotes(c: Config, s: State, a: Addr)
    requires Shape(c, s) && a in s.peers
    ensures OnlyNotes(s, AfterInterestedReceived(c, s, a), a, NotesOf(s.peers[a]).(interested := true))
    ensures OnlyNotes(s, AfterNotInterestedReceived(c, s, a), a, NotesOf(s.peers[a]).(interested := false))
    ensures OnlyNotes(s, AfterChokeReceived(c, s, a), a, NotesOf(s.peers[a]).(peerChoking := true))
    ensures OnlyNotes(s, AfterBitfieldReplaced(c, s, a), a, NotesOf(s.peers[a]).(shared := false))
  {
    hide OnlyNotes;
    var p := s.peers[a];
    NoteIsTaken(s, AfterInterestedReceived(c, s, a), a, p.(interested := true));
    NoteIsTaken(s, AfterChokeReceived(c, s, a), a, p.(peerChoking := true));
    NoteIsTaken(s, AfterBitfieldReplaced(c, s, a), a, p.(shared := false));
    var q := Rechoke(p.(interested := false), true);
    assert s.peers[a := p.(interested := false)][a := q] == s.peers[a := q];
    NoteIsTaken(s, AfterNotInterestedReceived(c, s, a), a, q);
  }

  lemma {:induction false} WrittenBitNotes(c: Config, s: State, a: Addr, index: int)
    requires Shape(c, s) && a in s.peers && 0 <= index < c.layout.pieceCount
    ensures OnlyNotes(s, AfterBitWritten(c, s, a, index), a,
      NotesOf(s.peers[a]).(have := s.peers[a].have + if s.peers[a].shared then {index} else {}))
  {
    hide OnlyNotes;
    var p := s.peers[a];
    var q := p.(have := p.have + if p.shared then {index} else {});
    if !p.shared || index in p.have { assert q == p && s.peers[a := q] == s.peers; }
    NoteIsTaken(s, AfterBitWritten(c, s, a, index), a, q);
  }

  lemma {:induction false} StrangersSayNothing(c: Config, s: State, step: Step)
    requires Shape(c, s) && Enabled(c, s, step)
    requires step.GotBitfield? || step.GotHave? || step.UnchokedUs? || step.BecameInterested? || step.LostInterest? ||
      step.ChokedUs? || step.BitWritten? || step.BitfieldReplaced?
    requires step.addr !in s.peers || (step.GotBitfield? && s.peers[step.addr].gotBitfield)
    ensures SameNotes(s, Next(c, s, step))
  {
    hide TryAssign, BitfieldCounted, HaveCounted, Drawn, Visits, TurnsDrawn, BestByRate, OptimisticCandidates, Tick,
         AfterPeerJoined, AfterPeerLeft, AfterPieceDownloaded, AfterPieceFailed, RecalcChoke, RotateOptimistic,
         TakeCommand;
  }

  lemma {:induction false} TickSaysNothing(c: Config, s: State, order: seq<Addr>, turns: seq<Turn>, now: int)
    requires Shape(c, s)
    ensures SameNotes(s, Tick(c, s, order, turns, now))
  {
    hide AssignAnyAll, AssignIdle, OnlyAssigns;
    var s1 := FreeStale(c, s, now);
    assert SameNotes(s, s1);
    hide SameNotes, FreeStale;
    EnteringSaysNothing(c, s1, order, now);
    var s2 := MaybeEnterEndgame(c, s1, order, now);
    SameThen(s, s1, s2);
    AssigningSaysNothing(c, s2, AssignIdle(c, s2, turns, now));
    SameThen(s, s2, AssignIdle(c, s2, turns, now));
  }

  lemma {:induction false} EnteringSaysNothing(c: Config, s: State, order: seq<Addr>, now: int)
    requires Shape(c, s)
    ensures SameNotes(s, MaybeEnterEndgame(c, s, order, now))
  {
    hide AssignAnyAll, OnlyAssigns;
    if EntersEndgame(s) {
      AssigningSaysNothing(c, s.(endgame := true), AssignAnyAll(c, s.(endgame := true), order, now));
    }
  }

  lemma {:induction false} FinishSaysNothing(s: State, a: Addr, i: int)
    requires 0 <= i < |s.pieces|
    ensures SameNotes(s, Finish(s, a, i))
  {
    hide Listed, Assignees;
    var r := Finish(s, a, i);
    forall b | b in r.peers ensures NotesOf(r.peers[b]) == NotesOf(s.peers[b]) { assert b in r.peers.Keys; }
  }

  lemma {:induction false} IdleSaysNothing(s: State, m: State, a: Addr, r: State)
    requires SameNotes(s, m) && r.peers == Idle(m, a).peers
    ensures SameNotes(s, r)
  {
  }

  lemma {:induction false} OutcomesSayNothing(c: Config, s: State, a: Addr, i: int, data: Bytes, delivered: bool)
    requires Shape(c, s) && 0 <= i < c.layout.pieceCount
    ensures SameNotes(s, AfterPieceDownloaded(c, s, a, i, data, delivered))
    ensures SameNotes(s, AfterPieceFailed(c, s, a, i))
  {
    hide Release, Finish, Idle, SameNotes;
    SameMapSaysNothing(s, s);
    FinishSaysNothing(s, a, i);
    if s.pieces[i] != Complete {
      IdleSaysNothing(s, Finish(s, a, i), a, AfterPieceDownloaded(c, s, a, i, data, delivered));
    }
    SameMapSaysNothing(s, Release(c, s, i, a));
    IdleSaysNothing(s, Release(c, s, i, a), a, AfterPieceFailed(c, s, a, i));
  }

  lemma {:induction false} DecisionsSayNothing(c: Config, s: State, regular: set<Addr>, pick: Option<Addr>)
    requires Shape(c, s)
    ensures SameNotes(s, RecalcChoke(c, s, regular)) && SameNotes(s, RotateOptimistic(c, s, pick))
  {
    hide UnchokeSet, KeepsOptimistic, SetChoked, SameNotes, Refuses;
    assert SameNotes(s, RecalcChoke(c, s, regular)) by { RecalcSaysNothing(c, s, regular); }
    SetChokedSaysNothing(c, s, s.optimisticAddr, true);
    var s1 := ReleaseOptimistic(c, s);
    SameMapSaysNothing(s, s);
    SameMapSaysNothing(if s.hasOptimistic then SetChoked(c, s, s.optimisticAddr, true) else s, s1);
    SameThen(s, if s.hasOptimistic then SetChoked(c, s, s.optimisticAddr, true) else s, s1);
    if pick.Some? {
      var s2 := s1.(hasOptimistic := true, optimisticAddr := pick.value);
      SameMapSaysNothing(s1, s2);
      SameThen(s, s1, s2);
      SetChokedSaysNothing(c, s2, pick.value, false);
      SameThen(s, s2, RotateOptimistic(c, s, pick));
    }
  }

  lemma {:induction false} RecalcSaysNothing(c: Config, s: State, regular: set<Addr>)
    requires Shape(c, s)
    ensures SameNotes(s, RecalcChoke(c, s, regular))
  {
    hide UnchokeSet, KeepsOptimistic, Refuses;
  }

  lemma {:induction false} SameMapSaysNothing(s: State, r: State)
    requires r.peers == s.peers
    ensures SameNotes(s, r)
  {
  }

  lemma {:induction false} SetChokedSaysNothing(c: Config, s: State, a: Addr, choked: bool)
    requires Shape(c, s)
    ensures SameNotes(s, SetChoked(c, s, a, choked))
  {
  }

  lemma {:induction false} TakingSaysNothing(c: Config, s: State, a: Addr)
    requires Shape(c, s)
    ensures SameNotes(s, TakeCommand(c, s, a))
  {
  }

  lemma {:induction false} LeavingSaysNothing(c: Config, s: State, a: Addr)
    requires Shape(c, s)
    ensures AfterPeerLeft(c, s, a).peers == s.peers - {a}
    ensures AfterPeerJoined(c, s, a).peers == (s.peers - {a})[a := NEW_PEER]
  {
    hide Release, RemoveAvailability;
    if a !in s.peers { assert s.peers - {a} == s.peers; }
  }

  /** A record's notes change only when its own peer says something, and then to just what it says. */
  ghost predicate Heard(c: Config, s: State, step: Step, r: State)
    requires Shape(c, s) && Enabled(c, s, step)
  {
    match step
    case Joined(a) => r.peers == (s.peers - {a})[a := NEW_PEER]
    case Left(a) => r.peers == s.peers - {a}
    case GotBitfield(a, bits, _, _) =>
      if a in s.peers && !s.peers[a].gotBitfield
      then OnlyNotes(s, r, a, NotesOf(s.peers[a]).(gotBitfield := true, have := bits, shared := true))
      else SameNotes(s, r)
    case GotHave(a, i, _, _) =>
      if a in s.peers then OnlyNotes(s, r, a, NotesOf(s.peers[a]).(have := s.peers[a].have + {i})) else SameNotes(s, r)
    case BitWritten(a, i) =>
      if a in s.peers
      then OnlyNotes(s, r, a,
        NotesOf(s.peers[a]).(have := s.peers[a].have + if s.peers[a].shared then {i} else {}))
      else SameNotes(s, r)
    case BitfieldReplaced(a) =>
      if a in s.peers then OnlyNotes(s, r, a, NotesOf(s.peers[a]).(shared := false)) else SameNotes(s, r)
    case ChokedUs(a) =>
      if a in s.peers then OnlyNotes(s, r, a, NotesOf(s.peers[a]).(peerChoking := true)) else SameNotes(s, r)
    case UnchokedUs(a, _, _) =>
      if a in s.peers then OnlyNotes(s, r, a, NotesOf(s.peers[a]).(peerChoking := false)) else SameNotes(s, r)
    case BecameInterested(a) =>
      if a in s.peers then OnlyNotes(s, r, a, NotesOf(s.peers[a]).(interested := true)) else SameNotes(s, r)
    case LostInterest(a) =>
      if a in s.peers then OnlyNotes(s, r, a, NotesOf(s.peers[a]).(interested := false)) else SameNotes(s, r)
    case _ => SameNotes(s, r)
  }

  lemma {:induction false} StepIsHeard(c: Config, s: State, step: Step)
    requires Shape(c, s) && Enabled(c, s, step)
    ensures Heard(c, s, step, Next(c, s, step))
  {
    hide TryAssign, AfterPeerLeft, AfterPeerJoined, Tick, AfterPieceDownloaded, AfterPieceFailed, AfterBitfieldReceived,
         AfterHaveReceived, AfterUnchokeReceived, AfterInterestedReceived, AfterNotInterestedReceived,
         AfterChokeReceived, AfterBitWritten, AfterBitfieldReplaced, RecalcChoke, RotateOptimistic, TakeCommand, Drawn,
         Visits, TurnsDrawn, BestByRate, OptimisticCandidates, OnlyNotes, SameNotes;
    match step
    case Joined(a) => LeavingSaysNothing(c, s, a);
    case Left(a) => LeavingSaysNothing(c, s, a);
    case GotBitfield(a, bits, pick, now) =>
      if a in s.peers && !s.peers[a].gotBitfield { BitfieldNotes(c, s, a, bits, pick, now); }
      else { StrangersSayNothing(c, s, step); }
    case GotHave(a, i, pick, now) =>
      if a in s.peers { HaveNotes(c, s, a, i, pick, now); } else { StrangersSayNothing(c, s, step); }
    case UnchokedUs(a, pick, now) =>
      if a in s.peers { UnchokeNotes(c, s, a, pick, now); } else { StrangersSayNothing(c, s, step); }
    case BitWritten(a, i) =>
      if a in s.peers { WrittenBitNotes(c, s, a, i); } else { StrangersSayNothing(c, s, step); }
    case BitfieldReplaced(a) =>
      if a in s.peers { InterestNotes(c, s, a); } else { StrangersSayNothing(c, s, step); }
    case ChokedUs(a) => if a in s.peers { InterestNotes(c, s, a); } else { StrangersSayNothing(c, s, step); }
    case BecameInterested(a) => if a in s.peers { InterestNotes(c, s, a); } else { StrangersSayNothing(c, s, step); }
    case LostInterest(a) => if a in s.peers { InterestNotes(c, s, a); } else { StrangersSayNothing(c, s, step); }
    case Ready(a, pick, now) => AssigningSaysNothing(c, s, TryAssign(c, s, a, pick, now));
    case Ticked(order, turns, now) => TickSaysNothing(c, s, order, turns, now);
    case Downloaded(a, i, data, delivered) => OutcomesSayNothing(c, s, a, i, data, delivered);
    case Failed(a, i) => OutcomesSayNothing(c, s, a, i, [], false);
    case Rechoked(_, _, regular) => DecisionsSayNothing(c, s, regular, None);
    case Rotated(optimistic) => DecisionsSayNothing(c, s, {}, optimistic);
    case WorkerTook(a) => TakingSaysNothing(c, s, a);
    case ResultTaken => SameMapSaysNothing(s, s.(results := s.results[1..]));
  }

  // ----- the event itself -----

  /** What handling an event does to the record of the peer it comes from, whatever work is given out besides. */
  lemma {:induction false} EventEffect(
    c: Config, s: State, e: Event, pick: int, now: int, delivered: bool, written: set<int>)
    requires Shape(c, s) && Enabled(c, s, StepFor(e, pick, now, delivered, written))
    ensures var r := Next(c, s, StepFor(e, pick, now, delivered, written));
      && (e.PeerJoined? ==> e.addr in r.peers && r.peers[e.addr] == NEW_PEER)
      && (e.PeerLeft? ==> e.addr !in r.peers)
      && (!e.PeerJoined? && !e.PeerLeft? ==> r.peers.Keys == s.peers.Keys)
      && (e.addr in s.peers && e.addr in r.peers && !e.PeerJoined? ==>
            var p, q := s.peers[e.addr], r.peers[e.addr];
            && q.peerChoking == (if e.ChokeReceived? then true else if e.UnchokeReceived? then false else p.peerChoking)
            && q.interested ==
                 (if e.InterestedReceived? then true else if e.NotInterestedReceived? then false else p.interested)
            && q.gotBitfield == (e.BitfieldReceived? || p.gotBitfield)
            && q.have == (if e.HaveReceived? then p.have + {e.index}
                          else if e.BitfieldReceived? && !p.gotBitfield then e.bits + written else p.have))
      && (e.PieceDownloaded? ==> 0 <= e.index < |r.pieces| && r.pieces[e.index] == Complete)
      && (e.PieceFailed? && e.addr in r.peers ==> r.peers[e.addr].assignedTo == -1)
  {
    hide Next, Enabled, TryAssign;
    StepIsHeard(c, s, StepFor(e, pick, now, delivered, written));
    if e.PieceDownloaded? { DownloadEffect(c, s, e.addr, e.index, e.data, delivered); }
    if e.PieceFailed? { FailureEffect(c, s, e.addr, e.index); }
  }

  lemma {:induction false} DownloadEffect(c: Config, s: State, a: Addr, i: int, data: Bytes, delivered: bool)
    requires Shape(c, s) && Enabled(c, s, Downloaded(a, i, data, delivered))
    ensures 0 <= i < |s.pieces| && Next(c, s, Downloaded(a, i, data, delivered)).pieces[i] == Complete
  {
    hide CancelOthers;
  }

  lemma {:induction false} FailureEffect(c: Config, s: State, a: Addr, i: int)
    requires Shape(c, s) && Enabled(c, s, Failed(a, i))
    ensures var r := Next(c, s, Failed(a, i)); a in r.peers ==> r.peers[a].assignedTo == -1
  {
    hide Release;
  }

  // ----- over runs -----

  /** Among the first k steps, something happened that nothing later undid. */
  ghost predicate Standing(k: nat, done: nat -> bool, undone: nat -> bool) {
    exists j: nat :: j < k && done(j) && forall m: nat :: j < m < k ==> !undone(m)
  }

  lemma {:induction false} StandingNext(k: nat, done: nat -> bool, undone: nat -> bool)
    ensures Standing(k + 1, done, undone) <==> done(k) || (Standing(k, done, undone) && !undone(k))
    ensures !Standing(0, done, undone)
  {
    if Standing(k, done, undone) && !undone(k) {
      var j: nat :| j < k && done(j) && forall m: nat :: j < m < k ==> !undone(m);
      assert j < k + 1 && done(j) && forall m: nat :: j < m < k + 1 ==> !undone(m);
    }
    if Standing(k + 1, done, undone) && !done(k) {
      var j: nat :| j < k + 1 && done(j) && forall m: nat :: j < m < k + 1 ==> !undone(m);
      assert j < k && !undone(k);
    }
  }

  /** Step j of a run, if there is one, is of some kind. */
  function Is(steps: seq<Step>, kind: Step -> bool): nat -> bool { (j: nat) => j < |steps| && kind(steps[j]) }

  function Joins(a: Addr): Step -> bool { (t: Step) => t == Joined(a) }

  function Leaves(a: Addr): Step -> bool { (t: Step) => t == Left(a) }

  function Unchokes(a: Addr): Step -> bool { (t: Step) => t.UnchokedUs? && t.addr == a }

  function Chokes(a: Addr): Step -> bool { (t: Step) => t == ChokedUs(a) || t == Joined(a) }

  function Wants(a: Addr): Step -> bool { (t: Step) => t == BecameInterested(a) }

  function Declines(a: Addr): Step -> bool { (t: Step) => t == LostInterest(a) || t == Joined(a) }

  function SendsBitfield(a: Addr): Step -> bool { (t: Step) => t.GotBitfield? && t.addr == a }

  /** A step that shows the peer to have piece i: a have, the first bitfield since it joined, or its worker's writing to
      the bitfield it shares. */
  predicate Shows(s: State, t: Step, a: Addr, i: int) {
    a in s.peers &&
    match t
    case GotHave(b, index, _, _) => b == a && index == i
    case GotBitfield(b, bits, _, _) => b == a && !s.peers[a].gotBitfield && i in bits
    case BitWritten(b, index) => b == a && index == i && s.peers[a].shared
    case _ => false
  }

  /** A step that takes that back: a new start, or a first bitfield without it. */
  predicate TakesBack(s: State, t: Step, a: Addr, i: int) {
    match t
    case Joined(b) => b == a
    case GotBitfield(b, bits, _, _) => b == a && a in s.peers && !s.peers[a].gotBitfield && i !in bits
    case _ => false
  }

  function ShownAt(trace: seq<State>, steps: seq<Step>, a: Addr, i: int): nat -> bool {
    (j: nat) => j < |steps| && j < |trace| && Shows(trace[j], steps[j], a, i)
  }

  function TakenBackAt(trace: seq<State>, steps: seq<Step>, a: Addr, i: int): nat -> bool {
    (j: nat) => j < |steps| && j < |trace| && TakesBack(trace[j], steps[j], a, i)
  }

  lemma {:induction false} StepOfRun(c: Config, trace: seq<State>, steps: seq<Step>, k: nat)
    requires IsRun(c, trace, steps) && 0 < k < |trace|
    ensures |trace| == |steps| + 1 && Shape(c, trace[k - 1]) && Enabled(c, trace[k - 1], steps[k - 1])
    ensures Heard(c, trace[k - 1], steps[k - 1], trace[k])
  {
    hide Next, Enabled, Heard;
    StepIsHeard(c, trace[k - 1], steps[k - 1]);
  }

  lemma {:induction false} NobodyAtFirst(c: Config, trace: seq<State>, steps: seq<Step>)
    requires IsRun(c, trace, steps)
    ensures trace[0].peers == map[]
  {
    hide Next, Enabled;
  }

  /** A peer's notes after a step that does not register it anew. */
  function NoteAfter(n: Notes, t: Step, a: Addr): Notes {
    match t
    case GotBitfield(b, bits, _, _) =>
      if b == a && !n.gotBitfield then n.(gotBitfield := true, have := bits, shared := true) else n
    case GotHave(b, i, _, _) => if b == a then n.(have := n.have + {i}) else n
    case BitWritten(b, i) => if b == a && n.shared then n.(have := n.have + {i}) else n
    case BitfieldReplaced(b) => if b == a then n.(shared := false) else n
    case ChokedUs(b) => if b == a then n.(peerChoking := true) else n
    case UnchokedUs(b, _, _) => if b == a then n.(peerChoking := false) else n
    case BecameInterested(b) => if b == a then n.(interested := true) else n
    case LostInterest(b) => if b == a then n.(interested := false) else n
    case _ => n
  }

  lemma {:induction false} NotedNext(c: Config, s: State, t: Step, r: State, a: Addr)
    requires Shape(c, s) && Enabled(c, s, t) && Heard(c, s, t, r)
    ensures a in r.peers <==> t == Joined(a) || (a in s.peers && t != Left(a))
    ensures a in r.peers && t == Joined(a) ==> r.peers[a] == NEW_PEER
    ensures a in r.peers && t != Joined(a) ==> NotesOf(r.peers[a]) == NoteAfter(NotesOf(s.peers[a]), t, a)
  {
    hide Enabled, Shape;
    assert a in s.peers <==> a in s.peers.Keys;
    assert a in r.peers <==> a in r.peers.Keys;
    if t.BitWritten? && t.addr == a && a in s.peers && !s.peers[a].shared {
      assert s.peers[a].have + {} == s.peers[a].have;
    }
  }

  lemma {:induction false} RegisteredHaveJoined(c: Config, trace: seq<State>, steps: seq<Step>, k: nat, a: Addr)
    requires IsRun(c, trace, steps) && k < |trace|
    ensures a in trace[k].peers <==> Standing(k, Is(steps, Joins(a)), Is(steps, Leaves(a)))
  {
    hide Standing, IsRun, Enabled, Heard;
    StandingNext(if k > 0 then k - 1 else 0, Is(steps, Joins(a)), Is(steps, Leaves(a)));
    if k == 0 {
      NobodyAtFirst(c, trace, steps);
    } else {
      RegisteredHaveJoined(c, trace, steps, k - 1, a);
      StepOfRun(c, trace, steps, k);
      NotedNext(c, trace[k - 1], steps[k - 1], trace[k], a);
    }
  }

  lemma {:induction false} ChokingIsLastHeard(c: Config, trace: seq<State>, steps: seq<Step>, k: nat, a: Addr)
    requires IsRun(c, trace, steps) && k < |trace| && a in trace[k].peers
    ensures trace[k].peers[a].peerChoking <==> !Standing(k, Is(steps, Unchokes(a)), Is(steps, Chokes(a)))
  {
    hide Standing, IsRun, Enabled, Heard;
    if k == 0 {
      NobodyAtFirst(c, trace, steps);
    } else {
      StandingNext(k - 1, Is(steps, Unchokes(a)), Is(steps, Chokes(a)));
      StepOfRun(c, trace, steps, k);
      NotedNext(c, trace[k - 1], steps[k - 1], trace[k], a);
      if a in trace[k - 1].peers { ChokingIsLastHeard(c, trace, steps, k - 1, a); }
    }
  }

  lemma {:induction false} InterestIsLastHeard(c: Config, trace: seq<State>, steps: seq<Step>, k: nat, a: Addr)
    requires IsRun(c, trace, steps) && k < |trace| && a in trace[k].peers
    ensures trace[k].peers[a].interested <==> Standing(k, Is(steps, Wants(a)), Is(steps, Declines(a)))
  {
    hide Standing, IsRun, Enabled, Heard;
    if k == 0 {
      NobodyAtFirst(c, trace, steps);
    } else {
      StandingNext(k - 1, Is(steps, Wants(a)), Is(steps, Declines(a)));
      StepOfRun(c, trace, steps, k);
      NotedNext(c, trace[k - 1], steps[k - 1], trace[k], a);
      if a in trace[k - 1].peers { InterestIsLastHeard(c, trace, steps, k - 1, a); }
    }
  }

  lemma {:induction false} BitfieldIsHeardOnce(c: Config, trace: seq<State>, steps: seq<Step>, k: nat, a: Addr)
    requires IsRun(c, trace, steps) && k < |trace| && a in trace[k].peers
    ensures trace[k].peers[a].gotBitfield <==> Standing(k, Is(steps, SendsBitfield(a)), Is(steps, Joins(a)))
  {
    hide Standing, IsRun, Enabled, Heard;
    if k == 0 {
      NobodyAtFirst(c, trace, steps);
    } else {
      StandingNext(k - 1, Is(steps, SendsBitfield(a)), Is(steps, Joins(a)));
      StepOfRun(c, trace, steps, k);
      NotedNext(c, trace[k - 1], steps[k - 1], trace[k], a);
      if a in trace[k - 1].peers { BitfieldIsHeardOnce(c, trace, steps, k - 1, a); }
    }
  }

  lemma {:induction false} PiecesAreLastHeard(
    c: Config, trace: seq<State>, steps: seq<Step>, k: nat, a: Addr, i: int)
    requires IsRun(c, trace, steps) && k < |trace| && a in trace[k].peers
    ensures i in trace[k].peers[a].have <==>
      Standing(k, ShownAt(trace, steps, a, i), TakenBackAt(trace, steps, a, i))
  {
    hide Standing, IsRun, Enabled, Heard, Shows, TakesBack, NoteAfter;
    if k == 0 {
      NobodyAtFirst(c, trace, steps);
    } else {
      StandingNext(k - 1, ShownAt(trace, steps, a, i), TakenBackAt(trace, steps, a, i));
      StepOfRun(c, trace, steps, k);
      NotedNext(c, trace[k - 1], steps[k - 1], trace[k], a);
      ShownNext(trace[k - 1], steps[k - 1], a, i);
      if a in trace[k - 1].peers { PiecesAreLastHeard(c, trace, steps, k - 1, a, i); }
    }
  }

  lemma {:induction false} ShownNext(s: State, t: Step, a: Addr, i: int)
    ensures a in s.peers && t != Joined(a) ==>
      (i in NoteAfter(NotesOf(s.peers[a]), t, a).have <==>
        Shows(s, t, a, i) || (i in s.peers[a].have && !TakesBack(s, t, a, i)))
    ensures t == Joined(a) ==> TakesBack(s, t, a, i) && !Shows(s, t, a, i)
  {
  }

  /** In every reachable state a peer is registered exactly if it joined and has not left since. It chokes us, is
      interested, or has sent its bitfield, exactly if that is the last it said about it since it joined; to begin
      with it chokes us and is not interested. It has a piece exactly if the last that was said about that piece
      shows it. */
  lemma {:induction false} RecordsAreLastHeard(
    c: Config, trace: seq<State>, steps: seq<Step>, k: nat, a: Addr, i: int)
    requires IsRun(c, trace, steps) && k < |trace|
    ensures a in trace[k].peers <==> Standing(k, Is(steps, Joins(a)), Is(steps, Leaves(a)))
    ensures a in trace[k].peers ==>
      var p := trace[k].peers[a];
      && (p.peerChoking <==> !Standing(k, Is(steps, Unchokes(a)), Is(steps, Chokes(a))))
      && (p.interested <==> Standing(k, Is(steps, Wants(a)), Is(steps, Declines(a))))
      && (p.gotBitfield <==> Standing(k, Is(steps, SendsBitfield(a)), Is(steps, Joins(a))))
      && (i in p.have <==> Standing(k, ShownAt(trace, steps, a, i), TakenBackAt(trace, steps, a, i)))
  {
    hide Standing, IsRun, Is;
    RegisteredHaveJoined(c, trace, steps, k, a);
    if a in trace[k].peers {
      ChokingIsLastHeard(c, trace, steps, k, a);
      InterestIsLastHeard(c, trace, steps, k, a);
      BitfieldIsHeardOnce(c, trace, steps, k, a);
      PiecesAreLastHeard(c, trace, steps, k, a, i);
    }
  }
}
