/** Over every run, the piece states, the assignee lists and each peer's own record of its work agree. */
module AssignmentInvariants {
  import opened Base
  import opened Events
  import opened CoordinatorState

  /** A piece is in flight exactly when someone is assigned to it, every peer's current piece lists that peer, and
      before endgame nobody shares a piece. */
  ghost predicate Linked(c: Config, s: State)
    requires Shape(c, s)
  {
    && (forall i :: 0 <= i < |s.pieces| ==> (s.pieces[i] == InFlight <==> Assignees(s, i) != []))
    && (forall a :: a in s.peers ==> WorkListed(s, a))
    && (!s.endgame ==> forall i :: |Assignees(s, i)| <= 1)
  }

  ghost predicate WorkListed(s: State, a: Addr)
    requires a in s.peers
  {
    var i := s.peers[a].assignedTo;
    i >= 0 ==> Listed(Assignees(s, i), a)
  }

  ghost predicate Distinct(list: seq<Assignment>) {
    forall j, k :: 0 <= j < k < |list| ==> list[j].addr != list[k].addr
  }

  /** The lists are no more than the peers' records turned around. */
  ghost predicate Graph(c: Config, s: State)
    requires Shape(c, s)
  {
    forall i :: 0 <= i < |s.pieces| ==> ListIsGraph(s, i)
  }

  ghost predicate ListIsGraph(s: State, i: int) {
    && Distinct(Assignees(s, i))
    && forall a :: Listed(Assignees(s, i), a) ==> a in s.peers && s.peers[a].assignedTo == i
  }

  // ----- what removing from a list does -----

  lemma {:induction false} RemoveFirstEffect(list: seq<Assignment>, a: Addr)
    ensures |RemoveFirst(list, a)| == |list| - if Listed(list, a) then 1 else 0
    ensures forall b :: b != a ==> (Listed(RemoveFirst(list, a), b) <==> Listed(list, b))
    ensures Distinct(list) ==> Distinct(RemoveFirst(list, a)) && !Listed(RemoveFirst(list, a), a)
  {
    if list != [] {
      var head, tail := list[0], list[1..];
      assert list == [head] + tail;
      ListedCons(head, tail);
      if head.addr != a {
        RemoveFirstEffect(tail, a);
        ListedCons(head, RemoveFirst(tail, a));
      }
    }
  }

  lemma {:induction false} ListedCons(head: Assignment, tail: seq<Assignment>)
    ensures forall b :: Listed([head] + tail, b) <==> b == head.addr || Listed(tail, b)
    ensures Distinct([head] + tail) <==> Distinct(tail) && !Listed(tail, head.addr)
  {
    var list := [head] + tail;
    assert list[0] == head && forall k :: 0 <= k < |tail| ==> tail[k] == list[k + 1];
  }

  lemma {:induction false} DistinctAppend(list: seq<Assignment>, entry: Assignment)
    ensures Distinct(list + [entry]) <==> Distinct(list) && !Listed(list, entry.addr)
  {
    var longer := list + [entry];
    assert longer[|list|] == entry && forall k :: 0 <= k < |list| ==> list[k] == longer[k];
  }

  lemma {:induction false} StaleAppend(list: seq<Assignment>, entry: Assignment, now: int)
    ensures forall b :: HasStale(list + [entry], b, now) <==>
      HasStale(list, b, now) || (b == entry.addr && !Fresh(entry, now))
  {
    var longer := list + [entry];
    assert longer[|list|] == entry && forall k :: 0 <= k < |list| ==> list[k] == longer[k];
  }

  lemma {:induction false} KeptEffect(list: seq<Assignment>, now: int)
    ensures forall e :: e in Kept(list, now) <==> e in list && Fresh(e, now)
    ensures |Kept(list, now)| <= |list|
    ensures forall b :: Listed(list, b) && !HasStale(list, b, now) ==> Listed(Kept(list, now), b)
    ensures forall b :: Listed(Kept(list, now), b) ==> Listed(list, b)
    ensures Distinct(list) ==> Distinct(Kept(list, now))
    ensures Distinct(list) ==> forall b :: Listed(Kept(list, now), b) ==> !HasStale(list, b, now)
  {
    if list == [] {
      NothingListed(now);
    } else {
      hide Listed, HasStale, Distinct;
      var init, last := list[..|list| - 1], list[|list| - 1];
      assert list == init + [last];
      KeptEffect(init, now);
      ListedAppend(init, last);
      ListedAppend(Kept(init, now), last);
      DistinctAppend(init, last);
      DistinctAppend(Kept(init, now), last);
      StaleAppend(init, last, now);
      StaleIsListed(init, now);
    }
  }

  lemma {:induction false} NothingListed(now: int)
    ensures Kept([], now) == [] && Distinct([]) && forall b :: !Listed([], b) && !HasStale([], b, now)
  {
  }

  lemma {:induction false} StaleIsListed(list: seq<Assignment>, now: int)
    ensures forall b :: HasStale(list, b, now) ==> Listed(list, b)
  {
  }

  // ----- what each elementary change does to the invariant -----

  lemma {:induction false} AssignKeepsLinked(c: Config, s: State, a: Addr, i: int, now: int)
    requires Shape(c, s) && Linked(c, s)
    requires 0 <= i < |s.pieces| && s.pieces[i] != Complete && (s.endgame || s.pieces[i] == Missing)
    ensures Linked(c, Assign(c, s, a, i, now))
    ensures a in s.peers && s.peers[a].assignedTo < 0 && Graph(c, s) ==> Graph(c, Assign(c, s, a, i, now))
  {
    if CanSend(s, a) {
      var r := Assign(c, s, a, i, now);
      var entry := Assignment(a, now);
      ListedAppend(Assignees(s, i), entry);
      DistinctAppend(Assignees(s, i), entry);
      assert Assignees(r, i) == Assignees(s, i) + [entry];
      assert forall j :: j != i ==> Assignees(r, j) == Assignees(s, j);
      forall b | b in r.peers ensures WorkListed(r, b) {
        assert WorkListed(s, b);
      }
      if s.peers[a].assignedTo < 0 && Graph(c, s) {
        forall j | 0 <= j < |r.pieces| ensures ListIsGraph(r, j) {
          assert ListIsGraph(s, j);
          if j == i {
            assert !Listed(Assignees(s, i), a);
          }
        }
      }
    }
  }

  /** Linked, but a is about to be forgotten. */
  ghost predicate LinkedBut(c: Config, s: State, a: Addr)
    requires Shape(c, s)
  {
    && (forall i :: 0 <= i < |s.pieces| ==> (s.pieces[i] == InFlight <==> Assignees(s, i) != []))
    && (forall b :: b in s.peers && b != a ==> WorkListed(s, b))
    && (!s.endgame ==> forall i :: |Assignees(s, i)| <= 1)
  }

  lemma {:induction false} ListsAfterRelease(c: Config, s: State, i: int, a: Addr)
    requires Shape(c, s) && 0 <= i < |s.pieces|
    ensures var r := Release(c, s, i, a);
      && r.peers == s.peers && r.endgame == s.endgame
      && (forall j :: Assignees(r, j) == if j == i then RemoveFirst(Assignees(s, i), a) else Assignees(s, j))
      && r.assignments.Keys <= s.assignments.Keys + {i}
      && r.pieces == if RemoveFirst(Assignees(s, i), a) == [] then s.pieces[i := Missing] else s.pieces
  {
    RemoveFirstEffect(Assignees(s, i), a);
    if !Listed(Assignees(s, i), a) { RemoveUnlisted(Assignees(s, i), a); }
  }

  lemma {:induction false} RemoveUnlisted(list: seq<Assignment>, a: Addr)
    requires !Listed(list, a)
    ensures RemoveFirst(list, a) == list
  {
    if list != [] {
      assert list == [list[0]] + list[1..];
      ListedCons(list[0], list[1..]);
      RemoveUnlisted(list[1..], a);
    }
  }

  lemma {:induction false} ReleaseKeepsLinked(c: Config, s: State, i: int, a: Addr)
    requires Shape(c, s) && Linked(c, s) && 0 <= i < |s.pieces|
    ensures LinkedBut(c, Release(c, s, i, a), a)
  {
    var r := Release(c, s, i, a);
    ListsAfterRelease(c, s, i, a);
    RemoveFirstEffect(Assignees(s, i), a);
    forall b | b in r.peers && b != a ensures WorkListed(r, b) {
      assert WorkListed(s, b);
    }
  }

  /** After a release the lists still mirror the records, except that a's record of i is out of date. */
  lemma {:induction false} ReleaseKeepsGraph(c: Config, s: State, i: int, a: Addr, j: int)
    requires Shape(c, s) && Graph(c, s) && 0 <= i < |s.pieces| && 0 <= j < |s.pieces|
    ensures Distinct(Assignees(Release(c, s, i, a), j))
    ensures forall b :: Listed(Assignees(Release(c, s, i, a), j), b) ==>
      b in s.peers && s.peers[b].assignedTo == j && !(b == a && j == i)
  {
    ListsAfterRelease(c, s, i, a);
    RemoveFirstEffect(Assignees(s, i), a);
    assert ListIsGraph(s, j) && ListIsGraph(s, i);
  }

  lemma {:induction false} ForgetKeepsLinked(c: Config, s: State, r: State, a: Addr)
    requires Shape(c, s) && Shape(c, r) && LinkedBut(c, s, a)
    requires r.pieces == s.pieces && r.assignments == s.assignments && r.endgame == s.endgame
    requires a in r.peers ==> r.peers[a].assignedTo == -1
    requires forall b :: b in r.peers && b != a ==> b in s.peers && r.peers[b].assignedTo == s.peers[b].assignedTo
    ensures Linked(c, r)
  {
    forall i ensures Assignees(r, i) == Assignees(s, i) {}
    forall b | b in r.peers ensures WorkListed(r, b) {
      if b != a { assert WorkListed(s, b); }
    }
  }

  /** Finishing a piece empties its list and idles exactly the peers recorded as working on it, and the winner. */
  lemma {:induction false} FinishEffect(c: Config, s: State, a: Addr, i: int)
    requires Shape(c, s) && Linked(c, s) && 0 <= i < |s.pieces|
    ensures var r := Idle(Finish(s, a, i), a);
      && r.pieces == s.pieces[i := Complete] && r.endgame == s.endgame
      && r.assignments == s.assignments - {i}
      && r.peers.Keys == s.peers.Keys
      && (forall b :: b in r.peers ==>
            r.peers[b].assignedTo == if b == a || s.peers[b].assignedTo == i then -1 else s.peers[b].assignedTo)
  {
    var r := Idle(Finish(s, a, i), a);
    forall b | b in r.peers
      ensures r.peers[b].assignedTo == if b == a || s.peers[b].assignedTo == i then -1 else s.peers[b].assignedTo
    {
      assert WorkListed(s, b);
    }
  }

  lemma {:induction false} FinishKeepsLinked(c: Config, s: State, a: Addr, i: int)
    requires Shape(c, s) && Linked(c, s) && 0 <= i < |s.pieces|
    ensures Linked(c, Idle(Finish(s, a, i), a))
    ensures Graph(c, s) && a in s.peers && s.peers[a].assignedTo == i ==> Graph(c, Idle(Finish(s, a, i), a))
  {
    var r := Idle(Finish(s, a, i), a);
    FinishEffect(c, s, a, i);
    forall j ensures Assignees(r, j) == if j == i then [] else Assignees(s, j) {}
    forall b | b in r.peers ensures WorkListed(r, b) {
      assert WorkListed(s, b);
    }
    if Graph(c, s) && a in s.peers && s.peers[a].assignedTo == i {
      forall j | 0 <= j < |r.pieces| ensures ListIsGraph(r, j) {
        assert ListIsGraph(s, j);
      }
    }
  }

  lemma {:induction false} ListsAfterFreeStale(c: Config, s: State, now: int, i: int)
    requires Shape(c, s)
    ensures Assignees(FreeStale(c, s, now), i) == Kept(Assignees(s, i), now)
  {
    hide Kept;
    if i in s.assignments && AllStale(s.assignments[i], now) {
      assert Kept(s.assignments[i], now) == [];
    }
    if i !in s.assignments { NothingListed(now); }
  }

  lemma {:induction false} FreedPieces(c: Config, s: State, now: int, i: int)
    requires Shape(c, s) && Linked(c, s) && 0 <= i < |s.pieces|
    ensures FreeStale(c, s, now).pieces[i] == InFlight <==> Kept(Assignees(s, i), now) != []
  {
    hide Kept;
    if Assignees(s, i) == [] { NothingListed(now); }
    assert s.pieces[i] == InFlight <==> Assignees(s, i) != [];
  }

  lemma {:induction false} FreedPeersStayListed(c: Config, s: State, now: int, b: Addr)
    requires Shape(c, s) && Linked(c, s) && b in s.peers
    ensures var work := FreeStale(c, s, now).peers[b].assignedTo;
      work >= 0 ==> Listed(Kept(Assignees(s, work), now), b)
  {
    hide Kept, Listed, HasStale;
    assert WorkListed(s, b);
    KeptEffect(Assignees(s, s.peers[b].assignedTo), now);
  }

  lemma {:induction false} FreeStaleKeepsLinked(c: Config, s: State, now: int)
    requires Shape(c, s) && Linked(c, s)
    ensures Linked(c, FreeStale(c, s, now))
    ensures Graph(c, s) ==> Graph(c, FreeStale(c, s, now))
  {
    hide Kept, Listed, HasStale, Assignees, AllStale;
    var r := FreeStale(c, s, now);
    forall i ensures Assignees(r, i) == Kept(Assignees(s, i), now) && |Assignees(r, i)| <= |Assignees(s, i)| {
      ListsAfterFreeStale(c, s, now, i);
      KeptEffect(Assignees(s, i), now);
    }
    forall i | 0 <= i < |r.pieces| ensures r.pieces[i] == InFlight <==> Assignees(r, i) != [] {
      FreedPieces(c, s, now, i);
    }
    forall b | b in r.peers ensures WorkListed(r, b) {
      FreedPeersStayListed(c, s, now, b);
    }
    if Graph(c, s) {
      forall i | 0 <= i < |r.pieces| ensures ListIsGraph(r, i) {
        FreedListIsGraph(c, s, now, i);
      }
    }
  }

  lemma {:induction false} FreedListIsGraph(c: Config, s: State, now: int, i: int)
    requires Shape(c, s) && ListIsGraph(s, i)
    ensures ListIsGraph(FreeStale(c, s, now), i)
  {
    hide Kept, Listed, HasStale, Distinct;
    ListsAfterFreeStale(c, s, now, i);
    KeptEffect(Assignees(s, i), now);
    forall a | Listed(Kept(Assignees(s, i), now), a) ensures FreeStale(c, s, now).peers[a].assignedTo == i {}
  }

  lemma {:induction false} AssignAnyKeepsLinked(c: Config, s: State, a: Addr, now: int)
    requires Shape(c, s) && Linked(c, s) && s.endgame
    ensures Linked(c, AssignAny(c, s, a, now)) && AssignAny(c, s, a, now).endgame
    ensures Graph(c, s) ==> Graph(c, AssignAny(c, s, a, now))
  {
    if a in s.peers && s.peers[a].assignedTo < 0 {
      var best := FewestAssignees(s, s.peers[a].have, |s.pieces|);
      if best != -1 { AssignKeepsLinked(c, s, a, best, now); }
    }
  }

  lemma {:induction false} TryAssignKeepsLinked(c: Config, s: State, a: Addr, pick: int, now: int)
    requires Shape(c, s) && Linked(c, s)
    ensures Linked(c, TryAssign(c, s, a, pick, now))
    ensures Graph(c, s) ==> Graph(c, TryAssign(c, s, a, pick, now))
  {
    if a in s.peers && s.peers[a].assignedTo < 0 && !s.peers[a].peerChoking {
      if s.endgame {
        AssignAnyKeepsLinked(c, s, a, now);
      } else if pick in Rarest(s, s.peers[a].have) {
        AssignKeepsLinked(c, s, a, pick, now);
      }
    }
  }

  lemma {:induction false} AssignAnyAllKeepsLinked(c: Config, s: State, order: seq<Addr>, now: int)
    requires Shape(c, s) && Linked(c, s) && s.endgame
    ensures Linked(c, AssignAnyAll(c, s, order, now)) && AssignAnyAll(c, s, order, now).endgame
    ensures Graph(c, s) ==> Graph(c, AssignAnyAll(c, s, order, now))
  {
    if order != [] {
      var init, last := order[..|order| - 1], order[|order| - 1];
      AssignAnyAllKeepsLinked(c, s, init, now);
      AssignAnyKeepsLinked(c, AssignAnyAll(c, s, init, now), last, now);
    }
  }

  lemma {:induction false} AssignIdleKeepsLinked(c: Config, s: State, turns: seq<Turn>, now: int)
    requires Shape(c, s) && Linked(c, s)
    ensures Linked(c, AssignIdle(c, s, turns, now))
    ensures Graph(c, s) ==> Graph(c, AssignIdle(c, s, turns, now))
  {
    if turns != [] {
      var init, last := turns[..|turns| - 1], turns[|turns| - 1];
      AssignIdleKeepsLinked(c, s, init, now);
      TryAssignKeepsLinked(c, AssignIdle(c, s, init, now), last.addr, last.pick, now);
    }
  }

  lemma {:induction false} TickKeepsLinked(c: Config, s: State, order: seq<Addr>, turns: seq<Turn>, now: int)
    requires Shape(c, s) && Linked(c, s)
    ensures Linked(c, Tick(c, s, order, turns, now))
    ensures Graph(c, s) ==> Graph(c, Tick(c, s, order, turns, now))
  {
    var s1 := FreeStale(c, s, now);
    FreeStaleKeepsLinked(c, s, now);
    var entered := s1.(endgame := true);
    SameLists(c, s1, entered);
    AssignAnyAllKeepsLinked(c, entered, order, now);
    AssignIdleKeepsLinked(c, MaybeEnterEndgame(c, s1, order, now), turns, now);
  }

  /** Changes that leave the pieces, the lists and every peer's assignment alone keep both invariants. */
  lemma {:induction false} SameLists(c: Config, s: State, r: State)
    requires Shape(c, s) && Shape(c, r)
    requires r.pieces == s.pieces && r.assignments == s.assignments && (s.endgame ==> r.endgame)
    requires r.peers.Keys == s.peers.Keys
    requires forall b :: b in r.peers ==> r.peers[b].assignedTo == s.peers[b].assignedTo
    ensures Linked(c, s) ==> Linked(c, r)
    ensures Graph(c, s) ==> Graph(c, r)
  {
    forall i ensures Assignees(r, i) == Assignees(s, i) {}
    forall b | b in r.peers && WorkListed(s, b) ensures WorkListed(r, b) {}
    forall i | ListIsGraph(s, i) ensures ListIsGraph(r, i) {}
  }

  // ----- every step -----

  lemma {:induction false} LeaveEffect(c: Config, s: State, a: Addr)
    requires Shape(c, s)
    ensures var r := AfterPeerLeft(c, s, a);
      && r.peers == s.peers - {a}
      && r.availability ==
           (if a in s.peers then RemoveAvailability(s.availability, s.peers[a].have) else s.availability)
      && r.overwritten == s.overwritten && r.uncounted == s.uncounted
      && r.refused == s.refused && r.optimisticAddr == s.optimisticAddr
      && r.hasOptimistic == (s.hasOptimistic && !(a in s.peers && s.optimisticAddr == a))
  {
    if a !in s.peers { assert s.peers - {a} == s.peers; }
  }

  lemma {:induction false} PeerLeftKeepsGraph(c: Config, s: State, a: Addr, i: int)
    requires Shape(c, s) && Graph(c, s) && a in s.peers && 0 <= i < |s.pieces|
    ensures ListIsGraph(AfterPeerLeft(c, s, a), i)
  {
    hide Release;
    var p := s.peers[a];
    var s1 := s.(availability := RemoveAvailability(s.availability, p.have));
    SameLists(c, s, s1);
    assert ListIsGraph(s1, i);
    if p.assignedTo >= 0 { ReleaseKeepsGraph(c, s1, p.assignedTo, a, i); }
  }

  lemma {:induction false} PeerLeftKeepsLinked(c: Config, s: State, a: Addr)
    requires Shape(c, s) && Linked(c, s)
    ensures Linked(c, AfterPeerLeft(c, s, a))
    ensures Graph(c, s) ==> Graph(c, AfterPeerLeft(c, s, a))
  {
    hide Release, ListIsGraph, WorkListed;
    if a in s.peers {
      var p := s.peers[a];
      var s1 := s.(availability := RemoveAvailability(s.availability, p.have));
      var r := AfterPeerLeft(c, s, a);
      SameLists(c, s, s1);
      if p.assignedTo >= 0 {
        ReleaseKeepsLinked(c, s1, p.assignedTo, a);
        ForgetKeepsLinked(c, Release(c, s1, p.assignedTo, a), r, a);
      } else {
        ForgetKeepsLinked(c, s1, r, a);
      }
      if Graph(c, s) {
        forall i | 0 <= i < |r.pieces| ensures ListIsGraph(r, i) { PeerLeftKeepsGraph(c, s, a, i); }
      }
    }
  }

  lemma {:induction false} PeerJoinedKeepsLinked(c: Config, s: State, a: Addr)
    requires Shape(c, s) && Linked(c, s)
    ensures Linked(c, AfterPeerJoined(c, s, a))
    ensures Graph(c, s) ==> Graph(c, AfterPeerJoined(c, s, a))
  {
    PeerLeftKeepsLinked(c, s, a);
    var s1, r := AfterPeerLeft(c, s, a), AfterPeerJoined(c, s, a);
    ForgetKeepsLinked(c, s1, r, a);
    if Graph(c, s) {
      forall i | 0 <= i < |r.pieces| ensures ListIsGraph(r, i) {
        assert ListIsGraph(s1, i);
      }
    }
  }

  lemma {:induction false} PieceFailedKeepsLinked(c: Config, s: State, a: Addr, i: int)
    requires Shape(c, s) && Linked(c, s) && 0 <= i < |s.pieces|
    ensures Linked(c, AfterPieceFailed(c, s, a, i))
    ensures Graph(c, s) && a in s.peers && s.peers[a].assignedTo == i ==> Graph(c, AfterPieceFailed(c, s, a, i))
  {
    var s1, r := Release(c, s, i, a), AfterPieceFailed(c, s, a, i);
    ReleaseKeepsLinked(c, s, i, a);
    ForgetKeepsLinked(c, s1, r, a);
    if Graph(c, s) && a in s.peers && s.peers[a].assignedTo == i {
      forall j | 0 <= j < |r.pieces| ensures ListIsGraph(r, j) {
        ReleaseKeepsGraph(c, s, i, a, j);
        assert Assignees(r, j) == Assignees(s1, j);
      }
    }
  }

  /** An outcome event names what its peer is recorded as working on, or a download that has already been won. */
  ghost predicate Matched(c: Config, s: State, step: Step)
    requires Shape(c, s) && Enabled(c, s, step)
  {
    match step
    case Downloaded(a, i, data, delivered) => s.pieces[i] == Complete || (a in s.peers && s.peers[a].assignedTo == i)
    case Failed(a, i) => a in s.peers && s.peers[a].assignedTo == i
    case _ => true
  }

  predicate Quiet(step: Step) {
    step.BecameInterested? || step.LostInterest? || step.ChokedUs? || step.Rechoked? || step.Rotated? ||
    step.WorkerTook? || step.BitWritten? || step.BitfieldReplaced? || step.ResultTaken?
  }

  lemma {:induction false} OutcomeKeepsLinked(c: Config, s: State, a: Addr, i: int, data: Bytes, delivered: bool)
    requires Shape(c, s) && Linked(c, s) && 0 <= i < |s.pieces|
    ensures Linked(c, AfterPieceDownloaded(c, s, a, i, data, delivered))
    ensures Graph(c, s) && (s.pieces[i] == Complete || (a in s.peers && s.peers[a].assignedTo == i)) ==>
      Graph(c, AfterPieceDownloaded(c, s, a, i, data, delivered))
  {
    if s.pieces[i] != Complete {
      FinishKeepsLinked(c, s, a, i);
      SameLists(c, Idle(Finish(s, a, i), a), AfterPieceDownloaded(c, s, a, i, data, delivered));
    }
  }

  lemma {:induction false} OfferKeepsLinked(c: Config, s: State, r: State, a: Addr, pick: int, now: int)
    requires Shape(c, s) && Shape(c, r) && Linked(c, s)
    requires r.pieces == s.pieces && r.assignments == s.assignments && r.endgame == s.endgame
    requires r.peers.Keys == s.peers.Keys
    requires forall b :: b in r.peers ==> r.peers[b].assignedTo == s.peers[b].assignedTo
    ensures Linked(c, TryAssign(c, r, a, pick, now))
    ensures Graph(c, s) ==> Graph(c, TryAssign(c, r, a, pick, now))
  {
    SameLists(c, s, r);
    TryAssignKeepsLinked(c, r, a, pick, now);
  }

  lemma {:induction false} BitfieldKeepsLinked(c: Config, s: State, a: Addr, bits: set<int>, pick: int, now: int)
    requires Shape(c, s) && Linked(c, s)
    ensures Linked(c, AfterBitfieldReceived(c, s, a, bits, pick, now))
    ensures Graph(c, s) ==> Graph(c, AfterBitfieldReceived(c, s, a, bits, pick, now))
  {
    hide TryAssign, Linked, Graph;
    if a in s.peers && !s.peers[a].gotBitfield {
      OfferKeepsLinked(c, s, BitfieldCounted(c, s, a, bits), a, pick, now);
    }
  }

  lemma {:induction false} HaveKeepsLinked(c: Config, s: State, a: Addr, i: int, pick: int, now: int)
    requires Shape(c, s) && Linked(c, s) && 0 <= i < c.layout.pieceCount
    ensures Linked(c, AfterHaveReceived(c, s, a, i, pick, now))
    ensures Graph(c, s) ==> Graph(c, AfterHaveReceived(c, s, a, i, pick, now))
  {
    hide TryAssign, Linked, Graph;
    if a in s.peers && i !in s.peers[a].have { OfferKeepsLinked(c, s, HaveCounted(c, s, a, i), a, pick, now); }
  }

  lemma {:induction false} UnchokeKeepsLinked(c: Config, s: State, a: Addr, pick: int, now: int)
    requires Shape(c, s) && Linked(c, s)
    ensures Linked(c, AfterUnchokeReceived(c, s, a, pick, now))
    ensures Graph(c, s) ==> Graph(c, AfterUnchokeReceived(c, s, a, pick, now))
  {
    hide TryAssign, Linked, Graph;
    if a in s.peers { OfferKeepsLinked(c, s, PeerUnchoked(c, s, a), a, pick, now); }
  }

  lemma {:induction false} QuietKeepsLinked(c: Config, s: State, step: Step)
    requires Shape(c, s) && Enabled(c, s, step) && Linked(c, s) && Quiet(step)
    ensures Linked(c, Next(c, s, step)) && (Graph(c, s) ==> Graph(c, Next(c, s, step)))
  {
    hide RecalcChoke, RotateOptimistic, AfterNotInterestedReceived, TakeCommand, BestByRate, OptimisticCandidates,
         Linked, Graph, TryAssign, AfterPeerLeft, AfterPeerJoined, Tick, AfterPieceDownloaded, AfterPieceFailed,
         AfterBitfieldReceived, AfterHaveReceived, AfterUnchokeReceived, Drawn, Visits, TurnsDrawn;
    SameLists(c, s, Next(c, s, step));
  }

  /** The assignment invariant survives every step, and so does exactness when outcomes are matched. */
  lemma {:induction false} StepKeepsLinked(c: Config, s: State, step: Step)
    requires Shape(c, s) && Enabled(c, s, step) && Linked(c, s)
    ensures Linked(c, Next(c, s, step))
    ensures Graph(c, s) && Matched(c, s, step) ==> Graph(c, Next(c, s, step))
  {
    hide TryAssign, AfterPeerLeft, AfterPeerJoined, Tick, AfterPieceDownloaded, AfterPieceFailed, SetChoked,
         AfterBitfieldReceived, AfterHaveReceived, AfterUnchokeReceived, RecalcChoke, RotateOptimistic, Drawn, Visits,
         TurnsDrawn, BestByRate, OptimisticCandidates, Linked, Graph;
    match step
    case Joined(a) => PeerJoinedKeepsLinked(c, s, a);
    case GotBitfield(a, bits, pick, now) => BitfieldKeepsLinked(c, s, a, bits, pick, now);
    case GotHave(a, i, pick, now) => HaveKeepsLinked(c, s, a, i, pick, now);
    case Downloaded(a, i, data, delivered) => OutcomeKeepsLinked(c, s, a, i, data, delivered);
    case Failed(a, i) => PieceFailedKeepsLinked(c, s, a, i);
    case Ready(a, pick, now) => TryAssignKeepsLinked(c, s, a, pick, now);
    case Left(a) => PeerLeftKeepsLinked(c, s, a);
    case UnchokedUs(a, pick, now) => UnchokeKeepsLinked(c, s, a, pick, now);
    case Ticked(order, turns, now) => TickKeepsLinked(c, s, order, turns, now);
    case _ => QuietKeepsLinked(c, s, step);
  }

  /** No assignments yet; pieces already verified on disk are marked complete. */
  ghost predicate Starts(c: Config, s: State)
    requires Shape(c, s)
  {
    && s == Initial(c).(pieces := s.pieces)
    && forall i :: 0 <= i < |s.pieces| ==> s.pieces[i] != InFlight
  }

  lemma {:induction false} MarkCompleteStillStarts(c: Config, s: State, index: int)
    requires Shape(c, s) && Starts(c, s) && 0 <= index < |s.pieces|
    ensures Starts(c, MarkComplete(c, s, index)) && Starts(c, Initial(c))
    ensures Incomplete(MarkComplete(c, s, index).pieces) == Incomplete(s.pieces) - {index}
  {
  }

  /** A run: each state is the one its step leaves behind. */
  ghost predicate IsRun(c: Config, trace: seq<State>, steps: seq<Step>) {
    && |trace| == |steps| + 1
    && Shape(c, trace[0]) && Starts(c, trace[0])
    && forall k :: 0 <= k < |steps| ==>
         Shape(c, trace[k]) && Enabled(c, trace[k], steps[k]) && trace[k + 1] == Next(c, trace[k], steps[k])
  }

  /** Runs are what a coordinator that takes one enabled step after another goes through. */
  lemma {:induction false} RunsExtend(c: Config, trace: seq<State>, steps: seq<Step>, step: Step)
    requires IsRun(c, trace, steps) && Shape(c, trace[|steps|]) && Enabled(c, trace[|steps|], step)
    ensures IsRun(c, trace + [Next(c, trace[|steps|], step)], steps + [step])
    ensures IsRun(c, [Initial(c)], [])
  {
    hide Next, Enabled;
    var longer, more := trace + [Next(c, trace[|steps|], step)], steps + [step];
    forall k | 0 <= k < |more|
      ensures Shape(c, longer[k]) && Enabled(c, longer[k], more[k]) && longer[k + 1] == Next(c, longer[k], more[k])
    {
      if k < |steps| { assert more[k] == steps[k] && longer[k] == trace[k] && longer[k + 1] == trace[k + 1]; }
    }
  }

  /** Every reachable state satisfies the assignment invariant; if every outcome so far was matched, the lists are
      exactly the graph of the peers' own records. */
  lemma {:induction false} AssignmentsAgreeOverRuns(c: Config, trace: seq<State>, steps: seq<Step>, k: nat)
    requires IsRun(c, trace, steps) && k < |trace|
    ensures Shape(c, trace[k]) && Linked(c, trace[k])
    ensures (forall j :: 0 <= j < k ==> Matched(c, trace[j], steps[j])) ==> Graph(c, trace[k])
  {
    hide Next;
    if k > 0 {
      AssignmentsAgreeOverRuns(c, trace, steps, k - 1);
      StepKeepsLinked(c, trace[k - 1], steps[k - 1]);
    }
  }
}
