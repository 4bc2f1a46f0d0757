/** The coordinator as the source writes it: one object whose handlers update its fields, loop over its maps in
    whatever order they come, and send commands without ever blocking. Each method is proved to leave behind exactly
    the state that CoordinatorState describes. */
module Coordinator {
  import opened Base
  import opened Events
  import opened CoordinatorState
  import Selection
  import AssignmentInvariants

  /** One entry of the list that a choke recalculation sorts. */
  datatype Candidate = Candidate(addr: Addr, rate: real)

  /** The coordinator's three timers, with the rates or the random choice each one reads. */
  datatype Timer =
    | TickTimer
    | ChokeTimer(down: map<Addr, real>, up: map<Addr, real>)
    | OptimisticTimer(choice: nat)

  ghost predicate DistinctCandidates(list: seq<Candidate>) {
    forall j, k :: 0 <= j < k < |list| ==> list[j].addr != list[k].addr
  }

  ghost predicate SortedByRate(list: seq<Candidate>) {
    forall j, k :: 0 <= j < k < |list| ==> list[j].rate >= list[k].rate
  }

  ghost function AddrsOf(list: seq<Candidate>): set<Addr> { set c | c in list :: c.addr }

  lemma {:induction false} NotYetSeen(s: State, list: seq<Candidate>, i: nat)
    requires DistinctCandidates(list) && AddrsOf(list) == InterestedPeers(s) && i < |list|
    ensures list[i].addr in s.peers && list[i].addr !in Uninterested(s.peers) + AddrsOf(list[..i])
    ensures Uninterested(s.peers) + AddrsOf(list[..i + 1]) ==
      Uninterested(s.peers) + AddrsOf(list[..i]) + {list[i].addr}
  {
    assert list[i].addr in AddrsOf(list);
    assert list[..i + 1] == list[..i] + [list[i]];
  }

  lemma {:induction false} AddrsOfSize(list: seq<Candidate>)
    requires DistinctCandidates(list)
    ensures |AddrsOf(list)| == |list|
  {
    if list != [] {
      var init, last := list[..|list| - 1], list[|list| - 1];
      AddrsOfSize(init);
      assert list == init + [last];
      assert AddrsOf(list) == AddrsOf(init) + {last.addr};
      assert last.addr !in AddrsOf(init);
    }
  }

  /** Sorts by rate, best first: the same candidates, each once. */
  method SortByRate(list: seq<Candidate>) returns (sorted: seq<Candidate>)
    requires DistinctCandidates(list)
    ensures SortedByRate(sorted) && DistinctCandidates(sorted)
    ensures |sorted| == |list| && forall c :: c in sorted <==> c in list
    ensures AddrsOf(sorted) == AddrsOf(list)
  {
    hide SortedByRate, DistinctCandidates, AddrsOf;
    sorted := [];
    NoCandidates();
    for i := 0 to |list|
      invariant |sorted| == i
      invariant SortedByRate(sorted) && DistinctCandidates(sorted)
      invariant forall c :: c in sorted <==> c in list[..i]
    {
      var c := list[i];
      var at := 0;
      while at < |sorted| && sorted[at].rate >= c.rate
        invariant 0 <= at <= |sorted|
        invariant forall k :: 0 <= k < at ==> sorted[k].rate >= c.rate
      {
        at := at + 1;
      }
      EarlierDiffer(list, i);
      InsertInOrder(sorted, c, at);
      sorted := Inserted(sorted, c, at);
      assert list[..i + 1] == list[..i] + [c];
    }
    assert list[..|list|] == list;
    SameAddrs(sorted, list);
  }

  lemma {:induction false} EarlierDiffer(list: seq<Candidate>, i: nat)
    requires DistinctCandidates(list) && i < |list|
    ensures forall c :: c in list[..i] ==> c.addr != list[i].addr
  {
  }

  lemma {:induction false} SameAddrs(list: seq<Candidate>, other: seq<Candidate>)
    requires forall c :: c in list <==> c in other
    ensures AddrsOf(list) == AddrsOf(other)
  {
  }

  function Inserted(sorted: seq<Candidate>, c: Candidate, at: nat): seq<Candidate>
    requires at <= |sorted|
  {
    sorted[..at] + [c] + sorted[at..]
  }

  lemma {:induction false} InsertedAt(sorted: seq<Candidate>, c: Candidate, at: nat)
    requires at <= |sorted|
    ensures var r := Inserted(sorted, c, at);
      && |r| == |sorted| + 1 && r[at] == c
      && (forall k :: 0 <= k < at ==> r[k] == sorted[k])
      && forall k :: at < k < |r| ==> r[k] == sorted[k - 1]
  {
  }

  lemma {:induction false} InsertInOrder(sorted: seq<Candidate>, c: Candidate, at: nat)
    requires SortedByRate(sorted) && DistinctCandidates(sorted) && at <= |sorted|
    requires forall k :: 0 <= k < at ==> sorted[k].rate >= c.rate
    requires at < |sorted| ==> sorted[at].rate < c.rate
    requires forall d :: d in sorted ==> d.addr != c.addr
    ensures SortedByRate(Inserted(sorted, c, at)) && DistinctCandidates(Inserted(sorted, c, at))
    ensures forall d :: d in Inserted(sorted, c, at) <==> d in sorted || d == c
  {
    var r := Inserted(sorted, c, at);
    InsertedAt(sorted, c, at);
    hide Inserted;
    forall j, k | 0 <= j < k < |r| ensures r[j].rate >= r[k].rate && r[j].addr != r[k].addr {
      if j == at {
        assert sorted[k - 1] in sorted && sorted[at].rate >= sorted[k - 1].rate;
      } else if k == at {
        assert sorted[j] in sorted;
      }
    }
    SameElements(sorted, c, at);
  }

  lemma {:induction false} SameElements(sorted: seq<Candidate>, c: Candidate, at: nat)
    requires at <= |sorted|
    ensures forall d :: d in Inserted(sorted, c, at) <==> d in sorted || d == c
  {
    assert sorted == sorted[..at] + sorted[at..];
  }

  /** The first slots of a sorted candidate list are the best by rate. */
  lemma {:induction false} TopOfSorted(s: State, rates: map<Addr, real>, sorted: seq<Candidate>)
    requires SortedByRate(sorted) && DistinctCandidates(sorted)
    requires AddrsOf(sorted) == InterestedPeers(s)
    requires forall c :: c in sorted ==> c.rate == Rate(rates, c.addr)
    ensures var top := AddrsOf(sorted[..if |sorted| < UNCHOKE_SLOTS then |sorted| else UNCHOKE_SLOTS]);
      BestByRate(s, rates, top) && top <= InterestedPeers(s)
  {
    var slots := if |sorted| < UNCHOKE_SLOTS then |sorted| else UNCHOKE_SLOTS;
    var top := sorted[..slots];
    AddrsOfSize(sorted);
    AddrsOfSize(top);
    forall a, b | a in AddrsOf(top) && b in InterestedPeers(s) && b !in AddrsOf(top)
      ensures Rate(rates, a) >= Rate(rates, b)
    {
      var j :| 0 <= j < |top| && top[j].addr == a;
      var c :| c in sorted && c.addr == b;
      assert c !in top && sorted == top + sorted[slots..];
      var k :| slots <= k < |sorted| && sorted[k] == c;
      assert sorted[j] in sorted;
    }
  }

  lemma {:induction false} CancelNone(peers: map<Addr, PeerInfo>, index: nat, winner: Addr)
    ensures CancelOthers(peers, [], index, winner) == peers
  {
  }

  lemma {:induction false} CancelOneMore(
    peers: map<Addr, PeerInfo>, list: seq<Assignment>, i: nat, index: nat, winner: Addr)
    requires i < |list|
    ensures var done := CancelOthers(peers, list[..i], index, winner);
      var a := list[i].addr;
      CancelOthers(peers, list[..i + 1], index, winner) ==
        if a == winner || a !in done then done else done[a := Cancelled(done[a], index)]
  {
    assert list[..i + 1][..i] == list[..i];
  }

  /** The peers after dropping the stale entries of one piece's list. */
  ghost function FreedFrom(peers: map<Addr, PeerInfo>, list: seq<Assignment>, index: int, now: int):
    map<Addr, PeerInfo>
  {
    map a | a in peers ::
      if peers[a].assignedTo == index && HasStale(list, a, now) then peers[a].(assignedTo := -1) else peers[a]
  }

  lemma {:induction false} FreedOneMore(
    peers: map<Addr, PeerInfo>, list: seq<Assignment>, i: nat, index: int, now: int)
    requires i < |list| && index >= 0
    ensures Kept(list[..i + 1], now) == Kept(list[..i], now) + if Fresh(list[i], now) then [list[i]] else []
    ensures var freed := FreedFrom(peers, list[..i], index, now);
      var a := list[i].addr;
      FreedFrom(peers, list[..i + 1], index, now) ==
        if !Fresh(list[i], now) && a in freed && freed[a].assignedTo == index
        then freed[a := freed[a].(assignedTo := -1)] else freed
  {
    assert list[..i + 1] == list[..i] + [list[i]] && list[..i + 1][..i] == list[..i];
    AssignmentInvariants.StaleAppend(list[..i], list[i], now);
  }

  /** The state when the lists of `done` have been gone through and the others have not. */
  ghost function PartlyFreed(c: Config, s: State, done: set<nat>, now: int): (r: State)
    requires Shape(c, s)
    ensures Shape(c, r)
  {
    s.(peers := map a | a in s.peers :: if s.peers[a].assignedTo in done then Freed(s, a, now) else s.peers[a],
       assignments := map i | i in s.assignments && !(i in done && AllStale(s.assignments[i], now)) ::
         if i in done then Kept(s.assignments[i], now) else s.assignments[i],
       pieces := seq(|s.pieces|, i requires 0 <= i < |s.pieces| =>
         if i in done && AllStale(Assignees(s, i), now) then Missing else s.pieces[i]))
  }

  lemma {:induction false} NoneFreed(c: Config, s: State, now: int)
    requires Shape(c, s)
    ensures PartlyFreed(c, s, {}, now) == s
  {
  }

  lemma {:induction false} AllFreed(c: Config, s: State, done: set<nat>, now: int)
    requires Shape(c, s) && done == s.assignments.Keys
    ensures PartlyFreed(c, s, done, now) == FreeStale(c, s, now)
  {
  }

  /** Going through one more list. */
  lemma {:induction false} FreeOneMore(c: Config, s: State, done: set<nat>, index: nat, now: int)
    requires Shape(c, s) && index in s.assignments && index !in done
    ensures var before := PartlyFreed(c, s, done, now);
      var after := PartlyFreed(c, s, done + {index}, now);
      var list := s.assignments[index];
      var kept := Kept(list, now);
      && index in before.assignments && before.assignments[index] == list && |kept| <= |list|
      && after.peers == FreedFrom(before.peers, list, index, now)
      && after.pieces == (if |kept| != |list| && |kept| == 0 then before.pieces[index := Missing] else before.pieces)
      && after.assignments ==
           (if |kept| == |list| then before.assignments
            else if |kept| == 0 then before.assignments - {index}
            else before.assignments[index := kept])
      && after == before.(peers := after.peers, pieces := after.pieces, assignments := after.assignments)
  {
    hide Kept, HasStale, Freed;
    KeptAllOrFewer(s.assignments[index], now);
    FreePeersOneMore(c, s, done, index, now);
    FreeListsOneMore(c, s, done, index, now);
    FreePiecesOneMore(c, s, done, index, now);
  }

  lemma {:induction false} FreePeersOneMore(c: Config, s: State, done: set<nat>, index: nat, now: int)
    requires Shape(c, s) && index in s.assignments && index !in done
    ensures PartlyFreed(c, s, done + {index}, now).peers ==
      FreedFrom(PartlyFreed(c, s, done, now).peers, s.assignments[index], index, now)
  {
    hide Kept, HasStale;
  }

  lemma {:induction false} FreeListsOneMore(c: Config, s: State, done: set<nat>, index: nat, now: int)
    requires Shape(c, s) && index in s.assignments && index !in done
    ensures var before := PartlyFreed(c, s, done, now).assignments;
      var after := PartlyFreed(c, s, done + {index}, now).assignments;
      var list := s.assignments[index];
      var kept := Kept(list, now);
      && index in before && before[index] == list
      && after == (if |kept| == |list| then before else if |kept| == 0 then before - {index} else before[index := kept])
  {
    hide Kept;
    KeptAllOrFewer(s.assignments[index], now);
  }

  lemma {:induction false} FreePiecesOneMore(c: Config, s: State, done: set<nat>, index: nat, now: int)
    requires Shape(c, s) && index in s.assignments && index !in done
    ensures var before, after := PartlyFreed(c, s, done, now).pieces, PartlyFreed(c, s, done + {index}, now).pieces;
      var list := s.assignments[index];
      var kept := Kept(list, now);
      after == (if |kept| != |list| && |kept| == 0 then before[index := Missing] else before)
  {
    hide Kept;
    KeptAllOrFewer(s.assignments[index], now);
  }

  lemma {:induction false} KeptAllOrFewer(list: seq<Assignment>, now: int)
    ensures |Kept(list, now)| <= |list|
    ensures |Kept(list, now)| == |list| ==> Kept(list, now) == list
  {
    if list != [] {
      KeptAllOrFewer(list[..|list| - 1], now);
      assert list == list[..|list| - 1] + [list[|list| - 1]];
    }
  }

  /** Some order in which a pass over a map may visit its keys. */
  ghost method AnyOrder(keys: set<Addr>) returns (order: seq<Addr>)
    ensures Visits(order, keys)
  {
    order := [];
    var todo := keys;
    while todo != {}
      invariant todo <= keys && Visits(order, keys - todo)
      decreases |todo|
    {
      var addr :| addr in todo;
      order := order + [addr];
      todo := todo - {addr};
    }
  }

  lemma {:induction false} VisitNone()
    ensures Visits([], {})
  {
  }

  lemma {:induction false} VisitOneMore(order: seq<Addr>, keys: set<Addr>, addr: Addr)
    requires Visits(order, keys) && addr !in keys
    ensures Visits(order + [addr], keys + {addr})
  {
    assert forall k :: 0 <= k < |order| ==> order[k] in order;
  }

  ghost function Uninterested(peers: map<Addr, PeerInfo>): set<Addr> {
    set a | a in peers && !peers[a].interested
  }

  /** The peers once those in `done` have been asked for their choke state. */
  ghost function RechokedUpTo(peers: map<Addr, PeerInfo>, done: set<Addr>, unchoked: set<Addr>):
    (r: map<Addr, PeerInfo>)
    ensures r.Keys == peers.Keys && forall a :: a in r ==> r[a].interested == peers[a].interested
  {
    map a | a in peers :: if a in done then Rechoke(peers[a], a !in unchoked) else peers[a]
  }

  ghost predicate RefusedIn(peers: map<Addr, PeerInfo>, done: set<Addr>, unchoked: set<Addr>) {
    exists a :: a in peers && a in done && Refuses(peers[a], a !in unchoked)
  }

  lemma {:induction false} RechokeNone(peers: map<Addr, PeerInfo>, unchoked: set<Addr>)
    ensures RechokedUpTo(peers, {}, unchoked) == peers && !RefusedIn(peers, {}, unchoked)
  {
  }

  lemma {:induction false} RechokeOneMore(
    peers: map<Addr, PeerInfo>, done: set<Addr>, addr: Addr, unchoked: set<Addr>)
    requires addr in peers && addr !in done
    ensures RechokedUpTo(peers, done, unchoked).Keys == peers.Keys
    ensures RechokedUpTo(peers, done, unchoked)[addr] == peers[addr]
    ensures RechokedUpTo(peers, done + {addr}, unchoked) ==
      RechokedUpTo(peers, done, unchoked)[addr := Rechoke(peers[addr], addr !in unchoked)]
    ensures RefusedIn(peers, done + {addr}, unchoked) ==
      (RefusedIn(peers, done, unchoked) || Refuses(peers[addr], addr !in unchoked))
  {
  }

  /** Choking the uninterested first and deciding about the rest later amounts to deciding about everyone at once. */
  lemma {:induction false} RechokeAll(s: State, regular: set<Addr>)
    requires regular <= InterestedPeers(s)
    ensures RechokedUpTo(s.peers, Uninterested(s.peers), UnchokeSet(s, regular)) ==
      RechokedUpTo(s.peers, Uninterested(s.peers), {})
    ensures RefusedIn(s.peers, Uninterested(s.peers), UnchokeSet(s, regular)) ==
      RefusedIn(s.peers, Uninterested(s.peers), {})
  {
    assert forall a :: a in Uninterested(s.peers) ==> a !in UnchokeSet(s, regular);
  }

  lemma {:induction false} EveryoneRechoked(c: Config, s: State, r: State, regular: set<Addr>)
    requires Shape(c, s)
    requires var everyone := Uninterested(s.peers) + InterestedPeers(s);
      && r == s.(hasOptimistic := r.hasOptimistic, peers := r.peers, refused := r.refused)
      && r.hasOptimistic == KeepsOptimistic(s)
      && r.peers == RechokedUpTo(s.peers, everyone, UnchokeSet(s, regular))
      && r.refused == (s.refused || RefusedIn(s.peers, everyone, UnchokeSet(s, regular)))
    ensures r == CoordinatorState.RecalcChoke(c, s, regular)
  {
    assert Uninterested(s.peers) + InterestedPeers(s) == s.peers.Keys;
  }

  lemma {:induction false} SameUnchokeSet(s: State, r: State, regular: set<Addr>)
    requires r.hasOptimistic == s.hasOptimistic && r.optimisticAddr == s.optimisticAddr
    requires r.peers.Keys == s.peers.Keys && forall a :: a in r.peers ==> r.peers[a].interested == s.peers[a].interested
    ensures UnchokeSet(r, regular) == UnchokeSet(s, regular) && KeepsOptimistic(r) == KeepsOptimistic(s)
  {
    assert s.optimisticAddr in s.peers <==> s.optimisticAddr in s.peers.Keys;
  }

  lemma {:induction false} NoneIncomplete(pieces: seq<PieceState>)
    ensures |Incomplete(pieces)| == 0 <==> Incomplete(pieces) == {}
    ensures Incomplete(pieces) == {} <==> forall i :: 0 <= i < |pieces| ==> pieces[i] == Complete
  {
    if i :| 0 <= i < |pieces| && pieces[i] != Complete { assert i in Incomplete(pieces); }
  }

  lemma {:induction false} CollectOneMore(candidates: seq<Candidate>, c: Candidate)
    requires DistinctCandidates(candidates) && c.addr !in AddrsOf(candidates)
    ensures DistinctCandidates(candidates + [c]) && AddrsOf(candidates + [c]) == AddrsOf(candidates) + {c.addr}
  {
    assert forall k :: 0 <= k < |candidates| ==> candidates[k] in candidates;
  }

  lemma {:induction false} NoCandidates()
    ensures DistinctCandidates([]) && SortedByRate([]) && AddrsOf([]) == {}
  {
  }

  lemma {:induction false} NoOffers(c: Config, s: State, now: int)
    requires Shape(c, s)
    ensures AssignAnyAll(c, s, [], now) == s
  {
  }

  lemma {:induction false} OneMoreOffer(c: Config, s: State, order: seq<Addr>, addr: Addr, now: int)
    requires Shape(c, s)
    ensures AssignAnyAll(c, s, order + [addr], now) == AssignAny(c, AssignAnyAll(c, s, order, now), addr, now)
  {
    assert (order + [addr])[..|order|] == order;
  }

  lemma {:induction false} NoTurns(c: Config, s: State, now: int)
    requires Shape(c, s)
    ensures AssignIdle(c, s, [], now) == s && TurnsDrawn(c, s, [], now) && Addrs([]) == []
  {
  }

  lemma {:induction false} OneMoreTurn(c: Config, s: State, turns: seq<Turn>, turn: Turn, now: int)
    requires Shape(c, s)
    ensures AssignIdle(c, s, turns + [turn], now) ==
      CoordinatorState.TryAssign(c, AssignIdle(c, s, turns, now), turn.addr, turn.pick, now)
    ensures TurnsDrawn(c, s, turns + [turn], now) ==
      (TurnsDrawn(c, s, turns, now) && Drawn(AssignIdle(c, s, turns, now), turn.addr, turn.pick))
    ensures Addrs(turns + [turn]) == Addrs(turns) + [turn.addr]
  {
    assert (turns + [turn])[..|turns|] == turns;
  }

  class Coordinator {
    const config: Config

    var pieces: seq<PieceState>
    var availability: seq<int>
    var peers: map<Addr, PeerInfo>
    var assignments: map<nat, seq<Assignment>>
    var endgame: bool
    var results: seq<PieceResult>
    var optimisticAddr: Addr
    var hasOptimistic: bool

    ghost var overwritten: seq<nat>
    ghost var uncounted: seq<nat>
    ghost var refused: bool

    ghost function View(): State
      reads this
    {
      State(pieces, availability, peers, assignments, endgame, results, hasOptimistic, optimisticAddr,
            overwritten, uncounted, refused)
    }

    ghost predicate Valid()
      reads this
    {
      Shape(config, View())
    }

    constructor (config: Config)
      ensures Valid() && this.config == config && View() == Initial(config)
    {
      this.config := config;
      var n := config.layout.pieceCount;
      pieces := seq(n, _ => Missing);
      availability := seq(n, _ => 0);
      peers := map[];
      assignments := map[];
      endgame := false;
      results := [];
      hasOptimistic := false;
      optimisticAddr := Addr(0, 0);
      overwritten := seq(n, _ => 0);
      uncounted := seq(n, _ => 0);
      refused := false;
    }

    method MarkComplete(index: int)
      requires Valid() && 0 <= index < |pieces|
      modifies this`pieces
      ensures Valid() && View() == CoordinatorState.MarkComplete(config, old(View()), index)
    {
      pieces := pieces[index := Complete];
    }

    // ----- availability -----

    method AddAvailability(have: set<int>)
      requires Valid()
      modifies this`availability
      ensures availability == CoordinatorState.AddAvailability(old(availability), have)
    {
      for i := 0 to |pieces|
        invariant |availability| == |old(availability)| == |pieces|
        invariant forall k :: 0 <= k < |pieces| ==>
          availability[k] == old(availability)[k] + if k < i && k in have then 1 else 0
      {
        if i in have { availability := availability[i := availability[i] + 1]; }
      }
    }

    method RemoveAvailability(have: set<int>)
      requires Valid()
      modifies this`availability
      ensures availability == CoordinatorState.RemoveAvailability(old(availability), have)
    {
      for i := 0 to |pieces|
        invariant |availability| == |old(availability)| == |pieces|
        invariant forall k :: 0 <= k < |pieces| ==>
          availability[k] == old(availability)[k] - if k < i && k in have then 1 else 0
      {
        if i in have { availability := availability[i := availability[i] - 1]; }
      }
    }

    // ----- selection -----

    method SelectPieceFor(have: set<int>, random: int -> nat) returns (index: int, found: bool)
      requires Valid()
      ensures found <==> Candidates(View(), have) != {}
      ensures index == Selection.Chosen(Selection.Tied(View(), have, |pieces|), random)
      ensures found ==> index in Rarest(View(), have)
    {
      hide Selection.Chosen, Selection.RarestBelow, Candidates, Rarest;
      Selection.NothingChosen(random);
      var best, bestAvailability, ties := -1, 0, 0;
      for i := 0 to |pieces|
        invariant ties == |Selection.Tied(View(), have, i)|
        invariant best == Selection.Chosen(Selection.Tied(View(), have, i), random)
        invariant best == -1 <==> ties == 0
        invariant ties > 0 ==> bestAvailability == availability[Selection.Tied(View(), have, i)[0]]
      {
        ghost var tied := Selection.Tied(View(), have, i);
        Selection.ChosenAppend(tied, i, random);
        Selection.ChosenAppend([], i, random);
        assert [] + [i] == [i];
        if pieces[i] == Missing && i in have {
          if best == -1 || availability[i] < bestAvailability {
            best, bestAvailability, ties := i, availability[i], 1;
          } else if availability[i] == bestAvailability {
            ties := ties + 1;
            if random(i) % ties == 0 { best := i; }
          }
        }
      }
      index, found := best, best != -1;
      Selection.ChosenIsRarest(View(), have, random);
    }

    /** A non-blocking send. */
    method SendAssignCommand(addr: Addr, index: int, now: int) returns (sent: bool)
      requires Valid() && addr in peers
      modifies this`pieces, this`assignments, this`peers
      ensures Valid() && View() == SendAssign(config, old(View()), addr, index, now)
      ensures sent <==> old(peers)[addr].commands.HasRoom() && AssignCommand(config, index).Some?
    {
      match AssignCommand(config, index)
      case None => sent := false;
      case Some(command) =>
        var p := peers[addr];
        if !p.commands.HasRoom() { return false; }
        peers := peers[addr := p.(commands := p.commands.Send(command))];
        pieces := pieces[index := InFlight];
        assignments := assignments[index :=
          (if index in assignments then assignments[index] else []) + [Assignment(addr, now)]];
        sent := true;
    }

    method AssignPiece(addr: Addr, index: int, now: int) returns (sent: bool)
      requires Valid() && addr in peers && 0 <= index < |pieces|
      modifies this`pieces, this`assignments, this`peers
      ensures Valid() && View() == Assign(config, old(View()), addr, index, now)
      ensures sent <==> old(peers)[addr].commands.HasRoom()
    {
      sent := SendAssignCommand(addr, index, now);
      if sent { peers := peers[addr := peers[addr].(assignedTo := index)]; }
    }

    method AssignAnyMissingTo(addr: Addr, now: int)
      requires Valid() && addr in peers
      modifies this`pieces, this`assignments, this`peers
      ensures Valid() && View() == AssignAny(config, old(View()), addr, now)
    {
      var p := peers[addr];
      if p.assignedTo >= 0 { return; }
      var best, bestAssignees := -1, -1;
      for index := 0 to |pieces|
        invariant best == FewestAssignees(View(), p.have, index)
        invariant best != -1 ==> bestAssignees == |Assignees(View(), best)|
      {
        if pieces[index] != Complete && index in p.have {
          var n := if index in assignments then |assignments[index]| else 0;
          if best == -1 || n < bestAssignees { best, bestAssignees := index, n; }
        }
      }
      if best == -1 { return; }
      var sent := SendAssignCommand(addr, best, now);
      if sent { peers := peers[addr := peers[addr].(assignedTo := best)]; }
    }

    method TryAssign(addr: Addr, random: int -> nat, now: int) returns (ghost pick: int)
      requires Valid() && addr in peers
      modifies this`pieces, this`assignments, this`peers
      ensures Valid() && Drawn(old(View()), addr, pick)
      ensures View() == CoordinatorState.TryAssign(config, old(View()), addr, pick, now)
    {
      Selection.ChosenIsRarest(View(), peers[addr].have, random);
      pick := Selection.Chosen(Selection.Tied(View(), peers[addr].have, |pieces|), random);
      var p := peers[addr];
      if p.assignedTo >= 0 || p.peerChoking { return; }
      if endgame {
        AssignAnyMissingTo(addr, now);
        return;
      }
      var index, found := SelectPieceFor(p.have, random);
      if found {
        var _ := AssignPiece(addr, index, now);
      }
    }

    // ----- peers coming and going -----

    method RemoveAssigneeOf(index: int, addr: Addr)
      requires Valid()
      modifies this`assignments
      ensures Valid() && View() == RemoveAssignee(old(View()), index, addr)
    {
      if index !in assignments { return; }
      var list := assignments[index];
      assert list[0..] == list;
      for i := 0 to |list|
        invariant forall k :: 0 <= k < i ==> list[k].addr != addr
        invariant RemoveFirst(list, addr) == list[..i] + RemoveFirst(list[i..], addr)
      {
        if list[i].addr == addr {
          assert list[i..][1..] == list[i + 1..];
          assignments := assignments[index := list[..i] + list[i + 1..]];
          return;
        }
        assert list[i..] == [list[i]] + list[i + 1..];
      }
    }

    /** Shared by a failed piece and a departing peer: a list left empty puts its piece back to missing. */
    method ReleaseAssignee(index: int, addr: Addr)
      requires Valid() && 0 <= index < |pieces|
      modifies this`pieces, this`assignments
      ensures Valid() && View() == Release(config, old(View()), index, addr)
    {
      RemoveAssigneeOf(index, addr);
      if index !in assignments || assignments[index] == [] {
        pieces := pieces[index := Missing];
      }
    }

    method HandlePeerLeft(addr: Addr)
      requires Valid()
      modifies this
      ensures Valid() && View() == AfterPeerLeft(config, old(View()), addr)
    {
      if addr !in peers { return; }
      var p := peers[addr];
      RemoveAvailability(p.have);
      if p.assignedTo >= 0 { ReleaseAssignee(p.assignedTo, addr); }
      if hasOptimistic && optimisticAddr == addr { hasOptimistic := false; }
      peers := peers - {addr};
    }

    method HandlePeerJoined(addr: Addr)
      requires Valid()
      modifies this
      ensures Valid() && View() == AfterPeerJoined(config, old(View()), addr)
    {
      if addr in peers { HandlePeerLeft(addr); }
      peers := peers[addr := NEW_PEER];
    }

    method HandleBitfieldReceived(addr: Addr, bits: set<int>, random: int -> nat, now: int) returns (ghost pick: int)
      requires Valid()
      modifies this
      ensures Valid() && View() == AfterBitfieldReceived(config, old(View()), addr, bits, pick, now)
      ensures addr in old(peers) && !old(peers)[addr].gotBitfield ==>
        Drawn(BitfieldCounted(config, old(View()), addr, bits), addr, pick)
    {
      hide CoordinatorState.TryAssign, Drawn;
      pick := -1;
      if addr !in peers || peers[addr].gotBitfield { return; }
      ghost var counted, counts := peers[addr].have, overwritten;
      overwritten := seq(|counts|, i requires 0 <= i < |counts| => counts[i] + if i in counted then 1 else 0);
      peers := peers[addr := peers[addr].(gotBitfield := true, have := bits, shared := true)];
      AddAvailability(bits);
      assert View() == BitfieldCounted(config, old(View()), addr, bits);
      pick := TryAssign(addr, random, now);
    }

    /** What the worker that shares the accepted bitfield does to it when it reads a have. */
    method WorkerWritesBit(addr: Addr, index: int)
      requires Valid() && 0 <= index < |pieces|
      modifies this`peers, this`uncounted
      ensures Valid() && View() == AfterBitWritten(config, old(View()), addr, index)
    {
      if addr !in peers || !peers[addr].shared || index in peers[addr].have { return; }
      peers := peers[addr := peers[addr].(have := peers[addr].have + {index})];
      uncounted := uncounted[index := uncounted[index] + 1];
    }

    /** What becomes of the sharing when that worker reads another bitfield. */
    method WorkerReplacesBitfield(addr: Addr)
      requires Valid()
      modifies this`peers
      ensures Valid() && View() == AfterBitfieldReplaced(config, old(View()), addr)
    {
      if addr in peers { peers := peers[addr := peers[addr].(shared := false)]; }
    }

    method HandleHaveReceived(addr: Addr, index: int, random: int -> nat, now: int) returns (ghost pick: int)
      requires Valid() && 0 <= index < |pieces|
      modifies this
      ensures Valid() && View() == AfterHaveReceived(config, old(View()), addr, index, pick, now)
      ensures addr in old(peers) && index !in old(peers)[addr].have ==>
        Drawn(HaveCounted(config, old(View()), addr, index), addr, pick)
    {
      hide CoordinatorState.TryAssign, Drawn;
      pick := -1;
      if addr !in peers || index in peers[addr].have { return; }
      peers := peers[addr := peers[addr].(have := peers[addr].have + {index})];
      availability := availability[index := availability[index] + 1];
      assert View() == HaveCounted(config, old(View()), addr, index);
      pick := TryAssign(addr, random, now);
    }

    method HandleChokeReceived(addr: Addr)
      requires Valid()
      modifies this`peers
      ensures Valid() && View() == AfterChokeReceived(config, old(View()), addr)
    {
      if addr in peers { peers := peers[addr := peers[addr].(peerChoking := true)]; }
    }

    method HandleUnchokeReceived(addr: Addr, random: int -> nat, now: int) returns (ghost pick: int)
      requires Valid()
      modifies this
      ensures Valid() && View() == AfterUnchokeReceived(config, old(View()), addr, pick, now)
      ensures addr in old(peers) ==> Drawn(PeerUnchoked(config, old(View()), addr), addr, pick)
    {
      pick := -1;
      if addr !in peers { return; }
      peers := peers[addr := peers[addr].(peerChoking := false)];
      pick := TryAssign(addr, random, now);
    }

    method HandlePeerReady(addr: Addr, random: int -> nat, now: int) returns (ghost pick: int)
      requires Valid()
      modifies this
      ensures Valid() && View() == CoordinatorState.TryAssign(config, old(View()), addr, pick, now)
      ensures Drawn(old(View()), addr, pick)
    {
      pick := -1;
      if addr in peers { pick := TryAssign(addr, random, now); }
    }

    // ----- outcomes -----

    method CancelOtherAssignees(index: nat, winner: Addr)
      requires Valid()
      modifies this`peers
      ensures Valid() && peers == CancelOthers(old(peers), Assignees(old(View()), index), index, winner)
    {
      hide CancelOthers, Listed;
      CancelNone(peers, index, winner);
      if index !in assignments { return; }
      var list := assignments[index];
      assert list[..0] == [];
      for i := 0 to |list|
        invariant peers == CancelOthers(old(peers), list[..i], index, winner)
      {
        var a := list[i];
        CancelOneMore(old(peers), list, i, index, winner);
        if a.addr != winner && a.addr in peers {
          var p := peers[a.addr];
          if p.commands.HasRoom() { p := p.(commands := p.commands.Send(CancelPiece(index))); }
          if p.assignedTo == index { p := p.(assignedTo := -1); }
          peers := peers[a.addr := p];
        }
      }
      assert list[..|list|] == list;
    }

    method HandlePieceDownloaded(addr: Addr, index: int, data: Bytes, delivered: bool)
      requires Valid() && 0 <= index < |pieces|
      modifies this
      ensures Valid() && View() == AfterPieceDownloaded(config, old(View()), addr, index, data, delivered)
    {
      hide CancelOthers, Listed, Cancelled;
      if pieces[index] == Complete { return; }
      pieces := pieces[index := Complete];
      CancelOtherAssignees(index, addr);
      assignments := assignments - {index};
      assert View() == Finish(old(View()), addr, index);
      hide Finish;
      if addr in peers { peers := peers[addr := peers[addr].(assignedTo := -1)]; }
      if delivered { results := results + [PieceResult(index, data)]; }
    }

    method HandlePieceFailed(addr: Addr, index: int)
      requires Valid() && 0 <= index < |pieces|
      modifies this
      ensures Valid() && View() == AfterPieceFailed(config, old(View()), addr, index)
    {
      ReleaseAssignee(index, addr);
      if addr in peers { peers := peers[addr := peers[addr].(assignedTo := -1)]; }
    }

    // ----- the one-second timer -----

    method RemainingPieceCount() returns (n: nat)
      requires Valid()
      ensures n == |Incomplete(pieces)|
    {
      n := 0;
      ghost var seen: set<int> := {};
      for i := 0 to |pieces|
        invariant seen == (set k | 0 <= k < i && pieces[k] != Complete) && n == |seen|
      {
        if pieces[i] != Complete {
          n := n + 1;
          seen := seen + {i};
        }
      }
      assert seen == Incomplete(pieces);
    }

    /** Keeps the assignees of one piece that have not timed out, and idles the others. */
    method KeepFresh(index: nat, now: int) returns (kept: seq<Assignment>)
      requires Valid() && index in assignments
      modifies this`peers
      ensures Valid() && kept == Kept(assignments[index], now)
      ensures peers == FreedFrom(old(peers), assignments[index], index, now)
    {
      var list := assignments[index];
      kept := [];
      assert peers == FreedFrom(peers, [], index, now);
      for i := 0 to |list|
        invariant kept == Kept(list[..i], now)
        invariant peers == FreedFrom(old(peers), list[..i], index, now)
      {
        var a := list[i];
        FreedOneMore(old(peers), list, i, index, now);
        if Fresh(a, now) {
          kept := kept + [a];
        } else if a.addr in peers && peers[a.addr].assignedTo == index {
          peers := peers[a.addr := peers[a.addr].(assignedTo := -1)];
        }
      }
      assert list[..|list|] == list;
    }

    method StoreKept(index: nat, kept: seq<Assignment>)
      requires Valid() && index in assignments
      modifies this`pieces, this`assignments
      ensures Valid()
      ensures pieces == if |kept| == 0 then old(pieces)[index := Missing] else old(pieces)
      ensures assignments == if |kept| == 0 then old(assignments) - {index} else old(assignments)[index := kept]
    {
      if |kept| == 0 {
        pieces := pieces[index := Missing];
        assignments := assignments - {index};
      } else {
        assignments := assignments[index := kept];
      }
    }

    method FreeStaleAssignments(now: int)
      requires Valid()
      modifies this`pieces, this`peers, this`assignments
      ensures Valid() && View() == FreeStale(config, old(View()), now)
    {
      hide PartlyFreed, FreedFrom, FreeStale, Kept, Assignees, HasStale, Freed, AllStale;
      ghost var before := View();
      var todo := assignments.Keys;
      ghost var done: set<nat> := {};
      NoneFreed(config, before, now);
      while todo != {}
        invariant Valid() && todo <= before.assignments.Keys && done == before.assignments.Keys - todo
        invariant View() == PartlyFreed(config, before, done, now)
        decreases |todo|
      {
        var index: nat :| index in todo;
        FreeOneMore(config, before, done, index, now);
        var list := assignments[index];
        var kept := KeepFresh(index, now);
        if |kept| != |list| { StoreKept(index, kept); }
        todo, done := todo - {index}, done + {index};
      }
      AllFreed(config, before, done, now);
    }

    method MaybeEnterEndgame(now: int) returns (ghost order: seq<Addr>)
      requires Valid()
      modifies this`pieces, this`peers, this`assignments, this`endgame
      ensures Valid() && View() == CoordinatorState.MaybeEnterEndgame(config, old(View()), order, now)
      ensures Visits(order, old(peers).Keys)
    {
      order := AnyOrder(peers.Keys);
      if endgame { return; }
      var remaining := RemainingPieceCount();
      if remaining == 0 || remaining > ENDGAME_THRESHOLD { return; }
      endgame := true;
      order := OfferToEveryone(now);
    }

    method OfferToEveryone(now: int) returns (ghost order: seq<Addr>)
      requires Valid()
      modifies this`pieces, this`peers, this`assignments
      ensures Valid() && View() == AssignAnyAll(config, old(View()), order, now)
      ensures Visits(order, old(peers).Keys)
    {
      hide AssignAny, AssignAnyAll, Shape, Visits;
      NoOffers(config, View(), now);
      order := [];
      var todo := peers.Keys;
      VisitNone();
      assert peers.Keys - todo == {};
      while todo != {}
        invariant Valid() && peers.Keys == old(peers).Keys && todo <= peers.Keys
        invariant Visits(order, peers.Keys - todo)
        invariant View() == AssignAnyAll(config, old(View()), order, now)
        decreases |todo|
      {
        var addr :| addr in todo;
        AssignAnyMissingTo(addr, now);
        OneMoreOffer(config, old(View()), order, addr, now);
        VisitOneMore(order, peers.Keys - todo, addr);
        assert peers.Keys - (todo - {addr}) == peers.Keys - todo + {addr};
        order := order + [addr];
        todo := todo - {addr};
      }
      assert peers.Keys - todo == old(peers).Keys;
    }

    method AssignIdlePeers(random: Addr -> int -> nat, now: int) returns (ghost turns: seq<Turn>)
      requires Valid()
      modifies this`pieces, this`peers, this`assignments
      ensures Valid() && View() == AssignIdle(config, old(View()), turns, now)
      ensures Visits(Addrs(turns), old(peers).Keys) && TurnsDrawn(config, old(View()), turns, now)
    {
      hide CoordinatorState.TryAssign, AssignIdle, TurnsDrawn, Drawn, Addrs, Shape, Visits;
      NoTurns(config, View(), now);
      turns := [];
      var todo := peers.Keys;
      VisitNone();
      assert peers.Keys - todo == {};
      while todo != {}
        invariant Valid() && peers.Keys == old(peers).Keys && todo <= peers.Keys
        invariant Visits(Addrs(turns), peers.Keys - todo)
        invariant View() == AssignIdle(config, old(View()), turns, now)
        invariant TurnsDrawn(config, old(View()), turns, now)
        decreases |todo|
      {
        var addr :| addr in todo;
        ghost var pick := TryAssign(addr, random(addr), now);
        OneMoreTurn(config, old(View()), turns, Turn(addr, pick), now);
        VisitOneMore(Addrs(turns), peers.Keys - todo, addr);
        assert peers.Keys - (todo - {addr}) == peers.Keys - todo + {addr};
        turns := turns + [Turn(addr, pick)];
        todo := todo - {addr};
      }
      assert peers.Keys - todo == old(peers).Keys;
    }

    method Tick(random: Addr -> int -> nat, now: int) returns (ghost order: seq<Addr>, ghost turns: seq<Turn>)
      requires Valid()
      modifies this`pieces, this`peers, this`assignments, this`endgame
      ensures Valid() && View() == CoordinatorState.Tick(config, old(View()), order, turns, now)
      ensures Visits(order, old(peers).Keys) && Visits(Addrs(turns), old(peers).Keys)
      ensures TurnsDrawn(config,
        CoordinatorState.MaybeEnterEndgame(config, FreeStale(config, old(View()), now), order, now), turns, now)
    {
      FreeStaleAssignments(now);
      order := MaybeEnterEndgame(now);
      turns := AssignIdlePeers(random, now);
    }

    // ----- choking -----

    method SetChoked(addr: Addr, choked: bool)
      requires Valid() && addr in peers
      modifies this`peers, this`refused
      ensures Valid() && View() == CoordinatorState.SetChoked(config, old(View()), addr, choked)
      ensures peers == old(peers)[addr := Rechoke(old(peers)[addr], choked)]
      ensures refused == (old(refused) || Refuses(old(peers)[addr], choked))
    {
      var p := peers[addr];
      assert peers[addr := p] == peers;
      ghost var q := Rechoke(p, choked);
      assert !p.commands.HasRoom() || p.choked == choked ==> q == p;
      if p.choked == choked { return; }
      var command := if choked then ChokePeer else UnchokePeer;
      if p.commands.HasRoom() {
        assert q == p.(commands := p.commands.Send(command), choked := choked);
        peers := peers[addr := p.(commands := p.commands.Send(command), choked := choked)];
      } else {
        refused := true;
      }
    }

    method HandleInterestedReceived(addr: Addr)
      requires Valid()
      modifies this`peers
      ensures Valid() && View() == AfterInterestedReceived(config, old(View()), addr)
    {
      if addr in peers { peers := peers[addr := peers[addr].(interested := true)]; }
    }

    method HandleNotInterestedReceived(addr: Addr)
      requires Valid()
      modifies this
      ensures Valid() && View() == AfterNotInterestedReceived(config, old(View()), addr)
    {
      hide Rechoke, Refuses;
      if addr !in peers { return; }
      peers := peers[addr := peers[addr].(interested := false)];
      SetChoked(addr, true);
      if hasOptimistic && optimisticAddr == addr { hasOptimistic := false; }
    }

    /** The interested peers with their captured rates; everyone else is choked on the way. */
    method ChokeUninterested(rates: map<Addr, real>) returns (candidates: seq<Candidate>)
      requires Valid()
      modifies this`peers, this`refused
      ensures Valid() && DistinctCandidates(candidates) && AddrsOf(candidates) == InterestedPeers(old(View()))
      ensures forall c :: c in candidates ==> c.rate == Rate(rates, c.addr)
      ensures peers == RechokedUpTo(old(peers), Uninterested(old(peers)), {})
      ensures refused == (old(refused) || RefusedIn(old(peers), Uninterested(old(peers)), {}))
    {
      hide RechokedUpTo, RefusedIn, AddrsOf, DistinctCandidates, Shape, CoordinatorState.SetChoked;
      candidates := [];
      var todo := peers.Keys;
      ghost var asked: set<Addr> := {};
      RechokeNone(peers, {});
      NoCandidates();
      while todo != {}
        invariant Valid() && peers.Keys == old(peers).Keys && todo <= peers.Keys
        invariant forall a :: a in asked <==> a in peers && a !in todo && !old(peers)[a].interested
        invariant forall a :: a in AddrsOf(candidates) <==> a in peers && a !in todo && old(peers)[a].interested
        invariant peers == RechokedUpTo(old(peers), asked, {})
        invariant refused == (old(refused) || RefusedIn(old(peers), asked, {}))
        invariant DistinctCandidates(candidates)
        invariant forall c :: c in candidates ==> c.rate == Rate(rates, c.addr)
        decreases |todo|
      {
        var addr :| addr in todo;
        RechokeOneMore(old(peers), asked, addr, {});
        if !peers[addr].interested {
          SetChoked(addr, true);
          asked := asked + {addr};
        } else {
          CollectOneMore(candidates, Candidate(addr, Rate(rates, addr)));
          candidates := candidates + [Candidate(addr, Rate(rates, addr))];
        }
        todo := todo - {addr};
      }
      assert asked == Uninterested(old(peers));
      assert AddrsOf(candidates) == InterestedPeers(old(View()));
    }

    /** The regular slots and whoever holds the optimistic one; a holder that lost interest or left loses it. */
    method WithOptimistic(regular: set<Addr>) returns (unchoked: set<Addr>)
      requires Valid()
      modifies this`hasOptimistic
      ensures Valid() && unchoked == UnchokeSet(old(View()), regular)
      ensures hasOptimistic == KeepsOptimistic(old(View()))
    {
      unchoked := regular;
      if hasOptimistic {
        if optimisticAddr in peers && peers[optimisticAddr].interested {
          unchoked := unchoked + {optimisticAddr};
        } else {
          hasOptimistic := false;
        }
      }
    }

    /** Chokes the uninterested and lists the interested, best rate first. */
    method RankInterested(rates: map<Addr, real>) returns (candidates: seq<Candidate>)
      requires Valid()
      modifies this`peers, this`refused
      ensures Valid() && DistinctCandidates(candidates) && AddrsOf(candidates) == InterestedPeers(old(View()))
      ensures var top := AddrsOf(candidates[..if |candidates| < UNCHOKE_SLOTS then |candidates| else UNCHOKE_SLOTS]);
        BestByRate(old(View()), rates, top) && top <= InterestedPeers(old(View()))
      ensures peers == RechokedUpTo(old(peers), Uninterested(old(peers)), {})
      ensures refused == (old(refused) || RefusedIn(old(peers), Uninterested(old(peers)), {}))
    {
      hide RechokedUpTo, RefusedIn, AddrsOf, DistinctCandidates, SortedByRate, BestByRate, Shape, Uninterested,
           InterestedPeers;
      candidates := ChokeUninterested(rates);
      candidates := SortByRate(candidates);
      TopOfSorted(old(View()), rates, candidates);
    }

    method RecalcChoke(down: map<Addr, real>, up: map<Addr, real>) returns (ghost regular: set<Addr>)
      requires Valid()
      modifies this`peers, this`refused, this`hasOptimistic
      ensures Valid() && BestByRate(old(View()), Measured(old(View()), down, up), regular)
      ensures (exists i :: 0 <= i < |pieces| && pieces[i] != Complete) ==> BestByRate(old(View()), down, regular)
      ensures (forall i :: 0 <= i < |pieces| ==> pieces[i] == Complete) ==> BestByRate(old(View()), up, regular)
      ensures View() == CoordinatorState.RecalcChoke(config, old(View()), regular)
    {
      hide RechokedUpTo, RefusedIn, CoordinatorState.RecalcChoke, AddrsOf, DistinctCandidates, SortedByRate,
           BestByRate, Shape, Uninterested, InterestedPeers, Incomplete, UnchokeSet, KeepsOptimistic, Rate;
      ghost var before := View();
      var remaining := RemainingPieceCount();
      NoneIncomplete(pieces);
      var rates := if remaining == 0 then up else down;
      var candidates := RankInterested(rates);
      var slots := RegularSlots(candidates);
      UnchokeBest(candidates, slots, before);
      regular := slots;
    }

    /** Unchokes the regular slots and the optimistic one, and chokes every other candidate. */
    method UnchokeBest(candidates: seq<Candidate>, slots: set<Addr>, ghost before: State)
      requires Valid() && DistinctCandidates(candidates) && AddrsOf(candidates) == InterestedPeers(before)
      requires Shape(config, before) && slots <= InterestedPeers(before)
      requires View() == before.(peers := peers, refused := refused)
      requires peers == RechokedUpTo(before.peers, Uninterested(before.peers), {})
      requires refused == (before.refused || RefusedIn(before.peers, Uninterested(before.peers), {}))
      modifies this`peers, this`refused, this`hasOptimistic
      ensures Valid() && View() == CoordinatorState.RecalcChoke(config, before, slots)
    {
      hide RechokedUpTo, RefusedIn, CoordinatorState.RecalcChoke, AddrsOf, DistinctCandidates, Shape, Uninterested,
           InterestedPeers, UnchokeSet, KeepsOptimistic;
      RechokeAll(before, slots);
      SameUnchokeSet(before, View(), slots);
      var unchoked := WithOptimistic(slots);
      RechokeCandidates(candidates, unchoked, before);
      EveryoneRechoked(config, before, View(), slots);
    }

    /** The first UNCHOKE_SLOTS of the sorted candidates, or all of them. */
    method RegularSlots(candidates: seq<Candidate>) returns (unchoked: set<Addr>)
      ensures unchoked ==
        AddrsOf(candidates[..if |candidates| < UNCHOKE_SLOTS then |candidates| else UNCHOKE_SLOTS])
    {
      unchoked := {};
      var slots := if |candidates| < UNCHOKE_SLOTS then |candidates| else UNCHOKE_SLOTS;
      for i := 0 to slots
        invariant unchoked == AddrsOf(candidates[..i])
      {
        assert candidates[..i + 1] == candidates[..i] + [candidates[i]];
        unchoked := unchoked + {candidates[i].addr};
      }
    }

    method RechokeCandidates(candidates: seq<Candidate>, unchoked: set<Addr>, ghost before: State)
      requires Valid() && DistinctCandidates(candidates) && AddrsOf(candidates) == InterestedPeers(before)
      requires peers == RechokedUpTo(before.peers, Uninterested(before.peers), unchoked)
      requires refused == (before.refused || RefusedIn(before.peers, Uninterested(before.peers), unchoked))
      modifies this`peers, this`refused
      ensures Valid()
      ensures peers == RechokedUpTo(before.peers, Uninterested(before.peers) + InterestedPeers(before), unchoked)
      ensures refused == (before.refused ||
        RefusedIn(before.peers, Uninterested(before.peers) + InterestedPeers(before), unchoked))
    {
      hide RechokedUpTo, RefusedIn, Rechoke, Refuses, DistinctCandidates, AddrsOf, Uninterested, InterestedPeers, Shape,
           CoordinatorState.SetChoked;
      ghost var done := Uninterested(before.peers);
      NoCandidates();
      assert candidates[..0] == [] && done + {} == done;
      for i := 0 to |candidates|
        invariant Valid() && done == Uninterested(before.peers) + AddrsOf(candidates[..i])
        invariant peers == RechokedUpTo(before.peers, done, unchoked)
        invariant refused == (before.refused || RefusedIn(before.peers, done, unchoked))
      {
        var addr := candidates[i].addr;
        NotYetSeen(before, candidates, i);
        RechokeOneMore(before.peers, done, addr, unchoked);
        SetChoked(addr, addr !in unchoked);
        done := done + {addr};
      }
      assert candidates[..|candidates|] == candidates;
    }

    method RotateOptimistic(choice: nat) returns (ghost optimistic: Option<Addr>)
      requires Valid()
      modifies this`peers, this`refused, this`hasOptimistic, this`optimisticAddr
      ensures Valid() && if OptimisticCandidates(config, old(View())) == {} then optimistic == None
        else optimistic.Some? && optimistic.value in OptimisticCandidates(config, old(View()))
      ensures View() == CoordinatorState.RotateOptimistic(config, old(View()), optimistic)
    {
      hide Rechoke, Refuses;
      var previous, hadPrevious := optimisticAddr, hasOptimistic;
      if hadPrevious && previous in peers { SetChoked(previous, true); }
      hasOptimistic := false;
      assert View() == ReleaseOptimistic(config, old(View()));
      ghost var eligible := OptimisticCandidates(config, old(View()));
      var candidates := EligibleForOptimistic(hadPrevious, previous, eligible);
      if |candidates| == 0 {
        assert eligible == {};
        return None;
      }
      var addr := candidates[choice % |candidates|];
      assert addr in candidates && addr in eligible;
      optimisticAddr, hasOptimistic := addr, true;
      SetChoked(addr, false);
      return Some(addr);
    }

    /** Everyone the optimistic slot may go to, in whatever order they are found. */
    method EligibleForOptimistic(hadPrevious: bool, previous: Addr, ghost eligible: set<Addr>)
      returns (candidates: seq<Addr>)
      requires forall a :: a in eligible <==>
        a in peers && peers[a].interested && peers[a].choked && !(hadPrevious && a == previous)
      ensures forall a :: a in candidates <==> a in eligible
    {
      candidates := [];
      var todo := peers.Keys;
      while todo != {}
        invariant todo <= peers.Keys
        invariant forall a :: a in candidates <==> a in eligible && a !in todo
        decreases |todo|
      {
        var addr :| addr in todo;
        var p := peers[addr];
        if p.interested && p.choked && !(hadPrevious && addr == previous) {
          candidates := candidates + [addr];
        }
        todo := todo - {addr};
      }
    }

    // ----- the event loop -----

    /** The step an event stands for is taken, with a piece that the random draws settle on where work is offered. */
    method Handle(event: Event, random: int -> nat, now: int, delivered: bool) returns (ghost pick: int)
      requires Valid() && Reportable(event, |pieces|)
      modifies this
      ensures Valid() && Enabled(config, old(View()), StepFor(event, pick, now, delivered, {}))
      ensures View() == Next(config, old(View()), StepFor(event, pick, now, delivered, {}))
    {
      hide CoordinatorState.TryAssign, AfterPeerLeft, AfterPeerJoined, CoordinatorState.Tick, AfterPieceDownloaded,
           AfterPieceFailed, AfterBitfieldReceived, AfterHaveReceived, AfterUnchokeReceived, AfterInterestedReceived,
           AfterNotInterestedReceived, AfterChokeReceived, BitfieldCounted, HaveCounted, PeerUnchoked, Drawn, Visits,
           TurnsDrawn, BestByRate, OptimisticCandidates;
      pick := -1;
      match event
      case PeerJoined(addr) => HandlePeerJoined(addr);
      case BitfieldReceived(addr, bits) =>
        assert bits + {} == bits;
        pick := HandleBitfieldReceived(addr, bits, random, now);
      case HaveReceived(addr, index) => pick := HandleHaveReceived(addr, index, random, now);
      case PieceDownloaded(addr, index, data) => HandlePieceDownloaded(addr, index, data, delivered);
      case PieceFailed(addr, index) => HandlePieceFailed(addr, index);
      case PeerReady(addr) => pick := HandlePeerReady(addr, random, now);
      case PeerLeft(addr) => HandlePeerLeft(addr);
      case InterestedReceived(addr) => HandleInterestedReceived(addr);
      case NotInterestedReceived(addr) => HandleNotInterestedReceived(addr);
      case ChokeReceived(addr) => HandleChokeReceived(addr);
      case UnchokeReceived(addr) => pick := HandleUnchokeReceived(addr, random, now);
    }

    /** What the three timers do. */
    method OnTimer(timer: Timer, random: Addr -> int -> nat, now: int) returns (ghost step: Step)
      requires Valid()
      modifies this
      ensures Valid() && Enabled(config, old(View()), step)
      ensures View() == Next(config, old(View()), step)
      ensures match timer
        case TickTimer => step.Ticked? && step.now == now
        case ChokeTimer(down, up) => step.Rechoked? && step.down == down && step.up == up
        case OptimisticTimer(_) => step.Rotated?
    {
      match timer
      case TickTimer =>
        ghost var order, turns := Tick(random, now);
        step := Ticked(order, turns, now);
      case ChokeTimer(down, up) =>
        ghost var regular := RecalcChoke(down, up);
        step := Rechoked(down, up, regular);
      case OptimisticTimer(choice) =>
        ghost var optimistic := RotateOptimistic(choice);
        step := Rotated(optimistic);
    }
  }
}
