/** Which requests are out while a piece is being downloaded: never more than five unanswered, never none while the peer
    would answer, and after a choke everything that had not come is asked for again. */
module Backlog {
  import opened Base
  import opened Assembly
  import opened Causality
  import opened Connection
  import opened Geometry
  import opened Sets
  import opened Session
  import opened Wire

  // ----- requests, byte for byte -----

  /** The request for block b of a piece of that length: blocks are 16 KiB, the last one what is left. */
  lemma {:induction false} RequestOnTheWire(w: Work, b: nat)
    requires w.length > 0 && b < Blocks(w) && w.index < U32 && w.length <= U32
    ensures b * 16384 < w.length && (b == Blocks(w) - 1 <==> w.length <= (b + 1) * 16384)
    ensures var length := if w.length <= (b + 1) * 16384 then w.length - b * 16384 else 16384;
      Serialize(AskFor(w, b)) ==
        [0, 0, 0, 13, 6] + ToBigEndian(w.index) + ToBigEndian(b * 16384) + ToBigEndian(length)
  {
    hide ToBigEndian;
    SlotInside(w, b);
    LastPiece(OfBlocks(w.length));
    PieceInside(OfBlocks(w.length), b);
    MessagesOnTheWire(w.index, Slot(w, b).0, Slot(w, b).1, []);
  }

  // ----- what is owed -----

  /** The missing blocks that a message from a point on asks for. */
  ghost function Owed(w: Work, a: Partial, mark: nat): set<int>
    requires Shape(w, a) && mark <= |a.link.sent|
  {
    set b | 0 <= b < |a.received| && !a.received[b] && AskFor(w, b) in a.link.sent[mark..]
  }

  /** Every block in flight has been asked for since then. */
  ghost predicate AskedSince(w: Work, a: Partial, mark: nat)
    requires Shape(w, a)
  {
    mark <= |a.link.sent| && InFlight(a) <= Owed(w, a, mark)
  }

  lemma {:induction false} AskingIsSince(w: Work, a: Partial, mark: nat, next: nat)
    requires Shape(w, a) && next < |a.requested| && Write(a.link, AskFor(w, next)).1 && AskedSince(w, a, mark)
    ensures AskedSince(w, Asking(w, a, next), mark)
  {
    hide AskFor, Blocks;
    var r := Asking(w, a, next);
    assert r.link.sent[mark..] == a.link.sent[mark..] + [AskFor(w, next)];
    forall b | b in InFlight(r) ensures b in Owed(w, r, mark) {
      if b != next {
        assert b in InFlight(a);
        assert b in Owed(w, a, mark);
      }
    }
  }

  /** More has been sent and nothing else is in flight. */
  lemma {:induction false} StillSince(w: Work, a: Partial, r: Partial, mark: nat)
    requires Shape(w, a) && Shape(w, r) && AskedSince(w, a, mark)
    requires a.link.sent <= r.link.sent && InFlight(r) <= InFlight(a)
    ensures AskedSince(w, r, mark)
  {
    hide AskFor, Blocks;
    forall b | b in InFlight(r) ensures b in Owed(w, r, mark) {
      assert b in Owed(w, a, mark);
      assert a.link.sent[mark..] <= r.link.sent[mark..];
    }
  }

  lemma {:induction false} FillIsSince(w: Work, a: Partial, mark: nat)
    requires Shape(w, a) && AskedSince(w, a, mark)
    ensures AskedSince(w, Fill(w, a).0, mark)
    decreases BACKLOG_LIMIT - a.outstanding
  {
    hide AskFor, Blocks, AskedSince;
    var next := NextUnrequested(a.requested);
    if !a.link.peerChoking && a.outstanding < BACKLOG_LIMIT && next != -1 {
      if Write(a.link, AskFor(w, next)).1 {
        AskingIsSince(w, a, mark, next);
        FillIsSince(w, Asking(w, a, next), mark);
      } else {
        StillSince(w, a, Fill(w, a).0, mark);
      }
    }
  }

  lemma {:induction false} InputIsSince(w: Work, a: Partial, input: Input, mark: nat)
    requires Shape(w, a) && AskedSince(w, a, mark)
    ensures AskedSince(w, AfterInput(w, a, input).0, mark)
  {
    InputGrows(w, a, input);
    InFlightShrinks(w, a, input);
    StillSince(w, a, AfterInput(w, a, input).0, mark);
  }

  lemma {:induction false} InFlightShrinks(w: Work, a: Partial, input: Input)
    requires Shape(w, a)
    ensures InFlight(AfterInput(w, a, input).0) <= InFlight(a)
    ensures Says(input, CHOKE) ==> InFlight(AfterInput(w, a, input).0) == {}
    ensures Says(input, CHOKE) ==> AfterInput(w, a, input).0.link.sent == a.link.sent
  {
    hide HandleMessage, ApplyCommand, ParsePiece, Blocks;
  }

  lemma {:induction false} RunIsSince(w: Work, a: Partial, inputs: seq<Input>, mark: nat)
    requires Shape(w, a) && AskedSince(w, a, mark)
    ensures AskedSince(w, Run(w, a, inputs).partial, mark)
    decreases |inputs|
  {
    hide Fill, AfterInput, AskedSince;
    if a.remaining > 0 {
      FillIsSince(w, a, mark);
      var filled := Fill(w, a).0;
      if Fill(w, a).1 && inputs != [] {
        InputIsSince(w, filled, inputs[0], mark);
        var (next, failure) := AfterInput(w, filled, inputs[0]);
        if failure == None { RunIsSince(w, next, inputs[1..], mark); }
      }
    }
  }

  // ----- a piece, cut in two -----

  lemma {:induction false} FillingTwice(w: Work, a: Partial)
    requires Shape(w, a) && Fill(w, a).1
    ensures Fill(w, Fill(w, a).0) == Fill(w, a)
    decreases BACKLOG_LIMIT - a.outstanding
  {
    hide AskFor, Blocks;
    var next := NextUnrequested(a.requested);
    if !a.link.peerChoking && a.outstanding < BACKLOG_LIMIT && next != -1 {
      FillingTwice(w, Asking(w, a, next));
    }
  }

  /** More input finds a waiting piece where it was left. */
  lemma {:induction false} RunSplits(w: Work, a: Partial, first: seq<Input>, later: seq<Input>)
    requires Shape(w, a) && Run(w, a, first).Waiting?
    ensures Run(w, a, first + later) == Run(w, Run(w, a, first).partial, later)
    decreases |first|
  {
    hide Fill, AfterInput;
    if first == [] {
      assert first + later == later;
      FillingTwice(w, a);
    } else {
      assert (first + later)[0] == first[0] && (first + later)[1..] == first[1..] + later;
      RunSplits(w, AfterInput(w, Fill(w, a).0, first[0]).0, first[1..], later);
    }
  }

  lemma {:induction false} WaitingIsFilled(w: Work, a: Partial, inputs: seq<Input>)
    requires Shape(w, a) && Run(w, a, inputs).Waiting?
    ensures Fill(w, Run(w, a, inputs).partial) == (Run(w, a, inputs).partial, true)
    decreases |inputs|
  {
    hide Fill, AfterInput;
    if inputs == [] { FillingTwice(w, a); }
    else { WaitingIsFilled(w, AfterInput(w, Fill(w, a).0, inputs[0]).0, inputs[1..]); }
  }

  // ----- waiting -----

  /** Some missing block has been asked for since then, and five of them or all of them have. */
  ghost predicate Busy(w: Work, a: Partial, mark: nat)
    requires Shape(w, a)
  {
    && mark <= |a.link.sent|
    && Owed(w, a, mark) != {}
    && (|Owed(w, a, mark)| >= 5 || Owed(w, a, mark) == Unreceived(a))
  }

  lemma {:induction false} InFlightIsBusy(w: Work, a: Partial, mark: nat)
    requires Shape(w, a) && Sound(w, a) && AskedSince(w, a, mark) && InFlight(a) != {}
    requires a.outstanding == BACKLOG_LIMIT || Unrequested(a) == {}
    ensures Busy(w, a, mark)
  {
    hide AskFor, Blocks;
    var owed := Owed(w, a, mark);
    SubsetSize(InFlight(a), owed);
    if Unrequested(a) == {} {
      forall b | b in Unreceived(a) ensures b in owed {
        assert b !in Unrequested(a);
        assert b in InFlight(a);
      }
      assert owed == Unreceived(a);
    }
  }

  /** While a piece waits for a peer whose last word was to let us download, requests sent since the piece began are out
      for five of the missing blocks, or for all of them. */
  lemma {:induction false} WaitingIsBusy(w: Work, l: Link, inputs: seq<Input>)
    requires w.length > 0 && Run(w, Begin(w, l), inputs).Waiting? && !LastSaid(l.peerChoking, inputs)
    ensures Busy(w, Run(w, Begin(w, l), inputs).partial, |l.sent|)
  {
    hide Run, Sound, LastSaid, AskFor;
    BeginIsSound(w, l);
    NeverIdle(w, Begin(w, l), inputs);
    assert InFlight(Begin(w, l)) == {};
    RunIsSince(w, Begin(w, l), inputs, |l.sent|);
    InFlightIsBusy(w, Run(w, Begin(w, l), inputs).partial, |l.sent|);
  }

  /** And after a choke what counts is what has been asked for since: requests from before it are not relied on. */
  lemma {:induction false} AsksAgainAfterChoke(
    w: Work, l: Link, before: seq<Input>, choke: Input, after: seq<Input>)
    requires w.length > 0 && Says(choke, CHOKE)
    requires Run(w, Begin(w, l), before + [choke] + after).Waiting?
    requires !LastSaid(l.peerChoking, before + [choke] + after)
    ensures Busy(w, Run(w, Begin(w, l), before + [choke] + after).partial,
                 |Run(w, Begin(w, l), before).partial.link.sent|)
  {
    hide Run, Sound, LastSaid, AskFor, AskedSince, InFlight, Begin;
    var a, all := Begin(w, l), before + [choke] + after;
    assert all == before + ([choke] + after);
    BeginIsSound(w, l);
    BeginLinks(w, l);
    NeverIdle(w, a, all);
    RunContinues(w, a, before, [choke] + after);
    var p := Run(w, a, before).partial;
    RunSplits(w, a, before, [choke] + after);
    WaitingIsFilled(w, a, before);
    AfterChokeNothingIsOut(w, p, choke, after);
    InFlightIsBusy(w, Run(w, a, all).partial, |p.link.sent|);
  }

  lemma {:induction false} AfterChokeNothingIsOut(w: Work, p: Partial, choke: Input, after: seq<Input>)
    requires Shape(w, p) && Says(choke, CHOKE) && Fill(w, p) == (p, true)
    requires Run(w, p, [choke] + after).Waiting?
    ensures AskedSince(w, Run(w, p, [choke] + after).partial, |p.link.sent|)
  {
    hide AfterInput, Fill;
    var next := AfterInput(w, p, choke).0;
    InFlightShrinks(w, p, choke);
    assert ([choke] + after)[1..] == after;
    RunIsSince(w, next, after, |p.link.sent|);
  }

  // ----- how many are unanswered -----

  function Answers(inputs: seq<Input>): nat {
    if inputs == [] then 0 else (if Says(inputs[0], PIECE) then 1 else 0) + Answers(inputs[1..])
  }

  lemma {:induction false} FillCountsRequests(w: Work, a: Partial)
    requires Shape(w, a)
    ensures var r := Fill(w, a).0;
      Requests(r.link.sent) - r.outstanding == Requests(a.link.sent) - a.outstanding
    decreases BACKLOG_LIMIT - a.outstanding
  {
    hide AskFor, Blocks, Requests, Unrequested;
    var next := NextUnrequested(a.requested);
    if !a.link.peerChoking && a.outstanding < BACKLOG_LIMIT && next != -1 {
      if Write(a.link, AskFor(w, next)).1 {
        AskingSpends(w, a, next);
        FillCountsRequests(w, Asking(w, a, next));
      }
    }
  }

  /** A block for this piece answers one request, whether or not it had come before; a choke drops them all; and nothing
      else that arrives answers or drops any. */
  lemma {:induction false} InputAnswersOne(w: Work, a: Partial, input: Input)
    requires Shape(w, a) && a.outstanding >= 0
    ensures AfterInput(w, a, input).0.outstanding ==
      if Says(input, CHOKE) then 0
      else if Carried(w, a.link.pieceCount, input).Some? && a.outstanding > 0 then a.outstanding - 1
      else a.outstanding
    ensures Requests(AfterInput(w, a, input).0.link.sent) == Requests(a.link.sent)
  {
    hide HandleMessage, ApplyCommand, ParsePiece, Requests, Blocks;
    InputRequestsNothing(w, a, input);
  }

  lemma {:induction false} InputRequestsNothing(w: Work, a: Partial, input: Input)
    requires Shape(w, a)
    ensures Requests(AfterInput(w, a, input).0.link.sent) == Requests(a.link.sent)
  {
    hide HandleMessage, ApplyCommand, ParsePiece, Requests, Blocks, AfterBlock;
    match input
    case FromPeer(m, seed) => HandlingRequestsNothing(a.link, seed, m);
    case FromCoordinator(command) => ApplyingRequestsNothing(a.link, command);
    case _ =>
  }

  lemma {:induction false} RunCountsRequests(w: Work, a: Partial, inputs: seq<Input>)
    requires Shape(w, a) && Sound(w, a)
    ensures var r := Run(w, a, inputs).partial;
      Requests(r.link.sent) - r.outstanding <=
        Requests(a.link.sent) - a.outstanding + 5 * Chokes(inputs) + Answers(inputs)
    decreases |inputs|
  {
    hide AfterInput, Fill, Requests, Blocks, InFlight, Unreceived, IsChoke, Carried;
    if a.remaining > 0 {
      var filled := Fill(w, a).0;
      FillCountsRequests(w, a);
      FillStaysSound(w, a);
      if Fill(w, a).1 && inputs != [] {
        InputStaysSound(w, filled, inputs[0]);
        InputAnswersOne(w, filled, inputs[0]);
        var (next, failure) := AfterInput(w, filled, inputs[0]);
        AnswersAreBlocks(w, filled.link.pieceCount, inputs[0]);
        if failure == None { RunCountsRequests(w, next, inputs[1..]); }
      }
    }
  }

  lemma {:induction false} AnswersAreBlocks(w: Work, pieceCount: int, input: Input)
    requires w.length > 0
    ensures Carried(w, pieceCount, input).Some? ==> Says(input, PIECE)
    ensures IsChoke(input) <==> Says(input, CHOKE)
    ensures IsChoke(input) ==> !Says(input, PIECE)
  {
  }

  /** At most five requests are out beyond those that blocks have answered and those that chokes have dropped. */
  lemma {:induction false} UnansweredAreBounded(w: Work, l: Link, inputs: seq<Input>)
    requires w.length > 0
    ensures Requests(Run(w, Begin(w, l), inputs).partial.link.sent) <=
      Requests(l.sent) + Answers(inputs) + 5 * (1 + Chokes(inputs))
  {
    hide Run, Requests, Chokes, Answers, Blocks, InFlight, Unreceived;
    BeginIsSound(w, l);
    BeginLinks(w, l);
    NeverIdle(w, Begin(w, l), inputs);
    RunCountsRequests(w, Begin(w, l), inputs);
  }

  /** A peer that chokes us is asked for nothing until it sends an unchoke; from any point where a piece waits, too. */
  lemma {:induction false} ChokedIsNotAsked(w: Work, a: Partial, inputs: seq<Input>)
    requires Shape(w, a) && a.link.peerChoking && forall i :: 0 <= i < |inputs| ==> !Says(inputs[i], UNCHOKE)
    ensures Requests(Run(w, a, inputs).partial.link.sent) == Requests(a.link.sent)
    decreases |inputs|
  {
    hide AfterInput, Fill, Requests, Blocks, Carried, LastSaid;
    if a.remaining > 0 {
      ChokedFillsNothing(w, a);
      if inputs != [] {
        InputRequestsNothing(w, a, inputs[0]);
        InputIsHeard(w, a, inputs[0]);
        StillChoked(inputs[0]);
        var (next, failure) := AfterInput(w, a, inputs[0]);
        if failure == None { ChokedIsNotAsked(w, next, inputs[1..]); }
      }
    }
  }

  lemma {:induction false} ChokedFillsNothing(w: Work, a: Partial)
    requires Shape(w, a) && a.link.peerChoking
    ensures Fill(w, a) == (a, true)
  {
    hide AskFor, Blocks;
  }

  lemma {:induction false} StillChoked(input: Input)
    requires !Says(input, UNCHOKE)
    ensures LastSaid(true, [input])
  {
    assert [input][..0] == [];
  }
}
