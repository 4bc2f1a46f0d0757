/** How things end: what ends a piece and as what, what is said of it, and how a connection begins and ends. */
module Endings {
  import opened Base
  import opened Assembly
  import opened Bitfield
  import opened Connection
  import opened Events
  import opened Session
  import opened Wire

  // ----- a piece -----

  /** What an input ends a piece with, all by itself. A cancelled piece is cancelled by its own index only. */
  function Ending(w: Work, pieceCount: int, input: Input): Option<Failure> {
    match input
    case PeerClosed => Some(Closed)
    case TimedOut => Some(Expired)
    case CoordinatorClosed => Some(ShutDown)
    case FromCoordinator(command) =>
      if command == Shutdown then Some(ShutDown)
      else if command == CancelPiece(w.index) then Some(Cancelled)
      else None
    case FromPeer(m, _) =>
      if m.id == PIECE && ParsePiece(m.payload, pieceCount, w.length).Err? then Some(BadBlock) else None
  }

  /** The inputs used up end the piece as they should: the last of them may, none before it does, and nothing else makes
      it end that way. */
  ghost predicate EndsAs(w: Work, pieceCount: int, taken: seq<Input>, r: Outcome) {
    && (forall i :: 0 <= i < |taken| && Ending(w, pieceCount, taken[i]).Some? ==>
          r.Failed? && i == |taken| - 1 && r.failure == Ending(w, pieceCount, taken[i]).value)
    && (r.Failed? && r.failure in {Closed, BadBlock, Cancelled, Expired} ==>
          taken != [] && Ending(w, pieceCount, taken[|taken| - 1]) == Some(r.failure))
  }

  lemma {:induction false} InputEnds(w: Work, a: Partial, input: Input)
    requires Assembly.Shape(w, a)
    ensures var (r, failure) := AfterInput(w, a, input);
      && (Ending(w, a.link.pieceCount, input).Some? ==> failure == Ending(w, a.link.pieceCount, input))
      && (failure.Some? && failure.value in {Closed, BadBlock, Cancelled, Expired} ==>
            failure == Ending(w, a.link.pieceCount, input))
      && r.link.pieceCount == a.link.pieceCount
  {
    hide HandleMessage, ApplyCommand, ParsePiece, Blocks, AfterBlock;
    InputChats(w, a, input);
  }

  /** Whatever happens on the way: a piece ends with the first input that ends it, and as that input says. */
  lemma {:induction false} PieceEnds(w: Work, a: Partial, inputs: seq<Input>)
    requires Assembly.Shape(w, a)
    ensures EndsAs(w, a.link.pieceCount, Taken(inputs, Run(w, a, inputs)), Run(w, a, inputs))
    decreases |inputs|
  {
    hide Fill, AfterInput, Ending, OnlySent, EndsAs;
    var r, pieces := Run(w, a, inputs), a.link.pieceCount;
    if a.remaining > 0 {
      var (filled, sent) := Fill(w, a);
      FillOnlySends(w, a);
      SamePieceCount(a.link, filled.link);
      if sent && inputs != [] {
        var (next, failure) := AfterInput(w, filled, inputs[0]);
        InputEnds(w, filled, inputs[0]);
        assert inputs == [inputs[0]] + inputs[1..];
        if failure == None {
          PieceEnds(w, next, inputs[1..]);
          TakenOneMore(inputs[0], inputs[1..], r);
          EndsLater(w, pieces, inputs[0], Taken(inputs[1..], r), r);
        } else {
          assert Taken(inputs, r) == [inputs[0]];
          EndsNow(w, pieces, inputs[0], r);
        }
      } else {
        assert Taken(inputs, r) == [];
        NothingEnds(w, pieces, r);
      }
    } else {
      assert Taken(inputs, r) == [];
      NothingEnds(w, pieces, r);
    }
  }

  lemma {:induction false} EndsLater(w: Work, pieceCount: int, first: Input, later: seq<Input>, r: Outcome)
    requires EndsAs(w, pieceCount, later, r) && Ending(w, pieceCount, first) == None
    ensures EndsAs(w, pieceCount, [first] + later, r)
  {
    hide Ending;
    var all := [first] + later;
    forall i | 0 <= i < |all| && Ending(w, pieceCount, all[i]).Some?
      ensures r.Failed? && i == |all| - 1 && r.failure == Ending(w, pieceCount, all[i]).value
    {
      assert i > 0 && all[i] == later[i - 1];
    }
  }

  lemma {:induction false} EndsNow(w: Work, pieceCount: int, input: Input, r: Outcome)
    requires r.Failed? && (Ending(w, pieceCount, input).Some? ==> Ending(w, pieceCount, input) == Some(r.failure))
    requires r.failure in {Closed, BadBlock, Cancelled, Expired} ==> Ending(w, pieceCount, input) == Some(r.failure)
    ensures EndsAs(w, pieceCount, [input], r)
  {
    hide Ending;
  }

  lemma {:induction false} NothingEnds(w: Work, pieceCount: int, r: Outcome)
    requires r.Failed? ==> r.failure == SendFailed
    ensures EndsAs(w, pieceCount, [], r)
  {
  }

  lemma {:induction false} SamePieceCount(l: Link, r: Link)
    requires OnlySent(l, r)
    ensures r.pieceCount == l.pieceCount
  {
  }

  /** A finished piece is handed over if its hash is right and given up if not, and nothing else is a mismatch. */
  lemma {:induction false} FinishedIsJudged(sha: Bytes -> Digest, w: Work, l: Link, inputs: seq<Input>)
    requires w.length > 0
    ensures var r, fetch := Run(w, Begin(w, l), inputs), FetchPiece(sha, w, l, inputs);
      && (fetch.Fetched? <==> r.Done? && sha(r.partial.buf) == w.expectedHash)
      && (fetch.Fetched? ==> fetch.data == r.partial.buf)
      && (fetch.GaveUp? && fetch.failure == HashMismatch <==> r.Done? && sha(r.partial.buf) != w.expectedHash)
      && (r.Failed? ==> fetch == GaveUp(r.partial.link, r.failure, r.rest))
      && (r.Waiting? <==> fetch.Pending?)
  {
    hide Run;
    NoMismatchYet(w, Begin(w, l), inputs);
  }

  lemma {:induction false} NoMismatchYet(w: Work, a: Partial, inputs: seq<Input>)
    requires Assembly.Shape(w, a)
    ensures Run(w, a, inputs).Failed? ==> Run(w, a, inputs).failure != HashMismatch
    decreases |inputs|
  {
    hide Fill, HandleMessage, ApplyCommand, ParsePiece, AfterBlock, Blocks;
    if a.remaining > 0 {
      var (filled, sent) := Fill(w, a);
      if sent && inputs != [] {
        var (next, failure) := AfterInput(w, filled, inputs[0]);
        if failure == None { NoMismatchYet(w, next, inputs[1..]); }
      }
    }
  }

  /** A verified piece is announced to the peer and handed over, and the worker is ready for another; so it is after a
      cancelled piece, of which nothing is said; shutting down says nothing; and any other failure is reported and ends
      the connection. */
  lemma {:induction false} OutcomeIsReported(addr: Addr, index: nat, fetch: Fetch)
    requires !fetch.Pending? && fetch.link.faults == NO_FAULTS
    ensures var l, (r, goesOn) := fetch.link, AfterFetch(addr, index, fetch);
      match fetch
      case Fetched(_, data, _) =>
        && goesOn && r.sent == l.sent + [Message(HAVE, ToBigEndian(index))]
        && r.events == l.events + [PieceDownloaded(addr, index, data), PeerReady(addr)]
      case GaveUp(_, failure, _) =>
        && (goesOn <==> failure == Cancelled) && r.sent == l.sent
        && r.events == l.events +
             if failure == Cancelled then [PeerReady(addr)]
             else if failure == ShutDown then []
             else [PieceFailed(addr, index)]
  {
    hide ToBigEndian;
  }

  // ----- a connection -----

  /** The greeting: our bitfield if it marks anything, and interest unless we have every piece. */
  lemma {:induction false} GreetingSays(l: Link, bits: Option<Bytes>)
    requires l.faults == NO_FAULTS
    ensures var (r, ok) := Greet(l, bits);
      && ok
      && r.sent == l.sent
           + (if bits.Some? && Marked(bits.value) != {} then [Message(BITFIELD, bits.value)] else [])
           + (if bits.None? || |Marked(bits.value)| < l.pieceCount then [Message(INTERESTED, [])] else [])
  {
    hide Marked;
  }

  /** It has joined, and it has not left. */
  ghost predicate Joined(l: Link) {
    && l.events != [] && l.events[0] == PeerJoined(l.addr)
    && forall k :: 0 <= k < |l.events| ==> !l.events[k].PeerLeft?
  }

  /** Still up, and the same connection as before. */
  ghost predicate StaysUp(l: Link, r: Link) { SamePeer(l, r) && (Joined(l) ==> Joined(r)) }

  lemma {:induction false} StaysUpThen(l: Link, m: Link, r: Link)
    requires StaysUp(l, m) && StaysUp(m, r)
    ensures StaysUp(l, r)
  {
  }

  lemma {:induction false} ChattingStaysUp(l: Link, r: Link)
    requires Chats(l, r)
    ensures StaysUp(l, r)
  {
  }

  lemma {:induction false} SendingStaysUp(l: Link, r: Link)
    requires OnlySent(l, r)
    ensures StaysUp(l, r)
  {
  }

  lemma {:induction false} RunStaysUp(w: Work, a: Partial, inputs: seq<Input>)
    requires Assembly.Shape(w, a)
    ensures StaysUp(a.link, Run(w, a, inputs).partial.link)
    decreases |inputs|
  {
    hide Fill, AfterInput, StaysUp, OnlySent;
    var r := Run(w, a, inputs).partial.link;
    ChattingStaysUp(a.link, a.link);
    if a.remaining > 0 {
      var (filled, sent) := Fill(w, a);
      FillOnlySends(w, a);
      SendingStaysUp(a.link, filled.link);
      if sent && inputs != [] {
        var (next, failure) := AfterInput(w, filled, inputs[0]);
        InputChats(w, filled, inputs[0]);
        ChattingStaysUp(filled.link, next.link);
        StaysUpThen(a.link, filled.link, next.link);
        if failure == None {
          RunStaysUp(w, next, inputs[1..]);
          StaysUpThen(a.link, next.link, r);
        }
      }
    }
  }

  lemma {:induction false} FetchStaysUp(sha: Bytes -> Digest, w: Work, l: Link, inputs: seq<Input>)
    requires w.length > 0
    ensures var fetch := FetchPiece(sha, w, l, inputs);
      && StaysUp(l, fetch.link)
      && (!fetch.Pending? ==> StaysUp(l, AfterFetch(l.addr, w.index, fetch).0))
  {
    hide Run, StaysUp, AfterFetch;
    BeginLinks(w, l);
    RunStaysUp(w, Begin(w, l), inputs);
    var fetch := FetchPiece(sha, w, l, inputs);
    if !fetch.Pending? {
      ReportingStaysUp(l.addr, w.index, fetch);
      StaysUpThen(l, fetch.link, AfterFetch(l.addr, w.index, fetch).0);
    }
  }

  lemma {:induction false} ReportingStaysUp(addr: Addr, index: nat, fetch: Fetch)
    requires !fetch.Pending?
    ensures StaysUp(fetch.link, AfterFetch(addr, index, fetch).0)
  {
  }

  lemma {:induction false} DriveStaysUp(sha: Bytes -> Digest, l: Link, inputs: seq<Input>)
    ensures StaysUp(l, Drive(sha, l, inputs).link)
    decreases |inputs|, 0
  {
    hide FetchPiece, AfterFetch, HandleMessage, ApplyCommand, StaysUp;
    ChattingStaysUp(l, l);
    if inputs != [] {
      var later := inputs[1..];
      match inputs[0]
      case FromPeer(m, seed) =>
        var (l1, ok) := HandleMessage(l, seed, m);
        HandlingChats(l, seed, m);
        ChattingStaysUp(l, l1);
        if ok { ContinuesUp(sha, l, l1, later); }
      case FromCoordinator(AssignPiece(index, length, hash)) =>
        if length > 0 {
          var w := Work(index, hash, length);
          var fetch := FetchPiece(sha, w, l, later);
          FetchStaysUp(sha, w, l, later);
          if !fetch.Pending? {
            var (l1, ok) := AfterFetch(l.addr, index, fetch);
            if ok { ContinuesUp(sha, l, l1, fetch.rest); }
          }
        }
      case FromCoordinator(Shutdown) =>
      case FromCoordinator(command) =>
        var (l1, ok) := ApplyCommand(l, command);
        ApplyingChats(l, command);
        ChattingStaysUp(l, l1);
        if ok { ContinuesUp(sha, l, l1, later); }
      case TimedOut => ContinuesUp(sha, l, l, later);
      case _ =>
    }
  }

  lemma {:induction false} ContinuesUp(sha: Bytes -> Digest, l: Link, m: Link, later: seq<Input>)
    requires StaysUp(l, m)
    ensures StaysUp(l, Drive(sha, m, later).link)
    decreases |later|, 1
  {
    hide Drive, StaysUp;
    DriveStaysUp(sha, m, later);
    StaysUpThen(l, m, Drive(sha, m, later).link);
  }

  /** A connection reports joining first; as long as it is up it has not reported leaving; and once it is over, leaving
      is the last thing it reports, and is reported once, unless the download has been cancelled by then. */
  lemma {:induction false} LifeIsReported(
    sha: Bytes -> Digest, addr: Addr, pieceCount: nat, faults: Faults, bits: Option<Bytes>, inputs: seq<Input>)
    requires 0 !in faults.events
    ensures var life := RunConnection(sha, NewLink(addr, pieceCount, faults), bits, inputs);
      && (life.Listening? ==> Joined(life.link))
      && (life.Over? ==>
            exists l: Link :: Joined(l) && l.addr == addr &&
              life.link.events == l.events + if l.offers in faults.events then [] else [PeerLeft(addr)])
  {
    hide Drive, Greet, OnlySent;
    var l := NewLink(addr, pieceCount, faults);
    var l1 := Emit(l, PeerJoined(addr)).0.(bitfield := seq((pieceCount + 7) / 8, _ => 0));
    var (l2, ok) := Greet(l1, bits);
    assert Joined(l1);
    GreetingOnlySends(l1, bits);
    SendingStaysUp(l1, l2);
    DriveStaysUp(sha, l2, inputs);
    var life := if ok then Drive(sha, l2, inputs) else Over(l2);
    assert Joined(life.link) && life.link.addr == addr && life.link.faults == faults;
  }

  lemma {:induction false} GreetingOnlySends(l: Link, bits: Option<Bytes>)
    ensures OnlySent(l, Greet(l, bits).0)
  {
    hide Marked;
  }

  /** The peer is gone, the download is shutting down or has been cancelled. */
  predicate Final(input: Input) { input.PeerClosed? || input.CoordinatorClosed? || input == FromCoordinator(Shutdown) }

  lemma {:induction false} PieceOutlivesNone(w: Work, l: Link, inputs: seq<Input>)
    requires w.length > 0
    ensures var r := Run(w, Begin(w, l), inputs);
      !r.Failed? || r.failure == Cancelled ==>
        forall i :: 0 <= i < |Taken(inputs, r)| ==> !Final(Taken(inputs, r)[i])
  {
    hide Run;
    var r := Run(w, Begin(w, l), inputs);
    BeginLinks(w, l);
    PieceEnds(w, Begin(w, l), inputs);
    forall i | 0 <= i < |Taken(inputs, r)| && Final(Taken(inputs, r)[i])
      ensures r.Failed? && r.failure != Cancelled
    {
      assert Ending(w, l.pieceCount, Taken(inputs, r)[i]).Some?;
    }
  }

  lemma {:induction false} FetchOutlivesNone(sha: Bytes -> Digest, w: Work, l: Link, inputs: seq<Input>)
    requires w.length > 0
    ensures var fetch := FetchPiece(sha, w, l, inputs);
      if fetch.Pending? then forall i :: 0 <= i < |inputs| ==> !Final(inputs[i])
      else AfterFetch(l.addr, w.index, fetch).1 ==>
        forall i :: 0 <= i < |inputs| - |fetch.rest| ==> !Final(inputs[i])
  {
    hide Run, Final;
    var r, fetch := Run(w, Begin(w, l), inputs), FetchPiece(sha, w, l, inputs);
    PieceOutlivesNone(w, l, inputs);
    FinishedIsJudged(sha, w, l, inputs);
    if fetch.Pending? {
      assert Taken(inputs, r) == inputs;
    } else if AfterFetch(l.addr, w.index, fetch).1 {
      assert Taken(inputs, r) == inputs[..|inputs| - |fetch.rest|];
      forall i | 0 <= i < |inputs| - |fetch.rest| ensures !Final(inputs[i]) {
        assert Taken(inputs, r)[i] == inputs[i];
      }
    }
  }

  /** A connection that is still up has read nothing that ends it, whether a piece was in hand or not. */
  lemma {:induction false} UpMeansNothingFinal(sha: Bytes -> Digest, l: Link, inputs: seq<Input>)
    ensures Drive(sha, l, inputs).Listening? ==> forall i :: 0 <= i < |inputs| ==> !Final(inputs[i])
    decreases |inputs|
  {
    hide FetchPiece, AfterFetch, HandleMessage, ApplyCommand;
    if inputs != [] {
      var later := inputs[1..];
      assert forall i :: 1 <= i < |inputs| ==> inputs[i] == later[i - 1];
      match inputs[0]
      case FromPeer(m, seed) => UpMeansNothingFinal(sha, HandleMessage(l, seed, m).0, later);
      case FromCoordinator(AssignPiece(index, length, hash)) =>
        if length > 0 {
          var w := Work(index, hash, length);
          var fetch := FetchPiece(sha, w, l, later);
          FetchOutlivesNone(sha, w, l, later);
          if !fetch.Pending? {
            var used := |later| - |fetch.rest|;
            assert forall i :: used <= i < |later| ==> later[i] == fetch.rest[i - used];
            UpMeansNothingFinal(sha, AfterFetch(l.addr, index, fetch).0, fetch.rest);
          }
        }
      case FromCoordinator(command) => UpMeansNothingFinal(sha, ApplyCommand(l, command).0, later);
      case TimedOut => UpMeansNothingFinal(sha, l, later);
      case _ =>
    }
  }
}
