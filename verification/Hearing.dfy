/** What a connection hears and answers, whether a piece is in hand or not: the flag it downloads by is the peer's last
    word, every message the coordinator has to know of is passed on, and every request that is to be served is
    answered, each once and in order. */
module Hearing {
  import opened Base
  import opened Assembly
  import opened Bitfield
  import opened Connection
  import opened Events
  import opened Session
  import opened Wire

  /** What the coordinator is told of a message. */
  function EventOf(addr: Addr, pieceCount: int, m: Message): Option<Event> {
    if m.id == CHOKE then Some(ChokeReceived(addr))
    else if m.id == UNCHOKE then Some(UnchokeReceived(addr))
    else if m.id == INTERESTED then Some(InterestedReceived(addr))
    else if m.id == NOT_INTERESTED then Some(NotInterestedReceived(addr))
    else if m.id == BITFIELD then Some(BitfieldReceived(addr, Marked(m.payload)))
    else if m.id == HAVE && ParseHave(m.payload, pieceCount).Ok? then
      Some(HaveReceived(addr, ParseHave(m.payload, pieceCount).value))
    else None
  }

  /** What the coordinator is told of some inputs, in order. */
  function EventsOf(addr: Addr, pieceCount: int, inputs: seq<Input>): seq<Event> {
    if inputs == [] then []
    else
      var last := inputs[|inputs| - 1];
      EventsOf(addr, pieceCount, inputs[..|inputs| - 1]) +
        if last.FromPeer? && EventOf(addr, pieceCount, last.message).Some?
        then [EventOf(addr, pieceCount, last.message).value] else []
  }

  /** The events that pass on what the peer said, among all that a connection reports. */
  function Passed(events: seq<Event>): seq<Event> {
    if events == [] then []
    else
      var last := events[|events| - 1];
      Passed(events[..|events| - 1]) +
        if last.PeerJoined? || last.PeerLeft? || last.PeerReady? || last.PieceDownloaded? || last.PieceFailed?
        then [] else [last]
  }

  lemma {:induction false} PassedAppend(events: seq<Event>, e: Event)
    ensures Passed(events + [e]) == Passed(events) +
      if e.PeerJoined? || e.PeerLeft? || e.PeerReady? || e.PieceDownloaded? || e.PieceFailed? then [] else [e]
  {
    assert (events + [e])[..|events|] == events;
  }

  lemma {:induction false} EventsAppend(addr: Addr, pieceCount: int, first: seq<Input>, later: seq<Input>)
    ensures EventsOf(addr, pieceCount, first + later) ==
      EventsOf(addr, pieceCount, first) + EventsOf(addr, pieceCount, later)
  {
    hide EventOf;
    if later == [] {
      assert first + later == first;
    } else {
      var init := later[..|later| - 1];
      assert (first + later)[..|first + later| - 1] == first + init;
      EventsAppend(addr, pieceCount, first, init);
    }
  }

  // ----- what is known of the peer -----

  /** Whether the peer wants anything, as its last word on it among some inputs says. */
  function InterestSaid(before: bool, inputs: seq<Input>): bool {
    if inputs == [] then before
    else
      var last := inputs[|inputs| - 1];
      if Says(last, INTERESTED) then true
      else if Says(last, NOT_INTERESTED) then false
      else InterestSaid(before, inputs[..|inputs| - 1])
  }

  /** The peer's bitfield after some inputs: its last bitfield message, and the haves since. */
  function BitsSaid(bits: Bytes, pieceCount: int, inputs: seq<Input>): Bytes {
    if inputs == [] then bits
    else
      var last, before := inputs[|inputs| - 1], BitsSaid(bits, pieceCount, inputs[..|inputs| - 1]);
      if Says(last, BITFIELD) then last.message.payload
      else if Says(last, HAVE) && ParseHave(last.message.payload, pieceCount).Ok? then
        SetPiece(before, ParseHave(last.message.payload, pieceCount).value)
      else before
  }

  lemma {:induction false} KnownAppend(
    before: bool, bits: Bytes, pieceCount: int, first: seq<Input>, later: seq<Input>)
    ensures InterestSaid(before, first + later) == InterestSaid(InterestSaid(before, first), later)
    ensures BitsSaid(bits, pieceCount, first + later) == BitsSaid(BitsSaid(bits, pieceCount, first), pieceCount, later)
  {
    hide ParseHave, SetPiece;
    if later == [] {
      assert first + later == first;
    } else {
      var init := later[..|later| - 1];
      assert (first + later)[..|first + later| - 1] == first + init;
      KnownAppend(before, bits, pieceCount, first, init);
    }
  }

  lemma {:induction false} OneKnown(before: bool, bits: Bytes, pieceCount: int, input: Input)
    ensures InterestSaid(before, [input]) ==
      if Says(input, INTERESTED) then true else if Says(input, NOT_INTERESTED) then false else before
    ensures BitsSaid(bits, pieceCount, [input]) ==
      if Says(input, BITFIELD) then input.message.payload
      else if Says(input, HAVE) && ParseHave(input.message.payload, pieceCount).Ok? then
        SetPiece(bits, ParseHave(input.message.payload, pieceCount).value)
      else bits
  {
    hide ParseHave, SetPiece;
    assert [input][..0] == [];
  }

  /** What is known of the peer from one point to another. */
  ghost predicate Learns(l: Link, r: Link, inputs: seq<Input>) {
    && r.peerInterested == InterestSaid(l.peerInterested, inputs)
    && r.bitfield == BitsSaid(l.bitfield, l.pieceCount, inputs)
  }

  // ----- answering -----

  /** Whether we choke the peer after some inputs: as the last choke decision among them says, and as before if there is
      none. */
  function ChokingNow(before: bool, inputs: seq<Input>): bool {
    if inputs == [] then before
    else
      var last := inputs[|inputs| - 1];
      if last == FromCoordinator(ChokePeer) then true
      else if last == FromCoordinator(UnchokePeer) then false
      else ChokingNow(before, inputs[..|inputs| - 1])
  }

  /** The block that answers an input, if one does. */
  function ReplyTo(choking: bool, input: Input): seq<Message> {
    if Says(input, REQUEST) && input.seed.Seed? && ServeRequest(choking, input.seed, input.message.payload).Reply? then
      [BlockMessage(ServeRequest(choking, input.seed, input.message.payload).block)]
    else []
  }

  /** The blocks that answer some inputs, each according to the choke decision of its time. */
  function Replies(choking: bool, inputs: seq<Input>): seq<Message> {
    if inputs == [] then []
    else
      var n := |inputs| - 1;
      Replies(choking, inputs[..n]) + ReplyTo(ChokingNow(choking, inputs[..n]), inputs[n])
  }

  /** The blocks among some messages sent. */
  function BlocksIn(sent: seq<Message>): seq<Message> {
    if sent == [] then []
    else
      var last := sent[|sent| - 1];
      BlocksIn(sent[..|sent| - 1]) + if last.id == PIECE then [last] else []
  }

  lemma {:induction false} BlocksAppend(sent: seq<Message>, m: Message)
    ensures BlocksIn(sent + [m]) == BlocksIn(sent) + if m.id == PIECE then [m] else []
  {
    assert (sent + [m])[..|sent|] == sent;
  }

  lemma {:induction false} RepliesAppend(choking: bool, first: seq<Input>, later: seq<Input>)
    ensures ChokingNow(choking, first + later) == ChokingNow(ChokingNow(choking, first), later)
    ensures Replies(choking, first + later) == Replies(choking, first) + Replies(ChokingNow(choking, first), later)
  {
    hide ReplyTo;
    if later == [] {
      assert first + later == first;
    } else {
      var n := |later| - 1;
      assert (first + later)[..|first + later| - 1] == first + later[..n];
      RepliesAppend(choking, first, later[..n]);
    }
  }

  // ----- from one point to another -----

  /** From one point of a connection's life to another, with these inputs in between. */
  ghost predicate Hears(l: Link, r: Link, inputs: seq<Input>) {
    && SamePeer(l, r)
    && r.peerChoking == LastSaid(l.peerChoking, inputs)
    && Passed(r.events) == Passed(l.events) + EventsOf(l.addr, l.pieceCount, inputs)
    && r.amChoking == ChokingNow(l.amChoking, inputs)
    && BlocksIn(r.sent) == BlocksIn(l.sent) + Replies(l.amChoking, inputs)
    && Learns(l, r, inputs)
  }

  lemma {:induction false} HearsThen(l: Link, m: Link, r: Link, first: seq<Input>, later: seq<Input>)
    requires Hears(l, m, first) && Hears(m, r, later)
    ensures Hears(l, r, first + later)
  {
    hide LastSaid, EventsOf, Passed, ChokingNow, Replies, BlocksIn, InterestSaid, BitsSaid;
    KnownAppend(l.peerInterested, l.bitfield, l.pieceCount, first, later);
    LastSaidAppend(l.peerChoking, first, later);
    RepliesAppend(l.amChoking, first, later);
    EventsAppend(l.addr, l.pieceCount, first, later);
  }

  /** Only writes, or reports that pass nothing on. */
  lemma {:induction false} HearsNothing(l: Link, r: Link)
    requires SamePeer(l, r) && r.peerChoking == l.peerChoking && Passed(r.events) == Passed(l.events)
    requires r.amChoking == l.amChoking && BlocksIn(r.sent) == BlocksIn(l.sent)
    requires r.peerInterested == l.peerInterested && r.bitfield == l.bitfield
    ensures Hears(l, r, [])
  {
  }

  lemma {:induction false} OneReply(choking: bool, input: Input)
    ensures ChokingNow(choking, [input]) ==
      if input == FromCoordinator(ChokePeer) then true
      else if input == FromCoordinator(UnchokePeer) then false
      else choking
    ensures Replies(choking, [input]) == ReplyTo(choking, input)
  {
    hide ReplyTo;
    assert [input][..0] == [];
  }

  lemma {:induction false} OneInput(before: bool, addr: Addr, pieceCount: int, input: Input)
    ensures LastSaid(before, [input]) ==
      if Says(input, CHOKE) then true else if Says(input, UNCHOKE) then false else before
    ensures EventsOf(addr, pieceCount, [input]) ==
      if input.FromPeer? && EventOf(addr, pieceCount, input.message).Some?
      then [EventOf(addr, pieceCount, input.message).value] else []
  {
    hide EventOf;
    assert [input][..0] == [];
  }

  lemma {:induction false} MessageIsHeard(l: Link, seed: SeedSnapshot, m: Message)
    ensures HandleMessage(l, seed, m).1 ==> Hears(l, HandleMessage(l, seed, m).0, [FromPeer(m, seed)])
  {
    hide Passed, EventsOf, LastSaid, ServeRequest, Sized, SetPiece, Marked, ParseHave, BlockMessage, ChokingNow,
         Replies, BlocksIn, InterestSaid, BitsSaid;
    OneKnown(l.peerInterested, l.bitfield, l.pieceCount, FromPeer(m, seed));
    OneInput(l.peerChoking, l.addr, l.pieceCount, FromPeer(m, seed));
    OneReply(l.amChoking, FromPeer(m, seed));
    if m.id == REQUEST && seed.Seed? && ServeRequest(l.amChoking, seed, m.payload).Reply? {
      BlocksAppend(l.sent, BlockMessage(ServeRequest(l.amChoking, seed, m.payload).block));
    }
    var e := EventOf(l.addr, l.pieceCount, m);
    if e.Some? { PassedAppend(l.events, e.value); }
  }

  lemma {:induction false} CommandIsNotHeard(l: Link, command: Command)
    requires ApplyCommand(l, command).1
    ensures Hears(l, ApplyCommand(l, command).0, [FromCoordinator(command)])
  {
    hide Passed, EventsOf, LastSaid, ChokingNow, Replies, BlocksIn, InterestSaid, BitsSaid;
    OneKnown(l.peerInterested, l.bitfield, l.pieceCount, FromCoordinator(command));
    OneInput(l.peerChoking, l.addr, l.pieceCount, FromCoordinator(command));
    OneReply(l.amChoking, FromCoordinator(command));
    BlocksAppend(l.sent, ChokeMessage(command.ChokePeer?));
  }

  lemma {:induction false} SilenceIsNotHeard(l: Link, input: Input)
    requires !input.FromPeer? && input != FromCoordinator(ChokePeer) && input != FromCoordinator(UnchokePeer)
    ensures Hears(l, l, [input])
  {
    hide Passed, EventsOf, LastSaid, ChokingNow, Replies, BlocksIn, InterestSaid, BitsSaid;
    OneKnown(l.peerInterested, l.bitfield, l.pieceCount, input);
    OneInput(l.peerChoking, l.addr, l.pieceCount, input);
    OneReply(l.amChoking, input);
  }

  lemma {:induction false} InputHears(w: Work, a: Partial, input: Input)
    requires Assembly.Shape(w, a)
    ensures var (r, failure) := AfterInput(w, a, input);
      failure == None || failure == Some(Cancelled) ==> Hears(a.link, r.link, [input])
  {
    hide Hears, HandleMessage, ApplyCommand, ParsePiece, Blocks;
    match input
    case FromPeer(m, seed) =>
      if m.id == PIECE { BlockIsNotHeard(a.link, seed, m); }
      else { ChokesAreMessages(a.link, seed, m); MessageIsHeard(a.link, seed, m); }
    case FromCoordinator(command) =>
      if command.CancelPiece? { SilenceIsNotHeard(a.link, input); }
      else if !command.Shutdown? && ApplyCommand(a.link, command).1 { CommandIsNotHeard(a.link, command); }
    case _ =>
  }

  lemma {:induction false} BlockIsNotHeard(l: Link, seed: SeedSnapshot, m: Message)
    requires m.id == PIECE
    ensures Hears(l, l, [FromPeer(m, seed)])
  {
    hide Passed, EventsOf, LastSaid, ChokingNow, Replies, BlocksIn, InterestSaid, BitsSaid;
    OneKnown(l.peerInterested, l.bitfield, l.pieceCount, FromPeer(m, seed));
    OneInput(l.peerChoking, l.addr, l.pieceCount, FromPeer(m, seed));
    OneReply(l.amChoking, FromPeer(m, seed));
  }

  /** Mid-piece, a choke or unchoke is reported just as between pieces. */
  lemma {:induction false} ChokesAreMessages(l: Link, seed: SeedSnapshot, m: Message)
    ensures m.id == CHOKE ==> HandleMessage(l, seed, m) == Emit(l.(peerChoking := true), ChokeReceived(l.addr))
    ensures m.id == UNCHOKE ==> HandleMessage(l, seed, m) == Emit(l.(peerChoking := false), UnchokeReceived(l.addr))
  {
  }

  /** One trip around the loop. */
  lemma {:induction false} TripHears(w: Work, a: Partial, input: Input)
    requires Assembly.Shape(w, a) && Fill(w, a).1
    ensures var (next, failure) := AfterInput(w, Fill(w, a).0, input);
      failure == None || failure == Some(Cancelled) ==> Hears(a.link, next.link, [input])
  {
    hide Fill, AfterInput, Hears;
    var filled := Fill(w, a).0;
    var (next, failure) := AfterInput(w, filled, input);
    FillingIsNotHeard(w, a);
    InputHears(w, filled, input);
    if failure == None || failure == Some(Cancelled) {
      HearsThen(a.link, filled.link, next.link, [], [input]);
      assert [] + [input] == [input];
    }
  }

  lemma {:induction false} RunHearsAll(w: Work, a: Partial, inputs: seq<Input>)
    requires Assembly.Shape(w, a)
    ensures var r := Run(w, a, inputs);
      !r.Failed? || r.failure == Cancelled ==> Hears(a.link, r.partial.link, Taken(inputs, r))
    decreases |inputs|
  {
    hide Fill, AfterInput, Hears;
    var r := Run(w, a, inputs);
    if a.remaining > 0 && Fill(w, a).1 && inputs != [] {
      var (next, failure) := AfterInput(w, Fill(w, a).0, inputs[0]);
      TripHears(w, a, inputs[0]);
      assert inputs == [inputs[0]] + inputs[1..];
      if failure == None {
        RunHearsAll(w, next, inputs[1..]);
        TakenOneMore(inputs[0], inputs[1..], r);
        if !r.Failed? || r.failure == Cancelled {
          HearsThen(a.link, next.link, r.partial.link, [inputs[0]], Taken(inputs[1..], r));
        }
      } else {
        assert Taken(inputs, r) == [inputs[0]];
      }
    } else {
      assert Taken(inputs, r) == [];
      FillingIsNotHeard(w, a);
      NothingIsHeard(a.link);
    }
  }

  lemma {:induction false} NothingIsHeard(l: Link)
    ensures Hears(l, l, [])
  {
    HearsNothing(l, l);
  }

  lemma {:induction false} FillingIsNotHeard(w: Work, a: Partial)
    requires Assembly.Shape(w, a)
    ensures Hears(a.link, Fill(w, a).0.link, [])
  {
    hide Fill;
    FillOnlySends(w, a);
    FillSendsNoBlocks(w, a);
    HearsNothing(a.link, Fill(w, a).0.link);
  }

  lemma {:induction false} FillSendsNoBlocks(w: Work, a: Partial)
    requires Assembly.Shape(w, a)
    ensures BlocksIn(Fill(w, a).0.link.sent) == BlocksIn(a.link.sent)
    decreases BACKLOG_LIMIT - a.outstanding
  {
    hide AskFor, Blocks, BlocksIn;
    var next := NextUnrequested(a.requested);
    if !a.link.peerChoking && a.outstanding < BACKLOG_LIMIT && next != -1 {
      if Write(a.link, AskFor(w, next)).1 {
        BlocksAppend(a.link.sent, AskFor(w, next));
        FillSendsNoBlocks(w, Asking(w, a, next));
      }
    }
  }

  /** A piece and what follows it, when the connection goes on or is still at it. */
  lemma {:induction false} FetchHears(sha: Bytes -> Digest, w: Work, l: Link, inputs: seq<Input>)
    requires w.length > 0
    ensures var fetch := FetchPiece(sha, w, l, inputs);
      if fetch.Pending? then Hears(l, fetch.link, inputs)
      else AfterFetch(l.addr, w.index, fetch).1 ==>
        Hears(l, AfterFetch(l.addr, w.index, fetch).0, inputs[..|inputs| - |fetch.rest|])
  {
    hide Run, Hears;
    var fetch := FetchPiece(sha, w, l, inputs);
    RunHearsAll(w, Begin(w, l), inputs);
    BeginLinks(w, l);
    if !fetch.Pending? && AfterFetch(l.addr, w.index, fetch).1 {
      var r := AfterFetch(l.addr, w.index, fetch).0;
      ReportingIsNotHeard(l.addr, w.index, fetch);
      var used := inputs[..|inputs| - |fetch.rest|];
      assert used + [] == used;
      HearsThen(l, fetch.link, r, used, []);
    }
  }

  lemma {:induction false} ReportingIsNotHeard(addr: Addr, index: nat, fetch: Fetch)
    requires !fetch.Pending? && AfterFetch(addr, index, fetch).1
    ensures Hears(fetch.link, AfterFetch(addr, index, fetch).0, [])
  {
    hide Passed, BlocksIn;
    var l := fetch.link;
    PassedAppend(l.events, PeerReady(addr));
    BlocksAppend(l.sent, HaveMessage(index));
    if fetch.Fetched? {
      PassedAppend(l.events, PieceDownloaded(addr, index, fetch.data));
      PassedAppend(l.events + [PieceDownloaded(addr, index, fetch.data)], PeerReady(addr));
    }
    HearsNothing(l, AfterFetch(addr, index, fetch).0);
  }

  lemma {:induction false} DriveHears(sha: Bytes -> Digest, l: Link, inputs: seq<Input>)
    ensures Drive(sha, l, inputs).Listening? ==> Hears(l, Drive(sha, l, inputs).link, inputs)
    decreases |inputs|, 0
  {
    hide FetchPiece, AfterFetch, HandleMessage, ApplyCommand, Hears;
    HearsNothing(l, l);
    if inputs != [] {
      var later := inputs[1..];
      var first := [inputs[0]];
      assert inputs == first + later;
      match inputs[0]
      case FromPeer(m, seed) =>
        var (l1, ok) := HandleMessage(l, seed, m);
        MessageIsHeard(l, seed, m);
        if ok { ContinueHears(sha, l, l1, first, later); }
      case FromCoordinator(AssignPiece(index, length, hash)) =>
        if length > 0 {
          var w := Work(index, hash, length);
          var fetch := FetchPiece(sha, w, l, later);
          SilenceIsNotHeard(l, inputs[0]);
          FetchHears(sha, w, l, later);
          if fetch.Pending? {
            HearsThen(l, l, fetch.link, first, later);
          } else {
            var (l1, ok) := AfterFetch(l.addr, index, fetch);
            if ok {
              var used := later[..|later| - |fetch.rest|];
              assert inputs == first + used + fetch.rest;
              HearsThen(l, l, l1, first, used);
              ContinueHears(sha, l, l1, first + used, fetch.rest);
            }
          }
        }
      case FromCoordinator(Shutdown) =>
      case FromCoordinator(command) =>
        var (l1, ok) := ApplyCommand(l, command);
        if ok { CommandIsNotHeard(l, command); ContinueHears(sha, l, l1, first, later); }
      case TimedOut =>
        SilenceIsNotHeard(l, inputs[0]);
        ContinueHears(sha, l, l, first, later);
      case _ =>
    }
  }

  lemma {:induction false} ContinueHears(
    sha: Bytes -> Digest, l: Link, m: Link, first: seq<Input>, later: seq<Input>)
    requires Hears(l, m, first)
    ensures Drive(sha, m, later).Listening? ==> Hears(l, Drive(sha, m, later).link, first + later)
    decreases |later|, 1
  {
    hide Drive, Hears;
    DriveHears(sha, m, later);
    if Drive(sha, m, later).Listening? { HearsThen(l, m, Drive(sha, m, later).link, first, later); }
  }

  /** While a connection is up, idle or mid-piece: it goes by the last choke or unchoke its peer sent, and by a
      choke if there was none; what it knows of the peer's interest and pieces is what the peer said; it has passed
      on every message the coordinator has to know of; and the blocks it has sent are those that answer the
      requests it was to serve, given the choke decisions it had by then: once each and in order. */
  lemma {:induction false} ConnectionHears(
    sha: Bytes -> Digest, addr: Addr, pieceCount: nat, faults: Faults, bits: Option<Bytes>, inputs: seq<Input>)
    requires RunConnection(sha, NewLink(addr, pieceCount, faults), bits, inputs).Listening?
    ensures var r := RunConnection(sha, NewLink(addr, pieceCount, faults), bits, inputs).link;
      && r.peerChoking == LastSaid(true, inputs)
      && Passed(r.events) == EventsOf(addr, pieceCount, inputs)
      && r.amChoking == ChokingNow(true, inputs)
      && BlocksIn(r.sent) == Replies(true, inputs)
      && r.peerInterested == InterestSaid(false, inputs)
      && r.bitfield == BitsSaid(seq((pieceCount + 7) / 8, _ => 0), pieceCount, inputs)
  {
    hide Drive, Marked, Passed, EventsOf, LastSaid, ChokingNow, Replies, BlocksIn, Greet, InterestSaid, BitsSaid;
    var l := NewLink(addr, pieceCount, faults);
    var l1 := Emit(l, PeerJoined(addr)).0.(bitfield := seq((pieceCount + 7) / 8, _ => 0));
    var l2 := Greet(l1, bits).0;
    NothingPassed(addr);
    assert [] + [PeerJoined(addr)] == [PeerJoined(addr)];
    DriveHears(sha, l2, inputs);
    assert [] + EventsOf(addr, pieceCount, inputs) == EventsOf(addr, pieceCount, inputs);
    GreetingSendsNoBlocks(l1, bits);
    assert [] + Replies(true, inputs) == Replies(true, inputs);
  }

  lemma {:induction false} GreetingSendsNoBlocks(l: Link, bits: Option<Bytes>)
    requires l.sent == []
    ensures BlocksIn(Greet(l, bits).0.sent) == []
    ensures var r := Greet(l, bits).0;
      r == l.(sent := r.sent, attempts := r.attempts)
  {
    hide Marked, BlocksIn;
    NoBlocks();
    BlocksAppend([], Message(INTERESTED, []));
    assert [] + [Message(INTERESTED, [])] == [Message(INTERESTED, [])];
    if bits.Some? {
      var m := Message(BITFIELD, bits.value);
      BlocksAppend([], m);
      assert [] + [m] == [m];
      BlocksAppend([m], Message(INTERESTED, []));
    }
  }

  lemma {:induction false} NoBlocks()
    ensures BlocksIn([]) == []
  {
  }

  lemma {:induction false} NothingPassed(addr: Addr)
    ensures Passed([]) == Passed([PeerJoined(addr)]) == []
  {
    PassedAppend([], PeerJoined(addr));
    assert [] + [PeerJoined(addr)] == [PeerJoined(addr)];
  }
}
