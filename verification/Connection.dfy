/** The whole life of a connection, in either direction: greet, then obey the coordinator and answer the peer until
    one of them ends it, downloading the pieces it is told to. */
module Connection {
  import opened Base
  import opened Assembly
  import opened Bitfield
  import opened Events
  import opened Session
  import opened Wire

  datatype Life = Listening(link: Link) | Over(link: Link)

  /** Our bitfield if we have anything to serve from and any piece, and interest if we still need one. */
  function Greet(l: Link, bits: Option<Bytes>): (Link, bool) {
    var (l1, ok) :=
      if bits.Some? && Marked(bits.value) != {} then Write(l, Message(BITFIELD, bits.value)) else (l, true);
    if !ok then (l1, false)
    else if bits.Some? && |Marked(bits.value)| >= l.pieceCount then (l1, true)
    else Write(l1, Message(INTERESTED, []))
  }

  /** What follows a piece: a verified one is announced and handed over, a cancelled one is dropped, and any other
      failure ends the connection. */
  function AfterFetch(addr: Addr, index: nat, fetch: Fetch): (Link, bool)
    requires !fetch.Pending?
  {
    match fetch
    case Fetched(l1, data, _) =>
      var l2 := Write(l1, HaveMessage(index)).0;
      var (l3, ok) := Emit(l2, PieceDownloaded(addr, index, data));
      if ok then Emit(l3, PeerReady(addr)) else (l3, false)
    case GaveUp(l1, failure, _) =>
      if failure == Cancelled then Emit(l1, PeerReady(addr))
      else if failure == ShutDown then (l1, false)
      else (Emit(l1, PieceFailed(addr, index)).0, false)
  }

  /** Listens until something ends the connection. The piece timer does not run between pieces, and an assignment of no
      bytes makes the worker panic, which ends the connection too. */
  function Drive(sha: Bytes -> Digest, l: Link, inputs: seq<Input>): Life
    decreases |inputs|
  {
    if inputs == [] then Listening(l)
    else
      var rest := inputs[1..];
      match inputs[0]
      case FromPeer(m, seed) =>
        var (l1, ok) := HandleMessage(l, seed, m);
        if ok then Drive(sha, l1, rest) else Over(l1)
      case FromCoordinator(AssignPiece(index, length, hash)) =>
        if length <= 0 then Over(l)
        else
          var fetch := FetchPiece(sha, Work(index, hash, length), l, rest);
          if fetch.Pending? then Listening(fetch.link)
          else
            var (l1, ok) := AfterFetch(l.addr, index, fetch);
            if ok then Drive(sha, l1, fetch.rest) else Over(l1)
      case FromCoordinator(Shutdown) => Over(l)
      case FromCoordinator(command) =>
        var (l1, ok) := ApplyCommand(l, command);
        if ok then Drive(sha, l1, rest) else Over(l1)
      case TimedOut => Drive(sha, l, rest)
      case _ => Over(l)
  }

  /** From the first event to the last. A connection that never got to join does not report leaving. */
  function RunConnection(sha: Bytes -> Digest, l: Link, bits: Option<Bytes>, inputs: seq<Input>): Life {
    var (l1, joined) := Emit(l, PeerJoined(l.addr));
    if !joined then Over(l1)
    else
      var (l2, ok) := Greet(l1.(bitfield := seq(if l.pieceCount > 0 then (l.pieceCount + 7) / 8 else 0, _ => 0)), bits);
      var life := if ok then Drive(sha, l2, inputs) else Over(l2);
      if life.Over? then Over(Emit(life.link, PeerLeft(l.addr)).0) else life
  }

  // ----- the choke decisions on the wire -----

  function CommandsIn(inputs: seq<Input>): seq<Command> {
    if inputs == [] then []
    else
      var last := inputs[|inputs| - 1];
      CommandsIn(inputs[..|inputs| - 1]) + if last.FromCoordinator? then [last.command] else []
  }

  /** The choke decisions among some commands, true for a choke. */
  function Decisions(commands: seq<Command>): seq<bool> {
    if commands == [] then []
    else
      var last := commands[|commands| - 1];
      Decisions(commands[..|commands| - 1]) +
        if last.ChokePeer? || last.UnchokePeer? then [last.ChokePeer?] else []
  }

  /** The choke decisions that went out on the wire. */
  function Signals(sent: seq<Message>): seq<bool> {
    if sent == [] then []
    else
      var last := sent[|sent| - 1];
      Signals(sent[..|sent| - 1]) + if last.id == CHOKE || last.id == UNCHOKE then [last.id == CHOKE] else []
  }

  function LastOr(signals: seq<bool>): bool { if signals == [] then true else signals[|signals| - 1] }

  lemma {:induction false} ChokingIsLastDecision(commands: seq<Command>)
    ensures ChokingAfter(commands) == LastOr(Decisions(commands))
  {
    if commands != [] { ChokingIsLastDecision(commands[..|commands| - 1]); }
  }

  lemma {:induction false} CommandsAppend(before: seq<Input>, after: seq<Input>)
    ensures CommandsIn(before + after) == CommandsIn(before) + CommandsIn(after)
  {
    if after == [] {
      assert before + after == before;
    } else {
      var init := after[..|after| - 1];
      assert (before + after)[..|before + after| - 1] == before + init;
      CommandsAppend(before, init);
    }
  }

  lemma {:induction false} DecisionsAppend(before: seq<Command>, after: seq<Command>)
    ensures Decisions(before + after) == Decisions(before) + Decisions(after)
  {
    if after == [] {
      assert before + after == before;
    } else {
      var init := after[..|after| - 1];
      assert (before + after)[..|before + after| - 1] == before + init;
      DecisionsAppend(before, init);
    }
  }

  lemma {:induction false} SignalsAppend(sent: seq<Message>, m: Message)
    ensures Signals(sent + [m]) == Signals(sent) + if m.id == CHOKE || m.id == UNCHOKE then [m.id == CHOKE] else []
  {
    assert (sent + [m])[..|sent|] == sent;
  }

  function DecisionsIn(inputs: seq<Input>): seq<bool> { Decisions(CommandsIn(inputs)) }

  lemma {:induction false} DecisionsSplit(before: seq<Input>, after: seq<Input>)
    ensures DecisionsIn(before + after) == DecisionsIn(before) + DecisionsIn(after)
  {
    CommandsAppend(before, after);
    DecisionsAppend(CommandsIn(before), CommandsIn(after));
  }

  /** The link's choke flag is the last decision the peer was told about. */
  ghost predicate Told(l: Link) { l.amChoking == LastOr(Signals(l.sent)) }

  /** From l to r exactly these decisions went out. */
  ghost predicate Relayed(l: Link, r: Link, decisions: seq<bool>) {
    Told(r) && Signals(r.sent) == Signals(l.sent) + decisions
  }

  lemma {:induction false} RelayedThen(l: Link, m: Link, r: Link, first: seq<bool>, second: seq<bool>)
    requires Relayed(l, m, first) && Relayed(m, r, second)
    ensures Relayed(l, r, first + second)
  {
    assert Signals(l.sent) + first + second == Signals(l.sent) + (first + second);
  }

  lemma {:induction false} HandlingRelaysNothing(l: Link, seed: SeedSnapshot, m: Message)
    requires Told(l)
    ensures Relayed(l, HandleMessage(l, seed, m).0, [])
  {
    hide ServeRequest, ParseHave, Signals;
    if seed.Seed? {
      var service := ServeRequest(l.amChoking, seed, m.payload);
      if service.Reply? { SignalsAppend(l.sent, BlockMessage(service.block)); }
    }
  }

  lemma {:induction false} OneDecision(command: Command)
    ensures DecisionsIn([FromCoordinator(command)]) ==
      if command.ChokePeer? || command.UnchokePeer? then [command.ChokePeer?] else []
  {
    var inputs := [FromCoordinator(command)];
    assert inputs[..0] == [] && CommandsIn([]) == [];
    assert CommandsIn(inputs) == [] + [command] == [command];
    assert [command][..0] == [] && Decisions([]) == [];
  }

  lemma {:induction false} ApplyingRelays(l: Link, command: Command)
    requires Told(l) && ApplyCommand(l, command).1
    ensures Relayed(l, ApplyCommand(l, command).0, DecisionsIn([FromCoordinator(command)]))
  {
    hide Signals, DecisionsIn;
    OneDecision(command);
    SignalsAppend(l.sent, ChokeMessage(command.ChokePeer?));
  }

  lemma {:induction false} NoDecision(input: Input)
    requires !input.FromCoordinator?
    ensures DecisionsIn([input]) == []
  {
    assert [input][..0] == [] && CommandsIn([]) == [];
    assert CommandsIn([input]) == [];
  }

  lemma {:induction false} FillRelaysNothing(w: Work, a: Partial)
    requires Assembly.Shape(w, a) && Told(a.link)
    ensures Relayed(a.link, Fill(w, a).0.link, [])
    decreases BACKLOG_LIMIT - a.outstanding
  {
    hide AskFor, Signals, Blocks;
    var next := NextUnrequested(a.requested);
    if !a.link.peerChoking && a.outstanding < BACKLOG_LIMIT && next != -1 {
      var (link, ok) := Write(a.link, AskFor(w, next));
      if ok {
        SignalsAppend(a.link.sent, AskFor(w, next));
        FillRelaysNothing(
          w, a.(link := link, requested := a.requested[next := true], outstanding := a.outstanding + 1));
      }
    }
  }

  lemma {:induction false} InputRelays(w: Work, a: Partial, input: Input)
    requires Assembly.Shape(w, a) && Told(a.link) && AfterInput(w, a, input).1 != Some(CommandFailed)
    ensures Relayed(a.link, AfterInput(w, a, input).0.link, DecisionsIn([input]))
  {
    hide HandleMessage, ApplyCommand, ParsePiece, Signals, DecisionsIn, Blocks, AfterBlock;
    if input.FromCoordinator? {
      OneDecision(input.command);
      if !input.command.CancelPiece? && !input.command.Shutdown? { ApplyingRelays(a.link, input.command); }
    } else {
      NoDecision(input);
      if input.FromPeer? { HandlingRelaysNothing(a.link, input.seed, input.message); }
    }
  }

  /** While a piece is being downloaded, every choke decision taken off the queue goes out on the wire, in order. */
  lemma {:induction false} RunRelays(w: Work, a: Partial, inputs: seq<Input>)
    requires Assembly.Shape(w, a) && Told(a.link)
    ensures var r := Run(w, a, inputs);
      !(r.Failed? && r.failure == CommandFailed) ==>
        Relayed(a.link, r.partial.link, DecisionsIn(Taken(inputs, r)))
    decreases |inputs|
  {
    hide Fill, AfterInput, DecisionsIn, Relayed, Told;
    assert DecisionsIn([]) == [] by { NothingIn(); }
    if a.remaining > 0 {
      var (filled, sent) := Fill(w, a);
      FillRelaysNothing(w, a);
      if sent && inputs != [] {
        var (next, failure) := AfterInput(w, filled, inputs[0]);
        if failure != Some(CommandFailed) {
          RelayedIsTold(a.link, filled.link, []);
          InputRelays(w, filled, inputs[0]);
          RelayedThen(a.link, filled.link, next.link, [], DecisionsIn([inputs[0]]));
          assert [] + DecisionsIn([inputs[0]]) == DecisionsIn([inputs[0]]);
          if failure == None {
            RelayedIsTold(filled.link, next.link, DecisionsIn([inputs[0]]));
            RunRelays(w, next, inputs[1..]);
            var r := Run(w, next, inputs[1..]);
            if !(r.Failed? && r.failure == CommandFailed) {
              var later := Taken(inputs[1..], r);
              RelayedThen(a.link, next.link, r.partial.link, DecisionsIn([inputs[0]]), DecisionsIn(later));
              DecisionsSplit([inputs[0]], later);
              assert Taken(inputs, r) == [inputs[0]] + later;
            }
          } else {
            assert Taken(inputs, Run(w, a, inputs)) == [inputs[0]];
          }
        }
      } else {
        assert Taken(inputs, Run(w, a, inputs)) == [];
      }
    } else {
      assert Taken(inputs, Run(w, a, inputs)) == [];
      NothingRelayed(a.link);
    }
  }

  lemma {:induction false} NothingIn()
    ensures DecisionsIn([]) == []
  {
  }

  lemma {:induction false} NothingRelayed(l: Link)
    requires Told(l)
    ensures Relayed(l, l, [])
  {
  }

  lemma {:induction false} RelayedIsTold(l: Link, r: Link, decisions: seq<bool>)
    requires Relayed(l, r, decisions)
    ensures Told(r)
  {
  }

  lemma {:induction false} AnnouncingRelaysNothing(l: Link, index: nat, fetch: Fetch)
    requires !fetch.Pending? && Told(fetch.link)
    ensures Relayed(fetch.link, AfterFetch(l.addr, index, fetch).0, [])
  {
    hide Signals;
    SignalsAppend(fetch.link.sent, HaveMessage(index));
  }

  /** How much of the queue a download used up. */
  function UsedBy(inputs: seq<Input>, fetch: Fetch): seq<Input> {
    if fetch.Pending? || |fetch.rest| > |inputs| then inputs else inputs[..|inputs| - |fetch.rest|]
  }

  lemma {:induction false} FetchRelays(sha: Bytes -> Digest, w: Work, l: Link, inputs: seq<Input>)
    requires w.length > 0 && Told(l)
    ensures var fetch := FetchPiece(sha, w, l, inputs);
      !(fetch.GaveUp? && fetch.failure == CommandFailed) ==>
        Relayed(l, fetch.link, DecisionsIn(UsedBy(inputs, fetch)))
  {
    hide Run, Begin, Relayed, DecisionsIn, Told;
    BeginLinks(w, l);
    RunRelays(w, Begin(w, l), inputs);
  }

  lemma {:induction false} BeginLinks(w: Work, l: Link)
    requires w.length > 0
    ensures Begin(w, l).link == l
  {
  }

  lemma {:induction false} AssignmentRelays(sha: Bytes -> Digest, w: Work, l: Link, inputs: seq<Input>)
    requires w.length > 0 && Told(l) && !FetchPiece(sha, w, l, inputs).Pending?
    requires AfterFetch(l.addr, w.index, FetchPiece(sha, w, l, inputs)).1
    ensures var fetch := FetchPiece(sha, w, l, inputs);
      Relayed(l, AfterFetch(l.addr, w.index, fetch).0, DecisionsIn(UsedBy(inputs, fetch)))
  {
    hide FetchPiece, DecisionsIn, Signals, Told;
    var fetch := FetchPiece(sha, w, l, inputs);
    FetchRelays(sha, w, l, inputs);
    AnnouncingRelaysNothing(l, w.index, fetch);
    RelayedThen(l, fetch.link, AfterFetch(l.addr, w.index, fetch).0, DecisionsIn(UsedBy(inputs, fetch)), []);
    assert DecisionsIn(UsedBy(inputs, fetch)) + [] == DecisionsIn(UsedBy(inputs, fetch));
  }

  lemma {:induction false} ThenRelays(l: Link, m: Link, r: Link, first: seq<Input>, later: seq<Input>)
    requires Relayed(l, m, DecisionsIn(first)) && Relayed(m, r, DecisionsIn(later))
    ensures Relayed(l, r, DecisionsIn(first + later))
  {
    hide Relayed, DecisionsIn;
    RelayedThen(l, m, r, DecisionsIn(first), DecisionsIn(later));
    DecisionsSplit(first, later);
  }

  /** Idle or in the middle of a piece, a connection that is still up has passed on every choke decision it was given,
      once each and in order, and its choke flag is the last of them. */
  lemma {:induction false} DriveRelays(sha: Bytes -> Digest, l: Link, inputs: seq<Input>)
    requires Told(l)
    ensures Drive(sha, l, inputs).Listening? ==> Relayed(l, Drive(sha, l, inputs).link, DecisionsIn(inputs))
    decreases |inputs|, 0
  {
    hide FetchPiece, AfterFetch, HandleMessage, ApplyCommand, DecisionsIn, Relayed, Told;
    NothingIn();
    if inputs == [] {
      NothingRelayed(l);
    } else {
      var first, later := [inputs[0]], inputs[1..];
      assert inputs == first + later;
      match inputs[0]
      case FromPeer(m, seed) =>
        var (l1, ok) := HandleMessage(l, seed, m);
        HandlingRelaysNothing(l, seed, m);
        NoDecision(inputs[0]);
        if ok { ContinueRelays(sha, l, l1, first, later); }
      case FromCoordinator(AssignPiece(index, length, hash)) =>
        OneDecision(inputs[0].command);
        if length > 0 {
          var w := Work(index, hash, length);
          var fetch := FetchPiece(sha, w, l, later);
          NothingRelayed(l);
          if fetch.Pending? {
            FetchRelays(sha, w, l, later);
            ThenRelays(l, l, fetch.link, first, later);
          } else {
            var (l1, ok) := AfterFetch(l.addr, index, fetch);
            if ok {
              AssignmentRelays(sha, w, l, later);
              ThenRelays(l, l, l1, first, UsedBy(later, fetch));
              assert inputs == first + UsedBy(later, fetch) + fetch.rest;
              ContinueRelays(sha, l, l1, first + UsedBy(later, fetch), fetch.rest);
            }
          }
        }
      case FromCoordinator(Shutdown) =>
      case FromCoordinator(command) =>
        var (l1, ok) := ApplyCommand(l, command);
        if ok {
          ApplyingRelays(l, command);
          ContinueRelays(sha, l, l1, first, later);
        }
      case TimedOut =>
        NothingRelayed(l);
        NoDecision(inputs[0]);
        ContinueRelays(sha, l, l, first, later);
      case _ =>
    }
  }

  lemma {:induction false} ContinueRelays(sha: Bytes -> Digest, l: Link, m: Link, before: seq<Input>, later: seq<Input>)
    requires Told(l) && Relayed(l, m, DecisionsIn(before))
    ensures Drive(sha, m, later).Listening? ==> Relayed(l, Drive(sha, m, later).link, DecisionsIn(before + later))
    decreases |later|, 1
  {
    hide Drive, DecisionsIn;
    DriveRelays(sha, m, later);
    if Drive(sha, m, later).Listening? { ThenRelays(l, m, Drive(sha, m, later).link, before, later); }
  }

  /** From a connection's first message: what the peer was told is what the coordinator decided, and AmChoking agrees
      with the coordinator's own reckoning of the commands taken. */
  lemma {:induction false} ChokeDecisionsReachThePeer(
    sha: Bytes -> Digest, addr: Addr, pieceCount: nat, faults: Faults, bits: Option<Bytes>, inputs: seq<Input>)
    requires RunConnection(sha, NewLink(addr, pieceCount, faults), bits, inputs).Listening?
    ensures var r := RunConnection(sha, NewLink(addr, pieceCount, faults), bits, inputs).link;
      && Signals(r.sent) == Decisions(CommandsIn(inputs))
      && r.amChoking == ChokingAfter(CommandsIn(inputs))
  {
    hide Drive, Marked;
    var l := NewLink(addr, pieceCount, faults);
    var l1 := Emit(l, PeerJoined(addr)).0.(bitfield := seq((pieceCount + 7) / 8, _ => 0));
    var l2 := Greet(l1, bits).0;
    assert Signals([]) == [];
    GreetingRelaysNothing(l1, bits);
    DriveRelays(sha, l2, inputs);
    ChokingIsLastDecision(CommandsIn(inputs));
    assert [] + DecisionsIn(inputs) == DecisionsIn(inputs);
  }

  lemma {:induction false} GreetingRelaysNothing(l: Link, bits: Option<Bytes>)
    requires Told(l)
    ensures Relayed(l, Greet(l, bits).0, [])
  {
    hide Signals, Marked;
    SignalsAppend(l.sent, Message(INTERESTED, []));
    if bits.Some? {
      SignalsAppend(l.sent, Message(BITFIELD, bits.value));
      SignalsAppend(l.sent + [Message(BITFIELD, bits.value)], Message(INTERESTED, []));
    }
  }

  // ----- what a connection reports -----

  /** The event is this connection's own, and a piece it claims to have downloaded, or to have failed at, is one it was
      assigned; downloaded bytes have the length and the hash of that assignment. */
  ghost predicate Backed(sha: Bytes -> Digest, l: Link, commands: seq<Command>, e: Event) {
    && e.addr == l.addr
    && match e
       case PieceDownloaded(_, index, data) => index >= 0 && AssignPiece(index, |data|, sha(data)) in commands
       case PieceFailed(_, index) => exists c :: c in commands && c.AssignPiece? && c.index == index
       case HaveReceived(_, index) => 0 <= index < l.pieceCount
       case _ => true
  }

  /** Every event is backed, and joining comes first or not at all. */
  ghost predicate AllBacked(sha: Bytes -> Digest, l: Link, commands: seq<Command>) {
    forall k :: 0 <= k < |l.events| ==>
      Backed(sha, l, commands, l.events[k]) && (l.events[k].PeerJoined? ==> k == 0)
  }

  predicate SamePeer(l: Link, r: Link) { r.addr == l.addr && r.pieceCount == l.pieceCount && r.faults == l.faults }

  /** The same connection, with at most one more event, which is no outcome. */
  ghost predicate Chats(l: Link, r: Link) {
    && SamePeer(l, r)
    && (|| r.events == l.events
        || (exists e :: r.events == l.events + [e] && e.addr == l.addr && !e.PieceDownloaded? && !e.PieceFailed?
                        && !e.PeerJoined? && !e.PeerLeft? && (e.HaveReceived? ==> 0 <= e.index < l.pieceCount)))
  }

  lemma {:induction false} ChattingStaysBacked(sha: Bytes -> Digest, l: Link, r: Link, commands: seq<Command>)
    requires AllBacked(sha, l, commands) && Chats(l, r)
    ensures AllBacked(sha, r, commands)
  {
    forall k | 0 <= k < |r.events|
      ensures Backed(sha, r, commands, r.events[k]) && (r.events[k].PeerJoined? ==> k == 0)
    {
      if k < |l.events| {
        assert r.events[k] == l.events[k] && Backed(sha, l, commands, l.events[k]);
      }
    }
  }

  lemma {:induction false} EmittingChats(l: Link, m: Link, e: Event)
    requires SamePeer(l, m) && m.events == l.events && e.addr == l.addr && !e.PieceDownloaded? && !e.PieceFailed?
    requires !e.PeerJoined? && !e.PeerLeft?
    requires e.HaveReceived? ==> 0 <= e.index < l.pieceCount
    ensures Chats(l, Emit(m, e).0)
  {
  }

  lemma {:induction false} WritingChats(l: Link, m: Message, choking: bool)
    ensures Chats(l, l) && Chats(l, Write(l, m).0) && Chats(l, Write(l, m).0.(amChoking := choking))
  {
  }

  lemma {:induction false} HandlingChats(l: Link, seed: SeedSnapshot, m: Message)
    ensures Chats(l, HandleMessage(l, seed, m).0)
  {
    hide ServeRequest, Sized, SetPiece, Marked, Chats, Emit, Write;
    WritingChats(l, m, true);
    if m.id == BITFIELD {
      EmittingChats(l, l.(bitfield := m.payload), BitfieldReceived(l.addr, Marked(m.payload)));
    } else if m.id == HAVE {
      var have := ParseHave(m.payload, l.pieceCount);
      if have.Ok? {
        EmittingChats(l, l.(bitfield := SetPiece(l.bitfield, have.value)), HaveReceived(l.addr, have.value));
      }
    } else if m.id == CHOKE {
      EmittingChats(l, l.(peerChoking := true), ChokeReceived(l.addr));
    } else if m.id == UNCHOKE {
      EmittingChats(l, l.(peerChoking := false), UnchokeReceived(l.addr));
    } else if m.id == INTERESTED {
      EmittingChats(l, l.(peerInterested := true), InterestedReceived(l.addr));
    } else if m.id == NOT_INTERESTED {
      EmittingChats(l, l.(peerInterested := false), NotInterestedReceived(l.addr));
    } else if m.id == REQUEST && seed.Seed? {
      var service := ServeRequest(l.amChoking, seed, m.payload);
      if service.Reply? { WritingChats(l, BlockMessage(service.block), true); }
    }
  }

  lemma {:induction false} ApplyingChats(l: Link, command: Command)
    ensures Chats(l, ApplyCommand(l, command).0)
  {
    hide Chats, Write;
    WritingChats(l, ChokeMessage(command.ChokePeer?), command.ChokePeer?);
  }

  lemma {:induction false} InputChats(w: Work, a: Partial, input: Input)
    requires Assembly.Shape(w, a)
    ensures Chats(a.link, AfterInput(w, a, input).0.link)
  {
    hide HandleMessage, ApplyCommand, ParsePiece, Blocks;
    match input
    case FromPeer(m, seed) => HandlingChats(a.link, seed, m);
    case FromCoordinator(command) => ApplyingChats(a.link, command);
    case _ =>
  }

  lemma {:induction false} RunStaysBacked(
    sha: Bytes -> Digest, w: Work, a: Partial, inputs: seq<Input>, commands: seq<Command>)
    requires Assembly.Shape(w, a) && AllBacked(sha, a.link, commands)
    ensures AllBacked(sha, Run(w, a, inputs).partial.link, commands)
    ensures SamePeer(a.link, Run(w, a, inputs).partial.link)
    decreases |inputs|
  {
    hide Fill, AfterInput, AllBacked;
    if a.remaining > 0 {
      var (filled, sent) := Fill(w, a);
      FillStops(w, a);
      ChattingStaysBacked(sha, a.link, filled.link, commands);
      if sent && inputs != [] {
        var (next, failure) := AfterInput(w, filled, inputs[0]);
        InputChats(w, filled, inputs[0]);
        ChattingStaysBacked(sha, filled.link, next.link, commands);
        if failure == None { RunStaysBacked(sha, w, next, inputs[1..], commands); }
      }
    }
  }

  lemma {:induction false} MoreEvents(sha: Bytes -> Digest, l: Link, r: Link, commands: seq<Command>, e: Event)
    requires AllBacked(sha, l, commands) && Backed(sha, l, commands, e) && (e.PeerJoined? ==> l.events == [])
    requires SamePeer(l, r) && (r.events == l.events || r.events == l.events + [e])
    ensures AllBacked(sha, r, commands)
  {
    forall k | 0 <= k < |r.events|
      ensures Backed(sha, r, commands, r.events[k]) && (r.events[k].PeerJoined? ==> k == 0)
    {
      if k < |l.events| { assert Backed(sha, l, commands, l.events[k]); }
    }
  }

  lemma {:induction false} FetchStaysBacked(
    sha: Bytes -> Digest, w: Work, l: Link, inputs: seq<Input>, commands: seq<Command>)
    requires w.length > 0 && AllBacked(sha, l, commands)
    requires AssignPiece(w.index, w.length, w.expectedHash) in commands
    ensures AllBacked(sha, FetchPiece(sha, w, l, inputs).link, commands)
    ensures SamePeer(l, FetchPiece(sha, w, l, inputs).link)
    ensures !FetchPiece(sha, w, l, inputs).Pending? ==>
      var r := AfterFetch(l.addr, w.index, FetchPiece(sha, w, l, inputs)).0;
      AllBacked(sha, r, commands) && SamePeer(l, r)
  {
    hide Run, AllBacked;
    RunStaysBacked(sha, w, Begin(w, l), inputs, commands);
    var fetch := FetchPiece(sha, w, l, inputs);
    var l1 := fetch.link;
    match fetch
    case Pending(_) =>
    case Fetched(_, data, _) =>
      var l2 := Write(l1, HaveMessage(w.index)).0;
      MoreEvents(sha, l1, l2, commands, PeerReady(l.addr));
      var l3 := Emit(l2, PieceDownloaded(l.addr, w.index, data)).0;
      MoreEvents(sha, l2, l3, commands, PieceDownloaded(l.addr, w.index, data));
      MoreEvents(sha, l3, Emit(l3, PeerReady(l.addr)).0, commands, PeerReady(l.addr));
    case GaveUp(_, failure, _) =>
      MoreEvents(sha, l1, Emit(l1, PeerReady(l.addr)).0, commands, PeerReady(l.addr));
      var assigned' := AssignPiece(w.index, w.length, w.expectedHash);
      assert assigned' in commands && assigned'.index == w.index;
      MoreEvents(sha, l1, Emit(l1, PieceFailed(l.addr, w.index)).0, commands, PieceFailed(l.addr, w.index));
  }

  ghost predicate CommandsAmong(inputs: seq<Input>, commands: seq<Command>) {
    forall k :: 0 <= k < |inputs| && inputs[k].FromCoordinator? ==> inputs[k].command in commands
  }

  lemma {:induction false} DriveStaysBacked(
    sha: Bytes -> Digest, l: Link, inputs: seq<Input>, commands: seq<Command>)
    requires AllBacked(sha, l, commands) && CommandsAmong(inputs, commands)
    ensures AllBacked(sha, Drive(sha, l, inputs).link, commands) && SamePeer(l, Drive(sha, l, inputs).link)
    decreases |inputs|
  {
    hide FetchPiece, AfterFetch, HandleMessage, ApplyCommand, AllBacked;
    if inputs != [] {
      var later := inputs[1..];
      match inputs[0]
      case FromPeer(m, seed) =>
        var (l1, ok) := HandleMessage(l, seed, m);
        HandlingChats(l, seed, m);
        ChattingStaysBacked(sha, l, l1, commands);
        if ok { DriveStaysBacked(sha, l1, later, commands); }
      case FromCoordinator(AssignPiece(index, length, hash)) =>
        if length > 0 {
          var w := Work(index, hash, length);
          var fetch := FetchPiece(sha, w, l, later);
          FetchStaysBacked(sha, w, l, later, commands);
          if !fetch.Pending? {
            var (l1, ok) := AfterFetch(l.addr, index, fetch);
            if ok { DriveStaysBacked(sha, l1, fetch.rest, commands); }
          }
        }
      case FromCoordinator(Shutdown) =>
      case FromCoordinator(command) =>
        var (l1, ok) := ApplyCommand(l, command);
        ApplyingChats(l, command);
        ChattingStaysBacked(sha, l, l1, commands);
        if ok { DriveStaysBacked(sha, l1, later, commands); }
      case TimedOut => DriveStaysBacked(sha, l, later, commands);
      case _ =>
    }
  }

  /** Whatever the peer sends and whichever writes fail: every event of a connection is its own, every index it reports
      is in range, and a piece is reported as downloaded only with bytes that have the assigned length and hash. */
  lemma {:induction false} ReportsAreBacked(
    sha: Bytes -> Digest, addr: Addr, pieceCount: nat, faults: Faults, bits: Option<Bytes>, inputs: seq<Input>,
    commands: seq<Command>)
    requires CommandsAmong(inputs, commands)
    ensures var r := RunConnection(sha, NewLink(addr, pieceCount, faults), bits, inputs).link;
      AllBacked(sha, r, commands) && r.addr == addr && r.pieceCount == pieceCount
  {
    hide Drive, Marked, AllBacked;
    var l := NewLink(addr, pieceCount, faults);
    NothingReported(sha, l, commands);
    var (l1, joined) := Emit(l, PeerJoined(addr));
    MoreEvents(sha, l, l1, commands, PeerJoined(addr));
    if joined {
      var sized := l1.(bitfield := seq((pieceCount + 7) / 8, _ => 0));
      var (l2, ok) := Greet(sized, bits);
      MoreEvents(sha, l1, l2, commands, PeerReady(addr));
      DriveStaysBacked(sha, l2, inputs, commands);
      var life := if ok then Drive(sha, l2, inputs) else Over(l2);
      MoreEvents(sha, life.link, Emit(life.link, PeerLeft(addr)).0, commands, PeerLeft(addr));
    }
  }

  lemma {:induction false} NothingReported(sha: Bytes -> Digest, l: Link, commands: seq<Command>)
    requires l.events == []
    ensures AllBacked(sha, l, commands)
  {
  }
}
