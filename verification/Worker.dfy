/** A connection as the source writes it: one object per peer whose methods update its fields in place, and loops that
    fill buffers and queues. Each method is proved to do what Session, Assembly and Connection describe. */
module Worker {
  import opened Base
  import opened Assembly
  import opened Bitfield
  import opened Connection
  import opened Events
  import opened Geometry
  import opened Session
  import opened Storage
  import opened Wire

  /** One trip around the request loop. */
  lemma {:induction false} FillOnce(w: Work, a: Partial)
    requires Assembly.Shape(w, a)
    ensures var next := NextUnrequested(a.requested);
      Fill(w, a) ==
        if a.link.peerChoking || a.outstanding >= BACKLOG_LIMIT || next == -1 then (a, true)
        else if Write(a.link, AskFor(w, next)).1 then Fill(w, Asking(w, a, next))
        else (a.(link := Write(a.link, AskFor(w, next)).0), false)
  {
    hide AskFor, Blocks;
  }

  class Conn {
    const sha: Bytes -> Digest
    const addr: Addr
    const pieceCount: int
    const faults: Faults
    var amChoking: bool
    var peerChoking: bool
    var peerInterested: bool
    var bitfield: Bytes
    var sent: seq<Message>
    var attempts: nat
    var events: seq<Event>
    var offers: nat

    function View(): Link
      reads this
    {
      Link(addr, pieceCount, faults, amChoking, peerChoking, peerInterested, bitfield, sent, attempts, events, offers)
    }

    constructor (sha: Bytes -> Digest, addr: Addr, pieceCount: nat, faults: Faults)
      ensures View() == NewLink(addr, pieceCount, faults) && this.sha == sha
    {
      this.sha, this.addr, this.pieceCount, this.faults := sha, addr, pieceCount, faults;
      amChoking, peerChoking, peerInterested := true, true, false;
      bitfield := seq((pieceCount + 7) / 8, _ => 0);
      sent, attempts, events, offers := [], 0, [], 0;
    }

    method Send(m: Message) returns (ok: bool)
      modifies this`sent, this`attempts
      ensures (View(), ok) == Write(old(View()), m)
    {
      ok := attempts !in faults.writes;
      attempts := attempts + 1;
      if ok { sent := sent + [m]; }
    }

    method SendEvent(e: Event) returns (ok: bool)
      modifies this`events, this`offers
      ensures (View(), ok) == Emit(old(View()), e)
    {
      ok := offers !in faults.events;
      offers := offers + 1;
      if ok { events := events + [e]; }
    }

    /** Answers a request from disk; false when the peer misbehaved or the answer could not be sent. */
    method Serve(seed: SeedSnapshot, payload: Bytes) returns (ok: bool)
      requires seed.Seed?
      modifies this`sent, this`attempts
      ensures (View(), ok) == match ServeRequest(old(amChoking), seed, payload)
        case Refused => (old(View()), false)
        case Declined => (old(View()), true)
        case Reply(block) => Write(old(View()), BlockMessage(block))
    {
      if |payload| != 12 { return false; }
      var index := FromBigEndian(payload[0..4]);
      if index >= seed.layout.pieceCount { return false; }
      if amChoking { return true; }
      if index !in seed.have { return true; }
      var pieceLength := seed.layout.Length(index);
      if pieceLength == None { return false; }
      var parsed := ParseRequest(payload, seed.layout.pieceCount, pieceLength.value);
      if parsed.Err? { return false; }
      var request := parsed.value;
      if request.length > MAX_REQUEST_LENGTH { return false; }
      var read := ReadBlock(seed.layout, seed.file, index, request.begin, request.length);
      if read.Err? { return false; }
      ok := Send(PieceMessage(index, request.begin, read.value));
    }

    method Apply(command: Command) returns (ok: bool)
      modifies this
      ensures (View(), ok) == ApplyCommand(old(View()), command)
    {
      match command
      case ChokePeer =>
        ok := Send(Message(CHOKE, []));
        if !ok { return; }
        amChoking := true;
      case UnchokePeer =>
        ok := Send(Message(UNCHOKE, []));
        if !ok { return; }
        amChoking := false;
      case _ => ok := true;
    }

    method Handle(seed: SeedSnapshot, m: Message) returns (ok: bool)
      modifies this
      ensures (View(), ok) == HandleMessage(old(View()), seed, m)
    {
      hide ServeRequest;
      if m.id == BITFIELD {
        if !Sized(m.payload, pieceCount) { return false; }
        bitfield := m.payload;
        ok := SendEvent(BitfieldReceived(addr, Marked(m.payload)));
      } else if m.id == HAVE {
        var have := ParseHave(m.payload, pieceCount);
        if have.Err? { return true; }
        bitfield := SetPiece(bitfield, have.value);
        ok := SendEvent(HaveReceived(addr, have.value));
      } else if m.id == CHOKE {
        peerChoking := true;
        ok := SendEvent(ChokeReceived(addr));
      } else if m.id == UNCHOKE {
        peerChoking := false;
        ok := SendEvent(UnchokeReceived(addr));
      } else if m.id == INTERESTED {
        peerInterested := true;
        ok := SendEvent(InterestedReceived(addr));
      } else if m.id == NOT_INTERESTED {
        peerInterested := false;
        ok := SendEvent(NotInterestedReceived(addr));
      } else if m.id == REQUEST {
        if seed.NoSeed? { return true; }
        ok := Serve(seed, m.payload);
      } else {
        ok := true;
      }
    }

    // ----- one piece -----

    ghost function Snapshot(
      buf: array<Byte>, requested: array<bool>, received: array<bool>, outstanding: int, remaining: int, credited: int):
      Partial
      reads this, buf, requested, received
    {
      Partial(View(), buf[..], requested[..], received[..], outstanding, remaining, credited)
    }

    static method FirstUnrequested(requested: array<bool>) returns (next: int)
      ensures next == NextUnrequested(requested[..])
    {
      for i := 0 to requested.Length
        invariant forall b :: 0 <= b < i ==> requested[b]
      {
        if !requested[i] { return i; }
      }
      next := -1;
    }

    /** Tops up the pipeline; a is the state of the piece before. */
    method FillPipeline(w: Work, ghost a: Partial, requested: array<bool>, outstanding: int)
      returns (flying: int, ok: bool)
      requires Assembly.Shape(w, a) && a.link == View() && a.requested == requested[..] && a.outstanding == outstanding
      modifies this, requested
      ensures Fill(w, a) == (a.(link := View(), requested := requested[..], outstanding := flying), ok)
    {
      hide Fill, AskFor, Blocks;
      flying := outstanding;
      ghost var now := a;
      while !peerChoking && flying < BACKLOG_LIMIT
        invariant Assembly.Shape(w, now) && now.link == View() && now.requested == requested[..]
        invariant now == a.(link := now.link, requested := now.requested, outstanding := flying)
        invariant Fill(w, now) == Fill(w, a)
        decreases BACKLOG_LIMIT - flying
      {
        FillOnce(w, now);
        var next := FirstUnrequested(requested);
        if next < 0 { return flying, true; }
        ok := Send(AskFor(w, next));
        if !ok { return; }
        requested[next] := true;
        flying := flying + 1;
        now := Asking(w, now, next);
      }
      FillOnce(w, now);
      ok := true;
    }

    /** Stores a block, unless it belongs elsewhere or came before. */
    method ReceiveBlock(
      w: Work, ghost a: Partial, block: Block, buf: array<Byte>, requested: array<bool>, received: array<bool>,
      outstanding: int, remaining: int, credited: int) returns (flying: int, left: int, counted: int)
      requires a == Snapshot(buf, requested, received, outstanding, remaining, credited) && Assembly.Shape(w, a)
      requires requested != received && block.begin + |block.data| <= w.length
      modifies buf, requested, received
      ensures Snapshot(buf, requested, received, flying, left, counted) == AfterBlock(w, a, block)
    {
      flying, left, counted := outstanding, remaining, credited;
      if block.index != w.index { return; }
      if block.begin % BLOCK_SIZE != 0 { return; }
      var slot := block.begin / BLOCK_SIZE;
      if slot >= received.Length { return; }
      if flying > 0 { flying := flying - 1; }
      if received[slot] { return; }
      CopyInto(buf, block.begin, block.data);
      received[slot] := true;
      requested[slot] := true;
      left := left - 1;
      counted := counted + |block.data|;
    }

    static method CopyInto(buf: array<Byte>, start: nat, data: Bytes)
      requires start + |data| <= buf.Length
      modifies buf
      ensures buf[..] == Overwrite(old(buf[..]), start, data)
    {
      for i := 0 to |data|
        invariant forall k :: 0 <= k < buf.Length ==>
          buf[k] == if start <= k < start + i then data[k - start] else old(buf[k])
      {
        buf[start + i] := data[i];
      }
    }

    static method Forget(requested: array<bool>, received: array<bool>)
      requires requested.Length == received.Length && requested != received
      modifies requested
      ensures requested[..] == received[..]
    {
      for i := 0 to requested.Length
        invariant requested[..i] == received[..i]
      {
        requested[i] := received[i];
      }
    }
  
    /** Deals with whatever woke the loop up; failure is None when the download goes on. */
    method React(
      w: Work, ghost a: Partial, input: Input, buf: array<Byte>, requested: array<bool>, received: array<bool>,
      outstanding: int, remaining: int, credited: int)
      returns (flying: int, left: int, counted: int, failure: Option<Failure>)
      requires a == Snapshot(buf, requested, received, outstanding, remaining, credited) && Assembly.Shape(w, a)
      requires requested != received
      modifies this, buf, requested, received
      ensures (Snapshot(buf, requested, received, flying, left, counted), failure) == AfterInput(w, a, input)
    {
      hide HandleMessage, ApplyCommand, AfterBlock, ParsePiece, Blocks;
      flying, left, counted, failure := outstanding, remaining, credited, None;
      match input
      case PeerClosed => failure := Some(Closed);
      case CoordinatorClosed => failure := Some(ShutDown);
      case TimedOut => failure := Some(Expired);
      case FromCoordinator(command) =>
        if command.CancelPiece? {
          if command.index == w.index { failure := Some(Cancelled); }
        } else if command.Shutdown? {
          failure := Some(ShutDown);
        } else {
          var ok := Apply(command);
          if !ok { failure := Some(CommandFailed); }
        }
      case FromPeer(m, seed) =>
        if m.id == PIECE {
          var parsed := ParsePiece(m.payload, pieceCount, w.length);
          if parsed.Err? { return flying, left, counted, Some(BadBlock); }
          flying, left, counted :=
            ReceiveBlock(w, a, parsed.value, buf, requested, received, outstanding, remaining, credited);
        } else if m.id == CHOKE {
          peerChoking := true;
          flying := 0;
          Forget(requested, received);
          var ok := SendEvent(ChokeReceived(addr));
          if !ok { failure := Some(ShutDown); }
        } else if m.id == UNCHOKE {
          peerChoking := false;
          var ok := SendEvent(UnchokeReceived(addr));
          if !ok { failure := Some(ShutDown); }
        } else {
          var ok := Handle(seed, m);
          if !ok { failure := Some(HandlerFailed); }
        }
    }

    /** Requests and assembles every block of a piece from what arrives. */
    method DownloadBlocks(w: Work, inputs: seq<Input>) returns (outcome: Outcome)
      requires w.length > 0
      modifies this
      ensures outcome == Run(w, Begin(w, old(View())), inputs) && View() == outcome.partial.link
    {
      hide Run, Fill, AfterInput, Blocks;
      var blocks := Blocks(w);
      var buf := new Byte[w.length](_ => 0);
      var requested, received := new bool[blocks](_ => false), new bool[blocks](_ => false);
      var outstanding, remaining, credited := 0, blocks, 0;
      ghost var start := Begin(w, View());
      ghost var a := start;
      assert a == Snapshot(buf, requested, received, outstanding, remaining, credited);
      var i := 0;
      while remaining > 0
        invariant fresh(buf) && fresh(requested) && fresh(received) && requested != received
        invariant a == Snapshot(buf, requested, received, outstanding, remaining, credited) && Assembly.Shape(w, a)
        invariant i <= |inputs| && Run(w, a, inputs[i..]) == Run(w, start, inputs)
        decreases |inputs| - i
      {
        RunOnce(w, a, inputs, i);
        var flying, ok := FillPipeline(w, a, requested, outstanding);
        a := a.(link := View(), requested := requested[..], outstanding := flying);
        outstanding := flying;
        if !ok {
          return Failed(Partial(View(), buf[..], requested[..], received[..], outstanding, remaining, credited),
                        SendFailed, inputs[i..]);
        }
        if i == |inputs| {
          return Waiting(Partial(View(), buf[..], requested[..], received[..], outstanding, remaining, credited));
        }
        var failure;
        outstanding, remaining, credited, failure :=
          React(w, a, inputs[i], buf, requested, received, outstanding, remaining, credited);
        a := Snapshot(buf, requested, received, outstanding, remaining, credited);
        i := i + 1;
        if failure.Some? {
          return Failed(Partial(View(), buf[..], requested[..], received[..], outstanding, remaining, credited),
                        failure.value, inputs[i..]);
        }
      }
      RunOnce(w, a, inputs, i);
      outcome := Done(
        Partial(View(), buf[..], requested[..], received[..], outstanding, remaining, credited), inputs[i..]);
    }

    /** Downloads one piece and checks its hash. */
    method Piece(w: Work, inputs: seq<Input>) returns (fetch: Fetch)
      requires w.length > 0
      modifies this
      ensures fetch == FetchPiece(sha, w, old(View()), inputs) && View() == fetch.link
    {
      hide Run;
      var outcome := DownloadBlocks(w, inputs);
      match outcome
      case Waiting(_) => fetch := Pending(View());
      case Failed(_, failure, rest) => fetch := GaveUp(View(), failure, rest);
      case Done(a, rest) =>
        var ok := Verify(sha, a.buf, w.expectedHash);
        if ok != Some(true) { return GaveUp(View(), HashMismatch, rest); }
        fetch := Fetched(View(), a.buf, rest);
    }

    // ----- the whole connection -----

    method Greeting(bits: Option<Bytes>) returns (ok: bool)
      modifies this
      ensures (View(), ok) == Greet(old(View()), bits)
    {
      if bits.Some? {
        var count := Count(bits.value);
        if count > 0 {
          ok := Send(Message(BITFIELD, bits.value));
          if !ok { return; }
        }
        if count < pieceCount {
          ok := Send(Message(INTERESTED, []));
          return;
        }
        ok := true;
      } else {
        ok := Send(Message(INTERESTED, []));
      }
    }

    /** Reports how an assignment ended; false when the connection is to end too. */
    method Report(index: nat, fetch: Fetch) returns (ok: bool)
      requires !fetch.Pending? && View() == fetch.link
      modifies this
      ensures (View(), ok) == AfterFetch(addr, index, fetch)
    {
      match fetch
      case Fetched(_, data, _) =>
        var _ := Send(HaveMessage(index));
        ok := SendEvent(PieceDownloaded(addr, index, data));
        if !ok { return; }
        ok := SendEvent(PeerReady(addr));
      case GaveUp(_, failure, _) =>
        if failure == Cancelled {
          ok := SendEvent(PeerReady(addr));
        } else if failure == ShutDown {
          ok := false;
        } else {
          var _ := SendEvent(PieceFailed(addr, index));
          ok := false;
        }
    }

    /** The main loop; open is false when something has ended the connection. */
    method Listen(inputs: seq<Input>) returns (open: bool)
      modifies this
      ensures (if open then Listening(View()) else Over(View())) == Drive(sha, old(View()), inputs)
    {
      hide Drive, FetchPiece, AfterFetch, HandleMessage, ApplyCommand;
      var queue := inputs;
      while queue != []
        invariant Drive(sha, View(), queue) == Drive(sha, old(View()), inputs)
        decreases |queue|
      {
        DriveOnce(sha, View(), queue);
        var input := queue[0];
        queue := queue[1..];
        match input
        case FromPeer(m, seed) =>
          var ok := Handle(seed, m);
          if !ok { return false; }
        case FromCoordinator(command) =>
          match command {
            case AssignPiece(index, length, hash) =>
              if length <= 0 { return false; }
              var fetch := Piece(Work(index, hash, length), queue);
              if fetch.Pending? { return true; }
              var ok := Report(index, fetch);
              if !ok { return false; }
              queue := fetch.rest;
            case Shutdown => return false;
            case _ =>
              var ok := Apply(command);
              if !ok { return false; }
          }
        case TimedOut =>
        case _ => return false;
      }
      DriveOnce(sha, View(), queue);
      open := true;
    }

    /** A connection from its first event to its last. */
    method RunAll(bits: Option<Bytes>, inputs: seq<Input>) returns (open: bool)
      modifies this
      ensures (if open then Listening(View()) else Over(View())) == RunConnection(sha, old(View()), bits, inputs)
    {
      hide Drive, Greet;
      open := SendEvent(PeerJoined(addr));
      if !open { return; }
      bitfield := seq(if pieceCount > 0 then (pieceCount + 7) / 8 else 0, _ => 0);
      open := Greeting(bits);
      if open { open := Listen(inputs); }
      if !open { var _ := SendEvent(PeerLeft(addr)); }
    }
  }

  /** One trip around the download loop, in terms of what is left of the queue. */
  lemma {:induction false} RunOnce(w: Work, a: Partial, inputs: seq<Input>, i: nat)
    requires Assembly.Shape(w, a) && i <= |inputs|
    ensures Run(w, a, inputs[i..]) ==
      if a.remaining <= 0 then Done(a, inputs[i..])
      else if !Fill(w, a).1 then Failed(Fill(w, a).0, SendFailed, inputs[i..])
      else if i == |inputs| then Waiting(Fill(w, a).0)
      else
        var (next, failure) := AfterInput(w, Fill(w, a).0, inputs[i]);
        if failure.Some? then Failed(next, failure.value, inputs[i + 1..]) else Run(w, next, inputs[i + 1..])
  {
    hide Fill, AfterInput;
    if i < |inputs| { assert inputs[i..][1..] == inputs[i + 1..]; }
  }

  /** One trip around the connection's main loop. */
  lemma {:induction false} DriveOnce(sha: Bytes -> Digest, l: Link, queue: seq<Input>)
    ensures Drive(sha, l, queue) ==
      if queue == [] then Listening(l)
      else
        match queue[0]
        case FromPeer(m, seed) =>
          var (l1, ok) := HandleMessage(l, seed, m);
          if ok then Drive(sha, l1, queue[1..]) else Over(l1)
        case FromCoordinator(command) =>
          (match command
           case AssignPiece(index, length, hash) =>
             if length <= 0 then Over(l)
             else
               var fetch := FetchPiece(sha, Work(index, hash, length), l, queue[1..]);
               if fetch.Pending? then Listening(fetch.link)
               else
                 var (l1, ok) := AfterFetch(l.addr, index, fetch);
                 if ok then Drive(sha, l1, fetch.rest) else Over(l1)
           case Shutdown => Over(l)
           case _ =>
             var (l1, ok) := ApplyCommand(l, command);
             if ok then Drive(sha, l1, queue[1..]) else Over(l1))
        case TimedOut => Drive(sha, l, queue[1..])
        case _ => Over(l)
  {
    hide HandleMessage, ApplyCommand, FetchPiece, AfterFetch;
  }
}
