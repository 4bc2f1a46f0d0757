/** Downloading one piece over one connection: requests are pipelined, blocks arrive in any order, more than once, or
    not at all, and everything else the peer or the coordinator says in between is dealt with on the way. */
module Assembly {
  import opened Base
  import opened Bitfield
  import opened Events
  import opened Geometry
  import opened Session
  import opened Sets
  import opened Storage
  import opened Wire

  /** How many requests stay unanswered at once. */
  const BACKLOG_LIMIT := 5

  datatype Work = Work(index: nat, expectedHash: Digest, length: int)

  /** What a loop may be woken up by. A message comes with what could be served at that moment; between pieces,
      CoordinatorClosed also stands for the client being cancelled. */
  datatype Input =
    | FromPeer(message: Message, seed: SeedSnapshot)
    | PeerClosed
    | FromCoordinator(command: Command)
    | CoordinatorClosed
    | TimedOut

  datatype Failure =
    SendFailed | Closed | BadBlock | Cancelled | ShutDown | HandlerFailed | CommandFailed | Expired | HashMismatch

  /** A piece on its way: credited is what has been added to the progress display. */
  datatype Partial = Partial(
    link: Link,
    buf: Bytes,
    requested: seq<bool>,
    received: seq<bool>,
    outstanding: int,
    remaining: int,
    credited: int)

  /** The piece as a torrent of its own, which is how its blocks are computed. */
  function Alone(w: Work): Layout { Layout(1, w.length, w.length) }

  function Blocks(w: Work): nat
    requires w.length > 0
  {
    Alone(w).BlockCount(0).value
  }

  function Slot(w: Work, b: nat): (int, int)
    requires w.length > 0 && b < Blocks(w)
  {
    Alone(w).BlockBounds(0, b).value
  }

  predicate Shape(w: Work, a: Partial) {
    w.length > 0 && |a.buf| == w.length && |a.requested| == |a.received| == Blocks(w)
  }

  function Begin(w: Work, l: Link): (a: Partial)
    requires w.length > 0
    ensures Shape(w, a)
  {
    var n := Blocks(w);
    Partial(l, Zeros(w.length), seq(n, _ => false), seq(n, _ => false), 0, n, 0)
  }

  /** The first block not yet asked for, or -1. */
  function NextUnrequested(requested: seq<bool>): (next: int)
    ensures next == -1 ==> forall b :: 0 <= b < |requested| ==> requested[b]
    ensures next != -1 ==> 0 <= next < |requested| && !requested[next] && forall b :: 0 <= b < next ==> requested[b]
  {
    if requested == [] then -1
    else
      var last := |requested| - 1;
      var before := NextUnrequested(requested[..last]);
      if before != -1 then before else if requested[last] then -1 else last
  }

  function AskFor(w: Work, b: nat): (m: Message)
    requires w.length > 0 && b < Blocks(w)
    ensures m.id == REQUEST
  {
    SlotInside(w, b);
    RequestMessage(w.index, Slot(w, b).0, Slot(w, b).1)
  }

  /** Sends requests until the backlog is full or nothing is left to ask for; false when a send fails. */
  function Fill(w: Work, a: Partial): (r: (Partial, bool))
    requires Shape(w, a)
    ensures Shape(w, r.0) && r.0.buf == a.buf && r.0.received == a.received
    ensures r.0.remaining == a.remaining && r.0.credited == a.credited
    decreases BACKLOG_LIMIT - a.outstanding
  {
    var next := NextUnrequested(a.requested);
    if a.link.peerChoking || a.outstanding >= BACKLOG_LIMIT || next == -1 then (a, true)
    else
      var (link, ok) := Write(a.link, AskFor(w, next));
      if !ok then (a.(link := link), false)
      else Fill(w, a.(link := link, requested := a.requested[next := true], outstanding := a.outstanding + 1))
  }

  function Overwrite(buf: Bytes, start: nat, data: Bytes): (r: Bytes)
    requires start + |data| <= |buf|
    ensures |r| == |buf|
    ensures forall k :: 0 <= k < |buf| ==> r[k] == if start <= k < start + |data| then data[k - start] else buf[k]
  {
    buf[..start] + data + buf[start + |data|..]
  }

  /** A block goes into the slot it is aligned with, the first time it comes. Its length is not compared with the
      slot's. */
  function AfterBlock(w: Work, a: Partial, block: Block): (r: Partial)
    requires Shape(w, a) && block.begin + |block.data| <= w.length
    ensures Shape(w, r) && r.link == a.link
  {
    var slot := block.begin / BLOCK_SIZE;
    if block.index != w.index || block.begin % BLOCK_SIZE != 0 || slot >= Blocks(w) then a
    else
      var answered := a.(outstanding := if a.outstanding > 0 then a.outstanding - 1 else a.outstanding);
      if a.received[slot] then answered
      else
        answered.(buf := Overwrite(a.buf, block.begin, block.data),
                  received := a.received[slot := true],
                  requested := a.requested[slot := true],
                  remaining := a.remaining - 1,
                  credited := a.credited + |block.data|)
  }

  function AfterMessage(w: Work, a: Partial, seed: SeedSnapshot, m: Message): (r: (Partial, Option<Failure>))
    requires Shape(w, a)
    ensures Shape(w, r.0)
  {
    if m.id == PIECE then
      match ParsePiece(m.payload, a.link.pieceCount, w.length)
      case Err(_) => (a, Some(BadBlock))
      case Ok(block) => (AfterBlock(w, a, block), None)
    else if m.id == CHOKE then
      var (link, ok) := Emit(a.link.(peerChoking := true), ChokeReceived(a.link.addr));
      (a.(link := link, outstanding := 0, requested := a.received), if ok then None else Some(ShutDown))
    else if m.id == UNCHOKE then
      var (link, ok) := Emit(a.link.(peerChoking := false), UnchokeReceived(a.link.addr));
      (a.(link := link), if ok then None else Some(ShutDown))
    else
      var (link, ok) := HandleMessage(a.link, seed, m);
      (a.(link := link), if ok then None else Some(HandlerFailed))
  }

  function AfterCommand(w: Work, a: Partial, command: Command): (r: (Partial, Option<Failure>))
    requires Shape(w, a)
    ensures Shape(w, r.0) && r.0 == a.(link := r.0.link)
  {
    match command
    case CancelPiece(index) => (a, if index == w.index then Some(Cancelled) else None)
    case Shutdown => (a, Some(ShutDown))
    case _ =>
      var (link, ok) := ApplyCommand(a.link, command);
      (a.(link := link), if ok then None else Some(CommandFailed))
  }

  function AfterInput(w: Work, a: Partial, input: Input): (r: (Partial, Option<Failure>))
    requires Shape(w, a)
    ensures Shape(w, r.0)
  {
    match input
    case FromPeer(m, seed) => AfterMessage(w, a, seed, m)
    case PeerClosed => (a, Some(Closed))
    case FromCoordinator(command) => AfterCommand(w, a, command)
    case CoordinatorClosed => (a, Some(ShutDown))
    case TimedOut => (a, Some(Expired))
  }

  /** Where the loop stands after the inputs so far; rest is what it did not get to. */
  datatype Outcome =
    | Waiting(partial: Partial)
    | Done(partial: Partial, rest: seq<Input>)
    | Failed(partial: Partial, failure: Failure, rest: seq<Input>)

  function Run(w: Work, a: Partial, inputs: seq<Input>): (r: Outcome)
    requires Shape(w, a)
    ensures Shape(w, r.partial)
    ensures !r.Waiting? ==> |r.rest| <= |inputs| && r.rest == inputs[|inputs| - |r.rest|..]
    decreases |inputs|
  {
    if a.remaining <= 0 then Done(a, inputs)
    else
      var (filled, sent) := Fill(w, a);
      if !sent then Failed(filled, SendFailed, inputs)
      else if inputs == [] then Waiting(filled)
      else
        var (next, failure) := AfterInput(w, filled, inputs[0]);
        if failure.Some? then Failed(next, failure.value, inputs[1..]) else Run(w, next, inputs[1..])
  }

  // ----- geometry of the slots -----

  /** A piece's slots are the pieces of the layout that cuts it into blocks. */
  lemma {:induction false} SlotInside(w: Work, b: nat)
    requires w.length > 0 && b < Blocks(w)
    ensures OfBlocks(w.length).Valid() && Blocks(w) == OfBlocks(w.length).pieceCount
    ensures Slot(w, b) == (b * BLOCK_SIZE, OfBlocks(w.length).Size(b))
    ensures 1 <= Slot(w, b).1 <= BLOCK_SIZE && Slot(w, b).0 + Slot(w, b).1 <= w.length
  {
    AloneIsValid(w);
    BlocksAreALayout(Alone(w), 0);
    PieceInside(OfBlocks(w.length), b);
  }

  lemma {:induction false} AloneIsValid(w: Work)
    requires w.length > 0
    ensures Alone(w).Valid() && Alone(w).Size(0) == w.length && Blocks(w) == OfBlocks(w.length).pieceCount
    ensures OfBlocks(w.length).Valid()
  {
    QuotientUnique(w.length + w.length - 1, w.length, 1, w.length - 1);
    BlocksAreALayout(Alone(w), 0);
  }

  // ----- accounting -----

  ghost function Unreceived(a: Partial): set<int> { set b | 0 <= b < |a.received| && !a.received[b] }

  ghost function InFlight(a: Partial): set<int>
    requires |a.requested| == |a.received|
  {
    set b | 0 <= b < |a.received| && a.requested[b] && !a.received[b]
  }

  ghost function Unrequested(a: Partial): set<int> { set b | 0 <= b < |a.requested| && !a.requested[b] }

  /** The bookkeeping the loop relies on. */
  ghost predicate Sound(w: Work, a: Partial)
    requires Shape(w, a)
  {
    && (forall b :: 0 <= b < Blocks(w) && a.received[b] ==> a.requested[b])
    && a.remaining == |Unreceived(a)|
    && 0 <= a.outstanding <= BACKLOG_LIMIT
    && a.outstanding <= |InFlight(a)|
  }

  lemma {:induction false} BeginIsSound(w: Work, l: Link)
    requires w.length > 0
    ensures Sound(w, Begin(w, l))
  {
    assert Unreceived(Begin(w, l)) == Upto(Blocks(w));
    UptoSize(Blocks(w));
  }

  predicate SlotsOf(w: Work, slots: seq<nat>)
    requires w.length > 0
  {
    forall k :: 0 <= k < |slots| ==> slots[k] < Blocks(w)
  }

  function RequestsFor(w: Work, slots: seq<nat>): seq<Message>
    requires w.length > 0 && SlotsOf(w, slots)
  {
    if slots == [] then [] else [AskFor(w, slots[0])] + RequestsFor(w, slots[1..])
  }

  /** The slots, in order and each once, are what separates the two sets of requested blocks. */
  ghost predicate NewlyRequested(before: seq<bool>, after: seq<bool>, slots: seq<nat>) {
    && |before| == |after|
    && (forall k :: 0 <= k < |slots| ==> slots[k] < |before| && !before[slots[k]] && after[slots[k]])
    && (forall j, k :: 0 <= j < k < |slots| ==> slots[j] < slots[k])
    && (forall b :: 0 <= b < |before| && before[b] != after[b] ==> b in slots)
  }

  lemma {:induction false} NewlyRequestedCons(before: seq<bool>, after: seq<bool>, next: nat, later: seq<nat>)
    requires next < |before| && !before[next] && forall b :: 0 <= b < next ==> before[b]
    requires NewlyRequested(before[next := true], after, later)
    ensures NewlyRequested(before, after, [next] + later)
  {
    var slots, asked := [next] + later, before[next := true];
    forall k | 0 <= k < |slots| ensures slots[k] < |before| && !before[slots[k]] && after[slots[k]] {
      if k > 0 { assert slots[k] == later[k - 1]; }
      else { assert asked[next] == after[next] || next in later; }
    }
    forall b | 0 <= b < |before| && before[b] != after[b] ensures b in slots {
      if b != next { assert asked[b] != after[b]; }
    }
  }

  /** The blocks that filling the pipeline asks for. */
  ghost function Asked(w: Work, a: Partial): seq<nat>
    requires Shape(w, a)
    decreases BACKLOG_LIMIT - a.outstanding
  {
    var next := NextUnrequested(a.requested);
    if a.link.peerChoking || a.outstanding >= BACKLOG_LIMIT || next == -1 || !Write(a.link, AskFor(w, next)).1 then []
    else [next] + Asked(w, Asking(w, a, next))
  }

  ghost function Asking(w: Work, a: Partial, next: nat): (r: Partial)
    requires Shape(w, a) && next < |a.requested|
    ensures Shape(w, r)
  {
    a.(link := Write(a.link, AskFor(w, next)).0, requested := a.requested[next := true],
       outstanding := a.outstanding + 1)
  }

  lemma {:induction false} AskedIsNew(w: Work, a: Partial)
    requires Shape(w, a)
    ensures NewlyRequested(a.requested, Fill(w, a).0.requested, Asked(w, a))
    ensures Fill(w, a).0.outstanding == a.outstanding + |Asked(w, a)|
    decreases BACKLOG_LIMIT - a.outstanding
  {
    hide AskFor, NewlyRequested, Blocks;
    var next := NextUnrequested(a.requested);
    if a.link.peerChoking || a.outstanding >= BACKLOG_LIMIT || next == -1 || !Write(a.link, AskFor(w, next)).1 {
      NothingNew(a.requested);
    } else {
      var asking := Asking(w, a, next);
      AskedIsNew(w, asking);
      NewlyRequestedCons(a.requested, Fill(w, asking).0.requested, next, Asked(w, asking));
    }
  }

  lemma {:induction false} RequestsForCons(w: Work, next: nat, later: seq<nat>)
    requires w.length > 0 && next < Blocks(w) && SlotsOf(w, later)
    ensures SlotsOf(w, [next] + later)
    ensures RequestsFor(w, [next] + later) == [AskFor(w, next)] + RequestsFor(w, later)
  {
    hide AskFor, Blocks;
    assert ([next] + later)[1..] == later;
  }

  lemma {:induction false} AskingSends(w: Work, a: Partial, next: nat, later: seq<Message>)
    requires Shape(w, a) && next < |a.requested| && Write(a.link, AskFor(w, next)).1
    ensures Asking(w, a, next).link.sent + later == a.link.sent + ([AskFor(w, next)] + later)
  {
    hide AskFor, Blocks;
  }

  lemma {:induction false} AskedIsSent(w: Work, a: Partial)
    requires Shape(w, a)
    ensures SlotsOf(w, Asked(w, a)) && Fill(w, a).0.link.sent == a.link.sent + RequestsFor(w, Asked(w, a))
    decreases BACKLOG_LIMIT - a.outstanding
  {
    hide AskFor, Blocks, SlotsOf, RequestsFor;
    var next := NextUnrequested(a.requested);
    if !a.link.peerChoking && a.outstanding < BACKLOG_LIMIT && next != -1 && Write(a.link, AskFor(w, next)).1 {
      var asking := Asking(w, a, next);
      AskedIsSent(w, asking);
      AskingSends(w, a, next, RequestsFor(w, Asked(w, asking)));
      RequestsForCons(w, next, Asked(w, asking));
    } else {
      NothingAskedFor(w);
    }
  }

  lemma {:induction false} NothingAskedFor(w: Work)
    requires w.length > 0
    ensures SlotsOf(w, []) && RequestsFor(w, []) == []
  {
  }

  /** Filling the pipeline sends requests for exactly the blocks it marks as requested, lowest first, none of which had
      been asked for or had arrived before. */
  lemma {:induction false} FillAsksOnlyForMissing(w: Work, a: Partial)
    requires Shape(w, a) && Sound(w, a)
    ensures SlotsOf(w, Asked(w, a)) && Fill(w, a).0.link.sent == a.link.sent + RequestsFor(w, Asked(w, a))
    ensures NewlyRequested(a.requested, Fill(w, a).0.requested, Asked(w, a))
    ensures forall k :: 0 <= k < |Asked(w, a)| ==> Asked(w, a)[k] in Unreceived(a)
    ensures Fill(w, a).0.outstanding == a.outstanding + |Asked(w, a)|
  {
    hide Asked, Fill;
    AskedIsNew(w, a);
    AskedIsSent(w, a);
  }

  lemma {:induction false} NothingNew(requested: seq<bool>)
    ensures NewlyRequested(requested, requested, [])
  {
  }

  /** Only sending has happened. */
  ghost predicate OnlySent(l: Link, r: Link) { r == l.(sent := r.sent, attempts := r.attempts) }

  lemma {:induction false} OnlySentThen(l: Link, m: Link, r: Link)
    requires OnlySent(l, m) && OnlySent(m, r)
    ensures OnlySent(l, r)
  {
  }

  lemma {:induction false} WritingOnlySends(l: Link, m: Message)
    ensures OnlySent(l, Write(l, m).0) && OnlySent(l, l)
  {
  }

  /** Filling listens to nobody. */
  lemma {:induction false} FillOnlySends(w: Work, a: Partial)
    requires Shape(w, a)
    ensures OnlySent(a.link, Fill(w, a).0.link)
    decreases BACKLOG_LIMIT - a.outstanding
  {
    hide AskFor, Blocks, OnlySent;
    var next := NextUnrequested(a.requested);
    WritingOnlySends(a.link, ChokeMessage(true));
    if !a.link.peerChoking && a.outstanding < BACKLOG_LIMIT && next != -1 {
      WritingOnlySends(a.link, AskFor(w, next));
      if Write(a.link, AskFor(w, next)).1 {
        FillOnlySends(w, Asking(w, a, next));
        OnlySentThen(a.link, Asking(w, a, next).link, Fill(w, a).0.link);
      }
    }
  }

  ghost predicate NothingToAsk(a: Partial) {
    a.outstanding >= BACKLOG_LIMIT || forall b :: 0 <= b < |a.requested| ==> a.requested[b]
  }

  /** Filling stops only when the peer chokes us, the backlog is full, or nothing is left to ask for; it listens to
      nobody. */
  lemma {:induction false} FillStops(w: Work, a: Partial)
    requires Shape(w, a)
    ensures Fill(w, a).1 && !a.link.peerChoking ==> NothingToAsk(Fill(w, a).0)
    ensures OnlySent(a.link, Fill(w, a).0.link)
    decreases BACKLOG_LIMIT - a.outstanding
  {
    hide AskFor, Blocks, OnlySent, NothingToAsk;
    FillOnlySends(w, a);
    var next := NextUnrequested(a.requested);
    if !a.link.peerChoking && a.outstanding < BACKLOG_LIMIT && next != -1 {
      if Write(a.link, AskFor(w, next)).1 { FillStops(w, Asking(w, a, next)); }
    } else if !a.link.peerChoking {
      FullOrDone(a);
    }
  }

  lemma {:induction false} FullOrDone(a: Partial)
    requires a.outstanding >= BACKLOG_LIMIT || NextUnrequested(a.requested) == -1
    ensures NothingToAsk(a)
  {
  }

  lemma {:induction false} AskingStaysSound(w: Work, a: Partial, next: nat)
    requires Shape(w, a) && Sound(w, a) && next < |a.requested| && !a.requested[next] && a.outstanding < BACKLOG_LIMIT
    ensures Sound(w, Asking(w, a, next))
  {
    hide AskFor, Blocks, Write;
    var asking := Asking(w, a, next);
    assert InFlight(asking) == InFlight(a) + {next};
    assert Unreceived(asking) == Unreceived(a);
  }

  lemma {:induction false} SameBlocksStaySound(w: Work, a: Partial, link: Link)
    requires Shape(w, a) && Sound(w, a)
    ensures Shape(w, a.(link := link)) && Sound(w, a.(link := link))
  {
    hide Blocks;
    var r := a.(link := link);
    assert InFlight(r) == InFlight(a) && Unreceived(r) == Unreceived(a);
  }

  lemma {:induction false} FillStaysSound(w: Work, a: Partial)
    requires Shape(w, a) && Sound(w, a)
    ensures Sound(w, Fill(w, a).0)
    decreases BACKLOG_LIMIT - a.outstanding
  {
    hide AskFor, Blocks, Sound;
    var next := NextUnrequested(a.requested);
    if !a.link.peerChoking && a.outstanding < BACKLOG_LIMIT && next != -1 {
      AskingStaysSound(w, a, next);
      if Write(a.link, AskFor(w, next)).1 {
        FillStaysSound(w, Asking(w, a, next));
      } else {
        SameBlocksStaySound(w, a, Write(a.link, AskFor(w, next)).0);
      }
    }
  }

  lemma {:induction false} BlockStaysSound(w: Work, a: Partial, block: Block)
    requires Shape(w, a) && Sound(w, a) && block.begin + |block.data| <= w.length
    ensures Sound(w, AfterBlock(w, a, block))
  {
    var r := AfterBlock(w, a, block);
    var slot := block.begin / BLOCK_SIZE;
    if r.received == a.received {
      assert Unreceived(r) == Unreceived(a) && InFlight(r) == InFlight(a);
    } else {
      assert Unreceived(r) == Unreceived(a) - {slot};
      assert InFlight(r) == InFlight(a) - {slot};
    }
  }

  lemma {:induction false} InputStaysSound(w: Work, a: Partial, input: Input)
    requires Shape(w, a) && Sound(w, a)
    ensures Sound(w, AfterInput(w, a, input).0)
  {
    hide HandleMessage, ApplyCommand, AfterBlock, Emit;
    var r := AfterInput(w, a, input).0;
    if input.FromPeer? && input.message.id == PIECE {
      var parsed := ParsePiece(input.message.payload, a.link.pieceCount, w.length);
      if parsed.Ok? { BlockStaysSound(w, a, parsed.value); }
    } else {
      assert Unreceived(r) == Unreceived(a);
      if input.FromPeer? && input.message.id == CHOKE {
        assert |InFlight(r)| >= 0;
      } else {
        assert InFlight(r) == InFlight(a);
      }
    }
  }

  // ----- what the peer said last -----

  predicate Says(input: Input, id: MessageId) { input.FromPeer? && input.message.id == id }

  /** Whether the peer chokes us after some inputs: as the last choke or unchoke message among them says, and as
      before if there is none. */
  function LastSaid(before: bool, inputs: seq<Input>): bool {
    if inputs == [] then before
    else
      var last := inputs[|inputs| - 1];
      if Says(last, CHOKE) then true
      else if Says(last, UNCHOKE) then false
      else LastSaid(before, inputs[..|inputs| - 1])
  }

  lemma {:induction false} LastSaidAppend(before: bool, first: seq<Input>, later: seq<Input>)
    ensures LastSaid(before, first + later) == LastSaid(LastSaid(before, first), later)
  {
    if later == [] {
      assert first + later == first;
    } else {
      var init := later[..|later| - 1];
      assert (first + later)[..|first + later| - 1] == first + init;
      LastSaidAppend(before, first, init);
    }
  }

  lemma {:induction false} InputIsHeard(w: Work, a: Partial, input: Input)
    requires Shape(w, a)
    ensures AfterInput(w, a, input).0.link.peerChoking == LastSaid(a.link.peerChoking, [input])
  {
    hide AfterBlock, ParsePiece, ParseHave, ServeRequest, Sized, SetPiece, Marked, BlockMessage;
    assert [input][..0] == [];
  }

  /** The inputs a piece has used up. */
  function Taken(inputs: seq<Input>, outcome: Outcome): seq<Input> {
    if outcome.Waiting? || |outcome.rest| > |inputs| then inputs else inputs[..|inputs| - |outcome.rest|]
  }

  lemma {:induction false} TakenOneMore(first: Input, later: seq<Input>, r: Outcome)
    requires !r.Waiting? ==> |r.rest| <= |later|
    ensures Taken([first] + later, r) == [first] + Taken(later, r)
  {
  }

  /** In the middle of a piece: the flag the loop goes by is what the peer said last among what has been used up. */
  lemma {:induction false} RunHears(w: Work, a: Partial, inputs: seq<Input>)
    requires Shape(w, a)
    ensures var r := Run(w, a, inputs);
      r.partial.link.peerChoking == LastSaid(a.link.peerChoking, Taken(inputs, r))
    decreases |inputs|
  {
    hide Fill, AfterInput, LastSaid, OnlySent;
    NothingSaid(a.link.peerChoking);
    var r := Run(w, a, inputs);
    if a.remaining > 0 {
      var (filled, sent) := Fill(w, a);
      FillOnlySends(w, a);
      SendingHearsNothing(a.link, filled.link);
      if sent && inputs != [] {
        var (next, failure) := AfterInput(w, filled, inputs[0]);
        InputIsHeard(w, filled, inputs[0]);
        assert inputs == [inputs[0]] + inputs[1..];
        if failure == None {
          RunHears(w, next, inputs[1..]);
          TakenOneMore(inputs[0], inputs[1..], r);
          LastSaidAppend(a.link.peerChoking, [inputs[0]], Taken(inputs[1..], r));
        } else {
          assert Taken(inputs, r) == [inputs[0]];
        }
      } else {
        assert Taken(inputs, r) == [];
      }
    } else {
      assert Taken(inputs, r) == [];
    }
  }

  lemma {:induction false} SendingHearsNothing(l: Link, r: Link)
    requires OnlySent(l, r)
    ensures r.peerChoking == l.peerChoking
  {
  }

  lemma {:induction false} NothingSaid(before: bool)
    ensures LastSaid(before, []) == before
  {
  }

  /** Whatever arrives, the bookkeeping stays right; so the loop never waits on a peer whose last word was to let us
      download without having something in flight, and it only finishes when every block has come. */
  lemma {:induction false} NeverIdle(w: Work, a: Partial, inputs: seq<Input>)
    requires Shape(w, a) && Sound(w, a)
    ensures Sound(w, Run(w, a, inputs).partial)
    ensures var r := Run(w, a, inputs);
      && (r.Waiting? && !LastSaid(a.link.peerChoking, inputs) ==>
            InFlight(r.partial) != {} && (r.partial.outstanding == BACKLOG_LIMIT || Unrequested(r.partial) == {}))
      && (r.Done? ==> Unreceived(r.partial) == {})
    decreases |inputs|
  {
    hide AfterInput, Fill, LastSaid;
    RunHears(w, a, inputs);
    if a.remaining > 0 {
      var filled := Fill(w, a).0;
      FillStops(w, a);
      FillStaysSound(w, a);
      if Fill(w, a).1 {
        if inputs == [] {
          if forall b :: 0 <= b < |filled.requested| ==> filled.requested[b] {
            assert Unrequested(filled) == {};
            assert InFlight(filled) == Unreceived(filled);
          }
        } else {
          InputStaysSound(w, filled, inputs[0]);
          var (next, failure) := AfterInput(w, filled, inputs[0]);
          if failure == None {
            RunHears(w, next, inputs[1..]);
            NeverIdle(w, next, inputs[1..]);
          }
        }
      }
    }
  }

  /** From the start of any piece. */
  lemma {:induction false} PieceNeverIdles(w: Work, l: Link, inputs: seq<Input>)
    requires w.length > 0
    ensures var r := Run(w, Begin(w, l), inputs);
      && Sound(w, r.partial)
      && (r.Waiting? && !LastSaid(l.peerChoking, inputs) ==> InFlight(r.partial) != {})
      && (r.Done? ==> Unreceived(r.partial) == {})
  {
    hide Run, Sound, LastSaid;
    BeginIsSound(w, l);
    NeverIdle(w, Begin(w, l), inputs);
  }

  // ----- how many requests -----

  function Requests(sent: seq<Message>): nat {
    if sent == [] then 0 else Requests(sent[..|sent| - 1]) + if sent[|sent| - 1].id == REQUEST then 1 else 0
  }

  predicate IsChoke(input: Input) { input.FromPeer? && input.message.id == CHOKE }

  function Chokes(inputs: seq<Input>): nat {
    if inputs == [] then 0 else (if IsChoke(inputs[0]) then 1 else 0) + Chokes(inputs[1..])
  }

  lemma {:induction false} RequestsAppend(sent: seq<Message>, m: Message)
    ensures Requests(sent + [m]) == Requests(sent) + if m.id == REQUEST then 1 else 0
  {
    assert (sent + [m])[..|sent|] == sent;
  }

  lemma {:induction false} AskingSpends(w: Work, a: Partial, next: nat)
    requires Shape(w, a) && next < |a.requested| && !a.requested[next] && Write(a.link, AskFor(w, next)).1
    ensures var r := Asking(w, a, next);
      Requests(r.link.sent) == Requests(a.link.sent) + 1 && |Unrequested(r)| == |Unrequested(a)| - 1
  {
    hide AskFor, Blocks, Requests;
    RequestsAppend(a.link.sent, AskFor(w, next));
    assert Unrequested(Asking(w, a, next)) == Unrequested(a) - {next};
  }

  /** Requests already sent plus requests still to send only grows when a choke makes us ask again. */
  lemma {:induction false} FillSpendsBudget(w: Work, a: Partial)
    requires Shape(w, a)
    ensures var r := Fill(w, a).0;
      Requests(r.link.sent) + |Unrequested(r)| == Requests(a.link.sent) + |Unrequested(a)|
    decreases BACKLOG_LIMIT - a.outstanding
  {
    hide AskFor, Blocks, Requests, Unrequested;
    var next := NextUnrequested(a.requested);
    if !a.link.peerChoking && a.outstanding < BACKLOG_LIMIT && next != -1 {
      if Write(a.link, AskFor(w, next)).1 {
        AskingSpends(w, a, next);
        FillSpendsBudget(w, Asking(w, a, next));
      } else {
        SameUnrequested(a, Fill(w, a).0);
      }
    }
  }

  lemma {:induction false} SameUnrequested(a: Partial, r: Partial)
    requires r.requested == a.requested
    ensures Unrequested(r) == Unrequested(a)
  {
  }

  lemma {:induction false} HandlingRequestsNothing(l: Link, seed: SeedSnapshot, m: Message)
    ensures Requests(HandleMessage(l, seed, m).0.sent) == Requests(l.sent)
  {
    hide ServeRequest, ParseHave, BlockMessage, Requests;
    if seed.Seed? {
      var service := ServeRequest(l.amChoking, seed, m.payload);
      if service.Reply? { RequestsAppend(l.sent, BlockMessage(service.block)); }
    }
  }

  lemma {:induction false} ApplyingRequestsNothing(l: Link, command: Command)
    ensures Requests(ApplyCommand(l, command).0.sent) == Requests(l.sent)
  {
    hide Requests;
    RequestsAppend(l.sent, ChokeMessage(true));
    RequestsAppend(l.sent, ChokeMessage(false));
  }

  lemma {:induction false} InputKeepsBudget(w: Work, a: Partial, input: Input)
    requires Shape(w, a) && Sound(w, a)
    ensures var r := AfterInput(w, a, input).0;
      Requests(r.link.sent) + |Unrequested(r)| <=
        Requests(a.link.sent) + |Unrequested(a)| + if IsChoke(input) then Blocks(w) else 0
  {
    hide HandleMessage, ApplyCommand, ParsePiece;
    var r := AfterInput(w, a, input).0;
    match input
    case FromPeer(m, seed) =>
      HandlingRequestsNothing(a.link, seed, m);
      assert Unrequested(r) <= Upto(Blocks(w));
      UptoSize(Blocks(w));
      SubsetSize(Unrequested(r), Upto(Blocks(w)));
      if m.id != CHOKE {
        assert Unrequested(r) <= Unrequested(a);
        SubsetSize(Unrequested(r), Unrequested(a));
      }
    case FromCoordinator(command) =>
      ApplyingRequestsNothing(a.link, command);
      assert Unrequested(r) == Unrequested(a);
    case _ =>
  }

  /** At most one request per block, and once more per block for every choke. */
  lemma {:induction false} RequestsAreBounded(w: Work, a: Partial, inputs: seq<Input>)
    requires Shape(w, a) && Sound(w, a)
    ensures var r := Run(w, a, inputs).partial;
      Requests(r.link.sent) + |Unrequested(r)| <= Requests(a.link.sent) + |Unrequested(a)| + Blocks(w) * Chokes(inputs)
    decreases |inputs|
  {
    hide AfterInput, Fill, Requests, Unrequested, Sound, IsChoke, Blocks;
    if a.remaining > 0 {
      var filled := Fill(w, a).0;
      FillSpendsBudget(w, a);
      FillStaysSound(w, a);
      if Fill(w, a).1 && inputs != [] {
        var n, later := Blocks(w), Chokes(inputs[1..]);
        assert n * Chokes(inputs) == n * later + if IsChoke(inputs[0]) then n else 0;
        InputStaysSound(w, filled, inputs[0]);
        InputKeepsBudget(w, filled, inputs[0]);
        var (next, failure) := AfterInput(w, filled, inputs[0]);
        if failure == None { RequestsAreBounded(w, next, inputs[1..]); }
      }
    }
  }

  /** From the start of a piece: no more than blocks * (1 + chokes) requests. */
  lemma {:induction false} RequestsPerPiece(w: Work, l: Link, inputs: seq<Input>)
    requires w.length > 0
    ensures Requests(Run(w, Begin(w, l), inputs).partial.link.sent) <=
      Requests(l.sent) + Blocks(w) * (1 + Chokes(inputs))
  {
    hide Run, Requests, Chokes, Blocks, Sound;
    BeginIsSound(w, l);
    RequestsAreBounded(w, Begin(w, l), inputs);
    assert Begin(w, l).link == l;
    assert Unrequested(Begin(w, l)) == Upto(Blocks(w));
    UptoSize(Blocks(w));
    assert Blocks(w) * (1 + Chokes(inputs)) == Blocks(w) + Blocks(w) * Chokes(inputs);
  }

  // ----- reassembly -----

  /** The block goes into one of the piece's slots. */
  predicate Fits(w: Work, block: Block)
    requires w.length > 0
  {
    block.index == w.index && block.begin % BLOCK_SIZE == 0 && block.begin / BLOCK_SIZE < Blocks(w)
  }

  /** The block an input carries for this piece, if it carries one. */
  function Carried(w: Work, pieceCount: int, input: Input): (r: Option<Block>)
    requires w.length > 0
    ensures r.Some? ==> r.value.begin + |r.value.data| <= w.length && Fits(w, r.value)
  {
    if input.FromPeer? && input.message.id == PIECE then
      match ParsePiece(input.message.payload, pieceCount, w.length)
      case Err(_) => None
      case Ok(block) => if Fits(w, block) then Some(block) else None
    else None
  }

  /** A block for this piece has the source's bytes, at least as many as its slot takes; anything else is allowed. */
  ghost predicate Honest(w: Work, source: Bytes, pieceCount: int, input: Input)
    requires |source| == w.length > 0
  {
    match Carried(w, pieceCount, input)
    case None => true
    case Some(block) =>
      && block.data == source[block.begin..block.begin + |block.data|]
      && |block.data| >= Slot(w, block.begin / BLOCK_SIZE).1
  }

  /** A block for this piece has exactly as many bytes as its slot takes. */
  ghost predicate Exact(w: Work, pieceCount: int, input: Input)
    requires w.length > 0
  {
    match Carried(w, pieceCount, input)
    case None => true
    case Some(block) => |block.data| == Slot(w, block.begin / BLOCK_SIZE).1
  }

  /** Every byte of a received slot is the source's. */
  ghost predicate Matches(w: Work, source: Bytes, a: Partial)
    requires Shape(w, a) && |source| == w.length
  {
    forall k :: 0 <= k < w.length && k / BLOCK_SIZE < Blocks(w) && a.received[k / BLOCK_SIZE] ==> a.buf[k] == source[k]
  }

  ghost function Received(a: Partial): set<int> { set b | 0 <= b < |a.received| && a.received[b] }

  ghost function ReceivedBytes(w: Work, a: Partial): int
    requires Shape(w, a)
  {
    AloneIsValid(w);
    OwnedBytes(OfBlocks(w.length), Received(a), Blocks(w))
  }

  lemma {:induction false} CarriedIsStored(w: Work, a: Partial, input: Input)
    requires Shape(w, a)
    ensures var r := AfterInput(w, a, input).0;
      match Carried(w, a.link.pieceCount, input)
      case None => r.buf == a.buf && r.received == a.received && r.credited == a.credited
      case Some(block) => r == AfterBlock(w, a, block)
    ensures AfterInput(w, a, input).0.link.pieceCount == a.link.pieceCount
  {
    hide ParsePiece, ServeRequest, ParseHave, Blocks;
  }

  lemma {:induction false} BlockMatches(w: Work, source: Bytes, a: Partial, block: Block)
    requires Shape(w, a) && |source| == w.length && Matches(w, source, a)
    requires Fits(w, block) && block.begin + |block.data| <= w.length
    requires block.data == source[block.begin..block.begin + |block.data|]
    requires |block.data| >= Slot(w, block.begin / BLOCK_SIZE).1
    ensures Matches(w, source, AfterBlock(w, a, block))
  {
    hide Blocks, Slot;
    var begin, end, slot := block.begin, block.begin + |block.data|, block.begin / BLOCK_SIZE;
    var r := AfterBlock(w, a, block);
    SlotInside(w, slot);
    forall k | 0 <= k < w.length && k / BLOCK_SIZE < Blocks(w) && r.received[k / BLOCK_SIZE]
      ensures r.buf[k] == source[k]
    {
      if k / BLOCK_SIZE == slot { SlotReaches(w, k); }
      if r.received != a.received && begin <= k < end {
        assert r.buf[k] == block.data[k - begin];
      }
    }
  }

  lemma {:induction false} InputMatches(w: Work, source: Bytes, a: Partial, input: Input)
    requires Shape(w, a) && |source| == w.length && Matches(w, source, a)
    requires Honest(w, source, a.link.pieceCount, input)
    ensures Matches(w, source, AfterInput(w, a, input).0)
  {
    hide AfterInput, AfterBlock, Carried, Blocks, Slot;
    CarriedIsStored(w, a, input);
    var carried := Carried(w, a.link.pieceCount, input);
    if carried.Some? { BlockMatches(w, source, a, carried.value); }
  }

  /** A byte of the piece lies in the slot its offset divides into. */
  lemma {:induction false} SlotReaches(w: Work, k: nat)
    requires k < w.length
    ensures k / BLOCK_SIZE < Blocks(w)
    ensures Slot(w, k / BLOCK_SIZE).0 <= k < Slot(w, k / BLOCK_SIZE).0 + Slot(w, k / BLOCK_SIZE).1
  {
    AloneIsValid(w);
    PiecesTile(OfBlocks(w.length), k);
    SlotInside(w, k / BLOCK_SIZE);
  }

  lemma {:induction false} InputCredits(w: Work, a: Partial, input: Input)
    requires Shape(w, a) && a.credited == ReceivedBytes(w, a) && Exact(w, a.link.pieceCount, input)
    ensures AfterInput(w, a, input).0.credited == ReceivedBytes(w, AfterInput(w, a, input).0)
  {
    hide AfterInput, Carried, Blocks, Slot, OwnedBytes;
    CarriedIsStored(w, a, input);
    AloneIsValid(w);
    var r := AfterInput(w, a, input).0;
    if r.received == a.received {
      assert Received(r) == Received(a);
    } else {
      var slot := Carried(w, a.link.pieceCount, input).value.begin / BLOCK_SIZE;
      SlotInside(w, slot);
      OwnedBytesAdd(OfBlocks(w.length), Received(a), slot, Blocks(w));
      assert Received(r) == Received(a) + {slot};
    }
  }

  /** In any interleaving of blocks, duplicates, unrequested and foreign blocks, chokes and commands: if every block
      for this piece is honest, a finished buffer is the source piece, byte for byte. */
  lemma {:induction false} Reassembles(w: Work, source: Bytes, a: Partial, inputs: seq<Input>)
    requires Shape(w, a) && Sound(w, a) && |source| == w.length && Matches(w, source, a)
    requires forall i :: 0 <= i < |inputs| ==> Honest(w, source, a.link.pieceCount, inputs[i])
    ensures Run(w, a, inputs).Done? ==> Run(w, a, inputs).partial.buf == source
    decreases |inputs|
  {
    hide AfterInput, Fill, Honest, Blocks;
    if a.remaining <= 0 {
      assert Unreceived(a) == {};
      forall k | 0 <= k < w.length ensures a.buf[k] == source[k] {
        SlotReaches(w, k);
        var slot := k / BLOCK_SIZE;
        assert slot !in Unreceived(a);
      }
    } else {
      var filled := Fill(w, a).0;
      FillStops(w, a);
      FillStaysSound(w, a);
      if Fill(w, a).1 && inputs != [] {
        InputStaysSound(w, filled, inputs[0]);
        InputMatches(w, source, filled, inputs[0]);
        CarriedIsStored(w, filled, inputs[0]);
        var (next, failure) := AfterInput(w, filled, inputs[0]);
        if failure == None { Reassembles(w, source, next, inputs[1..]); }
      }
    }
  }

  /** If moreover every block fills its slot exactly, progress is credited with exactly the piece's length. */
  lemma {:induction false} CreditsTheLength(w: Work, a: Partial, inputs: seq<Input>)
    requires Shape(w, a) && Sound(w, a) && a.credited == ReceivedBytes(w, a)
    requires forall i :: 0 <= i < |inputs| ==> Exact(w, a.link.pieceCount, inputs[i])
    ensures Run(w, a, inputs).Done? ==> Run(w, a, inputs).partial.credited == w.length
    decreases |inputs|
  {
    hide AfterInput, Fill, Exact, OwnedBytes, Blocks;
    if a.remaining <= 0 {
      assert Unreceived(a) == {};
      AloneIsValid(w);
      AllBytesMeansAllPieces(OfBlocks(w.length), Received(a));
      forall b | 0 <= b < Blocks(w) ensures b in Received(a) {
        assert b !in Unreceived(a);
      }
    } else {
      var filled := Fill(w, a).0;
      FillStops(w, a);
      FillStaysSound(w, a);
      assert Received(filled) == Received(a);
      if Fill(w, a).1 && inputs != [] {
        InputStaysSound(w, filled, inputs[0]);
        InputCredits(w, filled, inputs[0]);
        CarriedIsStored(w, filled, inputs[0]);
        var (next, failure) := AfterInput(w, filled, inputs[0]);
        if failure == None { CreditsTheLength(w, next, inputs[1..]); }
      }
    }
  }

  /** Both, from the start of a piece. */
  lemma {:induction false} HonestPieceArrivesWhole(w: Work, source: Bytes, l: Link, inputs: seq<Input>)
    requires |source| == w.length > 0
    requires forall i :: 0 <= i < |inputs| ==> Honest(w, source, l.pieceCount, inputs[i])
    requires Run(w, Begin(w, l), inputs).Done?
    ensures Run(w, Begin(w, l), inputs).partial.buf == source
    ensures (forall i :: 0 <= i < |inputs| ==> Exact(w, l.pieceCount, inputs[i])) ==>
      Run(w, Begin(w, l), inputs).partial.credited == w.length
  {
    hide Run, Honest, Exact;
    BeginIsSound(w, l);
    Reassembles(w, source, Begin(w, l), inputs);
    AloneIsValid(w);
    NothingOwned(OfBlocks(w.length), Received(Begin(w, l)), Blocks(w));
    if forall i :: 0 <= i < |inputs| ==> Exact(w, l.pieceCount, inputs[i]) {
      CreditsTheLength(w, Begin(w, l), inputs);
    }
  }

  /** Honesty is needed: the length of a block is not compared with its slot, so a single block of any shorter length,
      even an empty one, finishes a one-block piece with zeros where its bytes are missing; the request, if one is due,
      need only go out. */
  lemma {:induction false} ShortBlockFinishesPiece(w: Work, l: Link, data: Bytes)
    requires 0 < w.length <= BLOCK_SIZE && |data| <= w.length && w.index < U32 && w.index < l.pieceCount
    requires Fill(w, Begin(w, l)).1
    ensures var r := Run(w, Begin(w, l), [FromPeer(PieceMessage(w.index, 0, data), NoSeed)]);
      r.Done? && r.partial.buf == data + Zeros(w.length - |data|) && r.partial.credited == |data|
  {
    hide ParsePiece, PieceMessage, Overwrite, AskFor;
    var a, m := Fill(w, Begin(w, l)).0, PieceMessage(w.index, 0, data);
    AloneIsValid(w);
    assert Blocks(w) == 1;
    FillOnlySends(w, Begin(w, l));
    PayloadsRoundTrip(w.index, 0, 0, data, l.pieceCount, w.length);
    PieceMessageId(w.index, data);
    var stored := AfterBlock(w, a, Block(w.index, 0, data));
    assert AfterInput(w, a, FromPeer(m, NoSeed)) == (stored, None);
    assert stored.buf == data + Zeros(w.length - |data|);
    var none: seq<Input> := [];
    assert [FromPeer(m, NoSeed)][1..] == none;
  }

  lemma {:induction false} PieceMessageId(index: nat, data: Bytes)
    ensures PieceMessage(index, 0, data).id == PIECE
  {
  }

  // ----- a verified piece -----

  datatype Fetch =
    | Pending(link: Link)
    | Fetched(link: Link, data: Bytes, rest: seq<Input>)
    | GaveUp(link: Link, failure: Failure, rest: seq<Input>)

  /** Downloads a piece and trusts it only if it hashes to what the torrent says. */
  function FetchPiece(sha: Bytes -> Digest, w: Work, l: Link, inputs: seq<Input>): (r: Fetch)
    requires w.length > 0
    ensures r.Fetched? ==> |r.data| == w.length && sha(r.data) == w.expectedHash
    ensures !r.Pending? ==> |r.rest| <= |inputs| && r.rest == inputs[|inputs| - |r.rest|..]
  {
    match Run(w, Begin(w, l), inputs)
    case Waiting(a) => Pending(a.link)
    case Failed(a, failure, rest) => GaveUp(a.link, failure, rest)
    case Done(a, rest) =>
      if Verify(sha, a.buf, w.expectedHash) == Some(true) then Fetched(a.link, a.buf, rest)
      else GaveUp(a.link, HashMismatch, rest)
  }
}
