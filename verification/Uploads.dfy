/** What connections send in answer to requests, over whole joint runs: slices of pieces that hash as the torrent says,
    and nothing else. */
module Uploads {
  import opened Base
  import opened Assembly
  import opened Bitfield
  import opened Connection
  import opened CoordinatorState
  import opened Events
  import opened Geometry
  import opened Joint
  import opened Pipeline
  import opened Session
  import opened Storage
  import opened Wire

  /** A piece message carries a slice of a piece that hashes as the torrent says. */
  ghost predicate Vouched(c: Config, sha: Bytes -> Digest, m: Message)
    requires c.layout.Valid()
  {
    m.id == PIECE ==> exists block: Block, piece: Bytes :: IsVerifiedSlice(c, sha, m, block, piece)
  }

  ghost predicate IsVerifiedSlice(c: Config, sha: Bytes -> Digest, m: Message, block: Block, piece: Bytes)
    requires c.layout.Valid()
  {
    && m == PieceMessage(block.index, block.begin, block.data)
    && 0 <= block.index < c.layout.pieceCount && Genuine(c, sha, block.index, piece)
    && block.begin + |block.data| <= |piece| && block.data == piece[block.begin..block.begin + |block.data|]
  }

  /** Every piece that may be served checks out in the file it is served from. */
  ghost predicate Sound(c: Config, sha: Bytes -> Digest, seed: SeedSnapshot)
    requires c.layout.Valid()
  {
    seed.Seed? ==>
      && seed.layout == c.layout && |seed.file| == c.layout.totalLength
      && forall i :: i in seed.have ==> 0 <= i < c.layout.pieceCount && OnDisk(sha, c.layout, c.hashes, seed.file, i)
  }

  ghost predicate SoundInput(c: Config, sha: Bytes -> Digest, input: Input)
    requires c.layout.Valid()
  {
    input.FromPeer? ==> Sound(c, sha, input.seed)
  }

  ghost predicate SoundInputs(c: Config, sha: Bytes -> Digest, inputs: seq<Input>)
    requires c.layout.Valid()
  {
    forall k :: 0 <= k < |inputs| ==> SoundInput(c, sha, inputs[k])
  }

  /** Whatever more has been sent is vouched for. */
  ghost predicate AddsVouched(c: Config, sha: Bytes -> Digest, l: Link, r: Link)
    requires c.layout.Valid()
  {
    forall m :: m in r.sent ==> m in l.sent || Vouched(c, sha, m)
  }

  lemma {:induction false} AddsThen(c: Config, sha: Bytes -> Digest, l: Link, m: Link, r: Link)
    requires c.layout.Valid() && AddsVouched(c, sha, l, m) && AddsVouched(c, sha, m, r)
    ensures AddsVouched(c, sha, l, r)
  {
  }

  lemma {:induction false} WritingAdds(c: Config, sha: Bytes -> Digest, l: Link, m: Message)
    requires c.layout.Valid() && Vouched(c, sha, m)
    ensures AddsVouched(c, sha, l, Write(l, m).0)
  {
    hide Vouched;
  }

  lemma {:induction false} EmittingAdds(c: Config, sha: Bytes -> Digest, l: Link, r: Link)
    requires c.layout.Valid() && r.sent == l.sent
    ensures AddsVouched(c, sha, l, r)
  {
  }

  lemma {:induction false} RepliesAreVouched(
    c: Config, sha: Bytes -> Digest, amChoking: bool, seed: SeedSnapshot, payload: Bytes)
    requires c.layout.Valid() && Sound(c, sha, seed) && seed.Seed? && ServeRequest(amChoking, seed, payload).Reply?
    ensures Vouched(c, sha, BlockMessage(ServeRequest(amChoking, seed, payload).block))
  {
    hide ServeRequest, PieceMessage, PieceBytes;
    RepliesAreSlices(amChoking, seed, payload);
    var block := ServeRequest(amChoking, seed, payload).block;
    assert block.index in seed.have;
    PieceInside(c.layout, block.index);
    assert IsVerifiedSlice(c, sha, BlockMessage(block), block, PieceBytes(c.layout, seed.file, block.index));
  }

  lemma {:induction false} HandlingAdds(c: Config, sha: Bytes -> Digest, l: Link, seed: SeedSnapshot, m: Message)
    requires c.layout.Valid() && Sound(c, sha, seed)
    ensures AddsVouched(c, sha, l, HandleMessage(l, seed, m).0)
  {
    hide ServeRequest, BlockMessage, Vouched, AddsVouched, Write, ParseHave;
    var r := HandleMessage(l, seed, m).0;
    if m.id == REQUEST && seed.Seed? && ServeRequest(l.amChoking, seed, m.payload).Reply? {
      RepliesAreVouched(c, sha, l.amChoking, seed, m.payload);
      WritingAdds(c, sha, l, BlockMessage(ServeRequest(l.amChoking, seed, m.payload).block));
    } else {
      EmittingAdds(c, sha, l, r);
    }
  }

  lemma {:induction false} ApplyingAdds(c: Config, sha: Bytes -> Digest, l: Link, command: Command)
    requires c.layout.Valid()
    ensures AddsVouched(c, sha, l, ApplyCommand(l, command).0)
  {
    WritingAdds(c, sha, l, ChokeMessage(command.ChokePeer?));
  }

  lemma {:induction false} FillingAdds(c: Config, sha: Bytes -> Digest, w: Work, a: Partial)
    requires c.layout.Valid() && Assembly.Shape(w, a)
    ensures AddsVouched(c, sha, a.link, Fill(w, a).0.link)
    decreases BACKLOG_LIMIT - a.outstanding
  {
    hide AskFor, Blocks, AddsVouched, Write;
    var next := NextUnrequested(a.requested);
    EmittingAdds(c, sha, a.link, a.link);
    if !a.link.peerChoking && a.outstanding < BACKLOG_LIMIT && next != -1 {
      WritingAdds(c, sha, a.link, AskFor(w, next));
      if Write(a.link, AskFor(w, next)).1 {
        FillingAdds(c, sha, w, Asking(w, a, next));
        AddsThen(c, sha, a.link, Asking(w, a, next).link, Fill(w, a).0.link);
      }
    }
  }

  lemma {:induction false} InputAdds(c: Config, sha: Bytes -> Digest, w: Work, a: Partial, input: Input)
    requires c.layout.Valid() && Assembly.Shape(w, a) && SoundInput(c, sha, input)
    ensures AddsVouched(c, sha, a.link, AfterInput(w, a, input).0.link)
  {
    hide HandleMessage, ApplyCommand, ParsePiece, Blocks, AddsVouched;
    EmittingAdds(c, sha, a.link, a.link);
    match input
    case FromPeer(m, seed) =>
      HandlingAdds(c, sha, a.link, seed, m);
      if m.id == CHOKE || m.id == UNCHOKE { EmittingAdds(c, sha, a.link, AfterInput(w, a, input).0.link); }
    case FromCoordinator(command) => ApplyingAdds(c, sha, a.link, command);
    case _ =>
  }

  lemma {:induction false} RunAdds(c: Config, sha: Bytes -> Digest, w: Work, a: Partial, inputs: seq<Input>)
    requires c.layout.Valid() && Assembly.Shape(w, a) && SoundInputs(c, sha, inputs)
    ensures AddsVouched(c, sha, a.link, Run(w, a, inputs).partial.link)
    decreases |inputs|
  {
    hide Fill, AfterInput, AddsVouched, SoundInput;
    EmittingAdds(c, sha, a.link, a.link);
    if a.remaining > 0 {
      var (filled, sent) := Fill(w, a);
      FillingAdds(c, sha, w, a);
      if sent && inputs != [] {
        var (next, failure) := AfterInput(w, filled, inputs[0]);
        InputAdds(c, sha, w, filled, inputs[0]);
        AddsThen(c, sha, a.link, filled.link, next.link);
        if failure == None {
          RunAdds(c, sha, w, next, inputs[1..]);
          AddsThen(c, sha, a.link, next.link, Run(w, a, inputs).partial.link);
        }
      }
    }
  }

  lemma {:induction false} FetchAdds(c: Config, sha: Bytes -> Digest, w: Work, l: Link, inputs: seq<Input>)
    requires c.layout.Valid() && w.length > 0 && SoundInputs(c, sha, inputs)
    ensures AddsVouched(c, sha, l, FetchPiece(sha, w, l, inputs).link)
    ensures !FetchPiece(sha, w, l, inputs).Pending? ==>
      AddsVouched(c, sha, l, AfterFetch(l.addr, w.index, FetchPiece(sha, w, l, inputs)).0)
  {
    hide Run, AddsVouched;
    RunAdds(c, sha, w, Begin(w, l), inputs);
    var fetch := FetchPiece(sha, w, l, inputs);
    if !fetch.Pending? {
      var l2 := if fetch.Fetched? then Write(fetch.link, HaveMessage(w.index)).0 else fetch.link;
      WritingAdds(c, sha, fetch.link, HaveMessage(w.index));
      EmittingAdds(c, sha, fetch.link, fetch.link);
      EmittingAdds(c, sha, l2, AfterFetch(l.addr, w.index, fetch).0);
      AddsThen(c, sha, fetch.link, l2, AfterFetch(l.addr, w.index, fetch).0);
      AddsThen(c, sha, l, fetch.link, AfterFetch(l.addr, w.index, fetch).0);
    }
  }

  lemma {:induction false} DriveAdds(c: Config, sha: Bytes -> Digest, l: Link, inputs: seq<Input>)
    requires c.layout.Valid() && SoundInputs(c, sha, inputs)
    ensures AddsVouched(c, sha, l, Drive(sha, l, inputs).link)
    decreases |inputs|
  {
    hide FetchPiece, AfterFetch, HandleMessage, ApplyCommand, AddsVouched, SoundInput;
    EmittingAdds(c, sha, l, l);
    if inputs != [] {
      var later, r := inputs[1..], Drive(sha, l, inputs).link;
      match inputs[0]
      case FromPeer(m, seed) =>
        var (l1, ok) := HandleMessage(l, seed, m);
        SeedIsSound(c, sha, inputs[0]);
        HandlingAdds(c, sha, l, seed, m);
        if ok { DriveAdds(c, sha, l1, later); AddsThen(c, sha, l, l1, r); }
      case FromCoordinator(AssignPiece(index, length, hash)) =>
        if length > 0 {
          var w := Work(index, hash, length);
          var fetch := FetchPiece(sha, w, l, later);
          FetchAdds(c, sha, w, l, later);
          if !fetch.Pending? {
            var (l1, ok) := AfterFetch(l.addr, index, fetch);
            if ok { DriveAdds(c, sha, l1, fetch.rest); AddsThen(c, sha, l, l1, r); }
          }
        }
      case FromCoordinator(Shutdown) =>
      case FromCoordinator(command) =>
        var (l1, ok) := ApplyCommand(l, command);
        ApplyingAdds(c, sha, l, command);
        if ok { DriveAdds(c, sha, l1, later); AddsThen(c, sha, l, l1, r); }
      case TimedOut => DriveAdds(c, sha, l, later);
      case _ =>
    }
  }

  lemma {:induction false} SeedIsSound(c: Config, sha: Bytes -> Digest, input: Input)
    requires c.layout.Valid() && SoundInput(c, sha, input) && input.FromPeer?
    ensures Sound(c, sha, input.seed)
  {
  }

  /** From a connection's first message to its last. */
  lemma {:induction false} ConnectionIsVouched(c: Config, sha: Bytes -> Digest, n: Conn, m: Message)
    requires c.layout.Valid() && SoundInputs(c, sha, n.inputs) && m in LifeOf(c, sha, n).link.sent
    ensures Vouched(c, sha, m)
  {
    hide Drive, Marked, AddsVouched, Vouched;
    var l := NewLink(n.addr, c.layout.pieceCount, n.faults);
    var (l1, joined) := Emit(l, PeerJoined(n.addr));
    if joined {
      var sized := l1.(bitfield := seq((c.layout.pieceCount + 7) / 8, _ => 0));
      var (l2, ok) := Greet(sized, n.bits);
      EmittingAdds(c, sha, l, sized);
      GreetingAdds(c, sha, sized, n.bits);
      DriveAdds(c, sha, l2, n.inputs);
      var life := if ok then Drive(sha, l2, n.inputs) else Over(l2);
      EmittingAdds(c, sha, l2, l2);
      AddsThen(c, sha, l, sized, l2);
      AddsThen(c, sha, l, l2, life.link);
      EmittingAdds(c, sha, life.link, LifeOf(c, sha, n).link);
      AddsThen(c, sha, l, life.link, LifeOf(c, sha, n).link);
      NothingSent(c, sha, l, LifeOf(c, sha, n).link, m);
    }
  }

  lemma {:induction false} NothingSent(c: Config, sha: Bytes -> Digest, l: Link, r: Link, m: Message)
    requires c.layout.Valid() && l.sent == [] && AddsVouched(c, sha, l, r) && m in r.sent
    ensures Vouched(c, sha, m)
  {
    hide Vouched;
  }

  lemma {:induction false} GreetingAdds(c: Config, sha: Bytes -> Digest, l: Link, bits: Option<Bytes>)
    requires c.layout.Valid()
    ensures AddsVouched(c, sha, l, Greet(l, bits).0)
  {
    hide Marked;
  }

  // ----- over joint runs -----

  lemma {:induction false} SeedsAreSound(c: Config, sha: Bytes -> Digest, y: Client, seed: SeedSnapshot)
    requires CoordinatorState.Shape(c, y.coord) && Intact(c, sha, y) && SeedNow(c, y, seed)
    ensures Sound(c, sha, seed)
  {
    hide Store, OnDisk;
    if y.coord.results != [] { StoringKeepsIntact(c, sha, y.ledger, y.coord.results[0]); }
  }

  ghost predicate AllSound(c: Config, sha: Bytes -> Digest, w: World)
    requires c.layout.Valid()
  {
    forall id :: 0 <= id < |w.conns| ==> SoundInputs(c, sha, w.conns[id].inputs)
  }

  lemma {:induction false} ActKeepsSound(c: Config, sha: Bytes -> Digest, w: World, act: Act)
    requires c.layout.Valid() && CoordinatorState.Shape(c, w.client.coord) && CanAct(c, sha, w, act)
    requires AllSound(c, sha, w) && Intact(c, sha, w.client)
    ensures AllSound(c, sha, AfterAct(c, sha, w, act))
  {
    hide LifeOf, CanMove, After, Settled, Sound, Registered, Intact, SeedNow;
    if act.Read? && act.input.FromPeer? { SeedsAreSound(c, sha, w.client, act.input.seed); }
  }

  lemma {:induction false} InputsStaySound(
    c: Config, sha: Bytes -> Digest, disk: Bytes, worlds: seq<World>, acts: seq<Act>, k: nat)
    requires IsJointRun(c, sha, disk, worlds, acts) && k < |worlds|
    ensures AllSound(c, sha, worlds[k])
  {
    hide CanAct, AfterAct, Intact, Sound, StartUp;
    if k > 0 {
      InputsStaySound(c, sha, disk, worlds, acts, k - 1);
      HadPiecesAreVerifiedJointly(c, sha, disk, worlds, acts, k - 1);
      ActKeepsSound(c, sha, worlds[k - 1], acts[k - 1]);
    }
  }

  /** Nothing unverified is ever uploaded: in every state of a joint run, whatever any connection has sent as a
      block is a slice of a piece that has its own length and hashes as the torrent says. */
  lemma {:induction false} UploadsAreVerified(
    c: Config, sha: Bytes -> Digest, disk: Bytes, worlds: seq<World>, acts: seq<Act>, k: nat, id: nat, m: Message)
    requires IsJointRun(c, sha, disk, worlds, acts) && k < |worlds| && id < |worlds[k].conns|
    requires m in LifeOf(c, sha, worlds[k].conns[id]).link.sent
    ensures Vouched(c, sha, m)
  {
    hide IsJointRun, LifeOf, Vouched, SoundInputs;
    InputsStaySound(c, sha, disk, worlds, acts, k);
    LayoutIsValid(c, sha, disk, worlds, acts);
    ConnectionIsVouched(c, sha, worlds[k].conns[id], m);
  }

  lemma {:induction false} LayoutIsValid(
    c: Config, sha: Bytes -> Digest, disk: Bytes, worlds: seq<World>, acts: seq<Act>)
    requires IsJointRun(c, sha, disk, worlds, acts)
    ensures c.layout.Valid()
  {
  }
}
