/** Two copies of this client: what one asks for, the other serves, and the answers add up to the piece. */
module Interop {
  import opened Base
  import opened Assembly
  import opened Geometry
  import opened Session
  import opened Storage
  import opened Wire

  /** A seed that has the piece, and a torrent whose numbers fit the wire's 32 bits. */
  ghost predicate Holds(seed: SeedSnapshot, w: Work) {
    && seed.Seed? && seed.layout.Valid() && |seed.file| == seed.layout.totalLength
    && w.index in seed.have && w.index < seed.layout.pieceCount && w.length == seed.layout.Size(w.index)
    && w.index < U32 && w.length < U32
  }

  /** What the holder answers a request for block b with. */
  function Answer(seed: SeedSnapshot, w: Work, b: nat): Service
    requires seed.Seed? && w.length > 0 && b < Blocks(w)
  {
    ServeRequest(false, seed, AskFor(w, b).payload)
  }

  lemma {:induction false} RequestIsAccepted(seed: SeedSnapshot, w: Work, b: nat)
    requires Holds(seed, w) && w.length > 0 && b < Blocks(w)
    ensures Accepts(seed, AskFor(w, b).payload, Request(w.index, Slot(w, b).0, Slot(w, b).1))
  {
    hide Slot, Blocks, RequestMessage, ParseRequest;
    SlotInside(w, b);
    PayloadsRoundTrip(w.index, Slot(w, b).0, Slot(w, b).1, [], seed.layout.pieceCount, w.length);
  }

  /** Every request the assembly loop builds is served by a holder that is not choking us, and the answer parses back
      to the same slot of the same piece with exactly the bytes the holder has there. */
  lemma {:induction false} RequestsAreAnswered(seed: SeedSnapshot, w: Work, b: nat)
    requires Holds(seed, w) && w.length > 0 && b < Blocks(w)
    ensures Answer(seed, w, b).Reply?
    ensures var block := Answer(seed, w, b).block;
      && block.index == w.index && block.begin == Slot(w, b).0 && |block.data| == Slot(w, b).1
      && IsSlice(seed.layout, seed.file, block)
      && ParsePiece(BlockMessage(block).payload, seed.layout.pieceCount, w.length) == Ok(block)
  {
    hide ServeRequest, AskFor, Accepts, ParsePiece;
    RequestIsAccepted(seed, w, b);
    var payload := AskFor(w, b).payload;
    AcceptedIsServed(seed, payload, Request(w.index, Slot(w, b).0, Slot(w, b).1));
    RepliesAreSlices(false, seed, payload);
    SlotInside(w, b);
    var block := ServeRequest(false, seed, payload).block;
    PayloadsRoundTrip(w.index, Slot(w, b).0, 0, block.data, seed.layout.pieceCount, w.length);
  }

  lemma {:induction false} AnswerIsCarried(seed: SeedSnapshot, w: Work, b: nat, ours: SeedSnapshot)
    requires Holds(seed, w) && w.length > 0 && b < Blocks(w) && Answer(seed, w, b).Reply?
    ensures var block := Answer(seed, w, b).block;
      && Carried(w, seed.layout.pieceCount, FromPeer(BlockMessage(block), ours)) == Some(block)
      && block.begin == b * BLOCK_SIZE && block.begin / BLOCK_SIZE == b
  {
    hide Answer, ParsePiece, PieceMessage, Slot, Blocks, IsSlice, OfBlocks;
    RequestsAreAnswered(seed, w, b);
    SlotInside(w, b);
    QuotientUnique(b * BLOCK_SIZE, BLOCK_SIZE, b, 0);
  }

  /** So an answer is an honest, exact block. */
  lemma {:induction false} AnswersAreHonest(seed: SeedSnapshot, w: Work, b: nat, ours: SeedSnapshot)
    requires Holds(seed, w) && w.length > 0 && b < Blocks(w) && Answer(seed, w, b).Reply?
    ensures var input := FromPeer(BlockMessage(Answer(seed, w, b).block), ours);
      && Delivers(w, seed.layout.pieceCount, input) == b
      && Honest(w, PieceBytes(seed.layout, seed.file, w.index), seed.layout.pieceCount, input)
      && Exact(w, seed.layout.pieceCount, input)
  {
    hide Answer, Carried, Slot, Blocks, PieceBytes, BlockMessage;
    PieceInside(seed.layout, w.index);
    RequestsAreAnswered(seed, w, b);
    AnswerIsCarried(seed, w, b, ours);
  }

  /** The slot an input's block goes into, or -1. */
  function Delivers(w: Work, pieceCount: int, input: Input): int
    requires w.length > 0
  {
    match Carried(w, pieceCount, input)
    case None => -1
    case Some(block) => block.begin / BLOCK_SIZE
  }

  ghost predicate Covered(w: Work, a: Partial, inputs: seq<Input>)
    requires Shape(w, a)
  {
    forall b :: b in Unreceived(a) ==> exists i :: 0 <= i < |inputs| && Delivers(w, a.link.pieceCount, inputs[i]) == b
  }

  /** A peer that answers every block, in any order and as often as it likes, lets the loop finish: nothing it does
      can make the loop give up or wait for more. */
  lemma {:induction false} AnsweredPieceCompletes(w: Work, a: Partial, inputs: seq<Input>)
    requires Shape(w, a) && Sound(w, a) && a.link.faults.writes == {}
    requires forall i :: 0 <= i < |inputs| ==> Delivers(w, a.link.pieceCount, inputs[i]) >= 0
    requires Covered(w, a, inputs)
    ensures Run(w, a, inputs).Done?
    decreases |inputs|
  {
    hide AfterInput, Fill, Carried, Blocks;
    if a.remaining > 0 {
      var filled := Fill(w, a).0;
      FillNeverFails(w, a);
      FillStops(w, a);
      FillStaysSound(w, a);
      assert Unreceived(filled) == Unreceived(a);
      if inputs == [] {
        assert false;
      } else {
        var input, later := inputs[0], inputs[1..];
        var slot := Delivers(w, a.link.pieceCount, input);
        InputStaysSound(w, filled, input);
        CarriedIsStored(w, filled, input);
        BlockInputGoesOn(w, filled, input);
        var next := AfterInput(w, filled, input).0;
        assert next.received[slot];
        forall b | b in Unreceived(next)
          ensures exists i :: 0 <= i < |later| && Delivers(w, next.link.pieceCount, later[i]) == b
        {
          assert b in Unreceived(a);
          var i :| 0 <= i < |inputs| && Delivers(w, a.link.pieceCount, inputs[i]) == b;
          assert later[i - 1] == inputs[i];
        }
        AnsweredPieceCompletes(w, next, later);
      }
    }
  }

  lemma {:induction false} FillNeverFails(w: Work, a: Partial)
    requires Shape(w, a) && a.link.faults.writes == {}
    ensures Fill(w, a).1
    decreases BACKLOG_LIMIT - a.outstanding
  {
    hide AskFor;
    var next := NextUnrequested(a.requested);
    if !a.link.peerChoking && a.outstanding < BACKLOG_LIMIT && next != -1 {
      var link := Write(a.link, AskFor(w, next)).0;
      FillNeverFails(w, a.(link := link, requested := a.requested[next := true], outstanding := a.outstanding + 1));
    }
  }

  lemma {:induction false} BlockInputGoesOn(w: Work, a: Partial, input: Input)
    requires Shape(w, a) && Carried(w, a.link.pieceCount, input).Some?
    ensures AfterInput(w, a, input).1 == None
    ensures AfterInput(w, a, input).0.link == a.link
  {
    hide ParsePiece, Blocks;
  }

  /** The answers to the requests for these blocks, as they arrive. */
  function Answers(seed: SeedSnapshot, w: Work, slots: seq<nat>): (inputs: seq<Input>)
    requires seed.Seed? && w.length > 0 && SlotsOf(w, slots)
    ensures |inputs| == |slots|
    ensures forall k :: 0 <= k < |slots| ==> inputs[k] == Arrival(Answer(seed, w, slots[k]))
  {
    seq(|slots|, k requires 0 <= k < |slots| => Arrival(Answer(seed, w, slots[k])))
  }

  function Arrival(service: Service): Input {
    match service
    case Reply(block) => FromPeer(BlockMessage(block), NoSeed)
    case _ => PeerClosed
  }

  lemma {:induction false} AnswersDeliver(seed: SeedSnapshot, w: Work, slots: seq<nat>, k: nat)
    requires Holds(seed, w) && w.length > 0 && SlotsOf(w, slots) && k < |slots|
    ensures Delivers(w, seed.layout.pieceCount, Answers(seed, w, slots)[k]) == slots[k]
    ensures Honest(w, PieceBytes(seed.layout, seed.file, w.index), seed.layout.pieceCount, Answers(seed, w, slots)[k])
    ensures Exact(w, seed.layout.pieceCount, Answers(seed, w, slots)[k])
  {
    hide Answer, Delivers, Honest, Exact, PieceBytes, Blocks, IsSlice;
    RequestsAreAnswered(seed, w, slots[k]);
    AnswersAreHonest(seed, w, slots[k], NoSeed);
  }

  /** Any holder whose piece hashes as the torrent says, answering every block in any order, gives us that piece. */
  lemma {:induction false} HolderDeliversPiece(
    sha: Bytes -> Digest, seed: SeedSnapshot, w: Work, l: Link, slots: seq<nat>)
    requires Holds(seed, w) && w.length > 0 && SlotsOf(w, slots)
    requires forall b: nat :: b < Blocks(w) ==> b in slots
    requires l.pieceCount == seed.layout.pieceCount && l.faults.writes == {}
    requires sha(PieceBytes(seed.layout, seed.file, w.index)) == w.expectedHash
    ensures FetchPiece(sha, w, l, Answers(seed, w, slots)).Fetched?
    ensures FetchPiece(sha, w, l, Answers(seed, w, slots)).data == PieceBytes(seed.layout, seed.file, w.index)
    ensures Run(w, Begin(w, l), Answers(seed, w, slots)).partial.credited == w.length
  {
    hide Run, Answer, Answers, Delivers, Honest, Exact, PieceBytes, Blocks, Sound;
    var inputs := Answers(seed, w, slots);
    var source := PieceBytes(seed.layout, seed.file, w.index);
    forall k | 0 <= k < |inputs|
      ensures Delivers(w, l.pieceCount, inputs[k]) == slots[k]
      ensures Honest(w, source, l.pieceCount, inputs[k]) && Exact(w, l.pieceCount, inputs[k])
    {
      AnswersDeliver(seed, w, slots, k);
    }
    BeginIsSound(w, l);
    SlotsCoverEverything(w, Begin(w, l), inputs, slots);
    AnsweredPieceCompletes(w, Begin(w, l), inputs);
    HonestPieceArrivesWhole(w, source, l, inputs);
  }

  lemma {:induction false} SlotsCoverEverything(w: Work, a: Partial, inputs: seq<Input>, slots: seq<nat>)
    requires Shape(w, a) && |inputs| == |slots| && forall b: nat :: b < Blocks(w) ==> b in slots
    requires forall k :: 0 <= k < |inputs| ==> Delivers(w, a.link.pieceCount, inputs[k]) == slots[k]
    ensures Covered(w, a, inputs)
  {
    hide Delivers, Blocks;
    forall b | b in Unreceived(a)
      ensures exists i :: 0 <= i < |inputs| && Delivers(w, a.link.pieceCount, inputs[i]) == b
    {
      var slot: nat := b;
      assert slot in slots;
      var k :| 0 <= k < |slots| && slots[k] == slot;
      assert Delivers(w, a.link.pieceCount, inputs[k]) == b;
    }
  }
}
