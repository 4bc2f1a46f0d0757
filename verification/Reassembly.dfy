/** What exactly a finished piece is made of, whatever the lengths of the blocks that arrived, and so exactly when it is
    the piece that was asked for. */
module Reassembly {
  import opened Assembly
  import opened Base
  import opened Geometry
  import opened Session
  import opened Wire

  /** One of the first n inputs carried a block for the slot. */
  ghost predicate Came(w: Work, pieceCount: int, inputs: seq<Input>, n: nat, slot: int)
    requires w.length > 0 && n <= |inputs|
  {
    exists j :: 0 <= j < n && CarriedFor(w, pieceCount, inputs[j], slot)
  }

  predicate CarriedFor(w: Work, pieceCount: int, input: Input, slot: int)
    requires w.length > 0
  {
    Carried(w, pieceCount, input).Some? && Carried(w, pieceCount, input).value.begin / BLOCK_SIZE == slot
  }

  /** Input n carries the first block for its slot, and the block reaches over offset k. */
  ghost predicate Writes(w: Work, pieceCount: int, inputs: seq<Input>, n: nat, k: nat)
    requires w.length > 0 && n < |inputs|
  {
    var carried := Carried(w, pieceCount, inputs[n]);
    && carried.Some? && !Came(w, pieceCount, inputs, n, carried.value.begin / BLOCK_SIZE)
    && carried.value.begin <= k < carried.value.begin + |carried.value.data|
  }

  /** The byte at offset k after n inputs: that of the last block that was the first for its slot and reaches over k,
      or zero. */
  ghost function ByteAt(w: Work, pieceCount: int, inputs: seq<Input>, n: nat, k: nat): Byte
    requires w.length > 0 && n <= |inputs|
  {
    if n == 0 then 0
    else if Writes(w, pieceCount, inputs, n - 1, k) then
      var block := Carried(w, pieceCount, inputs[n - 1]).value;
      block.data[k - block.begin]
    else ByteAt(w, pieceCount, inputs, n - 1, k)
  }

  /** The state is what n inputs lead to. */
  ghost predicate After(w: Work, inputs: seq<Input>, n: nat, a: Partial)
    requires n <= |inputs|
  {
    && Shape(w, a)
    && (forall slot :: 0 <= slot < Blocks(w) ==> a.received[slot] == Came(w, a.link.pieceCount, inputs, n, slot))
    && forall k :: 0 <= k < w.length ==> a.buf[k] == ByteAt(w, a.link.pieceCount, inputs, n, k)
  }

  lemma {:induction false} OneMoreCame(w: Work, pieceCount: int, inputs: seq<Input>, n: nat, slot: int)
    requires w.length > 0 && n < |inputs|
    ensures Came(w, pieceCount, inputs, n + 1, slot) <==>
      Came(w, pieceCount, inputs, n, slot) || CarriedFor(w, pieceCount, inputs[n], slot)
  {
    hide CarriedFor;
    if Came(w, pieceCount, inputs, n, slot) {
      var j :| 0 <= j < n && CarriedFor(w, pieceCount, inputs[j], slot);
      assert 0 <= j < n + 1 && CarriedFor(w, pieceCount, inputs[j], slot);
    }
  }

  lemma {:induction false} InputLeadsOn(w: Work, inputs: seq<Input>, n: nat, a: Partial)
    requires n < |inputs| && After(w, inputs, n, a)
    ensures After(w, inputs, n + 1, AfterInput(w, a, inputs[n]).0)
  {
    hide AfterInput, Carried, Blocks, Came;
    var r, pieceCount := AfterInput(w, a, inputs[n]).0, a.link.pieceCount;
    CarriedIsStored(w, a, inputs[n]);
    forall slot | 0 <= slot < Blocks(w) ensures r.received[slot] == Came(w, pieceCount, inputs, n + 1, slot) {
      OneMoreCame(w, pieceCount, inputs, n, slot);
    }
  }

  lemma {:induction false} AllReceived(w: Work, a: Partial)
    requires Shape(w, a) && Sound(w, a) && a.remaining <= 0
    ensures forall slot :: 0 <= slot < Blocks(w) ==> a.received[slot]
  {
    hide Blocks;
    assert Unreceived(a) == {};
    forall slot | 0 <= slot < Blocks(w) ensures a.received[slot] { assert slot !in Unreceived(a); }
  }

  /** A block came for every slot, and the buffer is, byte for byte, what the consumed inputs wrote last. */
  ghost predicate MadeOf(w: Work, pieceCount: int, inputs: seq<Input>, r: Outcome) {
    && r.Done? && Shape(w, r.partial) && |r.rest| <= |inputs|
    && var m := |inputs| - |r.rest|;
       && (forall slot :: 0 <= slot < Blocks(w) ==> Came(w, pieceCount, inputs, m, slot))
       && forall k :: 0 <= k < w.length ==> r.partial.buf[k] == ByteAt(w, pieceCount, inputs, m, k)
  }

  lemma {:induction false} DoneIsMadeOf(w: Work, inputs: seq<Input>, n: nat, a: Partial)
    requires n <= |inputs| && After(w, inputs, n, a) && Sound(w, a) && a.remaining <= 0
    ensures MadeOf(w, a.link.pieceCount, inputs, Done(a, inputs[n..]))
  {
    hide Came, ByteAt, Blocks;
    AllReceived(w, a);
  }

  /** In any interleaving, this is what a finished piece is made of. */
  lemma {:induction false} FinishedBuffer(w: Work, inputs: seq<Input>, n: nat, a: Partial)
    requires n <= |inputs| && Shape(w, a) && After(w, inputs, n, a) && Sound(w, a)
    ensures Run(w, a, inputs[n..]).Done? ==> MadeOf(w, a.link.pieceCount, inputs, Run(w, a, inputs[n..]))
    decreases |inputs| - n
  {
    hide AfterInput, Fill, Blocks, Came, ByteAt, MadeOf, Sound, After, InFlight, Unrequested;
    if a.remaining <= 0 {
      DoneIsMadeOf(w, inputs, n, a);
    } else if Fill(w, a).1 && n < |inputs| {
      var filled := Fill(w, a).0;
      FillStops(w, a);
      FillStaysSound(w, a);
      FilledIsAfter(w, inputs, n, a);
      InputLeadsOn(w, inputs, n, filled);
      InputStaysSound(w, filled, inputs[n]);
      CarriedIsStored(w, filled, inputs[n]);
      assert inputs[n..][0] == inputs[n] && inputs[n..][1..] == inputs[n + 1..];
      if AfterInput(w, filled, inputs[n]).1 == None {
        FinishedBuffer(w, inputs, n + 1, AfterInput(w, filled, inputs[n]).0);
      }
    }
  }

  lemma {:induction false} FilledIsAfter(w: Work, inputs: seq<Input>, n: nat, a: Partial)
    requires n <= |inputs| && After(w, inputs, n, a)
    ensures After(w, inputs, n, Fill(w, a).0) && Fill(w, a).0.link.pieceCount == a.link.pieceCount
  {
    hide Fill, Came, ByteAt, Blocks;
    FillOnlySends(w, a);
  }

  /** The exact condition, for blocks of any length: the finished piece is the source if and only if, at every
      offset, the last of the first-for-their-slot blocks that reach over it carries the source's byte, or none
      does and the source is zero there. */
  lemma {:induction false} WholeExactlyWhen(w: Work, source: Bytes, l: Link, inputs: seq<Input>)
    requires |source| == w.length > 0 && Run(w, Begin(w, l), inputs).Done?
    ensures var r := Run(w, Begin(w, l), inputs);
      r.partial.buf == source <==>
        forall k :: 0 <= k < w.length ==> ByteAt(w, l.pieceCount, inputs, |inputs| - |r.rest|, k) == source[k]
  {
    hide Run, ByteAt, Blocks;
    BeginIsAfterNothing(w, l, inputs);
    FinishedBuffer(w, inputs, 0, Begin(w, l));
    assert inputs[0..] == inputs;
  }

  lemma {:induction false} BeginIsAfterNothing(w: Work, l: Link, inputs: seq<Input>)
    requires w.length > 0
    ensures After(w, inputs, 0, Begin(w, l)) && Sound(w, Begin(w, l)) && Begin(w, l).link == l
  {
    BeginIsSound(w, l);
  }

  // ----- blocks no longer than their slots -----

  /** A block for this piece has at most as many bytes as its slot takes. */
  ghost predicate WithinSlot(w: Work, pieceCount: int, input: Input)
    requires w.length > 0
  {
    match Carried(w, pieceCount, input)
    case None => true
    case Some(block) => |block.data| <= Slot(w, block.begin / BLOCK_SIZE).1
  }

  /** The first block that comes for a slot. */
  function FirstFor(w: Work, pieceCount: int, inputs: seq<Input>, slot: int): (r: Option<Block>)
    requires w.length > 0
    ensures r.Some? ==>
      Fits(w, r.value) && r.value.begin / BLOCK_SIZE == slot && r.value.begin + |r.value.data| <= w.length
  {
    if inputs == [] then None
    else if CarriedFor(w, pieceCount, inputs[0], slot) then Carried(w, pieceCount, inputs[0])
    else FirstFor(w, pieceCount, inputs[1..], slot)
  }

  /** The block has the source's bytes, and the source is zero in the rest of the slot. */
  ghost predicate Supplies(w: Work, source: Bytes, block: Block)
    requires |source| == w.length > 0 && Fits(w, block) && block.begin + |block.data| <= w.length
  {
    && block.data == source[block.begin..block.begin + |block.data|]
    && forall k :: block.begin + |block.data| <= k < block.begin + Slot(w, block.begin / BLOCK_SIZE).1 && k < w.length
         ==> source[k] == 0
  }

  lemma {:induction false} FirstForIs(w: Work, pieceCount: int, inputs: seq<Input>, n: nat, slot: int)
    requires w.length > 0 && n < |inputs|
    requires CarriedFor(w, pieceCount, inputs[n], slot) && !Came(w, pieceCount, inputs, n, slot)
    ensures FirstFor(w, pieceCount, inputs, slot) == Carried(w, pieceCount, inputs[n])
  {
    hide CarriedFor, Carried;
    if n > 0 {
      assert !CarriedFor(w, pieceCount, inputs[0], slot);
      forall j | 0 <= j < n - 1 ensures !CarriedFor(w, pieceCount, inputs[1..][j], slot) {
        assert inputs[1..][j] == inputs[j + 1];
      }
      FirstForIs(w, pieceCount, inputs[1..], n - 1, slot);
    }
  }

  lemma {:induction false} CoveredInSlot(w: Work, block: Block, k: nat)
    requires w.length > 0 && Fits(w, block) && |block.data| <= Slot(w, block.begin / BLOCK_SIZE).1
    requires block.begin <= k < block.begin + |block.data|
    ensures k / BLOCK_SIZE == block.begin / BLOCK_SIZE
  {
    hide Blocks, Slot;
    SlotInside(w, block.begin / BLOCK_SIZE);
  }

  /** What the first block for a slot leaves at an offset of that slot. */
  function Left(first: Option<Block>, k: nat): Byte {
    if first.Some? && first.value.begin <= k < first.value.begin + |first.value.data|
    then first.value.data[k - first.value.begin]
    else 0
  }

  lemma {:induction false} OnlyTheFirstCounts(w: Work, pieceCount: int, inputs: seq<Input>, n: nat, k: nat)
    requires w.length > 0 && n <= |inputs|
    requires forall i :: 0 <= i < |inputs| ==> WithinSlot(w, pieceCount, inputs[i])
    ensures var slot := k / BLOCK_SIZE;
      ByteAt(w, pieceCount, inputs, n, k) ==
        if Came(w, pieceCount, inputs, n, slot) then Left(FirstFor(w, pieceCount, inputs, slot), k) else 0
  {
    hide Carried, Blocks, Slot, Came, FirstFor, Fits;
    var slot := k / BLOCK_SIZE;
    if n == 0 {
      NothingCame(w, pieceCount, inputs, slot);
    } else {
      var carried := Carried(w, pieceCount, inputs[n - 1]);
      OnlyTheFirstCounts(w, pieceCount, inputs, n - 1, k);
      OneMoreCame(w, pieceCount, inputs, n - 1, slot);
      assert WithinSlot(w, pieceCount, inputs[n - 1]);
      if Writes(w, pieceCount, inputs, n - 1, k) { CoveredInSlot(w, carried.value, k); }
      if CarriedFor(w, pieceCount, inputs[n - 1], slot) && !Came(w, pieceCount, inputs, n - 1, slot) {
        FirstForIs(w, pieceCount, inputs, n - 1, slot);
      }
    }
  }

  lemma {:induction false} NothingCame(w: Work, pieceCount: int, inputs: seq<Input>, slot: int)
    requires w.length > 0
    ensures !Came(w, pieceCount, inputs, 0, slot)
  {
  }

  lemma {:induction false} CameFirst(w: Work, pieceCount: int, inputs: seq<Input>, n: nat, slot: int)
    requires w.length > 0 && n <= |inputs| && Came(w, pieceCount, inputs, n, slot)
    ensures FirstFor(w, pieceCount, inputs, slot).Some?
  {
    hide Carried;
    NothingCame(w, pieceCount, inputs, slot);
    OneMoreCame(w, pieceCount, inputs, n - 1, slot);
    if Came(w, pieceCount, inputs, n - 1, slot) { CameFirst(w, pieceCount, inputs, n - 1, slot); }
    else { FirstForIs(w, pieceCount, inputs, n - 1, slot); }
  }

  /** If no block is longer than its slot, a finished piece is the source if and only if, for every slot, the first
      block that came for it has the source's bytes and the source is zero in what it leaves of the slot. */
  lemma {:induction false} WholeWithinSlots(w: Work, source: Bytes, l: Link, inputs: seq<Input>)
    requires |source| == w.length > 0 && Run(w, Begin(w, l), inputs).Done?
    requires forall i :: 0 <= i < |inputs| ==> WithinSlot(w, l.pieceCount, inputs[i])
    ensures forall slot :: 0 <= slot < Blocks(w) ==> FirstFor(w, l.pieceCount, inputs, slot).Some?
    ensures Run(w, Begin(w, l), inputs).partial.buf == source <==>
      forall slot :: 0 <= slot < Blocks(w) ==> Supplies(w, source, FirstFor(w, l.pieceCount, inputs, slot).value)
  {
    hide Run, ByteAt, Blocks, Came, FirstFor, Supplies, WithinSlot;
    BeginIsAfterNothing(w, l, inputs);
    FinishedBuffer(w, inputs, 0, Begin(w, l));
    assert inputs[0..] == inputs;
    var r := Run(w, Begin(w, l), inputs);
    var m := |inputs| - |r.rest|;
    forall slot | 0 <= slot < Blocks(w) ensures FirstFor(w, l.pieceCount, inputs, slot).Some? {
      CameFirst(w, l.pieceCount, inputs, m, slot);
    }
    forall k | 0 <= k < w.length
      ensures r.partial.buf[k] == Left(FirstFor(w, l.pieceCount, inputs, k / BLOCK_SIZE), k)
    {
      SlotReaches(w, k);
      OnlyTheFirstCounts(w, l.pieceCount, inputs, m, k);
    }
    BufferOfFirsts(w, source, r.partial.buf, l.pieceCount, inputs);
  }

  lemma {:induction false} FirstWithinSlot(w: Work, pieceCount: int, inputs: seq<Input>, slot: int)
    requires w.length > 0 && forall i :: 0 <= i < |inputs| ==> WithinSlot(w, pieceCount, inputs[i])
    ensures FirstFor(w, pieceCount, inputs, slot).Some? ==>
      |FirstFor(w, pieceCount, inputs, slot).value.data| <=
        Slot(w, FirstFor(w, pieceCount, inputs, slot).value.begin / BLOCK_SIZE).1
  {
    hide Carried, Slot, Blocks;
    if inputs != [] {
      assert WithinSlot(w, pieceCount, inputs[0]);
      FirstWithinSlot(w, pieceCount, inputs[1..], slot);
    }
  }

  lemma {:induction false} SlotSupplied(w: Work, source: Bytes, buf: Bytes, block: Block)
    requires |source| == |buf| == w.length > 0 && Fits(w, block) && block.begin + |block.data| <= w.length
    requires |block.data| <= Slot(w, block.begin / BLOCK_SIZE).1
    requires forall k :: 0 <= k < w.length && k / BLOCK_SIZE == block.begin / BLOCK_SIZE ==>
      buf[k] == Left(Some(block), k)
    ensures Supplies(w, source, block) <==>
      forall k :: 0 <= k < w.length && k / BLOCK_SIZE == block.begin / BLOCK_SIZE ==> buf[k] == source[k]
  {
    hide Blocks, Slot;
    var slot, begin, end := block.begin / BLOCK_SIZE, block.begin, block.begin + |block.data|;
    SlotInside(w, slot);
    forall k | begin <= k < begin + Slot(w, slot).1 ensures k / BLOCK_SIZE == slot {}
    forall k | 0 <= k < w.length && k / BLOCK_SIZE == slot ensures begin <= k < begin + Slot(w, slot).1 {
      SlotReaches(w, k);
    }
    if forall k :: 0 <= k < w.length && k / BLOCK_SIZE == slot ==> buf[k] == source[k] {
      forall j | 0 <= j < |block.data| ensures block.data[j] == source[begin..end][j] {
        assert Left(Some(block), begin + j) == block.data[j] && buf[begin + j] == source[begin + j];
      }
    }
    if Supplies(w, source, block) {
      forall k | 0 <= k < w.length && k / BLOCK_SIZE == slot ensures buf[k] == source[k] {
        if k < end { assert block.data[k - begin] == source[begin..end][k - begin]; }
      }
    }
  }

  lemma {:induction false} BufferOfFirsts(
    w: Work, source: Bytes, buf: Bytes, pieceCount: int, inputs: seq<Input>)
    requires |source| == |buf| == w.length > 0
    requires forall i :: 0 <= i < |inputs| ==> WithinSlot(w, pieceCount, inputs[i])
    requires forall slot :: 0 <= slot < Blocks(w) ==> FirstFor(w, pieceCount, inputs, slot).Some?
    requires forall k :: 0 <= k < w.length ==> buf[k] == Left(FirstFor(w, pieceCount, inputs, k / BLOCK_SIZE), k)
    ensures
      (forall slot :: 0 <= slot < Blocks(w) ==> Supplies(w, source, FirstFor(w, pieceCount, inputs, slot).value))
      ==> buf == source
    ensures buf == source ==>
      forall slot :: 0 <= slot < Blocks(w) ==> Supplies(w, source, FirstFor(w, pieceCount, inputs, slot).value)
  {
    hide Blocks, FirstFor, WithinSlot, Slot, Fits, Supplies, Left;
    forall slot | 0 <= slot < Blocks(w)
      ensures Supplies(w, source, FirstFor(w, pieceCount, inputs, slot).value) <==>
        forall k :: 0 <= k < w.length && k / BLOCK_SIZE == slot ==> buf[k] == source[k]
    {
      FirstWithinSlot(w, pieceCount, inputs, slot);
      SlotSupplied(w, source, buf, FirstFor(w, pieceCount, inputs, slot).value);
    }
    forall k | 0 <= k < w.length ensures 0 <= k / BLOCK_SIZE < Blocks(w) { SlotReaches(w, k); }
    if forall slot :: 0 <= slot < Blocks(w) ==> Supplies(w, source, FirstFor(w, pieceCount, inputs, slot).value) {
      forall k | 0 <= k < w.length ensures buf[k] == source[k] {
        var slot := k / BLOCK_SIZE;
        assert Supplies(w, source, FirstFor(w, pieceCount, inputs, slot).value);
      }
      assert buf == source;
    }
  }
}
