/** Bitfields: one bit per piece, piece 0 the most significant bit of the first byte. */
module Bitfield {
  import opened Base

  function PowerOfTwo(n: nat): (p: nat)
    ensures p >= 1
  {
    if n == 0 then 1 else 2 * PowerOfTwo(n - 1)
  }

  /** Bit `shift` of a number, counted from the least significant. */
  predicate BitAt(b: nat, shift: nat) {
    if shift == 0 then b % 2 == 1 else BitAt(b / 2, shift - 1)
  }

  /** The number with bit `shift` set. */
  function WithBit(b: nat, shift: nat): nat {
    if shift == 0 then b / 2 * 2 + 1 else 2 * WithBit(b / 2, shift - 1) + b % 2
  }

  /** Setting a bit sets that bit and no other, and stays within the same width. */
  lemma {:induction false} WithBitSetsOnlyIt(b: nat, shift: nat, other: nat, width: nat)
    ensures BitAt(WithBit(b, shift), other) <==> other == shift || BitAt(b, other)
    ensures shift < width && b < PowerOfTwo(width) ==> WithBit(b, shift) < PowerOfTwo(width)
  {
    if shift > 0 {
      WithBitSetsOnlyIt(b / 2, shift - 1, if other > 0 then other - 1 else shift, if width > 0 then width - 1 else 0);
    }
  }

  function SetBit(b: Byte, shift: nat): Byte
    requires shift < 8
  {
    WithBitSetsOnlyIt(b, shift, shift, 8);
    assert PowerOfTwo(8) == 256 by { assert PowerOfTwo(4) == 16; }
    WithBit(b, shift)
  }

  predicate HasPiece(bits: Bytes, index: int) {
    0 <= index / 8 < |bits| && BitAt(bits[index / 8], 7 - index % 8)
  }

  function SetPiece(bits: Bytes, index: int): Bytes {
    if 0 <= index / 8 < |bits| then bits[index / 8 := SetBit(bits[index / 8], 7 - index % 8)] else bits
  }

  /** The pieces a bitfield marks. */
  function Marked(bits: Bytes): set<int> {
    set i | 0 <= i < 8 * |bits| && HasPiece(bits, i)
  }

  /** An index has its own bit: setting it marks that piece and no other, and an index with no bit changes nothing. */
  lemma {:induction false} SetPieceMarksOnlyIt(bits: Bytes, index: int)
    ensures Marked(SetPiece(bits, index)) == Marked(bits) + if 0 <= index < 8 * |bits| then {index} else {}
  {
    var set' := SetPiece(bits, index);
    forall other | 0 <= other < 8 * |bits|
      ensures HasPiece(set', other) <==> other == index || HasPiece(bits, other)
    {
      if other / 8 == index / 8 {
        WithBitSetsOnlyIt(bits[index / 8], 7 - index % 8, 7 - other % 8, 8);
      }
    }
  }

  lemma {:induction false} NothingMarked(size: nat)
    ensures Marked(seq(size, _ => 0)) == {}
  {
    assert forall shift :: 0 <= shift < 8 ==> !BitAt(0, shift) by {
      forall shift: nat ensures !BitAt(0, shift) { ZeroHasNoBits(shift); }
    }
  }

  lemma {:induction false} ZeroHasNoBits(shift: nat)
    ensures !BitAt(0, shift)
  {
    if shift > 0 { ZeroHasNoBits(shift - 1); }
  }

  lemma {:induction false} BitAtMeans(b: nat, shift: nat)
    ensures BitAt(b, shift) <==> b / PowerOfTwo(shift) % 2 == 1
  {
    if shift > 0 {
      BitAtMeans(b / 2, shift - 1);
      HalveThenDivide(b, PowerOfTwo(shift - 1));
    }
  }

  lemma {:induction false} HalveThenDivide(b: nat, p: nat)
    requires p > 0
    ensures b / 2 / p == b / (2 * p)
  {
    var h := b / 2;
    var q, r := h / p, h % p;
    assert h == q * p + r;
    assert b == q * (2 * p) + (2 * r + b % 2);
    QuotientIs(b, 2 * p, q, 2 * r + b % 2);
  }

  lemma {:induction false} QuotientIs(t: int, p: int, q: int, r: int)
    requires p > 0 && t == q * p + r && 0 <= r < p
    ensures t / p == q
  {
    var d := t / p - q;
    assert t == (t / p) * p + t % p;
    assert -p < d * p < p by { assert d * p == (t / p) * p - q * p; }
  }

  /** The first piece is the most significant bit of the first byte, the eighth its least significant bit, and the ninth
      the most significant bit of the second byte. */
  lemma {:induction false} PiecesInBitOrder(bits: Bytes, index: nat)
    ensures index in Marked(bits) <==>
      index / 8 < |bits| && bits[index / 8] / [128, 64, 32, 16, 8, 4, 2, 1][index % 8] % 2 == 1
  {
    if index / 8 < |bits| { BitAtMeans(bits[index / 8], 7 - index % 8); }
    PowersOfTwo();
  }

  lemma {:induction false} PowersOfTwo()
    ensures forall k :: 0 <= k < 8 ==> PowerOfTwo(7 - k) == [128, 64, 32, 16, 8, 4, 2, 1][k]
  {
    assert PowerOfTwo(2) == 4 && PowerOfTwo(4) == 16 && PowerOfTwo(6) == 64;
  }

  /** Exactly enough bytes for that many pieces. */
  predicate Sized(bits: Bytes, pieceCount: int) { |bits| == (pieceCount + 7) / 8 }

  // ----- counting -----

  ghost function MarkedBelow(bits: Bytes, upto: nat): set<int> {
    set i | 0 <= i < upto && HasPiece(bits, i)
  }

  /** The bits of one byte, lowest first, as Count visits them. */
  ghost function LowBits(bits: Bytes, at: nat, upto: nat): set<int>
    requires at < |bits| && upto <= 8
  {
    set i | 8 * at + 8 - upto <= i < 8 * at + 8 && HasPiece(bits, i)
  }

  lemma {:induction false} CountOneBit(bits: Bytes, at: nat, shift: nat)
    requires at < |bits| && shift < 8
    ensures |LowBits(bits, at, shift + 1)| == |LowBits(bits, at, shift)| + if BitAt(bits[at], shift) then 1 else 0
  {
    var i := 8 * at + 7 - shift;
    assert i / 8 == at && i % 8 == 7 - shift;
    assert LowBits(bits, at, shift + 1) == LowBits(bits, at, shift) + if HasPiece(bits, i) then {i} else {};
  }

  lemma {:induction false} CountOneByte(bits: Bytes, at: nat)
    requires at < |bits|
    ensures |MarkedBelow(bits, 8 * (at + 1))| == |MarkedBelow(bits, 8 * at)| + |LowBits(bits, at, 8)|
  {
    hide HasPiece;
    assert MarkedBelow(bits, 8 * (at + 1)) == MarkedBelow(bits, 8 * at) + LowBits(bits, at, 8);
  }

  lemma {:induction false} CountEnds(bits: Bytes)
    ensures |MarkedBelow(bits, 0)| == 0 && MarkedBelow(bits, 8 * |bits|) == Marked(bits)
    ensures forall at :: 0 <= at < |bits| ==> |LowBits(bits, at, 0)| == 0
  {
    assert MarkedBelow(bits, 0) == {};
    forall at | 0 <= at < |bits| ensures |LowBits(bits, at, 0)| == 0 {
      assert LowBits(bits, at, 0) == {};
    }
  }

  /** How many pieces a bitfield marks, spare bits of the last byte included. */
  method Count(bits: Bytes) returns (n: nat)
    ensures n == |Marked(bits)|
  {
    hide MarkedBelow, LowBits, BitAt;
    n := 0;
    CountEnds(bits);
    for at := 0 to |bits|
      invariant n == |MarkedBelow(bits, 8 * at)|
    {
      ghost var before := |MarkedBelow(bits, 8 * at)|;
      for shift := 0 to 8
        invariant n == before + |LowBits(bits, at, shift)|
      {
        CountOneBit(bits, at, shift);
        if BitAt(bits[at], shift) { n := n + 1; }
      }
      CountOneByte(bits, at);
    }
  }

  /** The pieces that are verified and on disk, shared with every connection. */
  class HaveBitfield {
    const bf: array<Byte>

    ghost function Pieces(): set<int>
      reads this, bf
    {
      Marked(bf[..])
    }

    constructor (pieceCount: nat)
      ensures fresh(bf) && Sized(bf[..], pieceCount) && Pieces() == {}
    {
      bf := new Byte[(pieceCount + 7) / 8](_ => 0);
      new;
      NothingMarked(bf.Length);
      assert bf[..] == seq(bf.Length, _ => 0);
    }

    method Set(index: int)
      modifies bf
      ensures bf[..] == SetPiece(old(bf[..]), index)
      ensures Pieces() == old(Pieces()) + if 0 <= index < 8 * bf.Length then {index} else {}
    {
      SetPieceMarksOnlyIt(bf[..], index);
      if 0 <= index / 8 < bf.Length {
        bf[index / 8] := SetBit(bf[index / 8], 7 - index % 8);
      }
    }

    method Has(index: int) returns (has: bool)
      ensures has <==> index in Pieces()
    {
      has := 0 <= index / 8 < bf.Length && BitAt(bf[index / 8], 7 - index % 8);
    }

    /** A copy: later changes to the bitfield do not reach it. */
    method Snapshot() returns (copy: array<Byte>)
      ensures fresh(copy) && copy[..] == bf[..]
    {
      copy := new Byte[bf.Length](_ => 0);
      for i := 0 to bf.Length
        invariant copy[..i] == bf[..i]
      {
        copy[i] := bf[i];
      }
    }

    method CountPieces() returns (n: nat)
      ensures n == |Pieces()|
    {
      n := Count(bf[..]);
    }
  }
}
