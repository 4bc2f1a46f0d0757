/** Piece and block boundaries: which bytes of the torrent belong to which piece, and which bytes of a
    piece belong to which block. */
module Geometry {
  import opened Base

  const BLOCK_SIZE := 16 * 1024

  datatype Layout = Layout(pieceCount: int, pieceLength: int, totalLength: int) {
    /** What a parsed torrent guarantees: as many pieces as it takes to hold totalLength bytes. */
    predicate Valid() {
      && pieceLength > 0
      && totalLength > 0
      && pieceCount == (totalLength + pieceLength - 1) / pieceLength
    }

    function Length(index: int): Option<int>
      requires pieceLength > 0
    {
      if index < 0 || index >= pieceCount then None
      else if index < pieceCount - 1 then Some(pieceLength)
      else if totalLength % pieceLength == 0 then Some(pieceLength)
      else Some(totalLength % pieceLength)
    }

    /** Bytes [start, end) of the piece within the torrent. */
    function Range(index: int): Option<(int, int)>
      requires pieceLength > 0
    {
      match Length(index)
      case None => None
      case Some(length) => Some((index * pieceLength, index * pieceLength + length))
    }

    function BlockCount(index: int): Option<int>
      requires pieceLength > 0
    {
      match Length(index)
      case None => None
      case Some(length) => Some((length + BLOCK_SIZE - 1) / BLOCK_SIZE)
    }

    /** Offset and length of a block within its piece. */
    function BlockBounds(index: int, block: int): Option<(int, int)>
      requires pieceLength > 0
    {
      match Length(index)
      case None => None
      case Some(length) =>
        var blocks := (length + BLOCK_SIZE - 1) / BLOCK_SIZE;
        if block < 0 || block >= blocks then None
        else if block == blocks - 1 then Some((block * BLOCK_SIZE, length - block * BLOCK_SIZE))
        else Some((block * BLOCK_SIZE, BLOCK_SIZE))
    }

    ghost function Start(index: int): int { index * pieceLength }

    /** Length of a piece that exists. */
    ghost function Size(index: int): int
      requires Valid() && 0 <= index < pieceCount
    {
      Length(index).value
    }

    ghost predicate Owns(index: int, offset: int)
      requires Valid() && 0 <= index < pieceCount
    {
      Start(index) <= offset < Start(index) + Size(index)
    }
  }

  /** The layout that block-level code uses: the piece alone, cut into blocks. */
  function OfBlocks(length: int): Layout {
    Layout((length + BLOCK_SIZE - 1) / BLOCK_SIZE, BLOCK_SIZE, length)
  }

  lemma {:induction false} ProductOrder(a: int, b: int, p: int)
    requires a <= b && p > 0
    ensures a * p <= b * p
    ensures a < b ==> a * p + p <= b * p
  {
    if a < b {
      assert (b - a - 1) * p >= 0;
      assert (b - a - 1) * p == b * p - a * p - p;
    }
  }

  /** The last piece ends exactly where the torrent does, and it is not empty. */
  lemma {:induction false} LastPiece(l: Layout)
    requires l.Valid()
    ensures l.pieceCount >= 1
    ensures (l.pieceCount - 1) * l.pieceLength < l.totalLength <= l.pieceCount * l.pieceLength
    ensures l.Size(l.pieceCount - 1) == l.totalLength - (l.pieceCount - 1) * l.pieceLength
  {
    var n, p, t := l.pieceCount, l.pieceLength, l.totalLength;
    assert n * p <= t + p - 1 < n * p + p by {
      assert t + p - 1 == p * ((t + p - 1) / p) + (t + p - 1) % p;
    }
    var last := t - (n - 1) * p;
    assert last == t - n * p + p;
    if n <= 0 { ProductOrder(n, 0, p); assert false; }
    assert t % p == (if last == p then 0 else last) by {
      if last == p {
        QuotientUnique(t, p, n, 0);
      } else {
        QuotientUnique(t, p, n - 1, last);
      }
    }
  }

  lemma {:induction false} QuotientUnique(t: int, p: int, q: int, r: int)
    requires p > 0 && t == q * p + r && 0 <= r < p
    ensures t / p == q && t % p == r
  {
    var q', r' := t / p, t % p;
    assert t == p * q' + r' && 0 <= r' < p;
    if q < q' { ProductOrder(q, q', p); }
    if q' < q { ProductOrder(q', q, p); }
  }

  /** Every piece is non-empty, no longer than pieceLength, and inside the torrent. */
  lemma {:induction false} PieceInside(l: Layout, i: int)
    requires l.Valid() && 0 <= i < l.pieceCount
    ensures 1 <= l.Size(i) <= l.pieceLength
    ensures 0 <= l.Start(i)
    ensures l.Start(i) + l.Size(i) == if i == l.pieceCount - 1 then l.totalLength else l.Start(i + 1)
    ensures l.Start(i) + l.Size(i) <= l.totalLength
  {
    LastPiece(l);
    ProductOrder(0, i, l.pieceLength);
    if i < l.pieceCount - 1 {
      ProductOrder(i + 1, l.pieceCount - 1, l.pieceLength);
      assert (i + 1) * l.pieceLength == i * l.pieceLength + l.pieceLength;
    }
  }

  /** Different pieces never share a byte. */
  lemma {:induction false} PiecesDisjoint(l: Layout, i: int, j: int)
    requires l.Valid() && 0 <= i < j < l.pieceCount
    ensures l.Start(i) + l.Size(i) <= l.Start(j)
  {
    PieceInside(l, i);
    ProductOrder(i, j, l.pieceLength);
  }

  lemma {:induction false} QuotientInRange(offset: int, p: int, n: int)
    requires p > 0 && 0 <= offset < n * p
    ensures 0 <= offset / p < n && offset / p * p <= offset < offset / p * p + p
  {
    var q, r := offset / p, offset % p;
    assert offset == q * p + r && 0 <= r < p;
    if n <= q { ProductOrder(n, q, p); }
    if q < 0 { ProductOrder(q, 0, p); }
  }

  lemma {:induction false} QuotientOwns(l: Layout, offset: int)
    requires l.Valid() && 0 <= offset < l.totalLength
    ensures 0 <= offset / l.pieceLength < l.pieceCount && l.Owns(offset / l.pieceLength, offset)
  {
    LastPiece(l);
    QuotientInRange(offset, l.pieceLength, l.pieceCount);
    hide Layout.Valid;
    PieceInside(l, offset / l.pieceLength);
    OneMoreLength(l, offset / l.pieceLength);
  }

  lemma {:induction false} OneMoreLength(l: Layout, q: int)
    ensures l.Start(q + 1) == l.Start(q) + l.pieceLength
  {
  }

  lemma {:induction false} OneOwner(l: Layout, i: int, j: int, offset: int)
    requires l.Valid() && 0 <= i < l.pieceCount && 0 <= j < l.pieceCount && l.Owns(i, offset) && l.Owns(j, offset)
    ensures i == j
  {
    hide Layout.Valid, Layout.Start, Layout.Size;
    if i < j { PiecesDisjoint(l, i, j); }
    if j < i { PiecesDisjoint(l, j, i); }
  }

  /** Piece ranges partition the torrent: every offset has exactly one owner, offset / pieceLength. */
  lemma {:induction false} PiecesTile(l: Layout, offset: int)
    requires l.Valid() && 0 <= offset < l.totalLength
    ensures 0 <= offset / l.pieceLength < l.pieceCount
    ensures forall i :: 0 <= i < l.pieceCount ==> (l.Owns(i, offset) <==> i == offset / l.pieceLength)
  {
    QuotientOwns(l, offset);
    var q := offset / l.pieceLength;
    hide Layout.Valid, Layout.Owns;
    forall i | 0 <= i < l.pieceCount && l.Owns(i, offset) ensures i == q { OneOwner(l, i, q, offset); }
  }

  /** Cutting a piece into blocks is the same arithmetic as cutting a torrent into pieces. */
  lemma {:induction false} BlocksAreALayout(l: Layout, i: int)
    requires l.Valid() && 0 <= i < l.pieceCount
    ensures OfBlocks(l.Size(i)).Valid()
    ensures l.BlockCount(i) == Some(OfBlocks(l.Size(i)).pieceCount)
    ensures forall b :: 0 <= b < OfBlocks(l.Size(i)).pieceCount ==>
      l.BlockBounds(i, b) == Some((b * BLOCK_SIZE, OfBlocks(l.Size(i)).Size(b)))
    ensures forall b :: !(0 <= b < OfBlocks(l.Size(i)).pieceCount) ==> l.BlockBounds(i, b) == None
  {
    PieceInside(l, i);
    LastPiece(OfBlocks(l.Size(i)));
  }

  ghost predicate BlockOwns(l: Layout, i: int, b: int, offset: int)
    requires l.Valid() && 0 <= i < l.pieceCount
  {
    match l.BlockBounds(i, b)
    case None => false
    case Some(bounds) => l.Start(i) + bounds.0 <= offset < l.Start(i) + bounds.0 + bounds.1
  }

  /** Every byte of the torrent lies in exactly one (piece, block), and no block is empty or longer than BLOCK_SIZE. */
  lemma {:induction false} BlocksTile(l: Layout, offset: int)
    requires l.Valid() && 0 <= offset < l.totalLength
    ensures forall i, b :: 0 <= i < l.pieceCount ==>
      (BlockOwns(l, i, b, offset) <==>
        i == offset / l.pieceLength && b == (offset - l.Start(i)) / BLOCK_SIZE)
    ensures forall i, b :: 0 <= i < l.pieceCount && l.BlockBounds(i, b).Some? ==>
      1 <= l.BlockBounds(i, b).value.1 <= BLOCK_SIZE
  {
    PiecesTile(l, offset);
    forall i, b | 0 <= i < l.pieceCount
      ensures BlockOwns(l, i, b, offset) <==>
        i == offset / l.pieceLength && b == (offset - l.Start(i)) / BLOCK_SIZE
      ensures l.BlockBounds(i, b).Some? ==> 1 <= l.BlockBounds(i, b).value.1 <= BLOCK_SIZE
    {
      BlocksAreALayout(l, i);
      var blocks := OfBlocks(l.Size(i));
      if 0 <= b < blocks.pieceCount { PieceInside(blocks, b); }
      if l.Owns(i, offset) { PiecesTile(blocks, offset - l.Start(i)); }
    }
  }

  /** Total length of the pieces below `upto` that are in `owned`. */
  ghost function OwnedBytes(l: Layout, owned: set<int>, upto: int): int
    requires l.Valid() && 0 <= upto <= l.pieceCount
    decreases upto
  {
    if upto == 0 then 0
    else OwnedBytes(l, owned, upto - 1) + if upto - 1 in owned then l.Size(upto - 1) else 0
  }

  /** Owning one more piece owns its length more. */
  lemma {:induction false} OwnedBytesAdd(l: Layout, owned: set<int>, i: int, upto: int)
    requires l.Valid() && 0 <= i < l.pieceCount && 0 <= upto <= l.pieceCount && i !in owned
    ensures OwnedBytes(l, owned + {i}, upto) ==
      OwnedBytes(l, owned, upto) + if i < upto then l.Size(i) else 0
    decreases upto
  {
    if upto > 0 { OwnedBytesAdd(l, owned, i, upto - 1); }
  }

  /** What is owned and what is not add up to the bytes before piece `upto`. */
  lemma {:induction false} OwnedBytesComplement(l: Layout, owned: set<int>, rest: set<int>, upto: int)
    requires l.Valid() && 0 <= upto <= l.pieceCount
    requires forall i :: 0 <= i < l.pieceCount ==> (i in owned <==> i !in rest)
    ensures OwnedBytes(l, owned, upto) + OwnedBytes(l, rest, upto) ==
      if upto == l.pieceCount then l.totalLength else l.Start(upto)
    ensures OwnedBytes(l, owned, upto) >= 0
    decreases upto
  {
    LastPiece(l);
    if upto > 0 {
      OwnedBytesComplement(l, owned, rest, upto - 1);
      PieceInside(l, upto - 1);
    }
  }

  /** Owning fewer than all pieces owns fewer than all bytes. */
  lemma {:induction false} AllBytesMeansAllPieces(l: Layout, owned: set<int>)
    requires l.Valid()
    ensures OwnedBytes(l, owned, l.pieceCount) <= l.totalLength
    ensures OwnedBytes(l, owned, l.pieceCount) == l.totalLength <==>
      forall i :: 0 <= i < l.pieceCount ==> i in owned
  {
    var rest := set i | 0 <= i < l.pieceCount && i !in owned;
    OwnedBytesComplement(l, owned, rest, l.pieceCount);
    OwnedBytesComplement(l, rest, owned, l.pieceCount);
    if i :| 0 <= i < l.pieceCount && i !in owned {
      OwnedBytesAdd(l, rest - {i}, i, l.pieceCount);
      assert rest - {i} + {i} == rest;
      OwnedBytesComplement(l, rest - {i}, owned + {i}, l.pieceCount);
      PieceInside(l, i);
    } else {
      NothingOwned(l, rest, l.pieceCount);
    }
  }

  lemma {:induction false} NothingOwned(l: Layout, owned: set<int>, upto: int)
    requires l.Valid() && 0 <= upto <= l.pieceCount
    requires forall i :: 0 <= i < upto ==> i !in owned
    ensures OwnedBytes(l, owned, upto) == 0
    decreases upto
  {
    if upto > 0 { NothingOwned(l, owned, upto - 1); }
  }

  /** When the piece-count check itself does not overflow, no other boundary computation does. */
  lemma {:induction false} BoundariesFitInt64(l: Layout, i: int)
    requires l.Valid() && 0 <= i < l.pieceCount
    requires l.totalLength + l.pieceLength - 1 <= MAX_INT64
    ensures l.Start(i) + l.Size(i) <= MAX_INT64
    ensures l.Size(i) + BLOCK_SIZE - 1 <= MAX_INT64
  {
    PieceInside(l, i);
  }
}
