/** The output file: positional reads and writes by piece, and the scan that finds what is already on disk. */
module Storage {
  import opened Base
  import opened Geometry

  datatype StorageError = NoSuchPiece | OutsidePiece | EndOfFile

  function Zeros(n: nat): (z: Bytes)
    ensures |z| == n
  {
    seq(n, _ => 0)
  }

  /** The file after resizing: cut off, or extended with zeros. */
  function Truncate(file: Bytes, length: nat): (r: Bytes)
    ensures |r| == length
  {
    if |file| >= length then file[..length] else file + Zeros(length - |file|)
  }

  /** A positional write; writing past the end extends the file. */
  function WriteAt(file: Bytes, start: nat, data: Bytes): Bytes {
    var grown := if |file| < start + |data| then Truncate(file, start + |data|) else file;
    grown[..start] + data + grown[start + |data|..]
  }

  function ReadAt(file: Bytes, start: nat, length: nat): Result<Bytes, StorageError> {
    if length == 0 then Ok([])
    else if start + length > |file| then Err(EndOfFile)
    else Ok(file[start..start + length])
  }

  function WritePiece(l: Layout, file: Bytes, index: int, data: Bytes): Result<Bytes, StorageError>
    requires l.pieceLength > 0
  {
    match l.Range(index)
    case None => Err(NoSuchPiece)
    case Some(range) => if range.0 < 0 then Err(EndOfFile) else Ok(WriteAt(file, range.0, data))
  }

  function ReadPiece(l: Layout, file: Bytes, index: int): Result<Bytes, StorageError>
    requires l.pieceLength > 0 && l.totalLength >= 0
  {
    match l.Range(index)
    case None => Err(NoSuchPiece)
    case Some(range) =>
      StartsInside(l, index);
      ReadAt(file, range.0, range.1 - range.0)
  }

  function ReadBlock(l: Layout, file: Bytes, index: int, begin: int, length: nat): Result<Bytes, StorageError>
    requires l.pieceLength > 0 && l.totalLength >= 0
  {
    match l.Range(index)
    case None => Err(NoSuchPiece)
    case Some(range) =>
      StartsInside(l, index);
      if begin < 0 || begin + length > range.1 - range.0 then Err(OutsidePiece)
      else ReadAt(file, range.0 + begin, length)
  }

  lemma {:induction false} StartsInside(l: Layout, index: int)
    requires l.pieceLength > 0 && l.totalLength >= 0 && l.Range(index).Some?
    ensures 0 <= l.Range(index).value.0 <= l.Range(index).value.1
  {
    ProductOrder(0, index, l.pieceLength);
  }

  /** The bytes of a piece in a file of the torrent's size. */
  ghost function PieceBytes(l: Layout, file: Bytes, index: int): (data: Bytes)
    requires l.Valid() && 0 <= index < l.pieceCount && |file| == l.totalLength
    ensures |data| == l.Size(index)
  {
    PieceInside(l, index);
    file[l.Start(index)..l.Start(index) + l.Size(index)]
  }

  /** Writing a piece stores exactly its bytes and leaves every other piece, and the file's size, as they were. */
  lemma {:induction false} WritePieceTouchesOnlyIt(l: Layout, file: Bytes, index: int, data: Bytes)
    requires l.Valid() && 0 <= index < l.pieceCount && |file| == l.totalLength && |data| == l.Size(index)
    ensures var r := WritePiece(l, file, index, data);
      && r.Ok? && |r.value| == l.totalLength
      && PieceBytes(l, r.value, index) == data
      && forall j :: 0 <= j < l.pieceCount && j != index ==>
           PieceBytes(l, r.value, j) == PieceBytes(l, file, j)
  {
    PieceInside(l, index);
    var start := l.Start(index);
    var r := WritePiece(l, file, index, data);
    assert r.value == file[..start] + data + file[start + |data|..];
    forall j | 0 <= j < l.pieceCount && j != index
      ensures PieceBytes(l, r.value, j) == PieceBytes(l, file, j)
    {
      PieceInside(l, j);
      if j < index { PiecesDisjoint(l, j, index); } else { PiecesDisjoint(l, index, j); }
      SameOutside(file, r.value, start, data, l.Start(j), l.Start(j) + l.Size(j));
    }
  }

  lemma {:induction false} SameOutside(file: Bytes, written: Bytes, start: nat, data: Bytes, from: nat, to: nat)
    requires start + |data| <= |file| && written == file[..start] + data + file[start + |data|..]
    requires from <= to <= |file| && (to <= start || start + |data| <= from)
    ensures |written| == |file| && written[from..to] == file[from..to]
  {
    assert forall k :: from <= k < to ==> written[k] == file[k];
  }

  /** Only an index without a piece is refused, and then there is nothing to read either. */
  lemma {:induction false} OnlyPiecesAreWritten(l: Layout, file: Bytes, index: int, data: Bytes)
    requires l.Valid()
    ensures WritePiece(l, file, index, data) == Err(NoSuchPiece) <==> index < 0 || index >= l.pieceCount
    ensures WritePiece(l, file, index, data).Err? ==> WritePiece(l, file, index, data).error == NoSuchPiece
    ensures ReadPiece(l, file, index) == Err(NoSuchPiece) <==> index < 0 || index >= l.pieceCount
  {
    hide WriteAt;
    if l.Range(index).Some? { StartsInside(l, index); }
  }

  lemma {:induction false} SliceOfSlice(s: Bytes, from: nat, to: nat, i: nat, j: nat)
    requires from <= to <= |s| && i <= j <= to - from
    ensures s[from..to][i..j] == s[from + i..from + j]
  {
    assert |s[from..to][i..j]| == |s[from + i..from + j]|;
    assert forall k :: 0 <= k < j - i ==> s[from..to][i..j][k] == s[from + i..from + j][k];
  }

  /** In a file of the right size every piece can be read, and every block inside a piece is a slice of it. */
  lemma {:induction false} ReadsAreSlices(l: Layout, file: Bytes, index: int, begin: nat, length: nat)
    requires l.Valid() && 0 <= index < l.pieceCount && |file| == l.totalLength && begin + length <= l.Size(index)
    ensures ReadPiece(l, file, index) == Ok(PieceBytes(l, file, index))
    ensures ReadBlock(l, file, index, begin, length) == Ok(PieceBytes(l, file, index)[begin..begin + length])
  {
    PieceInside(l, index);
    var start, size := l.Start(index), l.Size(index);
    assert l.Range(index) == Some((start, start + size));
    SliceOfSlice(file, start, start + size, begin, begin + length);
    if length == 0 { assert PieceBytes(l, file, index)[begin..begin] == []; }
  }

  // ----- verification -----

  /** Whether data hashes to the expected digest. */
  predicate Verified(sha: Bytes -> Digest, data: Bytes, expected: Digest) { sha(data) == expected }

  /** Compares a digest given as a slice; only a 20-byte slice can be compared. */
  function Verify(sha: Bytes -> Digest, data: Bytes, expected: Bytes): Option<bool> {
    if |expected| != DIGEST_SIZE then None else Some(sha(data) == expected)
  }

  ghost predicate OnDisk(sha: Bytes -> Digest, l: Layout, hashes: seq<Digest>, file: Bytes, index: int)
    requires l.Valid() && |hashes| == l.pieceCount && 0 <= index < l.pieceCount && |file| == l.totalLength
  {
    Verified(sha, PieceBytes(l, file, index), hashes[index])
  }

  /** The output file as an object; offsets and errors are those of the functions above. */
  class File {
    var content: Bytes

    /** Opens or creates the file and gives it its full size. */
    constructor Create(existing: Option<Bytes>, totalLength: nat)
      ensures content == Truncate(if existing.Some? then existing.value else [], totalLength)
      ensures |content| == totalLength
      ensures forall k :: 0 <= k < totalLength ==>
        content[k] == if existing.Some? && k < |existing.value| then existing.value[k] else 0
    {
      content := Truncate(if existing.Some? then existing.value else [], totalLength);
    }

    method Write(l: Layout, index: int, data: Bytes) returns (error: Option<StorageError>)
      requires l.pieceLength > 0 && l.totalLength >= 0
      modifies this
      ensures match WritePiece(l, old(content), index, data)
        case Ok(written) => error == None && content == written
        case Err(e) => error == Some(e) && content == old(content)
    {
      var range := l.Range(index);
      if range == None { return Some(NoSuchPiece); }
      StartsInside(l, index);
      content := WriteAt(content, range.value.0, data);
      error := None;
    }
  }

  /** What the resume scan says about one piece: the file has the expected size, the piece can be read from it, and its
      bytes hash to the expected digest. */
  predicate Scanned(sha: Bytes -> Digest, l: Layout, hashes: seq<Digest>, file: Option<Bytes>, index: int)
    requires l.pieceLength > 0 && l.totalLength >= 0 && 0 <= index < |hashes|
  {
    && file.Some? && |file.value| == l.totalLength
    && ReadPiece(l, file.value, index).Ok?
    && Verified(sha, ReadPiece(l, file.value, index).value, hashes[index])
  }

  /** For a proper layout that is whether the piece's bytes on disk are the right ones. */
  lemma {:induction false} ScannedIsOnDisk(
    sha: Bytes -> Digest, l: Layout, hashes: seq<Digest>, file: Bytes, index: int)
    requires l.Valid() && |hashes| == l.pieceCount && 0 <= index < l.pieceCount && |file| == l.totalLength
    ensures Scanned(sha, l, hashes, Some(file), index) <==> OnDisk(sha, l, hashes, file, index)
  {
    hide ReadPiece, PieceBytes;
    PieceInside(l, index);
    ReadsAreSlices(l, file, index, 0, 0);
  }

  /** The resume scan: a missing file or one of the wrong size verifies nothing; otherwise exactly the pieces that
      can be read and hash to the expected digest. */
  method VerifyExisting(sha: Bytes -> Digest, file: Option<Bytes>, l: Layout, hashes: seq<Digest>)
    returns (verified: seq<bool>)
    requires l.pieceLength > 0 && l.totalLength >= 0 && |hashes| == l.pieceCount
    ensures |verified| == l.pieceCount
    ensures forall i :: 0 <= i < l.pieceCount ==> (verified[i] <==> Scanned(sha, l, hashes, file, i))
    ensures file == None || |file.value| != l.totalLength ==> forall i :: 0 <= i < l.pieceCount ==> !verified[i]
  {
    hide ReadPiece;
    verified := seq(l.pieceCount, _ => false);
    if file == None || |file.value| != l.totalLength { return; }
    for i := 0 to l.pieceCount
      invariant |verified| == l.pieceCount
      invariant forall k :: 0 <= k < l.pieceCount ==> (verified[k] <==> k < i && Scanned(sha, l, hashes, file, k))
    {
      var buf := ReadPiece(l, file.value, i);
      if buf.Ok? && Verify(sha, buf.value, hashes[i]) == Some(true) {
        verified := verified[i := true];
      }
    }
  }
}
