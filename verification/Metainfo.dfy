/** From the bytes of a .torrent file to a torrent: the fields that the download depends on, the two ways of computing
    the info hash and the check that they agree, and the check that the piece count fits the lengths. */
module Metainfo {
  import opened Base
  import opened Bencode
  import opened BencodeLaws
  import opened Codec
  import opened Geometry
  import opened Spans

  datatype Metadata = Metadata(
    announce: Bytes, infoHash: Digest, name: Bytes, pieceLength: int, totalLength: int, hashes: seq<Digest>)
  {
    function PieceLayout(): Layout { Layout(|hashes|, pieceLength, totalLength) }
  }

  datatype ParseError =
    | Malformed(error: BencodeError)
    | MissingAnnounce
    | BadAnnounceList
    | MissingInfo
    | MissingField
    | BadPieces
    | InfoHashMismatch
    | BadLengths
    | BadName

  // The dictionary keys, as bytes.
  const ANNOUNCE: Bytes := [97, 110, 110, 111, 117, 110, 99, 101]
  const ANNOUNCE_LIST: Bytes := [97, 110, 110, 111, 117, 110, 99, 101, 45, 108, 105, 115, 116]
  const INFO: Bytes := [105, 110, 102, 111]
  const NAME: Bytes := [110, 97, 109, 101]
  const PIECE_LENGTH: Bytes := [112, 105, 101, 99, 101, 32, 108, 101, 110, 103, 116, 104]
  const PIECES: Bytes := [112, 105, 101, 99, 101, 115]
  const LENGTH: Bytes := [108, 101, 110, 103, 116, 104]

  const SLASH: Byte := 47
  const BACKSLASH: Byte := 92
  const DOT: Byte := 46

  type Dictionary = map<Bytes, Value>

  predicate HasString(d: Dictionary, key: Bytes) { key in d && d[key].Str? }

  predicate HasInt(d: Dictionary, key: Bytes) { key in d && d[key].Int? }

  /** A list of lists of strings. */
  predicate IsAnnounceList(v: Value) {
    v.List? && forall i :: 0 <= i < |v.items| ==>
      v.items[i].List? && forall j :: 0 <= j < |v.items[i].items| ==> v.items[i].items[j].Str?
  }

  /** The piece hashes: one digest for every 20 bytes. */
  function SplitPieces(blob: Bytes): (hashes: seq<Digest>)
    requires |blob| % DIGEST_SIZE == 0
    ensures |hashes| * DIGEST_SIZE == |blob|
  {
    if blob == [] then [] else [blob[..DIGEST_SIZE]] + SplitPieces(blob[DIGEST_SIZE..])
  }

  /** Hash i is bytes 20 i to 20 i + 20. */
  lemma {:induction false} SplitPiecesAt(blob: Bytes, i: nat)
    requires |blob| % DIGEST_SIZE == 0 && i < |SplitPieces(blob)|
    ensures SplitPieces(blob)[i] == blob[i * DIGEST_SIZE..i * DIGEST_SIZE + DIGEST_SIZE]
  {
    if i > 0 {
      var rest, at := blob[DIGEST_SIZE..], (i - 1) * DIGEST_SIZE;
      SplitPiecesAt(rest, i - 1);
      assert rest[at..at + DIGEST_SIZE] == blob[at + DIGEST_SIZE..at + DIGEST_SIZE + DIGEST_SIZE];
    }
  }

  lemma {:induction false} OneMoreHash(blob: Bytes, n: nat)
    requires |blob| % DIGEST_SIZE == 0 && n % DIGEST_SIZE == 0 && n + DIGEST_SIZE <= |blob|
    ensures SplitPieces(blob[..n + DIGEST_SIZE]) == SplitPieces(blob[..n]) + [blob[n..n + DIGEST_SIZE]]
    decreases n
  {
    var more, less, rest := blob[..n + DIGEST_SIZE], blob[..n], blob[DIGEST_SIZE..];
    if n == 0 {
      assert more[DIGEST_SIZE..] == [] && more[..DIGEST_SIZE] == blob[..DIGEST_SIZE] && less == [];
    } else {
      var m := n - DIGEST_SIZE;
      OneMoreHash(rest, m);
      assert more[DIGEST_SIZE..] == rest[..m + DIGEST_SIZE] && less[DIGEST_SIZE..] == rest[..m];
      assert rest[m..m + DIGEST_SIZE] == blob[n..n + DIGEST_SIZE];
      assert more[..DIGEST_SIZE] == less[..DIGEST_SIZE];
    }
  }

  /** ceil(totalLength / pieceLength) as the source computes it, in 64 bits and truncating toward zero. */
  function ExpectedPieces(pieceLength: int, totalLength: int): int
    requires pieceLength > 0
  {
    Quotient(Wrap64(totalLength + pieceLength - 1), pieceLength)
  }

  predicate LengthsAgree(t: Metadata) {
    && t.pieceLength > 0 && t.totalLength > 0
    && |t.hashes| == ExpectedPieces(t.pieceLength, t.totalLength)
  }

  predicate SafeName(name: Bytes) { name != [] && SLASH !in name && BACKSLASH !in name && name[0] != DOT }

  function Validate(t: Metadata): Option<ParseError> {
    if !LengthsAgree(t) then Some(BadLengths) else if !SafeName(t.name) then Some(BadName) else None
  }

  /** The fields of the info dictionary. */
  ghost function ParseInfo(sha: Bytes -> Digest, info: Dictionary, announce: Bytes): Result<Metadata, ParseError> {
    if !HasString(info, NAME) || !HasInt(info, PIECE_LENGTH) then Err(MissingField)
    else if !HasString(info, PIECES) then Err(MissingField)
    else if |info[PIECES].s| % DIGEST_SIZE != 0 then Err(BadPieces)
    else if !HasInt(info, LENGTH) then Err(MissingField)
    else
      Ok(Metadata(announce, sha(Encode(Dict(info))), info[NAME].s, info[PIECE_LENGTH].n, info[LENGTH].n,
                  SplitPieces(info[PIECES].s)))
  }

  /** A decoded root dictionary, with the bytes its info value was read from. */
  ghost function ParseRoot(sha: Bytes -> Digest, root: Dictionary, infoBytes: Bytes): Result<Metadata, ParseError> {
    if !HasString(root, ANNOUNCE) then Err(MissingAnnounce)
    else if ANNOUNCE_LIST in root && !IsAnnounceList(root[ANNOUNCE_LIST]) then Err(BadAnnounceList)
    else if INFO !in root || !root[INFO].Dict? then Err(MissingInfo)
    else
      match ParseInfo(sha, root[INFO].entries, root[ANNOUNCE].s)
      case Err(e) => Err(e)
      case Ok(t) =>
        if sha(infoBytes) != t.infoHash then Err(InfoHashMismatch)
        else
          match Validate(t)
          case Some(e) => Err(e)
          case None => Ok(t)
  }

  /** The bytes of the info value, where there is one. */
  ghost function InfoBytes(data: Bytes, entries: seq<Entry>): Bytes {
    var spans := SpansOf(entries, 1);
    if INFO in spans && spans[INFO].start <= spans[INFO].end <= |data| then data[spans[INFO].start..spans[INFO].end]
    else []
  }

  ghost function ParseTorrent(sha: Bytes -> Digest, data: Bytes): Result<Metadata, ParseError> {
    if data == [] then Err(Malformed(UnexpectedEOF))
    else if data[0] != DICT then Err(Malformed(InvalidTypeMarker))
    else
      match ParseDict(data, 0)
      case Err(e) => Err(Malformed(e))
      case Ok(p) =>
        if p.size < |data| then Err(Malformed(TrailingData))
        else ParseRoot(sha, MapOf(p.value), InfoBytes(data, p.value))
  }

  // ----- the lengths -----

  /** A torrent that passes the length check tiles its bytes with its pieces if and only if it has a piece at all, which
      is when the check itself did not overflow. A torrent without pieces passes only by overflow. */
  lemma {:induction false} CheckedLengthsTile(t: Metadata)
    requires LengthsAgree(t) && t.pieceLength <= MAX_INT64 && t.totalLength <= MAX_INT64
    ensures t.PieceLayout().Valid() <==> t.hashes != []
    ensures t.hashes != [] <==> t.totalLength + t.pieceLength - 1 <= MAX_INT64
  {
    var sum := t.totalLength + t.pieceLength - 1;
    if sum <= MAX_INT64 {
      LastPiece(t.PieceLayout());
    } else {
      assert Wrap64(sum) == sum - 0x1_0000_0000_0000_0000 < 0;
    }
  }

  /** Such a torrent exists: two lengths of 2^63 - 1 need one piece, and pass with none. */
  lemma {:induction false} NoPiecesCanPass(t: Metadata)
    requires t.pieceLength == MAX_INT64 && t.totalLength == MAX_INT64 && t.hashes == []
    ensures LengthsAgree(t) && !t.PieceLayout().Valid()
  {
    assert Wrap64(2 * MAX_INT64 - 1) == -3;
  }

  // ----- the two info hashes -----

  lemma {:induction false} InfoStandsAlone(data: Bytes, entries: seq<Entry>, i: nat)
    requires data != [] && data[0] == DICT && ParseDict(data, 0).Ok? && ParseDict(data, 0).value.value == entries
    requires i < |entries| && entries[i].key == INFO
    ensures INFO in MapOf(entries) && MapOf(entries)[INFO] == entries[i].value
    ensures InfoBytes(data, entries) != [] && ParseStrict(InfoBytes(data, entries)) == Ok(MapOf(entries)[INFO])
  {
    hide ParseEntries, ParseStrict, SpanOf, MapOf, SpansOf;
    EntriesAscend(data[1..], 1, None);
    MapOfAscending(entries);
    SpansAreRecorded(entries, 1);
    SpansDecodeAlone(data, i);
    assert Keys(entries)[i] == INFO;
  }

  /** How many leading zeros the info value's length prefixes have to spare. */
  ghost function InfoSurplus(data: Bytes, entries: seq<Entry>): nat {
    var parsed := ParseValue(InfoBytes(data, entries), 0);
    if parsed.Ok? then parsed.value.surplus else 0
  }

  /** Re-encoding the info value gives back its very bytes exactly when none of its length prefixes has a leading zero;
      then the two hashes agree whatever the digest function is. */
  lemma {:induction false} InfoHashesAgree(data: Bytes, entries: seq<Entry>)
    requires data != [] && data[0] == DICT && ParseDict(data, 0).Ok? && ParseDict(data, 0).value.value == entries
    requires INFO in MapOf(entries)
    ensures Encode(MapOf(entries)[INFO]) == InfoBytes(data, entries) <==> InfoSurplus(data, entries) == 0
  {
    hide ParseDict, ParseValue, Encode, InfoBytes;
    var i := IndexOfKey(data, entries, INFO);
    InfoStandsAlone(data, entries, i);
    var bytes := InfoBytes(data, entries);
    ParseThenPrint(bytes, 0);
    assert bytes[..|bytes|] == bytes;
  }

  lemma {:induction false} IndexOfKey(data: Bytes, entries: seq<Entry>, key: Bytes) returns (i: nat)
    requires data != [] && data[0] == DICT && ParseDict(data, 0).Ok? && ParseDict(data, 0).value.value == entries
    requires key in MapOf(entries)
    ensures i < |entries| && entries[i].key == key
  {
    hide ParseEntries, MapOf;
    EntriesAscend(data[1..], 1, None);
    MapOfAscending(entries);
    i :| 0 <= i < |Keys(entries)| && Keys(entries)[i] == key;
  }

  /** A parsed torrent's info hash is the digest of the info bytes of the file, and of their canonical re-encoding. If
      the digest function tells those two apart when they differ, no length prefix was padded. A torrent with a piece
      has a proper layout in which no boundary overflows. */
  lemma {:induction false} ParsedTorrentIsSound(sha: Bytes -> Digest, data: Bytes, t: Metadata)
    requires ParseTorrent(sha, data) == Ok(t)
    ensures var entries := ParseDict(data, 0).value.value;
      && INFO in MapOf(entries)
      && t.infoHash == sha(InfoBytes(data, entries)) == sha(Encode(MapOf(entries)[INFO]))
      && (InfoBytes(data, entries) != Encode(MapOf(entries)[INFO]) ==> InfoSurplus(data, entries) > 0)
    ensures t.hashes != [] ==>
      && t.PieceLayout().Valid()
      && forall i :: 0 <= i < |t.hashes| ==> t.PieceLayout().Start(i) + t.PieceLayout().Size(i) <= MAX_INT64
  {
    hide ParseDict, MapOf, Encode, InfoBytes, SplitPieces;
    var entries := ParseDict(data, 0).value.value;
    InfoHashesAgree(data, entries);
    DecodedIntegersFit(data, entries);
    CheckedLengthsTile(t);
    if t.hashes != [] {
      forall i | 0 <= i < |t.hashes| ensures t.PieceLayout().Start(i) + t.PieceLayout().Size(i) <= MAX_INT64 {
        BoundariesFitInt64(t.PieceLayout(), i);
      }
    }
  }

  lemma {:induction false} DecodedIntegersFit(data: Bytes, entries: seq<Entry>)
    requires data != [] && data[0] == DICT && ParseDict(data, 0).Ok? && ParseDict(data, 0).value.value == entries
    requires INFO in MapOf(entries) && MapOf(entries)[INFO].Dict?
    ensures forall k :: k in MapOf(entries)[INFO].entries && MapOf(entries)[INFO].entries[k].Int? ==>
      FitsInt64(MapOf(entries)[INFO].entries[k].n)
  {
    hide ParseDict, Encode, MapOf;
    ParseThenPrintDict(data, 0);
    var root := Dict(MapOf(entries));
    assert Encodable(root.entries[INFO], MAX_NESTING_DEPTH - 1);
  }

  /** Everything before the comparison of the two digests succeeds. */
  ghost predicate ReachesCrossCheck(sha: Bytes -> Digest, data: Bytes) {
    && data != [] && data[0] == DICT && ParseDict(data, 0).Ok? && ParseDict(data, 0).value.size == |data|
    && var root := MapOf(ParseDict(data, 0).value.value);
       && HasString(root, ANNOUNCE) && (ANNOUNCE_LIST in root ==> IsAnnounceList(root[ANNOUNCE_LIST]))
       && INFO in root && root[INFO].Dict? && ParseInfo(sha, root[INFO].entries, root[ANNOUNCE].s).Ok?
  }

  /** The comparison fails for exactly the files whose info value has a length prefix with a leading zero, unless the
      digest function collides on the two ways to write that value; ordered keys alone do not make them agree. */
  lemma {:induction false} MismatchMeansPadding(sha: Bytes -> Digest, data: Bytes)
    requires ReachesCrossCheck(sha, data)
    requires var entries := ParseDict(data, 0).value.value;
      sha(InfoBytes(data, entries)) == sha(Encode(MapOf(entries)[INFO])) ==>
        InfoBytes(data, entries) == Encode(MapOf(entries)[INFO])
    ensures ParseTorrent(sha, data) == Err(InfoHashMismatch) <==>
      InfoSurplus(data, ParseDict(data, 0).value.value) > 0
  {
    hide ParseDict, MapOf, Encode, InfoBytes, SplitPieces, LengthsAgree, SafeName;
    InfoHashesAgree(data, ParseDict(data, 0).value.value);
  }

  /** The comparison never fails, whatever the digest function, for a file written in the one canonical way. */
  lemma {:induction false} CanonicalFilesMatch(sha: Bytes -> Digest, root: Dictionary)
    requires Encodable(Dict(root), MAX_NESTING_DEPTH)
    ensures var data := Encode(Dict(root));
      && data != [] && data[0] == DICT && ParseDict(data, 0).Ok? && MapOf(ParseDict(data, 0).value.value) == root
      && ParseTorrent(sha, data) == ParseRoot(sha, root, InfoBytes(data, ParseDict(data, 0).value.value))
      && ParseTorrent(sha, data) != Err(InfoHashMismatch)
  {
    hide ParseEntries, MapOf, Encode, InfoBytes, SplitPieces, LengthsAgree, SafeName, Encodable;
    var data := Encode(Dict(root));
    PrintThenParse(Dict(root), [], 0);
    assert data + [] == data;
    StartsAsDict(root);
    var entries := ParseDict(data, 0).value.value;
    if INFO in MapOf(entries) {
      var i := IndexOfKey(data, entries, INFO);
      SpanIsRecorded(data, entries);
      InfoSurplusBound(data, entries, i);
      InfoHashesAgree(data, entries);
    }
  }

  lemma {:induction false} StartsAsDict(root: Dictionary)
    ensures Encode(Dict(root)) != [] && Encode(Dict(root))[0] == DICT
  {
  }

  lemma {:induction false} InfoSurplusBound(data: Bytes, entries: seq<Entry>, i: nat)
    requires data != [] && data[0] == DICT && ParseDict(data, 0).Ok? && ParseDict(data, 0).value.value == entries
    requires i < |entries| && entries[i].key == INFO
    ensures InfoSurplus(data, entries) <= ParseDict(data, 0).value.surplus
  {
    hide ParseEntries, ParseValue, SpanOf, MapOf, SpansOf;
    EntriesAscend(data[1..], 1, None);
    SpansAreRecorded(entries, 1);
    SpansDecodeAlone(data, i);
    assert Keys(entries)[i] == INFO;
  }

  /** No file with a padded info value is accepted, whatever else is wrong with it. */
  lemma {:induction false} PaddedInfoIsRejected(sha: Bytes -> Digest, data: Bytes)
    requires data != [] && data[0] == DICT && ParseDict(data, 0).Ok? && ParseDict(data, 0).value.size == |data|
    requires INFO in MapOf(ParseDict(data, 0).value.value) && InfoSurplus(data, ParseDict(data, 0).value.value) > 0
    requires var entries := ParseDict(data, 0).value.value;
      sha(InfoBytes(data, entries)) == sha(Encode(MapOf(entries)[INFO])) ==>
        InfoBytes(data, entries) == Encode(MapOf(entries)[INFO])
    ensures ParseTorrent(sha, data).Err?
  {
    hide ParseDict, MapOf, Encode, InfoBytes, SplitPieces, Validate;
    InfoHashesAgree(data, ParseDict(data, 0).value.value);
  }

  // ----- what is accepted -----

  /** Pieces of that length cover the torrent and the last one is needed; or the check overflowed and there are none. */
  ghost predicate LengthsFit(t: Metadata) {
    && t.pieceLength > 0 && t.totalLength > 0
    && if t.totalLength + t.pieceLength <= 0x8000_0000_0000_0000
       then (|t.hashes| - 1) * t.pieceLength < t.totalLength <= |t.hashes| * t.pieceLength
       else t.hashes == [] && t.totalLength + 2 * t.pieceLength > 0x1_0000_0000_0000_0001
  }

  lemma {:induction false} LengthsAgreeExactly(t: Metadata)
    requires t.pieceLength <= MAX_INT64 && t.totalLength <= MAX_INT64
    ensures LengthsAgree(t) <==> LengthsFit(t)
  {
    hide ExpectedPieces;
    if t.pieceLength > 0 && t.totalLength > 0 {
      if t.totalLength + t.pieceLength - 1 <= MAX_INT64 {
        ExpectedWithoutOverflow(|t.hashes|, t.pieceLength, t.totalLength);
      } else {
        ExpectedAfterOverflow(t.pieceLength, t.totalLength);
      }
    }
  }

  lemma {:induction false} ExpectedWithoutOverflow(n: nat, p: int, total: int)
    requires 0 < p && 0 < total && total + p - 1 <= MAX_INT64
    ensures ExpectedPieces(p, total) == n <==> (n - 1) * p < total <= n * p
  {
    var sum := total + p - 1;
    assert Wrap64(sum) == sum;
    var q := sum / p;
    assert sum == q * p + sum % p;
    assert (n - 1) * p == n * p - p;
    if (n - 1) * p < total <= n * p { QuotientUnique(sum, p, n, sum - n * p); }
  }

  lemma {:induction false} ExpectedAfterOverflow(p: int, total: int)
    requires 0 < p <= MAX_INT64 && 0 < total <= MAX_INT64 && total + p - 1 > MAX_INT64
    ensures ExpectedPieces(p, total) <= 0
    ensures ExpectedPieces(p, total) == 0 <==> total + 2 * p > 0x1_0000_0000_0000_0001
  {
    var less := 0x1_0000_0000_0000_0000 - (total + p - 1);
    assert Wrap64(total + p - 1) == -less;
    SmallQuotient(less, p);
  }

  lemma {:induction false} SmallQuotient(a: int, p: int)
    requires a > 0 && p > 0
    ensures a / p >= 0 && (a / p == 0 <==> a < p)
  {
    var q := a / p;
    assert a == q * p + a % p;
    if q < 0 { ProductOrder(q, -1, p); }
    if q >= 1 { ProductOrder(1, q, p); }
  }

  /** A plain file name: not empty, not hidden, and no path. */
  ghost predicate PlainName(name: Bytes) {
    && name != [] && name[0] != '.' as int
    && forall k :: 0 <= k < |name| ==> name[k] != '/' as int && name[k] != '\\' as int
  }

  ghost predicate Holds(d: Dictionary, key: string, v: Value)
    requires forall i :: 0 <= i < |key| ==> key[i] as int < 128
  {
    Ascii(key) in d && d[Ascii(key)] == v
  }

  /** The torrent is what the info dictionary says, key by key, with every hash in its place. */
  ghost predicate DescribesInfo(info: Dictionary, t: Metadata) {
    && Holds(info, "name", Str(t.name))
    && Holds(info, "piece length", Int(t.pieceLength))
    && Holds(info, "length", Int(t.totalLength))
    && exists blob :: Holds(info, "pieces", Str(blob)) && HashesOf(blob, t.hashes)
  }

  ghost predicate HashesOf(blob: Bytes, hashes: seq<Digest>) {
    |blob| == 20 * |hashes| && forall i :: 0 <= i < |hashes| ==> hashes[i] == blob[20 * i..20 * i + 20]
  }

  /** Tiers of trackers, as a value. */
  function TiersValue(tiers: seq<seq<Bytes>>): Value {
    List(seq(|tiers|, i requires 0 <= i < |tiers| =>
      List(seq(|tiers[i]|, j requires 0 <= j < |tiers[i]| => Str(tiers[i][j])))))
  }

  lemma {:induction false} TiersAreLists(v: Value)
    ensures IsAnnounceList(v) <==> exists tiers :: v == TiersValue(tiers)
  {
    if IsAnnounceList(v) {
      var tiers := seq(|v.items|, i requires 0 <= i < |v.items| =>
        seq(|v.items[i].items|, j requires 0 <= j < |v.items[i].items| => v.items[i].items[j].s));
      forall i | 0 <= i < |v.items| ensures v.items[i] == TiersValue(tiers).items[i] {
        assert v.items[i].items == TiersValue(tiers).items[i].items;
      }
      assert v.items == TiersValue(tiers).items;
    }
  }

  /** The torrent is what a decoded file says: announce, an optional list of lists of trackers, and the info value,
      whose digest identifies it. */
  ghost predicate Describes(sha: Bytes -> Digest, root: Dictionary, t: Metadata) {
    && Holds(root, "announce", Str(t.announce))
    && (Ascii("announce-list") in root ==> exists tiers :: root[Ascii("announce-list")] == TiersValue(tiers))
    && exists info :: Holds(root, "info", Dict(info)) && DescribesInfo(info, t) && t.infoHash == sha(Encode(Dict(info)))
  }

  lemma {:induction false} KeysSpelled()
    ensures Ascii("announce") == ANNOUNCE && Ascii("announce-list") == ANNOUNCE_LIST && Ascii("info") == INFO
    ensures Ascii("name") == NAME && Ascii("piece length") == PIECE_LENGTH && Ascii("pieces") == PIECES
    ensures Ascii("length") == LENGTH
  {
  }

  lemma {:induction false} HashesAreSplit(blob: Bytes, hashes: seq<Digest>)
    ensures HashesOf(blob, hashes) <==> |blob| % 20 == 0 && hashes == SplitPieces(blob)
  {
    if |blob| % 20 == 0 {
      var split := SplitPieces(blob);
      forall i | 0 <= i < |split| ensures split[i] == blob[20 * i..20 * i + 20] { SplitPiecesAt(blob, i); }
    }
  }

  lemma {:induction false} InfoIsRead(sha: Bytes -> Digest, info: Dictionary, announce: Bytes, t: Metadata)
    ensures ParseInfo(sha, info, announce) == Ok(t) <==>
      DescribesInfo(info, t) && t.announce == announce && t.infoHash == sha(Encode(Dict(info)))
  {
    hide SplitPieces, Encode, HashesOf;
    KeysSpelled();
    if HasString(info, PIECES) {
      HashesAreSplit(info[PIECES].s, t.hashes);
      assert Holds(info, "pieces", Str(info[PIECES].s));
    }
  }

  /** A decoded root dictionary is accepted for exactly the torrent it describes. */
  lemma {:induction false} RootIsRead(sha: Bytes -> Digest, root: Dictionary, infoBytes: Bytes, t: Metadata)
    requires t.pieceLength <= MAX_INT64 && t.totalLength <= MAX_INT64
    ensures ParseRoot(sha, root, infoBytes) == Ok(t) <==>
      Describes(sha, root, t) && LengthsFit(t) && PlainName(t.name) && sha(infoBytes) == t.infoHash
  {
    hide ParseInfo, Encode, DescribesInfo, LengthsAgree, LengthsFit, IsAnnounceList;
    KeysSpelled();
    LengthsAgreeExactly(t);
    if ANNOUNCE_LIST in root { TiersAreLists(root[ANNOUNCE_LIST]); }
    if INFO in root && root[INFO].Dict? && HasString(root, ANNOUNCE) {
      InfoIsRead(sha, root[INFO].entries, root[ANNOUNCE].s, t);
      assert Holds(root, "info", Dict(root[INFO].entries));
    }
  }

  /** What decoding the whole file has to do with decoding its top-level dictionary. */
  lemma {:induction false} RootIsDecoded(data: Bytes)
    ensures data != [] && data[0] == DICT ==>
      ParseStrict(data) == match ParseDict(data, 0)
        case Err(e) => Err(e)
        case Ok(p) => if p.size < |data| then Err(TrailingData) else Ok(Dict(MapOf(p.value)))
    ensures ParseStrict(data).Ok? && ParseStrict(data).value.Dict? ==> data != [] && data[0] == DICT
    ensures data == [] ==> ParseStrict(data) == Err(UnexpectedEOF)
  {
    hide ParseDict, ParseItems, MapOf;
  }

  /** A file is taken for a torrent exactly when it decodes, with nothing after it, to a dictionary that describes that
      torrent, the lengths fit, the name is plain, and the info value's own bytes have the digest of its re-encoding. */
  lemma {:induction false} AcceptedExactly(sha: Bytes -> Digest, data: Bytes, t: Metadata)
    ensures ParseTorrent(sha, data) == Ok(t) <==>
      var decoded := ParseStrict(data);
      && decoded.Ok? && decoded.value.Dict? && Describes(sha, decoded.value.entries, t)
      && LengthsFit(t) && PlainName(t.name)
      && data != [] && ParseDict(data, 0).Ok? && sha(InfoBytes(data, ParseDict(data, 0).value.value)) == t.infoHash
  {
    hide ParseDict, ParseStrict, MapOf, InfoBytes, ParseRoot, Describes, LengthsFit, PlainName;
    RootIsDecoded(data);
    if data != [] && data[0] == DICT && ParseDict(data, 0).Ok? {
      var entries := ParseDict(data, 0).value.value;
      DescribedIntegersFit(sha, data, entries, t);
      if t.pieceLength <= MAX_INT64 && t.totalLength <= MAX_INT64 {
        RootIsRead(sha, MapOf(entries), InfoBytes(data, entries), t);
      }
    }
  }

  /** The file says that of the torrent. */
  ghost predicate FileSays(sha: Bytes -> Digest, data: Bytes, t: Metadata) {
    && ParseStrict(data).Ok? && ParseStrict(data).value.Dict?
    && Describes(sha, ParseStrict(data).value.entries, t) && LengthsFit(t) && PlainName(t.name)
  }

  lemma {:induction false} AcceptedIsDescribed(sha: Bytes -> Digest, data: Bytes)
    ensures ParseTorrent(sha, data).Ok? ==> FileSays(sha, data, ParseTorrent(sha, data).value)
  {
    hide ParseTorrent, ParseStrict, ParseDict, Describes, LengthsFit, PlainName;
    if ParseTorrent(sha, data).Ok? { AcceptedExactly(sha, data, ParseTorrent(sha, data).value); }
  }

  lemma {:induction false} DescribedIntegersFit(sha: Bytes -> Digest, data: Bytes, entries: seq<Entry>, t: Metadata)
    requires data != [] && data[0] == DICT && ParseDict(data, 0).Ok? && ParseDict(data, 0).value.value == entries
    ensures Describes(sha, MapOf(entries), t) ==> t.pieceLength <= MAX_INT64 && t.totalLength <= MAX_INT64
    ensures (exists b :: ParseRoot(sha, MapOf(entries), b) == Ok(t)) ==>
      t.pieceLength <= MAX_INT64 && t.totalLength <= MAX_INT64
  {
    hide ParseDict, Encode, MapOf, SplitPieces, Validate, IsAnnounceList;
    KeysSpelled();
    if INFO in MapOf(entries) && MapOf(entries)[INFO].Dict? { DecodedIntegersFit(data, entries); }
  }

  predicate HoldsString(d: Dictionary, key: string)
    requires forall i :: 0 <= i < |key| ==> key[i] as int < 128
  {
    Ascii(key) in d && d[Ascii(key)].Str?
  }

  predicate HoldsInt(d: Dictionary, key: string)
    requires forall i :: 0 <= i < |key| ==> key[i] as int < 128
  {
    Ascii(key) in d && d[Ascii(key)].Int?
  }

  /** What an error says about the decoded root dictionary and the bytes its info value was read from. */
  ghost predicate WrongWith(sha: Bytes -> Digest, e: ParseError, root: Dictionary, infoBytes: Bytes) {
    var info := if Ascii("info") in root && root[Ascii("info")].Dict? then root[Ascii("info")].entries else map[];
    match e
    case Malformed(_) => false
    case MissingAnnounce => !HoldsString(root, "announce")
    case BadAnnounceList =>
      Ascii("announce-list") in root && forall tiers :: root[Ascii("announce-list")] != TiersValue(tiers)
    case MissingInfo => Ascii("info") !in root || !root[Ascii("info")].Dict?
    case MissingField =>
      || !HoldsString(info, "name") || !HoldsInt(info, "piece length") || !HoldsString(info, "pieces")
      || !HoldsInt(info, "length")
    case BadPieces => HoldsString(info, "pieces") && |info[Ascii("pieces")].s| % 20 != 0
    case InfoHashMismatch => Holds(root, "info", Dict(info)) && sha(infoBytes) != sha(Encode(Dict(info)))
    case BadLengths => forall t :: DescribesInfo(info, t) ==> !LengthsFit(t)
    case BadName => HoldsString(info, "name") && !PlainName(info[Ascii("name")].s)
  }

  lemma {:induction false} LengthsAreBad(sha: Bytes -> Digest, info: Dictionary, announce: Bytes, t: Metadata)
    requires ParseInfo(sha, info, announce) == Ok(t) && t.pieceLength <= MAX_INT64 && t.totalLength <= MAX_INT64
    requires !LengthsAgree(t)
    ensures forall u :: DescribesInfo(info, u) ==> !LengthsFit(u)
  {
    hide ParseInfo, DescribesInfo, Encode, LengthsAgree;
    LengthsAgreeExactly(t);
    forall u | DescribesInfo(info, u) ensures !LengthsFit(u) {
      var same := u.(announce := announce, infoHash := sha(Encode(Dict(info))));
      DescribesTheSame(info, u, same);
      InfoIsRead(sha, info, announce, same);
    }
  }

  lemma {:induction false} DescribesTheSame(info: Dictionary, t: Metadata, u: Metadata)
    requires DescribesInfo(info, t) && u == t.(announce := u.announce, infoHash := u.infoHash)
    ensures DescribesInfo(info, u)
  {
  }

  /** And an error says what is wrong. */
  lemma {:induction false} RejectedForAReason(sha: Bytes -> Digest, data: Bytes)
    requires ParseTorrent(sha, data).Err?
    ensures var e, decoded := ParseTorrent(sha, data).error, ParseStrict(data);
      if e.Malformed? then
        if data == [] || data[0] == 'd' as int then decoded == Err(e.error) else e.error == InvalidTypeMarker
      else
        && decoded.Ok? && decoded.value.Dict? && data != [] && ParseDict(data, 0).Ok?
        && WrongWith(sha, e, decoded.value.entries, InfoBytes(data, ParseDict(data, 0).value.value))
  {
    hide ParseDict, ParseStrict, MapOf, InfoBytes, ParseRoot, WrongWith;
    RootIsDecoded(data);
    if data != [] && data[0] == DICT && ParseDict(data, 0).Ok? {
      var entries := ParseDict(data, 0).value.value;
      RootIsRejected(sha, data, entries, InfoBytes(data, entries));
    }
  }

  lemma {:induction false} RootIsRejected(sha: Bytes -> Digest, data: Bytes, entries: seq<Entry>, infoBytes: Bytes)
    requires data != [] && data[0] == DICT && ParseDict(data, 0).Ok? && ParseDict(data, 0).value.value == entries
    ensures ParseRoot(sha, MapOf(entries), infoBytes).Err? ==>
      !ParseRoot(sha, MapOf(entries), infoBytes).error.Malformed? &&
      WrongWith(sha, ParseRoot(sha, MapOf(entries), infoBytes).error, MapOf(entries), infoBytes)
  {
    hide ParseDict, MapOf, SplitPieces, Encode, LengthsAgree, LengthsFit, DescribesInfo, IsAnnounceList;
    KeysSpelled();
    var root := MapOf(entries);
    if ANNOUNCE_LIST in root { TiersAreLists(root[ANNOUNCE_LIST]); }
    if ParseRoot(sha, root, infoBytes) == Err(BadLengths) {
      var info, announce := root[INFO].entries, root[ANNOUNCE].s;
      DecodedIntegersFit(data, entries);
      LengthsAreBad(sha, info, announce, ParseInfo(sha, info, announce).value);
    }
  }

  // ----- parsing -----

  method ParsePieces(blob: Bytes) returns (hashes: seq<Digest>)
    requires |blob| % DIGEST_SIZE == 0
    ensures hashes == SplitPieces(blob)
  {
    hashes := [];
    var i := 0;
    while i < |blob|
      invariant i <= |blob| && i % DIGEST_SIZE == 0
      invariant hashes == SplitPieces(blob[..i])
    {
      OneMoreHash(blob, i);
      hashes := hashes + [blob[i..i + DIGEST_SIZE]];
      i := i + DIGEST_SIZE;
    }
    assert blob[..|blob|] == blob;
  }

  /** The digest of the canonical re-encoding. */
  method ComputeInfoHash(sha: Bytes -> Digest, info: Dictionary) returns (hash: Digest)
    ensures hash == sha(Encode(Dict(info)))
  {
    hide Encode;
    var buf := new Buffer();
    buf.EncodeValue(Dict(info));
    assert buf.out == Encode(Dict(info));
    hash := sha(buf.out);
  }

  method ParseInfoDictionary(sha: Bytes -> Digest, info: Dictionary, announce: Bytes)
    returns (r: Result<Metadata, ParseError>)
    ensures r == ParseInfo(sha, info, announce)
    ensures r.Ok? ==>
      DescribesInfo(info, r.value) && r.value.announce == announce && r.value.infoHash == sha(Encode(Dict(info)))
  {
    hide Encode, SplitPieces, DescribesInfo;
    var hash := ComputeInfoHash(sha, info);
    if !HasString(info, NAME) { return Err(MissingField); }
    if !HasInt(info, PIECE_LENGTH) { return Err(MissingField); }
    if !HasString(info, PIECES) { return Err(MissingField); }
    if |info[PIECES].s| % DIGEST_SIZE != 0 { return Err(BadPieces); }
    var hashes := ParsePieces(info[PIECES].s);
    if !HasInt(info, LENGTH) { return Err(MissingField); }
    r := Ok(Metadata(announce, hash, info[NAME].s, info[PIECE_LENGTH].n, info[LENGTH].n, hashes));
    InfoIsRead(sha, info, announce, r.value);
  }

  /** The digest of the bytes the info value was read from must be the one already computed. */
  method CrossCheckInfoHash(sha: Bytes -> Digest, data: Bytes, span: Span, hash: Digest) returns (ok: bool)
    requires span.start <= span.end <= |data|
    ensures ok == (sha(data[span.start..span.end]) == hash)
  {
    ok := sha(data[span.start..span.end]) == hash;
  }

  lemma {:induction false} SpanIsRecorded(data: Bytes, entries: seq<Entry>)
    requires data != [] && data[0] == DICT && ParseDict(data, 0).Ok? && ParseDict(data, 0).value.value == entries
    requires INFO in MapOf(entries)
    ensures INFO in SpansOf(entries, 1)
    ensures var span := SpansOf(entries, 1)[INFO];
      span.start <= span.end <= |data| && InfoBytes(data, entries) == data[span.start..span.end]
  {
    hide ParseEntries, MapOf, SpansOf, SpanOf, ParseStrict;
    var i := IndexOfKey(data, entries, INFO);
    EntriesAscend(data[1..], 1, None);
    SpansAreRecorded(entries, 1);
    SpansDecodeAlone(data, i);
    assert Keys(entries)[i] == INFO;
  }

  /** The whole of a .torrent file. */
  method Parse(sha: Bytes -> Digest, data: Bytes) returns (r: Result<Metadata, ParseError>)
    ensures r == ParseTorrent(sha, data)
    ensures r.Ok? ==> FileSays(sha, data, r.value)
  {
    hide ParseDict, MapOf, SpansOf, ParseInfo, InfoBytes, Validate, FileSays, DescribesInfo, IsAnnounceList;
    AcceptedIsDescribed(sha, data);
    var d := new Decoder(data);
    assert d.Rest() == data;
    var decoded := d.DecodeWithSpans();
    if decoded.Err? { return Err(Malformed(decoded.error)); }
    ghost var entries := ParseDict(data, 0).value.value;
    var end := d.AtEnd();
    if !end { return Err(Malformed(TrailingData)); }
    var (root, spans) := decoded.value;
    if !HasString(root, ANNOUNCE) { return Err(MissingAnnounce); }
    if ANNOUNCE_LIST in root && !IsAnnounceList(root[ANNOUNCE_LIST]) { return Err(BadAnnounceList); }
    if INFO !in root { return Err(MissingInfo); }
    if !root[INFO].Dict? { return Err(MissingInfo); }
    r := ParseInfoDictionary(sha, root[INFO].entries, root[ANNOUNCE].s);
    if r.Err? { return; }
    SpanIsRecorded(data, entries);
    var ok := CrossCheckInfoHash(sha, data, spans[INFO], r.value.infoHash);
    if !ok { return Err(InfoHashMismatch); }
    var invalid := Validate(r.value);
    if invalid.Some? { return Err(invalid.value); }
  }
}
