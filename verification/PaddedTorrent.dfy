/** Every single-file torrent, written as a .torrent file byte by byte, in order and within the format's limits; the one
    freedom is how the length prefix of the name is written. */
module PaddedTorrent {
  import opened Base
  import opened Bencode
  import opened BencodeLaws
  import opened Decimal
  import opened Metainfo
  import opened Spans

  /** What a file is to say. The list of trackers, when there is one, may be any value at all. */
  datatype Contents = Contents(
    announce: Bytes, announceList: Option<Value>, name: Bytes, length: int, pieceLength: int, hashes: seq<Digest>)

  function Joined(hashes: seq<Digest>): Bytes {
    if hashes == [] then [] else hashes[0] + Joined(hashes[1..])
  }

  /** Within the limits on strings, integers and nesting. */
  ghost predicate Writable(c: Contents) {
    && |c.announce| <= MAX_STRING_LENGTH && |c.name| <= MAX_STRING_LENGTH && |Joined(c.hashes)| <= MAX_STRING_LENGTH
    && FitsInt64(c.length) && FitsInt64(c.pieceLength)
    && (c.announceList.Some? ==> Encodable(c.announceList.value, MAX_NESTING_DEPTH - 1))
  }

  predicate Writes(digits: Bytes, n: nat) { digits != [] && AllDigits(digits) && Number(digits) == n }

  /** The name, its length written with the given digits. */
  function Named(c: Contents, digits: Bytes): Bytes { digits + [COLON] + c.name }

  function InfoValue(c: Contents, digits: Bytes): Bytes {
    Ascii("d") + (Ascii("6:length") + EncodeInt(c.length) +
      (Ascii("4:name") + Named(c, digits) +
        (Ascii("12:piece length") + EncodeInt(c.pieceLength) +
          (Ascii("6:pieces") + EncodeString(Joined(c.hashes)) + Ascii("e")))))
  }

  ghost function File(c: Contents, digits: Bytes): Bytes {
    Ascii("d") + (Ascii("8:announce") + EncodeString(c.announce) + AfterAnnounce(c, digits))
  }

  ghost function AfterAnnounce(c: Contents, digits: Bytes): Bytes {
    var last := Ascii("4:info") + InfoValue(c, digits) + Ascii("e");
    if c.announceList.None? then last else Ascii("13:announce-list") + Encode(c.announceList.value) + last
  }

  function Fields(c: Contents): Dictionary {
    map[LENGTH := Int(c.length), NAME := Str(c.name), PIECE_LENGTH := Int(c.pieceLength),
        PIECES := Str(Joined(c.hashes))]
  }

  // ----- the keys -----

  lemma {:induction false} KeysInOrder()
    ensures Less(LENGTH, NAME) && Less(NAME, PIECE_LENGTH) && Less(PIECE_LENGTH, PIECES)
    ensures Less(ANNOUNCE, ANNOUNCE_LIST) && Less(ANNOUNCE_LIST, INFO) && Less(ANNOUNCE, INFO)
  {
    hide Less;
    LessMeans(LENGTH, NAME);
    assert LENGTH[..0] == NAME[..0] && LENGTH[0] < NAME[0];
    LessMeans(NAME, PIECE_LENGTH);
    assert NAME[..0] == PIECE_LENGTH[..0] && NAME[0] < PIECE_LENGTH[0];
    LessMeans(PIECE_LENGTH, PIECES);
    assert PIECE_LENGTH[..5] == PIECES[..5] && PIECE_LENGTH[5] < PIECES[5];
    LessMeans(ANNOUNCE, ANNOUNCE_LIST);
    LessMeans(ANNOUNCE_LIST, INFO);
    assert ANNOUNCE_LIST[..0] == INFO[..0] && ANNOUNCE_LIST[0] < INFO[0];
    LessMeans(ANNOUNCE, INFO);
    assert ANNOUNCE[..0] == INFO[..0] && ANNOUNCE[0] < INFO[0];
  }

  lemma {:induction false} LengthsWritten()
    ensures Print(4) == [52] && Print(6) == [54] && Print(8) == [56] && Print(12) == [49, 50] && Print(13) == [49, 51]
  {
    assert Print(1) == [49];
  }

  lemma {:induction false} InfoKeysWritten()
    ensures Ascii("6:length") == EncodeString(LENGTH) && Ascii("4:name") == EncodeString(NAME)
    ensures Ascii("12:piece length") == EncodeString(PIECE_LENGTH) && Ascii("6:pieces") == EncodeString(PIECES)
  {
    hide Print;
    LengthsWritten();
  }

  lemma {:induction false} RootKeysWritten()
    ensures Ascii("8:announce") == EncodeString(ANNOUNCE) && Ascii("4:info") == EncodeString(INFO)
    ensures Ascii("13:announce-list") == EncodeString(ANNOUNCE_LIST)
  {
    hide Print;
    LengthsWritten();
  }

  lemma {:induction false} KeysWritten()
    ensures Ascii("6:length") == EncodeString(LENGTH) && Ascii("4:name") == EncodeString(NAME)
    ensures Ascii("12:piece length") == EncodeString(PIECE_LENGTH) && Ascii("6:pieces") == EncodeString(PIECES)
    ensures Ascii("8:announce") == EncodeString(ANNOUNCE) && Ascii("4:info") == EncodeString(INFO)
    ensures Ascii("13:announce-list") == EncodeString(ANNOUNCE_LIST)
    ensures Ascii("d") == [DICT] && Ascii("e") == [END]
  {
    hide EncodeString;
    InfoKeysWritten();
    RootKeysWritten();
  }

  // ----- the info value -----

  lemma {:induction false} IntParses(n: int, rest: Bytes, depth: nat)
    requires FitsInt64(n)
    ensures ParseValue(EncodeInt(n) + rest, depth) == Ok(Parsed(Int(n), |EncodeInt(n)|, 0))
  {
    hide ParseInteger, EncodeInt;
    PrintThenParseInteger(n, rest);
    IntegerMarker(n, rest);
  }

  lemma {:induction false} NameParses(c: Contents, digits: Bytes, rest: Bytes, depth: nat)
    requires Writable(c) && Writes(digits, |c.name|)
    ensures |Print(|c.name|)| <= |digits|
    ensures ParseValue(Named(c, digits) + rest, depth) ==
      Ok(Parsed(Str(c.name), |Named(c, digits)|, |digits| - |Print(|c.name|)|))
  {
    hide Number, Print;
    ReadThenPrint(digits);
    var s := Named(c, digits) + rest;
    assert s == digits + [COLON] + (c.name + rest);
    IndexAfter(digits, COLON, c.name + rest);
    assert s[..|digits|] == digits;
    assert s[|digits| + 1..|digits| + 1 + |c.name|] == c.name;
  }

  /** How many leading zeros the name's length prefix has to spare. */
  function Spare(c: Contents, digits: Bytes): int { |digits| - |Print(|c.name|)| }

  function Item(key: Bytes, v: Value, size: nat): Entry { Entry(key, v, |EncodeString(key)|, size) }

  function InfoEntries(c: Contents, digits: Bytes): seq<Entry> {
    [Item(LENGTH, Int(c.length), |EncodeInt(c.length)|)] + ([Item(NAME, Str(c.name), |Named(c, digits)|)] +
      ([Item(PIECE_LENGTH, Int(c.pieceLength), |EncodeInt(c.pieceLength)|)] +
        ([Item(PIECES, Str(Joined(c.hashes)), |EncodeString(Joined(c.hashes))|)] + [])))
  }

  lemma {:induction false} InfoEntriesParse(c: Contents, digits: Bytes, depth: nat)
    requires Writable(c) && Writes(digits, |c.name|)
    ensures Spare(c, digits) >= 0
    ensures ParseEntries(InfoValue(c, digits)[1..], depth, None) ==
      Ok(Parsed(InfoEntries(c, digits), |InfoValue(c, digits)| - 1, Spare(c, digits)))
  {
    hide ParseValue, ParseEntries, EncodeString, EncodeInt, Named, Less, Writes, Joined, Print, Ascii;
    var blob := Joined(c.hashes);
    KeysWritten();
    KeysInOrder();
    EndOfEntries([END], depth, Some(PIECES));
    KeyParses(blob, [END], depth);
    OneEntryParses(PIECES, EncodeString(blob), Str(blob), 0, [END], depth, Some(PIECE_LENGTH));
    var last := EncodeString(PIECES) + EncodeString(blob) + [END];
    IntParses(c.pieceLength, last, depth);
    OneEntryParses(PIECE_LENGTH, EncodeInt(c.pieceLength), Int(c.pieceLength), 0, last, depth, Some(NAME));
    var more := EncodeString(PIECE_LENGTH) + EncodeInt(c.pieceLength) + last;
    NameParses(c, digits, more, depth);
    OneEntryParses(NAME, Named(c, digits), Str(c.name), Spare(c, digits), more, depth, Some(LENGTH));
    var most := EncodeString(NAME) + Named(c, digits) + more;
    IntParses(c.length, most, depth);
    OneEntryParses(LENGTH, EncodeInt(c.length), Int(c.length), 0, most, depth, None);
    assert InfoValue(c, digits)[1..] == EncodeString(LENGTH) + EncodeInt(c.length) + most;
  }

  lemma {:induction false} EndOfEntries(s: Bytes, depth: nat, previous: Option<Bytes>)
    requires s != [] && s[0] == END
    ensures ParseEntries(s, depth, previous) == Ok(Parsed([], 1, 0))
  {
  }

  lemma {:induction false} InfoFields(c: Contents, digits: Bytes)
    ensures MapOf(InfoEntries(c, digits)) == Fields(c)
  {
    hide MapOf, EncodeString, EncodeInt, Named, Joined;
    MapOfEntries(InfoEntries(c, digits), [LENGTH, NAME, PIECE_LENGTH, PIECES], Fields(c));
  }

  /** At any depth and whatever follows; all its leading zeros are to spare. */
  lemma {:induction false} InfoParses(c: Contents, digits: Bytes, rest: Bytes, depth: nat)
    requires Writable(c) && Writes(digits, |c.name|) && depth <= 1
    ensures Spare(c, digits) >= 0
    ensures ParseValue(InfoValue(c, digits) + rest, depth) ==
      Ok(Parsed(Dict(Fields(c)), |InfoValue(c, digits)|, Spare(c, digits)))
  {
    hide ParseValue, ParseEntries, Writable, Writes, MapOf, Fields, InfoEntries, Spare, InfoValue;
    var s := InfoValue(c, digits);
    InfoEntriesParse(c, digits, 2);
    InfoFields(c, digits);
    StartsDictionary(c, digits);
    DictParses(s[1..], 1);
    assert s == [DICT] + s[1..] && s[..|s|] == s && s <= s + rest;
    DecodingIsLocal(s, s + rest, 1, depth);
  }

  lemma {:induction false} StartsDictionary(c: Contents, digits: Bytes)
    ensures InfoValue(c, digits) != [] && InfoValue(c, digits)[0] == DICT
  {
  }

  // ----- the file -----

  ghost function RootEntries(c: Contents, digits: Bytes): seq<Entry> {
    var last := [Item(INFO, Dict(Fields(c)), |InfoValue(c, digits)|)] + [];
    [Item(ANNOUNCE, Str(c.announce), |EncodeString(c.announce)|)] +
      if c.announceList.None? then last
      else [Item(ANNOUNCE_LIST, c.announceList.value, |Encode(c.announceList.value)|)] + last
  }

  ghost function Root(c: Contents): Dictionary {
    var root := map[ANNOUNCE := Str(c.announce), INFO := Dict(Fields(c))];
    if c.announceList.None? then root else root[ANNOUNCE_LIST := c.announceList.value]
  }

  lemma {:induction false} AfterAnnounceParses(c: Contents, digits: Bytes)
    requires Writable(c) && Writes(digits, |c.name|)
    ensures Spare(c, digits) >= 0
    ensures ParseEntries(AfterAnnounce(c, digits), 1, Some(ANNOUNCE)) ==
      Ok(Parsed(RootEntries(c, digits)[1..], |AfterAnnounce(c, digits)|, Spare(c, digits)))
  {
    hide ParseValue, ParseEntries, EncodeString, Encode, Less, Writes, InfoValue, Fields, Spare, Encodable, Ascii;
    KeysInOrder();
    KeysWritten();
    EndOfEntries([END], 1, Some(INFO));
    InfoParses(c, digits, [END], 1);
    var previous := if c.announceList.None? then ANNOUNCE else ANNOUNCE_LIST;
    OneEntryParses(INFO, InfoValue(c, digits), Dict(Fields(c)), Spare(c, digits), [END], 1, Some(previous));
    var last := EncodeString(INFO) + InfoValue(c, digits) + [END];
    if c.announceList.Some? {
      var v := c.announceList.value;
      PrintThenParse(v, last, 1);
      OneEntryParses(ANNOUNCE_LIST, Encode(v), v, 0, last, 1, Some(ANNOUNCE));
    }
  }

  lemma {:induction false} FileParses(c: Contents, digits: Bytes)
    requires Writable(c) && Writes(digits, |c.name|)
    ensures Spare(c, digits) >= 0 && File(c, digits) != [] && File(c, digits)[0] == DICT
    ensures ParseDict(File(c, digits), 0) == Ok(Parsed(RootEntries(c, digits), |File(c, digits)|, Spare(c, digits)))
  {
    hide ParseValue, ParseEntries, EncodeString, Less, Writes, AfterAnnounce, Spare, Ascii;
    KeysWritten();
    AfterAnnounceParses(c, digits);
    var last := AfterAnnounce(c, digits);
    KeyParses(c.announce, last, 1);
    OneEntryParses(ANNOUNCE, EncodeString(c.announce), Str(c.announce), 0, last, 1, None);
    assert File(c, digits)[1..] == EncodeString(ANNOUNCE) + EncodeString(c.announce) + last;
    FirstIsAnnounce(c, digits);
  }

  lemma {:induction false} FirstIsAnnounce(c: Contents, digits: Bytes)
    ensures RootEntries(c, digits) ==
      [Item(ANNOUNCE, Str(c.announce), |EncodeString(c.announce)|)] + RootEntries(c, digits)[1..]
  {
    hide EncodeString, Encode, InfoValue, Fields;
  }

  lemma {:induction false} RootIsMapped(c: Contents, digits: Bytes)
    ensures MapOf(RootEntries(c, digits)) == Root(c)
  {
    hide EncodeString, Encode, InfoValue, Fields, MapOf;
    assert ANNOUNCE_LIST != ANNOUNCE && ANNOUNCE_LIST != INFO && ANNOUNCE != INFO;
    var keys := [ANNOUNCE] + if c.announceList.None? then [INFO] else [ANNOUNCE_LIST, INFO];
    MapOfEntries(RootEntries(c, digits), keys, Root(c));
  }

  /** The file up to its info value. */
  ghost function BeforeInfo(c: Contents): Bytes {
    Ascii("d") + Ascii("8:announce") + EncodeString(c.announce) +
      (if c.announceList.None? then [] else Ascii("13:announce-list") + Encode(c.announceList.value)) + Ascii("4:info")
  }

  lemma {:induction false} FileAround(c: Contents, digits: Bytes)
    ensures File(c, digits) == BeforeInfo(c) + InfoValue(c, digits) + Ascii("e")
  {
    hide EncodeString, Encode, InfoValue, Ascii;
  }

  lemma {:induction false} InfoStartsAfter(c: Contents)
    ensures |BeforeInfo(c)| == 1 + |EncodeString(ANNOUNCE)| + |EncodeString(c.announce)| +
      (if c.announceList.None? then 0 else |EncodeString(ANNOUNCE_LIST)| + |Encode(c.announceList.value)|) +
      |EncodeString(INFO)|
  {
    hide EncodeString, Encode, Ascii;
    KeysWritten();
  }

  lemma {:induction false} InfoIsFound(c: Contents, digits: Bytes)
    ensures InfoBytes(File(c, digits), RootEntries(c, digits)) == InfoValue(c, digits)
  {
    hide EncodeString, Encode, InfoValue, File, BeforeInfo, RootEntries, SpansOf, Ascii, SpanOf;
    FileAround(c, digits);
    InfoStartsAfter(c);
    InfoStandsThere(c, digits);
    LastSpan(RootEntries(c, digits));
    var start := |BeforeInfo(c)|;
    assert File(c, digits)[start..start + |InfoValue(c, digits)|] == InfoValue(c, digits);
  }

  lemma {:induction false} InfoStandsThere(c: Contents, digits: Bytes)
    ensures RootEntries(c, digits) != []
    ensures var n, list := |RootEntries(c, digits)| - 1,
          if c.announceList.None? then 0 else |EncodeString(ANNOUNCE_LIST)| + |Encode(c.announceList.value)|;
      var start := 1 + |EncodeString(ANNOUNCE)| + |EncodeString(c.announce)| + list + |EncodeString(INFO)|;
      RootEntries(c, digits)[n].key == INFO &&
      SpanOf(RootEntries(c, digits), 1, n) == Span(start, start + |InfoValue(c, digits)|)
  {
    hide EncodeString, Encode, InfoValue, Fields;
    assert Offset(RootEntries(c, digits), 1) == |EncodeString(ANNOUNCE)| + |EncodeString(c.announce)|;
  }

  lemma {:induction false} LastSpan(entries: seq<Entry>)
    requires entries != []
    ensures var n := |entries| - 1;
      entries[n].key in SpansOf(entries, 1) && SpansOf(entries, 1)[entries[n].key] == SpanOf(entries, 1, n)
  {
  }

  /** Written the canonical way or not, the info value encodes the same. */
  lemma {:induction false} CanonicalInfo(c: Contents)
    requires Writable(c)
    ensures Encode(Dict(Fields(c))) == InfoValue(c, Print(|c.name|)) && Writes(Print(|c.name|), |c.name|)
  {
    hide ParseValue, InfoValue, Fields, Encode, Writable;
    var digits := Print(|c.name|);
    PrintedIsCanonical(|c.name|);
    InfoParses(c, digits, [], 0);
    var s := InfoValue(c, digits);
    assert s + [] == s && s[..|s|] == s;
    ParseThenPrint(s, 0);
  }

  // ----- what it is taken for -----

  /** The torrent that the file describes. */
  function Described(sha: Bytes -> Digest, c: Contents): Metadata {
    Metadata(c.announce, sha(InfoValue(c, Print(|c.name|))), c.name, c.pieceLength, c.length, c.hashes)
  }

  lemma {:induction false} HashesAreJoined(hashes: seq<Digest>)
    ensures HashesOf(Joined(hashes), hashes)
  {
    if hashes != [] {
      var first, rest := hashes[0], hashes[1..];
      HashesAreJoined(rest);
      var blob := Joined(hashes);
      forall i | 0 <= i < |hashes| ensures hashes[i] == blob[20 * i..20 * i + 20] {
        if i == 0 {
          assert blob[..20] == first;
        } else {
          assert hashes[i] == rest[i - 1] == Joined(rest)[20 * (i - 1)..20 * (i - 1) + 20];
          assert blob[20 * i..20 * i + 20] == Joined(rest)[20 * i - 20..20 * i];
        }
      }
    }
  }

  lemma {:induction false} FieldsAreRead(sha: Bytes -> Digest, c: Contents)
    requires Writable(c)
    ensures ParseInfo(sha, Fields(c), c.announce) == Ok(Described(sha, c))
  {
    hide InfoValue, Encode, ParseInfo, Writable, Joined, HashesOf;
    CanonicalInfo(c);
    HashesAreJoined(c.hashes);
    KeysSpelled();
    assert Holds(Fields(c), "pieces", Str(Joined(c.hashes)));
    InfoIsRead(sha, Fields(c), c.announce, Described(sha, c));
  }

  lemma {:induction false} OneWayToWriteIt(c: Contents, digits: Bytes)
    requires Writes(digits, |c.name|)
    ensures InfoValue(c, digits) == InfoValue(c, Print(|c.name|)) <==> digits == Print(|c.name|)
    ensures Spare(c, digits) == 0 <==> digits == Print(|c.name|)
  {
    hide EncodeString, EncodeInt, Joined, Print, Ascii;
    ReadThenPrint(digits);
    if |digits| != |Print(|c.name|)| {
      assert |InfoValue(c, digits)| == |InfoValue(c, Print(|c.name|))| + |digits| - |Print(|c.name|)|;
    }
  }

  /** Every such file is complete and in order, and it is taken for exactly the torrent it says, unless its list of
      trackers is none, its lengths do not fit, its name is not plain, or the digests of the two ways to write its info
      value differ; and those two ways are the same only when the length prefix has no leading zero. */
  lemma {:induction false} OnlyPaddingDecides(sha: Bytes -> Digest, c: Contents, digits: Bytes)
    requires Writable(c) && Writes(digits, |c.name|)
    ensures ParseTorrent(sha, File(c, digits)) ==
      if c.announceList.Some? && !IsAnnounceList(c.announceList.value) then Err(BadAnnounceList)
      else if sha(InfoValue(c, digits)) != sha(InfoValue(c, Print(|c.name|))) then Err(InfoHashMismatch)
      else if !LengthsFit(Described(sha, c)) then Err(BadLengths)
      else if !PlainName(c.name) then Err(BadName)
      else Ok(Described(sha, c))
    ensures InfoValue(c, digits) == InfoValue(c, Print(|c.name|)) <==> digits == Print(|c.name|)
    ensures InfoSurplus(File(c, digits), RootEntries(c, digits)) == Spare(c, digits)
    ensures Spare(c, digits) == 0 <==> digits == Print(|c.name|)
  {
    hide Writes, File, InfoValue, MapOf, InfoBytes, ParseDict, RootEntries, ParseInfo, Spare, Fields, ParseValue,
         IsAnnounceList, LengthsAgree, LengthsFit;
    FileParses(c, digits);
    RootIsMapped(c, digits);
    InfoIsFound(c, digits);
    FieldsAreRead(sha, c);
    OneWayToWriteIt(c, digits);
    assert ANNOUNCE_LIST != ANNOUNCE && ANNOUNCE_LIST != INFO && ANNOUNCE != INFO;
    LengthsAgreeExactly(Described(sha, c));
    InfoParses(c, digits, [], 0);
    assert InfoValue(c, digits) + [] == InfoValue(c, digits);
  }

  /** So a torrent written the canonical way is read back field by field, with or without tiers of trackers and whatever
      the digest function is. */
  lemma {:induction false} TorrentsAreReadBack(sha: Bytes -> Digest, c: Contents, tiers: seq<seq<Bytes>>)
    requires Writable(c) && (c.announceList == None || c.announceList == Some(TiersValue(tiers)))
    requires LengthsFit(Described(sha, c)) && PlainName(c.name)
    ensures ParseTorrent(sha, File(c, Print(|c.name|))) ==
      Ok(Metadata(c.announce, sha(InfoValue(c, Print(|c.name|))), c.name, c.pieceLength, c.length, c.hashes))
  {
    hide Writable, ParseTorrent, File, InfoValue, IsAnnounceList, LengthsFit, PlainName;
    CanonicalInfo(c);
    if c.announceList.Some? { TiersAreLists(c.announceList.value); }
    OnlyPaddingDecides(sha, c, Print(|c.name|));
  }
}
