/** Bencoded data (the "bencoding" section of BEP 3): what the decoder makes of a stream of bytes, and the one canonical
    way to write a value. */
module Bencode {
  import opened Base
  import opened Decimal

  const MAX_STRING_LENGTH := 0x200_0000
  const MAX_NESTING_DEPTH := 100

  datatype Value =
    | Int(n: int)
    | Str(s: Bytes)
    | List(items: seq<Value>)
    | Dict(entries: map<Bytes, Value>)

  datatype BencodeError =
    | UnexpectedEOF
    | InvalidTypeMarker
    | InvalidInteger
    | InvalidStringLen
    | LimitExceeded
    | NonStringKey
    | UnsortedKeys
    | TrailingData

  const INTEGER: Byte := 105
  const LIST: Byte := 108
  const DICT: Byte := 100
  const END: Byte := 101
  const COLON: Byte := 58

  // ----- keys -----

  /** Byte-wise order of strings. */
  predicate Less(a: Bytes, b: Bytes) {
    b != [] && (a == [] || a[0] < b[0] || (a[0] == b[0] && Less(a[1..], b[1..])))
  }

  lemma {:induction false} LessIsTotal(a: Bytes, b: Bytes)
    ensures Less(a, b) || a == b || Less(b, a)
    ensures !(Less(a, b) && Less(b, a)) && !Less(a, a)
  {
    if a != [] && b != [] {
      LessIsTotal(a[1..], b[1..]);
      if a[0] == b[0] && a[1..] == b[1..] { assert a == [a[0]] + a[1..] && b == [b[0]] + b[1..]; }
    }
    if a != [] { LessIsTotal(a[1..], a[1..]); }
  }

  lemma {:induction false} LessIsTransitive(a: Bytes, b: Bytes, c: Bytes)
    requires Less(a, b) && Less(b, c)
    ensures Less(a, c)
  {
    if a != [] && a[0] == b[0] && b[0] == c[0] { LessIsTransitive(a[1..], b[1..], c[1..]); }
  }

  ghost predicate Ascending(keys: seq<Bytes>) {
    forall i, j :: 0 <= i < j < |keys| ==> Less(keys[i], keys[j])
  }

  // ----- reading -----

  /** A value read off the front of a stream, how many bytes it took, and how many leading zeros its length prefixes had
      to spare. */
  datatype Parsed<T> = Parsed(value: T, size: nat, surplus: nat)

  /** A dictionary entry: its key and value and how many bytes each took. */
  datatype Entry = Entry(key: Bytes, value: Value, keySize: nat, valueSize: nat)

  /** Where a byte first occurs, or the length of s. */
  function IndexOf(s: Bytes, b: Byte): (i: nat)
    ensures i <= |s| && (i < |s| ==> s[i] == b) && forall k :: 0 <= k < i ==> s[k] != b
  {
    if s == [] || s[0] == b then 0 else 1 + IndexOf(s[1..], b)
  }

  /** What strconv.ParseInt makes of a digit string with an optional minus sign, without the 64-bit limit. */
  predicate IsNumeral(s: Bytes) {
    var digits := if s != [] && s[0] == MINUS then s[1..] else s;
    digits != [] && AllDigits(digits)
  }

  function Numeral(s: Bytes): int
    requires IsNumeral(s)
  {
    var n: int := Number(if s[0] == MINUS then s[1..] else s);
    if s[0] == MINUS then -n else n
  }

  /** No empty number, no "-0", no leading zero. */
  predicate ValidIntegerString(s: Bytes) {
    && IsNumeral(s)
    && !(s[0] == MINUS && s[1..] == [ZERO])
    && !Padded(if s[0] == MINUS then s[1..] else s)
  }

  predicate FitsInt64(n: int) { MIN_INT64 <= n <= MAX_INT64 }

  /** Called on a stream that starts with the integer marker. */
  function ParseInteger(s: Bytes): (r: Result<Parsed<Value>, BencodeError>)
    requires s != []
    ensures r.Ok? ==> 1 <= r.value.size <= |s|
  {
    var end := IndexOf(s[1..], END);
    if end == |s| - 1 then Err(UnexpectedEOF)
    else
      var text := s[1..1 + end];
      if !ValidIntegerString(text) || !FitsInt64(Numeral(text)) then Err(InvalidInteger)
      else Ok(Parsed(Int(Numeral(text)), end + 2, 0))
  }

  /** Called on a stream that starts with a digit. */
  function ParseString(s: Bytes): (r: Result<Parsed<Value>, BencodeError>)
    ensures r.Ok? ==> 1 <= r.value.size <= |s| && r.value.value.Str?
  {
    var colon := IndexOf(s, COLON);
    if colon == |s| then Err(UnexpectedEOF)
    else
      var text := s[..colon];
      if text == [] || !AllDigits(text) || Number(text) > MAX_INT64 then Err(InvalidStringLen)
      else
        var length := Number(text);
        if length > MAX_STRING_LENGTH then Err(LimitExceeded)
        else if colon + 1 + length > |s| then Err(UnexpectedEOF)
        else
          ReadThenPrint(text);
          Ok(Parsed(Str(s[colon + 1..colon + 1 + length]), colon + 1 + length, |text| - |Print(length)|))
  }

  /** The next value of a stream, read inside depth lists and dictionaries. */
  function ParseValue(s: Bytes, depth: nat): (r: Result<Parsed<Value>, BencodeError>)
    ensures r.Ok? ==> 1 <= r.value.size <= |s|
    decreases |s|, 2
  {
    if s == [] then Err(UnexpectedEOF)
    else if s[0] == INTEGER then ParseInteger(s)
    else if s[0] == LIST then
      if depth + 1 > MAX_NESTING_DEPTH then Err(LimitExceeded)
      else
        match ParseItems(s[1..], depth + 1)
        case Err(e) => Err(e)
        case Ok(p) => Ok(Parsed(List(p.value), 1 + p.size, p.surplus))
    else if s[0] == DICT then
      match ParseDict(s, depth)
      case Err(e) => Err(e)
      case Ok(p) => Ok(Parsed(Dict(MapOf(p.value)), p.size, p.surplus))
    else if IsDigit(s[0]) then ParseString(s)
    else Err(InvalidTypeMarker)
  }

  /** The values up to the end marker. */
  function ParseItems(s: Bytes, depth: nat): (r: Result<Parsed<seq<Value>>, BencodeError>)
    ensures r.Ok? ==> 1 <= r.value.size <= |s|
    decreases |s|, 3
  {
    if s == [] then Err(UnexpectedEOF)
    else if s[0] == END then Ok(Parsed([], 1, 0))
    else
      match ParseValue(s, depth)
      case Err(e) => Err(e)
      case Ok(first) => ItemsAfter([first.value], first.size, first.surplus, ParseItems(s[first.size..], depth))
  }

  /** The list that starts with some items already read. */
  function ItemsAfter(
    items: seq<Value>, size: nat, surplus: nat, rest: Result<Parsed<seq<Value>>, BencodeError>):
    Result<Parsed<seq<Value>>, BencodeError>
  {
    match rest
    case Err(e) => Err(e)
    case Ok(p) => Ok(Parsed(items + p.value, size + p.size, surplus + p.surplus))
  }

  /** A dictionary, from its marker on. */
  function ParseDict(s: Bytes, depth: nat): (r: Result<Parsed<seq<Entry>>, BencodeError>)
    requires s != []
    ensures r.Ok? ==> 1 <= r.value.size <= |s|
    decreases |s|, 1
  {
    if depth + 1 > MAX_NESTING_DEPTH then Err(LimitExceeded)
    else
      match ParseEntries(s[1..], depth + 1, None)
      case Err(e) => Err(e)
      case Ok(p) => Ok(Parsed(p.value, 1 + p.size, p.surplus))
  }

  /** The entries up to the end marker; each key is a string and comes after the one before it. */
  function ParseEntries(s: Bytes, depth: nat, previous: Option<Bytes>): (r: Result<Parsed<seq<Entry>>, BencodeError>)
    ensures r.Ok? ==> 1 <= r.value.size <= |s|
    decreases |s|, 4
  {
    if s == [] then Err(UnexpectedEOF)
    else if s[0] == END then Ok(Parsed([], 1, 0))
    else
      match ParseEntry(s, depth, previous)
      case Err(e) => Err(e)
      case Ok(first) =>
        EntriesAfter([first.value], first.size, first.surplus,
                     ParseEntries(s[first.size..], depth, Some(first.value.key)))
  }

  function ParseEntry(s: Bytes, depth: nat, previous: Option<Bytes>): (r: Result<Parsed<Entry>, BencodeError>)
    requires s != []
    ensures r.Ok? ==> 1 <= r.value.size <= |s|
    decreases |s|, 3
  {
    match ParseValue(s, depth)
    case Err(e) => Err(e)
    case Ok(key) =>
      if !key.value.Str? then Err(NonStringKey)
      else if previous.Some? && !Less(previous.value, key.value.s) then Err(UnsortedKeys)
      else
        match ParseValue(s[key.size..], depth)
        case Err(e) => Err(e)
        case Ok(value) =>
          Ok(Parsed(Entry(key.value.s, value.value, key.size, value.size), key.size + value.size,
                    key.surplus + value.surplus))
  }

  function EntriesAfter(
    entries: seq<Entry>, size: nat, surplus: nat, rest: Result<Parsed<seq<Entry>>, BencodeError>):
    Result<Parsed<seq<Entry>>, BencodeError>
  {
    match rest
    case Err(e) => Err(e)
    case Ok(p) => Ok(Parsed(entries + p.value, size + p.size, surplus + p.surplus))
  }

  function MapOf(entries: seq<Entry>): map<Bytes, Value> {
    if entries == [] then map[]
    else
      var last := entries[|entries| - 1];
      MapOf(entries[..|entries| - 1])[last.key := last.value]
  }

  /** Exactly one value and nothing after it. */
  function ParseStrict(s: Bytes): Result<Value, BencodeError> {
    match ParseValue(s, 0)
    case Err(e) => Err(e)
    case Ok(p) => if p.size < |s| then Err(TrailingData) else Ok(p.value)
  }

  // ----- writing -----

  function EncodeInt(n: int): Bytes {
    [INTEGER] + (if n < 0 then [MINUS] + Print(-n) else Print(n)) + [END]
  }

  function EncodeString(s: Bytes): Bytes { Print(|s|) + [COLON] + s }

  ghost function Encode(v: Value): Bytes
    decreases v
  {
    match v
    case Int(n) => EncodeInt(n)
    case Str(s) => EncodeString(s)
    case List(items) => [LIST] + EncodeItems(items) + [END]
    case Dict(entries) => [DICT] + EncodeEntries(v, SortedKeys(entries.Keys)) + [END]
  }

  ghost function EncodeItems(items: seq<Value>): Bytes
    decreases items
  {
    if items == [] then [] else Encode(items[0]) + EncodeItems(items[1..])
  }

  ghost function EncodeEntries(d: Value, keys: seq<Bytes>): Bytes
    requires d.Dict? && forall k :: k in keys ==> k in d.entries
    decreases d, |keys|
  {
    if keys == [] then [] else EncodeString(keys[0]) + Encode(d.entries[keys[0]]) + EncodeEntries(d, keys[1..])
  }

  ghost function SortedKeys(keys: set<Bytes>): (sorted: seq<Bytes>)
    ensures forall k :: k in sorted <==> k in keys
  {
    if keys == {} then [] else var least := Least(keys); [least] + SortedKeys(keys - {least})
  }

  ghost function Least(keys: set<Bytes>): (least: Bytes)
    requires keys != {}
    ensures least in keys && forall k :: k in keys ==> k == least || Less(least, k)
  {
    LeastExists(keys);
    var least :| least in keys && forall k :: k in keys ==> k == least || Less(least, k);
    least
  }

  lemma {:induction false} LeastExists(keys: set<Bytes>)
    requires keys != {}
    ensures exists least :: least in keys && forall k :: k in keys ==> k == least || Less(least, k)
  {
    var some :| some in keys;
    var rest := keys - {some};
    if rest == {} {
      assert keys == {some} + rest;
    } else {
      LeastExists(rest);
      var other :| other in rest && forall k :: k in rest ==> k == other || Less(other, k);
      LessIsTotal(some, other);
      var least := if Less(some, other) then some else other;
      forall k | k in keys ensures k == least || Less(least, k) {
        if k != some {
          assert k in rest;
          if least == some && k != other { LessIsTransitive(some, other, k); }
        }
      }
      assert least in keys;
    }
  }
}
