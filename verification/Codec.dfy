/** The bencode decoder and encoder as the source writes them: a decoder that consumes a stream and tracks its position
    and nesting depth, and an encoder that appends to a buffer. */
module Codec {
  import opened Base
  import opened Bencode
  import opened BencodeLaws
  import opened Decimal
  import opened Spans

  lemma {:induction false} ItemsAfterItems(
    items: seq<Value>, size: nat, surplus: nat, more: Value, n: nat, k: nat,
    rest: Result<Parsed<seq<Value>>, BencodeError>)
    ensures ItemsAfter(items, size, surplus, ItemsAfter([more], n, k, rest)) ==
      ItemsAfter(items + [more], size + n, surplus + k, rest)
  {
    if rest.Ok? { assert items + ([more] + rest.value.value) == items + [more] + rest.value.value; }
  }

  lemma {:induction false} EntriesAfterEntries(
    entries: seq<Entry>, size: nat, surplus: nat, more: Entry, n: nat, k: nat,
    rest: Result<Parsed<seq<Entry>>, BencodeError>)
    ensures EntriesAfter(entries, size, surplus, EntriesAfter([more], n, k, rest)) ==
      EntriesAfter(entries + [more], size + n, surplus + k, rest)
  {
    if rest.Ok? { assert entries + ([more] + rest.value.value) == entries + [more] + rest.value.value; }
  }

  lemma {:induction false} NothingAfter(
    r: Result<Parsed<seq<Value>>, BencodeError>, q: Result<Parsed<seq<Entry>>, BencodeError>)
    ensures ItemsAfter([], 0, 0, r) == r && EntriesAfter([], 0, 0, q) == q
  {
    if r.Ok? { assert [] + r.value.value == r.value.value; }
    if q.Ok? { assert [] + q.value.value == q.value.value; }
  }

  /** What is left to read decides the list: it ends with an error, with the end marker, or goes on after one item. */
  lemma {:induction false} ItemsStep(s: Bytes, depth: nat, items: seq<Value>, taken: nat, spare: nat)
    ensures ItemsAfter(items, taken, spare, ParseItems(s, depth)) ==
      if s == [] then Err(UnexpectedEOF)
      else if s[0] == END then Ok(Parsed(items, taken + 1, spare))
      else
        match ParseValue(s, depth)
        case Err(e) => Err(e)
        case Ok(v) =>
          ItemsAfter(items + [v.value], taken + v.size, spare + v.surplus, ParseItems(s[v.size..], depth))
  {
    hide ParseValue;
    assert items + [] == items;
    if s != [] && s[0] != END && ParseValue(s, depth).Ok? {
      var v := ParseValue(s, depth).value;
      ItemsAfterItems(items, taken, spare, v.value, v.size, v.surplus, ParseItems(s[v.size..], depth));
    }
  }

  /** The source's check of an integer's digits. */
  method ValidateIntegerString(s: Bytes) returns (ok: bool)
    ensures ok == ValidIntegerString(s)
  {
    if s == [] { return false; }
    var neg := s[0] == MINUS;
    var digits := if neg then s[1..] else s;
    if digits == [] { return false; }
    if neg && digits == [ZERO] { return false; }
    if |digits| > 1 && digits[0] == ZERO { return false; }
    for i := 0 to |digits|
      invariant AllDigits(digits[..i])
    {
      if !IsDigit(digits[i]) { return false; }
      assert digits[..i + 1] == digits[..i] + [digits[i]];
    }
    assert digits[..|digits|] == digits;
    ok := true;
  }

  class Decoder {
    const data: Bytes
    var depth: nat
    var pos: nat

    ghost predicate Valid()
      reads this
    {
      pos <= |data|
    }

    ghost function Rest(): Bytes
      requires Valid()
      reads this
    {
      data[pos..]
    }

    constructor (data: Bytes)
      ensures Valid() && this.data == data && pos == 0 && depth == 0
    {
      this.data := data;
      pos, depth := 0, 0;
    }

    method Peek() returns (b: Option<Byte>)
      requires Valid()
      ensures b == if Rest() == [] then None else Some(Rest()[0])
    {
      b := if pos < |data| then Some(data[pos]) else None;
    }

    method ReadByte() returns (b: Option<Byte>)
      requires Valid()
      modifies this`pos
      ensures Valid() && if old(Rest()) == [] then b == None && pos == old(pos)
        else b == Some(old(Rest())[0]) && pos == old(pos) + 1
    {
      b := Peek();
      if b.Some? { pos := pos + 1; }
    }

    /** Everything up to and including the delimiter; everything there is when it never comes. */
    method ReadString(delim: Byte) returns (s: Bytes, ok: bool)
      requires Valid()
      modifies this`pos
      ensures Valid() && pos >= old(pos) && s == old(Rest())[..pos - old(pos)]
      ensures ok == (IndexOf(old(Rest()), delim) < |old(Rest())|)
      ensures ok ==> pos == old(pos) + IndexOf(old(Rest()), delim) + 1
    {
      var start := pos;
      ghost var rest := Rest();
      while pos < |data|
        invariant start <= pos <= |data|
        invariant forall k :: 0 <= k < pos - start ==> rest[k] != delim
      {
        pos := pos + 1;
        if data[pos - 1] == delim {
          assert rest[pos - 1 - start] == delim;
          return data[start..pos], true;
        }
      }
      return data[start..pos], false;
    }

    method ReadFull(length: nat) returns (buf: Bytes, ok: bool)
      requires Valid()
      modifies this`pos
      ensures Valid() && pos >= old(pos) && ok == (length <= |old(Rest())|)
      ensures ok ==> buf == old(Rest())[..length] && pos == old(pos) + length
    {
      if length > |data| - pos {
        buf, ok := data[pos..], false;
        pos := |data|;
      } else {
        buf, ok := data[pos..pos + length], true;
        pos := pos + length;
      }
    }

    /** The result of a method that read one value, and where it left the stream. */
    ghost predicate Reads(start: nat, spec: Result<Parsed<Value>, BencodeError>, r: Result<Value, BencodeError>)
      reads this
    {
      match spec
      case Ok(p) => r == Ok(p.value) && pos == start + p.size
      case Err(e) => r == Err(e)
    }

    method DecodeInteger() returns (r: Result<Value, BencodeError>)
      requires Valid() && Rest() != [] && Rest()[0] == INTEGER
      modifies this`pos
      ensures Valid() && pos >= old(pos) && Reads(old(pos), ParseInteger(old(Rest())), r)
    {
      ghost var s := Rest();
      var _ := ReadByte();
      assert Rest() == s[1..];
      var text, ok := ReadString(END);
      if !ok { return Err(UnexpectedEOF); }
      text := text[..|text| - 1];
      assert text == s[1..1 + IndexOf(s[1..], END)];
      var valid := ValidateIntegerString(text);
      if !valid { return Err(InvalidInteger); }
      if !FitsInt64(Numeral(text)) { return Err(InvalidInteger); }
      r := Ok(Int(Numeral(text)));
    }

    method DecodeByteString() returns (r: Result<Value, BencodeError>)
      requires Valid()
      modifies this`pos
      ensures Valid() && pos >= old(pos) && Reads(old(pos), ParseString(old(Rest())), r)
    {
      ghost var s := Rest();
      var text, ok := ReadString(COLON);
      if !ok { return Err(UnexpectedEOF); }
      text := text[..|text| - 1];
      ghost var colon := IndexOf(s, COLON);
      assert text == s[..colon] && Rest() == s[colon + 1..];
      if text == [] || !AllDigits(text) || Number(text) > MAX_INT64 { return Err(InvalidStringLen); }
      var length := Number(text);
      if length > MAX_STRING_LENGTH { return Err(LimitExceeded); }
      var buf, full := ReadFull(length);
      if !full { return Err(UnexpectedEOF); }
      assert buf == s[colon + 1..colon + 1 + length];
      r := Ok(Str(buf));
    }

    method DecodeValue() returns (r: Result<Value, BencodeError>)
      requires Valid()
      modifies this
      ensures Valid() && depth == old(depth) && pos >= old(pos)
      ensures Reads(old(pos), ParseValue(old(Rest()), old(depth)), r)
      decreases |data| - pos, 2
    {
      hide ParseInteger, ParseString, ParseItems, ParseEntries, MapOf;
      var b := Peek();
      if b == None { return Err(UnexpectedEOF); }
      if b.value == INTEGER {
        r := DecodeInteger();
      } else if b.value == LIST {
        r := DecodeList();
      } else if b.value == DICT {
        var d := DecodeDictionary();
        r := match d case Ok(entries) => Ok(Dict(entries)) case Err(e) => Err(e);
      } else if IsDigit(b.value) {
        r := DecodeByteString();
      } else {
        r := Err(InvalidTypeMarker);
      }
    }

    method DecodeList() returns (r: Result<Value, BencodeError>)
      requires Valid() && Rest() != [] && Rest()[0] == LIST
      modifies this
      ensures Valid() && depth == old(depth) && pos >= old(pos)
      ensures Reads(old(pos), ParseValue(old(Rest()), old(depth)), r)
      decreases |data| - pos, 1
    {
      hide ParseItems, ParseEntries;
      ghost var s := Rest();
      var _ := ReadByte();
      assert Rest() == s[1..];
      depth := depth + 1;
      if depth > MAX_NESTING_DEPTH {
        depth := depth - 1;
        return Err(LimitExceeded);
      }
      var items := DecodeItems();
      depth := depth - 1;
      r := match items case Ok(list) => Ok(List(list)) case Err(e) => Err(e);
    }

    /** The loop of decodeList. */
    method DecodeItems() returns (r: Result<seq<Value>, BencodeError>)
      requires Valid()
      modifies this
      ensures Valid() && depth == old(depth) && pos >= old(pos)
      ensures match ParseItems(old(Rest()), old(depth))
        case Ok(p) => r == Ok(p.value) && pos == old(pos) + p.size
        case Err(e) => r == Err(e)
      decreases |data| - pos, 3
    {
      hide ParseValue, ParseItems, ItemsAfter;
      var list := [];
      ghost var taken: nat, spare: nat := 0, 0;
      NothingAfter(ParseItems(Rest(), depth), Err(UnexpectedEOF));
      while true
        invariant Valid() && depth == old(depth) && pos == old(pos) + taken
        invariant ParseItems(old(Rest()), depth) == ItemsAfter(list, taken, spare, ParseItems(Rest(), depth))
        decreases |data| - pos
      {
        ItemsStep(Rest(), depth, list, taken, spare);
        var b := Peek();
        if b == None { return Err(UnexpectedEOF); }
        if b.value == END {
          var _ := ReadByte();
          return Ok(list);
        }
        ghost var s := Rest();
        var v := DecodeValue();
        if v.Err? { return Err(v.error); }
        ghost var p := ParseValue(s, depth).value;
        assert Rest() == s[p.size..];
        list := list + [v.value];
        taken, spare := taken + p.size, spare + p.surplus;
      }
    }

    method DecodeDictionary() returns (r: Result<map<Bytes, Value>, BencodeError>)
      requires Valid() && Rest() != [] && Rest()[0] == DICT
      modifies this
      ensures Valid() && depth == old(depth) && pos >= old(pos)
      ensures match ParseDict(old(Rest()), old(depth))
        case Ok(p) => r == Ok(MapOf(p.value)) && pos == old(pos) + p.size
        case Err(e) => r == Err(e)
      decreases |data| - pos, 1
    {
      hide ParseEntries;
      ghost var s := Rest();
      var _ := ReadByte();
      assert Rest() == s[1..];
      depth := depth + 1;
      if depth > MAX_NESTING_DEPTH {
        depth := depth - 1;
        return Err(LimitExceeded);
      }
      var entries := DecodeEntries();
      depth := depth - 1;
      r := match entries case Ok((dict, _)) => Ok(dict) case Err(e) => Err(e);
    }

    /** One trip around the loop of decodeDictionary: a key that comes after the previous one, and its value. */
    method DecodeEntry(previous: Option<Bytes>) returns (r: Result<(Bytes, Value, Span), BencodeError>)
      requires Valid() && Rest() != []
      modifies this
      ensures Valid() && depth == old(depth) && pos >= old(pos)
      ensures match ParseEntry(old(Rest()), old(depth), previous)
        case Ok(p) =>
          && pos == old(pos) + p.size
          && r == Ok((p.value.key, p.value.value, Span(old(pos) + p.value.keySize, pos)))
        case Err(e) => r == Err(e)
      decreases |data| - pos, 3
    {
      hide ParseValue, Less;
      ghost var s := Rest();
      var key := DecodeValue();
      if key.Err? { return Err(key.error); }
      if !key.value.Str? { return Err(NonStringKey); }
      var k := key.value.s;
      if previous.Some? && !Less(previous.value, k) { return Err(UnsortedKeys); }
      assert Rest() == s[ParseValue(s, depth).value.size..];
      var start := pos;
      var value := DecodeValue();
      if value.Err? { return Err(value.error); }
      r := Ok((k, value.value, Span(start, pos)));
    }

    /** The loop of decodeDictionary and of decodeDictionaryWithSpans, which differ only in whether spans are kept. */
    method DecodeEntries() returns (r: Result<(map<Bytes, Value>, map<Bytes, Span>), BencodeError>)
      requires Valid()
      modifies this
      ensures Valid() && depth == old(depth) && pos >= old(pos)
      ensures match ParseEntries(old(Rest()), old(depth), None)
        case Ok(p) => r == Ok((MapOf(p.value), SpansOf(p.value, old(pos)))) && pos == old(pos) + p.size
        case Err(e) => r == Err(e)
      decreases |data| - pos, 4
    {
      hide ParseEntry, ParseEntries, EntriesAfter, MapOf, SpansOf, Offset;
      NoEntries(pos);
      var dict, spans := map[], map[];
      var previous: Option<Bytes> := None;
      ghost var entries: seq<Entry>, taken: nat, spare: nat := [], 0, 0;
      NothingAfter(Err(UnexpectedEOF), ParseEntries(Rest(), depth, None));
      while true
        invariant Valid() && depth == old(depth) && pos == old(pos) + taken
        invariant dict == MapOf(entries) && spans == SpansOf(entries, old(pos))
        invariant taken == Offset(entries, |entries|)
        invariant ParseEntries(old(Rest()), depth, None) ==
          EntriesAfter(entries, taken, spare, ParseEntries(Rest(), depth, previous))
        decreases |data| - pos
      {
        EntriesStep(Rest(), depth, previous, entries, taken, spare);
        var b := Peek();
        if b == None { return Err(UnexpectedEOF); }
        if b.value == END {
          var _ := ReadByte();
          return Ok((dict, spans));
        }
        ghost var s := Rest();
        var entry := DecodeEntry(previous);
        if entry.Err? { return Err(entry.error); }
        ghost var e := ParseEntry(s, depth, previous).value;
        assert Rest() == s[e.size..];
        EntriesAfterEntries(entries, taken, spare, e.value, e.size, e.surplus,
                            ParseEntries(Rest(), depth, Some(e.value.key)));
        OneMoreEntry(entries, e.value, old(pos));
        EntrySizes(s, depth, previous);
        var (k, value, span) := entry.value;
        spans := spans[k := span];
        dict := dict[k := value];
        previous := Some(k);
        entries := entries + [e.value];
        taken, spare := taken + e.size, spare + e.surplus;
      }
    }

    /** A top-level dictionary together with where each key's value stood in the input. */
    method DecodeWithSpans() returns (r: Result<(map<Bytes, Value>, map<Bytes, Span>), BencodeError>)
      requires Valid()
      modifies this
      ensures Valid()
      ensures if old(Rest()) == [] then r == Err(UnexpectedEOF)
        else if old(Rest())[0] != DICT then r == Err(InvalidTypeMarker)
        else match ParseDict(old(Rest()), old(depth))
          case Ok(p) => r == Ok((MapOf(p.value), SpansOf(p.value, old(pos) + 1))) && pos == old(pos) + p.size
          case Err(e) => r == Err(e)
    {
      hide ParseEntries;
      var b := Peek();
      if b == None { return Err(UnexpectedEOF); }
      if b.value != DICT { return Err(InvalidTypeMarker); }
      ghost var s := Rest();
      var _ := ReadByte();
      assert Rest() == s[1..];
      depth := depth + 1;
      if depth > MAX_NESTING_DEPTH {
        depth := depth - 1;
        return Err(LimitExceeded);
      }
      r := DecodeEntries();
      depth := depth - 1;
    }

    method AtEnd() returns (end: bool)
      requires Valid()
      ensures end == (Rest() == [])
    {
      var b := Peek();
      end := b == None;
    }
  }

  /** Exactly one value, or an error if anything follows it. */
  method DecodeStrict(data: Bytes) returns (r: Result<Value, BencodeError>)
    ensures r == ParseStrict(data)
  {
    hide ParseValue;
    var d := new Decoder(data);
    assert d.Rest() == data;
    r := d.DecodeValue();
    if r.Err? { return; }
    var end := d.AtEnd();
    if !end { return Err(TrailingData); }
  }

  /** What the rest of a dictionary amounts to, after some entries have been read: the end, or one entry and then the
      rest. */
  lemma {:induction false} EntriesStep(
    s: Bytes, depth: nat, previous: Option<Bytes>, entries: seq<Entry>, taken: nat, spare: nat)
    ensures EntriesAfter(entries, taken, spare, ParseEntries(s, depth, previous)) ==
      if s == [] then Err(UnexpectedEOF)
      else if s[0] == END then Ok(Parsed(entries, taken + 1, spare))
      else
        match ParseEntry(s, depth, previous)
        case Err(e) => Err(e)
        case Ok(first) =>
          EntriesAfter(entries, taken, spare,
                       EntriesAfter([first.value], first.size, first.surplus,
                                    ParseEntries(s[first.size..], depth, Some(first.value.key))))
  {
    hide ParseEntry;
    assert entries + [] == entries;
  }

  lemma {:induction false} EntrySizes(s: Bytes, depth: nat, previous: Option<Bytes>)
    requires s != [] && ParseEntry(s, depth, previous).Ok?
    ensures var e := ParseEntry(s, depth, previous).value; e.size == e.value.keySize + e.value.valueSize
  {
    hide ParseValue, Less;
  }

  lemma {:induction false} NoEntries(base: nat)
    ensures MapOf([]) == map[] && SpansOf([], base) == map[] && Offset([], 0) == 0
  {
  }

  lemma {:induction false} OneMoreEntry(entries: seq<Entry>, e: Entry, base: nat)
    ensures MapOf(entries + [e]) == MapOf(entries)[e.key := e.value]
    ensures var at := base + Offset(entries, |entries|);
      SpansOf(entries + [e], base) ==
        SpansOf(entries, base)[e.key := Span(at + e.keySize, at + e.keySize + e.valueSize)]
    ensures Offset(entries + [e], |entries| + 1) == Offset(entries, |entries|) + e.keySize + e.valueSize
  {
    var n, more := |entries|, entries + [e];
    assert more[..n] == entries && more[n] == e;
    OffsetInit(more, n, n);
  }

  // ----- writing -----

  /** Puts a dictionary's keys, which come in any order, into byte-wise order. */
  method SortKeys(keys: set<Bytes>) returns (sorted: seq<Bytes>)
    ensures sorted == SortedKeys(keys)
  {
    hide Less;
    sorted := [];
    var todo := keys;
    while todo != {}
      invariant todo <= keys && Ascending(sorted)
      invariant forall k :: k in sorted <==> k in keys && k !in todo
      decreases |todo|
    {
      var k :| k in todo;
      var at := 0;
      while at < |sorted| && Less(sorted[at], k)
        invariant at <= |sorted| && forall j :: 0 <= j < at ==> Less(sorted[j], k)
      {
        at := at + 1;
      }
      InsertKeepsOrder(sorted, k, at);
      sorted := sorted[..at] + [k] + sorted[at..];
      todo := todo - {k};
    }
    AscendingIsSorted(keys, sorted);
  }

  lemma {:induction false} InsertKeepsOrder(sorted: seq<Bytes>, k: Bytes, at: nat)
    requires Ascending(sorted) && at <= |sorted| && k !in sorted
    requires forall j :: 0 <= j < at ==> Less(sorted[j], k)
    requires at < |sorted| ==> !Less(sorted[at], k)
    ensures Ascending(sorted[..at] + [k] + sorted[at..])
    ensures forall x :: x in sorted[..at] + [k] + sorted[at..] <==> x in sorted || x == k
  {
    hide Less;
    assert sorted == sorted[..at] + sorted[at..];
    if at < |sorted| { LessIsTotal(sorted[at], k); }
    forall j | at <= j < |sorted| ensures Less(k, sorted[j]) {
      if at < j { LessIsTransitive(k, sorted[at], sorted[j]); }
    }
  }

  /** A buffer that the encoder appends to. */
  class Buffer {
    var out: Bytes

    constructor ()
      ensures out == []
    {
      out := [];
    }

    method Write(s: Bytes)
      modifies this
      ensures out == old(out) + s
    {
      out := out + s;
    }

    method EncodeValue(v: Value)
      modifies this
      ensures out == old(out) + Encode(v)
      decreases v
    {
      hide SortedKeys, EncodeItems, EncodeEntries;
      match v
      case Int(n) => Write(EncodeInt(n));
      case Str(s) => Write(EncodeString(s));
      case List(items) => EncodeList(v);
      case Dict(entries) => EncodeDictionary(v);
    }

    method EncodeList(v: Value)
      requires v.List?
      modifies this
      ensures out == old(out) + Encode(v)
      decreases v, 0
    {
      var items := v.items;
      Write([LIST]);
      for i := 0 to |items|
        invariant out == old(out) + [LIST] + EncodeItems(items[..i])
      {
        EncodeValue(items[i]);
        OneMoreItem(items, i);
      }
      assert items[..|items|] == items;
      Write([END]);
    }

    method EncodeDictionary(v: Value)
      requires v.Dict?
      modifies this
      ensures out == old(out) + Encode(v)
      decreases v, 0
    {
      hide Encode, EncodeEntries, EncodeString, SortedKeys;
      DictEncodes(v);
      var keys := SortKeys(v.entries.Keys);
      Write([DICT]);
      for i := 0 to |keys|
        invariant out == old(out) + [DICT] + EncodeEntries(v, keys[..i])
      {
        Write(EncodeString(keys[i]));
        EncodeValue(v.entries[keys[i]]);
        OneMoreKey(v, keys, i);
      }
      assert keys[..|keys|] == keys;
      Write([END]);
    }
  }

  lemma {:induction false} DictEncodes(v: Value)
    requires v.Dict?
    ensures Encode(v) == [DICT] + EncodeEntries(v, SortedKeys(v.entries.Keys)) + [END]
    ensures EncodeEntries(v, []) == []
  {
  }

  lemma {:induction false} OneMoreItem(items: seq<Value>, i: nat)
    requires i < |items|
    ensures EncodeItems(items[..i + 1]) == EncodeItems(items[..i]) + Encode(items[i])
    decreases items
  {
    hide Encode;
    if i == 0 {
      assert items[..1] == [items[0]] && [items[0]][1..] == [];
      assert EncodeItems([]) == [];
    } else {
      OneMoreItem(items[1..], i - 1);
      assert items[..i + 1][1..] == items[1..][..i] && items[..i][1..] == items[1..][..i - 1];
    }
  }

  lemma {:induction false} OneMoreKey(d: Value, keys: seq<Bytes>, i: nat)
    requires d.Dict? && i < |keys| && forall k :: k in keys ==> k in d.entries
    ensures EncodeEntries(d, keys[..i + 1]) ==
      EncodeEntries(d, keys[..i]) + EncodeString(keys[i]) + Encode(d.entries[keys[i]])
    decreases keys
  {
    hide Encode, EncodeString;
    if i == 0 {
      var none: seq<Bytes> := [];
      assert keys[..1] == [keys[0]] && [keys[0]][1..] == none && keys[..0] == none;
      assert EncodeEntries(d, none) == [];
    } else {
      OneMoreKey(d, keys[1..], i - 1);
      assert keys[..i + 1][1..] == keys[1..][..i] && keys[..i][1..] == keys[1..][..i - 1];
    }
  }
}
