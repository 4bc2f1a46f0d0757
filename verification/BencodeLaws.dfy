/** What the decoder and the encoder mean to each other: printing then parsing gives the value back, parsing then
    printing gives the bytes back up to leading zeros in length prefixes, and a value is decoded the same way
    wherever it stands. */
module BencodeLaws {
  import opened Base
  import opened Bencode
  import opened Decimal

  // ----- keys -----

  /** The order of strings byte by byte: a string comes after its own beginnings, and otherwise the first byte in which
      two strings differ decides. */
  ghost predicate Precedes(a: Bytes, b: Bytes) {
    a < b || exists k :: 0 <= k < |a| && k < |b| && a[..k] == b[..k] && a[k] < b[k]
  }

  lemma {:induction false} LessMeans(a: Bytes, b: Bytes)
    ensures Less(a, b) <==> Precedes(a, b)
  {
    if a != [] && b != [] {
      if a[0] == b[0] {
        hide Precedes;
        LessMeans(a[1..], b[1..]);
        if Precedes(a[1..], b[1..]) { LaterPrecedes(a, b); }
        if Precedes(a, b) { EarlierPrecedes(a, b); }
      } else if a[0] < b[0] {
        assert a[..0] == b[..0];
      }
    }
  }

  lemma {:induction false} LaterPrecedes(a: Bytes, b: Bytes)
    requires a != [] && b != [] && a[0] == b[0] && Precedes(a[1..], b[1..])
    ensures Precedes(a, b)
  {
    var c, d := a[1..], b[1..];
    assert a == [a[0]] + c && b == [b[0]] + d;
    if k :| 0 <= k < |c| && k < |d| && c[..k] == d[..k] && c[k] < d[k] {
      assert a[..k + 1] == [a[0]] + c[..k] && b[..k + 1] == [b[0]] + d[..k];
      assert a[k + 1] < b[k + 1];
    }
  }

  lemma {:induction false} EarlierPrecedes(a: Bytes, b: Bytes)
    requires a != [] && b != [] && a[0] == b[0] && Precedes(a, b)
    ensures Precedes(a[1..], b[1..])
  {
    if k :| 0 <= k < |a| && k < |b| && a[..k] == b[..k] && a[k] < b[k] {
      assert a[1..][..k - 1] == a[..k][1..] && b[1..][..k - 1] == b[..k][1..];
      assert a[1..][k - 1] < b[1..][k - 1];
    }
  }

  lemma {:induction false} SortedKeysAscend(keys: set<Bytes>)
    ensures Ascending(SortedKeys(keys))
  {
    if keys != {} { SortedKeysAscend(keys - {Least(keys)}); }
  }

  /** A set of keys has only one ascending order. */
  lemma {:induction false} AscendingIsSorted(keys: set<Bytes>, sorted: seq<Bytes>)
    requires Ascending(sorted) && forall k :: k in sorted <==> k in keys
    ensures SortedKeys(keys) == sorted
  {
    if sorted == [] {
      assert keys == {};
    } else {
      var first := sorted[0];
      assert first in keys;
      var least := Least(keys);
      LessIsTotal(least, first);
      forall k | k in sorted[1..] ensures Less(first, k) && k != first {
        LessIsTotal(first, k);
      }
      assert least == first;
      forall k ensures k in sorted[1..] <==> k in keys - {first} {
        assert sorted == [first] + sorted[1..];
      }
      AscendingIsSorted(keys - {first}, sorted[1..]);
    }
  }

  // ----- what can be encoded -----

  /** 64-bit integers, strings within the limit, and at most room levels of lists and dictionaries. */
  ghost predicate Encodable(v: Value, room: int)
    decreases v
  {
    match v
    case Int(n) => FitsInt64(n)
    case Str(s) => |s| <= MAX_STRING_LENGTH
    case List(items) => room >= 1 && forall i :: 0 <= i < |items| ==> Encodable(items[i], room - 1)
    case Dict(entries) =>
      room >= 1 && forall k :: k in entries ==> |k| <= MAX_STRING_LENGTH && Encodable(entries[k], room - 1)
  }

  lemma {:induction false} MoreRoom(v: Value, room: int, more: int)
    requires Encodable(v, room) && room <= more
    ensures Encodable(v, more)
    decreases v
  {
    match v
    case List(items) =>
      forall i | 0 <= i < |items| ensures Encodable(items[i], more - 1) { MoreRoom(items[i], room - 1, more - 1); }
    case Dict(entries) =>
      forall k | k in entries ensures Encodable(entries[k], more - 1) { MoreRoom(entries[k], room - 1, more - 1); }
    case _ =>
  }

  // ----- numbers and strings -----

  lemma {:induction false} IndexAfter(text: Bytes, b: Byte, rest: Bytes)
    requires b !in text
    ensures IndexOf(text + [b] + rest, b) == |text|
  {
    var s := text + [b] + rest;
    assert s[|text|] == b;
    assert forall k :: 0 <= k < |text| ==> s[k] == text[k];
  }

  function IntText(n: int): Bytes { if n < 0 then [MINUS] + Print(-n) else Print(n) }

  lemma {:induction false} IntTextIsNumeral(n: int)
    ensures ValidIntegerString(IntText(n)) && Numeral(IntText(n)) == n && END !in IntText(n)
  {
    var digits := Print(if n < 0 then -n else n);
    PrintedIsCanonical(if n < 0 then -n else n);
    if n < 0 {
      assert IntText(n)[1..] == digits;
    }
  }

  lemma {:induction false} NumeralIsIntText(text: Bytes)
    requires ValidIntegerString(text)
    ensures text == IntText(Numeral(text))
  {
    if text[0] == MINUS {
      ReadThenPrint(text[1..]);
      assert text == [MINUS] + text[1..];
    } else {
      ReadThenPrint(text);
    }
  }

  lemma {:induction false} PrintThenParseInteger(n: int, t: Bytes)
    requires FitsInt64(n)
    ensures ParseInteger(EncodeInt(n) + t) == Ok(Parsed(Int(n), |EncodeInt(n)|, 0))
  {
    hide Print, Number, IsNumeral, Numeral, ValidIntegerString;
    var s, text := EncodeInt(n) + t, IntText(n);
    assert s[1..] == text + [END] + t;
    IntTextIsNumeral(n);
    IndexAfter(text, END, t);
    assert s[1..1 + |text|] == text;
  }

  lemma {:induction false} ParseThenPrintInteger(s: Bytes)
    requires s != [] && s[0] == INTEGER && ParseInteger(s).Ok?
    ensures var p := ParseInteger(s).value;
      p.value.Int? && FitsInt64(p.value.n) && p.surplus == 0 && EncodeInt(p.value.n) == s[..p.size]
  {
    hide Print, Number, IsNumeral, Numeral, ValidIntegerString;
    var end := IndexOf(s[1..], END);
    var text := s[1..1 + end];
    NumeralIsIntText(text);
    assert s[..end + 2] == [INTEGER] + text + [END];
  }

  /** The integer parser accepts exactly what is printed for a 64-bit integer, whatever follows. */
  lemma {:induction false} IntegersAreCanonical(s: Bytes, n: int)
    requires s != [] && s[0] == INTEGER
    ensures (ParseInteger(s).Ok? && ParseInteger(s).value.value == Int(n)) <==> (FitsInt64(n) && EncodeInt(n) <= s)
  {
    hide ParseInteger, EncodeInt;
    if FitsInt64(n) && EncodeInt(n) <= s {
      PrintThenParseInteger(n, s[|EncodeInt(n)|..]);
      assert s == EncodeInt(n) + s[|EncodeInt(n)|..];
    }
    if ParseInteger(s).Ok? { ParseThenPrintInteger(s); }
  }

  lemma {:induction false} PrintThenParseString(text: Bytes, t: Bytes)
    requires |text| <= MAX_STRING_LENGTH
    ensures ParseString(EncodeString(text) + t) == Ok(Parsed(Str(text), |EncodeString(text)|, 0))
    ensures IsDigit(EncodeString(text)[0])
  {
    var s, prefix := EncodeString(text) + t, Print(|text|);
    PrintedIsCanonical(|text|);
    assert s == prefix + [COLON] + (text + t);
    IndexAfter(prefix, COLON, text + t);
    assert s[..|prefix|] == prefix;
    assert s[|prefix| + 1..|prefix| + 1 + |text|] == text;
  }

  /** A string read is the string printed, but for leading zeros in its length. */
  lemma {:induction false} ParseThenPrintString(s: Bytes)
    requires ParseString(s).Ok?
    ensures var p := ParseString(s).value;
      && |p.value.s| <= MAX_STRING_LENGTH
      && p.size == |EncodeString(p.value.s)| + p.surplus
      && (p.surplus == 0 ==> EncodeString(p.value.s) == s[..p.size])
      && (p.surplus > 0 <==> Padded(s[..IndexOf(s, COLON)]))
  {
    var p, colon := ParseString(s).value, IndexOf(s, COLON);
    ReadThenPrint(s[..colon]);
    if p.surplus == 0 {
      assert s[..p.size] == s[..colon] + [COLON] + s[colon + 1..p.size];
    }
  }

  // ----- printing then parsing -----

  lemma {:induction false} FirstByte(v: Value)
    ensures Encode(v) != [] && Encode(v)[0] != END
    ensures v.Str? ==> IsDigit(Encode(v)[0])
  {
    match v
    case Str(s) => PrintedIsCanonical(|s|);
    case _ =>
  }

  lemma {:induction false} ListParses(body: Bytes, depth: nat)
    requires depth < MAX_NESTING_DEPTH && ParseItems(body, depth + 1).Ok?
    ensures var p := ParseItems(body, depth + 1).value;
      ParseValue([LIST] + body, depth) == Ok(Parsed(List(p.value), 1 + p.size, p.surplus))
  {
    hide ParseItems;
    assert ([LIST] + body)[1..] == body;
  }

  lemma {:induction false} DictParses(body: Bytes, depth: nat)
    requires depth < MAX_NESTING_DEPTH && ParseEntries(body, depth + 1, None).Ok?
    ensures var p := ParseEntries(body, depth + 1, None).value;
      ParseValue([DICT] + body, depth) == Ok(Parsed(Dict(MapOf(p.value)), 1 + p.size, p.surplus))
  {
    hide ParseEntries, MapOf;
    assert ([DICT] + body)[1..] == body;
  }

  lemma {:induction false} ItemsCons(first: Bytes, rest: Bytes, depth: nat)
    requires first != [] && first[0] != END
    requires ParseValue(first + rest, depth).Ok? && ParseValue(first + rest, depth).value.size == |first|
    requires ParseItems(rest, depth).Ok?
    ensures var v, p := ParseValue(first + rest, depth).value, ParseItems(rest, depth).value;
      ParseItems(first + rest, depth) == Ok(Parsed([v.value] + p.value, v.size + p.size, v.surplus + p.surplus))
  {
    hide ParseValue;
    assert (first + rest)[|first|..] == rest;
  }

  lemma {:induction false} EntryParses(key: Bytes, value: Bytes, rest: Bytes, depth: nat, previous: Option<Bytes>)
    requires key != []
    requires var k := ParseValue(key + value + rest, depth);
      && k.Ok? && k.value.size == |key| && k.value.value.Str?
      && (previous.Some? ==> Less(previous.value, k.value.value.s))
    requires ParseValue(value + rest, depth).Ok? && ParseValue(value + rest, depth).value.size == |value|
    ensures var k, v := ParseValue(key + value + rest, depth).value, ParseValue(value + rest, depth).value;
      ParseEntry(key + value + rest, depth, previous) ==
        Ok(Parsed(Entry(k.value.s, v.value, |key|, |value|), |key| + |value|, k.surplus + v.surplus))
  {
    hide ParseValue, Less;
    assert (key + value + rest)[|key|..] == value + rest;
  }

  lemma {:induction false} EntriesCons(first: Bytes, rest: Bytes, depth: nat, previous: Option<Bytes>)
    requires first != [] && first[0] != END
    requires var e := ParseEntry(first + rest, depth, previous);
      e.Ok? && e.value.size == |first| && ParseEntries(rest, depth, Some(e.value.value.key)).Ok?
    ensures var e := ParseEntry(first + rest, depth, previous).value;
      var p := ParseEntries(rest, depth, Some(e.value.key)).value;
      ParseEntries(first + rest, depth, previous) ==
        Ok(Parsed([e.value] + p.value, e.size + p.size, e.surplus + p.surplus))
  {
    hide ParseEntry;
    assert (first + rest)[|first|..] == rest;
  }

  /** Decoding what was encoded gives the value back and stops exactly at its end, whatever follows. */
  lemma {:induction false} PrintThenParse(v: Value, t: Bytes, depth: nat)
    requires Encodable(v, MAX_NESTING_DEPTH - depth)
    ensures ParseValue(Encode(v) + t, depth) == Ok(Parsed(v, |Encode(v)|, 0))
    decreases v
  {
    hide ParseItems, ParseEntries, EncodeItems, EncodeEntries, SortedKeys, MapOf, ParseDict, ParseInteger,
         ParseString, EncodeInt, EncodeString;
    match v
    case Int(n) =>
      PrintThenParseInteger(n, t);
      IntegerMarker(n, t);
    case Str(text) =>
      PrintThenParseString(text, t);
    case List(items) =>
      var body := EncodeItems(items) + ([END] + t);
      PrintThenParseItems(items, t, depth + 1);
      ListParses(body, depth);
      assert Encode(v) + t == [LIST] + body;
    case Dict(entries) =>
      var keys := SortedKeys(entries.Keys);
      var body := EncodeEntries(v, keys) + ([END] + t);
      SortedKeysAscend(entries.Keys);
      PrintThenParseEntries(v, keys, t, depth + 1, None);
      DictParses(body, depth);
      assert Encode(v) + t == [DICT] + body;
      MapOfEntries(ParseEntries(body, depth + 1, None).value.value, keys, entries);
  }

  lemma {:induction false} IntegerMarker(n: int, t: Bytes)
    ensures EncodeInt(n) + t != [] && (EncodeInt(n) + t)[0] == INTEGER
  {
  }

  lemma {:induction false} EncodeItemsCons(items: seq<Value>)
    requires items != []
    ensures EncodeItems(items) == Encode(items[0]) + EncodeItems(items[1..])
  {
    hide Encode;
  }

  lemma {:induction false} EncodeEntriesCons(d: Value, keys: seq<Bytes>)
    requires d.Dict? && keys != [] && forall k :: k in keys ==> k in d.entries
    ensures EncodeEntries(d, keys) ==
      EncodeString(keys[0]) + Encode(d.entries[keys[0]]) + EncodeEntries(d, keys[1..])
  {
    hide Encode, EncodeString;
  }

  lemma {:induction false} PrintThenParseItems(items: seq<Value>, t: Bytes, depth: nat)
    requires forall i :: 0 <= i < |items| ==> Encodable(items[i], MAX_NESTING_DEPTH - depth)
    ensures ParseItems(EncodeItems(items) + ([END] + t), depth) == Ok(Parsed(items, |EncodeItems(items)| + 1, 0))
    decreases items
  {
    hide Encode, ParseValue, Encodable;
    if items == [] {
      assert EncodeItems(items) + ([END] + t) == [END] + t;
    } else {
      hide ParseItems, EncodeItems;
      EncodeItemsCons(items);
      var first, rest := Encode(items[0]), EncodeItems(items[1..]) + ([END] + t);
      FirstByte(items[0]);
      PrintThenParse(items[0], rest, depth);
      PrintThenParseItems(items[1..], t, depth);
      ItemsCons(first, rest, depth);
      assert EncodeItems(items) + ([END] + t) == first + rest;
      assert items == [items[0]] + items[1..];
    }
  }

  ghost predicate EntriesFor(entries: seq<Entry>, keys: seq<Bytes>, m: map<Bytes, Value>) {
    && |entries| == |keys|
    && forall i :: 0 <= i < |keys| ==> entries[i].key == keys[i] && keys[i] in m && entries[i].value == m[keys[i]]
  }

  lemma {:induction false} AppendAfter(a: Bytes, b: Bytes, c: Bytes)
    ensures a + b + c == a + (b + c)
  {
  }

  lemma {:induction false} OneEntryParses(
    k: Bytes, value: Bytes, v: Value, surplus: nat, rest: Bytes, depth: nat, previous: Option<Bytes>)
    requires |k| <= MAX_STRING_LENGTH && (previous.Some? ==> Less(previous.value, k))
    requires ParseValue(value + rest, depth) == Ok(Parsed(v, |value|, surplus))
    requires ParseEntries(rest, depth, Some(k)).Ok?
    ensures var key, p := EncodeString(k), ParseEntries(rest, depth, Some(k)).value;
      ParseEntries(key + value + rest, depth, previous) ==
        Ok(Parsed([Entry(k, v, |key|, |value|)] + p.value, |key + value| + p.size, surplus + p.surplus))
  {
    hide ParseValue, ParseEntry, ParseEntries, EncodeString, Less;
    var key := EncodeString(k);
    KeyParses(k, value + rest, depth);
    assert key + value + rest == key + (value + rest);
    EntryParses(key, value, rest, depth, previous);
    EntriesCons(key + value, rest, depth, previous);
  }

  lemma {:induction false} PrintThenParseEntries(
    d: Value, keys: seq<Bytes>, t: Bytes, depth: nat, previous: Option<Bytes>)
    requires d.Dict? && forall k :: k in keys ==> k in d.entries
    requires forall k :: k in keys ==> |k| <= MAX_STRING_LENGTH && Encodable(d.entries[k], MAX_NESTING_DEPTH - depth)
    requires Ascending(keys) && (previous.Some? && keys != [] ==> Less(previous.value, keys[0]))
    ensures var r := ParseEntries(EncodeEntries(d, keys) + ([END] + t), depth, previous);
      && r.Ok? && r.value.size == |EncodeEntries(d, keys)| + 1 && r.value.surplus == 0
      && EntriesFor(r.value.value, keys, d.entries)
    decreases d, |keys|
  {
    hide Encode, ParseValue, Encodable, ParseEntry, EncodeString, Ascending, Less;
    if keys == [] {
      assert EncodeEntries(d, keys) + ([END] + t) == [END] + t;
    } else {
      hide ParseEntries, EntriesFor, EncodeEntries;
      AscendingTail(keys);
      EncodeEntriesCons(d, keys);
      var k, v, rest := keys[0], d.entries[keys[0]], EncodeEntries(d, keys[1..]) + ([END] + t);
      PrintThenParse(v, rest, depth);
      PrintThenParseEntries(d, keys[1..], t, depth, Some(k));
      OneEntryParses(k, Encode(v), v, 0, rest, depth, previous);
      AppendAfter(EncodeString(k) + Encode(v), EncodeEntries(d, keys[1..]), [END] + t);
      ConsEntries(Entry(k, v, |EncodeString(k)|, |Encode(v)|),
                  ParseEntries(rest, depth, Some(k)).value.value, keys, d.entries);
    }
  }

  lemma {:induction false} AscendingTail(keys: seq<Bytes>)
    requires keys != [] && Ascending(keys)
    ensures Ascending(keys[1..]) && forall k :: k in keys[1..] ==> k in keys && Less(keys[0], k)
  {
    hide Less;
  }

  lemma {:induction false} KeyParses(k: Bytes, t: Bytes, depth: nat)
    requires |k| <= MAX_STRING_LENGTH
    ensures EncodeString(k) != [] && EncodeString(k)[0] != END
    ensures ParseValue(EncodeString(k) + t, depth) == Ok(Parsed(Str(k), |EncodeString(k)|, 0))
  {
    hide ParseString, EncodeString;
    PrintThenParseString(k, t);
  }

  lemma {:induction false} ConsEntries(
    first: Entry, rest: seq<Entry>, keys: seq<Bytes>, m: map<Bytes, Value>)
    requires keys != [] && EntriesFor(rest, keys[1..], m)
    requires first.key == keys[0] && keys[0] in m && first.value == m[keys[0]]
    ensures EntriesFor([first] + rest, keys, m)
  {
  }

  lemma {:induction false} MapOfEntries(entries: seq<Entry>, keys: seq<Bytes>, m: map<Bytes, Value>)
    requires EntriesFor(entries, keys, m) && forall k :: k in m ==> k in keys
    ensures MapOf(entries) == m
  {
    MapOfPrefix(entries, keys, m);
    assert MapOf(entries).Keys == m.Keys;
  }

  lemma {:induction false} MapOfPrefix(entries: seq<Entry>, keys: seq<Bytes>, m: map<Bytes, Value>)
    requires EntriesFor(entries, keys, m)
    ensures forall k :: k in MapOf(entries) <==> k in keys
    ensures forall k :: k in keys ==> MapOf(entries)[k] == m[k]
  {
    if entries != [] {
      var n := |entries| - 1;
      MapOfPrefix(entries[..n], keys[..n], m);
      assert keys == keys[..n] + [keys[n]];
    }
  }

  /** So no encoding is a proper prefix of another, and equal encodings mean equal values. */
  lemma {:induction false} EncodingsArePrefixFree(v: Value, w: Value, t: Bytes, u: Bytes)
    requires Encodable(v, MAX_NESTING_DEPTH) && Encodable(w, MAX_NESTING_DEPTH)
    requires Encode(v) + t == Encode(w) + u
    ensures v == w && t == u
  {
    hide Encode, ParseValue, Encodable;
    PrintThenParse(v, t, 0);
    PrintThenParse(w, u, 0);
    assert t == (Encode(v) + t)[|Encode(v)|..];
    assert u == (Encode(w) + u)[|Encode(w)|..];
  }

  // ----- parsing then printing -----

  function Keys(entries: seq<Entry>): seq<Bytes> {
    seq(|entries|, i requires 0 <= i < |entries| => entries[i].key)
  }

  lemma {:induction false} KeysCons(first: Entry, rest: seq<Entry>)
    ensures Keys([first] + rest) == [first.key] + Keys(rest)
  {
  }

  ghost predicate After(previous: Option<Bytes>, keys: seq<Bytes>) {
    previous.Some? ==> forall k :: k in keys ==> Less(previous.value, k)
  }

  lemma {:induction false} AscendingCons(previous: Option<Bytes>, key: Bytes, rest: seq<Bytes>)
    requires Ascending(rest) && After(Some(key), rest) && (previous.Some? ==> Less(previous.value, key))
    ensures Ascending([key] + rest) && After(previous, [key] + rest)
  {
    hide Less;
    if previous.Some? {
      forall k | k in [key] + rest ensures Less(previous.value, k) {
        if k in rest { LessIsTransitive(previous.value, key, k); }
      }
    }
  }

  /** What the first step of reading entries was. */
  lemma {:induction false} EntriesUncons(s: Bytes, depth: nat, previous: Option<Bytes>)
    requires ParseEntries(s, depth, previous).Ok? && s[0] != END
    ensures ParseEntry(s, depth, previous).Ok?
    ensures var e := ParseEntry(s, depth, previous).value;
      var r := ParseEntries(s[e.size..], depth, Some(e.value.key));
      && r.Ok?
      && ParseEntries(s, depth, previous) ==
           Ok(Parsed([e.value] + r.value.value, e.size + r.value.size, e.surplus + r.value.surplus))
  {
    hide ParseEntry;
  }

  lemma {:induction false} EntryUncons(s: Bytes, depth: nat, previous: Option<Bytes>)
    requires s != [] && ParseEntry(s, depth, previous).Ok?
    ensures ParseValue(s, depth).Ok? && ParseValue(s, depth).value.value.Str?
    ensures var k := ParseValue(s, depth).value;
      var v := ParseValue(s[k.size..], depth);
      && v.Ok? && (previous.Some? ==> Less(previous.value, k.value.s))
      && ParseEntry(s, depth, previous) ==
           Ok(Parsed(Entry(k.value.s, v.value.value, k.size, v.value.size), k.size + v.value.size,
                     k.surplus + v.value.surplus))
  {
    hide ParseValue, Less;
  }

  lemma {:induction false} ItemsUncons(s: Bytes, depth: nat)
    requires ParseItems(s, depth).Ok? && s[0] != END
    ensures ParseValue(s, depth).Ok?
    ensures var v := ParseValue(s, depth).value;
      var r := ParseItems(s[v.size..], depth);
      && r.Ok?
      && ParseItems(s, depth) ==
           Ok(Parsed([v.value] + r.value.value, v.size + r.value.size, v.surplus + r.value.surplus))
  {
    hide ParseValue;
  }

  /** The keys of a decoded dictionary ascend. */
  lemma {:induction false} EntriesAscend(s: Bytes, depth: nat, previous: Option<Bytes>)
    requires ParseEntries(s, depth, previous).Ok?
    ensures Ascending(Keys(ParseEntries(s, depth, previous).value.value))
    ensures After(previous, Keys(ParseEntries(s, depth, previous).value.value))
    decreases |s|
  {
    hide ParseEntry, Ascending, After, Less;
    if s[0] == END {
      NothingAscends(previous);
    } else {
      hide ParseEntries;
      EntriesUncons(s, depth, previous);
      var e := ParseEntry(s, depth, previous).value;
      EntryUncons(s, depth, previous);
      EntriesAscend(s[e.size..], depth, Some(e.value.key));
      var rest := ParseEntries(s[e.size..], depth, Some(e.value.key)).value.value;
      KeysCons(e.value, rest);
      AscendingCons(previous, e.value.key, Keys(rest));
    }
  }

  lemma {:induction false} NothingAscends(previous: Option<Bytes>)
    ensures Ascending(Keys([])) && After(previous, Keys([]))
  {
  }

  lemma {:induction false} AscendingInit(keys: seq<Bytes>)
    requires keys != [] && Ascending(keys)
    ensures Ascending(keys[..|keys| - 1]) && keys[|keys| - 1] !in keys[..|keys| - 1]
  {
    hide Less;
    var last := keys[|keys| - 1];
    LessIsTotal(last, last);
  }

  lemma {:induction false} MapOfAscending(entries: seq<Entry>)
    requires Ascending(Keys(entries))
    ensures EntriesFor(entries, Keys(entries), MapOf(entries))
    ensures forall k :: k in MapOf(entries) <==> k in Keys(entries)
  {
    hide Ascending;
    if entries != [] {
      var n := |entries| - 1;
      var init, last := entries[..n], entries[n];
      assert Keys(entries)[..n] == Keys(init);
      AscendingInit(Keys(entries));
      MapOfAscending(init);
      assert Keys(entries) == Keys(init) + [last.key];
      forall i | 0 <= i < |entries|
        ensures Keys(entries)[i] in MapOf(entries) && entries[i].value == MapOf(entries)[Keys(entries)[i]]
      {
        if i < n { assert entries[i] == init[i] && Keys(init)[i] in Keys(init); }
      }
    }
  }

  /** Everything decoded can be encoded; its encoding is shorter by exactly the leading zeros its length prefixes had to
      spare, and is the very bytes that were read when there were none. */
  lemma {:induction false} ParseThenPrint(s: Bytes, depth: nat)
    requires ParseValue(s, depth).Ok?
    ensures var p := ParseValue(s, depth).value;
      && Encodable(p.value, MAX_NESTING_DEPTH - depth)
      && p.size == |Encode(p.value)| + p.surplus
      && (Encode(p.value) == s[..p.size] <==> p.surplus == 0)
    decreases |s|, 2
  {
    hide ParseInteger, ParseString, ParseItems, ParseEntries, EncodeItems, EncodeEntries, SortedKeys, MapOf,
         EncodeInt, EncodeString;
    if s[0] == INTEGER {
      ParseThenPrintInteger(s);
    } else if s[0] == LIST {
      ParseThenPrintItems(s[1..], depth + 1);
      var p := ParseItems(s[1..], depth + 1).value;
      assert s[..1 + p.size] == [LIST] + s[1..][..p.size];
    } else if s[0] == DICT {
      ParseThenPrintDict(s, depth);
    } else {
      ParseThenPrintString(s);
    }
  }

  lemma {:induction false} ParseThenPrintDict(s: Bytes, depth: nat)
    requires s != [] && s[0] == DICT && ParseDict(s, depth).Ok?
    ensures var p := ParseDict(s, depth).value;
      var v := Dict(MapOf(p.value));
      && Encodable(v, MAX_NESTING_DEPTH - depth)
      && p.size == |Encode(v)| + p.surplus
      && (Encode(v) == s[..p.size] <==> p.surplus == 0)
    decreases |s|, 1
  {
    hide ParseEntries, EncodeEntries, SortedKeys, MapOf, Keys, Ascending, After;
    var p := ParseEntries(s[1..], depth + 1, None).value;
    var v := Dict(MapOf(p.value));
    EntriesAscend(s[1..], depth + 1, None);
    MapOfAscending(p.value);
    AscendingIsSorted(v.entries.Keys, Keys(p.value));
    ParseThenPrintEntries(s[1..], depth + 1, None, v);
    assert s[..1 + p.size] == [DICT] + s[1..][..p.size];
    EncodableEntries(v, p.value, MAX_NESTING_DEPTH - depth);
  }

  lemma {:induction false} EncodableEntries(v: Value, entries: seq<Entry>, room: int)
    requires v.Dict? && room >= 1 && EntriesFor(entries, Keys(entries), v.entries)
    requires forall k :: k in v.entries ==> k in Keys(entries)
    requires forall i :: 0 <= i < |entries| ==>
      |entries[i].key| <= MAX_STRING_LENGTH && Encodable(entries[i].value, room - 1)
    ensures Encodable(v, room)
  {
    forall k | k in v.entries ensures |k| <= MAX_STRING_LENGTH && Encodable(v.entries[k], room - 1) {
      var i :| 0 <= i < |entries| && Keys(entries)[i] == k;
    }
  }

  lemma {:induction false} ParseThenPrintItems(s: Bytes, depth: nat)
    requires ParseItems(s, depth).Ok?
    ensures var p := ParseItems(s, depth).value;
      && (forall i :: 0 <= i < |p.value| ==> Encodable(p.value[i], MAX_NESTING_DEPTH - depth))
      && p.size == |EncodeItems(p.value)| + 1 + p.surplus
      && (p.surplus == 0 ==> EncodeItems(p.value) + [END] == s[..p.size])
    decreases |s|, 3
  {
    hide ParseValue, Encode, Encodable;
    if s[0] != END {
      hide ParseItems;
      ItemsUncons(s, depth);
      ParseThenPrint(s, depth);
      var v := ParseValue(s, depth).value;
      ParseThenPrintItems(s[v.size..], depth);
      var r := ParseItems(s[v.size..], depth).value;
      var items := [v.value] + r.value;
      assert items[1..] == r.value;
      assert s[..v.size + r.size] == s[..v.size] + s[v.size..][..r.size];
      assert EncodeItems(items) + [END] == Encode(v.value) + (EncodeItems(r.value) + [END]);
    }
  }

  lemma {:induction false} ParseThenPrintEntries(s: Bytes, depth: nat, previous: Option<Bytes>, d: Value)
    requires ParseEntries(s, depth, previous).Ok? && d.Dict?
    requires var entries := ParseEntries(s, depth, previous).value.value; EntriesFor(entries, Keys(entries), d.entries)
    ensures var p := ParseEntries(s, depth, previous).value;
      && (forall i :: 0 <= i < |p.value| ==>
            |p.value[i].key| <= MAX_STRING_LENGTH && Encodable(p.value[i].value, MAX_NESTING_DEPTH - depth))
      && (forall k :: k in Keys(p.value) ==> k in d.entries)
      && p.size == |EncodeEntries(d, Keys(p.value))| + 1 + p.surplus
      && (p.surplus == 0 ==> EncodeEntries(d, Keys(p.value)) + [END] == s[..p.size])
    decreases |s|, 4
  {
    hide ParseValue, ParseEntry, Encode, EncodeString, Encodable;
    if s[0] != END {
      hide ParseEntries;
      EntriesUncons(s, depth, previous);
      ParseThenPrintEntry(s, depth, previous);
      var e := ParseEntry(s, depth, previous).value;
      var r := ParseEntries(s[e.size..], depth, Some(e.value.key)).value;
      KeysCons(e.value, r.value);
      assert EntriesFor(r.value, Keys(r.value), d.entries) by { EntriesForTail(e.value, r.value, d.entries); }
      ParseThenPrintEntries(s[e.size..], depth, Some(e.value.key), d);
      var keys := Keys([e.value] + r.value);
      assert keys[1..] == Keys(r.value);
      assert s[..e.size + r.size] == s[..e.size] + s[e.size..][..r.size];
      assert EncodeEntries(d, keys) + [END] ==
        EncodeString(e.value.key) + Encode(e.value.value) + (EncodeEntries(d, Keys(r.value)) + [END]);
    }
  }

  lemma {:induction false} EntriesForTail(first: Entry, rest: seq<Entry>, m: map<Bytes, Value>)
    requires EntriesFor([first] + rest, Keys([first] + rest), m)
    ensures EntriesFor(rest, Keys(rest), m) && first.key in m && m[first.key] == first.value
  {
    KeysCons(first, rest);
    var all := [first] + rest;
    assert Keys(all)[0] == first.key;
    forall i | 0 <= i < |rest|
      ensures rest[i].key == Keys(rest)[i] && Keys(rest)[i] in m && rest[i].value == m[Keys(rest)[i]]
    {
      assert all[i + 1] == rest[i] && Keys(all)[i + 1] == Keys(rest)[i];
    }
  }

  lemma {:induction false} ParseThenPrintEntry(s: Bytes, depth: nat, previous: Option<Bytes>)
    requires s != [] && ParseEntry(s, depth, previous).Ok?
    ensures var e := ParseEntry(s, depth, previous).value;
      && |e.value.key| <= MAX_STRING_LENGTH && Encodable(e.value.value, MAX_NESTING_DEPTH - depth)
      && e.size == |EncodeString(e.value.key)| + |Encode(e.value.value)| + e.surplus
      && (e.surplus == 0 ==> EncodeString(e.value.key) + Encode(e.value.value) == s[..e.size])
    decreases |s|, 3
  {
    hide ParseValue, EncodeString, Less;
    EntryUncons(s, depth, previous);
    var k := ParseValue(s, depth).value;
    var v := ParseValue(s[k.size..], depth).value;
    ParseThenPrint(s, depth);
    ParseThenPrint(s[k.size..], depth);
    assert Encode(k.value) == EncodeString(k.value.s);
    assert s[..k.size + v.size] == s[..k.size] + s[k.size..][..v.size];
  }
}
