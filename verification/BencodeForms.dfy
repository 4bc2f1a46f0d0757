/** Bencoded data byte for byte: what values look like on the wire, and exactly where the decoder's limits are. */
module BencodeForms {
  import opened Base
  import opened Bencode
  import opened BencodeLaws
  import opened Decimal

  // ----- numbers -----

  lemma {:induction false} PrintDigit(n: nat)
    requires n >= 10
    ensures Print(n) == Print(n / 10) + [ZERO + n % 10]
  {
  }

  /** Most significant digit first, in the characters '0' to '9'. */
  lemma {:induction false} PrintedNumbers()
    ensures Print(0) == Ascii("0") && Print(7) == Ascii("7") && Print(42) == Ascii("42")
    ensures Print(1234567890) == Ascii("1234567890")
  {
    PrintDigit(42);
    PrintDigit(1234567890);
    PrintDigit(123456789);
    PrintDigit(12345678);
    PrintDigit(1234567);
    PrintDigit(123456);
    PrintDigit(12345);
    PrintDigit(1234);
    PrintDigit(123);
    PrintDigit(12);
  }

  // ----- values -----

  /** Each kind of value, as it is written. */
  lemma {:induction false} WrittenValues(n: int, text: Bytes)
    ensures n >= 0 ==> Encode(Int(n)) == Ascii("i") + Print(n) + Ascii("e")
    ensures n < 0 ==> Encode(Int(n)) == Ascii("i-") + Print(-n) + Ascii("e")
    ensures Encode(Str(text)) == Print(|text|) + Ascii(":") + text
  {
    hide Print;
    assert Ascii("i") == [INTEGER] && Ascii("e") == [END] && Ascii(":") == [COLON] && Ascii("i-") == [INTEGER, MINUS];
  }

  /** A list is its items between markers. */
  lemma {:induction false} WrittenLists(items: seq<Value>, last: Value)
    ensures Encode(List([])) == Ascii("le")
    ensures exists body ::
      && Encode(List(items)) == Ascii("l") + body + Ascii("e")
      && Encode(List(items + [last])) == Ascii("l") + body + Encode(last) + Ascii("e")
  {
    hide Encode, EncodeItems;
    assert Ascii("l") == [LIST] && Ascii("e") == [END] && Ascii("le") == [LIST, END];
    ListEncodes([]);
    ListEncodes(items);
    ListEncodes(items + [last]);
    ItemsSnoc(items, last);
    var body := EncodeItems(items);
    assert Encode(List(items)) == Ascii("l") + body + Ascii("e");
    assert Encode(List(items + [last])) == Ascii("l") + body + Encode(last) + Ascii("e");
  }

  lemma {:induction false} ListEncodes(items: seq<Value>)
    ensures Encode(List(items)) == [LIST] + EncodeItems(items) + [END] && EncodeItems([]) == []
  {
  }

  lemma {:induction false} ItemsSnoc(items: seq<Value>, last: Value)
    ensures EncodeItems(items + [last]) == EncodeItems(items) + Encode(last)
  {
    hide Encode;
    if items == [] {
      assert items + [last] == [last];
      assert [last][1..] == [];
    } else {
      assert (items + [last])[1..] == items[1..] + [last];
      ItemsSnoc(items[1..], last);
    }
  }

  /** A dictionary is its entries between markers, lowest key first. */
  lemma {:induction false} WrittenDictionary(first: Bytes, second: Bytes, v: Value, w: Value)
    requires Precedes(first, second)
    ensures Encode(Dict(map[second := w, first := v])) ==
      Ascii("d") + Encode(Str(first)) + Encode(v) + Encode(Str(second)) + Encode(w) + Ascii("e")
  {
    hide Encode, SortedKeys, EncodeEntries, EncodeString, Less, Precedes;
    LessMeans(first, second);
    LessIsTotal(first, second);
    var d, keys := Dict(map[second := w, first := v]), [first, second];
    AscendingIsSorted(d.entries.Keys, keys);
    DictIs(d);
    assert Ascii("d") == [DICT] && Ascii("e") == [END];
    EncodeEntriesCons(d, keys);
    assert keys[1..] == [second];
    EncodeEntriesCons(d, [second]);
    var none: seq<Bytes> := [];
    assert [second][1..] == none;
    NoEntriesEncode(d);
    StringIs(first);
    StringIs(second);
  }

  lemma {:induction false} DictIs(d: Value)
    requires d.Dict?
    ensures Encode(d) == [DICT] + EncodeEntries(d, SortedKeys(d.entries.Keys)) + [END]
  {
  }

  lemma {:induction false} NoEntriesEncode(d: Value)
    requires d.Dict?
    ensures EncodeEntries(d, []) == []
  {
  }

  lemma {:induction false} StringIs(s: Bytes)
    ensures Encode(Str(s)) == EncodeString(s)
  {
  }

  // ----- limits -----

  /** A length prefix is read to the end, then checked against the limit, and only then against what follows. */
  lemma {:induction false} StringsAreRead(digits: Bytes, rest: Bytes, depth: nat)
    requires digits != [] && AllDigits(digits)
    ensures var n, r := Number(digits), ParseValue(digits + Ascii(":") + rest, depth);
      if n > 0x7FFF_FFFF_FFFF_FFFF then r == Err(InvalidStringLen)
      else if n > 33554432 then r == Err(LimitExceeded)
      else if n > |rest| then r == Err(UnexpectedEOF)
      else r.Ok? && r.value.value == Str(rest[..n]) && r.value.size == |digits| + 1 + n
  {
    hide Number, Print;
    var s := digits + Ascii(":") + rest;
    assert Ascii(":") == [COLON];
    IndexAfter(digits, COLON, rest);
    assert s[..|digits|] == digits;
    var n := Number(digits);
    if n <= |rest| { assert s[|digits| + 1..|digits| + 1 + n] == rest[..n]; }
  }

  /** A list in a list, and so on; levels in all. */
  function Nested(levels: nat): Value
    requires levels > 0
  {
    if levels == 1 then List([]) else List([Nested(levels - 1)])
  }

  lemma {:induction false} NestedEncodes(levels: nat)
    requires levels > 0
    ensures Encode(Nested(levels)) == [LIST] + (if levels == 1 then [] else Encode(Nested(levels - 1))) + [END]
  {
    if levels > 1 {
      ListEncodes([Nested(levels - 1)]);
      ItemsSnoc([], Nested(levels - 1));
      assert [] + [Nested(levels - 1)] == [Nested(levels - 1)];
    }
  }

  lemma {:induction false} NestedIsRead(levels: nat, t: Bytes, depth: nat)
    requires levels > 0
    ensures var v := Nested(levels);
      ParseValue(Encode(v) + t, depth) ==
        if depth + levels <= 100 then Ok(Parsed(v, |Encode(v)|, 0)) else Err(LimitExceeded)
  {
    hide Encode, ParseValue, ParseItems;
    NestedEncodes(levels);
    var inner := if levels == 1 then [] else Encode(Nested(levels - 1));
    var body := inner + ([END] + t);
    assert Encode(Nested(levels)) + t == [LIST] + body;
    ListIsRead(body, depth);
    if levels == 1 {
      assert body == [END] + t;
      EndIsRead(t, depth + 1);
    } else {
      NestedIsRead(levels - 1, [END] + t, depth + 1);
      EndIsRead(t, depth + 1);
      NestedEncodes(levels - 1);
      FirstItemIsRead(inner, [END] + t, depth + 1);
    }
  }

  lemma {:induction false} ListIsRead(body: Bytes, depth: nat)
    ensures ParseValue([LIST] + body, depth) ==
      if depth >= 100 then Err(LimitExceeded)
      else match ParseItems(body, depth + 1)
        case Err(e) => Err(e)
        case Ok(p) => Ok(Parsed(List(p.value), 1 + p.size, p.surplus))
  {
    hide ParseItems;
    assert ([LIST] + body)[1..] == body;
  }

  lemma {:induction false} EndIsRead(t: Bytes, depth: nat)
    ensures ParseItems([END] + t, depth) == Ok(Parsed([], 1, 0))
  {
  }

  lemma {:induction false} FirstItemIsRead(first: Bytes, rest: Bytes, depth: nat)
    requires first != [] && first[0] != END && ParseItems(rest, depth) == Ok(Parsed([], 1, 0))
    requires ParseValue(first + rest, depth).Ok? ==> ParseValue(first + rest, depth).value.size == |first|
    ensures match ParseValue(first + rest, depth)
      case Err(e) => ParseItems(first + rest, depth) == Err(e)
      case Ok(p) => ParseItems(first + rest, depth) == Ok(Parsed([p.value], p.size + 1, p.surplus))
  {
    hide ParseValue;
    assert (first + rest)[|first|..] == rest;
    var none: seq<Value> := [];
    forall v: Value ensures [v] + none == [v] {}
  }

  /** A hundred levels of lists are read back; one more is refused. */
  lemma {:induction false} NestingLimit(levels: nat)
    requires levels > 0
    ensures ParseStrict(Encode(Nested(levels))) == if levels <= 100 then Ok(Nested(levels)) else Err(LimitExceeded)
  {
    hide ParseValue, Encode;
    NestedIsRead(levels, [], 0);
    assert Encode(Nested(levels)) + [] == Encode(Nested(levels));
  }

  // ----- errors -----

  /** What no value starts with, and what a value that breaks off is. */
  lemma {:induction false} NoValueStarts(first: Byte, rest: Bytes, depth: nat)
    ensures ParseValue([], depth) == Err(UnexpectedEOF)
    ensures first !in Ascii("ild0123456789") ==> ParseValue([first] + rest, depth) == Err(InvalidTypeMarker)
    ensures ParseItems([], depth) == Err(UnexpectedEOF) && ParseEntries([], depth, None) == Err(UnexpectedEOF)
  {
    hide ParseItems, ParseEntries;
    NothingParses(depth);
    assert Ascii("ild0123456789") == [INTEGER, LIST, DICT, 48, 49, 50, 51, 52, 53, 54, 55, 56, 57];
  }

  lemma {:induction false} NothingParses(depth: nat)
    ensures ParseItems([], depth) == Err(UnexpectedEOF) && ParseEntries([], depth, None) == Err(UnexpectedEOF)
  {
  }

  /** Whatever stands between the markers of an integer is the one way to write a 64-bit integer, or it is refused. */
  lemma {:induction false} IntegersAreRead(text: Bytes, rest: Bytes, depth: nat)
    requires 'e' as int !in text
    ensures var r := ParseValue(Ascii("i") + text + Ascii("e") + rest, depth);
      if exists n :: FitsInt64(n) && text == IntText(n) then
        r.Ok? && r.value.value.Int? && text == IntText(r.value.value.n)
      else r == Err(InvalidInteger)
    ensures ParseValue(Ascii("i") + text, depth) == Err(UnexpectedEOF)
  {
    hide Print, Number, IsNumeral, Numeral, IntText;
    assert Ascii("i") == [INTEGER] && Ascii("e") == [END];
    var s := Ascii("i") + text + Ascii("e") + rest;
    assert s[1..] == text + [END] + rest;
    IndexAfter(text, END, rest);
    assert s[1..1 + |text|] == text;
    assert (Ascii("i") + text)[1..] == text;
    if ValidIntegerString(text) { NumeralIsIntText(text); }
    forall n | FitsInt64(n) && text == IntText(n) ensures ValidIntegerString(text) && Numeral(text) == n {
      IntTextIsNumeral(n);
    }
  }

  /** A key is a string and comes after the key before it, byte by byte; if not, the dictionary is refused at that
      key. */
  lemma {:induction false} KeysAreChecked(key: Value, rest: Bytes, depth: nat, previous: Bytes)
    requires depth <= MAX_NESTING_DEPTH && Encodable(key, MAX_NESTING_DEPTH - depth)
    ensures !key.Str? ==> ParseEntries(Encode(key) + rest, depth, Some(previous)) == Err(NonStringKey)
    ensures !key.Str? ==> ParseEntries(Encode(key) + rest, depth, None) == Err(NonStringKey)
    ensures key.Str? && !Precedes(previous, key.s) ==>
      ParseEntries(Encode(key) + rest, depth, Some(previous)) == Err(UnsortedKeys)
  {
    hide Encode, ParseValue, Less, Precedes;
    PrintThenParse(key, rest, depth);
    FirstByte(key);
    if key.Str? { LessMeans(previous, key.s); }
  }
}
