/** Where the values of a decoded dictionary stand in the input, and that each of them can be decoded on its own. */
module Spans {
  import opened Base
  import opened Bencode
  import opened BencodeLaws
  import opened Decimal

  // ----- decoding depends on nothing but the bytes consumed -----

  lemma {:induction false} IndexStable(s: Bytes, t: Bytes, b: Byte)
    requires IndexOf(s, b) < |s| && s[..IndexOf(s, b) + 1] <= t
    ensures IndexOf(t, b) == IndexOf(s, b)
  {
    var i := IndexOf(s, b);
    assert t[i] == s[..i + 1][i] == b;
    assert forall k :: 0 <= k < i ==> t[k] == s[..i + 1][k] == s[k];
  }

  lemma {:induction false} StringStable(s: Bytes, t: Bytes)
    requires ParseString(s).Ok? && s[..ParseString(s).value.size] <= t
    ensures ParseString(t) == ParseString(s)
  {
    hide Print, Number;
    var colon, n := IndexOf(s, COLON), ParseString(s).value.size;
    assert s[..n][..colon + 1] == s[..colon + 1];
    IndexStable(s, t, COLON);
    assert t[..colon] == s[..colon];
    assert t[colon + 1..n] == s[colon + 1..n];
  }

  lemma {:induction false} IntegerStable(s: Bytes, t: Bytes)
    requires s != [] && s[0] == INTEGER && ParseInteger(s).Ok? && s[..ParseInteger(s).value.size] <= t
    ensures ParseInteger(t) == ParseInteger(s)
  {
    var n := ParseInteger(s).value.size;
    ParseThenPrintInteger(s);
    PrintThenParseInteger(ParseInteger(s).value.value.n, t[n..]);
    assert t == s[..n] + t[n..];
  }

  lemma {:induction false} TailPrefix(s: Bytes, t: Bytes, m: nat, n: nat)
    requires m <= n <= |s| && s[..n] <= t
    ensures |t| >= m && s[..m] <= t && s[m..][..n - m] <= t[m..]
  {
    assert t[..n] == s[..n];
    assert t[m..][..n - m] == t[..n][m..] == s[..n][m..];
  }

  /** A value is decoded the same way from any stream that begins with the bytes it took, at any smaller depth. */
  lemma {:induction false} DecodingIsLocal(s: Bytes, t: Bytes, depth: nat, shallower: nat)
    requires ParseValue(s, depth).Ok? && s[..ParseValue(s, depth).value.size] <= t && shallower <= depth
    ensures ParseValue(t, shallower) == ParseValue(s, depth)
    decreases |s|, 2
  {
    hide ParseInteger, ParseString, ParseItems, ParseEntries, MapOf;
    var n := ParseValue(s, depth).value.size;
    assert t[0] == s[..n][0] == s[0];
    if s[0] == INTEGER {
      IntegerStable(s, t);
    } else if s[0] == LIST {
      TailPrefix(s, t, 1, n);
      ItemsAreLocal(s[1..], t[1..], depth + 1, shallower + 1);
    } else if s[0] == DICT {
      TailPrefix(s, t, 1, n);
      EntriesAreLocal(s[1..], t[1..], depth + 1, shallower + 1, None);
    } else {
      StringStable(s, t);
    }
  }

  lemma {:induction false} ItemsAreLocal(s: Bytes, t: Bytes, depth: nat, shallower: nat)
    requires ParseItems(s, depth).Ok? && s[..ParseItems(s, depth).value.size] <= t && shallower <= depth
    ensures ParseItems(t, shallower) == ParseItems(s, depth)
    decreases |s|, 3
  {
    hide ParseValue;
    var n := ParseItems(s, depth).value.size;
    assert t[0] == s[..n][0] == s[0];
    if s[0] != END {
      ItemsUncons(s, depth);
      var m := ParseValue(s, depth).value.size;
      TailPrefix(s, t, m, n);
      DecodingIsLocal(s, t, depth, shallower);
      ItemsAreLocal(s[m..], t[m..], depth, shallower);
    }
  }

  lemma {:induction false} EntriesAreLocal(s: Bytes, t: Bytes, depth: nat, shallower: nat, previous: Option<Bytes>)
    requires ParseEntries(s, depth, previous).Ok? && s[..ParseEntries(s, depth, previous).value.size] <= t
    requires shallower <= depth
    ensures ParseEntries(t, shallower, previous) == ParseEntries(s, depth, previous)
    decreases |s|, 4
  {
    hide ParseEntry;
    var n := ParseEntries(s, depth, previous).value.size;
    assert t[0] == s[..n][0] == s[0];
    if s[0] != END {
      EntriesUncons(s, depth, previous);
      var e := ParseEntry(s, depth, previous).value;
      TailPrefix(s, t, e.size, n);
      EntryIsLocal(s, t, depth, shallower, previous);
      EntriesAreLocal(s[e.size..], t[e.size..], depth, shallower, Some(e.value.key));
    }
  }

  lemma {:induction false} EntryIsLocal(s: Bytes, t: Bytes, depth: nat, shallower: nat, previous: Option<Bytes>)
    requires s != [] && ParseEntry(s, depth, previous).Ok? && s[..ParseEntry(s, depth, previous).value.size] <= t
    requires t != [] && shallower <= depth
    ensures ParseEntry(t, shallower, previous) == ParseEntry(s, depth, previous)
    decreases |s|, 3
  {
    hide ParseValue, Less;
    EntryUncons(s, depth, previous);
    var n, m := ParseEntry(s, depth, previous).value.size, ParseValue(s, depth).value.size;
    TailPrefix(s, t, m, n);
    DecodingIsLocal(s, t, depth, shallower);
    DecodingIsLocal(s[m..], t[m..], depth, shallower);
  }

  // ----- spans -----

  /** Bytes [start, end) of the input. */
  datatype Span = Span(start: nat, end: nat)

  /** How many bytes the first i entries took. */
  function Offset(entries: seq<Entry>, i: nat): nat
    requires i <= |entries|
  {
    if i == 0 then 0 else Offset(entries, i - 1) + entries[i - 1].keySize + entries[i - 1].valueSize
  }

  /** Where the value of entry i stands, when the first entry stands at base. */
  function SpanOf(entries: seq<Entry>, base: nat, i: nat): Span
    requires i < |entries|
  {
    var start := base + Offset(entries, i) + entries[i].keySize;
    Span(start, start + entries[i].valueSize)
  }

  /** The spans a decoder records while reading the entries. */
  function SpansOf(entries: seq<Entry>, base: nat): map<Bytes, Span> {
    if entries == [] then map[]
    else
      var n := |entries| - 1;
      SpansOf(entries[..n], base)[entries[n].key := SpanOf(entries, base, n)]
  }

  lemma {:induction false} OffsetCons(first: Entry, rest: seq<Entry>, i: nat)
    requires i <= |rest|
    ensures Offset([first] + rest, i + 1) == first.keySize + first.valueSize + Offset(rest, i)
  {
    if i > 0 { OffsetCons(first, rest, i - 1); }
  }

  lemma {:induction false} OffsetInit(entries: seq<Entry>, i: nat, n: nat)
    requires i <= n <= |entries|
    ensures Offset(entries[..n], i) == Offset(entries, i)
  {
    if i > 0 { OffsetInit(entries, i - 1, n); }
  }

  /** What stands in a stream at some span: this value and no more, with at most this many leading zeros to spare. */
  predicate StandsAt(s: Bytes, depth: nat, span: Span, v: Value, surplus: nat) {
    && span.start <= span.end <= |s|
    && var p := ParseValue(s[span.start..], depth);
       p.Ok? && p.value.value == v && p.value.size == span.end - span.start && p.value.surplus <= surplus
  }

  lemma {:induction false} StandsFurther(
    s: Bytes, depth: nat, skip: nat, span: Span, v: Value, less: nat, surplus: nat)
    requires skip <= |s| && StandsAt(s[skip..], depth, span, v, less) && less <= surplus
    ensures StandsAt(s, depth, Span(skip + span.start, skip + span.end), v, surplus)
  {
    hide ParseValue;
    assert s[skip..][span.start..] == s[skip + span.start..];
  }

  /** The value of entry i is what is read at its offset, and it ends before the dictionary does. */
  lemma {:induction false} EntryStandsAtOffset(s: Bytes, depth: nat, previous: Option<Bytes>, i: nat)
    requires ParseEntries(s, depth, previous).Ok? && i < |ParseEntries(s, depth, previous).value.value|
    ensures var p := ParseEntries(s, depth, previous).value;
      SpanOf(p.value, 0, i).end < p.size && StandsAt(s, depth, SpanOf(p.value, 0, i), p.value[i].value, p.surplus)
    decreases |s|
  {
    hide ParseValue, ParseEntry, Offset, Less, StandsAt;
    if s[0] != END {
      hide ParseEntries;
      EntriesUncons(s, depth, previous);
      var e := ParseEntry(s, depth, previous).value;
      var r := ParseEntries(s[e.size..], depth, Some(e.value.key)).value;
      if i == 0 {
        FirstStands(s, depth, previous, r.value, e.surplus + r.surplus);
      } else {
        EntryStandsAtOffset(s[e.size..], depth, Some(e.value.key), i - 1);
        OffsetCons(e.value, r.value, i - 1);
        EntryTakesItsParts(s, depth, previous);
        StandsFurther(
          s, depth, e.size, SpanOf(r.value, 0, i - 1), r.value[i - 1].value, r.surplus, e.surplus + r.surplus);
      }
    }
  }

  lemma {:induction false} EntryTakesItsParts(s: Bytes, depth: nat, previous: Option<Bytes>)
    requires s != [] && ParseEntry(s, depth, previous).Ok?
    ensures var e := ParseEntry(s, depth, previous).value; e.value.keySize + e.value.valueSize == e.size
  {
    hide ParseValue, Less;
  }

  lemma {:induction false} FirstStands(
    s: Bytes, depth: nat, previous: Option<Bytes>, others: seq<Entry>, surplus: nat)
    requires s != [] && ParseEntry(s, depth, previous).Ok? && ParseEntry(s, depth, previous).value.surplus <= surplus
    ensures var e := ParseEntry(s, depth, previous).value;
      var span := SpanOf([e.value] + others, 0, 0);
      span.end == e.size && StandsAt(s, depth, span, e.value.value, surplus)
  {
    hide ParseValue, Less;
    EntryUncons(s, depth, previous);
    assert Offset([ParseEntry(s, depth, previous).value.value] + others, 0) == 0;
  }

  /** For a top-level dictionary: spans stand in key order without overlapping, inside the dictionary, and the bytes of
      each one alone decode to that key's value, with no more leading zeros than the dictionary has. */
  lemma {:induction false} SpansDecodeAlone(s: Bytes, i: nat)
    requires s != [] && s[0] == DICT && ParseDict(s, 0).Ok? && i < |ParseDict(s, 0).value.value|
    ensures var p := ParseDict(s, 0).value;
      var span := SpanOf(p.value, 1, i);
      && 1 < span.start < span.end < p.size
      && (i + 1 < |p.value| ==> span.end < SpanOf(p.value, 1, i + 1).start && Less(p.value[i].key, p.value[i + 1].key))
      && ParseStrict(s[span.start..span.end]) == Ok(p.value[i].value)
      && ParseValue(s[span.start..span.end], 0).value.surplus <= p.surplus
  {
    hide ParseValue, ParseEntries, Less;
    var p := ParseDict(s, 0).value;
    var span := SpanOf(p.value, 1, i);
    EntryStandsAtOffset(s[1..], 1, None, i);
    StandsFurther(s, 1, 1, SpanOf(p.value, 0, i), p.value[i].value, p.surplus, p.surplus);
    EntriesTakeBytes(s[1..], 1, None, i);
    if i + 1 < |p.value| {
      EntriesTakeBytes(s[1..], 1, None, i + 1);
      KeysFollow(s, i);
    }
    var alone := s[span.start..span.end];
    assert s[span.start..][..span.end - span.start] == alone;
    DecodingIsLocal(s[span.start..], alone, 1, 0);
  }

  lemma {:induction false} KeysFollow(s: Bytes, i: nat)
    requires s != [] && s[0] == DICT && ParseDict(s, 0).Ok? && i + 1 < |ParseDict(s, 0).value.value|
    ensures Less(ParseDict(s, 0).value.value[i].key, ParseDict(s, 0).value.value[i + 1].key)
  {
    hide ParseEntries, Less;
    var entries := ParseDict(s, 0).value.value;
    EntriesAscend(s[1..], 1, None);
    assert Keys(entries)[i] == entries[i].key && Keys(entries)[i + 1] == entries[i + 1].key;
    assert Ascending(Keys(entries));
  }

  lemma {:induction false} EntriesTakeBytes(s: Bytes, depth: nat, previous: Option<Bytes>, i: nat)
    requires ParseEntries(s, depth, previous).Ok? && i < |ParseEntries(s, depth, previous).value.value|
    ensures ParseEntries(s, depth, previous).value.value[i].keySize >= 1
    ensures ParseEntries(s, depth, previous).value.value[i].valueSize >= 1
    decreases |s|
  {
    hide ParseValue, ParseEntry;
    if s[0] != END {
      hide ParseEntries;
      EntriesUncons(s, depth, previous);
      EntryUncons(s, depth, previous);
      var e := ParseEntry(s, depth, previous).value;
      if i > 0 { EntriesTakeBytes(s[e.size..], depth, Some(e.value.key), i - 1); }
    }
  }

  lemma {:induction false} SpanInit(entries: seq<Entry>, base: nat, i: nat)
    requires i < |entries| - 1
    ensures SpanOf(entries[..|entries| - 1], base, i) == SpanOf(entries, base, i)
  {
    OffsetInit(entries, i, |entries| - 1);
  }

  /** The recorded map holds, for every key, exactly the span of its entry. */
  lemma {:induction false} SpansAreRecorded(entries: seq<Entry>, base: nat)
    requires Ascending(Keys(entries))
    ensures forall k :: k in SpansOf(entries, base) <==> k in Keys(entries)
    ensures forall i :: 0 <= i < |entries| ==>
      Keys(entries)[i] in SpansOf(entries, base) && SpansOf(entries, base)[Keys(entries)[i]] == SpanOf(entries, base, i)
  {
    hide Ascending, SpanOf;
    if entries != [] {
      var n := |entries| - 1;
      var init, last := entries[..n], entries[n];
      assert Keys(entries)[..n] == Keys(init);
      AscendingInit(Keys(entries));
      SpansAreRecorded(init, base);
      assert Keys(entries) == Keys(init) + [last.key];
      forall i | 0 <= i < |entries|
        ensures Keys(entries)[i] in SpansOf(entries, base)
        ensures SpansOf(entries, base)[Keys(entries)[i]] == SpanOf(entries, base, i)
      {
        if i < n {
          assert Keys(entries)[i] == Keys(init)[i] && Keys(init)[i] in Keys(init);
          SpanInit(entries, base, i);
        }
      }
    }
  }
}
