/** The codec laws: strict decoding inverts encoding exactly, lenient decoding preserves size, and
    a value can be read off the front of any buffer. */
module BencodeProofs {
  import opened Basics
  import opened Digits
  import opened BencodeSpec

  // --------------------------------------------------------------------- tokens

  lemma IntRoundTrip(i: int, start: nat)
    requires |IntText(i)| <= MAX_INT_DIGITS
    ensures IntOf(IntText(i), start).Ok? && IntOf(IntText(i), start).value == i
  {
    if i < 0 {
      NegativeReadsBack(-i, start);
    } else {
      NaturalReadsBack(i, start);
    }
  }

  lemma NaturalReadsBack(n: nat, start: nat)
    requires |Decimal(n)| <= MAX_INT_DIGITS
    ensures IntOf(Decimal(n), start).Ok? && IntOf(Decimal(n), start).value == n
  {
    assert IsDigit(Decimal(n)[0]);
    NumberOfDecimal(n);
  }

  lemma NegativeReadsBack(n: nat, start: nat)
    requires n > 0 && |Decimal(n)| < MAX_INT_DIGITS
    ensures var r := IntOf([TOKEN_MINUS] + Decimal(n), start); r.Ok? && r.value + n == 0
  {
    assert ([TOKEN_MINUS] + Decimal(n))[1..] == Decimal(n);
    NumberOfDecimal(n);
  }

  lemma IntCanonical(raw: seq<byte>, start: nat)
    requires IntOf(raw, start).Ok?
    ensures IntText(IntOf(raw, start).value) == raw && |raw| <= MAX_INT_DIGITS
  {
    var negative := raw[0] == TOKEN_MINUS;
    var digits := if negative then raw[1..] else raw;
    DecimalOfNumber(digits);
    if negative {
      if |digits| == 1 {
        assert digits == [digits[0]];
      }
      assert raw == [TOKEN_MINUS] + digits;
    }
  }

  /** The first occurrence of a byte that the text before it does not contain. */
  lemma FindAt(data: seq<byte>, b: byte, from: nat, at: nat)
    requires from <= at < |data| && data[at] == b && forall i :: from <= i < at ==> data[i] != b
    ensures Find(data, b, from) == at
  {
  }

  /** Part of a text found in the buffer is found where it belongs. */
  lemma Inside(data: seq<byte>, pos: nat, enc: seq<byte>, i: nat, j: nat)
    requires pos + |enc| <= |data| && data[pos..pos + |enc|] == enc && i <= j <= |enc|
    ensures data[pos + i..pos + j] == enc[i..j]
  {
    forall k | 0 <= k < j - i
      ensures data[pos + i..pos + j][k] == enc[i..j][k]
    {
      assert data[pos..pos + |enc|][i + k] == enc[i + k];
    }
  }

  lemma IntComplete(data: seq<byte>, pos: nat, i: int)
    requires |IntText(i)| <= MAX_INT_DIGITS
    requires pos + |Encode(Int(i))| <= |data| && data[pos..pos + |Encode(Int(i))|] == Encode(Int(i))
    ensures var r := ParseInt(data, pos); r.Ok? && r.value.0 == Int(i) && r.value.1 == pos + |Encode(Int(i))|
  {
    var text, enc := IntText(i), Encode(Int(i));
    var at := pos + 1 + |text|;
    Inside(data, pos, enc, 1, 1 + |text|);
    Inside(data, pos, enc, 1 + |text|, |enc|);
    assert enc[1..1 + |text|] == text;
    assert data[at..at + 1] == [TOKEN_END];
    forall j | pos + 1 <= j < at
      ensures data[j] != TOKEN_END
    {
      assert data[j] == text[j - pos - 1];
    }
    FindAt(data, TOKEN_END, pos + 1, at);
    IntRoundTrip(i, pos);
  }

  lemma Surrounded(data: seq<byte>, pos: nat, end: nat)
    requires pos < end < |data|
    ensures data[pos..end + 1] == [data[pos]] + data[pos + 1..end] + [data[end]]
  {
  }

  lemma IntSound(data: seq<byte>, pos: nat)
    requires pos < |data| && data[pos] == TOKEN_INT && ParseInt(data, pos).Ok?
    ensures var (v, end) := ParseInt(data, pos).value;
            v.Int? && data[pos..end] == Encode(v) && |IntText(v.i)| <= MAX_INT_DIGITS
  {
    var end := Find(data, TOKEN_END, pos + 1);
    IntCanonical(data[pos + 1..end], pos);
    Surrounded(data, pos, end);
  }

  lemma BytesComplete(data: seq<byte>, pos: nat, b: seq<byte>)
    requires |Decimal(|b|)| <= MAX_LENGTH_DIGITS
    requires Holds(data, pos, EncodeBytes(b))
    ensures var r := ParseBytes(data, pos); r.Ok? && r.value.0 == Bytes(b) && r.value.1 == pos + |EncodeBytes(b)|
  {
    var text := Decimal(|b|);
    BytesParts(data, pos, b);
    forall j | pos <= j < pos + |text|
      ensures data[j] != TOKEN_COLON
    {
      assert data[j] == data[pos..pos + |text|][j - pos];
      assert IsDigit(text[j - pos]);
    }
    FindAt(data, TOKEN_COLON, pos, pos + |text|);
    NumberOfDecimal(|b|);
  }

  lemma BytesParts(data: seq<byte>, pos: nat, b: seq<byte>)
    requires Holds(data, pos, EncodeBytes(b))
    ensures var colon := pos + |Decimal(|b|)|;
            && Holds(data, pos, Decimal(|b|)) && colon < |data| && data[colon] == TOKEN_COLON
            && Holds(data, colon + 1, b) && colon + 1 + |b| == pos + |EncodeBytes(b)|
  {
    var text := Decimal(|b|);
    LengthThenBytes(b);
    HoldsParts(data, pos, text, [TOKEN_COLON] + b);
    ColonThenBytes(data, pos + |text|, b);
  }

  lemma LengthThenBytes(b: seq<byte>)
    ensures EncodeBytes(b) == Decimal(|b|) + ([TOKEN_COLON] + b)
  {
  }

  lemma ColonThenBytes(data: seq<byte>, at: nat, b: seq<byte>)
    requires Holds(data, at, [TOKEN_COLON] + b)
    ensures at < |data| && data[at] == TOKEN_COLON && Holds(data, at + 1, b)
  {
    HoldsHead(data, at, [TOKEN_COLON] + b);
    HoldsParts(data, at, [TOKEN_COLON], b);
  }

  lemma BytesSound(data: seq<byte>, pos: nat)
    requires pos < |data| && ParseBytes(data, pos).Ok?
    ensures var (v, end) := ParseBytes(data, pos).value;
            v.Bytes? && data[pos..end] == EncodeBytes(v.b) && |Decimal(|v.b|)| <= MAX_LENGTH_DIGITS
  {
    var colon := Find(data, TOKEN_COLON, pos);
    var digits := data[pos..colon];
    DecimalOfNumber(digits);
    var end := ParseBytes(data, pos).value.1;
    assert data[pos..end] == digits + [data[colon]] + data[colon + 1..end];
  }

  // -------------------------------------------------------------------- entries

  ghost predicate Distinct(entries: seq<Entry>) {
    forall i, j :: 0 <= i < j < |entries| ==> entries[i].key != entries[j].key
  }

  ghost predicate Good(c: Limits, entries: seq<Entry>) {
    Distinct(entries) && (c.requireSorted ==> Ascending(KeysOf(entries)))
  }

  lemma {:induction false} MapHasEntries(entries: seq<Entry>)
    requires Distinct(entries)
    ensures forall k :: k in MapOf(entries) <==> k in KeysOf(entries)
    ensures forall i :: 0 <= i < |entries| ==>
              entries[i].key in MapOf(entries) && MapOf(entries)[entries[i].key] == entries[i].value
  {
    if entries != [] {
      var front, last := entries[..|entries| - 1], entries[|entries| - 1];
      MapHasEntries(front);
      assert KeysOf(entries) == KeysOf(front) + [last.key];
      forall i | 0 <= i < |entries|
        ensures entries[i].key in MapOf(entries) && MapOf(entries)[entries[i].key] == entries[i].value
      {
        if i < |front| {
          assert front[i] == entries[i];
        }
      }
    }
  }

  /** The text of entries in the order they stand. */
  ghost function EncodeEntries(entries: seq<Entry>): seq<byte> {
    if entries == [] then []
    else EncodeBytes(entries[0].key) + Encode(entries[0].value) + EncodeEntries(entries[1..])
  }

  lemma {:induction false} PairsOfEntries(d: Value, entries: seq<Entry>)
    requires d.Dict? && forall i :: 0 <= i < |entries| ==>
              entries[i].key in d.entries && d.entries[entries[i].key] == entries[i].value
    ensures forall k :: k in KeysOf(entries) ==> k in d.entries
    ensures EncodePairs(d, KeysOf(entries)) == EncodeEntries(entries)
  {
    if entries != [] {
      PairsOfEntries(d, entries[1..]);
      assert KeysOf(entries)[1..] == KeysOf(entries[1..]);
    }
  }

  // ------------------------------------------- the order of keys costs no bytes

  ghost predicate NoRepeats(keys: seq<seq<byte>>) {
    forall i, j :: 0 <= i < j < |keys| ==> keys[i] != keys[j]
  }

  lemma {:induction false} PairsConcat(d: Value, a: seq<seq<byte>>, b: seq<seq<byte>>)
    requires d.Dict? && forall k :: k in a + b ==> k in d.entries
    ensures forall k :: k in a ==> k in d.entries
    ensures forall k :: k in b ==> k in d.entries
    ensures EncodePairs(d, a + b) == EncodePairs(d, a) + EncodePairs(d, b)
  {
    InConcat(a, b);
    if a == [] {
      assert a + b == b;
    } else {
      TailOfConcat(a, b);
      PairsConcat(d, a[1..], b);
    }
  }

  lemma InConcat(a: seq<seq<byte>>, b: seq<seq<byte>>)
    ensures forall k :: k in a + b <==> k in a || k in b
  {
  }

  lemma TailOfConcat(a: seq<seq<byte>>, b: seq<seq<byte>>)
    requires a != []
    ensures (a + b)[0] == a[0] && (a + b)[1..] == a[1..] + b
    ensures forall k :: k in a[1..] + b ==> k in a + b
  {
  }

  /** Removing one key from a listing of distinct keys. */
  lemma WithoutOne(b: seq<seq<byte>>, i: nat)
    requires NoRepeats(b) && i < |b|
    ensures NoRepeats(b[..i] + b[i + 1..])
    ensures forall x :: x in b[..i] + b[i + 1..] <==> x in b && x != b[i]
  {
    var rest := b[..i] + b[i + 1..];
    forall x
      ensures x in rest <==> x in b && x != b[i]
    {
      if x in b && x != b[i] {
        var j :| 0 <= j < |b| && b[j] == x;
        assert rest[if j < i then j else j - 1] == x;
      }
    }
  }

  /** A key contributes the same bytes wherever it stands. */
  lemma TakeOut(d: Value, b: seq<seq<byte>>, i: nat)
    requires d.Dict? && i < |b| && forall k :: k in b ==> k in d.entries
    ensures forall k :: k in b[..i] + b[i + 1..] ==> k in d.entries
    ensures |EncodePairs(d, b)| ==
            |EncodeBytes(b[i])| + |Encode(d.entries[b[i]])| + |EncodePairs(d, b[..i] + b[i + 1..])|
  {
    assert b == b[..i] + b[i..];
    PairsConcat(d, b[..i], b[i..]);
    assert b[i..][1..] == b[i + 1..];
    assert forall k :: k in b[..i] + b[i + 1..] ==> k in b;
    PairsConcat(d, b[..i], b[i + 1..]);
  }

  lemma SameRest(a: seq<seq<byte>>, b: seq<seq<byte>>, i: nat)
    requires NoRepeats(a) && NoRepeats(b) && a != [] && i < |b| && b[i] == a[0]
    requires forall k :: k in a <==> k in b
    ensures NoRepeats(a[1..]) && NoRepeats(b[..i] + b[i + 1..])
    ensures forall k :: k in a[1..] <==> k in b[..i] + b[i + 1..]
    ensures forall k :: k in a[1..] ==> k in a
  {
    WithoutOne(b, i);
    WithoutOne(a, 0);
    assert a[..0] + a[1..] == a[1..];
    forall k
      ensures k in a[1..] <==> k in b[..i] + b[i + 1..]
    {
      assert k in a[..0] + a[1..] <==> k in a && k != a[0];
      assert k in b[..i] + b[i + 1..] <==> k in b && k != b[i];
    }
  }

  lemma {:induction false} SameKeysSameSize(d: Value, a: seq<seq<byte>>, b: seq<seq<byte>>)
    requires d.Dict? && NoRepeats(a) && NoRepeats(b)
    requires forall k :: k in a <==> k in b
    requires forall k :: k in a ==> k in d.entries
    ensures forall k :: k in b ==> k in d.entries
    ensures |EncodePairs(d, a)| == |EncodePairs(d, b)|
  {
    if a == [] {
      HasMember(b);
    } else {
      assert a[0] in b;
      var i :| 0 <= i < |b| && b[i] == a[0];
      SameRest(a, b, i);
      TakeOut(d, b, i);
      SameKeysSameSize(d, a[1..], b[..i] + b[i + 1..]);
    }
  }

  /** A dictionary read entry by entry: its canonical text has the size of the entries, and is the
      text of the entries when they were in order. */
  lemma DictOfEntries(c: Limits, entries: seq<Entry>)
    requires Good(c, entries)
    ensures |Encode(Dict(MapOf(entries)))| == |EncodeEntries(entries)| + 2
    ensures c.requireSorted ==> Encode(Dict(MapOf(entries))) == [TOKEN_DICT] + EncodeEntries(entries) + [TOKEN_END]
  {
    var d, keys := Dict(MapOf(entries)), KeysOf(entries);
    MapHasEntries(entries);
    PairsOfEntries(d, entries);
    var sorted := Sorted(d.entries.Keys);
    assert NoRepeats(keys);
    AscendingHasNoRepeats(sorted);
    SameKeysSameSize(d, keys, sorted);
    if c.requireSorted {
      AscendingUnique(keys, sorted);
    }
  }

  lemma AscendingHasNoRepeats(keys: seq<seq<byte>>)
    requires Ascending(keys)
    ensures NoRepeats(keys)
  {
    forall i, j | 0 <= i < j < |keys|
      ensures keys[i] != keys[j]
    {
      LessIrreflexive(keys[i]);
      assert Less(keys[i], keys[j]);
    }
  }

  // ------------------------------------------------------------------- soundness

  /** `text` is what the buffer holds when order is checked, and has its size in any case. */
  ghost predicate Reads(c: Limits, data: seq<byte>, pos: nat, end: nat, text: seq<byte>) {
    pos <= end <= |data| && |text| == end - pos && (c.requireSorted ==> data[pos..end] == text)
  }

  lemma ReadsConcat(c: Limits, data: seq<byte>, pos: nat, mid: nat, end: nat, a: seq<byte>, b: seq<byte>)
    requires Reads(c, data, pos, mid, a) && Reads(c, data, mid, end, b)
    ensures Reads(c, data, pos, end, a + b)
  {
    assert data[pos..end] == data[pos..mid] + data[mid..end];
  }

  lemma ReadsByte(c: Limits, data: seq<byte>, pos: nat)
    requires pos < |data|
    ensures Reads(c, data, pos, pos + 1, [data[pos]])
  {
  }

  /** Everything accepted is the text of its value, byte for byte when sorted keys are required,
      and in size always; and it respects the limits. */
  lemma {:induction false} ValueSound(c: Limits, data: seq<byte>, pos: nat, depth: nat)
    requires c.maxDepth >= 0 && pos <= |data| && ParseValue(c, data, pos, depth).Ok?
    ensures var (v, end) := ParseValue(c, data, pos, depth).value;
            Within(v, depth, c.maxDepth) && Reads(c, data, pos, end, Encode(v))
    decreases |data| - pos, 1
  {
    if IsDigit(data[pos]) {
      BytesSound(data, pos);
    } else if data[pos] == TOKEN_INT {
      IntSound(data, pos);
    } else if data[pos] == TOKEN_LIST {
      ItemsSound(c, data, pos + 1, depth, []);
      var (items, end) := ParseItems(c, data, pos + 1, depth, []).value;
      assert items[0..] == items;
      ReadsByte(c, data, pos);
      ReadsConcat(c, data, pos, pos + 1, end, [TOKEN_LIST], EncodeItems(items) + [TOKEN_END]);
      assert Encode(List(items)) == [TOKEN_LIST] + (EncodeItems(items) + [TOKEN_END]);
    } else {
      DictSound(c, data, pos, depth);
    }
  }

  lemma {:induction false} ItemsSound(c: Limits, data: seq<byte>, pos: nat, depth: nat, items: seq<Value>)
    requires c.maxDepth >= 0 && pos <= |data| && ParseItems(c, data, pos, depth, items).Ok?
    ensures var (all, end) := ParseItems(c, data, pos, depth, items).value;
            && items <= all
            && (forall x :: x in all[|items|..] ==> Within(x, depth + 1, c.maxDepth))
            && Reads(c, data, pos, end, EncodeItems(all[|items|..]) + [TOKEN_END])
    decreases |data| - pos, 2
  {
    if data[pos] == TOKEN_END {
      NoMoreItems(c, data, pos, depth, items);
    } else {
      var (v, next) := ParseValue(c, data, pos, depth + 1).value;
      ValueSound(c, data, pos, depth + 1);
      ItemsSound(c, data, next, depth, items + [v]);
      var (all, end) := ParseItems(c, data, next, depth, items + [v]).value;
      ItemsJoin(c, data, pos, next, end, v, all[|items| + 1..], depth + 1);
      assert all[|items|..] == [v] + all[|items| + 1..];
    }
  }

  lemma NoMoreItems(c: Limits, data: seq<byte>, pos: nat, depth: nat, items: seq<Value>)
    requires pos < |data| && data[pos] == TOKEN_END
    ensures ParseItems(c, data, pos, depth, items) == Ok((items, pos + 1))
    ensures items[|items|..] == []
    ensures Reads(c, data, pos, pos + 1, EncodeItems([]) + [TOKEN_END])
  {
    ReadsByte(c, data, pos);
    assert EncodeItems([]) + [TOKEN_END] == [data[pos]];
  }

  lemma ItemsJoin(c: Limits, data: seq<byte>, pos: nat, next: nat, end: nat, v: Value, rest: seq<Value>, depth: nat)
    requires c.maxDepth >= 0
    requires Within(v, depth, c.maxDepth) && forall x :: x in rest ==> Within(x, depth, c.maxDepth)
    requires Reads(c, data, pos, next, Encode(v)) && Reads(c, data, next, end, EncodeItems(rest) + [TOKEN_END])
    ensures forall x :: x in [v] + rest ==> Within(x, depth, c.maxDepth)
    ensures Reads(c, data, pos, end, EncodeItems([v] + rest) + [TOKEN_END])
  {
    ReadsConcat(c, data, pos, next, end, Encode(v), EncodeItems(rest) + [TOKEN_END]);
    assert ([v] + rest)[1..] == rest;
    assert EncodeItems([v] + rest) + [TOKEN_END] == Encode(v) + (EncodeItems(rest) + [TOKEN_END]);
  }

  ghost predicate EntryWithin(e: Entry, depth: nat, maxDepth: nat) {
    |Decimal(|e.key|)| <= MAX_LENGTH_DIGITS && depth + 1 <= maxDepth && Within(e.value, depth + 1, maxDepth)
  }

  lemma {:induction false} EntrySound(c: Limits, data: seq<byte>, pos: nat, depth: nat, entries: seq<Entry>)
    requires c.maxDepth >= 0 && pos < |data| && ParseEntry(c, data, pos, depth, entries).Ok?
    requires Good(c, entries)
    ensures var e := ParseEntry(c, data, pos, depth, entries).value;
            && EntryWithin(e, depth, c.maxDepth) && Good(c, entries + [e])
            && Reads(c, data, pos, e.start, EncodeBytes(e.key))
            && Reads(c, data, e.start, e.end, Encode(e.value))
            && ParseValue(c, data, e.start, depth + 1) == Ok((e.value, e.end))
            && data[pos..e.start] == EncodeBytes(e.key)
    decreases |data| - pos, 2
  {
    var e := ParseEntry(c, data, pos, depth, entries).value;
    KeyIsText(c, data, pos, depth + 1);
    ValueSound(c, data, e.start, depth + 1);
    GoodMore(c, entries, e);
  }

  /** A key is a byte string whatever the flag says. */
  lemma KeyIsText(c: Limits, data: seq<byte>, pos: nat, depth: nat)
    requires pos < |data| && ParseValue(c, data, pos, depth).Ok? && ParseValue(c, data, pos, depth).value.0.Bytes?
    ensures var (v, end) := ParseValue(c, data, pos, depth).value;
            && depth <= c.maxDepth && data[pos..end] == EncodeBytes(v.b) && |Decimal(|v.b|)| <= MAX_LENGTH_DIGITS
            && Reads(c, data, pos, end, EncodeBytes(v.b))
  {
    BytesSound(data, pos);
  }

  lemma GoodMore(c: Limits, entries: seq<Entry>, e: Entry)
    requires Good(c, entries) && e.key !in KeysOf(entries)
    requires c.requireSorted && entries != [] ==> !Less(e.key, entries[|entries| - 1].key)
    ensures Good(c, entries + [e])
  {
    var keys := KeysOf(entries);
    assert forall i :: 0 <= i < |entries| ==> entries[i].key == keys[i] && keys[i] in keys;
    if c.requireSorted {
      assert KeysOf(entries + [e]) == keys + [e.key];
      forall i | 0 <= i < |keys|
        ensures Less(keys[i], e.key)
      {
        var last := keys[|keys| - 1];
        LessTotal(last, e.key);
        if i < |keys| - 1 {
          LessTransitive(keys[i], last, e.key);
        }
      }
    }
  }

  lemma FromThere(done: seq<Entry>, e: Entry, all: seq<Entry>)
    requires done + [e] <= all
    ensures all[|done|..] == [e] + all[|done| + 1..] && |done + [e]| == |done| + 1
  {
    assert all[|done|] == (done + [e])[|done|];
  }

  lemma NoMoreEntries(c: Limits, data: seq<byte>, pos: nat, depth: nat, entries: seq<Entry>)
    requires pos < |data| && data[pos] == TOKEN_END && ParseEntries(c, data, pos, depth, entries).Ok?
    ensures var (all, end) := ParseEntries(c, data, pos, depth, entries).value;
            all == entries && Reads(c, data, pos, end, EncodeEntries(all[|entries|..]) + [TOKEN_END])
  {
    var (all, end) := ParseEntries(c, data, pos, depth, entries).value;
    ReadsByte(c, data, pos);
    assert all[|entries|..] == [];
    assert EncodeEntries([]) + [TOKEN_END] == [data[pos]];
  }

  lemma {:induction false} EntriesSound(c: Limits, data: seq<byte>, pos: nat, depth: nat, entries: seq<Entry>)
    requires c.maxDepth >= 0 && pos <= |data| && ParseEntries(c, data, pos, depth, entries).Ok?
    requires Good(c, entries)
    ensures var (all, end) := ParseEntries(c, data, pos, depth, entries).value;
            && entries <= all && Good(c, all)
            && (forall i :: |entries| <= i < |all| ==> EntryWithin(all[i], depth, c.maxDepth))
            && Reads(c, data, pos, end, EncodeEntries(all[|entries|..]) + [TOKEN_END])
    decreases |data| - pos, 3
  {
    var (all, end) := ParseEntries(c, data, pos, depth, entries).value;
    if data[pos] == TOKEN_END {
      NoMoreEntries(c, data, pos, depth, entries);
    } else {
      var e := ParseEntry(c, data, pos, depth, entries).value;
      EntrySound(c, data, pos, depth, entries);
      EntriesSound(c, data, e.end, depth, entries + [e]);
      FromThere(entries, e, all);
      EntriesJoin(c, data, pos, e, end, all[|entries| + 1..]);
    }
  }

  lemma EntriesJoin(c: Limits, data: seq<byte>, pos: nat, e: Entry, end: nat, rest: seq<Entry>)
    requires Reads(c, data, pos, e.start, EncodeBytes(e.key)) && Reads(c, data, e.start, e.end, Encode(e.value))
    requires Reads(c, data, e.end, end, EncodeEntries(rest) + [TOKEN_END])
    ensures Reads(c, data, pos, end, EncodeEntries([e] + rest) + [TOKEN_END])
  {
    var a, b, r := EncodeBytes(e.key), Encode(e.value), EncodeEntries(rest) + [TOKEN_END];
    ReadsConcat(c, data, pos, e.start, e.end, a, b);
    ReadsConcat(c, data, pos, e.end, end, a + b, r);
    assert ([e] + rest)[1..] == rest;
    assert EncodeEntries([e] + rest) + [TOKEN_END] == a + b + r;
  }

  lemma {:induction false} DictSound(c: Limits, data: seq<byte>, pos: nat, depth: nat)
    requires c.maxDepth >= 0 && pos < |data| && data[pos] == TOKEN_DICT && ParseValue(c, data, pos, depth).Ok?
    ensures var (v, end) := ParseValue(c, data, pos, depth).value;
            Within(v, depth, c.maxDepth) && Reads(c, data, pos, end, Encode(v))
    decreases |data| - pos, 0
  {
    EntriesSound(c, data, pos + 1, depth, []);
    var (all, end) := ParseEntries(c, data, pos + 1, depth, []).value;
    assert all[0..] == all;
    ReadsByte(c, data, pos);
    ReadsConcat(c, data, pos, pos + 1, end, [TOKEN_DICT], EncodeEntries(all) + [TOKEN_END]);
    DictOfEntries(c, all);
    assert [TOKEN_DICT] + (EncodeEntries(all) + [TOKEN_END]) == [TOKEN_DICT] + EncodeEntries(all) + [TOKEN_END];
    DictWithin(all, depth, c.maxDepth);
  }

  lemma DictWithin(all: seq<Entry>, depth: nat, maxDepth: nat)
    requires Distinct(all) && depth <= maxDepth && forall i :: 0 <= i < |all| ==> EntryWithin(all[i], depth, maxDepth)
    ensures Within(Dict(MapOf(all)), depth, maxDepth)
  {
    MapHasEntries(all);
    forall k | k in MapOf(all)
      ensures |Decimal(|k|)| <= MAX_LENGTH_DIGITS && depth + 1 <= maxDepth && Within(MapOf(all)[k], depth + 1, maxDepth)
    {
      var i :| 0 <= i < |all| && KeysOf(all)[i] == k;
      assert EntryWithin(all[i], depth, maxDepth);
    }
  }

  // ---------------------------------------------------------------- completeness

  /** Parsing at `pos` gives `v` and stops at `end`. */
  ghost predicate Yields(c: Limits, data: seq<byte>, pos: nat, depth: nat, v: Value, end: nat) {
    pos <= |data| &&
    var r := ParseValue(c, data, pos, depth);
    r.Ok? && r.value.0 == v && r.value.1 == end
  }

  ghost predicate EntryYields(c: Limits, data: seq<byte>, pos: nat, depth: nat, done: seq<Entry>, e: Entry) {
    pos < |data| &&
    var r := ParseEntry(c, data, pos, depth, done);
    r.Ok? && r.value.key == e.key && r.value.value == e.value && r.value.start == e.start && r.value.end == e.end
  }

  ghost predicate Holds(data: seq<byte>, pos: nat, text: seq<byte>) {
    pos + |text| <= |data| && data[pos..pos + |text|] == text
  }

  lemma HoldsParts(data: seq<byte>, pos: nat, a: seq<byte>, b: seq<byte>)
    requires Holds(data, pos, a + b)
    ensures Holds(data, pos, a) && Holds(data, pos + |a|, b)
  {
    Inside(data, pos, a + b, 0, |a|);
    Inside(data, pos, a + b, |a|, |a + b|);
    assert (a + b)[0..|a|] == a && (a + b)[|a|..|a + b|] == b;
  }

  lemma HoldsHead(data: seq<byte>, pos: nat, text: seq<byte>)
    requires Holds(data, pos, text) && text != []
    ensures pos < |data| && data[pos] == text[0]
  {
    assert data[pos..pos + |text|][0] == text[0];
  }

  /** The text of a value never starts with the end marker. */
  lemma HeadOfEncode(v: Value)
    ensures Encode(v)[0] != TOKEN_END
    ensures v.Bytes? <==> IsDigit(Encode(v)[0])
    ensures v.Int? <==> Encode(v)[0] == TOKEN_INT
    ensures v.List? <==> Encode(v)[0] == TOKEN_LIST
    ensures v.Dict? <==> Encode(v)[0] == TOKEN_DICT
  {
    if v.Bytes? {
      assert IsDigit(Decimal(|v.b|)[0]);
    }
  }

  /** Every value within the limits is read back, whole, from wherever its text stands, and nothing
      after it is looked at. */
  lemma {:induction false} ValueComplete(c: Limits, data: seq<byte>, pos: nat, v: Value, depth: nat)
    requires c.maxDepth >= 0 && Within(v, depth, c.maxDepth) && Holds(data, pos, Encode(v))
    ensures Yields(c, data, pos, depth, v, pos + |Encode(v)|)
    decreases v, 1
  {
    match v {
      case Int(_) => LeafComplete(c, data, pos, v, depth);
      case Bytes(_) => LeafComplete(c, data, pos, v, depth);
      case List(_) => ListComplete(c, data, pos, v, depth);
      case Dict(_) => DictComplete(c, data, pos, v, depth);
    }
  }

  lemma LeafComplete(c: Limits, data: seq<byte>, pos: nat, v: Value, depth: nat)
    requires c.maxDepth >= 0 && (v.Int? || v.Bytes?) && Within(v, depth, c.maxDepth) && Holds(data, pos, Encode(v))
    ensures Yields(c, data, pos, depth, v, pos + |Encode(v)|)
  {
    HeadOfEncode(v);
    HoldsHead(data, pos, Encode(v));
    if v.Int? {
      IntComplete(data, pos, v.i);
    } else {
      BytesComplete(data, pos, v.b);
    }
  }

  lemma {:induction false} ListComplete(c: Limits, data: seq<byte>, pos: nat, l: Value, depth: nat)
    requires c.maxDepth >= 0 && l.List? && Within(l, depth, c.maxDepth) && Holds(data, pos, Encode(l))
    ensures Yields(c, data, pos, depth, l, pos + |Encode(l)|)
    decreases l, 0, |l.items| + 1
  {
    assert Encode(l) == [TOKEN_LIST] + (EncodeItems(l.items) + [TOKEN_END]);
    HoldsParts(data, pos, [TOKEN_LIST], EncodeItems(l.items) + [TOKEN_END]);
    HoldsHead(data, pos, Encode(l));
    ItemsComplete(c, data, pos + 1, l, l.items, depth, []);
    assert [] + l.items == l.items;
  }

  lemma {:induction false} ItemsComplete(c: Limits, data: seq<byte>, pos: nat, l: Value, items: seq<Value>,
                                         depth: nat, done: seq<Value>)
    requires c.maxDepth >= 0 && l.List? && forall x :: x in items ==> x in l.items && Within(x, depth + 1, c.maxDepth)
    requires Holds(data, pos, EncodeItems(items) + [TOKEN_END])
    ensures ItemsYield(c, data, pos, depth, done, done + items, pos + |EncodeItems(items)| + 1)
    decreases l, 0, |items|
  {
    if items == [] {
      HoldsHead(data, pos, EncodeItems(items) + [TOKEN_END]);
      assert done + items == done;
    } else {
      var v, rest := items[0], items[1..];
      var next := pos + |Encode(v)|;
      FirstItem(data, pos, items);
      ValueComplete(c, data, pos, v, depth + 1);
      ItemsComplete(c, data, next, l, rest, depth, done + [v]);
      ItemsStep(c, data, pos, depth, done, v, next, done + [v] + rest, next + |EncodeItems(rest)| + 1);
      OntoDone(done, items);
    }
  }

  lemma OntoDone(done: seq<Value>, items: seq<Value>)
    requires items != []
    ensures done + [items[0]] + items[1..] == done + items
  {
  }

  lemma FirstItem(data: seq<byte>, pos: nat, items: seq<Value>)
    requires items != [] && Holds(data, pos, EncodeItems(items) + [TOKEN_END])
    ensures items[0] in items && forall x :: x in items[1..] ==> x in items
    ensures pos < |data| && data[pos] != TOKEN_END && Holds(data, pos, Encode(items[0]))
    ensures Holds(data, pos + |Encode(items[0])|, EncodeItems(items[1..]) + [TOKEN_END])
    ensures |EncodeItems(items)| == |Encode(items[0])| + |EncodeItems(items[1..])|
  {
    SplitItems(items);
    HoldsParts(data, pos, Encode(items[0]), EncodeItems(items[1..]) + [TOKEN_END]);
    HeadOfEncode(items[0]);
    HoldsHead(data, pos, Encode(items[0]));
  }

  ghost predicate ItemsYield(c: Limits, data: seq<byte>, pos: nat, depth: nat, done: seq<Value>, all: seq<Value>,
                             end: nat)
  {
    pos <= |data| &&
    var r := ParseItems(c, data, pos, depth, done);
    r.Ok? && r.value.0 == all && r.value.1 == end
  }

  lemma ItemsStep(c: Limits, data: seq<byte>, pos: nat, depth: nat, done: seq<Value>, v: Value, next: nat,
                  all: seq<Value>, end: nat)
    requires pos < |data| && data[pos] != TOKEN_END && Yields(c, data, pos, depth + 1, v, next)
    requires ItemsYield(c, data, next, depth, done + [v], all, end)
    ensures ItemsYield(c, data, pos, depth, done, all, end)
  {
  }

  lemma SplitItems(items: seq<Value>)
    requires items != []
    ensures items[0] in items && forall x :: x in items[1..] ==> x in items
    ensures EncodeItems(items) + [TOKEN_END] == Encode(items[0]) + (EncodeItems(items[1..]) + [TOKEN_END])
  {
  }

  /** What reading the remaining keys of a dictionary yields. */
  ghost predicate ReadEntries(d: Value, keys: seq<seq<byte>>, done: seq<Entry>, all: seq<Entry>)
    requires d.Dict?
  {
    && KeysOf(all) == KeysOf(done) + keys
    && (forall i :: 0 <= i < |done| ==> all[i] == done[i])
    && forall i :: |done| <= i < |all| ==> all[i].key in d.entries && all[i].value == d.entries[all[i].key]
  }

  lemma KeyMoves(done: seq<Entry>, e: Entry, keys: seq<seq<byte>>)
    requires keys != [] && keys[0] == e.key
    ensures KeysOf(done + [e]) + keys[1..] == KeysOf(done) + keys
  {
  }

  lemma {:induction false} PairsComplete(c: Limits, data: seq<byte>, pos: nat, d: Value, keys: seq<seq<byte>>,
                                         depth: nat, done: seq<Entry>)
    requires c.maxDepth >= 0 && d.Dict? && Within(d, depth, c.maxDepth)
    requires (forall k :: k in keys ==> k in d.entries) && Ascending(KeysOf(done) + keys)
    requires Holds(data, pos, EncodePairs(d, keys) + [TOKEN_END])
    ensures var r := ParseEntries(c, data, pos, depth, done);
            r.Ok? && r.value.1 == pos + |EncodePairs(d, keys)| + 1 && ReadEntries(d, keys, done, r.value.0)
    decreases d, 0, |keys| + 2
  {
    HoldsHead(data, pos, EncodePairs(d, keys) + [TOKEN_END]);
    if keys == [] {
      assert KeysOf(done) + keys == KeysOf(done);
    } else {
      var k, rest := keys[0], keys[1..];
      SplitPairs(d, keys);
      FollowsInOrder(done, keys);
      var e := EntryComplete(c, data, pos, d, k, depth, done, EncodePairs(d, rest) + [TOKEN_END]);
      KeyMoves(done, e, keys);
      PairsComplete(c, data, e.end, d, rest, depth, done + [e]);
      OneMoreEntry(d, keys, done, e, ParseEntries(c, data, e.end, depth, done + [e]).value.0);
    }
  }

  lemma OneMoreEntry(d: Value, keys: seq<seq<byte>>, done: seq<Entry>, e: Entry, all: seq<Entry>)
    requires d.Dict? && keys != [] && e.key == keys[0] && e.key in d.entries && e.value == d.entries[e.key]
    requires ReadEntries(d, keys[1..], done + [e], all)
    ensures ReadEntries(d, keys, done, all)
  {
    assert KeysOf(done + [e]) + keys[1..] == KeysOf(done) + keys;
    assert forall i :: 0 <= i < |done| ==> all[i] == (done + [e])[i];
    assert |all| > |done| && all[|done|] == (done + [e])[|done|];
  }

  lemma SplitPairs(d: Value, keys: seq<seq<byte>>)
    requires d.Dict? && keys != [] && forall k :: k in keys ==> k in d.entries
    ensures keys[0] in d.entries && forall k :: k in keys[1..] ==> k in d.entries
    ensures EncodePairs(d, keys) + [TOKEN_END] ==
            EncodeBytes(keys[0]) + (Encode(d.entries[keys[0]]) + (EncodePairs(d, keys[1..]) + [TOKEN_END]))
  {
    assert keys[0] in keys && forall k :: k in keys[1..] ==> k in keys;
    Regroup(EncodeBytes(keys[0]), Encode(d.entries[keys[0]]), EncodePairs(d, keys[1..]), [TOKEN_END]);
  }

  ghost predicate FreshKey(done: seq<Entry>, k: seq<byte>) {
    k !in KeysOf(done) && (done != [] ==> !Less(k, done[|done| - 1].key))
  }

  lemma {:induction false} MemberComplete(c: Limits, data: seq<byte>, pos: nat, d: Value, k: seq<byte>, depth: nat,
                                          start: nat)
    requires c.maxDepth >= 0 && d.Dict? && k in d.entries && Within(d, depth, c.maxDepth)
    requires Holds(data, pos, EncodeBytes(k)) && start == pos + |EncodeBytes(k)|
    requires Holds(data, start, Encode(d.entries[k]))
    ensures pos < |data| && data[pos] != TOKEN_END && Yields(c, data, pos, depth + 1, Bytes(k), start)
    ensures Yields(c, data, start, depth + 1, d.entries[k], start + |Encode(d.entries[k])|)
    decreases d, 0, 0
  {
    MemberWithin(d, k, depth, c.maxDepth);
    KeyComplete(c, data, pos, k, depth + 1);
    ValueComplete(c, data, start, d.entries[k], depth + 1);
  }

  lemma {:induction false} EntryComplete(c: Limits, data: seq<byte>, pos: nat, d: Value, k: seq<byte>, depth: nat,
                                         done: seq<Entry>, rest: seq<byte>)
    returns (e: Entry)
    requires c.maxDepth >= 0 && d.Dict? && k in d.entries && Within(d, depth, c.maxDepth) && FreshKey(done, k)
    requires Holds(data, pos, EncodeBytes(k) + (Encode(d.entries[k]) + rest))
    ensures EntryYields(c, data, pos, depth, done, e) && data[pos] != TOKEN_END
    ensures e.key == k && e.value == d.entries[k]
    ensures e.end == pos + |EncodeBytes(k)| + |Encode(d.entries[k])|
    ensures Holds(data, e.end, rest)
    decreases d, 0, 1
  {
    var start := pos + |EncodeBytes(k)|;
    e := Entry(k, d.entries[k], start, start + |Encode(d.entries[k])|);
    EntryText(data, pos, k, e.value, rest);
    MemberComplete(c, data, pos, d, k, depth, start);
    EntryFrom(c, data, pos, depth, done, k, start, e.value, e.end);
  }

  lemma EntryText(data: seq<byte>, pos: nat, k: seq<byte>, v: Value, rest: seq<byte>)
    requires Holds(data, pos, EncodeBytes(k) + (Encode(v) + rest))
    ensures var start := pos + |EncodeBytes(k)|;
            Holds(data, pos, EncodeBytes(k)) && Holds(data, start, Encode(v)) && Holds(data, start + |Encode(v)|, rest)
  {
    HoldsParts(data, pos, EncodeBytes(k), Encode(v) + rest);
    HoldsParts(data, pos + |EncodeBytes(k)|, Encode(v), rest);
  }

  lemma EntryFrom(c: Limits, data: seq<byte>, pos: nat, depth: nat, done: seq<Entry>, k: seq<byte>, start: nat,
                  v: Value, end: nat)
    requires pos < |data| && FreshKey(done, k)
    requires Yields(c, data, pos, depth + 1, Bytes(k), start) && Yields(c, data, start, depth + 1, v, end)
    ensures EntryYields(c, data, pos, depth, done, Entry(k, v, start, end))
  {
  }

  lemma MemberWithin(d: Value, k: seq<byte>, depth: nat, maxDepth: nat)
    requires d.Dict? && k in d.entries && Within(d, depth, maxDepth)
    ensures |Decimal(|k|)| <= MAX_LENGTH_DIGITS && depth + 1 <= maxDepth && Within(d.entries[k], depth + 1, maxDepth)
  {
  }

  lemma FollowsInOrder(done: seq<Entry>, keys: seq<seq<byte>>)
    requires Ascending(KeysOf(done) + keys) && keys != []
    ensures FreshKey(done, keys[0])
  {
    NewKey(KeysOf(done), keys);
  }

  lemma KeyComplete(c: Limits, data: seq<byte>, pos: nat, k: seq<byte>, depth: nat)
    requires depth <= c.maxDepth && |Decimal(|k|)| <= MAX_LENGTH_DIGITS && Holds(data, pos, EncodeBytes(k))
    ensures pos < |data| && data[pos] != TOKEN_END
    ensures Yields(c, data, pos, depth, Bytes(k), pos + |EncodeBytes(k)|)
  {
    HoldsHead(data, pos, EncodeBytes(k));
    HeadOfEncode(Bytes(k));
    BytesComplete(data, pos, k);
  }

  lemma Regroup(a: seq<byte>, b: seq<byte>, r: seq<byte>, e: seq<byte>)
    ensures a + b + r + e == a + (b + (r + e))
  {
  }

  /** A key that follows the others in order is neither a repetition nor out of order. */
  lemma NewKey(done: seq<seq<byte>>, keys: seq<seq<byte>>)
    requires Ascending(done + keys) && keys != []
    ensures keys[0] !in done
    ensures done != [] ==> !Less(keys[0], done[|done| - 1])
  {
    var all := done + keys;
    forall i | 0 <= i < |done|
      ensures done[i] != keys[0] && !Less(keys[0], done[i])
    {
      assert Less(all[i], all[|done|]);
      LessIrreflexive(done[i]);
      if Less(keys[0], done[i]) {
        LessTransitive(done[i], keys[0], done[i]);
      }
    }
  }

  lemma {:induction false} DictComplete(c: Limits, data: seq<byte>, pos: nat, d: Value, depth: nat)
    requires c.maxDepth >= 0 && d.Dict? && Within(d, depth, c.maxDepth) && Holds(data, pos, Encode(d))
    ensures Yields(c, data, pos, depth, d, pos + |Encode(d)|)
    decreases d, 0, |Sorted(d.entries.Keys)| + 3
  {
    var keys := Sorted(d.entries.Keys);
    DictOpens(data, pos, d);
    PairsComplete(c, data, pos + 1, d, keys, depth, []);
    AllEntriesMakeTheDict(d, ParseEntries(c, data, pos + 1, depth, []).value.0);
    DictFrom(c, data, pos, depth, d, pos + |Encode(d)|);
  }

  lemma DictOpens(data: seq<byte>, pos: nat, d: Value)
    requires d.Dict? && Holds(data, pos, Encode(d))
    ensures pos < |data| && data[pos] == TOKEN_DICT && Ascending(KeysOf([]) + Sorted(d.entries.Keys))
    ensures Holds(data, pos + 1, EncodePairs(d, Sorted(d.entries.Keys)) + [TOKEN_END])
    ensures |Encode(d)| == |EncodePairs(d, Sorted(d.entries.Keys))| + 2
  {
    var keys := Sorted(d.entries.Keys);
    assert Encode(d) == [TOKEN_DICT] + (EncodePairs(d, keys) + [TOKEN_END]);
    HoldsParts(data, pos, [TOKEN_DICT], EncodePairs(d, keys) + [TOKEN_END]);
    HoldsHead(data, pos, Encode(d));
    assert KeysOf([]) + keys == keys;
  }

  lemma DictFrom(c: Limits, data: seq<byte>, pos: nat, depth: nat, d: Value, end: nat)
    requires depth <= c.maxDepth && pos < |data| && data[pos] == TOKEN_DICT && d.Dict?
    requires var r := ParseEntries(c, data, pos + 1, depth, []);
             r.Ok? && MapOf(r.value.0) == d.entries && r.value.1 == end
    ensures Yields(c, data, pos, depth, d, end)
  {
  }

  lemma SortedSize(s: set<seq<byte>>)
    ensures |Sorted(s)| == |s|
  {
    var r := Sorted(s);
    AscendingHasNoRepeats(r);
    CountNoRepeats(r);
    assert (set x | x in r) == s;
  }

  lemma {:induction false} CountNoRepeats(r: seq<seq<byte>>)
    requires NoRepeats(r)
    ensures |set x | x in r| == |r|
  {
    if r != [] {
      CountNoRepeats(r[1..]);
      assert r == [r[0]] + r[1..];
      assert (set x | x in r) == {r[0]} + (set x | x in r[1..]);
    }
  }

  lemma AllEntriesMakeTheDict(d: Value, all: seq<Entry>)
    requires d.Dict? && ReadEntries(d, Sorted(d.entries.Keys), [], all)
    ensures MapOf(all) == d.entries && Distinct(all)
  {
    AscendingHasNoRepeats(Sorted(d.entries.Keys));
    EntriesMakeTheDict(d, Sorted(d.entries.Keys), all);
  }

  /** Entries read under all keys of a dictionary, in any order, are the dictionary. */
  lemma EntriesMakeTheDict(d: Value, keys: seq<seq<byte>>, all: seq<Entry>)
    requires d.Dict? && NoRepeats(keys) && ReadEntries(d, keys, [], all)
    requires forall k :: k in keys <==> k in d.entries
    ensures MapOf(all) == d.entries && Distinct(all)
  {
    assert KeysOf([]) + keys == keys;
    KeysTellDistinct(all, keys);
    MapHasEntries(all);
    assert MapOf(all).Keys == d.entries.Keys;
    forall k | k in d.entries
      ensures MapOf(all)[k] == d.entries[k]
    {
      assert k in keys;
      EntryOfKey(all, k);
    }
  }

  lemma EntryOfKey(all: seq<Entry>, k: seq<byte>)
    requires k in KeysOf(all)
    ensures exists i :: 0 <= i < |all| && all[i].key == k
  {
    var i :| 0 <= i < |all| && KeysOf(all)[i] == k;
    assert all[i].key == k;
  }

  lemma KeysTellDistinct(all: seq<Entry>, keys: seq<seq<byte>>)
    requires KeysOf(all) == keys && NoRepeats(keys)
    ensures Distinct(all)
  {
    assert forall i :: 0 <= i < |all| ==> all[i].key == keys[i];
  }
}
