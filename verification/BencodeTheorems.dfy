/** What the codec is for: canonical text, exact round trips, and byte ranges that can be hashed. */
module BencodeTheorems {
  import opened Basics
  import opened Digits
  import opened BencodeSpec
  import opened BencodeProofs

  ghost predicate Usable(c: Limits, length: nat) {
    1 <= c.maxDepth && length <= c.maxLength
  }

  // ------------------------------------------------------------------ round trip

  /** A value within the limits is read back from the front of any buffer, and exactly its own
      bytes are consumed, sorted keys required or not. */
  lemma PrefixRoundTrip(c: Limits, v: Value, rest: seq<byte>)
    requires Usable(c, |Encode(v) + rest|) && Within(v, 0, c.maxDepth)
    ensures DecodePrefix(c, Encode(v) + rest) == Ok((v, |Encode(v)|))
  {
    var data := Encode(v) + rest;
    assert data[0..0 + |Encode(v)|] == Encode(v);
    ValueComplete(c, data, 0, v, 0);
  }

  lemma RoundTrip(c: Limits, v: Value)
    requires Usable(c, |Encode(v)|) && Within(v, 0, c.maxDepth)
    ensures Decode(c, Encode(v)) == Ok(v)
  {
    PrefixRoundTrip(c, v, []);
    assert Encode(v) + [] == Encode(v);
  }

  /** No text is the beginning of another: two values found at the front of one buffer are one. */
  lemma PrefixFree(maxDepth: nat, v: Value, w: Value, r: seq<byte>, s: seq<byte>)
    requires Within(v, 0, maxDepth) && Within(w, 0, maxDepth) && Encode(v) + r == Encode(w) + s
    ensures v == w && r == s
  {
    var data := Encode(v) + r;
    var c := Limits(maxDepth, |data|, true);
    assert data[0..0 + |Encode(v)|] == Encode(v);
    assert data[0..0 + |Encode(w)|] == Encode(w);
    ValueComplete(c, data, 0, v, 0);
    ValueComplete(c, data, 0, w, 0);
    assert r == data[|Encode(v)|..] == s;
  }

  // ------------------------------------------------------------------- canonicity

  /** Strictly decoded input is the canonical text of its value. */
  lemma StrictIsCanonical(c: Limits, data: seq<byte>)
    requires c.requireSorted && Decode(c, data).Ok?
    ensures Encode(Decode(c, data).value) == data && Within(Decode(c, data).value, 0, c.maxDepth)
  {
    ValueSound(c, data, 0, 0);
    assert data[0..|data|] == data;
  }

  /** Whatever is read obeys the limits, so it can be written and read again under them. */
  lemma DecodedIsWithin(c: Limits, data: seq<byte>)
    requires DecodePrefix(c, data).Ok?
    ensures Within(DecodePrefix(c, data).value.0, 0, c.maxDepth)
  {
    ValueSound(c, data, 0, 0);
  }

  /** Exactly the canonical texts of values within the limits are strictly decodable. */
  lemma StrictAcceptsExactly(c: Limits, data: seq<byte>)
    requires c.requireSorted && Usable(c, |data|)
    ensures Decode(c, data).Ok? <==> exists v :: Within(v, 0, c.maxDepth) && Encode(v) == data
  {
    if Decode(c, data).Ok? {
      StrictIsCanonical(c, data);
    }
    if exists v :: Within(v, 0, c.maxDepth) && Encode(v) == data {
      var v :| Within(v, 0, c.maxDepth) && Encode(v) == data;
      RoundTrip(c, v);
    }
  }

  /** The canonical text of a dictionary lists its keys in byte order, whatever listing of them that is. */
  lemma CanonicalKeyOrder(m: map<seq<byte>, Value>, keys: seq<seq<byte>>)
    requires forall k :: k in keys <==> k in m
    requires forall i, j :: 0 <= i < j < |keys| ==> Precedes(keys[i], keys[j])
    ensures Encode(Dict(m)) == [TOKEN_DICT] + EncodePairs(Dict(m), keys) + [TOKEN_END]
  {
    AscendingInBytes(keys);
    AscendingUnique(keys, Sorted(m.Keys));
  }

  lemma SampleWords()
    ensures Encode(Int(1)) == Ascii("i1e") && Encode(Int(-2)) == Ascii("i-2e")
    ensures EncodeBytes(Ascii("a")) == Ascii("1:a") && EncodeBytes(Ascii("b")) == Ascii("1:b")
    ensures Precedes(Ascii("a"), Ascii("b")) && Ascii("a") != Ascii("b")
  {
    assert SplitsAt(Ascii("a"), Ascii("b"), 0);
  }

  lemma TwoPairs(d: Value, a: seq<byte>, b: seq<byte>)
    requires d.Dict? && a in d.entries && b in d.entries
    ensures EncodePairs(d, [a, b]) == EncodeBytes(a) + Encode(d.entries[a]) + (EncodeBytes(b) + Encode(d.entries[b]))
  {
    var keys, rest := [a, b], [b];
    assert keys[1..] == rest && |rest[1..]| == 0;
    assert EncodePairs(d, rest) == EncodeBytes(b) + Encode(d.entries[b]) + EncodePairs(d, rest[1..]);
  }

  /** A dictionary of two numbers, letter by letter. */
  lemma SampleText()
    ensures Encode(Dict(map[Ascii("a") := Int(1), Ascii("b") := Int(-2)])) == Ascii("d1:ai1e1:bi-2ee")
  {
    var a, b := Ascii("a"), Ascii("b");
    var m := map[a := Int(1), b := Int(-2)];
    SampleWords();
    CanonicalKeyOrder(m, [a, b]);
    TwoPairs(Dict(m), a, b);
    SampleLetters();
  }

  lemma SampleLetters()
    ensures [TOKEN_DICT] + (Ascii("1:a") + Ascii("i1e") + (Ascii("1:b") + Ascii("i-2e"))) + [TOKEN_END]
            == Ascii("d1:ai1e1:bi-2ee")
  {
  }

  /** A list of a number and a byte string, letter by letter. */
  lemma SampleList()
    ensures Encode(List([Int(0), Bytes(Ascii("spam"))])) == Ascii("li0e4:spame")
  {
    var items := [Int(0), Bytes(Ascii("spam"))];
    assert items[1..] == [Bytes(Ascii("spam"))] && |items[1..][1..]| == 0;
    assert EncodeItems(items[1..]) == Encode(items[1]) + [];
    assert EncodeItems(items) == Encode(items[0]) + EncodeItems(items[1..]);
    assert Encode(items[0]) == Ascii("i0e") && Encode(items[1]) == Ascii("4:spam");
  }

  /** Two inputs strictly decoded to one value are one input. */
  lemma StrictIsInjective(c: Limits, a: seq<byte>, b: seq<byte>)
    requires c.requireSorted && Decode(c, a).Ok? && Decode(c, b).Ok?
    requires Decode(c, a).value == Decode(c, b).value
    ensures a == b
  {
    StrictIsCanonical(c, a);
    StrictIsCanonical(c, b);
  }

  /** Without the flag, re-encoding may reorder keys but never changes the size. */
  lemma LenientKeepsSize(c: Limits, data: seq<byte>)
    requires Decode(c, data).Ok?
    ensures |Encode(Decode(c, data).value)| == |data|
  {
    ValueSound(c, data, 0, 0);
  }

  // ------------------------------------------------------------------------ spans

  /** The same bytes parse the same way wherever they stand, and at any shallower depth. */
  ghost predicate SameBytes(a: seq<byte>, i: nat, b: seq<byte>, j: nat, n: nat) {
    i + n <= |a| && j + n <= |b| && a[i..i + n] == b[j..j + n]
  }

  lemma SameByte(a: seq<byte>, i: nat, b: seq<byte>, j: nat, n: nat, k: nat)
    requires SameBytes(a, i, b, j, n) && k < n
    ensures a[i + k] == b[j + k]
  {
    assert a[i..i + n][k] == b[j..j + n][k];
  }

  lemma SamePart(a: seq<byte>, i: nat, b: seq<byte>, j: nat, n: nat, x: nat, y: nat)
    requires SameBytes(a, i, b, j, n) && x <= y <= n
    ensures SameBytes(a, i + x, b, j + x, y - x)
  {
    var text := a[i..i + n];
    Inside(a, i, text, x, y);
    Inside(b, j, text, x, y);
  }

  lemma FindMoves(a: seq<byte>, i: nat, b: seq<byte>, j: nat, n: nat, x: byte, from: nat)
    requires SameBytes(a, i, b, j, n) && from <= n
    requires Find(a, x, i + from) != -1 && Find(a, x, i + from) < i + n
    ensures Find(b, x, j + from) == Find(a, x, i + from) - i + j
  {
    var at := Find(a, x, i + from) - i;
    SameByte(a, i, b, j, n, at);
    forall k | j + from <= k < j + at
      ensures b[k] != x
    {
      SameByte(a, i, b, j, n, k - j);
    }
    FindAt(b, x, j + from, j + at);
  }

  lemma LeafMoves(a: seq<byte>, i: nat, b: seq<byte>, j: nat, n: nat)
    requires SameBytes(a, i, b, j, n) && 0 < n
    ensures IsDigit(a[i]) && ParseBytes(a, i).Ok? && ParseBytes(a, i).value.1 == i + n ==>
              && ParseBytes(b, j).Ok? && ParseBytes(b, j).value.0 == ParseBytes(a, i).value.0
              && ParseBytes(b, j).value.1 == j + n
    ensures ParseInt(a, i).Ok? && ParseInt(a, i).value.1 == i + n ==>
              ParseInt(b, j).Ok? && ParseInt(b, j).value.0 == ParseInt(a, i).value.0 && ParseInt(b, j).value.1 == j + n
  {
    if IsDigit(a[i]) && ParseBytes(a, i).Ok? && ParseBytes(a, i).value.1 == i + n {
      BytesMove(a, i, b, j, n);
    }
    if ParseInt(a, i).Ok? && ParseInt(a, i).value.1 == i + n {
      IntMoves(a, i, b, j, n);
    }
  }

  lemma IntMoves(a: seq<byte>, i: nat, b: seq<byte>, j: nat, n: nat)
    requires SameBytes(a, i, b, j, n) && 0 < n && ParseInt(a, i).Ok? && ParseInt(a, i).value.1 == i + n
    ensures ParseInt(b, j).Ok? && ParseInt(b, j).value.0 == ParseInt(a, i).value.0 && ParseInt(b, j).value.1 == j + n
  {
    var at := Find(a, TOKEN_END, i + 1);
    FindMoves(a, i, b, j, n, TOKEN_END, 1);
    SamePart(a, i, b, j, n, 1, at - i);
    IntFrom(a, i, at, b, j, at - i + j);
  }

  lemma IntFrom(a: seq<byte>, i: nat, at: nat, b: seq<byte>, j: nat, bt: nat)
    requires i < |a| && j < |b| && Find(a, TOKEN_END, i + 1) == at && Find(b, TOKEN_END, j + 1) == bt
    requires a[i + 1..at] == b[j + 1..bt] && ParseInt(a, i).Ok?
    ensures ParseInt(b, j).Ok? && ParseInt(b, j).value.0 == ParseInt(a, i).value.0 && ParseInt(b, j).value.1 == bt + 1
  {
    IntTextAlone(a[i + 1..at], i, j);
  }

  lemma IntTextAlone(raw: seq<byte>, i: nat, j: nat)
    requires IntOf(raw, i).Ok?
    ensures IntOf(raw, j) == IntOf(raw, i)
  {
  }

  lemma BytesMove(a: seq<byte>, i: nat, b: seq<byte>, j: nat, n: nat)
    requires SameBytes(a, i, b, j, n) && 0 < n && ParseBytes(a, i).Ok? && ParseBytes(a, i).value.1 == i + n
    ensures ParseBytes(b, j).Ok? && ParseBytes(b, j).value.0 == ParseBytes(a, i).value.0
    ensures ParseBytes(b, j).value.1 == j + n
  {
    var colon := Find(a, TOKEN_COLON, i);
    FindMoves(a, i, b, j, n, TOKEN_COLON, 0);
    SamePart(a, i, b, j, n, 0, colon - i);
    SamePart(a, i, b, j, n, colon - i + 1, n);
  }

  /** Entries that differ only in where they were read. */
  ghost predicate Alike(x: seq<Entry>, y: seq<Entry>) {
    && |x| == |y|
    && forall i :: 0 <= i < |x| ==> x[i].key == y[i].key && x[i].value == y[i].value
  }

  lemma AlikeKeys(x: seq<Entry>, y: seq<Entry>)
    requires Alike(x, y)
    ensures KeysOf(x) == KeysOf(y)
  {
  }

  lemma {:induction false} AlikeMaps(x: seq<Entry>, y: seq<Entry>)
    requires Alike(x, y)
    ensures MapOf(x) == MapOf(y)
  {
    if x != [] {
      AlikeMaps(x[..|x| - 1], y[..|y| - 1]);
    }
  }

  /** One text standing at `a[i..m]` and at `b[j..k]`. */
  ghost predicate Same(a: seq<byte>, i: nat, m: nat, b: seq<byte>, j: nat, k: nat) {
    i <= m <= |a| && j <= k <= |b| && a[i..m] == b[j..k]
  }

  lemma SplitSame(a: seq<byte>, i: nat, x: nat, m: nat, b: seq<byte>, j: nat, k: nat) returns (y: nat)
    requires Same(a, i, m, b, j, k) && i <= x <= m
    ensures Same(a, i, x, b, j, y) && Same(a, x, m, b, y, k) && y - j == x - i && m - i == k - j
  {
    y := j + (x - i);
    assert |a[i..m]| == |b[j..k]|;
    SamePart(a, i, b, j, m - i, 0, x - i);
    SamePart(a, i, b, j, m - i, x - i, m - i);
  }

  lemma SameHead(a: seq<byte>, i: nat, m: nat, b: seq<byte>, j: nat, k: nat)
    requires Same(a, i, m, b, j, k) && i < m
    ensures j < k && a[i] == b[j] && SameBytes(a, i, b, j, m - i) && k == j + (m - i)
    ensures Same(a, i + 1, m, b, j + 1, k)
  {
    var y := SplitSame(a, i, i + 1, m, b, j, k);
    assert a[i..i + 1][0] == b[j..j + 1][0];
  }

  lemma {:induction false} ValueMoves(c: Limits, a: seq<byte>, i: nat, depth: nat, v: Value, m: nat, b: seq<byte>,
                                      j: nat, k: nat, up: nat)
    requires Yields(c, a, i, depth, v, m) && Same(a, i, m, b, j, k) && up <= depth
    ensures Yields(c, b, j, up, v, k)
    decreases m - i, 1
  {
    SameHead(a, i, m, b, j, k);
    if IsDigit(a[i]) || a[i] == TOKEN_INT {
      LeafMoves(a, i, b, j, m - i);
    } else if a[i] == TOKEN_LIST {
      ItemsMove(c, a, i + 1, depth, [], v.items, m, b, j + 1, k, up);
    } else {
      DictMoves(c, a, i, depth, v, m, b, j, k, up);
    }
  }

  lemma {:induction false} DictMoves(c: Limits, a: seq<byte>, i: nat, depth: nat, v: Value, m: nat, b: seq<byte>,
                                     j: nat, k: nat, up: nat)
    requires Yields(c, a, i, depth, v, m) && i < m && j < k && up <= depth
    requires Same(a, i + 1, m, b, j + 1, k) && a[i] == TOKEN_DICT && b[j] == TOKEN_DICT
    ensures Yields(c, b, j, up, v, k)
    decreases m - i, 0
  {
    var all := ParseEntries(c, a, i + 1, depth, []).value.0;
    EntriesMove(c, a, i + 1, depth, [], all, m, b, j + 1, k, up, []);
    AlikeMaps(all, ParseEntries(c, b, j + 1, up, []).value.0);
  }

  lemma {:induction false} ItemsMove(c: Limits, a: seq<byte>, i: nat, depth: nat, done: seq<Value>, all: seq<Value>,
                                     m: nat, b: seq<byte>, j: nat, k: nat, up: nat)
    requires ItemsYield(c, a, i, depth, done, all, m) && Same(a, i, m, b, j, k) && up <= depth
    ensures ItemsYield(c, b, j, up, done, all, k)
    decreases m - i, 2
  {
    SameHead(a, i, m, b, j, k);
    if a[i] != TOKEN_END {
      var v, x := ItemsUnfold(c, a, i, depth, done, all, m);
      var y := SplitSame(a, i, x, m, b, j, k);
      ValueMoves(c, a, i, depth + 1, v, x, b, j, y, up + 1);
      ItemsMove(c, a, x, depth, done + [v], all, m, b, y, k, up);
      ItemsStep(c, b, j, up, done, v, y, all, k);
    }
  }

  lemma ItemsUnfold(c: Limits, a: seq<byte>, i: nat, depth: nat, done: seq<Value>, all: seq<Value>, m: nat)
    returns (v: Value, x: nat)
    requires i < |a| && a[i] != TOKEN_END && ItemsYield(c, a, i, depth, done, all, m)
    ensures i < x < m <= |a| && Yields(c, a, i, depth + 1, v, x) && ItemsYield(c, a, x, depth, done + [v], all, m)
  {
    var r := ParseValue(c, a, i, depth + 1).value;
    v, x := r.0, r.1;
  }

  ghost predicate EntriesYield(c: Limits, data: seq<byte>, pos: nat, depth: nat, done: seq<Entry>, all: seq<Entry>,
                               end: nat)
  {
    pos <= |data| &&
    var r := ParseEntries(c, data, pos, depth, done);
    r.Ok? && Alike(r.value.0, all) && r.value.1 == end
  }

  lemma EntriesStep(c: Limits, data: seq<byte>, pos: nat, depth: nat, done: seq<Entry>, e: Entry, all: seq<Entry>,
                    end: nat)
    requires EntryYields(c, data, pos, depth, done, e) && data[pos] != TOKEN_END
    requires EntriesYield(c, data, e.end, depth, done + [e], all, end)
    ensures EntriesYield(c, data, pos, depth, done, all, end)
  {
  }

  ghost predicate EntriesAre(c: Limits, data: seq<byte>, pos: nat, depth: nat, done: seq<Entry>, all: seq<Entry>,
                             end: nat)
  {
    pos <= |data| &&
    var r := ParseEntries(c, data, pos, depth, done);
    r.Ok? && r.value.0 == all && r.value.1 == end
  }

  /** A key that the decoder accepts after the entries read so far. */
  ghost predicate Accepts(c: Limits, done: seq<Entry>, k: seq<byte>) {
    k !in KeysOf(done) && (c.requireSorted && done != [] ==> !Less(k, done[|done| - 1].key))
  }

  lemma EntriesUnfold(c: Limits, a: seq<byte>, i: nat, depth: nat, done: seq<Entry>, all: seq<Entry>, end: nat)
    returns (e: Entry)
    requires i < |a| && a[i] != TOKEN_END && EntriesAre(c, a, i, depth, done, all, end)
    ensures i < e.start < e.end < end <= |a| && ParseEntry(c, a, i, depth, done) == Ok(e)
    ensures Yields(c, a, i, depth + 1, Bytes(e.key), e.start) && Yields(c, a, e.start, depth + 1, e.value, e.end)
    ensures Accepts(c, done, e.key)
    ensures EntriesAre(c, a, e.end, depth, done + [e], all, end)
  {
    e := ParseEntry(c, a, i, depth, done).value;
  }

  lemma {:induction false} EntriesMove(c: Limits, a: seq<byte>, i: nat, depth: nat, done: seq<Entry>, all: seq<Entry>,
                                       m: nat, b: seq<byte>, j: nat, k: nat, up: nat, done2: seq<Entry>)
    requires EntriesAre(c, a, i, depth, done, all, m)
    requires Same(a, i, m, b, j, k) && up <= depth && Alike(done, done2)
    ensures EntriesYield(c, b, j, up, done2, all, k)
    decreases m - i, 3
  {
    SameHead(a, i, m, b, j, k);
    if a[i] != TOKEN_END {
      var e := EntriesUnfold(c, a, i, depth, done, all, m);
      var y := SplitSame(a, i, e.end, m, b, j, k);
      var x := SplitSame(a, i, e.start, e.end, b, j, y);
      var f := Entry(e.key, e.value, x, y);
      ValueMoves(c, a, i, depth + 1, Bytes(e.key), e.start, b, j, x, up + 1);
      ValueMoves(c, a, e.start, depth + 1, e.value, e.end, b, x, y, up + 1);
      AlikeAccepts(c, done, done2, e.key);
      EntryFromLenient(c, b, j, up, done2, f);
      EntriesMove(c, a, e.end, depth, done + [e], all, m, b, y, k, up, done2 + [f]);
      EntriesStep(c, b, j, up, done2, f, all, k);
    }
  }

  lemma AlikeAccepts(c: Limits, done: seq<Entry>, done2: seq<Entry>, k: seq<byte>)
    requires Alike(done, done2) && Accepts(c, done, k)
    ensures Accepts(c, done2, k)
  {
    AlikeKeys(done, done2);
  }

  lemma EntryFromLenient(c: Limits, data: seq<byte>, pos: nat, depth: nat, done: seq<Entry>, e: Entry)
    requires pos < |data| && Yields(c, data, pos, depth + 1, Bytes(e.key), e.start)
    requires Yields(c, data, e.start, depth + 1, e.value, e.end)
    requires Accepts(c, done, e.key)
    ensures EntryYields(c, data, pos, depth, done, e)
  {
  }

  /** The bytes of entries as the spans cut them. */
  ghost function Pieces(data: seq<byte>, entries: seq<Entry>): seq<byte>
    requires forall i :: 0 <= i < |entries| ==> entries[i].start <= entries[i].end <= |data|
  {
    if entries == [] then []
    else EncodeBytes(entries[0].key) + data[entries[0].start..entries[0].end] + Pieces(data, entries[1..])
  }

  /** Each span decoded on its own gives the value of its key. */
  ghost predicate StandsAlone(c: Limits, data: seq<byte>, e: Entry) {
    && e.start < e.end <= |data|
    && var r := Decode(c, data[e.start..e.end]);
       r.Ok? && r.value == e.value
  }

  lemma SpanStandsAlone(c: Limits, data: seq<byte>, e: Entry, depth: nat)
    requires Usable(c, |data|) && e.start < e.end <= |data| && Yields(c, data, e.start, depth, e.value, e.end)
    ensures StandsAlone(c, data, e)
  {
    var part := data[e.start..e.end];
    assert part[0..|part|] == part;
    ValueMoves(c, data, e.start, depth, e.value, e.end, part, 0, |part|, 0);
  }

  /** What the rest of a dictionary's entries must satisfy for its spans to tile its bytes. */
  ghost predicate Tiled(c: Limits, data: seq<byte>, pos: nat, rest: seq<Entry>, end: nat) {
    && (forall i :: 0 <= i < |rest| ==> pos < rest[i].start && StandsAlone(c, data, rest[i]))
    && (forall i, j :: 0 <= i < j < |rest| ==> rest[i].end < rest[j].start)
    && pos <= end <= |data|
    && data[pos..end] == Pieces(data, rest) + [TOKEN_END]
  }

  lemma TiledMore(c: Limits, data: seq<byte>, pos: nat, e: Entry, rest: seq<Entry>, end: nat)
    requires pos < e.start && StandsAlone(c, data, e) && Tiled(c, data, e.end, rest, end)
    requires data[pos..e.start] == EncodeBytes(e.key)
    ensures Tiled(c, data, pos, [e] + rest, end)
  {
    assert ([e] + rest)[1..] == rest;
    ThreeParts(data, pos, e.start, e.end, end);
  }

  lemma ThreeParts(data: seq<byte>, a: nat, b: nat, c: nat, d: nat)
    requires a <= b <= c <= d <= |data|
    ensures data[a..d] == data[a..b] + data[b..c] + data[c..d]
  {
  }

  lemma FirstSpan(c: Limits, data: seq<byte>, pos: nat, done: seq<Entry>, all: seq<Entry>, end: nat) returns (e: Entry)
    requires Usable(c, |data|) && Good(c, done) && EntriesAre(c, data, pos, 0, done, all, end)
    requires pos < |data| && data[pos] != TOKEN_END
    ensures Good(c, done + [e]) && EntriesAre(c, data, e.end, 0, done + [e], all, end)
    ensures pos < e.start < e.end <= |data| && StandsAlone(c, data, e) && data[pos..e.start] == EncodeBytes(e.key)
  {
    e := EntriesUnfold(c, data, pos, 0, done, all, end);
    KeyIsText(c, data, pos, 1);
    GoodMore(c, done, e);
    SpanStandsAlone(c, data, e, 1);
  }

  /** The spans from `pos` on, in order and without a gap but for the keys. */
  lemma {:induction false} EntriesTile(c: Limits, data: seq<byte>, pos: nat, done: seq<Entry>, all: seq<Entry>,
                                       end: nat)
    requires Usable(c, |data|) && Good(c, done) && EntriesAre(c, data, pos, 0, done, all, end)
    ensures done <= all && Distinct(all) && Tiled(c, data, pos, all[|done|..], end)
    decreases |data| - pos
  {
    if data[pos] == TOKEN_END {
      assert all[|done|..] == [];
      assert data[pos..end] == [TOKEN_END];
    } else {
      var e := FirstSpan(c, data, pos, done, all, end);
      EntriesTile(c, data, e.end, done + [e], all, end);
      FromThere(done, e, all);
      TiledMore(c, data, pos, e, all[|done| + 1..], end);
    }
  }

  /** The whole input is the opening marker, then every key followed by its span, then the closing
      marker; the spans are ordered and disjoint; and each one decoded alone is its key's value. */
  lemma SpansTileInput(c: Limits, data: seq<byte>)
    requires DecodeSpans(c, data).Ok?
    ensures var entries := DecodeSpans(c, data).value;
            && (forall i :: 0 <= i < |entries| ==> StandsAlone(c, data, entries[i]))
            && (forall i, j :: 0 <= i < j < |entries| ==> entries[i].end < entries[j].start)
            && Distinct(entries) && data == [TOKEN_DICT] + Pieces(data, entries) + [TOKEN_END]
  {
    var (all, end) := ParseEntries(c, data, 1, 0, []).value;
    EntriesTile(c, data, 1, [], all, end);
    assert all[0..] == all;
    assert data == [data[0]] + data[1..end];
  }

  /** The mapping has exactly the keys of the spans, each with the value of its span. */
  lemma SpansCoverMapping(c: Limits, data: seq<byte>)
    requires DecodeSpans(c, data).Ok?
    ensures var entries := DecodeSpans(c, data).value;
            && Decode(c, data) == Ok(Dict(MapOf(entries)))
            && (forall k :: k in MapOf(entries) <==> exists i :: 0 <= i < |entries| && entries[i].key == k)
            && forall i :: 0 <= i < |entries| ==> MapOf(entries)[entries[i].key] == entries[i].value
  {
    SpansTileInput(c, data);
    MapHasEntries(DecodeSpans(c, data).value);
  }
}
