/** What decoding without sorted keys accepts: the texts of a value with the keys of every dictionary
    in some order. */
module BencodeOrders {
  import opened Basics
  import opened Digits
  import opened BencodeSpec
  import opened BencodeProofs
  import opened BencodeTheorems

  /** A value with an order for the keys of each of its dictionaries. */
  datatype Tree =
    | Leaf(v: Value)
    | Listed(items: seq<Tree>)
    | Keyed(pairs: seq<Pair>)

  datatype Pair = Pair(key: seq<byte>, value: Tree)

  ghost function Text(t: Tree): seq<byte>
    decreases t, 1
  {
    match t
    case Leaf(v) => Encode(v)
    case Listed(items) => [TOKEN_LIST] + TextItems(items) + [TOKEN_END]
    case Keyed(pairs) => [TOKEN_DICT] + TextPairs(pairs) + [TOKEN_END]
  }

  ghost function TextItems(items: seq<Tree>): seq<byte>
    decreases items, 0
  {
    if items == [] then [] else Text(items[0]) + TextItems(items[1..])
  }

  ghost function TextPairs(pairs: seq<Pair>): seq<byte>
    decreases pairs, 0
  {
    if pairs == [] then []
    else EncodeBytes(pairs[0].key) + Text(pairs[0].value) + TextPairs(pairs[1..])
  }

  function PairKeys(pairs: seq<Pair>): (r: seq<seq<byte>>)
    ensures |r| == |pairs|
  {
    seq(|pairs|, i requires 0 <= i < |pairs| => pairs[i].key)
  }

  /** `t` is `v` with its keys in some order: the same leaves, the same items in the same order, and
      every key of a dictionary once. */
  ghost predicate Arranges(t: Tree, v: Value) {
    match t
    case Leaf(w) => (w.Int? || w.Bytes?) && v == w
    case Listed(items) =>
      v.List? && |v.items| == |items| && forall i :: 0 <= i < |items| ==> Arranges(items[i], v.items[i])
    case Keyed(pairs) =>
      && v.Dict? && NoRepeats(PairKeys(pairs))
      && (forall k :: k in v.entries <==> k in PairKeys(pairs))
      && forall i :: 0 <= i < |pairs| ==>
           pairs[i].key in v.entries && Arranges(pairs[i].value, v.entries[pairs[i].key])
  }

  /** `data` is the text of `v` up to the order of keys. */
  ghost predicate SomeOrder(v: Value, data: seq<byte>) {
    exists t :: Arranges(t, v) && Text(t) == data
  }

  // ------------------------------------------------------------------- soundness

  lemma SplitAt(data: seq<byte>, a: nat, b: nat, c: nat)
    requires a <= b <= c <= |data|
    ensures data[a..c] == data[a..b] + data[b..c]
  {
  }

  /** The order in which a value was read. */
  lemma {:induction false} TreeOf(c: Limits, data: seq<byte>, pos: nat, depth: nat, v: Value, end: nat)
    returns (t: Tree)
    requires c.maxDepth >= 0 && Yields(c, data, pos, depth, v, end)
    ensures Arranges(t, v) && end <= |data| && data[pos..end] == Text(t)
    decreases end - pos, 1
  {
    if IsDigit(data[pos]) {
      BytesSound(data, pos);
      t := Leaf(v);
    } else if data[pos] == TOKEN_INT {
      IntSound(data, pos);
      t := Leaf(v);
    } else if data[pos] == TOKEN_LIST {
      var items := ItemsOf(c, data, pos + 1, depth, [], v.items, end);
      t := Listed(items);
      Opened(data, pos, end, TextItems(items));
    } else {
      var all := ParseEntries(c, data, pos + 1, depth, []).value.0;
      var pairs := PairsOf(c, data, pos + 1, depth, [], all, end);
      t := Keyed(pairs);
      Opened(data, pos, end, TextPairs(pairs));
      PairsArrange(all, pairs);
    }
  }

  lemma Opened(data: seq<byte>, pos: nat, end: nat, body: seq<byte>)
    requires pos < end <= |data| && data[pos + 1..end] == body + [TOKEN_END]
    ensures data[pos..end] == [data[pos]] + body + [TOKEN_END]
  {
    SplitAt(data, pos, pos + 1, end);
  }

  /** Each item arranges its value. */
  ghost predicate Matches(items: seq<Tree>, values: seq<Value>) {
    |items| == |values| && forall i :: 0 <= i < |items| ==> Arranges(items[i], values[i])
  }

  lemma {:induction false} ItemsOf(c: Limits, data: seq<byte>, pos: nat, depth: nat, done: seq<Value>,
                                   all: seq<Value>, end: nat)
    returns (items: seq<Tree>)
    requires c.maxDepth >= 0 && ItemsYield(c, data, pos, depth, done, all, end)
    ensures done <= all && Matches(items, all[|done|..])
    ensures end <= |data| && data[pos..end] == TextItems(items) + [TOKEN_END]
    decreases end - pos, 2
  {
    if data[pos] == TOKEN_END {
      items := [];
      NoItemsLeft(c, data, pos, depth, done, all, end);
    } else {
      var v, next := ItemsUnfold(c, data, pos, depth, done, all, end);
      var t := TreeOf(c, data, pos, depth + 1, v, next);
      var rest := ItemsOf(c, data, next, depth, done + [v], all, end);
      items := [t] + rest;
      FirstTree(data, pos, next, end, t, rest);
      ItemsFrom(done, v, all);
      Prepended(t, rest, v, all[|done| + 1..]);
    }
  }

  lemma NoItemsLeft(c: Limits, data: seq<byte>, pos: nat, depth: nat, done: seq<Value>, all: seq<Value>, end: nat)
    requires pos < |data| && data[pos] == TOKEN_END && ItemsYield(c, data, pos, depth, done, all, end)
    ensures all == done && end == pos + 1 && data[pos..end] == TextItems([]) + [TOKEN_END]
  {
  }

  lemma FirstTree(data: seq<byte>, pos: nat, next: nat, end: nat, t: Tree, rest: seq<Tree>)
    requires pos <= next <= end <= |data| && data[pos..next] == Text(t)
    requires data[next..end] == TextItems(rest) + [TOKEN_END]
    ensures data[pos..end] == TextItems([t] + rest) + [TOKEN_END]
  {
    assert ([t] + rest)[1..] == rest;
    SplitTrees([t] + rest);
    SplitAt(data, pos, next, end);
  }

  lemma ItemsFrom(done: seq<Value>, v: Value, all: seq<Value>)
    requires done + [v] <= all
    ensures done <= all && |done + [v]| == |done| + 1 && all[|done|..] == [v] + all[|done| + 1..]
  {
    assert all[|done|] == (done + [v])[|done|];
  }

  lemma Prepended(t: Tree, rest: seq<Tree>, v: Value, values: seq<Value>)
    requires Arranges(t, v) && Matches(rest, values)
    ensures Matches([t] + rest, [v] + values)
  {
  }

  /** Each pair has the key of its entry and arranges its value. */
  ghost predicate Follows(pairs: seq<Pair>, entries: seq<Entry>) {
    && |pairs| == |entries|
    && forall i :: 0 <= i < |pairs| ==> pairs[i].key == entries[i].key && Arranges(pairs[i].value, entries[i].value)
  }

  lemma {:induction false} PairsOf(c: Limits, data: seq<byte>, pos: nat, depth: nat, done: seq<Entry>,
                                   all: seq<Entry>, end: nat)
    returns (pairs: seq<Pair>)
    requires c.maxDepth >= 0 && Distinct(done) && EntriesAre(c, data, pos, depth, done, all, end)
    ensures done <= all && Distinct(all) && Follows(pairs, all[|done|..])
    ensures end <= |data| && data[pos..end] == TextPairs(pairs) + [TOKEN_END]
    decreases end - pos, 3
  {
    if data[pos] == TOKEN_END {
      pairs := [];
      assert data[pos..end] == [TOKEN_END];
    } else {
      var e := EntriesUnfold(c, data, pos, depth, done, all, end);
      KeyIsText(c, data, pos, depth + 1);
      var t := TreeOf(c, data, e.start, depth + 1, e.value, e.end);
      StillDistinct(done, e);
      var rest := PairsOf(c, data, e.end, depth, done + [e], all, end);
      pairs := [Pair(e.key, t)] + rest;
      FirstPair(data, pos, e, end, t, rest);
      FromThere(done, e, all);
    }
  }

  lemma StillDistinct(done: seq<Entry>, e: Entry)
    requires Distinct(done) && e.key !in KeysOf(done)
    ensures Distinct(done + [e])
  {
    assert forall i :: 0 <= i < |done| ==> KeysOf(done)[i] == done[i].key;
  }

  lemma FirstPair(data: seq<byte>, pos: nat, e: Entry, end: nat, t: Tree, rest: seq<Pair>)
    requires pos <= e.start <= e.end <= end <= |data| && data[pos..e.start] == EncodeBytes(e.key)
    requires data[e.start..e.end] == Text(t) && data[e.end..end] == TextPairs(rest) + [TOKEN_END]
    ensures data[pos..end] == TextPairs([Pair(e.key, t)] + rest) + [TOKEN_END]
  {
    assert ([Pair(e.key, t)] + rest)[1..] == rest;
    ThreeParts(data, pos, e.start, e.end, end);
  }

  lemma PairsArrange(all: seq<Entry>, pairs: seq<Pair>)
    requires Distinct(all) && Follows(pairs, all)
    ensures Arranges(Keyed(pairs), Dict(MapOf(all)))
  {
    MapHasEntries(all);
    assert PairKeys(pairs) == KeysOf(all);
    assert forall i :: 0 <= i < |all| ==> KeysOf(all)[i] == all[i].key;
  }

  // ---------------------------------------------------------------- completeness

  lemma HeadOfText(t: Tree, v: Value)
    requires Arranges(t, v)
    ensures Text(t) != [] && Text(t)[0] != TOKEN_END
  {
    if t.Leaf? {
      HeadOfEncode(v);
    }
  }

  /** Any text of a value up to the order of keys is read back, whole, from wherever it stands. */
  lemma {:induction false} TreeComplete(c: Limits, data: seq<byte>, pos: nat, t: Tree, v: Value, depth: nat)
    requires c.maxDepth >= 0 && !c.requireSorted && Arranges(t, v) && Within(v, depth, c.maxDepth)
    requires Holds(data, pos, Text(t))
    ensures Yields(c, data, pos, depth, v, pos + |Text(t)|)
    decreases t, 1
  {
    match t {
      case Leaf(_) => LeafComplete(c, data, pos, v, depth);
      case Listed(_) => ListedComplete(c, data, pos, t, v, depth);
      case Keyed(_) => KeyedComplete(c, data, pos, t, v, depth);
    }
  }

  lemma {:induction false} ListedComplete(c: Limits, data: seq<byte>, pos: nat, t: Tree, v: Value, depth: nat)
    requires c.maxDepth >= 0 && !c.requireSorted && t.Listed? && Arranges(t, v) && Within(v, depth, c.maxDepth)
    requires Holds(data, pos, Text(t))
    ensures Yields(c, data, pos, depth, v, pos + |Text(t)|)
    decreases t, 0, |t.items| + 1
  {
    BodyHolds(data, pos, TOKEN_LIST, TextItems(t.items));
    assert forall i :: 0 <= i < |v.items| ==> v.items[i] in v.items;
    TreeItemsComplete(c, data, pos + 1, t, t.items, v.items, depth, []);
    assert [] + v.items == v.items;
  }

  lemma {:induction false} KeyedComplete(c: Limits, data: seq<byte>, pos: nat, t: Tree, v: Value, depth: nat)
    requires c.maxDepth >= 0 && !c.requireSorted && t.Keyed? && Arranges(t, v) && Within(v, depth, c.maxDepth)
    requires Holds(data, pos, Text(t))
    ensures Yields(c, data, pos, depth, v, pos + |Text(t)|)
    decreases t, 0, |t.pairs| + 3
  {
    BodyHolds(data, pos, TOKEN_DICT, TextPairs(t.pairs));
    assert KeysOf([]) + PairKeys(t.pairs) == PairKeys(t.pairs);
    var all := TreePairsComplete(c, data, pos + 1, t, v, t.pairs, depth, []);
    EntriesMakeTheDict(v, PairKeys(t.pairs), all);
    DictFrom(c, data, pos, depth, v, pos + |Text(t)|);
  }

  lemma BodyHolds(data: seq<byte>, pos: nat, token: byte, body: seq<byte>)
    requires Holds(data, pos, [token] + body + [TOKEN_END])
    ensures pos < |data| && data[pos] == token && Holds(data, pos + 1, body + [TOKEN_END])
  {
    assert [token] + body + [TOKEN_END] == [token] + (body + [TOKEN_END]);
    HoldsParts(data, pos, [token], body + [TOKEN_END]);
    HoldsHead(data, pos, [token] + body + [TOKEN_END]);
  }

  lemma {:induction false} TreeItemsComplete(c: Limits, data: seq<byte>, pos: nat, l: Tree, items: seq<Tree>,
                                             values: seq<Value>, depth: nat, done: seq<Value>)
    requires c.maxDepth >= 0 && !c.requireSorted && l.Listed? && |items| == |values|
    requires forall x :: x in items ==> x in l.items
    requires forall i :: 0 <= i < |items| ==> Arranges(items[i], values[i]) && Within(values[i], depth + 1, c.maxDepth)
    requires Holds(data, pos, TextItems(items) + [TOKEN_END])
    ensures ItemsYield(c, data, pos, depth, done, done + values, pos + |TextItems(items)| + 1)
    decreases l, 0, |items|
  {
    if items == [] {
      HoldsHead(data, pos, TextItems(items) + [TOKEN_END]);
      assert done + values == done;
    } else {
      var v, rest := values[0], items[1..];
      var next := pos + |Text(items[0])|;
      HeadOfItems(data, pos, items, v);
      TreeComplete(c, data, pos, items[0], v, depth + 1);
      TreeItemsComplete(c, data, next, l, rest, values[1..], depth, done + [v]);
      OntoDone(done, values);
      ItemsStep(c, data, pos, depth, done, v, next, done + [v] + values[1..], next + |TextItems(rest)| + 1);
    }
  }

  lemma HeadOfItems(data: seq<byte>, pos: nat, items: seq<Tree>, v: Value)
    requires items != [] && Arranges(items[0], v) && Holds(data, pos, TextItems(items) + [TOKEN_END])
    ensures items[0] in items && forall x :: x in items[1..] ==> x in items
    ensures pos < |data| && data[pos] != TOKEN_END && Holds(data, pos, Text(items[0]))
    ensures Holds(data, pos + |Text(items[0])|, TextItems(items[1..]) + [TOKEN_END])
    ensures |TextItems(items)| == |Text(items[0])| + |TextItems(items[1..])|
  {
    SplitTrees(items);
    HoldsParts(data, pos, Text(items[0]), TextItems(items[1..]) + [TOKEN_END]);
    HeadOfText(items[0], v);
    HoldsHead(data, pos, Text(items[0]));
  }

  lemma SplitTrees(items: seq<Tree>)
    requires items != []
    ensures TextItems(items) + [TOKEN_END] == Text(items[0]) + (TextItems(items[1..]) + [TOKEN_END])
    ensures |TextItems(items)| == |Text(items[0])| + |TextItems(items[1..])|
  {
  }

  /** What is left to read of a dictionary's pairs. */
  ghost predicate Remaining(d: Value, pairs: seq<Pair>, done: seq<Entry>, depth: nat, maxDepth: nat) {
    && d.Dict? && NoRepeats(KeysOf(done) + PairKeys(pairs)) && Within(d, depth, maxDepth)
    && forall i :: 0 <= i < |pairs| ==> pairs[i].key in d.entries && Arranges(pairs[i].value, d.entries[pairs[i].key])
  }

  lemma {:induction false} TreePairsComplete(c: Limits, data: seq<byte>, pos: nat, t: Tree, d: Value, pairs: seq<Pair>,
                                             depth: nat, done: seq<Entry>) returns (all: seq<Entry>)
    requires c.maxDepth >= 0 && !c.requireSorted && t.Keyed? && forall x :: x in pairs ==> x in t.pairs
    requires Remaining(d, pairs, done, depth, c.maxDepth)
    requires Holds(data, pos, TextPairs(pairs) + [TOKEN_END])
    ensures EntriesAre(c, data, pos, depth, done, all, pos + |TextPairs(pairs)| + 1)
    ensures ReadEntries(d, PairKeys(pairs), done, all)
    decreases t, 0, |pairs| + 2
  {
    if pairs == [] {
      HoldsHead(data, pos, TextPairs(pairs) + [TOKEN_END]);
      all := done;
      assert KeysOf(done) + PairKeys(pairs) == KeysOf(done);
    } else {
      HeadOfPairs(data, pos, pairs);
      NextIsNew(d, pairs, done, depth, c.maxDepth);
      var e := PairComplete(c, data, pos, t, d, pairs[0], depth, done);
      NextRemains(d, pairs, done, e, depth, c.maxDepth);
      all := TreePairsComplete(c, data, e.end, t, d, pairs[1..], depth, done + [e]);
      OneMoreEntry(d, PairKeys(pairs), done, e, all);
      EntriesAreMore(c, data, pos, depth, done, e, all, pos + |TextPairs(pairs)| + 1);
    }
  }

  lemma {:induction false} PairMember(c: Limits, data: seq<byte>, pos: nat, t: Tree, d: Value, p: Pair, depth: nat,
                                      start: nat)
    requires c.maxDepth >= 0 && !c.requireSorted && t.Keyed? && p in t.pairs
    requires d.Dict? && Within(d, depth, c.maxDepth) && p.key in d.entries && Arranges(p.value, d.entries[p.key])
    requires Holds(data, pos, EncodeBytes(p.key)) && start == pos + |EncodeBytes(p.key)|
    requires Holds(data, start, Text(p.value))
    ensures pos < |data| && data[pos] != TOKEN_END && Yields(c, data, pos, depth + 1, Bytes(p.key), start)
    ensures Yields(c, data, start, depth + 1, d.entries[p.key], start + |Text(p.value)|)
    decreases t, 0, 0
  {
    MemberWithin(d, p.key, depth, c.maxDepth);
    KeyComplete(c, data, pos, p.key, depth + 1);
    TreeComplete(c, data, start, p.value, d.entries[p.key], depth + 1);
  }

  lemma {:induction false} PairComplete(c: Limits, data: seq<byte>, pos: nat, t: Tree, d: Value, p: Pair,
                                        depth: nat, done: seq<Entry>) returns (e: Entry)
    requires c.maxDepth >= 0 && !c.requireSorted && t.Keyed? && p in t.pairs && p.key !in KeysOf(done)
    requires d.Dict? && Within(d, depth, c.maxDepth) && p.key in d.entries && Arranges(p.value, d.entries[p.key])
    requires Holds(data, pos, EncodeBytes(p.key)) && Holds(data, pos + |EncodeBytes(p.key)|, Text(p.value))
    ensures e.key == p.key && e.value == d.entries[p.key]
    ensures e.end == pos + |EncodeBytes(p.key)| + |Text(p.value)|
    ensures EntryYields(c, data, pos, depth, done, e) && data[pos] != TOKEN_END
    decreases t, 0, 1
  {
    var start := pos + |EncodeBytes(p.key)|;
    e := Entry(p.key, d.entries[p.key], start, start + |Text(p.value)|);
    PairMember(c, data, pos, t, d, p, depth, start);
    EntryFromLenient(c, data, pos, depth, done, e);
  }

  lemma NextIsNew(d: Value, pairs: seq<Pair>, done: seq<Entry>, depth: nat, maxDepth: nat)
    requires pairs != [] && Remaining(d, pairs, done, depth, maxDepth)
    ensures pairs[0].key !in KeysOf(done)
  {
    var all := KeysOf(done) + PairKeys(pairs);
    assert all[|done|] == pairs[0].key;
    assert forall i :: 0 <= i < |done| ==> all[i] == KeysOf(done)[i];
  }

  lemma NextRemains(d: Value, pairs: seq<Pair>, done: seq<Entry>, e: Entry, depth: nat, maxDepth: nat)
    requires pairs != [] && e.key == pairs[0].key && Remaining(d, pairs, done, depth, maxDepth)
    ensures Remaining(d, pairs[1..], done + [e], depth, maxDepth)
    ensures PairKeys(pairs)[0] == e.key && PairKeys(pairs)[1..] == PairKeys(pairs[1..])
  {
    assert KeysOf(done + [e]) + PairKeys(pairs[1..]) == KeysOf(done) + PairKeys(pairs);
  }

  lemma EntriesAreMore(c: Limits, data: seq<byte>, pos: nat, depth: nat, done: seq<Entry>, e: Entry, all: seq<Entry>,
                       end: nat)
    requires EntryYields(c, data, pos, depth, done, e) && data[pos] != TOKEN_END
    requires EntriesAre(c, data, e.end, depth, done + [e], all, end)
    ensures EntriesAre(c, data, pos, depth, done, all, end)
  {
    assert ParseEntry(c, data, pos, depth, done).value == e;
  }

  lemma HeadOfPairs(data: seq<byte>, pos: nat, pairs: seq<Pair>)
    requires pairs != [] && Holds(data, pos, TextPairs(pairs) + [TOKEN_END])
    ensures pairs[0] in pairs && forall x :: x in pairs[1..] ==> x in pairs
    ensures var start := pos + |EncodeBytes(pairs[0].key)|;
            var end := start + |Text(pairs[0].value)|;
            && Holds(data, pos, EncodeBytes(pairs[0].key)) && Holds(data, start, Text(pairs[0].value))
            && Holds(data, end, TextPairs(pairs[1..]) + [TOKEN_END])
            && pos + |TextPairs(pairs)| == end + |TextPairs(pairs[1..])|
  {
    SplitPair(pairs);
    HoldsThree(data, pos, EncodeBytes(pairs[0].key), Text(pairs[0].value), TextPairs(pairs[1..]) + [TOKEN_END]);
  }

  lemma SplitPair(pairs: seq<Pair>)
    requires pairs != []
    ensures TextPairs(pairs) + [TOKEN_END] ==
            EncodeBytes(pairs[0].key) + (Text(pairs[0].value) + (TextPairs(pairs[1..]) + [TOKEN_END]))
    ensures |TextPairs(pairs)| == |EncodeBytes(pairs[0].key)| + |Text(pairs[0].value)| + |TextPairs(pairs[1..])|
  {
    Regroup(EncodeBytes(pairs[0].key), Text(pairs[0].value), TextPairs(pairs[1..]), [TOKEN_END]);
  }

  lemma HoldsThree(data: seq<byte>, pos: nat, a: seq<byte>, b: seq<byte>, r: seq<byte>)
    requires Holds(data, pos, a + (b + r))
    ensures Holds(data, pos, a) && Holds(data, pos + |a|, b) && Holds(data, pos + |a| + |b|, r)
  {
    HoldsParts(data, pos, a, b + r);
    HoldsParts(data, pos + |a|, b, r);
  }

  // -------------------------------------------------------------------- theorems

  /** Without the flag, exactly the texts of values within the limits are accepted, with the keys of
      every dictionary in any order, and each is read as its value. */
  lemma LenientAcceptsExactly(c: Limits, data: seq<byte>, v: Value)
    requires !c.requireSorted && Usable(c, |data|)
    ensures Decode(c, data) == Ok(v) <==> Within(v, 0, c.maxDepth) && SomeOrder(v, data)
  {
    assert data[0..|data|] == data;
    if Decode(c, data) == Ok(v) {
      DecodedIsWithin(c, data);
      var t := TreeOf(c, data, 0, 0, v, |data|);
    }
    if Within(v, 0, c.maxDepth) && SomeOrder(v, data) {
      var t :| Arranges(t, v) && Text(t) == data;
      TreeComplete(c, data, 0, t, v, 0);
    }
  }

  /** The order of keys costs no bytes, and the canonical text is one of the orders. */
  lemma OrdersHaveOneSize(maxDepth: nat, v: Value, data: seq<byte>)
    requires 1 <= maxDepth && Within(v, 0, maxDepth)
    ensures SomeOrder(v, Encode(v))
    ensures SomeOrder(v, data) ==> |data| == |Encode(v)|
  {
    var canonical := Limits(maxDepth, |Encode(v)|, false);
    RoundTrip(canonical, v);
    LenientAcceptsExactly(canonical, Encode(v), v);
    if SomeOrder(v, data) {
      var c := Limits(maxDepth, |data|, false);
      LenientAcceptsExactly(c, data, v);
      LenientKeepsSize(c, data);
    }
  }
}
