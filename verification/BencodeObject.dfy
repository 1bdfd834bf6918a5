/** The cursor-driven decoder and the appending encoder of app/bencode, each held to the functions
    that say what it computes. */
module BencodeObject {
  import opened Basics
  import opened Digits
  import opened BencodeSpec
  import opened BencodeProofs
  import opened BencodeTheorems

  /** The byte range recorded for every key. */
  function SpansOf(entries: seq<Entry>): map<seq<byte>, (nat, nat)> {
    if entries == [] then map[]
    else
      var last := entries[|entries| - 1];
      SpansOf(entries[..|entries| - 1])[last.key := (last.start, last.end)]
  }

  lemma OneMore(done: seq<Entry>, e: Entry)
    ensures MapOf(done + [e]) == MapOf(done)[e.key := e.value]
    ensures SpansOf(done + [e]) == SpansOf(done)[e.key := (e.start, e.end)]
    ensures KeysOf(done + [e]) == KeysOf(done) + [e.key]
  {
    assert (done + [e])[..|done|] == done;
  }

  lemma {:induction false} SpansAreOfEntries(entries: seq<Entry>)
    requires Distinct(entries)
    ensures SpansOf(entries).Keys == MapOf(entries).Keys
    ensures forall i :: 0 <= i < |entries| ==>
              && entries[i].key in SpansOf(entries)
              && SpansOf(entries)[entries[i].key] == (entries[i].start, entries[i].end)
  {
    if entries != [] {
      var front, last := entries[..|entries| - 1], entries[|entries| - 1];
      SpansAreOfEntries(front);
      assert forall i :: 0 <= i < |front| ==> front[i] == entries[i] && front[i].key != last.key;
    }
  }

  class Decoder {
    const data: seq<byte>
    const limits: Limits
    var pos: nat

    constructor (data: seq<byte>, limits: Limits)
      ensures this.data == data && this.limits == limits && pos == 0
    {
      this.data, this.limits, this.pos := data, limits, 0;
    }

    /** The checks of `__init__`, before there is a decoder. */
    static method Open(data: seq<byte>, limits: Limits) returns (r: Result<Decoder, DecodeError>)
      ensures r.Ok? <==> |data| <= limits.maxLength && limits.maxDepth >= 1
      ensures r.Ok? ==> fresh(r.value) && r.value.data == data && r.value.limits == limits && r.value.pos == 0
      ensures match Opening(limits, data) case None => r.Ok? case Some(e) => r == Err(e)
    {
      if |data| > limits.maxLength {
        return Err(DecodeError(TooLarge, -1));
      }
      if limits.maxDepth < 1 {
        return Err(DecodeError(BadLimits, -1));
      }
      var d := new Decoder(data, limits);
      return Ok(d);
    }

    /** The result and the cursor are those of the specification. */
    ghost predicate Read(spec: Result<(Value, nat), DecodeError>, r: Result<Value, DecodeError>)
      reads this
    {
      match spec
      case Err(e) => r.Err? && r.error == e
      case Ok((v, end)) => r.Ok? && r.value == v && pos == end
    }

    method DecodeInt() returns (r: Result<Value, DecodeError>)
      requires pos < |data|
      modifies this`pos
      ensures Read(ParseInt(data, old(pos)), r)
    {
      var start := pos;
      var end := Find(data, TOKEN_END, start + 1);
      if end == -1 {
        return Err(DecodeError(Unterminated, start));
      }
      var raw := data[start + 1..end];
      if raw == [] {
        return Err(DecodeError(EmptyInteger, start));
      }
      if |raw| > MAX_INT_DIGITS {
        return Err(DecodeError(TokenTooLong, start));
      }
      var negative := raw[0] == TOKEN_MINUS;
      var digits := if negative then raw[1..] else raw;
      if digits == [] || !AllDigits(digits) {
        return Err(DecodeError(Malformed, start));
      }
      if |digits| > 1 && digits[0] == ZERO {
        return Err(DecodeError(LeadingZero, start));
      }
      if negative && digits == [ZERO] {
        return Err(DecodeError(NegativeZero, start));
      }
      pos := end + 1;
      var n: int := Number(digits);
      return Ok(Int(if negative then -n else n));
    }

    method DecodeBytes() returns (r: Result<Value, DecodeError>)
      requires pos < |data|
      modifies this`pos
      ensures Read(ParseBytes(data, old(pos)), r)
    {
      var start := pos;
      var colon := Find(data, TOKEN_COLON, start);
      if colon == -1 {
        return Err(DecodeError(Unterminated, start));
      }
      var digits := data[start..colon];
      if digits == [] || !AllDigits(digits) {
        return Err(DecodeError(Malformed, start));
      }
      if |digits| > MAX_LENGTH_DIGITS {
        return Err(DecodeError(TokenTooLong, start));
      }
      if |digits| > 1 && digits[0] == ZERO {
        return Err(DecodeError(LeadingZero, start));
      }
      var begin := colon + 1;
      var end := begin + Number(digits);
      if end > |data| {
        return Err(DecodeError(TooShort, start));
      }
      pos := end;
      return Ok(Bytes(data[begin..end]));
    }

    method DecodeValue(depth: nat) returns (r: Result<Value, DecodeError>)
      requires pos <= |data|
      modifies this`pos
      ensures Read(ParseValue(limits, data, old(pos), depth), r)
      decreases |data| - pos, 1
    {
      if depth > limits.maxDepth {
        return Err(DecodeError(TooDeep, pos));
      }
      if pos >= |data| {
        return Err(DecodeError(UnexpectedEnd, pos));
      }
      var token := data[pos];
      if IsDigit(token) {
        r := DecodeBytes();
      } else if token == TOKEN_INT {
        r := DecodeInt();
      } else if token == TOKEN_LIST {
        r := DecodeList(depth);
      } else if token == TOKEN_DICT {
        var mapping, spans := DecodeDict(depth);
        r := match mapping case Err(e) => Err(e) case Ok(m) => Ok(Dict(m));
      } else {
        r := Err(DecodeError(InvalidToken, pos));
      }
    }

    method DecodeList(depth: nat) returns (r: Result<Value, DecodeError>)
      requires pos < |data| && depth <= limits.maxDepth && data[pos] == TOKEN_LIST
      modifies this`pos
      ensures Read(ParseValue(limits, data, old(pos), depth), r)
      decreases |data| - pos, 0
    {
      ghost var whole := ParseItems(limits, data, pos + 1, depth, []);
      ghost var at := pos;
      pos := pos + 1;
      var items := [];
      while true
        invariant at < pos <= |data|
        invariant whole == ParseItems(limits, data, pos, depth, items)
        decreases |data| - pos
      {
        if pos >= |data| {
          return Err(DecodeError(Unterminated, pos));
        }
        if data[pos] == TOKEN_END {
          pos := pos + 1;
          return Ok(List(items));
        }
        var item := DecodeValue(depth + 1);
        if item.Err? {
          return Err(item.error);
        }
        items := items + [item.value];
      }
    }

    /** The mapping, its spans and the cursor are those of the entries read. */
    ghost predicate ReadDict(spec: Result<(seq<Entry>, nat), DecodeError>,
                             mapping: Result<map<seq<byte>, Value>, DecodeError>, spans: map<seq<byte>, (nat, nat)>)
      reads this
    {
      match spec
      case Err(e) => mapping.Err? && mapping.error == e
      case Ok((entries, end)) =>
        mapping.Ok? && mapping.value == MapOf(entries) && spans == SpansOf(entries) && pos == end
    }

    /** One key and its value, after the keys in `seen`. */
    method DecodeEntry(depth: nat, seen: map<seq<byte>, Value>, previous: Option<seq<byte>>, ghost done: seq<Entry>)
      returns (r: Result<Entry, DecodeError>)
      requires pos < |data|
      requires forall k :: k in seen <==> k in KeysOf(done)
      requires previous == if done == [] then None else Some(done[|done| - 1].key)
      modifies this`pos
      ensures r == ParseEntry(limits, data, old(pos), depth, done)
      ensures r.Ok? ==> pos == r.value.end
      decreases |data| - pos, 2
    {
      var at := pos;
      var key := DecodeValue(depth + 1);
      if key.Err? {
        return Err(key.error);
      }
      if !key.value.Bytes? {
        return Err(DecodeError(KeyNotBytes, at));
      }
      if key.value.b in seen {
        return Err(DecodeError(DuplicateKey, at));
      }
      if limits.requireSorted && previous.Some? && Less(key.value.b, previous.value) {
        return Err(DecodeError(UnsortedKey, at));
      }
      var start := pos;
      var value := DecodeValue(depth + 1);
      if value.Err? {
        return Err(value.error);
      }
      return Ok(Entry(key.value.b, value.value, start, pos));
    }

    method DecodeDict(depth: nat)
      returns (r: Result<map<seq<byte>, Value>, DecodeError>, spans: map<seq<byte>, (nat, nat)>)
      requires pos < |data|
      modifies this`pos
      ensures ReadDict(ParseEntries(limits, data, old(pos) + 1, depth, []), r, spans)
      decreases |data| - pos, 0
    {
      ghost var whole := ParseEntries(limits, data, pos + 1, depth, []);
      ghost var at := pos;
      ghost var done: seq<Entry> := [];
      pos := pos + 1;
      var mapping: map<seq<byte>, Value> := map[];
      var previous := None;
      spans := map[];
      while true
        invariant at < pos <= |data|
        invariant whole == ParseEntries(limits, data, pos, depth, done)
        invariant mapping == MapOf(done) && spans == SpansOf(done)
        invariant forall k :: k in mapping <==> k in KeysOf(done)
        invariant previous == if done == [] then None else Some(done[|done| - 1].key)
        decreases |data| - pos
      {
        if pos >= |data| {
          return Err(DecodeError(Unterminated, pos)), spans;
        }
        if data[pos] == TOKEN_END {
          pos := pos + 1;
          return Ok(mapping), spans;
        }
        var entry := DecodeEntry(depth, mapping, previous, done);
        if entry.Err? {
          return Err(entry.error), spans;
        }
        var e := entry.value;
        previous := Some(e.key);
        mapping := mapping[e.key := e.value];
        spans := spans[e.key := (e.start, e.end)];
        OneMore(done, e);
        done := done + [e];
      }
    }

    method DecodePrefix() returns (r: Result<Value, DecodeError>)
      requires pos == 0 && Opening(limits, data) == None
      modifies this`pos
      ensures Read(BencodeSpec.DecodePrefix(limits, data), r)
    {
      r := DecodeValue(0);
    }

    method Decode() returns (r: Result<Value, DecodeError>)
      requires pos == 0 && Opening(limits, data) == None
      modifies this`pos
      ensures r == BencodeSpec.Decode(limits, data)
      ensures r.Ok? ==> pos == |data| == |Encode(r.value)|
    {
      r := DecodeValue(0);
      if r.Ok? && pos != |data| {
        return Err(DecodeError(TrailingData, pos));
      }
      if r.Ok? {
        LenientKeepsSize(limits, data);
      }
    }

    /** Every key of the mapping has a span, and that part of the input decodes to its value. */
    method DecodeMappingWithSpans()
      returns (r: Result<map<seq<byte>, Value>, DecodeError>, spans: map<seq<byte>, (nat, nat)>)
      requires pos == 0 && Opening(limits, data) == None
      modifies this`pos
      ensures match DecodeSpans(limits, data)
              case Err(e) => r.Err? && r.error == e
              case Ok(entries) => r.Ok? && r.value == MapOf(entries) && spans == SpansOf(entries)
      ensures r.Ok? ==> spans.Keys == r.value.Keys && forall k :: k in spans ==> SpanOf(k, r.value, spans)
    {
      if data == [] || data[0] != TOKEN_DICT {
        return Err(DecodeError(NotADictionary, pos)), map[];
      }
      r, spans := DecodeDict(0);
      if r.Ok? && pos != |data| {
        return Err(DecodeError(TrailingData, pos)), map[];
      }
      if r.Ok? {
        EverySpan(r.value, spans);
      }
    }

    ghost predicate SpanOf(k: seq<byte>, mapping: map<seq<byte>, Value>, spans: map<seq<byte>, (nat, nat)>) {
      k in spans && k in mapping && StandsAlone(limits, data, Entry(k, mapping[k], spans[k].0, spans[k].1))
    }

    lemma EverySpan(mapping: map<seq<byte>, Value>, spans: map<seq<byte>, (nat, nat)>)
      requires DecodeSpans(limits, data).Ok?
      requires mapping == MapOf(DecodeSpans(limits, data).value) && spans == SpansOf(DecodeSpans(limits, data).value)
      ensures spans.Keys == mapping.Keys && forall k :: k in spans ==> SpanOf(k, mapping, spans)
    {
      var entries := DecodeSpans(limits, data).value;
      SpansTileInput(limits, data);
      SpansCoverMapping(limits, data);
      SpansAreOfEntries(entries);
      forall k | k in spans
        ensures SpanOf(k, mapping, spans)
      {
        var i :| 0 <= i < |entries| && entries[i].key == k;
        assert StandsAlone(limits, data, entries[i]);
      }
    }
  }

  class Encoder {
    var out: seq<byte>

    constructor ()
      ensures out == []
    {
      out := [];
    }

    method EncodeTop(value: Value) returns (text: seq<byte>)
      modifies this`out
      ensures text == Encode(value) && out == text
    {
      out := [];
      EncodeValue(value);
      text := out;
    }

    method EncodeValue(value: Value)
      modifies this`out
      ensures out == old(out) + Encode(value)
      decreases value, 1
    {
      match value {
        case Int(i) => out := out + ([TOKEN_INT] + IntText(i) + [TOKEN_END]);
        case Bytes(b) => out := out + EncodeBytes(b);
        case List(items) => EncodeList(value);
        case Dict(entries) => EncodeDict(value);
      }
    }

    method EncodeList(list: Value)
      requires list.List?
      modifies this`out
      ensures out == old(out) + Encode(list)
      decreases list, 0, 1
    {
      out := out + [TOKEN_LIST];
      EncodeEach(list);
      out := out + [TOKEN_END];
      Wrapped(old(out), [TOKEN_LIST], EncodeItems(list.items));
    }

    /** The items between the markers. */
    method EncodeEach(list: Value)
      requires list.List?
      modifies this`out
      ensures out == old(out) + EncodeItems(list.items)
      decreases list, 0, 0
    {
      var items := list.items;
      for i := 0 to |items|
        invariant out + EncodeItems(items[i..]) == old(out) + EncodeItems(items)
      {
        ghost var before := out;
        EncodeValue(items[i]);
        NextItem(before, items, i);
      }
    }

    static lemma Wrapped(before: seq<byte>, open: seq<byte>, text: seq<byte>)
      ensures before + open + text + [TOKEN_END] == before + (open + text + [TOKEN_END])
    {
    }

    static lemma NextItem(before: seq<byte>, items: seq<Value>, i: nat)
      requires i < |items|
      ensures before + EncodeItems(items[i..]) == before + Encode(items[i]) + EncodeItems(items[i + 1..])
    {
      assert items[i..][1..] == items[i + 1..] && items[i..][0] == items[i];
    }

    method EncodeDict(dict: Value)
      requires dict.Dict?
      modifies this`out
      ensures out == old(out) + Encode(dict)
      decreases dict, 0, 1
    {
      var keys := SortKeys(dict.entries.Keys);
      AscendingUnique(keys, Sorted(dict.entries.Keys));
      out := out + [TOKEN_DICT];
      EncodeMembers(dict, keys);
      out := out + [TOKEN_END];
      Wrapped(old(out), [TOKEN_DICT], EncodePairs(dict, keys));
    }

    /** The keys in the order given, each followed by its value. */
    method EncodeMembers(dict: Value, keys: seq<seq<byte>>)
      requires dict.Dict? && forall k :: k in keys ==> k in dict.entries
      modifies this`out
      ensures out == old(out) + EncodePairs(dict, keys)
      decreases dict, 0, 0
    {
      for i := 0 to |keys|
        invariant out + EncodePairs(dict, keys[i..]) == old(out) + EncodePairs(dict, keys)
      {
        NextPair(out, dict, keys, i);
        out := out + EncodeBytes(keys[i]);
        EncodeValue(dict.entries[keys[i]]);
      }
    }

    static lemma NextPair(before: seq<byte>, dict: Value, keys: seq<seq<byte>>, i: nat)
      requires dict.Dict? && i < |keys| && forall k :: k in keys ==> k in dict.entries
      ensures forall k :: k in keys[i..] ==> k in dict.entries
      ensures keys[i] in dict.entries && forall k :: k in keys[i + 1..] ==> k in dict.entries
      ensures before + EncodePairs(dict, keys[i..]) ==
              before + EncodeBytes(keys[i]) + Encode(dict.entries[keys[i]]) + EncodePairs(dict, keys[i + 1..])
    {
      assert keys[i..][1..] == keys[i + 1..] && keys[i..][0] == keys[i] && keys[i] in keys;
    }

    static method SortKeys(keys: set<seq<byte>>) returns (r: seq<seq<byte>>)
      ensures Ascending(r) && forall k :: k in r <==> k in keys
      ensures forall i, j :: 0 <= i < j < |r| ==> Precedes(r[i], r[j])
    {
      r := [];
      var left := keys;
      while left != {}
        invariant left <= keys && Ascending(r) && forall k :: k in r <==> k in keys - left
        decreases |left|
      {
        var k :| k in left;
        InsertKeepsAscending(r, k);
        r := Insert(r, k);
        left := left - {k};
      }
      AscendingInBytes(r);
    }
  }
}
