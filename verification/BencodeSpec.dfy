/** Bencoding as app/bencode writes and reads it: the canonical text of a value, and the strict
    cursor parser as a function of the input. */
module BencodeSpec {
  import opened Basics
  import opened Digits

  datatype Value =
    | Int(i: int)
    | Bytes(b: seq<byte>)
    | List(items: seq<Value>)
    | Dict(entries: map<seq<byte>, Value>)

  const TOKEN_INT: byte := 0x69
  const TOKEN_LIST: byte := 0x6C
  const TOKEN_DICT: byte := 0x64
  const TOKEN_END: byte := 0x65
  const TOKEN_COLON: byte := 0x3A
  const TOKEN_MINUS: byte := 0x2D

  const MAX_LENGTH_DIGITS: nat := 20
  const MAX_INT_DIGITS: nat := 1024
  const DEFAULT_MAX_DEPTH: nat := 100
  const DEFAULT_MAX_LENGTH: nat := 67108864

  // ------------------------------------------------------------------- encoding

  function IntText(i: int): (s: seq<byte>)
    ensures s != []
  {
    if i < 0 then [TOKEN_MINUS] + Decimal(-i) else Decimal(i)
  }

  function EncodeBytes(b: seq<byte>): (s: seq<byte>)
    ensures s != []
  {
    Decimal(|b|) + [TOKEN_COLON] + b
  }

  /** The canonical text of a value; dictionary keys in ascending byte order. */
  ghost function Encode(v: Value): (s: seq<byte>)
    ensures s != []
    decreases v, 1
  {
    match v
    case Int(i) => [TOKEN_INT] + IntText(i) + [TOKEN_END]
    case Bytes(b) => EncodeBytes(b)
    case List(items) => [TOKEN_LIST] + EncodeItems(items) + [TOKEN_END]
    case Dict(m) => [TOKEN_DICT] + EncodePairs(v, Sorted(m.Keys)) + [TOKEN_END]
  }

  ghost function EncodeItems(items: seq<Value>): seq<byte>
    decreases items, 0
  {
    if items == [] then [] else Encode(items[0]) + EncodeItems(items[1..])
  }

  ghost function EncodePairs(d: Value, keys: seq<seq<byte>>): seq<byte>
    requires d.Dict? && forall k :: k in keys ==> k in d.entries
    decreases d, 0, |keys|
  {
    if keys == [] then []
    else EncodeBytes(keys[0]) + Encode(d.entries[keys[0]]) + EncodePairs(d, keys[1..])
  }

  /** What fits the decoder's limits at a given nesting depth. */
  ghost predicate Within(v: Value, depth: nat, maxDepth: nat)
    decreases v, 1
  {
    && depth <= maxDepth
    && match v
       case Int(i) => |IntText(i)| <= MAX_INT_DIGITS
       case Bytes(b) => |Decimal(|b|)| <= MAX_LENGTH_DIGITS
       case List(items) => forall x :: x in items ==> Within(x, depth + 1, maxDepth)
       case Dict(m) =>
         forall k :: k in m ==>
           && |Decimal(|k|)| <= MAX_LENGTH_DIGITS && depth + 1 <= maxDepth
           && Within(m[k], depth + 1, maxDepth)
  }

  // ------------------------------------------------------------------- decoding

  datatype ErrorKind =
    | TooLarge | BadLimits | TooDeep | UnexpectedEnd | InvalidToken | Unterminated
    | EmptyInteger | Malformed | TokenTooLong | LeadingZero | NegativeZero | TooShort
    | KeyNotBytes | DuplicateKey | UnsortedKey | TrailingData | NotADictionary

  datatype DecodeError = DecodeError(kind: ErrorKind, position: int)

  datatype Limits = Limits(maxDepth: int, maxLength: int, requireSorted: bool)

  /** `bytes.find`: the first position at or after `from`, or -1. */
  function Find(data: seq<byte>, b: byte, from: nat): (r: int)
    ensures r == -1 || (from <= r < |data| && data[r] == b)
    ensures r == -1 ==> forall i :: from <= i < |data| ==> data[i] != b
    ensures r != -1 ==> forall i :: from <= i < r ==> data[i] != b
    decreases |data| - from
  {
    if from >= |data| then -1
    else if data[from] == b then from
    else Find(data, b, from + 1)
  }

  function IntOf(raw: seq<byte>, start: nat): Result<int, DecodeError> {
    if raw == [] then Err(DecodeError(EmptyInteger, start))
    else if |raw| > MAX_INT_DIGITS then Err(DecodeError(TokenTooLong, start))
    else
      var negative := raw[0] == TOKEN_MINUS;
      var digits := if negative then raw[1..] else raw;
      if digits == [] || !AllDigits(digits) then Err(DecodeError(Malformed, start))
      else if |digits| > 1 && digits[0] == ZERO then Err(DecodeError(LeadingZero, start))
      else if negative && digits == [ZERO] then Err(DecodeError(NegativeZero, start))
      else
        var n: int := Number(digits);
        Ok(if negative then -n else n)
  }

  function ParseInt(data: seq<byte>, start: nat): (r: Result<(Value, nat), DecodeError>)
    requires start < |data|
    ensures r.Ok? ==> r.value.0.Int? && start < r.value.1 <= |data|
  {
    var end := Find(data, TOKEN_END, start + 1);
    if end == -1 then Err(DecodeError(Unterminated, start))
    else
      match IntOf(data[start + 1..end], start)
      case Err(e) => Err(e)
      case Ok(i) => Ok((Int(i), end + 1))
  }

  function ParseBytes(data: seq<byte>, start: nat): (r: Result<(Value, nat), DecodeError>)
    requires start < |data|
    ensures r.Ok? ==> r.value.0.Bytes? && start < r.value.1 <= |data|
  {
    var colon := Find(data, TOKEN_COLON, start);
    if colon == -1 then Err(DecodeError(Unterminated, start))
    else
      var digits := data[start..colon];
      if digits == [] || !AllDigits(digits) then Err(DecodeError(Malformed, start))
      else if |digits| > MAX_LENGTH_DIGITS then Err(DecodeError(TokenTooLong, start))
      else if |digits| > 1 && digits[0] == ZERO then Err(DecodeError(LeadingZero, start))
      else
        var end := colon + 1 + Number(digits);
        if end > |data| then Err(DecodeError(TooShort, start))
        else Ok((Bytes(data[colon + 1..end]), end))
  }

  /** A dictionary entry as it was read: its key, and its value with the bytes it came from. */
  datatype Entry = Entry(key: seq<byte>, value: Value, start: nat, end: nat)

  function KeysOf(entries: seq<Entry>): (r: seq<seq<byte>>)
    ensures |r| == |entries|
  {
    seq(|entries|, i requires 0 <= i < |entries| => entries[i].key)
  }

  function MapOf(entries: seq<Entry>): map<seq<byte>, Value> {
    if entries == [] then map[]
    else MapOf(entries[..|entries| - 1])[entries[|entries| - 1].key := entries[|entries| - 1].value]
  }

  function ParseValue(c: Limits, data: seq<byte>, pos: nat, depth: nat): (r: Result<(Value, nat), DecodeError>)
    requires pos <= |data|
    ensures r.Ok? ==> pos < r.value.1 <= |data|
    decreases |data| - pos, 1
  {
    if depth > c.maxDepth then Err(DecodeError(TooDeep, pos))
    else if pos >= |data| then Err(DecodeError(UnexpectedEnd, pos))
    else if IsDigit(data[pos]) then ParseBytes(data, pos)
    else if data[pos] == TOKEN_INT then ParseInt(data, pos)
    else if data[pos] == TOKEN_LIST then
      match ParseItems(c, data, pos + 1, depth, [])
      case Err(e) => Err(e)
      case Ok((items, end)) => Ok((List(items), end))
    else if data[pos] == TOKEN_DICT then
      match ParseEntries(c, data, pos + 1, depth, [])
      case Err(e) => Err(e)
      case Ok((entries, end)) => Ok((Dict(MapOf(entries)), end))
    else Err(DecodeError(InvalidToken, pos))
  }

  /** The loop of `_decode_list`, with the items read so far. */
  function ParseItems(c: Limits, data: seq<byte>, pos: nat, depth: nat, items: seq<Value>)
    : (r: Result<(seq<Value>, nat), DecodeError>)
    requires pos <= |data|
    ensures r.Ok? ==> pos < r.value.1 <= |data|
    decreases |data| - pos, 2
  {
    if pos >= |data| then Err(DecodeError(Unterminated, pos))
    else if data[pos] == TOKEN_END then Ok((items, pos + 1))
    else
      match ParseValue(c, data, pos, depth + 1)
      case Err(e) => Err(e)
      case Ok((v, next)) => ParseItems(c, data, next, depth, items + [v])
  }

  /** The loop of `_decode_dict`, with the entries read so far. */
  function ParseEntries(c: Limits, data: seq<byte>, pos: nat, depth: nat, entries: seq<Entry>)
    : (r: Result<(seq<Entry>, nat), DecodeError>)
    requires pos <= |data|
    ensures r.Ok? ==> pos < r.value.1 <= |data|
    decreases |data| - pos, 3
  {
    if pos >= |data| then Err(DecodeError(Unterminated, pos))
    else if data[pos] == TOKEN_END then Ok((entries, pos + 1))
    else
      match ParseEntry(c, data, pos, depth, entries)
      case Err(e) => Err(e)
      case Ok(entry) => ParseEntries(c, data, entry.end, depth, entries + [entry])
  }

  function ParseEntry(c: Limits, data: seq<byte>, pos: nat, depth: nat, entries: seq<Entry>)
    : (r: Result<Entry, DecodeError>)
    requires pos < |data|
    ensures r.Ok? ==> pos < r.value.start < r.value.end <= |data|
    decreases |data| - pos, 2
  {
    match ParseValue(c, data, pos, depth + 1)
    case Err(e) => Err(e)
    case Ok((key, start)) =>
      if !key.Bytes? then Err(DecodeError(KeyNotBytes, pos))
      else if key.b in KeysOf(entries) then Err(DecodeError(DuplicateKey, pos))
      else if c.requireSorted && entries != [] && Less(key.b, entries[|entries| - 1].key) then
        Err(DecodeError(UnsortedKey, pos))
      else
        match ParseValue(c, data, start, depth + 1)
        case Err(e) => Err(e)
        case Ok((value, end)) => Ok(Entry(key.b, value, start, end))
  }

  // ----------------------------------------------------------------- top level

  function Opening(c: Limits, data: seq<byte>): Option<DecodeError> {
    if |data| > c.maxLength then Some(DecodeError(TooLarge, -1))
    else if c.maxDepth < 1 then Some(DecodeError(BadLimits, -1))
    else None
  }

  /** `decode_prefix`: one value and how many bytes it took; what follows is ignored. */
  function DecodePrefix(c: Limits, data: seq<byte>): Result<(Value, nat), DecodeError> {
    match Opening(c, data)
    case Some(e) => Err(e)
    case None => ParseValue(c, data, 0, 0)
  }

  /** `decode`: one value and nothing after it. */
  function Decode(c: Limits, data: seq<byte>): Result<Value, DecodeError> {
    match DecodePrefix(c, data)
    case Err(e) => Err(e)
    case Ok((v, end)) => if end != |data| then Err(DecodeError(TrailingData, end)) else Ok(v)
  }

  /** `decode_mapping_with_spans`: the entries of a top-level dictionary with their byte ranges. */
  function DecodeSpans(c: Limits, data: seq<byte>): Result<seq<Entry>, DecodeError> {
    match Opening(c, data)
    case Some(e) => Err(e)
    case None =>
      if data == [] || data[0] != TOKEN_DICT then Err(DecodeError(NotADictionary, 0))
      else
        match ParseEntries(c, data, 1, 0, [])
        case Err(e) => Err(e)
        case Ok((entries, end)) => if end != |data| then Err(DecodeError(TrailingData, end)) else Ok(entries)
  }
}
