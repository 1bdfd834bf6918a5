/** Metadata exchange (app/peer/metadata_exchange.py): the messages, the serving side, and what a
    download assembles. */
module Metadata {
  import opened Basics
  import opened Digits
  import opened BencodeSpec
  import opened BencodeTheorems

  const PIECE_SIZE: nat := 16384
  const MAX_PIECES: nat := 2048
  const REQUEST_PIPELINE: nat := 4

  const REQUEST: int := 0
  const DATA: int := 1
  const REJECT: int := 2

  const MSG_TYPE: seq<byte> := [0x6D, 0x73, 0x67, 0x5F, 0x74, 0x79, 0x70, 0x65]
  const PIECE: seq<byte> := [0x70, 0x69, 0x65, 0x63, 0x65]
  const TOTAL_SIZE: seq<byte> := [0x74, 0x6F, 0x74, 0x61, 0x6C, 0x5F, 0x73, 0x69, 0x7A, 0x65]

  const LIMITS := Limits(DEFAULT_MAX_DEPTH, DEFAULT_MAX_LENGTH, false)

  datatype Metamessage = Metamessage(kind: int, piece: nat, totalSize: Option<int>, chunk: seq<byte>)

  datatype MetadataError =
    | Unreadable | NotADict | NoType | NoPiece
    | TooManyPieces | Unfinished | Rejected | NoSuchPiece | SizeChanged | WrongLength | StreamFailed

  // -------------------------------------------------------------------- messages

  ghost function EncodeRequest(piece: int): seq<byte> {
    Encode(Dict(map[MSG_TYPE := Int(REQUEST), PIECE := Int(piece)]))
  }

  ghost function EncodeData(piece: int, totalSize: int, chunk: seq<byte>): seq<byte> {
    Encode(Dict(map[MSG_TYPE := Int(DATA), PIECE := Int(piece), TOTAL_SIZE := Int(totalSize)])) + chunk
  }

  ghost function EncodeReject(piece: int): seq<byte> {
    Encode(Dict(map[MSG_TYPE := Int(REJECT), PIECE := Int(piece)]))
  }

  function IntAt(m: map<seq<byte>, Value>, k: seq<byte>): Option<int> {
    if k in m && m[k].Int? then Some(m[k].i) else None
  }

  /** The header, and whatever follows it as the chunk. */
  function DecodeMessage(payload: seq<byte>): (r: Result<Metamessage, MetadataError>)
    ensures r.Ok? ==> |r.value.chunk| < |payload|
    ensures r.Err? ==> r.error.Unreadable? || r.error.NotADict? || r.error.NoType? || r.error.NoPiece?
  {
    match DecodePrefix(LIMITS, payload)
    case Err(_) => Err(Unreadable)
    case Ok((header, consumed)) =>
      if !header.Dict? then Err(NotADict)
      else
        var kind, piece := IntAt(header.entries, MSG_TYPE), IntAt(header.entries, PIECE);
        if kind.None? then Err(NoType)
        else if piece.None? || piece.value < 0 then Err(NoPiece)
        else Ok(Metamessage(kind.value, piece.value, IntAt(header.entries, TOTAL_SIZE), payload[consumed..]))
  }

  lemma NamesDiffer()
    ensures MSG_TYPE != PIECE && MSG_TYPE != TOTAL_SIZE && PIECE != TOTAL_SIZE
    ensures |MSG_TYPE| == 8 && |PIECE| == 5 && |TOTAL_SIZE| == 10
  {
  }

  lemma HeaderWithin(m: map<seq<byte>, Value>)
    requires m.Keys <= {MSG_TYPE, PIECE, TOTAL_SIZE}
    requires forall k :: k in m ==> m[k].Int? && |IntText(m[k].i)| <= MAX_INT_DIGITS
    ensures Within(Dict(m), 0, DEFAULT_MAX_DEPTH)
  {
    NamesDiffer();
    forall k | k in m
      ensures |Decimal(|k|)| <= MAX_LENGTH_DIGITS && Within(m[k], 1, DEFAULT_MAX_DEPTH)
    {
      assert k == MSG_TYPE || k == PIECE || k == TOTAL_SIZE;
      assert |Decimal(10)| == |Decimal(1)| + 1;
    }
  }

  lemma HeaderReadsBack(m: map<seq<byte>, Value>, chunk: seq<byte>)
    requires m.Keys <= {MSG_TYPE, PIECE, TOTAL_SIZE}
    requires forall k :: k in m ==> m[k].Int? && |IntText(m[k].i)| <= MAX_INT_DIGITS
    requires |Encode(Dict(m)) + chunk| <= DEFAULT_MAX_LENGTH
    requires IntAt(m, MSG_TYPE).Some? && IntAt(m, PIECE).Some? && IntAt(m, PIECE).value >= 0
    ensures DecodeMessage(Encode(Dict(m)) + chunk) ==
            Ok(Metamessage(IntAt(m, MSG_TYPE).value, IntAt(m, PIECE).value, IntAt(m, TOTAL_SIZE), chunk))
  {
    HeaderWithin(m);
    PrefixRoundTrip(LIMITS, Dict(m), chunk);
    assert (Encode(Dict(m)) + chunk)[|Encode(Dict(m))|..] == chunk;
  }

  ghost predicate Printable(i: int) {
    |IntText(i)| <= MAX_INT_DIGITS
  }

  /** A data message is read back as it was written, the chunk byte for byte. */
  lemma DataRoundTrip(piece: nat, totalSize: int, chunk: seq<byte>)
    requires Printable(piece) && Printable(totalSize) && |EncodeData(piece, totalSize, chunk)| <= DEFAULT_MAX_LENGTH
    ensures DecodeMessage(EncodeData(piece, totalSize, chunk)) == Ok(Metamessage(DATA, piece, Some(totalSize), chunk))
  {
    NamesDiffer();
    SmallNumbers();
    HeaderReadsBack(map[MSG_TYPE := Int(DATA), PIECE := Int(piece), TOTAL_SIZE := Int(totalSize)], chunk);
  }

  lemma RequestRoundTrip(piece: nat)
    requires Printable(piece) && |EncodeRequest(piece)| <= DEFAULT_MAX_LENGTH
    ensures DecodeMessage(EncodeRequest(piece)) == Ok(Metamessage(REQUEST, piece, None, []))
  {
    NamesDiffer();
    SmallNumbers();
    var m := map[MSG_TYPE := Int(REQUEST), PIECE := Int(piece)];
    assert Encode(Dict(m)) + [] == Encode(Dict(m));
    HeaderReadsBack(m, []);
  }

  lemma RejectRoundTrip(piece: nat)
    requires Printable(piece) && |EncodeReject(piece)| <= DEFAULT_MAX_LENGTH
    ensures DecodeMessage(EncodeReject(piece)) == Ok(Metamessage(REJECT, piece, None, []))
  {
    NamesDiffer();
    SmallNumbers();
    var m := map[MSG_TYPE := Int(REJECT), PIECE := Int(piece)];
    assert Encode(Dict(m)) + [] == Encode(Dict(m));
    HeaderReadsBack(m, []);
  }

  lemma SmallNumbers()
    ensures Printable(REQUEST) && Printable(DATA) && Printable(REJECT)
  {
  }

  // ---------------------------------------------------------------------- chunks

  /** How many chunks a dictionary of `size` bytes is asked for in. */
  function PiecesOf(size: int): (n: nat)
    ensures n >= 1 && (size > 0 ==> (n - 1) * PIECE_SIZE < size <= n * PIECE_SIZE)
  {
    Max(1, (size + PIECE_SIZE - 1) / PIECE_SIZE)
  }

  function Expected(size: int, piece: nat): int {
    Min(PIECE_SIZE, size - piece * PIECE_SIZE)
  }

  function Split(raw: seq<byte>): (chunks: seq<seq<byte>>)
    ensures forall c :: c in chunks ==> 0 < |c| <= PIECE_SIZE
    decreases |raw|
  {
    if raw == [] then []
    else if |raw| <= PIECE_SIZE then [raw]
    else [raw[..PIECE_SIZE]] + Split(raw[PIECE_SIZE..])
  }

  function ChunkAt(raw: seq<byte>, i: nat): seq<byte>
    requires i * PIECE_SIZE <= |raw|
  {
    raw[i * PIECE_SIZE..Min(|raw|, (i + 1) * PIECE_SIZE)]
  }

  lemma SliceOfRest(raw: seq<byte>, k: nat, from: nat, to: nat)
    requires k <= from <= to <= |raw|
    ensures raw[k..][from - k..to - k] == raw[from..to]
  {
    forall x | 0 <= x < to - from
      ensures raw[k..][from - k..to - k][x] == raw[from..to][x]
    {
      assert raw[k..][from - k + x] == raw[from + x];
    }
  }

  /** The serving side and the fetching side cut the same bytes at the same places. */
  lemma {:induction false} SplitAt(raw: seq<byte>, i: nat)
    requires raw != []
    ensures |Split(raw)| == PiecesOf(|raw|)
    ensures i < |Split(raw)| ==>
              i * PIECE_SIZE <= |raw| && Split(raw)[i] == ChunkAt(raw, i) && |Split(raw)[i]| == Expected(|raw|, i)
    decreases |raw|
  {
    if |raw| > PIECE_SIZE {
      var rest := raw[PIECE_SIZE..];
      SplitAt(rest, if i > 0 then i - 1 else 0);
      if 0 < i < |Split(raw)| {
        assert Split(raw)[i] == Split(rest)[i - 1];
        var from, to := i * PIECE_SIZE, Min(|raw|, (i + 1) * PIECE_SIZE);
        SliceOfRest(raw, PIECE_SIZE, from, to);
      }
      assert Split(raw)[0] == raw[..PIECE_SIZE] == ChunkAt(raw, 0);
    } else {
      assert Split(raw) == [raw] && ChunkAt(raw, 0) == raw;
    }
  }

  // --------------------------------------------------------------------- serving

  /** What the server replies to one message, or nothing when it was not a request. */
  ghost function Answer(raw: seq<byte>, payload: seq<byte>): Option<seq<byte>> {
    match DecodeMessage(payload)
    case Err(_) => None
    case Ok(m) =>
      if m.kind != REQUEST then None
      else if m.piece >= |Split(raw)| then Some(EncodeReject(m.piece))
      else Some(EncodeData(m.piece, |raw|, Split(raw)[m.piece]))
  }

  ghost predicate Served(raw: seq<byte>, payload: seq<byte>) {
    exists request :: Answer(raw, request) == Some(payload)
  }

  /** A reply that a server of `raw` sent and that reads as data carries the right chunk. */
  ghost predicate Faithful(raw: seq<byte>, m: Metamessage) {
    m.kind != REJECT ==>
      && m.kind == DATA && m.totalSize == Some(|raw|)
      && m.piece < |Split(raw)| && m.chunk == Split(raw)[m.piece]
  }

  lemma MetadataSizesPrint(n: nat)
    requires n <= MAX_PIECES * PIECE_SIZE
    ensures Printable(n)
  {
    assert Power(4) == 10000;
    assert Power(8) == 10000 * Power(4) by {
      assert Power(6) == 100 * Power(4);
    }
    DigitsBound(n, 8);
  }

  lemma ServedIsFaithful(raw: seq<byte>, payload: seq<byte>)
    requires raw != [] && |raw| <= MAX_PIECES * PIECE_SIZE
    requires Served(raw, payload) && DecodeMessage(payload).Ok?
    ensures Faithful(raw, DecodeMessage(payload).value)
  {
    var request :| Answer(raw, request) == Some(payload);
    var m := DecodeMessage(request).value;
    RequestPrints(request);
    MetadataSizesPrint(|raw|);
    ReadableIsShort(payload);
    if m.piece >= |Split(raw)| {
      RejectRoundTrip(m.piece);
    } else {
      DataRoundTrip(m.piece, |raw|, Split(raw)[m.piece]);
    }
  }

  lemma NamesSpelled()
    ensures MSG_TYPE == Ascii("msg_type") && PIECE == Ascii("piece") && TOTAL_SIZE == Ascii("total_size")
  {
  }

  lemma ShortName(k: seq<byte>)
    requires k in {MSG_TYPE, PIECE, TOTAL_SIZE}
    ensures |EncodeBytes(k)| <= 13
  {
    assert |Decimal(10)| == |Decimal(1)| + 1;
  }

  lemma RejectIsShort(piece: nat)
    requires Printable(piece)
    ensures |EncodeReject(piece)| <= 1100
  {
    NamesDiffer();
    var m := map[MSG_TYPE := Int(REJECT), PIECE := Int(piece)];
    assert SplitsAt(MSG_TYPE, PIECE, 0);
    CanonicalKeyOrder(m, [MSG_TYPE, PIECE]);
    TwoPairs(Dict(m), MSG_TYPE, PIECE);
    ShortName(MSG_TYPE);
    ShortName(PIECE);
    assert |Encode(Int(REJECT))| == 3 && |Encode(Int(piece))| <= 1026;
  }

  lemma DataIsShort(piece: nat, totalSize: nat, chunk: seq<byte>)
    requires Printable(piece) && Printable(totalSize) && |chunk| <= PIECE_SIZE
    ensures |EncodeData(piece, totalSize, chunk)| <= 20000
  {
    NamesDiffer();
    var m := map[MSG_TYPE := Int(DATA), PIECE := Int(piece), TOTAL_SIZE := Int(totalSize)];
    var keys := [MSG_TYPE, PIECE, TOTAL_SIZE];
    assert SplitsAt(MSG_TYPE, PIECE, 0) && SplitsAt(PIECE, TOTAL_SIZE, 0) && SplitsAt(MSG_TYPE, TOTAL_SIZE, 0);
    CanonicalKeyOrder(m, keys);
    assert keys[1..] == [PIECE, TOTAL_SIZE];
    TwoPairs(Dict(m), PIECE, TOTAL_SIZE);
    ShortName(MSG_TYPE);
    ShortName(PIECE);
    ShortName(TOTAL_SIZE);
    assert |Encode(Int(DATA))| == 3 && |Encode(Int(piece))| <= 1026 && |Encode(Int(totalSize))| <= 1026;
  }

  /** A readable request for a chunk that exists is answered with that chunk and the true size, one for a
      chunk that does not exist with a rejection, and anything else with nothing. */
  lemma AnswersAreRight(raw: seq<byte>, payload: seq<byte>)
    requires raw != [] && |raw| <= MAX_PIECES * PIECE_SIZE
    ensures var d, a := DecodeMessage(payload), Answer(raw, payload);
            && (a.Some? <==> d.Ok? && d.value.kind == 0)
            && (a.Some? ==>
                  DecodeMessage(a.value) ==
                  if d.value.piece * 16384 < |raw| then
                    Ok(Metamessage(1, d.value.piece, Some(|raw|),
                                   raw[d.value.piece * 16384..Min(|raw|, (d.value.piece + 1) * 16384)]))
                  else Ok(Metamessage(2, d.value.piece, None, [])))
  {
    if DecodeMessage(payload).Ok? {
      var i := DecodeMessage(payload).value.piece;
      RequestPrints(payload);
      MetadataSizesPrint(|raw|);
      SplitAt(raw, i);
      if i < |Split(raw)| {
        DataIsShort(i, |raw|, Split(raw)[i]);
        DataRoundTrip(i, |raw|, Split(raw)[i]);
      } else {
        RejectIsShort(i);
        RejectRoundTrip(i);
      }
    }
  }

  lemma ReadableIsShort(payload: seq<byte>)
    requires DecodeMessage(payload).Ok?
    ensures |payload| <= DEFAULT_MAX_LENGTH
  {
  }

  /** A number that was read can be printed within the limits it was read under. */
  lemma RequestPrints(request: seq<byte>)
    requires DecodeMessage(request).Ok?
    ensures Printable(DecodeMessage(request).value.piece)
  {
    DecodedIsWithin(LIMITS, request);
    var header := DecodePrefix(LIMITS, request).value.0;
    assert Within(header.entries[PIECE], 1, DEFAULT_MAX_DEPTH);
  }
}
