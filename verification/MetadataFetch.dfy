/** The windowed download of a metadata dictionary, over any arrivals and any clock, and the server it
    downloads from. */
module MetadataFetch {
  import opened Basics
  import opened BencodeSpec
  import opened BencodeObject
  import opened Metadata
  import opened MetadataInbox
  import opened MetadataWindow

  // -------------------------------------------------------------------- assembly

  ghost predicate ChunksFit(received: map<nat, seq<byte>>, size: int, pieces: nat) {
    forall k :: k in received ==> k < pieces && |received[k]| == Expected(size, k)
  }

  lemma ChunkFits(received: map<nat, seq<byte>>, size: int, pieces: nat, piece: nat, chunk: seq<byte>)
    requires ChunksFit(received, size, pieces) && piece < pieces && |chunk| == Expected(size, piece)
    ensures ChunksFit(received[piece := chunk], size, pieces)
  {
  }

  lemma KeptWindow(received: map<nat, seq<byte>>, requested: set<nat>, pieces: nat, log: seq<Move>, piece: nat,
                   chunk: seq<byte>)
    requires Window(received.Keys, requested, pieces, log)
    ensures Window(received[piece := chunk].Keys, requested, pieces, log + [Got(piece)])
  {
    GotOne(received.Keys, requested, pieces, log, piece);
    assert received[piece := chunk].Keys == received.Keys + {piece};
  }

  function Join(received: map<nat, seq<byte>>, n: nat): seq<byte>
    requires forall k :: 0 <= k < n ==> k in received
  {
    if n == 0 then [] else Join(received, n - 1) + received[n - 1]
  }

  lemma {:induction false} JoinHasSize(received: map<nat, seq<byte>>, size: int, n: nat)
    requires n <= PiecesOf(size) && ChunksFit(received, size, PiecesOf(size)) && forall k :: 0 <= k < n ==>
              k in received
    ensures |Join(received, n)| == if n == PiecesOf(size) then size else n * PIECE_SIZE
  {
    if n > 0 {
      JoinHasSize(received, size, n - 1);
      assert |received[n - 1]| == Expected(size, n - 1);
    }
  }

  ghost predicate IsChunk(raw: seq<byte>, received: map<nat, seq<byte>>, k: nat) {
    k in received && k < |Split(raw)| && received[k] == Split(raw)[k]
  }

  lemma UpTo(raw: seq<byte>, a: nat, b: nat)
    requires a <= b <= |raw|
    ensures raw[..b] == raw[..a] + raw[a..b]
  {
  }

  lemma {:induction false} JoinIsRaw(received: map<nat, seq<byte>>, raw: seq<byte>, n: nat)
    requires raw != [] && n <= PiecesOf(|raw|) && forall k :: 0 <= k < n ==> k in received
    requires forall k :: 0 <= k < n ==> IsChunk(raw, received, k)
    ensures Join(received, n) == raw[..Min(|raw|, n * PIECE_SIZE)]
  {
    if n > 0 {
      JoinIsRaw(received, raw, n - 1);
      SplitAt(raw, n - 1);
      assert IsChunk(raw, received, n - 1);
      UpTo(raw, (n - 1) * PIECE_SIZE, Min(|raw|, n * PIECE_SIZE));
    }
  }

  lemma AllHere(received: map<nat, seq<byte>>, pieces: nat)
    requires |received| >= pieces && forall k :: k in received ==> k < pieces
    ensures forall k: nat :: k < pieces ==> k in received
  {
    assert received.Keys <= Below(pieces);
    forall k: nat | k < pieces
      ensures k in received
    {
      if k !in received {
        SubsetSize(received.Keys, Below(pieces) - {k});
      }
    }
  }

  // -------------------------------------------------------------------- download

  /** Every extension message under one of our two ids was sent by a server of `raw`. */
  ghost predicate FromServer(raw: seq<byte>, ids: set<nat>, inbox: seq<Arrival>) {
    forall i :: 0 <= i < |inbox| && inbox[i].Extended? && inbox[i].id in ids ==> Served(raw, inbox[i].payload)
  }

  class Fetch {
    const size: int
    const pieces: nat
    const ids: set<nat>
    const inbox: seq<Arrival>
    ghost const signals: seq<Signal>
    var at: nat
    var received: map<nat, seq<byte>>
    var requested: set<nat>
    var log: seq<Move>

    constructor (size: int, ids: set<nat>, inbox: seq<Arrival>)
      ensures this.size == size && this.pieces == PiecesOf(size) && this.ids == ids && this.inbox == inbox
      ensures signals == Signals(inbox, ids) && Told()
      ensures Valid() && received == map[] && at == 0 && requested == {} && log == []
    {
      this.size, this.pieces, this.ids, this.inbox := size, PiecesOf(size), ids, inbox;
      signals := Signals(inbox, ids);
      at, received, requested, log := 0, map[], {}, [];
      new;
      assert log[..0] == [];
      assert Asked([]) == {} && Arrived([]) == {};
    }

    /** What each arrival means. */
    ghost predicate Told() {
      |signals| == |inbox| && forall i {:trigger SignalOf(inbox[i], ids)} ::
        0 <= i < |inbox| ==> signals[i] == SignalOf(inbox[i], ids)
    }

    ghost predicate Valid()
      reads this
    {
      && pieces == PiecesOf(size) && at <= |inbox|
      && ChunksFit(received, size, pieces)
      && WindowValid()
    }

    ghost predicate WindowValid()
      reads this
    {
      Window(received.Keys, requested, pieces, log)
    }

    /** Chunks taken from a server of `raw` are the chunks of `raw`. */
    ghost predicate Holds(raw: seq<byte>)
      reads this
    {
      HoldsIn(raw, received)
    }

    static ghost predicate HoldsIn(raw: seq<byte>, received: map<nat, seq<byte>>) {
      forall k :: k in received ==> k < |Split(raw)| && received[k] == Split(raw)[k]
    }

    /** Which chunks to ask for in this pass. */
    method ToSend(now: real, windowSentAt: real) returns (r: seq<nat>)
      requires WindowValid()
      ensures r == PassAsks(pieces, requested, received.Keys, now - windowSentAt)
      ensures Sendable(received.Keys, requested, pieces, SetOf(r))
    {
      var missing := Missing(received.Keys, 0, pieces);
      var room := REQUEST_PIPELINE - |requested - received.Keys|;
      r := Take(Unasked(missing, requested), room);
      ChoiceIsSafe(received.Keys, requested, pieces, now - windowSentAt);
      if r == [] && now - windowSentAt >= RETRY_SECONDS {
        r := Take(missing, REQUEST_PIPELINE);
      }
    }

    method SendRequests(indices: seq<nat>)
      requires WindowValid() && Sendable(received.Keys, requested, pieces, SetOf(indices))
      modifies this`requested, this`log
      ensures WindowValid() && requested == old(requested) + SetOf(indices)
      ensures log == old(log) + Asks(indices)
    {
      AskAll(received.Keys, requested, log, indices);
      AskEach(indices);
    }

    method AskEach(indices: seq<nat>)
      modifies this`requested, this`log
      ensures requested == old(requested) + SetOf(indices) && log == old(log) + Asks(indices)
    {
      assert indices[..|indices|] == indices;
      for i := 0 to |indices|
        invariant requested == old(requested) + SetOf(indices[..i])
        invariant log == old(log) + Asks(indices[..i])
      {
        SetOfMore(indices, i);
        AsksMore(old(log), indices, i);
        requested := requested + {indices[i]};
        log := log + [Ask(indices[i])];
      }
    }

    /** The next data or rejection message, passing over everything else; a request is refused and
        passed over too. */
    method ReadMessage() returns (r: Result<Option<Metamessage>, MetadataError>)
      requires at <= |inbox| && Told()
      modifies this`at
      ensures var n := NextStop(signals, old(at));
              && at == Min(n + 1, |inbox|)
              && (n == |inbox| ==> r == Ok(None))
              && (n < |inbox| ==>
                    match signals[n]
                    case Skip => false
                    case Silence => r == Ok(None)
                    case Fatal(e) => r == Err(e)
                    case Reply(m) => r == Ok(Some(m)) && Sends(inbox[n], m))
    {
      while at < |inbox|
        invariant old(at) <= at <= |inbox| && NextStop(signals, at) == NextStop(signals, old(at))
      {
        var arrival := inbox[at];
        assert signals[at] == SignalOf(arrival, ids);
        at := at + 1;
        if arrival.Quiet? {
          return Ok(None);
        }
        if arrival.Broken? {
          return Err(StreamFailed);
        }
        if arrival.Extended? && arrival.id in ids {
          var parsed := DecodeMessage(arrival.payload);
          if parsed.Err? {
            return Err(parsed.error);
          }
          if parsed.value.kind != REQUEST {
            return Ok(Some(parsed.value));
          }
        }
      }
      return Ok(None);
    }

    /** The arrival carries the message under one of our ids. */
    ghost predicate Sends(a: Arrival, m: Metamessage) {
      a.Extended? && a.id in ids && DecodeMessage(a.payload) == Ok(m)
    }

    /** A reply is checked against the range, the announced size and the length its chunk must have. */
    method Accept(m: Metamessage) returns (e: Option<MetadataError>)
      requires Valid()
      modifies this`received, this`log
      ensures Valid()
      ensures e.Some? ==> received == old(received)
      ensures e.None? <==> m.kind != REJECT && m.piece < pieces && (m.totalSize.Some? ==> m.totalSize.value == size)
                           && |m.chunk| == Expected(size, m.piece)
      ensures e.None? ==> received == old(received)[m.piece := m.chunk]
      ensures e == Fault(m, size)
      ensures log == if e.None? then old(log) + [Got(m.piece)] else old(log)
    {
      if m.kind == REJECT {
        return Some(Rejected);
      }
      var expected := Expected(size, m.piece);
      if m.piece >= pieces {
        return Some(NoSuchPiece);
      }
      if m.totalSize.Some? && m.totalSize.value != size {
        return Some(SizeChanged);
      }
      if |m.chunk| != expected {
        return Some(WrongLength);
      }
      Keep(m.piece, m.chunk);
      return None;
    }

    method Keep(piece: nat, chunk: seq<byte>)
      requires Valid() && piece < pieces && |chunk| == Expected(size, piece)
      modifies this`received, this`log
      ensures Valid() && received == old(received)[piece := chunk] && log == old(log) + [Got(piece)]
    {
      ChunkFits(received, size, pieces, piece, chunk);
      KeptWindow(received, requested, pieces, log, piece, chunk);
      received := received[piece := chunk];
      log := log + [Got(piece)];
    }

    ghost predicate Honest(raw: seq<byte>) {
      raw != [] && |raw| == size && size <= MAX_PIECES * PIECE_SIZE && FromServer(raw, ids, inbox)
    }

    /** One pass of the loop. */
    method Step(pass: Pass, windowSentAt: real, ghost raw: seq<byte>, ghost h: History)
      returns (e: Option<MetadataError>, sentAt: real, ghost got: Option<nat>)
      requires Valid() && Told() && (Honest(raw) ==> Holds(raw)) && h.log == log && h.sentAt == windowSentAt
      modifies this
      ensures Valid() && (Honest(raw) ==> Holds(raw))
      ensures Reading(at, received, e, got) == Read(signals, size, old(at), old(received))
      ensures History(log, sentAt) == Following(pieces, h, pass, got)
    {
      ghost var asked, from, before, toSend := requested, at, received, [];
      sentAt, toSend := Request(pass, windowSentAt, raw);
      FollowingIs(pieces, h, pass, toSend, asked, received.Keys, log, sentAt);
      e, got := Receive(raw, from, before);
    }

    /** The sending half of a pass. */
    method Request(pass: Pass, windowSentAt: real, ghost raw: seq<byte>) returns (sentAt: real, ghost asked: seq<nat>)
      requires Valid() && (Honest(raw) ==> Holds(raw))
      modifies this`requested, this`log
      ensures Valid() && (Honest(raw) ==> Holds(raw))
      ensures asked == PassAsks(pieces, old(requested), received.Keys, pass.atRetry - windowSentAt)
      ensures log == old(log) + Asks(asked) && sentAt == if asked != [] then pass.afterSend else windowSentAt
    {
      sentAt := windowSentAt;
      var toSend := ToSend(pass.atRetry, windowSentAt);
      if toSend != [] {
        SendRequests(toSend);
        sentAt := pass.afterSend;
      }
      asked := toSend;
    }

    /** The reading half of a pass. */
    method Receive(ghost raw: seq<byte>, ghost from: nat, ghost before: map<nat, seq<byte>>)
      returns (e: Option<MetadataError>, ghost got: Option<nat>)
      requires Valid() && Told() && (Honest(raw) ==> Holds(raw)) && from == at && before == received
      modifies this`at, this`received, this`log
      ensures Valid() && (Honest(raw) ==> Holds(raw))
      ensures Reading(at, received, e, got) == Read(signals, size, from, before)
      ensures log == old(log) + Gots(got)
    {
      got := None;
      var message := ReadMessage();
      if message.Err? || message.value.None? {
        e := if message.Err? then Some(message.error) else None;
        ReadStops(signals, size, from, before, e);
        return;
      }
      var m := message.value.value;
      HonestReply(raw, at - 1, m, received);
      e := Accept(m);
      got := if e.None? then Some(m.piece) else None;
      ReadReply(signals, size, from, before, m, e, received, got);
    }

    /** An accepted reply of a server of `raw` adds a chunk of `raw`. */
    lemma HonestReply(raw: seq<byte>, i: nat, m: Metamessage, before: map<nat, seq<byte>>)
      requires i < |inbox| && inbox[i].Extended? && inbox[i].id in ids && DecodeMessage(inbox[i].payload) == Ok(m)
      ensures Honest(raw) && m.kind != REJECT && HoldsIn(raw, before) ==> HoldsIn(raw, before[m.piece := m.chunk])
    {
      if Honest(raw) {
        ServedIsFaithful(raw, inbox[i].payload);
      }
    }

    /** Where the download stands after `used` passes. */
    ghost predicate Stands(passes: seq<Pass>, used: nat, windowSentAt: real)
      requires used <= |passes|
      reads this
    {
      && History(log, windowSentAt) == HistoryOf(signals, size, passes, used)
      && at == ReadAll(signals, size, used).at && received == ReadAll(signals, size, used).received
    }

    /** One more pass. */
    method TakePass(passes: seq<Pass>, i: nat, windowSentAt: real, ghost raw: seq<byte>)
      returns (e: Option<MetadataError>, sentAt: real)
      requires Valid() && Told() && (Honest(raw) ==> Holds(raw))
      requires i < |passes| && Stands(passes, i, windowSentAt) && ReadAll(signals, size, i).error == None
      modifies this
      ensures Valid() && (Honest(raw) ==> Holds(raw))
      ensures Stands(passes, i + 1, sentAt) && e == ReadAll(signals, size, i + 1).error
      ensures e.Some? ==> received == old(received)
    {
      ghost var h := History(log, windowSentAt);
      ghost var got;
      e, sentAt, got := Step(passes[i], windowSentAt, raw, h);
      if e.Some? {
        ErrorKeepsChunks(signals, size, i + 1);
      }
    }

    /** Passes until every chunk is here, the deadline passes or a reply is refused. */
    method Run(deadline: real, passes: seq<Pass>, ghost raw: seq<byte>)
      returns (e: Option<MetadataError>, ghost used: nat)
      requires Valid() && Told() && Plain(signals) && received == map[] && at == 0 && log == []
      modifies this
      ensures Valid() && (Honest(raw) ==> Holds(raw))
      ensures e.None? <==> |received| >= pieces
      ensures received == ReadAll(signals, size, used).received && InTime(passes, deadline, used)
      ensures e == ReadAll(signals, size, used).error || OutOfTime(passes, deadline, used)
      ensures e != ReadAll(signals, size, used).error ==>
                e == Some(Unfinished) && ReadAll(signals, size, used).error == None
      ensures log == HistoryOf(signals, size, passes, used).log
    {
      var windowSentAt := 0.0;
      var i: nat := 0;
      while |received| < pieces
        invariant Valid() && (Honest(raw) ==> Holds(raw))
        invariant InTime(passes, deadline, i) && Stands(passes, i, windowSentAt)
        invariant ReadAll(signals, size, i).error == None
        decreases |passes| - i
      {
        if i >= |passes| || passes[i].atStart >= deadline {
          return Some(Unfinished), i;
        }
        OneMoreInTime(passes, deadline, i);
        e, windowSentAt := TakePass(passes, i, windowSentAt, raw);
        i := i + 1;
        if e.Some? {
          return e, i;
        }
      }
      return None, i;
    }
  }

  /** If the download returns, it returns exactly as many bytes as announced; if the replies came from a
      server of `raw`, it returns `raw`; and, returned or not, the window was kept, and the log is the history
      of the passes used. It returns exactly when arrivals that bring every chunk, none of which ends the
      download, can be read in the passes that begin before the deadline; it fails with the error of the first
      arrival that ends it exactly when that one can be read in them first; and otherwise it is unfinished. */
  method Download(size: int, ids: set<nat>, deadline: real, passes: seq<Pass>, inbox: seq<Arrival>,
                  ghost raw: seq<byte>)
    returns (r: Result<seq<byte>, MetadataError>, log: seq<Move>, ghost used: nat)
    ensures r == Err(TooManyPieces) <==> PiecesOf(size) > 2048
    ensures r.Ok? <==> PiecesOf(size) <= 2048 && Succeeds(Signals(inbox, ids), size, passes, deadline)
    ensures forall e :: e != TooManyPieces && e != Unfinished ==>
              (r == Err(e) <==> PiecesOf(size) <= 2048 && FailsWith(Signals(inbox, ids), size, passes, deadline, e))
    ensures r.Ok? ==> |r.value| == size
    ensures r.Ok? && raw != [] && |raw| == size && FromServer(raw, ids, inbox) ==> r.value == raw
    ensures WindowKept(log) && forall m :: m in log ==> m.piece < PiecesOf(size)
    ensures InTime(passes, deadline, used) && log == HistoryOf(Signals(inbox, ids), size, passes, used).log
  {
    var f := new Fetch(size, ids, inbox);
    used := 0;
    if f.pieces > MAX_PIECES {
      LogInRange(f);
      return Err(TooManyPieces), f.log, used;
    }
    SignalsArePlain(inbox, ids);
    var e;
    e, used := f.Run(deadline, passes, raw);
    if e.None? {
      AllHere(f.received, f.pieces);
    }
    Verdict(f.signals, size, passes, deadline, used, e);
    LogInRange(f);
    if e.Some? {
      return Err(e.value), f.log, used;
    }
    WholeIsRaw(f, raw);
    return Ok(Join(f.received, f.pieces)), f.log, used;
  }

  /** With every chunk here, what is joined has the announced size, and is what the server serves. */
  lemma WholeIsRaw(f: Fetch, raw: seq<byte>)
    requires f.Valid() && |f.received| >= f.pieces && (f.Honest(raw) ==> f.Holds(raw))
    ensures forall k: nat :: k < f.pieces ==> k in f.received
    ensures |Join(f.received, f.pieces)| == f.size
    ensures f.Honest(raw) ==> Join(f.received, f.pieces) == raw
  {
    AllHere(f.received, f.pieces);
    JoinHasSize(f.received, f.size, f.pieces);
    if f.Honest(raw) {
      JoinIsRaw(f.received, raw, f.pieces);
      assert raw[..|raw|] == raw;
    }
  }

  lemma LogInRange(f: Fetch)
    requires f.Valid()
    ensures forall m :: m in f.log ==> m.piece < f.pieces
  {
    forall m | m in f.log
      ensures m.piece < f.pieces
    {
      assert m.Ask? ==> m.piece in Asked(f.log);
      assert m.Got? ==> m.piece in Arrived(f.log);
    }
  }

  /** Answers requests for the chunks of one dictionary. */
  class MetadataServer {
    const raw: seq<byte>
    const chunks: seq<seq<byte>>

    constructor (raw: seq<byte>)
      requires raw != []
      ensures this.raw == raw && chunks == Split(raw)
    {
      this.raw, this.chunks := raw, Split(raw);
    }

    method Respond(payload: seq<byte>) returns (r: Option<seq<byte>>)
      requires chunks == Split(raw)
      ensures r == Answer(raw, payload)
      ensures r.Some? ==> Served(raw, r.value)
    {
      var request := DecodeMessage(payload);
      if request.Err? || request.value.kind != REQUEST {
        return None;
      }
      var piece := request.value.piece;
      var encoder := new Encoder();
      if piece >= |chunks| {
        var refusal := encoder.EncodeTop(Dict(map[MSG_TYPE := Int(REJECT), PIECE := Int(piece)]));
        return Some(refusal);
      }
      var header := encoder.EncodeTop(Dict(map[MSG_TYPE := Int(DATA), PIECE := Int(piece), TOTAL_SIZE := Int(|raw|)]));
      return Some(header + chunks[piece]);
    }
  }
}
