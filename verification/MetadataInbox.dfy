/** What a metadata download reads: what each arrival means to it, what a pass takes, and how far a number
    of passes gets. */
module MetadataInbox {
  import opened Basics
  import opened Metadata
  import opened MetadataWindow

  /** What reading from the peer yields: silence until the window closes, a broken stream, a message
      that is not an extension message, or one that is. */
  datatype Arrival = Quiet | Broken | Unrelated | Extended(id: nat, payload: seq<byte>)

  /** What an arrival means: passed over, a window that closes, the end, or a reply. */
  datatype Signal = Skip | Silence | Fatal(error: MetadataError) | Reply(message: Metamessage)

  /** Only messages under one of our two ids are read, and requests among them are passed over. */
  ghost function SignalOf(a: Arrival, ids: set<nat>): (s: Signal)
    ensures s.Reply? <==>
              a.Extended? && a.id in ids && DecodeMessage(a.payload).Ok? && DecodeMessage(a.payload).value.kind != 0
    ensures s.Fatal? <==> a.Broken? || (a.Extended? && a.id in ids && DecodeMessage(a.payload).Err?)
    ensures s.Silence? <==> a.Quiet?
  {
    match a
    case Quiet => Silence
    case Broken => Fatal(StreamFailed)
    case Unrelated => Skip
    case Extended(id, payload) =>
      if id !in ids then Skip
      else
        match DecodeMessage(payload)
        case Err(e) => Fatal(e)
        case Ok(m) => if m.kind == REQUEST then Skip else Reply(m)
  }

  ghost function Signals(inbox: seq<Arrival>, ids: set<nat>): (s: seq<Signal>)
    ensures |s| == |inbox| && forall i :: 0 <= i < |inbox| ==> s[i] == SignalOf(inbox[i], ids)
  {
    seq(|inbox|, i requires 0 <= i < |inbox| => SignalOf(inbox[i], ids))
  }

  /** No arrival speaks of the number of pieces or of the passes. */
  ghost predicate Plain(s: seq<Signal>) {
    forall i :: 0 <= i < |s| && s[i].Fatal? ==> s[i].error != TooManyPieces && s[i].error != Unfinished
  }

  lemma SignalsArePlain(inbox: seq<Arrival>, ids: set<nat>)
    ensures Plain(Signals(inbox, ids))
  {
    forall i | 0 <= i < |inbox| && SignalOf(inbox[i], ids).Fatal?
      ensures SignalOf(inbox[i], ids).error != TooManyPieces && SignalOf(inbox[i], ids).error != Unfinished
    {
    }
  }

  // --------------------------------------------------------------------- replies

  /** A chunk of the announced dictionary, as long as it should be. */
  ghost predicate Fits(m: Metamessage, size: int) {
    && m.kind != REJECT && m.piece < PiecesOf(size)
    && (m.totalSize.Some? ==> m.totalSize.value == size)
    && |m.chunk| == Expected(size, m.piece)
  }

  /** What is wrong with a reply, first things first. */
  ghost function Fault(m: Metamessage, size: int): (e: Option<MetadataError>)
    ensures e.None? <==> Fits(m, size)
    ensures e.Some? ==> e.value != TooManyPieces && e.value != Unfinished
  {
    if m.kind == REJECT then Some(Rejected)
    else if m.piece >= PiecesOf(size) then Some(NoSuchPiece)
    else if m.totalSize.Some? && m.totalSize.value != size then Some(SizeChanged)
    else if |m.chunk| != Expected(size, m.piece) then Some(WrongLength)
    else None
  }

  /** The error an arrival ends the download with, if it ends it. */
  ghost function EndOf(s: Signal, size: int): Option<MetadataError> {
    match s
    case Fatal(e) => Some(e)
    case Reply(m) => Fault(m, size)
    case _ => None
  }

  ghost predicate Brings(s: Signal, size: int, c: nat) {
    s.Reply? && Fits(s.message, size) && s.message.piece == c
  }

  /** What a server answers a request with brings the chunk asked for, or ends the download if there is none. */
  lemma AnswerBrings(raw: seq<byte>, request: seq<byte>, id: nat, ids: set<nat>)
    requires raw != [] && |raw| <= MAX_PIECES * PIECE_SIZE && id in ids && Answer(raw, request).Some?
    ensures DecodeMessage(request).Ok?
    ensures var c := DecodeMessage(request).value.piece;
            var s := SignalOf(Extended(id, Answer(raw, request).value), ids);
            if c < PiecesOf(|raw|) then Brings(s, |raw|, c) else EndOf(s, |raw|) == Some(Rejected)
  {
    AnswersAreRight(raw, request);
  }

  // --------------------------------------------------------------------- verdict

  /** How many of the first `n` arrivals a pass stops at. */
  ghost function Stops(s: seq<Signal>, n: nat): nat
    requires n <= |s|
  {
    if n == 0 then 0 else Stops(s, n - 1) + if s[n - 1].Skip? then 0 else 1
  }

  ghost predicate Came(s: seq<Signal>, size: int, k: nat, c: nat)
    requires k <= |s|
  {
    exists x :: 0 <= x < k && Brings(s[x], size, c)
  }

  ghost predicate NoneEnds(s: seq<Signal>, size: int, k: nat)
    requires k <= |s|
  {
    forall x :: 0 <= x < k ==> EndOf(s[x], size).None?
  }

  /** The first `k` arrivals bring every chunk and none of them ends the download: any order, with repeats,
      requests, silences and unrelated messages among them. */
  ghost predicate Complete(s: seq<Signal>, size: int, k: nat) {
    k <= |s| && NoneEnds(s, size, k) && forall c: nat :: c < PiecesOf(size) ==> Came(s, size, k, c)
  }

  /** Arrival `k` is the first that ends the download, and a chunk is missing by then. */
  ghost predicate Refused(s: seq<Signal>, size: int, k: nat, e: MetadataError) {
    && k < |s| && NoneEnds(s, size, k) && EndOf(s[k], size) == Some(e)
    && exists c: nat :: c < PiecesOf(size) && !Came(s, size, k, c)
  }

  /** The first `n` passes begin before the deadline. */
  ghost predicate InTime(passes: seq<Pass>, deadline: real, n: nat) {
    n <= |passes| && forall i :: 0 <= i < n ==> passes[i].atStart < deadline
  }

  lemma OneMoreInTime(passes: seq<Pass>, deadline: real, n: nat)
    ensures InTime(passes, deadline, n) && !OutOfTime(passes, deadline, n) ==> InTime(passes, deadline, n + 1)
  {
  }

  /** No pass is left, or the next one begins too late. */
  ghost predicate OutOfTime(passes: seq<Pass>, deadline: real, n: nat) {
    n >= |passes| || passes[n].atStart >= deadline
  }

  /** Arrivals that bring every chunk can be read in the passes that begin in time. */
  ghost predicate Succeeds(s: seq<Signal>, size: int, passes: seq<Pass>, deadline: real) {
    exists k: nat :: Complete(s, size, k) && InTime(passes, deadline, Stops(s, k))
  }

  /** The arrival that ends the download can be read in the passes that begin in time. */
  ghost predicate FailsWith(s: seq<Signal>, size: int, passes: seq<Pass>, deadline: real, e: MetadataError) {
    exists k: nat :: Refused(s, size, k, e) && InTime(passes, deadline, Stops(s, k) + 1)
  }

  // -------------------------------------------------------------------- progress

  lemma {:induction false} StopsSame(s: seq<Signal>, a: nat, b: nat)
    requires a <= b <= |s| && forall x :: a <= x < b ==> s[x].Skip?
    ensures Stops(s, b) == Stops(s, a)
  {
    if a < b {
      StopsSame(s, a, b - 1);
    }
  }

  lemma {:induction false} StopsGrow(s: seq<Signal>, a: nat, b: nat)
    requires a <= b <= |s|
    ensures Stops(s, a) <= Stops(s, b)
  {
    if a < b {
      StopsGrow(s, a, b - 1);
    }
  }

  /** After `used` passes `at` arrivals were read, none ended the download, and the chunks that came are here. */
  ghost predicate Progress(s: seq<Signal>, size: int, at: nat, used: nat, here: set<nat>) {
    && at <= |s| && NoneEnds(s, size, at)
    && (forall c :: c in here <==> Came(s, size, at, c))
    && (used == Stops(s, at) || (at == |s| && used >= Stops(s, at)))
  }

  ghost predicate EveryChunk(size: int, here: set<nat>) {
    forall c: nat :: c < PiecesOf(size) ==> c in here
  }

  lemma ChunkMissing(received: map<nat, seq<byte>>, size: int)
    requires |received| < PiecesOf(size)
    ensures !EveryChunk(size, received.Keys)
  {
    if EveryChunk(size, received.Keys) {
      SubsetSize(Below(PiecesOf(size)), received.Keys);
    }
  }

  lemma CameLater(s: seq<Signal>, size: int, at: nat, next: nat, c: nat)
    requires at <= next <= |s| && forall x :: at <= x < next ==> s[x].Skip?
    ensures Came(s, size, next, c) <==> Came(s, size, at, c)
  {
  }

  lemma CameMore(s: seq<Signal>, size: int, n: nat, c: nat)
    requires n < |s|
    ensures Came(s, size, n + 1, c) <==> Came(s, size, n, c) || Brings(s[n], size, c)
  {
  }

  // --------------------------------------------------------------------- reading

  /** Where the download stands after a pass, and the chunk that pass took. */
  datatype Reading = Reading(at: nat, received: map<nat, seq<byte>>, error: Option<MetadataError>, got: Option<nat>)

  /** The next arrival a pass stops at. */
  ghost function NextStop(s: seq<Signal>, at: nat): (n: nat)
    requires at <= |s|
    ensures at <= n <= |s| && forall x :: at <= x < n ==> s[x].Skip?
    ensures n < |s| ==> !s[n].Skip?
    decreases |s| - at
  {
    if at < |s| && s[at].Skip? then NextStop(s, at + 1) else at
  }

  /** What one pass takes from the arrival it stops at. */
  ghost function Taken(s: Signal, size: int, next: nat, received: map<nat, seq<byte>>): Reading {
    if s.Reply? && Fault(s.message, size).None? then
      Reading(next, received[s.message.piece := s.message.chunk], None, Some(s.message.piece))
    else
      Reading(next, received, EndOf(s, size), None)
  }

  /** What one pass reads. */
  ghost function Read(s: seq<Signal>, size: int, at: nat, received: map<nat, seq<byte>>): (r: Reading)
    requires at <= |s|
    ensures r.at <= |s|
  {
    var n := NextStop(s, at);
    if n == |s| then Reading(n, received, None, None) else Taken(s[n], size, n + 1, received)
  }

  lemma ReadStops(s: seq<Signal>, size: int, at: nat, received: map<nat, seq<byte>>, e: Option<MetadataError>)
    requires at <= |s|
    requires var n := NextStop(s, at); if n == |s| then e == None else !s[n].Reply? && e == EndOf(s[n], size)
    ensures Read(s, size, at, received) == Reading(Min(NextStop(s, at) + 1, |s|), received, e, None)
  {
  }

  lemma ReadReply(s: seq<Signal>, size: int, at: nat, received: map<nat, seq<byte>>, m: Metamessage,
                  e: Option<MetadataError>, now: map<nat, seq<byte>>, got: Option<nat>)
    requires at <= |s|
    requires var n := NextStop(s, at); n < |s| && s[n] == Reply(m)
    requires e == Fault(m, size) && got == if e.None? then Some(m.piece) else None
    requires now == if e.None? then received[m.piece := m.chunk] else received
    ensures Read(s, size, at, received) == Reading(NextStop(s, at) + 1, now, e, got)
  {
  }

  /** What `n` passes read, one after the other, up to one that ends the download. */
  ghost function ReadAll(s: seq<Signal>, size: int, n: nat): (r: Reading)
    ensures r.at <= |s|
  {
    if n == 0 then Reading(0, map[], None, None)
    else
      var r := ReadAll(s, size, n - 1);
      if r.error.Some? then r else Read(s, size, r.at, r.received)
  }

  /** A pass that ends nothing keeps the account. */
  lemma ReadCounts(s: seq<Signal>, size: int, at: nat, used: nat, received: map<nat, seq<byte>>)
    requires Progress(s, size, at, used, received.Keys) && Read(s, size, at, received).error.None?
    ensures var r := Read(s, size, at, received); Progress(s, size, r.at, used + 1, r.received.Keys)
  {
    var r, n := Read(s, size, at, received), NextStop(s, at);
    StopsSame(s, at, n);
    forall c: nat
      ensures c in r.received.Keys <==> Came(s, size, r.at, c)
    {
      CameLater(s, size, at, n, c);
      if n < |s| {
        CameMore(s, size, n, c);
      }
    }
  }

  lemma {:induction false} ReadAllCounts(s: seq<Signal>, size: int, n: nat)
    requires ReadAll(s, size, n).error.None?
    ensures var r := ReadAll(s, size, n); Progress(s, size, r.at, n, r.received.Keys)
  {
    if n > 0 {
      ReadAllCounts(s, size, n - 1);
      var r := ReadAll(s, size, n - 1);
      ReadCounts(s, size, r.at, n - 1, r.received);
    }
  }

  // -------------------------------------------------------------------- outcomes

  /** While a chunk is missing, a complete beginning lies ahead and costs at least one more pass. */
  lemma CompleteIsAhead(s: seq<Signal>, size: int, at: nat, used: nat, here: set<nat>, k: nat)
    requires Progress(s, size, at, used, here) && !EveryChunk(size, here) && Complete(s, size, k)
    ensures used < Stops(s, k)
  {
    var c: nat :| c < PiecesOf(size) && c !in here;
    assert Came(s, size, k, c) && !Came(s, size, at, c);
    var x :| 0 <= x < k && Brings(s[x], size, c);
    StopsGrow(s, at, x);
    StopsGrow(s, x + 1, k);
  }

  /** An arrival that ends the download lies ahead of a download still going. */
  lemma RefusalIsAhead(s: seq<Signal>, size: int, at: nat, used: nat, here: set<nat>, k: nat, e: MetadataError)
    requires Progress(s, size, at, used, here) && Refused(s, size, k, e)
    ensures used <= Stops(s, k)
  {
    assert at <= k;
    StopsGrow(s, at, k);
  }

  /** A pass that ends the download is refused by the arrival it stops at. */
  lemma ReadRefuses(s: seq<Signal>, size: int, at: nat, used: nat, received: map<nat, seq<byte>>)
    requires Progress(s, size, at, used, received.Keys) && !EveryChunk(size, received.Keys)
    requires Read(s, size, at, received).error.Some?
    ensures var k, e := NextStop(s, at), Read(s, size, at, received).error.value;
            Refused(s, size, k, e) && Stops(s, k) <= used
  {
    var k := NextStop(s, at);
    StopsSame(s, at, k);
    var c: nat :| c < PiecesOf(size) && c !in received.Keys;
    CameLater(s, size, at, k, c);
  }

  /** A refusal at one arrival excludes completion and any other refusal. */
  lemma RefusedOnce(s: seq<Signal>, size: int, k: nat, e: MetadataError, j: nat, f: MetadataError)
    requires Refused(s, size, k, e)
    ensures Refused(s, size, j, f) ==> j == k && f == e
    ensures !Complete(s, size, j)
  {
    if Refused(s, size, j, f) {
      assert EndOf(s[j], size).Some? && EndOf(s[k], size).Some?;
    }
    if j <= k {
      var c: nat :| c < PiecesOf(size) && !Came(s, size, k, c);
      assert !Came(s, size, j, c);
    }
  }

  lemma SuccessIsTold(s: seq<Signal>, size: int, passes: seq<Pass>, deadline: real, used: nat)
    requires ReadAll(s, size, used).error.None? && InTime(passes, deadline, used)
    requires EveryChunk(size, ReadAll(s, size, used).received.Keys)
    ensures Succeeds(s, size, passes, deadline)
    ensures forall e :: !FailsWith(s, size, passes, deadline, e)
  {
    var r := ReadAll(s, size, used);
    ReadAllCounts(s, size, used);
    assert Complete(s, size, r.at) && Stops(s, r.at) <= used;
    forall k: nat, e
      ensures !Refused(s, size, k, e)
    {
      if Refused(s, size, k, e) {
        RefusedOnce(s, size, k, e, r.at, e);
      }
    }
  }

  /** An arrival that ends the download brings no chunk. */
  lemma ErrorKeepsChunks(s: seq<Signal>, size: int, n: nat)
    requires n > 0 && ReadAll(s, size, n).error.Some?
    ensures ReadAll(s, size, n).received == ReadAll(s, size, n - 1).received
  {
  }

  /** The error a pass of a plain list of arrivals ends with says nothing of passes or of the number of pieces. */
  lemma ErrorsArePlain(s: seq<Signal>, size: int, n: nat)
    requires Plain(s) && n > 0 && ReadAll(s, size, n - 1).error.None?
    ensures ReadAll(s, size, n).error != Some(Unfinished) && ReadAll(s, size, n).error != Some(TooManyPieces)
  {
  }

  lemma {:induction false} RefusalIsTold(s: seq<Signal>, size: int, passes: seq<Pass>, deadline: real, used: nat)
    requires ReadAll(s, size, used).error.Some? && InTime(passes, deadline, used) && Plain(s)
    requires |ReadAll(s, size, used).received| < PiecesOf(size)
    ensures !Succeeds(s, size, passes, deadline)
    ensures var e := ReadAll(s, size, used).error.value;
            && (forall f :: FailsWith(s, size, passes, deadline, f) <==> f == e)
            && e != TooManyPieces && e != Unfinished
  {
    ErrorKeepsChunks(s, size, used);
    if ReadAll(s, size, used - 1).error.Some? {
      RefusalIsTold(s, size, passes, deadline, used - 1);
    } else {
      ErrorsArePlain(s, size, used);
      RefusalIsNew(s, size, used);
      RefusalDecides(s, size, passes, deadline, NextStop(s, ReadAll(s, size, used - 1).at), used,
                     ReadAll(s, size, used).error.value);
    }
  }

  /** The pass that ends the download is refused by the arrival it stops at. */
  lemma RefusalIsNew(s: seq<Signal>, size: int, used: nat)
    requires used > 0 && ReadAll(s, size, used - 1).error.None? && ReadAll(s, size, used).error.Some?
    requires |ReadAll(s, size, used - 1).received| < PiecesOf(size)
    ensures var k := NextStop(s, ReadAll(s, size, used - 1).at);
            Refused(s, size, k, ReadAll(s, size, used).error.value) && Stops(s, k) < used
  {
    var r := ReadAll(s, size, used - 1);
    ReadAllCounts(s, size, used - 1);
    ChunkMissing(r.received, size);
    ReadRefuses(s, size, r.at, used - 1, r.received);
  }

  lemma {:induction false} RefusalDecides(s: seq<Signal>, size: int, passes: seq<Pass>, deadline: real, k: nat,
                                          used: nat, e: MetadataError)
    requires Refused(s, size, k, e) && Stops(s, k) < used && InTime(passes, deadline, used)
    ensures !Succeeds(s, size, passes, deadline)
    ensures forall f :: FailsWith(s, size, passes, deadline, f) <==> f == e
  {
    forall j: nat, f
      ensures Refused(s, size, j, f) ==> f == e
      ensures !Complete(s, size, j)
    {
      RefusedOnce(s, size, k, e, j, f);
    }
    assert InTime(passes, deadline, Stops(s, k) + 1);
    assert FailsWith(s, size, passes, deadline, e);
  }

  lemma DelayIsTold(s: seq<Signal>, size: int, passes: seq<Pass>, deadline: real, used: nat)
    requires ReadAll(s, size, used).error.None? && OutOfTime(passes, deadline, used)
    requires |ReadAll(s, size, used).received| < PiecesOf(size)
    ensures !Succeeds(s, size, passes, deadline)
    ensures forall e :: !FailsWith(s, size, passes, deadline, e)
  {
    var r := ReadAll(s, size, used);
    ReadAllCounts(s, size, used);
    ChunkMissing(r.received, size);
    forall k: nat | Complete(s, size, k)
      ensures !InTime(passes, deadline, Stops(s, k))
    {
      CompleteIsAhead(s, size, r.at, used, r.received.Keys, k);
    }
    forall k: nat, e | Refused(s, size, k, e)
      ensures !InTime(passes, deadline, Stops(s, k) + 1)
    {
      RefusalIsAhead(s, size, r.at, used, r.received.Keys, k, e);
    }
  }

  /** How a download that used `used` passes ended, from what they read: with every chunk, by an arrival, or for
      want of time. */
  lemma Verdict(s: seq<Signal>, size: int, passes: seq<Pass>, deadline: real, used: nat, e: Option<MetadataError>)
    requires Plain(s) && InTime(passes, deadline, used)
    requires e.None? ==> EveryChunk(size, ReadAll(s, size, used).received.Keys)
    requires e.Some? ==> |ReadAll(s, size, used).received| < PiecesOf(size)
    requires e == ReadAll(s, size, used).error || OutOfTime(passes, deadline, used)
    requires e != ReadAll(s, size, used).error ==> e == Some(Unfinished) && ReadAll(s, size, used).error == None
    ensures e != Some(TooManyPieces) && (e.None? <==> Succeeds(s, size, passes, deadline))
    ensures forall f :: f != Unfinished ==> (e == Some(f) <==> FailsWith(s, size, passes, deadline, f))
  {
    if e.None? {
      SuccessIsTold(s, size, passes, deadline, used);
    } else if e == ReadAll(s, size, used).error {
      RefusalIsTold(s, size, passes, deadline, used);
    } else {
      DelayIsTold(s, size, passes, deadline, used);
    }
  }

  // --------------------------------------------------------------------- history

  /** What was asked and taken, and when the last request was sent; at the beginning, at the clock's zero. */
  datatype History = History(log: seq<Move>, sentAt: real)

  ghost function Following(pieces: nat, h: History, pass: Pass, got: Option<nat>): History {
    var asked := PassAsks(pieces, Asked(h.log), Arrived(h.log), pass.atRetry - h.sentAt);
    History(h.log + Asks(asked) + Gots(got), if asked != [] then pass.afterSend else h.sentAt)
  }

  /** A pass that sent its requests is followed as its reading says. */
  lemma FollowingIs(pieces: nat, h: History, pass: Pass, asked: seq<nat>, requested: set<nat>, here: set<nat>,
                    log: seq<Move>, sentAt: real)
    requires requested == Asked(h.log) && here == Arrived(h.log)
    requires asked == PassAsks(pieces, requested, here, pass.atRetry - h.sentAt)
    requires log == h.log + Asks(asked) && sentAt == if asked != [] then pass.afterSend else h.sentAt
    ensures forall got :: Following(pieces, h, pass, got) == History(log + Gots(got), sentAt)
  {
  }

  /** The history after `n` passes. */
  ghost function HistoryOf(s: seq<Signal>, size: int, passes: seq<Pass>, n: nat): History
    requires n <= |passes|
  {
    if n == 0 then History([], 0.0)
    else Following(PiecesOf(size), HistoryOf(s, size, passes, n - 1), passes[n - 1], ReadAll(s, size, n).got)
  }

  lemma FollowingKeeps(pieces: nat, h: History, pass: Pass, got: Option<nat>)
    ensures Kept(h.log, pieces) ==> Kept(Following(pieces, h, pass, got).log, pieces)
  {
    if Kept(h.log, pieces) {
      PassKept(pieces, h.log, pass.atRetry - h.sentAt, got);
    }
  }

  /** The window is kept after any number of passes. */
  lemma {:induction false} HistoryKept(s: seq<Signal>, size: int, passes: seq<Pass>, n: nat)
    requires n <= |passes|
    ensures Kept(HistoryOf(s, size, passes, n).log, PiecesOf(size))
  {
    if n == 0 {
      EmptyWindow(PiecesOf(size));
    } else {
      HistoryKept(s, size, passes, n - 1);
      var h := HistoryOf(s, size, passes, n - 1);
      FollowingKeeps(PiecesOf(size), h, passes[n - 1], ReadAll(s, size, n).got);
      assert HistoryOf(s, size, passes, n) == Following(PiecesOf(size), h, passes[n - 1], ReadAll(s, size, n).got);
    }
  }

  /** What a pass asked for, given the history before it. */
  ghost function AskedIn(pieces: nat, h: History, pass: Pass): seq<nat> {
    PassAsks(pieces, Asked(h.log), Arrived(h.log), pass.atRetry - h.sentAt)
  }

  lemma AskedRightly(pieces: nat, h: History, pass: Pass)
    ensures Kept(h.log, pieces) ==>
              AsksRightly(pieces, Asked(h.log), Arrived(h.log), pass.atRetry - h.sentAt, AskedIn(pieces, h, pass))
  {
    if Kept(h.log, pieces) {
      ChoiceIsRight(pieces, Asked(h.log), Arrived(h.log), pass.atRetry - h.sentAt);
    }
  }

  /** Every pass asks for the lowest missing chunks nobody asked for yet, as many as keep four outstanding; with
      none to ask for it asks again for the four lowest missing, once five seconds went by since the last
      request, and otherwise for nothing. */
  lemma PassesAskRightly(s: seq<Signal>, size: int, passes: seq<Pass>, n: nat)
    requires n < |passes|
    ensures HistoryOf(s, size, passes, 0) == History([], 0.0)
    ensures var h, g := HistoryOf(s, size, passes, n), HistoryOf(s, size, passes, n + 1);
            var asked := AskedIn(PiecesOf(size), h, passes[n]);
            && AsksRightly(PiecesOf(size), Asked(h.log), Arrived(h.log), passes[n].atRetry - h.sentAt, asked)
            && g.log == h.log + Asks(asked) + Gots(ReadAll(s, size, n + 1).got)
            && g.sentAt == if asked != [] then passes[n].afterSend else h.sentAt
  {
    HistoryKept(s, size, passes, n);
    AskedRightly(PiecesOf(size), HistoryOf(s, size, passes, n), passes[n]);
  }
}
