/** One torrent's download as a transition system: the atomic steps of app/download/manager.py over
    the request ledgers, the verification tasks and the byte stream on disk. Clock readings, peer
    behaviour, send failures, expiry, disk faults and the interleaving of verifications are free. */
module EngineSpec {
  import opened Basics
  import opened Blocks
  import opened Pieces
  import opened SchedulerSpec
  import opened Torrents

  /** `hash` stands for SHA-1; nothing is assumed about it. */
  datatype Context = Context(config: Config, torrent: Torrent, hash: seq<byte> -> seq<byte>, verifyFirst: bool)

  /** Where the verification of one piece is: queued, in the hash pool, or part-way to disk. */
  datatype Task = Scheduled | Hashing(data: seq<byte>) | Writing(data: seq<byte>, done: nat)

  datatype Stats = Stats(
    received: nat, duplicate: nat, unsolicited: nat,
    verified: nat, failed: nat, wasted: nat, penalties: nat)

  /** `messages`, `payload` and `surplus` are history: block messages handled, their payload bytes,
      and the blocks accepted while nobody had requested them since the cache was last filled. */
  datatype Engine = Engine(
    sched: Sched, stats: Stats, verified: set<nat>, penalties: map<Peer, nat>,
    tasks: map<nat, Task>, disk: seq<byte>, completed: set<nat>,
    messages: nat, payload: nat, surplus: nat)

  datatype Event =
    | Join(peer: Peer)
    | Notice(peer: Peer)
    | Count
    | Prune
    | Assign(info: PeerInfo, key: BlockKey, sentAt: real, seenAt: real)
    | Arrive(peer: Peer, index: nat, begin: nat, data: seq<byte>)
    | Lose(peer: Peer, key: BlockKey)
    | Leave(peer: Peer, keys: seq<BlockKey>)
    | StartVerify(piece: nat)
    | HashDone(piece: nat)
    | WriteSome(piece: nat, count: nat)
    | WriteDone(piece: nat)
    | Fault(piece: nat)

  // ------------------------------------------------------------------ progress

  /** A change that leaves what has arrived alone: only requests may differ. */
  ghost predicate SameProgress(p: PieceView, q: PieceView) {
    && q.(phase := p.phase, states := p.states, requesters := p.requesters) == p
    && q.states.Keys == p.states.Keys
    && (forall o :: o in p.states ==> (q.states[o] == BlockReceived <==> p.states[o] == BlockReceived))
    && (q.phase == p.phase || (p.phase == Missing && q.phase == Requested))
  }

  ghost predicate Steady(s: Sched, t: Sched) {
    && |t.pieces| == |s.pieces|
    && forall i :: 0 <= i < |s.pieces| ==> SameProgress(s.pieces[i], t.pieces[i])
  }

  ghost function HeldWeights(s: Sched): seq<int>
    requires s.PiecesOk()
  {
    seq(|s.pieces|, i requires 0 <= i < |s.pieces| => s.pieces[i].ReceivedBytes())
  }

  /** Bytes of block data the pieces account for. */
  ghost function Held(s: Sched): int
    requires s.PiecesOk()
  {
    Sum(HeldWeights(s))
  }

  // ------------------------------------------------------------------ invariant

  /** The byte range of a piece in the stream. */
  ghost function OnDisk(c: Context, disk: seq<byte>, i: nat): (r: seq<byte>)
    requires c.torrent.Valid() && i < |c.torrent.hashes| && |disk| == c.torrent.total
    ensures |r| == c.torrent.PieceSize(i)
  {
    PieceInside(c.torrent, i);
    disk[c.torrent.PieceOffset(i)..c.torrent.PieceOffset(i) + c.torrent.PieceSize(i)]
  }

  ghost predicate Geometry(c: Context, e: Engine) {
    && c.torrent.Valid()
    && |e.disk| == c.torrent.total
    && |e.sched.pieces| == |c.torrent.hashes|
    && forall i :: 0 <= i < |e.sched.pieces| ==> e.sched.pieces[i].size == c.torrent.PieceSize(i)
  }

  ghost predicate Books(c: Context, e: Engine)
    requires Geometry(c, e)
  {
    && (forall i: nat :: i in e.verified <==> i < |e.sched.pieces| && e.sched.pieces[i].phase == Verified)
    && e.completed == e.verified
    && (forall i :: 0 <= i < |e.sched.pieces| ==> e.sched.pieces[i].phase != Downloaded)
  }

  /** A verification in progress belongs to a VERIFYING piece, carries all of its bytes, and has
      put exactly the first `done` of them on disk. */
  ghost predicate TaskOk(c: Context, e: Engine, i: nat)
    requires Geometry(c, e) && i in e.tasks
  {
    && i < |e.sched.pieces|
    && e.sched.pieces[i].phase == Verifying
    && match e.tasks[i]
       case Scheduled => e.sched.pieces[i].buffer.Some?
       case Hashing(data) => |data| == c.torrent.PieceSize(i)
       case Writing(data, done) =>
         && |data| == c.torrent.PieceSize(i)
         && done <= |data|
         && OnDisk(c, e.disk, i)[..done] == data[..done]
         && (c.verifyFirst ==> c.hash(data) == c.torrent.hashes[i])
  }

  ghost predicate TasksOk(c: Context, e: Engine)
    requires Geometry(c, e)
  {
    forall i: nat :: i in e.tasks ==> TaskOk(c, e, i)
  }

  /** Every verified piece is on disk as the torrent promised. */
  ghost predicate Intact(c: Context, e: Engine)
    requires Geometry(c, e)
  {
    forall i: nat :: i in e.verified && i < |c.torrent.hashes| ==> c.hash(OnDisk(c, e.disk, i)) == c.torrent.hashes[i]
  }

  /** Nothing that arrived is unaccounted for. */
  ghost predicate Conserved(e: Engine)
    requires e.sched.PiecesOk()
  {
    && e.payload == e.stats.wasted + Held(e.sched)
    && e.messages == e.stats.received + e.stats.duplicate + e.stats.unsolicited
  }

  /** The cached count is ahead of a recount by exactly the unrequested arrivals. */
  ghost predicate CacheAudited(e: Engine)
    requires e.sched.PiecesOk()
  {
    e.sched.Drift() == e.surplus
  }

  ghost predicate Inv(c: Context, e: Engine) {
    && e.sched.Inv()
    && Geometry(c, e)
    && Books(c, e)
    && TasksOk(c, e)
    && (c.verifyFirst ==> Intact(c, e))
    && Conserved(e)
    && CacheAudited(e)
  }

  // ---------------------------------------------------------------------- steps

  ghost function CountDuplicate(e: Engine, data: seq<byte>): Engine {
    e.(stats := e.stats.(duplicate := e.stats.duplicate + 1, wasted := e.stats.wasted + |data|))
  }

  ghost function CountUnsolicited(e: Engine, data: seq<byte>): Engine {
    e.(stats := e.stats.(unsolicited := e.stats.unsolicited + 1, wasted := e.stats.wasted + |data|))
  }

  ghost function Log(e: Engine, data: seq<byte>): Engine {
    e.(messages := e.messages + 1, payload := e.payload + |data|)
  }

  /** Storing one wanted block and waking whoever waited for it. */
  ghost function AcceptBlock(e: Engine, p: Peer, k: BlockKey, data: seq<byte>): Engine
    requires e.sched.PiecesOk() && k.piece < |e.sched.pieces| && e.sched.pieces[k.piece].Accepts(k.offset, data)
  {
    var piece := e.sched.pieces[k.piece];
    e.(sched := e.sched.SetPiece(k.piece, piece.Store(k.offset, data, p)).Received(p, k),
       stats := e.stats.(received := e.stats.received + 1),
       surplus := e.surplus + if e.sched.unclaimed.Some? && piece.states[k.offset] == BlockMissing then 1 else 0)
  }

  /** A whole piece goes to verification. */
  ghost function Submit(e: Engine, i: nat): Engine
    requires i < |e.sched.pieces|
  {
    if e.sched.pieces[i].Complete() then
      e.(sched := e.sched.SetPiece(i, e.sched.pieces[i].(phase := Verifying)), tasks := e.tasks[i := Scheduled])
    else e
  }

  /** `on_block`: every message is logged, then handled. */
  ghost function OnBlock(e: Engine, p: Peer, index: nat, begin: nat, data: seq<byte>): Engine
    requires e.sched.PiecesOk()
  {
    Handled(Log(e, data), p, index, begin, data)
  }

  ghost function Handled(e: Engine, p: Peer, index: nat, begin: nat, data: seq<byte>): Engine
    requires e.sched.PiecesOk()
  {
    var k := BlockKey(index, begin);
    if index >= |e.sched.pieces| then CountUnsolicited(e, data)
    else if e.sched.pieces[index].Finished() || e.sched.pieces[index].phase == Verifying then
      if e.sched.WasAsked(p, k) then CountDuplicate(e.(sched := e.sched.Received(p, k)), data)
      else CountUnsolicited(e, data)
    else if !e.sched.pieces[index].Accepts(begin, data) then CountDuplicate(e, data)
    else Submit(AcceptBlock(e, p, k, data), index)
  }

  ghost function Penalised(penalties: map<Peer, nat>, sources: seq<Peer>): map<Peer, nat> {
    if sources == [] then penalties
    else
      var rest := Penalised(penalties, sources[..|sources| - 1]);
      var last := sources[|sources| - 1];
      rest[last := (if last in rest then rest[last] else 0) + 1]
  }

  /** The hash did not match: the piece goes back to the pool with nothing kept. */
  ghost function HashFailed(e: Engine, i: nat): Engine
    requires i < |e.sched.pieces|
  {
    var piece := e.sched.pieces[i];
    e.(sched := e.sched.SetPiece(i, piece.MarkFailed().Reset()).PieceReset(i),
       stats := e.stats.(failed := e.stats.failed + 1, wasted := e.stats.wasted + piece.size,
                         penalties := e.stats.penalties + |piece.sources|),
       penalties := Penalised(e.penalties, piece.sources),
       tasks := e.tasks - {i},
       surplus := 0)
  }

  /** The verification of a piece starts by taking its data, or gives the piece up if there is none. */
  ghost function Started(e: Engine, i: nat): Engine
    requires i < |e.sched.pieces|
  {
    var piece := e.sched.pieces[i];
    if piece.Data().None? then e.(sched := e.sched.SetPiece(i, piece.Reset()), tasks := e.tasks - {i})
    else e.(tasks := e.tasks[i := Hashing(piece.Data().value)])
  }

  /** The next `n` bytes of a piece reach the disk. */
  ghost function Wrote(c: Context, e: Engine, i: nat, n: nat): Engine
    requires i < |c.torrent.hashes| && i in e.tasks && e.tasks[i].Writing?
    requires e.tasks[i].done + n <= |e.tasks[i].data|
    requires c.torrent.PieceOffset(i) + |e.tasks[i].data| <= |e.disk|
  {
    var t := e.tasks[i];
    e.(disk := Overwrite(e.disk, c.torrent.PieceOffset(i) + t.done, t.data[t.done..t.done + n]),
       tasks := e.tasks[i := Writing(t.data, t.done + n)])
  }

  ghost function Stored(e: Engine, i: nat): Engine
    requires i < |e.sched.pieces|
  {
    e.(sched := e.sched.SetPiece(i, e.sched.pieces[i].MarkVerified()),
       stats := e.stats.(verified := e.stats.verified + 1),
       verified := e.verified + {i},
       completed := e.completed + {i},
       tasks := e.tasks - {i})
  }

  /** Any other error: the piece stays VERIFYING and its buffer is released. */
  ghost function Faulted(e: Engine, i: nat): Engine
    requires i < |e.sched.pieces|
  {
    e.(sched := e.sched.SetPiece(i, e.sched.pieces[i].(buffer := None)), tasks := e.tasks - {i})
  }

  /** The steps that only move requests about. */
  predicate RequestEvent(ev: Event) {
    ev.Join? || ev.Notice? || ev.Count? || ev.Prune? || ev.Assign? || ev.Lose? || ev.Leave?
  }

  ghost predicate RequestEnabled(c: Config, s: Sched, ev: Event)
    requires s.PiecesOk()
  {
    && RequestEvent(ev)
    && (ev.Assign? ==> MayGive(c, s, ev.info, ev.key, ev.seenAt))
    && (ev.Leave? ==> ListsSlot(s, ev.peer, ev.keys))
  }

  ghost function Requests(c: Config, s: Sched, ev: Event): Sched
    requires s.PiecesOk() && RequestEnabled(c, s, ev)
  {
    match ev
    case Join(p) => s.Register(p)
    case Notice(p) => s.Touch(p)
    case Count => s.Counted()
    case Prune => s.Pruned()
    case Assign(v, k, sentAt, _) => s.Give(v.key, k, sentAt)
    case Lose(p, k) => s.Orphaned(p, k)
    case Leave(p, keys) => s.PeerGone(p, keys)
  }

  /** When a step can happen. */
  ghost predicate Enabled(c: Context, e: Engine, ev: Event)
    requires Inv(c, e)
  {
    if RequestEvent(ev) then RequestEnabled(c.config, e.sched, ev)
    else
      match ev
      case Arrive(_, _, _, _) => true
      case StartVerify(i) => i in e.tasks && e.tasks[i].Scheduled?
      case HashDone(i) => i in e.tasks && e.tasks[i].Hashing?
      case WriteSome(i, n) => i in e.tasks && e.tasks[i].Writing? && e.tasks[i].done + n <= |e.tasks[i].data|
      case WriteDone(i) => i in e.tasks && e.tasks[i].Writing? && e.tasks[i].done == |e.tasks[i].data|
      case Fault(i) => i in e.tasks && !e.tasks[i].Scheduled?
  }

  /** One atomic step; the piece of a task exists because the invariant says so. */
  ghost function Step(c: Context, e: Engine, ev: Event): Engine
    requires Inv(c, e) && Enabled(c, e, ev)
  {
    if RequestEvent(ev) then e.(sched := Requests(c.config, e.sched, ev))
    else
      match ev
      case Arrive(p, index, begin, data) => OnBlock(e, p, index, begin, data)
      case StartVerify(i) => Started(e, i)
      case HashDone(i) =>
        if c.verifyFirst && c.hash(e.tasks[i].data) != c.torrent.hashes[i] then HashFailed(e, i)
        else e.(tasks := e.tasks[i := Writing(e.tasks[i].data, 0)])
      case WriteSome(i, n) => PieceInside(c.torrent, i); Wrote(c, e, i, n)
      case WriteDone(i) => Stored(e, i)
      case Fault(i) => Faulted(e, i)
  }
}
