/** Peer exchange as app/discovery/pex.py keeps it: what one peer has been told, what is waiting to be
    said, and the capped, rate-limited messages that carry the difference. */
module Pex {
  import opened Basics
  import opened OrderedDict

  /** An address as it goes on the wire, or a name that cannot. */
  datatype Host = V4(octets: seq<byte>) | V6(octets: seq<byte>) | Name(text: string)

  datatype Key = Key(host: Host, port: nat)

  /** What is known of an advertised peer besides its address. */
  datatype Traits = Traits(seed: bool, reachable: bool)

  type Contact = Slot<Key, Traits>

  /** A withdrawn address carries the label of where it came from. */
  type Farewell = Slot<Key, string>

  const MAX_PER_MESSAGE: nat := 50
  const MAX_INITIAL: nat := 200

  datatype Ledger = Ledger(
    told: set<Key>,
    added: seq<Contact>,
    dropped: seq<Farewell>,
    lastSent: Option<real>,
    initialSent: bool)

  const FRESH := Ledger({}, [], [], None, false)

  datatype Message = Message(added: seq<Contact>, dropped: seq<Farewell>)

  datatype Outcome = Silent | Raised | Sent(message: Message)

  ghost predicate Inv(l: Ledger) {
    && Distinct(l.added) && Distinct(l.dropped)
    && Keys(l.added) !! l.told
    && Keys(l.dropped) <= l.told
    && (l.initialSent <==> l.lastSent.Some?)
  }

  // ------------------------------------------------------------------------- notes

  function Joined(l: Ledger, c: Contact): Ledger {
    var dropped := Remove(l.dropped, c.key);
    if c.key in l.told then l.(dropped := dropped)
    else l.(dropped := dropped, added := Put(l.added, c))
  }

  function Left(l: Ledger, f: Farewell): Ledger {
    var added := Remove(l.added, f.key);
    if f.key in l.told then l.(added := added, dropped := Put(l.dropped, f))
    else l.(added := added)
  }

  datatype Note = Join(contact: Contact) | Leave(farewell: Farewell)

  function Noted(l: Ledger, n: Note): Ledger {
    match n
    case Join(c) => Joined(l, c)
    case Leave(f) => Left(l, f)
  }

  function NotedAll(l: Ledger, notes: seq<Note>): Ledger {
    if notes == [] then l else Noted(NotedAll(l, notes[..|notes| - 1]), notes[|notes| - 1])
  }

  lemma NotedOneMore(l: Ledger, notes: seq<Note>, n: Note)
    ensures NotedAll(l, notes + [n]) == Noted(NotedAll(l, notes), n)
  {
    assert (notes + [n])[..|notes|] == notes;
  }

  lemma JoinedKeepsInv(l: Ledger, c: Contact)
    requires Inv(l)
    ensures Inv(Joined(l, c))
    ensures Keys(Joined(l, c).dropped) == Keys(l.dropped) - {c.key}
    ensures Keys(Joined(l, c).added) == if c.key in l.told then Keys(l.added) else Keys(l.added) + {c.key}
  {
    RemoveKeeps(l.dropped, c.key);
    PutKeeps(l.added, c);
  }

  lemma LeftKeepsInv(l: Ledger, f: Farewell)
    requires Inv(l)
    ensures Inv(Left(l, f))
    ensures Keys(Left(l, f).added) == Keys(l.added) - {f.key}
    ensures Keys(Left(l, f).dropped) == if f.key in l.told then Keys(l.dropped) + {f.key} else Keys(l.dropped)
  {
    RemoveKeeps(l.added, f.key);
    PutKeeps(l.dropped, f);
  }

  // ------------------------------------------------------------------------- build

  predicate Due(l: Ledger, interval: real, now: real) {
    l.lastSent.None? || now - l.lastSent.value >= interval
  }

  function Cap(l: Ledger): nat {
    if l.initialSent then MAX_PER_MESSAGE else MAX_INITIAL
  }

  function First<T>(s: seq<T>, n: nat): seq<T> {
    if |s| <= n then s else s[..n]
  }

  function Rest<T>(s: seq<T>, n: nat): seq<T> {
    if |s| <= n then [] else s[n..]
  }

  /** Whether every address has a compact form; a name does not, and encoding it raises. */
  predicate Packable<V>(d: seq<Slot<Key, V>>) {
    forall i :: 0 <= i < |d| ==> !d[i].key.host.Name?
  }

  /** Both queues drained up to their caps, and the withdrawn keys forgotten. */
  ghost function Drained(l: Ledger): Ledger {
    l.(added := Rest(l.added, Cap(l)), dropped := Rest(l.dropped, MAX_PER_MESSAGE),
       told := l.told - Keys(First(l.dropped, MAX_PER_MESSAGE)))
  }

  ghost function NextMessage(l: Ledger): Message {
    Message(First(l.added, Cap(l)), First(l.dropped, MAX_PER_MESSAGE))
  }

  /** `build` with its two readings of the clock. */
  ghost function Build(l: Ledger, interval: real, before: real, after: real): (Ledger, Outcome) {
    var m := NextMessage(l);
    if !Due(l, interval, before) || (m.added == [] && m.dropped == []) then (l, Silent)
    else if !Packable(m.added) || !Packable(m.dropped) then (Drained(l), Raised)
    else
      var d := Drained(l);
      (d.(told := d.told + Keys(m.added), lastSent := Some(after), initialSent := true), Sent(m))
  }

  lemma FirstAndRest<K, V>(d: seq<Slot<K, V>>, n: nat)
    requires Distinct(d)
    ensures Distinct(First(d, n)) && Distinct(Rest(d, n)) && Keys(First(d, n)) !! Keys(Rest(d, n))
    ensures Keys(First(d, n)) + Keys(Rest(d, n)) == Keys(d)
    ensures |First(d, n)| == Min(n, |d|) && |Keys(First(d, n))| == |First(d, n)|
  {
    assert d == First(d, n) + Rest(d, n);
    KeysSplit(First(d, n), Rest(d, n));
    Count(First(d, n));
  }

  /** What a sent message leaves behind. */
  ghost function Shipped(l: Ledger, after: real): Ledger {
    Drained(l).(told := l.told - Keys(NextMessage(l).dropped) + Keys(NextMessage(l).added),
                lastSent := Some(after), initialSent := true)
  }

  lemma MessageKeys(l: Ledger)
    requires Inv(l)
    ensures var m := NextMessage(l);
            && Distinct(m.added) && Distinct(m.dropped)
            && Keys(m.added) !! l.told && Keys(m.dropped) <= l.told
            && |m.added| == Min(Cap(l), |l.added|) && |m.dropped| == Min(MAX_PER_MESSAGE, |l.dropped|)
  {
    FirstAndRest(l.added, Cap(l));
    FirstAndRest(l.dropped, MAX_PER_MESSAGE);
  }

  lemma DrainedKeepsInv(l: Ledger)
    requires Inv(l)
    ensures Inv(Drained(l)) && Keys(Drained(l).added) == Keys(l.added) - Keys(NextMessage(l).added)
    ensures Keys(Drained(l).dropped) == Keys(l.dropped) - Keys(NextMessage(l).dropped)
  {
    FirstAndRest(l.added, Cap(l));
    FirstAndRest(l.dropped, MAX_PER_MESSAGE);
  }

  lemma ShippedKeepsInv(l: Ledger, after: real)
    requires Inv(l)
    ensures Inv(Shipped(l, after))
  {
    DrainedKeepsInv(l);
    MessageKeys(l);
  }

  lemma BuildKeepsInv(l: Ledger, interval: real, before: real, after: real)
    requires Inv(l)
    ensures Inv(Build(l, interval, before, after).0)
  {
    var r := Build(l, interval, before, after);
    match r.1 {
      case Silent => assert r.0 == l;
      case Raised =>
        DrainedKeepsInv(l);
        assert r.0 == Drained(l);
      case Sent(_) =>
        ShippedKeepsInv(l, after);
        assert r.0 == Shipped(l, after);
    }
  }

  /** Everything BEP 11 asks of one message. */
  ghost predicate Lawful(l: Ledger, m: Message) {
    && (m.added != [] || m.dropped != [])
    && Distinct(m.added) && Distinct(m.dropped)
    && Keys(m.added) !! Keys(m.dropped)
    && Keys(m.added) !! l.told
    && Keys(m.dropped) <= l.told
    && |m.added| == Min(if l.initialSent then 50 else 200, |l.added|)
    && |m.dropped| == Min(50, |l.dropped|)
    && m.added <= l.added && m.dropped <= l.dropped
    && forall k :: k in Keys(m.added) + Keys(m.dropped) ==> !k.host.Name?
  }

  lemma MessagesAreLawful(l: Ledger, interval: real, before: real, after: real)
    requires Inv(l)
    ensures var r := Build(l, interval, before, after);
            r.1.Sent? ==> Lawful(l, r.1.message) && (l.lastSent.Some? ==> before - l.lastSent.value >= interval)
  {
    var m := NextMessage(l);
    MessageKeys(l);
    if Packable(m.added) && Packable(m.dropped) {
      PackableKeys(m.added);
      PackableKeys(m.dropped);
    }
  }

  /** A build says nothing only when it is too early or nothing is pending; otherwise it raises exactly when a
      name is among the oldest additions or withdrawals, and sends exactly when none is. */
  lemma BuildOutcome(l: Ledger, interval: real, before: real, after: real)
    ensures var o := Build(l, interval, before, after).1;
            var early := l.lastSent.Some? && before - l.lastSent.value < interval;
            var silent := early || (l.added == [] && l.dropped == []);
            var cap := if l.initialSent then 50 else 200;
            var named := (exists i :: 0 <= i < |l.added| && i < cap && l.added[i].key.host.Name?)
                         || exists i :: 0 <= i < |l.dropped| && i < 50 && l.dropped[i].key.host.Name?;
            && (o.Silent? <==> silent) && (o.Raised? <==> !silent && named) && (o.Sent? <==> !silent && !named)
  {
    NoneNamed(l.added, Cap(l));
    NoneNamed(l.dropped, MAX_PER_MESSAGE);
  }

  lemma NoneNamed<V>(d: seq<Slot<Key, V>>, n: nat)
    requires n > 0
    ensures Packable(First(d, n)) <==> !exists i :: 0 <= i < |d| && i < n && d[i].key.host.Name?
    ensures First(d, n) == [] <==> d == []
  {
    var f := First(d, n);
    assert forall i :: 0 <= i < |f| ==> f[i] == d[i];
  }

  lemma PackableKeys<V>(d: seq<Slot<Key, V>>)
    requires Packable(d)
    ensures forall k :: k in Keys(d) ==> !k.host.Name?
  {
  }

  // -------------------------------------------------------------------------- runs

  datatype Event =
    | Noting(note: Note)
    | Building(before: real, after: real)

  /** The ledger, the peer at the other end, and what passed between them. `replica` is what the peer
      believes; `lost` are the keys that a failed build forgot without telling it. */
  datatype World = World(ledger: Ledger, replica: set<Key>, lost: set<Key>, sends: seq<real>, clock: real)

  /** The recipient adds what is added, then drops what is dropped. */
  ghost function Received(replica: set<Key>, m: Message): set<Key> {
    replica + Keys(m.added) - Keys(m.dropped)
  }

  ghost function Next(w: World, interval: real, e: Event): World {
    match e
    case Noting(n) => w.(ledger := Noted(w.ledger, n))
    case Building(before, after) =>
      var (l, out) := Build(w.ledger, interval, before, after);
      match out
      case Silent => w.(ledger := l, clock := after)
      case Raised => w.(ledger := l, clock := after, lost := w.lost + Keys(NextMessage(w.ledger).dropped))
      case Sent(m) => World(l, Received(w.replica, m), w.lost - Keys(m.added), w.sends + [after], after)
  }

  /** The clock never runs backwards. */
  ghost predicate Timely(w: World, e: Event) {
    e.Building? ==> w.clock <= e.before <= e.after
  }

  ghost predicate Feasible(w: World, interval: real, run: seq<Event>)
    decreases |run|
  {
    run == [] || (Timely(w, run[0]) && Feasible(Next(w, interval, run[0]), interval, run[1..]))
  }

  ghost function After(w: World, interval: real, run: seq<Event>): World
    decreases |run|
  {
    if run == [] then w else After(Next(w, interval, run[0]), interval, run[1..])
  }

  ghost predicate Spaced(sends: seq<real>, interval: real) {
    forall i :: 0 < i < |sends| ==> sends[i] - sends[i - 1] >= interval
  }

  ghost predicate WorldInv(w: World, interval: real) {
    && Inv(w.ledger)
    && w.ledger.told !! w.lost && w.replica == w.ledger.told + w.lost
    && Spaced(w.sends, interval)
    && (w.ledger.lastSent == if w.sends == [] then None else Some(w.sends[|w.sends| - 1]))
    && (w.sends != [] ==> w.sends[|w.sends| - 1] <= w.clock)
  }

  lemma NoteKeepsInv(w: World, interval: real, n: Note)
    requires WorldInv(w, interval)
    ensures WorldInv(Next(w, interval, Noting(n)), interval)
  {
    match n {
      case Join(c) => JoinedKeepsInv(w.ledger, c);
      case Leave(f) => LeftKeepsInv(w.ledger, f);
    }
  }

  lemma Exchanged(told: set<Key>, lost: set<Key>, replica: set<Key>, added: set<Key>, dropped: set<Key>)
    requires told !! lost && replica == told + lost && dropped <= told && added !! told
    ensures (told - dropped + added) !! (lost - added)
    ensures replica + added - dropped == (told - dropped + added) + (lost - added)
    ensures (told - dropped) !! (lost + dropped) && replica == (told - dropped) + (lost + dropped)
  {
  }

  lemma BuildingKeepsInv(w: World, interval: real, before: real, after: real)
    requires WorldInv(w, interval) && w.clock <= before <= after
    ensures WorldInv(Next(w, interval, Building(before, after)), interval)
  {
    var l, m := w.ledger, NextMessage(w.ledger);
    BuildKeepsInv(l, interval, before, after);
    MessageKeys(l);
    Exchanged(l.told, w.lost, w.replica, Keys(m.added), Keys(m.dropped));
    var n := Next(w, interval, Building(before, after));
    match Build(l, interval, before, after).1 {
      case Silent =>
      case Raised =>
        assert n.ledger.told == l.told - Keys(m.dropped) && n.lost == w.lost + Keys(m.dropped);
      case Sent(_) =>
        assert n.ledger.told == l.told - Keys(m.dropped) + Keys(m.added) && n.lost == w.lost - Keys(m.added);
    }
  }

  lemma NextKeepsInv(w: World, interval: real, e: Event)
    requires WorldInv(w, interval) && Timely(w, e)
    ensures WorldInv(Next(w, interval, e), interval)
  {
    match e {
      case Noting(n) => NoteKeepsInv(w, interval, n);
      case Building(before, after) => BuildingKeepsInv(w, interval, before, after);
    }
  }

  lemma {:induction false} RunKeepsInv(w: World, interval: real, run: seq<Event>)
    requires WorldInv(w, interval) && Feasible(w, interval, run)
    ensures WorldInv(After(w, interval, run), interval)
    decreases |run|
  {
    if run != [] {
      NextKeepsInv(w, interval, run[0]);
      RunKeepsInv(Next(w, interval, run[0]), interval, run[1..]);
    }
  }

  ghost function Beginning(clock: real): World {
    World(FRESH, {}, {}, [], clock)
  }

  /** Whatever connects, disconnects and fails on the way, the peer believes exactly what the ledger
      remembers telling it, plus the keys that failed builds forgot. */
  lemma ReplicaIsToldAndLost(clock: real, interval: real, run: seq<Event>)
    requires Feasible(Beginning(clock), interval, run)
    ensures var w := After(Beginning(clock), interval, run);
            w.ledger.told !! w.lost && w.replica == w.ledger.told + w.lost
  {
    assert Keys(FRESH.added) == {} && Keys(FRESH.dropped) == {};
    RunKeepsInv(Beginning(clock), interval, run);
  }

  /** Messages are at least the interval apart, and each obeys the rules for messages. */
  lemma RunIsLawful(clock: real, interval: real, run: seq<Event>, before: real, after: real)
    requires Feasible(Beginning(clock), interval, run)
    ensures var w := After(Beginning(clock), interval, run);
            && Spaced(w.sends, interval)
            && var out := Build(w.ledger, interval, before, after).1;
               out.Sent? ==> Lawful(w.ledger, out.message) && Keys(out.message.added) !! (w.replica - w.lost)
  {
    assert Keys(FRESH.added) == {} && Keys(FRESH.dropped) == {};
    RunKeepsInv(Beginning(clock), interval, run);
    MessagesAreLawful(After(Beginning(clock), interval, run).ledger, interval, before, after);
  }

  // ---------------------------------------------------------- where the replica departs

  /** A run in which no build raised while it had something to withdraw. */
  ghost predicate Smooth(w: World, interval: real, run: seq<Event>)
    decreases |run|
  {
    run == [] ||
    (&& (run[0].Building? && Build(w.ledger, interval, run[0].before, run[0].after).1.Raised? ==>
           w.ledger.dropped == [])
     && Smooth(Next(w, interval, run[0]), interval, run[1..]))
  }

  lemma {:induction false} SmoothLosesNothing(w: World, interval: real, run: seq<Event>)
    requires WorldInv(w, interval) && Feasible(w, interval, run) && Smooth(w, interval, run) && w.lost == {}
    ensures After(w, interval, run).lost == {} && After(w, interval, run).replica == After(w, interval, run).ledger.told
    decreases |run|
  {
    if run != [] {
      NextKeepsInv(w, interval, run[0]);
      assert Keys<Key, string>([]) == {};
      SmoothLosesNothing(Next(w, interval, run[0]), interval, run[1..]);
    }
  }

  /** One build keeps the two sides agreed exactly when it raises nothing, or has nothing to withdraw. */
  lemma BuildAgreesExactlyWhen(w: World, interval: real, before: real, after: real)
    requires WorldInv(w, interval) && w.lost == {} && Timely(w, Building(before, after))
    ensures var n := Next(w, interval, Building(before, after));
            var m := NextMessage(w.ledger);
            n.replica == n.ledger.told <==>
              (!Due(w.ledger, interval, before) || m.dropped == [] || (Packable(m.added) && Packable(m.dropped)))
  {
    var m := NextMessage(w.ledger);
    NextKeepsInv(w, interval, Building(before, after));
    if m.dropped != [] {
      assert m.dropped[0] in m.dropped && m.dropped[0].key in Keys(m.dropped);
    } else {
      assert Keys(m.dropped) == {};
    }
  }

  /** The promise fails: told of one peer, then a named peer joins as it leaves, and the failed build
      forgets the withdrawal for good. */
  lemma FailedBuildLosesAWithdrawal() returns (run: seq<Event>)
    ensures Feasible(Beginning(0.0), 60.0, run)
    ensures var w := After(Beginning(0.0), 60.0, run);
            && w.ledger.told == {} && w.ledger.dropped == [] && w.ledger.added == []
            && w.replica == {Key(V4([10, 0, 0, 1]), 6881)}
  {
    var k, n := Key(V4([10, 0, 0, 1]), 6881), Key(Name("peer.example"), 6881);
    var t := Traits(false, true);
    var e0, e1 := Noting(Join(Slot(k, t))), Building(0.0, 0.0);
    var e2, e3, e4 := Noting(Join(Slot(n, t))), Noting(Leave(Slot(k, "pex"))), Building(60.0, 60.0);
    var w0 := Beginning(0.0);
    var w1 := Next(w0, 60.0, e0);
    assert w1.ledger.added == [Slot(k, t)];
    assert Keys([Slot(k, t)]) == {k} by { assert Slot(k, t) in [Slot(k, t)]; }
    assert Keys<Key, string>([]) == {};
    var w2 := Next(w1, 60.0, e1);
    assert w2.ledger.told == {k} && w2.replica == {k} && w2.ledger.lastSent == Some(0.0);
    var w3 := Next(w2, 60.0, e2);
    assert w3.ledger.added == [Slot(n, t)];
    var w4 := Next(w3, 60.0, e3);
    var f := Slot(k, "pex");
    assert Remove([Slot(n, t)], k) == [Slot(n, t)] + Remove([], k);
    assert w4.ledger.added == [Slot(n, t)] && w4.ledger.dropped == [f];
    assert Keys([f]) == {k} by { assert f in [f]; }
    assert !Packable([Slot(n, t)]) by { assert [Slot(n, t)][0].key.host.Name?; }
    var w5 := Next(w4, 60.0, e4);
    assert w5.ledger.told == {} && w5.replica == {k};
    run := [e0, e1, e2, e3, e4];
    FiveSteps(w0, 60.0, e0, e1, e2, e3, e4);
  }

  lemma FiveSteps(w: World, interval: real, a: Event, b: Event, c: Event, d: Event, e: Event)
    requires Timely(w, a)
    requires var w1 := Next(w, interval, a); Timely(w1, b)
    requires var w1 := Next(w, interval, a); var w2 := Next(w1, interval, b); Timely(w2, c)
    requires var w2 := Next(Next(w, interval, a), interval, b); Timely(Next(w2, interval, c), d)
    requires var w2 := Next(Next(w, interval, a), interval, b); Timely(Next(Next(w2, interval, c), interval, d), e)
    ensures Feasible(w, interval, [a, b, c, d, e])
    ensures After(w, interval, [a, b, c, d, e]) ==
            Next(Next(Next(Next(Next(w, interval, a), interval, b), interval, c), interval, d), interval, e)
  {
    var run := [a, b, c, d, e];
    assert run[1..] == [b, c, d, e] && run[2..] == [c, d, e] && run[3..] == [d, e] && run[4..] == [e];
    assert run[1..][1..] == [c, d, e] && [c, d, e][1..] == [d, e] && [d, e][1..] == [e] && [e][1..] == [];
    var w4 := Next(Next(Next(Next(w, interval, a), interval, b), interval, c), interval, d);
    assert Feasible(w4, interval, [e]) && After(w4, interval, [e]) == Next(w4, interval, e);
    var w3 := Next(Next(Next(w, interval, a), interval, b), interval, c);
    assert Feasible(w3, interval, [d, e]) && After(w3, interval, [d, e]) == Next(w4, interval, e);
    var w2 := Next(Next(w, interval, a), interval, b);
    assert Feasible(w2, interval, [c, d, e]) && After(w2, interval, [c, d, e]) == Next(w4, interval, e);
  }
}
