/** Snapshots and capped messages together: why the peer is eventually told exactly who is connected. */
module PexConvergence {
  import opened Basics
  import opened OrderedDict
  import opened Pex

  /** The effect of `sync` with a snapshot; the order of the queued withdrawals is left open, because
      the source iterates over a set. */
  ghost predicate Synced(l: Ledger, snapshot: seq<Contact>, r: Ledger) {
    && Inv(r)
    && r.told == l.told && r.lastSent == l.lastSent && r.initialSent == l.initialSent
    && Keys(r.added) == Keys(l.added) + (Keys(snapshot) - l.told)
    && Keys(r.dropped) == l.told - Keys(snapshot)
    && forall c :: c in snapshot && c.key !in l.told ==> c in r.added
  }

  /** What a sync with `s` establishes. */
  ghost predicate Settled(l: Ledger, s: set<Key>) {
    Inv(l) && Keys(l.dropped) == l.told - s && s - l.told <= Keys(l.added)
  }

  /** Work left: a stale addition costs two entries, its sending and its withdrawal. */
  ghost function Potential(l: Ledger, s: set<Key>): nat {
    2 * |Keys(l.added) - s| + |Keys(l.added) * s| + |l.told - s|
  }

  /** No name among the keys: every one of them has a compact form. */
  ghost predicate Nameless(s: set<Key>) {
    forall k :: k in s ==> !k.host.Name?
  }

  /** One minute: a build that is due, then the next snapshot of the same peers. */
  ghost predicate Round(l: Ledger, s: set<Key>, interval: real, r: Ledger) {
    exists before: real, after: real, snapshot: seq<Contact> ::
      && Due(l, interval, before) && Keys(snapshot) == s
      && Synced(Build(l, interval, before, after).0, snapshot, r)
  }

  lemma SyncSettles(l: Ledger, snapshot: seq<Contact>, r: Ledger)
    requires Synced(l, snapshot, r)
    ensures Settled(r, Keys(snapshot))
  {
  }

  lemma SizeOfParts<T>(a: set<T>, s: set<T>)
    ensures |a| == |a - s| + |a * s|
  {
    assert a == (a - s) + (a * s);
  }

  lemma SizeOfCut<T>(a: set<T>, b: set<T>)
    requires b <= a
    ensures |a - b| == |a| - |b|
  {
    assert a == (a - b) + b;
  }

  lemma AddedShrinks(added: set<Key>, s: set<Key>, a: set<Key>)
    requires a <= added
    ensures |(added - a) - s| == |added - s| - |a - s| && |(added - a) * s| == |added * s| - |a * s|
  {
    SizeOfCut(added - s, a - s);
    assert (added - a) - s == (added - s) - (a - s);
    SizeOfCut(added * s, a * s);
    assert (added - a) * s == (added * s) - (a * s);
  }

  lemma ToldShrinks(told: set<Key>, s: set<Key>, a: set<Key>, d: set<Key>)
    requires a !! told && d <= told - s
    ensures |(told - d + a) - s| == |told - s| - |d| + |a - s|
  {
    SizeOfCut(told - s, d);
    assert (told - d + a) - s == ((told - s) - d) + (a - s);
    assert ((told - s) - d) !! (a - s);
  }

  /** Counting alone: sending `a` and withdrawing `d` shrinks the work by their number. */
  lemma WorkShrinks(added: set<Key>, told: set<Key>, s: set<Key>, a: set<Key>, d: set<Key>)
    requires added !! told && a <= added && d <= told - s
    ensures 2 * |(added - a) - s| + |(added - a) * s| + |(told - d + a) - s|
         == 2 * |added - s| + |added * s| + |told - s| - |a| - |d|
  {
    SizeOfParts(a, s);
    AddedShrinks(added, s, a);
    ToldShrinks(told, s, a, d);
  }

  // ----------------------------------------------------------------- names are never told

  lemma PackableIsNameless<V>(d: seq<Slot<Key, V>>)
    ensures Packable(d) <==> Nameless(Keys(d))
  {
    if Nameless(Keys(d)) {
      forall i | 0 <= i < |d|
        ensures !d[i].key.host.Name?
      {
        assert d[i] in d;
      }
    }
  }

  lemma BuildTellsNoName(l: Ledger, interval: real, before: real, after: real)
    requires Nameless(l.told)
    ensures Nameless(Build(l, interval, before, after).0.told)
  {
    PackableIsNameless(NextMessage(l).added);
  }

  lemma {:induction false} RunTellsNoName(w: World, interval: real, run: seq<Event>)
    requires Nameless(w.ledger.told)
    ensures Nameless(After(w, interval, run).ledger.told)
    decreases |run|
  {
    if run != [] {
      if run[0].Building? {
        BuildTellsNoName(w.ledger, interval, run[0].before, run[0].after);
      }
      RunTellsNoName(Next(w, interval, run[0]), interval, run[1..]);
    }
  }

  /** Whatever happens, a peer is never told of a named peer, so while one is connected the told set is
      not the connected set. */
  lemma NamedPeerIsNeverTold(clock: real, interval: real, run: seq<Event>, s: set<Key>)
    requires !Nameless(s)
    ensures After(Beginning(clock), interval, run).ledger.told != s
  {
    RunTellsNoName(Beginning(clock), interval, run);
  }

  // ------------------------------------------------------------------------------- one round

  lemma RoundKeys(l: Ledger, s: set<Key>, interval: real, before: real, after: real, snapshot: seq<Contact>, r: Ledger)
    requires Settled(l, s) && Due(l, interval, before) && Keys(snapshot) == s
    requires Packable(NextMessage(l).added) && Packable(NextMessage(l).dropped)
    requires Synced(Build(l, interval, before, after).0, snapshot, r)
    ensures var m := NextMessage(l);
            && r.told == l.told - Keys(m.dropped) + Keys(m.added)
            && Keys(r.added) == Keys(l.added) - Keys(m.added)
  {
    var m := NextMessage(l);
    var b := Build(l, interval, before, after).0;
    DrainedKeepsInv(l);
    if m.added == [] && m.dropped == [] {
      assert Keys(m.added) == {} && Keys(m.dropped) == {};
      assert b == l;
    } else {
      assert b == Shipped(l, after);
      assert b.told == l.told - Keys(m.dropped) + Keys(m.added);
    }
    assert Keys(b.added) == Keys(l.added) - Keys(m.added);
    MessageKeys(l);
    StillQueued(l.told, Keys(l.added), Keys(l.dropped), s, Keys(m.added), Keys(m.dropped));
  }

  lemma StillQueued(told: set<Key>, added: set<Key>, dropped: set<Key>, s: set<Key>, a: set<Key>, d: set<Key>)
    requires s - told <= added && dropped == told - s && a <= added && d <= dropped
    ensures (added - a) + (s - (told - d + a)) == added - a
  {
  }

  /** A build that raises and the snapshot after it: the stale part of what was drained is gone, the
      connected part is queued again. */
  lemma RaisedKeys(l: Ledger, s: set<Key>, interval: real, before: real, after: real, snapshot: seq<Contact>, r: Ledger)
    requires Settled(l, s) && Keys(snapshot) == s && Build(l, interval, before, after).1.Raised?
    requires Synced(Build(l, interval, before, after).0, snapshot, r)
    ensures var m := NextMessage(l);
            r.told == l.told - Keys(m.dropped) && Keys(r.added) == Keys(l.added) - (Keys(m.added) - s)
  {
    var m := NextMessage(l);
    DrainedKeepsInv(l);
    MessageKeys(l);
    FirstAndRest(l.added, Cap(l));
    FirstAndRest(l.dropped, MAX_PER_MESSAGE);
    QueuedAgain(l.told, Keys(l.added), Keys(l.dropped), s, Keys(m.added), Keys(m.dropped));
  }

  lemma QueuedAgain(told: set<Key>, added: set<Key>, dropped: set<Key>, s: set<Key>, a: set<Key>, d: set<Key>)
    requires added !! told && s - told <= added && dropped == told - s && a <= added && d <= dropped
    ensures (added - a) + (s - (told - d)) == added - (a - s)
  {
  }

  lemma WorkDropped(added: set<Key>, told: set<Key>, s: set<Key>, a: set<Key>, d: set<Key>)
    requires a <= added && d <= told - s
    ensures 2 * |(added - (a - s)) - s| + |(added - (a - s)) * s| + |(told - d) - s|
         == 2 * |added - s| + |added * s| + |told - s| - 2 * |a - s| - |d|
  {
    SizeOfCut(added - s, a - s);
    assert (added - (a - s)) - s == (added - s) - (a - s);
    assert (added - (a - s)) * s == added * s;
    SizeOfCut(told - s, d);
    assert (told - d) - s == (told - s) - d;
  }

  lemma SentPays(l: Ledger, s: set<Key>, interval: real, before: real, after: real, snapshot: seq<Contact>, r: Ledger)
    requires Settled(l, s) && Due(l, interval, before) && Keys(snapshot) == s
    requires !Build(l, interval, before, after).1.Raised? && Synced(Build(l, interval, before, after).0, snapshot, r)
    ensures Potential(r, s) == Potential(l, s) - |NextMessage(l).added| - |NextMessage(l).dropped|
  {
    var m := NextMessage(l);
    FirstAndRest(l.added, Cap(l));
    FirstAndRest(l.dropped, MAX_PER_MESSAGE);
    RoundKeys(l, s, interval, before, after, snapshot, r);
    WorkShrinks(Keys(l.added), l.told, s, Keys(m.added), Keys(m.dropped));
  }

  /** Told and connected peers have addresses, so the name that made a build raise is a stale one. */
  lemma RaisedPays(l: Ledger, s: set<Key>, interval: real, before: real, after: real, snapshot: seq<Contact>, r: Ledger)
    requires Settled(l, s) && Nameless(l.told) && Nameless(s) && Keys(snapshot) == s
    requires Build(l, interval, before, after).1.Raised? && Synced(Build(l, interval, before, after).0, snapshot, r)
    ensures |Keys(NextMessage(l).added) - s| > 0
    ensures Potential(r, s) == Potential(l, s) - 2 * |Keys(NextMessage(l).added) - s| - |NextMessage(l).dropped|
  {
    var m := NextMessage(l);
    FirstAndRest(l.added, Cap(l));
    FirstAndRest(l.dropped, MAX_PER_MESSAGE);
    RaisedKeys(l, s, interval, before, after, snapshot, r);
    WorkDropped(Keys(l.added), l.told, s, Keys(m.added), Keys(m.dropped));
    PackableIsNameless(m.added);
    PackableIsNameless(m.dropped);
    StaleName(Keys(m.added), s);
  }

  lemma StaleName(a: set<Key>, s: set<Key>)
    requires Nameless(s) && !Nameless(a)
    ensures |a - s| > 0
  {
    var k :| k in a && k.host.Name?;
    assert k in a - s;
  }

  lemma WorkIsDone(l: Ledger, s: set<Key>)
    requires Settled(l, s) && Potential(l, s) > 0
    ensures |NextMessage(l).added| + |NextMessage(l).dropped| > 0
  {
    SizeOfParts(Keys(l.added), s);
    FirstAndRest(l.added, Cap(l));
    FirstAndRest(l.dropped, MAX_PER_MESSAGE);
    Count(l.added);
    Count(l.dropped);
  }

  /** A round takes out of the work left exactly the entries of its message, or, when the build raises,
      the stale additions it drained, twice each, and the withdrawals it forgot; so as long as there is
      work every round does some. */
  lemma RoundPays(l: Ledger, s: set<Key>, interval: real, before: real, after: real, snapshot: seq<Contact>, r: Ledger)
    requires Settled(l, s) && Nameless(l.told) && Nameless(s) && Due(l, interval, before) && Keys(snapshot) == s
    requires Synced(Build(l, interval, before, after).0, snapshot, r)
    ensures Settled(r, s) && Nameless(r.told)
    ensures Potential(r, s) == Potential(l, s) - |NextMessage(l).dropped|
              - if Build(l, interval, before, after).1.Raised? then 2 * |Keys(NextMessage(l).added) - s|
                else |NextMessage(l).added|
    ensures Potential(l, s) > 0 ==> Potential(r, s) < Potential(l, s)
  {
    BuildTellsNoName(l, interval, before, after);
    SyncSettles(Build(l, interval, before, after).0, snapshot, r);
    if Build(l, interval, before, after).1.Raised? {
      RaisedPays(l, s, interval, before, after, snapshot, r);
    } else {
      SentPays(l, s, interval, before, after, snapshot, r);
      if Potential(l, s) > 0 {
        WorkIsDone(l, s);
      }
    }
  }

  /** No work left is exactly agreement with the snapshot, with nothing queued. */
  lemma NoWorkMeansAgreed(l: Ledger, s: set<Key>)
    requires Settled(l, s)
    ensures Potential(l, s) == 0 <==> l.told == s && l.added == []
  {
    SizeOfParts(Keys(l.added), s);
    Count(l.added);
    if Potential(l, s) == 0 {
      assert l.told - s == {};
      assert Keys(l.added) == {};
    }
    if l.told == s && l.added == [] {
      assert Keys(l.added) == {};
      assert l.told - s == {};
    }
  }

  // --------------------------------------------------------------------------- convergence

  /** However stale the queue was, and whatever names were in it, after as many rounds as there was
      work the peer has been told exactly the connected peers, and it stays that way. */
  lemma {:induction false} Converges(chain: seq<Ledger>, s: set<Key>, interval: real)
    requires chain != [] && Settled(chain[0], s) && Nameless(chain[0].told) && Nameless(s)
    requires forall i :: 0 <= i < |chain| - 1 ==> Round(chain[i], s, interval, chain[i + 1])
    requires |chain| > Potential(chain[0], s)
    ensures chain[|chain| - 1].told == s && chain[|chain| - 1].added == [] && chain[|chain| - 1].dropped == []
    decreases |chain|
  {
    var l := chain[0];
    if |chain| == 1 {
      NoWorkMeansAgreed(l, s);
      Count(l.dropped);
      assert l.told - s == {};
    } else {
      assert Round(chain[0], s, interval, chain[0 + 1]);
      var before: real, after: real, snapshot: seq<Contact> :|
        && Due(l, interval, before) && Keys(snapshot) == s
        && Synced(Build(l, interval, before, after).0, snapshot, chain[1]);
      RoundPays(l, s, interval, before, after, snapshot, chain[1]);
      RestOfChain(chain, s, interval);
      Converges(chain[1..], s, interval);
    }
  }

  lemma RestOfChain(chain: seq<Ledger>, s: set<Key>, interval: real)
    requires |chain| > 1 && forall i :: 0 <= i < |chain| - 1 ==> Round(chain[i], s, interval, chain[i + 1])
    ensures forall i :: 0 <= i < |chain[1..]| - 1 ==> Round(chain[1..][i], s, interval, chain[1..][i + 1])
  {
    forall i | 0 <= i < |chain[1..]| - 1
      ensures Round(chain[1..][i], s, interval, chain[1..][i + 1])
    {
      assert Round(chain[i + 1], s, interval, chain[i + 1 + 1]);
    }
  }

  lemma {:induction false} ChainTellsNoName(chain: seq<Ledger>, s: set<Key>, interval: real)
    requires chain != [] && Nameless(chain[0].told)
    requires forall i :: 0 <= i < |chain| - 1 ==> Round(chain[i], s, interval, chain[i + 1])
    ensures Nameless(chain[|chain| - 1].told)
    decreases |chain|
  {
    if |chain| > 1 {
      assert Round(chain[0], s, interval, chain[0 + 1]);
      var before: real, after: real, snapshot: seq<Contact> :|
        && Due(chain[0], interval, before) && Keys(snapshot) == s
        && Synced(Build(chain[0], interval, before, after).0, snapshot, chain[1]);
      BuildTellsNoName(chain[0], interval, before, after);
      RestOfChain(chain, s, interval);
      ChainTellsNoName(chain[1..], s, interval);
    }
  }

  /** From wherever any run has led: after one sync with the connected peers and as many rounds as
      there is work, the peer has been told exactly the connected peers if and only if none of them is
      known by a name. */
  lemma ConvergesExactlyWhen(clock: real, interval: real, run: seq<Event>, snapshot: seq<Contact>, chain: seq<Ledger>)
    requires Feasible(Beginning(clock), interval, run)
    requires chain != [] && Synced(After(Beginning(clock), interval, run).ledger, snapshot, chain[0])
    requires forall i :: 0 <= i < |chain| - 1 ==> Round(chain[i], Keys(snapshot), interval, chain[i + 1])
    requires |chain| > Potential(chain[0], Keys(snapshot))
    ensures chain[|chain| - 1].told == Keys(snapshot) <==> Nameless(Keys(snapshot))
  {
    RunTellsNoName(Beginning(clock), interval, run);
    SyncSettles(After(Beginning(clock), interval, run).ledger, snapshot, chain[0]);
    ChainTellsNoName(chain, Keys(snapshot), interval);
    if Nameless(Keys(snapshot)) {
      Converges(chain, Keys(snapshot), interval);
    }
  }

  /** A connected peer known by a name does worse than stay untold: as long as the queue fits in one
      message every build that is due raises, so nothing at all is told, and withdrawals are forgotten. */
  lemma NamedPeerSilencesTheLedger(l: Ledger, s: set<Key>, interval: real, before: real, after: real,
                                   snapshot: seq<Contact>, r: Ledger)
    requires Settled(l, s) && Nameless(l.told) && !Nameless(s) && |l.added| <= Cap(l)
    requires Due(l, interval, before) && Keys(snapshot) == s && Synced(Build(l, interval, before, after).0, snapshot, r)
    ensures Build(l, interval, before, after).1.Raised?
    ensures r.told <= l.told && r.lastSent == l.lastSent && Keys(r.added) == Keys(l.added) * s && |r.added| <= Cap(r)
  {
    var m := NextMessage(l);
    var k :| k in s && k.host.Name?;
    assert m.added == l.added && k in Keys(m.added);
    PackableIsNameless(m.added);
    assert m.added != [] by {
      var c :| c in m.added && c.key == k;
    }
    RaisedKeys(l, s, interval, before, after, snapshot, r);
    assert Keys(r.added) == Keys(l.added) * s;
    Count(l.added);
    Count(r.added);
    SizeOfParts(Keys(l.added), s);
  }
}
