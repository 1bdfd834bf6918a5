/** The index as an object over shared bitfields: a tracked peer's bitfield is the very object its
    session keeps writing to. */
module AvailabilityObject {
  import opened Basics
  import opened Bitfields
  import opened Availability

  class PieceAvailability {
    var counts: seq<int>

    constructor (pieces: nat)
      ensures counts == seq(pieces, _ => 0)
    {
      counts := seq(pieces, _ => 0);
    }

    /** Every piece of the bitfield moves by `delta`, no other piece moves; a bitfield of another torrent
        is refused. */
    method Apply(b: Bitfield, delta: int) returns (ok: bool)
      requires b.Valid()
      modifies this
      ensures ok <==> b.pieces == |old(counts)|
      ensures counts == if ok then Added(old(counts), Held(b.bits[..], b.pieces), delta) else old(counts)
    {
      if b.pieces != |counts| {
        return false;
      }
      ApplyEach(b, delta);
      return true;
    }

    method ApplyEach(b: Bitfield, delta: int)
      requires b.Valid() && b.pieces == |counts|
      modifies this
      ensures counts == Added(old(counts), Held(b.bits[..], b.pieces), delta)
    {
      for n := 0 to |counts|
        invariant |counts| == |old(counts)|
        invariant forall i :: 0 <= i < n ==> counts[i] == old(counts[i]) + if BitAt(b.bits[..], i) then delta else 0
        invariant forall i :: n <= i < |counts| ==> counts[i] == old(counts[i])
      {
        if b.Has(n) {
          counts := counts[n := counts[n] + delta];
        }
      }
    }

    /** The wanted pieces, each once, rarest first; with a limit, the rarest of them. */
    method Rarest(wanted: Bitfield, limit: Option<nat>) returns (r: seq<nat>)
      requires wanted.Valid() && wanted.pieces >= |counts|
      ensures InOrder(counts, r)
      ensures forall a, b :: 0 <= a < b < |r| ==>
                counts[r[a]] < counts[r[b]] || (counts[r[a]] == counts[r[b]] && r[a] < r[b])
      ensures limit.Some? ==> |r| <= limit.value
      ensures forall i :: i in r ==> i < |counts| && BitAt(wanted.bits[..], i)
      ensures forall i :: 0 <= i < |counts| && BitAt(wanted.bits[..], i) && i !in r ==>
                limit.Some? && |r| == limit.value && forall x :: x in r ==> Before(counts, x, i)
    {
      var all := [];
      for n := 0 to |counts|
        invariant InOrder(counts, all)
        invariant forall i: nat :: i in all <==> i < n && BitAt(wanted.bits[..], i)
      {
        if wanted.Has(n) {
          all := Placed(all, n);
        }
      }
      if limit.None? || limit.value >= |all| {
        return all;
      }
      r := all[..limit.value];
      assert forall x :: x in r ==> x in all;
      forall i | 0 <= i < |counts| && BitAt(wanted.bits[..], i) && i !in r
        ensures forall x :: x in r ==> Before(counts, x, i)
      {
        LeftOutIsLater(counts, all, limit.value, i);
      }
    }

    /** A sorted list with one more piece in its place. */
    method Placed(s: seq<nat>, n: nat) returns (r: seq<nat>)
      requires InOrder(counts, s) && n < |counts| && n !in s
      ensures InOrder(counts, r) && forall i: nat :: i in r <==> i in s || i == n
    {
      var at := 0;
      while at < |s| && Before(counts, s[at], n)
        invariant 0 <= at <= |s| && forall x :: 0 <= x < at ==> Before(counts, s[x], n)
      {
        at := at + 1;
      }
      LaterAfter(counts, s, n, at);
      r := s[..at] + [n] + s[at..];
      InsertedInOrder(counts, s, n, at, r);
    }
  }

  /** Rarer first, ties to the lower index. */
  predicate Before(c: seq<int>, a: nat, b: nat) {
    a < |c| && b < |c| && (c[a] < c[b] || (c[a] == c[b] && a < b))
  }

  ghost predicate InOrder(c: seq<int>, r: seq<nat>) {
    && (forall x :: 0 <= x < |r| ==> r[x] < |c|)
    && forall x, y :: 0 <= x < y < |r| ==> Before(c, r[x], r[y])
  }

  lemma LeftOutIsLater(c: seq<int>, all: seq<nat>, n: nat, i: nat)
    requires InOrder(c, all) && n <= |all| && i in all && i !in all[..n]
    ensures forall x :: x in all[..n] ==> Before(c, x, i)
  {
    var y :| 0 <= y < |all| && all[y] == i;
    assert forall z :: 0 <= z < n ==> all[..n][z] == all[z] && all[z] in all[..n];
    forall x | x in all[..n]
      ensures Before(c, x, i)
    {
      var z :| 0 <= z < n && all[..n][z] == x;
      assert Before(c, all[z], all[y]);
    }
  }

  lemma LaterAfter(c: seq<int>, s: seq<nat>, n: nat, at: nat)
    requires InOrder(c, s) && n < |c| && n !in s && at <= |s| && (at < |s| ==> !Before(c, s[at], n))
    ensures forall x :: at <= x < |s| ==> Before(c, n, s[x])
  {
    forall x | at <= x < |s|
      ensures Before(c, n, s[x])
    {
      assert s[at] in s;
      if x > at {
        assert Before(c, s[at], s[x]);
      }
    }
  }

  lemma InsertedInOrder(c: seq<int>, s: seq<nat>, n: nat, at: nat, r: seq<nat>)
    requires InOrder(c, s) && n < |c| && at <= |s| && r == s[..at] + [n] + s[at..]
    requires (forall x :: 0 <= x < at ==> Before(c, s[x], n)) && forall x :: at <= x < |s| ==> Before(c, n, s[x])
    ensures InOrder(c, r) && forall i: nat :: i in r <==> i in s || i == n
  {
    assert forall x :: 0 <= x < at ==> r[x] == s[x];
    assert r[at] == n;
    assert forall x :: at < x < |r| ==> r[x] == s[x - 1];
    assert s == s[..at] + s[at..];
  }

  /** The sessions of the connected peers and the manager's record of whom it tracks. A tracked peer's
      entry is its session's own bitfield, so an announcement changes both at once. */
  class Tracker {
    const pieces: nat
    const availability: PieceAvailability
    var sessions: map<PeerName, Bitfield>
    var tracked: map<PeerName, Bitfield>
    ghost var early: seq<nat>

    ghost function Arrays(): set<object>
      reads this
    {
      set p | p in sessions :: sessions[p].bits
    }

    /** What every session's bitfield says now. */
    ghost function Fields(): map<PeerName, set<nat>>
      reads this, Arrays()
      requires Shaped()
    {
      map p | p in sessions :: Held(sessions[p].bits[..], pieces)
    }

    ghost function Now(): Swarm
      reads this, availability, Arrays()
      requires Shaped()
    {
      Swarm(Fields(), tracked.Keys, availability.counts, early)
    }

    ghost predicate Shaped()
      reads this, Arrays()
    {
      && (forall p :: p in sessions ==> sessions[p].pieces == pieces && sessions[p].Valid())
      && (forall p, q :: p in sessions && q in sessions && p != q ==> sessions[p].bits != sessions[q].bits)
      && (forall p :: p in tracked ==> p in sessions && tracked[p] == sessions[p])
    }

    ghost predicate Valid()
      reads this, availability, Arrays()
    {
      Shaped() && |availability.counts| == pieces && Inv(Now())
    }

    constructor (pieces: nat)
      ensures Valid() && Now() == Empty(pieces) && this.pieces == pieces && fresh(availability)
    {
      this.pieces := pieces;
      availability := new PieceAvailability(pieces);
      sessions, tracked, early := map[], map[], seq(pieces, _ => 0);
      new;
      assert forall i :: 0 <= i < pieces ==> Holders(Empty(pieces), i) == {};
    }

    /** A session starts with an empty bitfield. */
    method Connect(peer: PeerName)
      requires Valid() && peer !in sessions
      modifies this`sessions
      ensures Valid() && Now() == Next(old(Now()), Availability.Connect(peer))
    {
      NextKeepsInv(Now(), Availability.Connect(peer));
      ghost var before := Now();
      var b := new Bitfield(pieces);
      assert Held(b.bits[..], pieces) == {};
      sessions := sessions[peer := b];
      assert Now().held == before.held[peer := {}];
    }

    /** The session notes the announcement; only a new one reaches the index. */
    method Announce(peer: PeerName, index: nat)
      requires Valid() && peer in sessions && index < pieces
      modifies sessions[peer].bits, availability, this`early
      ensures Valid() && Now() == Next(old(Now()), Have(peer, index))
    {
      NextKeepsInv(Now(), Have(peer, index));
      DoAnnounce(peer, index);
    }

    method DoAnnounce(peer: PeerName, index: nat)
      requires Shaped() && peer in sessions && index < pieces == |early| == |availability.counts|
      modifies sessions[peer].bits, availability, this`early
      ensures Shaped() && Now() == Next(old(Now()), Have(peer, index))
    {
      ghost var before := Now();
      var announced := Note(peer, index);
      if announced {
        OnHave(peer, index);
      }
      HaveIs(before, peer, index, Now());
    }

    method OnHave(peer: PeerName, index: nat)
      requires index < |early| == |availability.counts|
      modifies availability, this`early
      ensures availability.counts == old(availability.counts)[index := old(availability.counts)[index] + 1]
      ensures early == if peer in tracked then old(early) else old(early)[index := old(early)[index] + 1]
    {
      availability.counts := availability.counts[index := availability.counts[index] + 1];
      if peer !in tracked {
        early := early[index := early[index] + 1];
      }
    }

    static lemma HaveIs(s: Swarm, p: PeerName, i: nat, n: Swarm)
      requires Enabled(s, Have(p, i)) && |s.early| == |s.counts|
      requires n.held == s.held[p := s.held[p] + {i}] && n.tracked == s.tracked
      requires n.counts == if i in s.held[p] then s.counts else s.counts[i := s.counts[i] + 1]
      requires n.early == if i in s.held[p] || p in s.tracked then s.early else s.early[i := s.early[i] + 1]
      ensures n == Next(s, Have(p, i))
    {
      if i in s.held[p] {
        assert s.held[p] + {i} == s.held[p];
        assert n.held == s.held;
      }
    }

    method Note(peer: PeerName, index: nat) returns (announced: bool)
      requires Shaped() && peer in sessions && index < pieces
      modifies sessions[peer].bits
      ensures Shaped() && announced == (index !in old(Fields())[peer])
      ensures Fields() == old(Fields())[peer := old(Fields())[peer] + {index}]
    {
      ghost var before := Fields();
      var b := sessions[peer];
      announced := !b.Has(index);
      b.Set(index, true);
      assert Held(b.bits[..], pieces) == before[peer] + {index};
      assert forall p :: p in sessions && p != peer ==> sessions[p].bits[..] == old(sessions[p].bits[..]);
    }

    /** The index takes a peer's bitfield in whole. */
    method Track(peer: PeerName)
      requires Valid() && peer in sessions && peer !in tracked
      modifies this`tracked, availability
      ensures Valid() && Now() == Next(old(Now()), Availability.Track(peer))
    {
      NextKeepsInv(Now(), Availability.Track(peer));
      DoTrack(peer);
    }

    method DoTrack(peer: PeerName)
      requires Shaped() && peer in sessions && peer !in tracked && |early| == |availability.counts| == pieces
      modifies this`tracked, availability
      ensures Shaped() && Now() == Next(old(Now()), Availability.Track(peer))
    {
      ghost var before := Fields();
      var ok := availability.Apply(sessions[peer], 1);
      tracked := tracked[peer := sessions[peer]];
      assert Fields() == before;
    }

    /** Whatever the departing peer's bitfield says now is taken out. */
    method Leave(peer: PeerName)
      requires Valid() && peer in sessions
      modifies this`tracked, this`sessions, availability
      ensures Valid() && Now() == Next(old(Now()), Availability.Leave(peer))
    {
      NextKeepsInv(Now(), Availability.Leave(peer));
      DoLeave(peer);
    }

    method DoLeave(peer: PeerName)
      requires Shaped() && peer in sessions && |early| == |availability.counts| == pieces
      modifies this`tracked, this`sessions, availability
      ensures Shaped() && Now() == Next(old(Now()), Availability.Leave(peer))
    {
      ghost var before := Now();
      if peer in tracked {
        var ok := availability.Apply(tracked[peer], -1);
      }
      Forget(peer);
      LeaveIs(before, peer, Now());
    }

    static lemma LeaveIs(s: Swarm, p: PeerName, n: Swarm)
      requires Enabled(s, Availability.Leave(p)) && |s.early| == |s.counts|
      requires n.held == s.held - {p} && n.tracked == s.tracked - {p} && n.early == s.early
      requires n.counts == if p in s.tracked then Added(s.counts, s.held[p], -1) else s.counts
      ensures n == Next(s, Availability.Leave(p))
    {
      if p !in s.tracked {
        assert s.tracked - {p} == s.tracked;
      }
    }

    method Forget(peer: PeerName)
      requires Shaped() && peer in sessions
      modifies this`tracked, this`sessions
      ensures Shaped() && Fields() == old(Fields()) - {peer} && tracked.Keys == old(tracked.Keys) - {peer}
    {
      tracked := tracked - {peer};
      sessions := sessions - {peer};
    }
  }
}
