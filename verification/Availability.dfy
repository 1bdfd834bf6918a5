/** How many tracked peers hold each piece: the incremental index of app/peer/bitfield.py, fed as
    app/download/manager.py feeds it. */
module Availability {
  import opened Basics

  type PeerName = string

  /** `held` is what each connected peer's bitfield says now, `tracked` whom the index has taken in, and
      `early` counts, per piece, announcements made by peers not tracked at the time. */
  datatype Swarm = Swarm(held: map<PeerName, set<nat>>, tracked: set<PeerName>, counts: seq<int>, early: seq<nat>)

  datatype Event =
    | Connect(peer: PeerName)
    | Bitfield(peer: PeerName, pieces: set<nat>)
    | Have(peer: PeerName, piece: nat)
    | Track(peer: PeerName)
    | Leave(peer: PeerName)

  ghost function Empty(pieces: nat): Swarm {
    Swarm(map[], {}, seq(pieces, _ => 0), seq(pieces, _ => 0))
  }

  ghost function Added(counts: seq<int>, pieces: set<nat>, delta: int): (r: seq<int>)
    ensures |r| == |counts|
    ensures forall i :: 0 <= i < |r| ==> r[i] == counts[i] + if i in pieces then delta else 0
  {
    seq(|counts|, i requires 0 <= i < |counts| => counts[i] + if i in pieces then delta else 0)
  }

  /** A bitfield message replaces the bitfield, so it must come before the peer is tracked. */
  ghost predicate Enabled(s: Swarm, e: Event) {
    match e
    case Connect(p) => p !in s.held
    case Bitfield(p, pieces) => p in s.held && p !in s.tracked && forall i :: i in pieces ==> i < |s.counts|
    case Have(p, i) => p in s.held && i < |s.counts|
    case Track(p) => p in s.held && p !in s.tracked
    case Leave(p) => p in s.held
  }

  ghost function Next(s: Swarm, e: Event): Swarm
    requires Enabled(s, e) && |s.early| == |s.counts|
  {
    match e
    case Connect(p) => s.(held := s.held[p := {}])
    case Bitfield(p, pieces) => s.(held := s.held[p := pieces])
    case Have(p, i) =>
      if i in s.held[p] then s
      else s.(held := s.held[p := s.held[p] + {i}], counts := s.counts[i := s.counts[i] + 1],
              early := if p in s.tracked then s.early else s.early[i := s.early[i] + 1])
    case Track(p) => s.(tracked := s.tracked + {p}, counts := Added(s.counts, s.held[p], 1))
    case Leave(p) =>
      if p in s.tracked
      then s.(held := s.held - {p}, tracked := s.tracked - {p}, counts := Added(s.counts, s.held[p], -1))
      else s.(held := s.held - {p})
  }

  ghost function Holders(s: Swarm, i: nat): set<PeerName>
    requires s.tracked <= s.held.Keys
  {
    set p | p in s.tracked && i in s.held[p]
  }

  ghost predicate Inv(s: Swarm) {
    && s.tracked <= s.held.Keys && |s.early| == |s.counts|
    && forall i :: 0 <= i < |s.counts| ==> s.counts[i] == |Holders(s, i)| + s.early[i]
  }

  lemma HaveKeepsInv(s: Swarm, p: PeerName, piece: nat)
    requires Inv(s) && Enabled(s, Have(p, piece))
    ensures Inv(Next(s, Have(p, piece)))
  {
    var n := Next(s, Have(p, piece));
    forall i | 0 <= i < |s.counts|
      ensures n.counts[i] == |Holders(n, i)| + n.early[i]
    {
      if i == piece && piece !in s.held[p] && p in s.tracked {
        assert Holders(n, i) == Holders(s, i) + {p};
      } else {
        assert Holders(n, i) == Holders(s, i);
      }
    }
  }

  lemma TrackKeepsInv(s: Swarm, p: PeerName)
    requires Inv(s) && Enabled(s, Track(p))
    ensures Inv(Next(s, Track(p)))
  {
    var n := Next(s, Track(p));
    forall i | 0 <= i < |s.counts|
      ensures n.counts[i] == |Holders(n, i)| + n.early[i]
    {
      assert Holders(n, i) == if i in s.held[p] then Holders(s, i) + {p} else Holders(s, i);
    }
  }

  lemma LeaveKeepsInv(s: Swarm, p: PeerName)
    requires Inv(s) && Enabled(s, Leave(p))
    ensures Inv(Next(s, Leave(p)))
  {
    var n := Next(s, Leave(p));
    forall i | 0 <= i < |s.counts|
      ensures n.counts[i] == |Holders(n, i)| + n.early[i]
    {
      if p in s.tracked && i in s.held[p] {
        assert Holders(s, i) == Holders(n, i) + {p};
      } else {
        assert Holders(s, i) == Holders(n, i);
      }
    }
  }

  lemma NextKeepsInv(s: Swarm, e: Event)
    requires Inv(s) && Enabled(s, e)
    ensures Inv(Next(s, e)) && |Next(s, e).counts| == |s.counts|
  {
    match e {
      case Have(p, i) => HaveKeepsInv(s, p, i);
      case Track(p) => TrackKeepsInv(s, p);
      case Leave(p) => LeaveKeepsInv(s, p);
      case Connect(p) => OthersKeepInv(s, p, {});
      case Bitfield(p, pieces) => OthersKeepInv(s, p, pieces);
    }
  }

  lemma OthersKeepInv(s: Swarm, p: PeerName, pieces: set<nat>)
    requires Inv(s) && p !in s.tracked
    ensures Inv(s.(held := s.held[p := pieces]))
  {
    var n := s.(held := s.held[p := pieces]);
    forall i | 0 <= i < |s.counts|
      ensures n.counts[i] == |Holders(n, i)| + n.early[i]
    {
      assert Holders(n, i) == Holders(s, i);
    }
  }

  ghost predicate Feasible(s: Swarm, run: seq<Event>)
    requires |s.early| == |s.counts|
    decreases |run|
  {
    run == [] || (Enabled(s, run[0]) && Feasible(Next(s, run[0]), run[1..]))
  }

  ghost function After(s: Swarm, run: seq<Event>): Swarm
    requires |s.early| == |s.counts| && Feasible(s, run)
    decreases |run|
  {
    if run == [] then s else After(Next(s, run[0]), run[1..])
  }

  /** Every announcement in the run comes from a peer already tracked. */
  ghost predicate Punctual(s: Swarm, run: seq<Event>)
    requires |s.early| == |s.counts| && Feasible(s, run)
    decreases |run|
  {
    run == [] || ((run[0].Have? ==> run[0].peer in s.tracked) && Punctual(Next(s, run[0]), run[1..]))
  }

  lemma {:induction false} RunKeepsInv(s: Swarm, run: seq<Event>)
    requires Inv(s) && Feasible(s, run)
    ensures Inv(After(s, run)) && |After(s, run).counts| == |s.counts|
    ensures Punctual(s, run) ==> After(s, run).early == s.early
    decreases |run|
  {
    if run != [] {
      NextKeepsInv(s, run[0]);
      RunKeepsInv(Next(s, run[0]), run[1..]);
    }
  }

  /** In every run the index of a piece is the number of tracked peers whose bitfield has it, plus the
      announcements that came too early; it is never negative; and it is exact exactly for the pieces
      nobody announced early. */
  lemma CountsAreHolders(pieces: nat, run: seq<Event>, i: nat)
    requires Feasible(Empty(pieces), run) && i < pieces
    ensures var s := After(Empty(pieces), run);
            && s.tracked <= s.held.Keys && |s.counts| == |s.early| == pieces
            && s.counts[i] == |Holders(s, i)| + s.early[i] && s.counts[i] >= 0
            && (s.counts[i] == |Holders(s, i)| <==> s.early[i] == 0)
            && (Punctual(Empty(pieces), run) ==> s.counts[i] == |Holders(s, i)|)
  {
    var e := Empty(pieces);
    forall k | 0 <= k < pieces
      ensures e.counts[k] == |Holders(e, k)| + e.early[k]
    {
      assert Holders(e, k) == {};
    }
    RunKeepsInv(e, run);
  }

  lemma StepFirst(s: Swarm, e: Event, rest: seq<Event>)
    requires |s.early| == |s.counts| && Enabled(s, e) && Feasible(Next(s, e), rest)
    ensures Feasible(s, [e] + rest) && After(s, [e] + rest) == After(Next(s, e), rest)
  {
    assert ([e] + rest)[1..] == rest;
  }

  /** One peer announces a piece before it is tracked: it is counted twice, and still once when it has
      gone. */
  lemma EarlyHaveCountsTwice() returns (here: seq<Event>, gone: seq<Event>)
    ensures Feasible(Empty(1), here) && After(Empty(1), here).counts == [2] && |After(Empty(1), here).held| == 1
    ensures Feasible(Empty(1), gone) && After(Empty(1), gone).counts == [1] && |After(Empty(1), gone).held| == 0
  {
    var p := "a";
    var a, b, c, d := Connect(p), Have(p, 0), Track(p), Leave(p);
    var s0 := Empty(1);
    var s1 := Next(s0, a);
    var s2 := Next(s1, b);
    assert s2.counts == [1] && s2.held.Keys == {p} && s2.held[p] == {0};
    var s3 := Next(s2, c);
    assert s3.counts == [2] && |s3.held.Keys| == 1;
    var s4 := Next(s3, d);
    assert s4.counts == [1] && s4.held.Keys == {};
    StepFirst(s2, c, []);
    StepFirst(s1, b, [c] + []);
    here := [a] + ([b] + ([c] + []));
    StepFirst(s0, a, [b] + ([c] + []));
    StepFirst(s3, d, []);
    StepFirst(s2, c, [d] + []);
    StepFirst(s1, b, [c] + ([d] + []));
    gone := [a] + ([b] + ([c] + ([d] + [])));
    StepFirst(s0, a, [b] + ([c] + ([d] + [])));
  }
}
