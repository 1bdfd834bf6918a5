/** How far the cached count of unclaimed blocks is ahead of a recount, read off the events of a run. */
module CacheDrift {
  import opened Basics
  import opened Blocks
  import opened Pieces
  import opened SchedulerSpec
  import opened EngineSpec
  import opened EngineProofs
  import opened Theorems
  import opened PlanRuns
  import opened Races
  import opened Blame

  /** A block message that is stored although its block was not REQUESTED. */
  ghost predicate Uninvited(c: Context, e: Engine, ev: Event)
    requires Inv(c, e)
  {
    && ev.Arrive? && ev.index < |e.sched.pieces| && !e.sched.pieces[ev.index].Closed()
    && e.sched.pieces[ev.index].Accepts(ev.begin, ev.data)
    && e.sched.pieces[ev.index].states[ev.begin] != BlockRequested
  }

  /** The count after one event: one more for an uninvited block while the cache is set, and back to
      zero at a failed hash, which clears the cache. */
  ghost function AheadAfter(c: Context, e: Engine, ev: Event, n: nat): nat
    requires Inv(c, e)
  {
    if e.sched.unclaimed.Some? && Uninvited(c, e, ev) then n + 1
    else if ev.HashDone? && Fails(c, e, ev, ev.piece) then 0
    else n
  }

  ghost function Ahead(c: Context, e: Engine, evs: seq<Event>, n: nat): nat
    requires Inv(c, e)
    decreases |evs|
  {
    if evs == [] then n else Ahead(c, Next(c, e, evs[0]), evs[1..], AheadAfter(c, e, evs[0], n))
  }

  lemma ArrivalAhead(c: Context, e: Engine, ev: Event)
    requires Inv(c, e) && ev.Arrive?
    ensures OnBlock(e, ev.peer, ev.index, ev.begin, ev.data).surplus == AheadAfter(c, e, ev, e.surplus)
  {
    if ev.index < |e.sched.pieces| {
      ArrivalSurplus(e, ev.peer, ev.index, ev.begin, ev.data);
    }
  }

  lemma ArrivalSurplus(e: Engine, p: Peer, index: nat, begin: nat, data: seq<byte>)
    requires e.sched.PiecesOk() && index < |e.sched.pieces| && e.sched.pieces[index].phase != Downloaded
    ensures OnBlock(e, p, index, begin, data).surplus ==
            e.surplus + if e.sched.unclaimed.Some? && !e.sched.pieces[index].Closed()
                           && e.sched.pieces[index].Accepts(begin, data)
                           && e.sched.pieces[index].states[begin] != BlockRequested then 1 else 0
  {
  }

  lemma HashAhead(c: Context, e: Engine, i: nat)
    requires Inv(c, e) && Enabled(c, e, HashDone(i))
    ensures Step(c, e, HashDone(i)).surplus == AheadAfter(c, e, HashDone(i), e.surplus)
  {
    TaskInside(c, e, i);
    if Fails(c, e, HashDone(i), i) {
      StepFails(c, e, i);
    }
  }

  lemma TaskInside(c: Context, e: Engine, i: nat)
    requires Inv(c, e) && i in e.tasks
    ensures i < |c.torrent.hashes| == |e.sched.pieces|
  {
    assert TaskOk(c, e, i);
  }

  lemma OtherAhead(c: Context, e: Engine, ev: Event)
    requires Inv(c, e) && Enabled(c, e, ev) && !ev.Arrive? && !ev.HashDone?
    ensures Step(c, e, ev).surplus == e.surplus
  {
  }

  lemma NextAhead(c: Context, e: Engine, ev: Event)
    requires Inv(c, e)
    ensures Next(c, e, ev).surplus == AheadAfter(c, e, ev, e.surplus)
  {
    if Enabled(c, e, ev) {
      if ev.Arrive? {
        ArrivalAhead(c, e, ev);
      } else if ev.HashDone? {
        HashAhead(c, e, ev.piece);
      } else {
        OtherAhead(c, e, ev);
      }
    }
  }

  lemma {:induction false} RunAhead(c: Context, e: Engine, evs: seq<Event>)
    requires Inv(c, e)
    ensures After(c, e, evs).surplus == Ahead(c, e, evs, e.surplus)
    decreases |evs|
  {
    if evs != [] {
      NextAhead(c, e, evs[0]);
      RunAhead(c, Next(c, e, evs[0]), evs[1..]);
    }
  }

  /** After any run the cache, when it is set, is ahead of a recount by exactly the blocks that were
      stored uninvited while it was set and since it was last cleared; so it is exact if and only if
      there were none. */
  lemma CacheExactExactlyWhen(c: Context, e0: Engine, evs: seq<Event>)
    requires Start(c, e0)
    ensures Inv(c, e0)
    ensures var s := After(c, e0, evs).sched;
            var n := Ahead(c, e0, evs, 0);
            s.unclaimed.Some? ==>
              && s.unclaimed.value == s.TrueUnclaimed() + n
              && (s.unclaimed.value == s.TrueUnclaimed() <==> n == 0)
  {
    StartInv(c, e0);
    RunAhead(c, e0, evs);
  }

  ghost predicate AllInvited(c: Context, e: Engine, evs: seq<Event>)
    requires Inv(c, e)
    decreases |evs|
  {
    evs != [] ==> !Uninvited(c, e, evs[0]) && AllInvited(c, Next(c, e, evs[0]), evs[1..])
  }

  lemma {:induction false} InvitedAhead(c: Context, e: Engine, evs: seq<Event>)
    requires Inv(c, e) && AllInvited(c, e, evs)
    ensures Ahead(c, e, evs, 0) == 0
    decreases |evs|
  {
    if evs != [] {
      InvitedAhead(c, Next(c, e, evs[0]), evs[1..]);
    }
  }

  /** When every stored block was requested at the time it arrived, the cache is exact. */
  lemma CacheExactWhenInvited(c: Context, e0: Engine, evs: seq<Event>)
    requires Start(c, e0)
    ensures Inv(c, e0)
    ensures AllInvited(c, e0, evs) && After(c, e0, evs).sched.unclaimed.Some? ==>
              After(c, e0, evs).sched.unclaimed.value == After(c, e0, evs).sched.TrueUnclaimed()
  {
    CacheExactExactlyWhen(c, e0, evs);
    if AllInvited(c, e0, evs) {
      InvitedAhead(c, e0, evs);
    }
  }

  // --------------------------------------------------------------------- a witness

  lemma OneUninvited(c: Context, e: Engine, p: Peer)
    requires Inv(c, e) && |e.sched.pieces| == 1 && OneMissing(e.sched.pieces[0]) && e.sched.unclaimed.Some?
    ensures var f := Step(c, e, Arrive(p, 0, 0, [5]));
            f.surplus == e.surplus + 1 && f.sched.unclaimed == e.sched.unclaimed
  {
    assert e.sched.pieces[0].blocks[0] == Block(0, 0, 1);
  }

  /** There is a download whose cache is too high: its only block is counted as unclaimed and then
      arrives from a peer that was never asked. */
  lemma SomeCacheOvercounts(p: Peer) returns (c: Context, f: Engine)
    ensures Reachable(c, f) && f.sched.PiecesOk()
    ensures f.sched.unclaimed.Some? && f.sched.unclaimed.value == f.sched.TrueUnclaimed() + 1
  {
    var e0;
    c, e0 := RaceStartExists();
    StartIsReachable(c, e0);
    StartInv(c, e0);
    var e := e0.(sched := e0.sched.Counted());
    RequestReaches(c, e0, Count);
    LaterIsReachable(c, e, []);
    OneUninvited(c, e, p);
    StepReaches(c, e, Arrive(p, 0, 0, [5]));
    f := Step(c, e, Arrive(p, 0, 0, [5]));
    CacheNeverUndercounts(c, f);
  }
}
