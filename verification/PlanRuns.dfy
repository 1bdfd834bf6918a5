/** A planning pass is a run of the download: everything proved of reachable states holds in the
    middle of a pass and after it. */
module PlanRuns {
  import opened Basics
  import opened Blocks
  import opened Pieces
  import opened SchedulerSpec
  import opened EngineSpec
  import opened EngineProofs
  import opened PlanSpec
  import opened Theorems

  lemma AfterCons(c: Context, e: Engine, evs: seq<Event>, ev: Event, rest: seq<Event>)
    requires Inv(c, e) && evs != [] && evs[0] == ev && evs[1..] == rest
    ensures After(c, e, evs) == After(c, Next(c, e, ev), rest)
  {
  }

  lemma {:induction false} AfterConcat(c: Context, e: Engine, a: seq<Event>, b: seq<Event>)
    requires Inv(c, e)
    ensures After(c, e, a + b) == After(c, After(c, e, a), b)
    decreases |a|
  {
    if a == [] {
      assert a + b == b;
    } else {
      var f := Next(c, e, a[0]);
      AfterCons(c, e, a + b, a[0], a[1..] + b);
      AfterConcat(c, f, a[1..], b);
    }
  }

  lemma ActIsAStep(c: Context, e: Engine, ev: Event, now: real)
    requires Inv(c, e) && Allowed(c.config, e.sched, ev, now)
    ensures Next(c, e, ev) == e.(sched := PlanStep(c.config, e.sched, ev, now))
  {
  }

  lemma {:induction false} PassIsARun(c: Context, e: Engine, acts: seq<Event>, now: real, t: Sched)
    requires Inv(c, e) && PassReaches(c.config, e.sched, acts, now, t)
    ensures After(c, e, acts) == e.(sched := t)
    decreases |acts|
  {
    if acts != [] {
      ActIsAStep(c, e, acts[0], now);
      PassIsARun(c, Next(c, e, acts[0]), acts[1..], now, t);
    }
  }

  /** What `pump` plans from a reachable state leads to a reachable state. */
  lemma PlanningStaysReachable(c: Context, e: Engine, acts: seq<Event>, now: real, t: Sched)
    requires Reachable(c, e) && PassReaches(c.config, e.sched, acts, now, t)
    ensures Reachable(c, e.(sched := t))
  {
    var e0, evs :| Start(c, e0) && ReachedBy(c, e0, evs, e);
    PassIsARun(c, e, acts, now, t);
    AfterConcat(c, e0, evs, acts);
    assert ReachedBy(c, e0, evs + acts, e.(sched := t));
  }

  /** Where a run leads from a state of a download. */
  ghost function Later(c: Context, e: Engine, evs: seq<Event>): Engine {
    if Inv(c, e) then After(c, e, evs) else e
  }

  lemma LaterIsReachable(c: Context, e: Engine, evs: seq<Event>)
    requires Reachable(c, e)
    ensures Inv(c, e) && Later(c, e, evs) == After(c, e, evs) && Reachable(c, Later(c, e, evs))
  {
    var e0, run :| Start(c, e0) && ReachedBy(c, e0, run, e);
    AfterConcat(c, e0, run, evs);
    assert ReachedBy(c, e0, run + evs, After(c, e, evs));
  }

  lemma StepReaches(c: Context, e: Engine, ev: Event)
    requires Reachable(c, e) && Inv(c, e) && Enabled(c, e, ev)
    ensures Reachable(c, Step(c, e, ev))
  {
    LaterIsReachable(c, e, [ev]);
    assert [ev][1..] == [];
    assert After(c, e, [ev]) == Next(c, e, ev);
  }

  lemma StartIsReachable(c: Context, e: Engine)
    requires Start(c, e)
    ensures Reachable(c, e)
  {
    StartInv(c, e);
    assert ReachedBy(c, e, [], e);
  }
}
