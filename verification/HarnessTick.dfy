/** The tick length at which time order is lost. */
module HarnessTick {
  import opened Wrappers
  import opened Commands
  import opened Clock
  import opened Harness
  import opened HarnessOrder
  import opened HarnessSlices
  import opened HarnessWindow

  /** One memory poll per tick, and a policy that compresses at every poll. */
  function SlowWorld(dt: nat): World {
    World(Config(0, dt, 0, 0, 0, []), (t: seq<Entry>, e: Event, now: nat) => Some([KvCompress(0.5)]), dt)
  }

  function Poll(dt: nat): Event { Event(dt, 0, SignalMemory) }

  function Observation(): Event { Event(OBSERVATION_DELAY, 1, ObservationDue("kv.compress", 0)) }

  lemma SlowPreload(dt: nat)
    requires dt > 0
    ensures Preload(SlowWorld(dt), START, dt) == Sim(ClockState(0, [Poll(dt)], 1), [])
  {
    var w := SlowWorld(dt);
    assert 0 / dt == 0 && (0 / dt + 1) * dt == dt;
    assert PeriodicTimes(dt, dt, dt) == [dt] + PeriodicTimes(dt + dt, dt, dt) == [dt];
    assert PeriodicPlan(SignalMemory, 0, dt, dt) == [(SignalMemory, dt)];
    assert PreloadPlan(w.cfg, 0, dt) == [(SignalMemory, dt)];
    OneScheduled(FRESH, (SignalMemory, dt));
  }

  lemma OneScheduled(c: ClockState, p: (EventKind, nat))
    ensures ScheduleAll(c, [p]) == c.Schedule(p.0, p.1)
  {
    assert [p][1..] == [];
  }

  lemma SlowFirstTick(dt: nat)
    requires dt > 0
    ensures var first := Tick(SlowWorld(dt), Sim(ClockState(0, [Poll(dt)], 1), []));
            && first.clock == ClockState(dt, [Observation()], 2)
            && |first.trajectory| == 3 && first.trajectory[2] == Snapshot(dt)
  {
    var w, s := SlowWorld(dt), Sim(ClockState(0, [Poll(dt)], 1), []);
    assert DueCount(s.clock.events, dt) == 1;
    assert s.clock.Drained(dt) == [Poll(dt)];
    var s0 := s.(clock := s.clock.AfterDrain(dt));
    assert s0.clock == ClockState(0, [], 1);
    var commands := [KvCompress(0.5)];
    assert commands[..0] == [];
    assert Observations(commands, 0) == [(ObservationDue("kv.compress", 0), OBSERVATION_DELAY)];
    OneScheduled(s0.clock, (ObservationDue("kv.compress", 0), OBSERVATION_DELAY));
    assert Handle(w, s0, Poll(dt)).clock == ClockState(0, [Observation()], 2);
    HandleAllStep(w, s0, [Poll(dt)]);
    HandleAllStep(w, Handle(w, s0, Poll(dt)), []);
    assert [Poll(dt)][1..] == [];
  }

  lemma SlowSecondTick(w: World, s: Sim, dt: nat)
    requires dt > OBSERVATION_DELAY && w == SlowWorld(dt)
    requires s.clock == ClockState(dt, [Observation()], 2) && |s.trajectory| == 3 && s.trajectory[2] == Snapshot(dt)
    ensures !StampsInOrder(Tick(w, s).trajectory)
  {
    assert DueCount(s.clock.events, dt + dt) == 1;
    assert s.clock.Drained(dt + dt) == [Observation()];
    var s0 := s.(clock := s.clock.AfterDrain(dt + dt));
    HandleAllStep(w, s0, [Observation()]);
    assert [Observation()][1..] == [];
    HandleAllStep(w, Handle(w, s0, Observation()), []);
    var t := Tick(w, s).trajectory;
    assert t[2] == Snapshot(dt) && t[3] == Fired(Observation());
    assert t[2].Stamp() > t[3].Stamp();
  }

  lemma OneTickRun(w: World, s: Sim, d: nat)
    requires w.tickDt == d > 0
    ensures RunFor(w, s, d) == Tick(w, Preload(w, s, s.clock.now + d))
  {
    hide *;
    var end := s.clock.now + d;
    var p := Preload(w, s, end);
    RunForIsRunTicks(w, s, d);
    PreloadKeepsClock(w, s, end);
    RunTicksStep(w, p, end);
    TickAdvances(w, p);
    RunTicksStep(w, Tick(w, p), end);
  }

  lemma SlowWorldTick(dt: nat)
    ensures SlowWorld(dt).tickDt == dt
  {
  }

  lemma SlowFirstRun(dt: nat)
    requires dt > 0 && SlowWorld(dt).tickDt == dt
    ensures var first := RunFor(SlowWorld(dt), START, dt);
            && first.clock == ClockState(dt, [Observation()], 2)
            && |first.trajectory| == 3 && first.trajectory[2] == Snapshot(dt)
  {
    hide Tick, Preload, SlowWorld, RunFor;
    SlowPreload(dt);
    SlowFirstTick(dt);
    OneTickRun(SlowWorld(dt), START, dt);
  }

  lemma TwoOperations(w: World, s: Sim, a: Operation, b: Operation)
    requires w.tickDt > 0
    ensures DoAll(w, s, [a, b]) == Do(w, Do(w, s, a), b)
  {
    hide Do;
    assert [a, b][1..] == [b] && [b][1..] == [];
    DoAllStep(w, s, [a, b]);
    DoAllStep(w, Do(w, s, a), [b]);
    DoAllStep(w, Do(w, Do(w, s, a), b), []);
  }

  lemma SlowTickBreaksOrder(dt: nat)
    requires dt > OBSERVATION_DELAY
    ensures SlowWorld(dt).tickDt == dt
    ensures !StampsInOrder(DoAll(SlowWorld(dt), START, [For(dt), TickOnce]).trajectory)
  {
    SlowWorldTick(dt);
    hide Tick, StampsInOrder, SlowWorld, DoAll, RunFor;
    SlowFirstRun(dt);
    SlowSecondTick(SlowWorld(dt), RunFor(SlowWorld(dt), START, dt), dt);
    TwoOperations(SlowWorld(dt), START, For(dt), TickOnce);
  }

  lemma DoAllStep(w: World, s: Sim, ops: seq<Operation>)
    requires w.tickDt > 0
    ensures DoAll(w, s, ops) == if ops == [] then s else DoAll(w, Do(w, s, ops[0]), ops[1..])
  {
  }

  ghost predicate OrderedForEveryPolicy(dt: nat)
    requires dt > 0
  {
    forall w: World, ops :: w.tickDt == dt ==> StampsInOrder(DoAll(w, START, ops).trajectory)
  }

  /** Time stamps are in order for every scenario, policy and sequence of operations exactly when the tick is
      no longer than the observation delay. */
  lemma OrderHoldsIffTickIsShort(dt: nat)
    requires dt > 0
    ensures OrderedForEveryPolicy(dt) <==> dt <= 3_000_000_000
  {
    if dt <= OBSERVATION_DELAY {
      forall w: World, ops | w.tickDt == dt ensures StampsInOrder(DoAll(w, START, ops).trajectory) {
        assert Settled(START);
        DoAllIsOrderly(w, START, ops);
      }
    } else {
      SlowTickBreaksOrder(dt);
    }
  }
}
