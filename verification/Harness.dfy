/** The simulator loop (src/sim/harness.rs): preloading, ticks, and directives that schedule observations. */
module Harness {
  import opened Wrappers
  import opened Commands
  import opened Clock

  const OBSERVATION_DELAY: nat := 3_000_000_000
  const HORIZON: nat := 60_000_000_000

  datatype Injection = Injection(start: nat, duration: nat)

  /** Polling intervals and injections of a scenario; an interval of zero schedules nothing. */
  datatype Config = Config(heartbeat: nat, memory: nat, compute: nat, thermal: nat, energy: nat, injections: seq<Injection>)

  datatype Entry =
    | Fired(event: Event)
    | Directed(when: nat, commands: seq<EngineCommand>)
    | Snapshot(when: nat)
  {
    function Stamp(): nat { if Fired? then event.at else when }
  }

  /** The policy with its deduplicator, the signals and the physics behind them: some directive, or none,
      as any function of everything recorded so far, the event in hand and the clock. */
  type Policy = (seq<Entry>, Event, nat) -> Option<seq<EngineCommand>>

  datatype World = World(cfg: Config, policy: Policy, tickDt: nat)

  datatype Sim = Sim(clock: ClockState, trajectory: seq<Entry>)

  const START := Sim(FRESH, [])

  predicate IsSignal(k: EventKind) {
    k.SignalMemory? || k.SignalCompute? || k.SignalThermal? || k.SignalEnergy?
  }

  /** The observations a directive asks for, one per observable command. */
  function Observations(commands: seq<EngineCommand>, now: nat): seq<(EventKind, nat)> {
    if commands == [] then []
    else
      Observations(commands[..|commands| - 1], now)
      + if commands[|commands| - 1].KvCompress? then [(ObservationDue("kv.compress", now), now + OBSERVATION_DELAY)] else []
  }

  function Handle(w: World, s: Sim, e: Event): Sim {
    var reaction := if IsSignal(e.kind) then w.policy(s.trajectory, e, s.clock.now) else None;
    match reaction
    case None => s.(trajectory := s.trajectory + [Fired(e)])
    case Some(commands) =>
      Sim(ScheduleAll(s.clock, Observations(commands, s.clock.now)), s.trajectory + [Directed(e.at, commands), Fired(e)])
  }

  function HandleAll(w: World, s: Sim, es: seq<Event>): Sim
    decreases |es|
  {
    if es == [] then s else HandleAll(w, Handle(w, s, es[0]), es[1..])
  }

  function Tick(w: World, s: Sim): Sim {
    var tickEnd := s.clock.now + w.tickDt;
    var s1 := HandleAll(w, s.(clock := s.clock.AfterDrain(tickEnd)), s.clock.Drained(tickEnd));
    Sim(s1.clock.(now := s1.clock.now + w.tickDt), s1.trajectory + [Snapshot(tickEnd)])
  }

  lemma {:induction false} HandleAllKeepsNow(w: World, s: Sim, es: seq<Event>)
    ensures HandleAll(w, s, es).clock.now == s.clock.now
    decreases |es|
  {
    if es != [] {
      HandleKeepsNow(w, s, es[0]);
      HandleAllKeepsNow(w, Handle(w, s, es[0]), es[1..]);
    }
  }

  lemma HandleKeepsNow(w: World, s: Sim, e: Event)
    ensures Handle(w, s, e).clock.now == s.clock.now
  {
    var reaction := w.policy(s.trajectory, e, s.clock.now);
    if reaction.Some? {
      ScheduleAllAdds(s.clock, Observations(reaction.value, s.clock.now));
    }
  }

  lemma TickAdvances(w: World, s: Sim)
    ensures Tick(w, s).clock.now == s.clock.now + w.tickDt
  {
    var tickEnd := s.clock.now + w.tickDt;
    HandleAllKeepsNow(w, s.(clock := s.clock.AfterDrain(tickEnd)), s.clock.Drained(tickEnd));
  }

  function RunTicks(w: World, s: Sim, end: nat): Sim
    requires w.tickDt > 0
    decreases end - s.clock.now
  {
    if s.clock.now >= end then s
    else
      TickAdvances(w, s);
      RunTicks(w, Tick(w, s), end)
  }

  // ---------- preloading ----------

  function PeriodicPlan(kind: EventKind, now: nat, period: nat, until: nat): seq<(EventKind, nat)> {
    if period == 0 then [] else Plan(kind, PeriodicTimes((now / period + 1) * period, period, until))
  }

  function Pick(kind: EventKind, t: nat, now: nat, until: nat): seq<(EventKind, nat)> {
    if now < t <= until then [(kind, t)] else []
  }

  /** Starts and ends of the first `n` injections. */
  function InjectionPlan(injections: seq<Injection>, n: nat, now: nat, until: nat): seq<(EventKind, nat)>
    requires n <= |injections|
  {
    if n == 0 then []
    else
      var inj := injections[n - 1];
      InjectionPlan(injections, n - 1, now, until)
      + (Pick(ExternalInjectionStart(n - 1), inj.start, now, until)
         + Pick(ExternalInjectionEnd(n - 1), inj.start + inj.duration, now, until))
  }

  function PreloadPlan(c: Config, now: nat, until: nat): seq<(EventKind, nat)> {
    PeriodicPlan(Heartbeat, now, c.heartbeat, until)
    + PeriodicPlan(SignalMemory, now, c.memory, until)
    + PeriodicPlan(SignalCompute, now, c.compute, until)
    + PeriodicPlan(SignalThermal, now, c.thermal, until)
    + PeriodicPlan(SignalEnergy, now, c.energy, until)
    + InjectionPlan(c.injections, |c.injections|, now, until)
  }

  function Preload(w: World, s: Sim, until: nat): Sim {
    s.(clock := ScheduleAll(s.clock, PreloadPlan(w.cfg, s.clock.now, until)))
  }

  function RunFor(w: World, s: Sim, duration: nat): Sim
    requires w.tickDt > 0
  {
    RunTicks(w, Preload(w, s, s.clock.now + duration), s.clock.now + duration)
  }

  /** Ticks until `stop` holds or the deadline passes; the flag says whether it stopped. */
  function TickUntil(w: World, s: Sim, stop: Sim -> bool, end: nat): (Sim, bool)
    requires w.tickDt > 0
    decreases end - s.clock.now
  {
    if stop(s) then (s, true)
    else if s.clock.now >= end then (s, false)
    else
      TickAdvances(w, s);
      TickUntil(w, Tick(w, s), stop, end)
  }

  function RunUntil(w: World, s: Sim, stop: Sim -> bool, max: nat): (Sim, bool)
    requires w.tickDt > 0
  {
    var now := s.clock.now;
    TickUntil(w, Preload(w, s, now + if max <= HORIZON then max else HORIZON), stop, now + max)
  }

  class Simulator {
    const world: World
    const clock: VirtualClock
    var trajectory: seq<Entry>

    function View(): Sim
      reads this, clock
    {
      Sim(clock.View(), trajectory)
    }

    constructor (world: World)
      ensures this.world == world && View() == START && fresh(clock)
    {
      this.world := world;
      clock := new VirtualClock();
      trajectory := [];
    }

    method SchedulePeriodicFrom(kind: EventKind, period: nat, until: nat)
      modifies clock
      ensures View() == old(View()).(clock := ScheduleAll(old(clock.View()), PeriodicPlan(kind, old(clock.now), period, until)))
    {
      if period == 0 {
        return;
      }
      var first := (clock.now / period + 1) * period;
      clock.SchedulePeriodic(kind, first, period, until);
    }

    method PreloadInjections(until: nat)
      modifies clock
      ensures View() == old(View()).(clock := ScheduleAll(old(clock.View()),
                InjectionPlan(world.cfg.injections, |world.cfg.injections|, old(clock.now), until)))
    {
      hide ScheduleAll, Pick;
      ghost var c0, now := clock.View(), clock.now;
      var injections := world.cfg.injections;
      PlannedSoFar(c0, [], []);
      for i := 0 to |injections|
        invariant clock.now == now && trajectory == old(trajectory)
        invariant clock.View() == ScheduleAll(c0, InjectionPlan(injections, i, now, until))
      {
        var tStart := injections[i].start;
        var tEnd := tStart + injections[i].duration;
        ghost var before := InjectionPlan(injections, i, now, until);
        SchedulePick(ExternalInjectionStart(i), tStart, until, c0, before);
        SchedulePick(ExternalInjectionEnd(i), tEnd, until, c0, before + Pick(ExternalInjectionStart(i), tStart, now, until));
        assert before + Pick(ExternalInjectionStart(i), tStart, now, until) + Pick(ExternalInjectionEnd(i), tEnd, now, until)
            == InjectionPlan(injections, i + 1, now, until);
      }
    }

    method SchedulePick(kind: EventKind, t: nat, until: nat, ghost c0: ClockState, ghost before: seq<(EventKind, nat)>)
      requires clock.View() == ScheduleAll(c0, before)
      modifies clock
      ensures clock.View() == ScheduleAll(c0, before + Pick(kind, t, old(clock.now), until))
      ensures clock.now == old(clock.now)
    {
      PlannedSoFar(c0, before, Pick(kind, t, clock.now, until));
      if t > clock.now && t <= until {
        var _ := clock.Schedule(kind, t);
      }
    }

    method PreloadEvents(until: nat)
      modifies clock
      ensures View() == Preload(world, old(View()), until)
    {
      hide ScheduleAll, PeriodicPlan, InjectionPlan;
      ghost var c0, now := clock.View(), clock.now;
      var c := world.cfg;
      ghost var plan := PeriodicPlan(Heartbeat, now, c.heartbeat, until);
      PlannedSoFar(c0, plan, PeriodicPlan(SignalMemory, now, c.memory, until));
      SchedulePeriodicFrom(Heartbeat, c.heartbeat, until);
      SchedulePeriodicFrom(SignalMemory, c.memory, until);
      plan := plan + PeriodicPlan(SignalMemory, now, c.memory, until);
      PlannedSoFar(c0, plan, PeriodicPlan(SignalCompute, now, c.compute, until));
      SchedulePeriodicFrom(SignalCompute, c.compute, until);
      plan := plan + PeriodicPlan(SignalCompute, now, c.compute, until);
      PlannedSoFar(c0, plan, PeriodicPlan(SignalThermal, now, c.thermal, until));
      SchedulePeriodicFrom(SignalThermal, c.thermal, until);
      plan := plan + PeriodicPlan(SignalThermal, now, c.thermal, until);
      PlannedSoFar(c0, plan, PeriodicPlan(SignalEnergy, now, c.energy, until));
      SchedulePeriodicFrom(SignalEnergy, c.energy, until);
      plan := plan + PeriodicPlan(SignalEnergy, now, c.energy, until);
      PlannedSoFar(c0, plan, InjectionPlan(c.injections, |c.injections|, now, until));
      PreloadInjections(until);
    }

    method ApplyDirective(commands: seq<EngineCommand>)
      modifies clock
      ensures View() == old(View()).(clock := ScheduleAll(old(clock.View()), Observations(commands, old(clock.now))))
    {
      hide ScheduleAll;
      ghost var c0, now := clock.View(), clock.now;
      PlannedSoFar(c0, Observations(commands[..0], now), []);
      for i := 0 to |commands|
        invariant clock.now == now && trajectory == old(trajectory)
        invariant clock.View() == ScheduleAll(c0, Observations(commands[..i], now))
      {
        assert commands[..i + 1][..i] == commands[..i];
        var observation := if commands[i].KvCompress? then [(ObservationDue("kv.compress", now), now + OBSERVATION_DELAY)] else [];
        PlannedSoFar(c0, Observations(commands[..i], now), observation);
        if commands[i].KvCompress? {
          var recordedAt := clock.now;
          var _ := clock.Schedule(ObservationDue("kv.compress", recordedAt), recordedAt + OBSERVATION_DELAY);
        }
      }
      assert commands[..|commands|] == commands;
    }

    method HandleEvent(event: Event)
      modifies this, clock
      ensures View() == Handle(world, old(View()), event)
    {
      if IsSignal(event.kind) {
        var reaction := world.policy(trajectory, event, clock.now);
        if reaction.Some? {
          ApplyDirective(reaction.value);
          trajectory := trajectory + [Directed(event.at, reaction.value)];
        }
      }
      trajectory := trajectory + [Fired(event)];
    }

    method HandleEvents(events: seq<Event>)
      modifies this, clock
      ensures View() == HandleAll(world, old(View()), events)
    {
      hide Handle, HandleAll;
      ghost var goal := HandleAll(world, View(), events);
      assert events[0..] == events;
      for k := 0 to |events|
        invariant HandleAll(world, View(), events[k..]) == goal
      {
        HandleAllStep(world, View(), events[k..]);
        HandleEvent(events[k]);
        assert events[k..][1..] == events[k + 1..];
      }
      HandleAllStep(world, View(), events[|events|..]);
    }

    method RunTick()
      modifies this, clock
      ensures View() == Tick(world, old(View()))
    {
      hide HandleAll, Tick, ClockState.AfterDrain, ClockState.Drained;
      ghost var s0 := View();
      var tickEnd := clock.now + world.tickDt;
      var events := clock.DrainUntil(tickEnd);
      assert View() == s0.(clock := s0.clock.AfterDrain(tickEnd));
      HandleEvents(events);
      ghost var s1 := View();
      trajectory := trajectory + [Snapshot(tickEnd)];
      clock.Advance(world.tickDt);
      TickStep(world, s0);
      assert View() == Sim(s1.clock.(now := s1.clock.now + world.tickDt), s1.trajectory + [Snapshot(tickEnd)]);
    }

    method RunForDuration(duration: nat)
      requires world.tickDt > 0
      modifies this, clock
      ensures View() == RunFor(world, old(View()), duration)
    {
      hide RunTicks, Tick, Preload;
      var end := clock.now + duration;
      PreloadEvents(end);
      ghost var goal := RunTicks(world, View(), end);
      while clock.now < end
        invariant RunTicks(world, View(), end) == goal
        decreases end - clock.now
      {
        RunTicksStep(world, View(), end);
        TickAdvances(world, View());
        RunTick();
      }
      RunTicksStep(world, View(), end);
    }

    method RunUntilPredicate(stop: Sim -> bool, max: nat) returns (stopped: bool)
      requires world.tickDt > 0
      modifies this, clock
      ensures (View(), stopped) == RunUntil(world, old(View()), stop, max)
    {
      hide TickUntil, Tick, Preload;
      var until := clock.now + if max <= HORIZON then max else HORIZON;
      var end := clock.now + max;
      PreloadEvents(until);
      ghost var goal := TickUntil(world, View(), stop, end);
      while true
        invariant TickUntil(world, View(), stop, end) == goal
        decreases end - clock.now
      {
        TickUntilStep(world, View(), stop, end);
        if stop(View()) {
          return true;
        }
        if clock.now >= end {
          return false;
        }
        TickAdvances(world, View());
        RunTick();
      }
    }
  }

  lemma TickStep(w: World, s: Sim)
    ensures var tickEnd := s.clock.now + w.tickDt;
            var s1 := HandleAll(w, s.(clock := s.clock.AfterDrain(tickEnd)), s.clock.Drained(tickEnd));
            Tick(w, s) == Sim(s1.clock.(now := s1.clock.now + w.tickDt), s1.trajectory + [Snapshot(tickEnd)])
  {
    hide HandleAll;
  }

  lemma HandleAllStep(w: World, s: Sim, es: seq<Event>)
    ensures HandleAll(w, s, es) == if es == [] then s else HandleAll(w, Handle(w, s, es[0]), es[1..])
  {
  }

  lemma RunForIsRunTicks(w: World, s: Sim, d: nat)
    requires w.tickDt > 0
    ensures RunFor(w, s, d) == RunTicks(w, Preload(w, s, s.clock.now + d), s.clock.now + d)
  {
    hide RunTicks, Preload;
  }

  lemma RunTicksStep(w: World, s: Sim, end: nat)
    requires w.tickDt > 0
    ensures RunTicks(w, s, end) == if s.clock.now >= end then s else RunTicks(w, Tick(w, s), end)
  {
  }

  lemma TickUntilStep(w: World, s: Sim, stop: Sim -> bool, end: nat)
    requires w.tickDt > 0
    ensures TickUntil(w, s, stop, end)
         == if stop(s) then (s, true)
            else if s.clock.now >= end then (s, false)
            else TickUntil(w, Tick(w, s), stop, end)
  {
  }

  lemma PlannedSoFar(c0: ClockState, plan: seq<(EventKind, nat)>, more: seq<(EventKind, nat)>)
    ensures ScheduleAll(c0, plan + more) == ScheduleAll(ScheduleAll(c0, plan), more)
    ensures ScheduleAll(c0, plan).now == c0.now
    ensures plan == [] ==> ScheduleAll(c0, plan) == c0
    ensures |more| == 1 ==> ScheduleAll(c0, plan + more) == ScheduleAll(c0, plan).Schedule(more[0].0, more[0].1)
    ensures more == [] ==> ScheduleAll(c0, plan + more) == ScheduleAll(c0, plan)
  {
    ScheduleAllOfConcat(c0, plan, more);
    ScheduleAllAdds(c0, plan);
    if |more| == 1 {
      assert ScheduleAll(ScheduleAll(c0, plan), more) == ScheduleAll(ScheduleAll(c0, plan).Schedule(more[0].0, more[0].1), []);
    }
  }
}
