/** Whole simulator runs: every scheduled event fires once, in one global order, whatever the policy does. */
module HarnessOrder {
  import opened Wrappers
  import opened Commands
  import opened Clock
  import opened Harness

  /** The events of a trajectory in the order they were handled. */
  function FiredOf(trajectory: seq<Entry>): seq<Event> {
    if trajectory == [] then []
    else
      var n := |trajectory| - 1;
      FiredOf(trajectory[..n]) + if trajectory[n].Fired? then [trajectory[n].event] else []
  }

  lemma FiredOfSnoc(t: seq<Entry>, x: Entry)
    ensures FiredOf(t + [x]) == FiredOf(t) + if x.Fired? then [x.event] else []
  {
    assert (t + [x])[..|t|] == t;
  }

  lemma {:induction false} FiredIsRecorded(t: seq<Entry>)
    ensures forall e :: e in FiredOf(t) ==> Fired(e) in t
  {
    if t != [] {
      FiredIsRecorded(t[..|t| - 1]);
    }
  }

  // ---------- the ledger of issued ids ----------

  ghost predicate Issued(all: seq<Event>, id: nat) { exists e :: e in all && e.id == id }

  /** `done` then the queue is one sequence in firing order, holding each issued id exactly once. */
  ghost predicate Ledger(done: seq<Event>, c: ClockState) {
    var all := done + c.events;
    && Sorted(all)
    && (forall e :: e in all ==> e.id < c.nextId)
    && (forall id :: 0 <= id < c.nextId ==> Issued(all, id))
    && (forall e, f :: e in all && f in all && e.id == f.id ==> e == f)
  }

  lemma ScheduleKeepsLedger(done: seq<Event>, c: ClockState, kind: EventKind, at: nat)
    requires Ledger(done, c) && forall x :: x in done ==> x.at <= at
    ensures Ledger(done, c.Schedule(kind, at))
  {
    var e := Event(at, c.nextId, kind);
    var all, all' := done + c.events, done + c.Schedule(kind, at).events;
    forall x | x in done ensures Before(x, e) {
      assert x in all;
    }
    forall x | x in c.events ensures x.id != e.id {
      assert x in all;
    }
    InsertKeepsSorted(done, c.events, e);
    ScheduleAdds(c, kind, at);
    assert forall x :: x in all' <==> x in all || x == e;
    forall id | 0 <= id <= c.nextId ensures Issued(all', id) {
      if id < c.nextId {
        assert Issued(all, id);
        var x :| x in all && x.id == id;
        assert x in all';
      } else {
        assert e in all';
      }
    }
  }

  lemma {:induction false} ScheduleAllKeepsLedger(done: seq<Event>, c: ClockState, plan: seq<(EventKind, nat)>)
    requires Ledger(done, c)
    requires forall x, i :: x in done && 0 <= i < |plan| ==> x.at <= plan[i].1
    ensures Ledger(done, ScheduleAll(c, plan))
    decreases |plan|
  {
    if plan != [] {
      ScheduleKeepsLedger(done, c, plan[0].0, plan[0].1);
      ScheduleAllKeepsLedger(done, c.Schedule(plan[0].0, plan[0].1), plan[1..]);
    }
  }

  // ---------- invariants between ticks and inside one ----------

  ghost predicate StampsInOrder(t: seq<Entry>) {
    forall i, j :: 0 <= i < j < |t| ==> t[i].Stamp() <= t[j].Stamp()
  }

  /** Between operations. An event at the present instant can only be an observation that was asked for
      inside the tick that ended there. */
  ghost predicate Settled(s: Sim) {
    && Ledger(FiredOf(s.trajectory), s.clock)
    && StampsInOrder(s.trajectory)
    && (forall x :: x in s.trajectory ==> x.Stamp() <= s.clock.now)
    && (forall e :: e in s.clock.events ==> e.at > s.clock.now || (e.at == s.clock.now && e.kind.ObservationDue?))
  }

  /** Inside a tick ending at `tickEnd`, with `rest` drained but not yet handled. */
  ghost predicate MidTick(w: World, s: Sim, rest: seq<Event>, tickEnd: nat) {
    && tickEnd == s.clock.now + w.tickDt
    && Ledger(FiredOf(s.trajectory) + rest, s.clock)
    && StampsInOrder(s.trajectory)
    && (forall x :: x in s.trajectory ==> x.Stamp() <= tickEnd)
    && (forall x, e :: x in s.trajectory && e in rest ==> x.Stamp() <= e.at)
    && (forall e :: e in rest ==> e.at <= tickEnd)
    && (forall e :: e in s.clock.events ==> e.at > tickEnd || (e.at == tickEnd && e.kind.ObservationDue?))
  }

  lemma {:induction false} ObservationsAreLater(commands: seq<EngineCommand>, now: nat)
    ensures forall i :: 0 <= i < |Observations(commands, now)| ==>
      Observations(commands, now)[i] == (ObservationDue("kv.compress", now), now + OBSERVATION_DELAY)
  {
    if commands != [] {
      ObservationsAreLater(commands[..|commands| - 1], now);
    }
  }

  /** Scheduling a reaction's observations keeps everything but the queue. */
  lemma ReactionKeepsMidTick(w: World, s: Sim, rest: seq<Event>, tickEnd: nat, commands: seq<EngineCommand>)
    requires MidTick(w, s, rest, tickEnd) && w.tickDt <= OBSERVATION_DELAY
    ensures MidTick(w, s.(clock := ScheduleAll(s.clock, Observations(commands, s.clock.now))), rest, tickEnd)
  {
    var plan := Observations(commands, s.clock.now);
    ObservationsAreLater(commands, s.clock.now);
    FiredIsRecorded(s.trajectory);
    var done := FiredOf(s.trajectory) + rest;
    forall x, i | x in done && 0 <= i < |plan| ensures x.at <= plan[i].1 {
      if x in FiredOf(s.trajectory) {
        assert Fired(x) in s.trajectory;
        assert Fired(x).Stamp() <= tickEnd;
      }
    }
    ScheduleAllKeepsLedger(done, s.clock, plan);
    ScheduleAllAdds(s.clock, plan);
  }

  lemma StampsOfSnoc(t: seq<Entry>, x: Entry)
    requires StampsInOrder(t) && forall y :: y in t ==> y.Stamp() <= x.Stamp()
    ensures StampsInOrder(t + [x])
  {
    forall i, j | 0 <= i < j < |t + [x]| ensures (t + [x])[i].Stamp() <= (t + [x])[j].Stamp() {
      assert t[i] in t;
    }
  }

  lemma HeadIsEarliest(done: seq<Event>, rest: seq<Event>, queue: seq<Event>)
    requires Sorted(done + rest + queue) && rest != []
    ensures forall e :: e in rest ==> rest[0].at <= e.at
  {
    var all, n := done + rest + queue, |done|;
    forall e | e in rest ensures rest[0].at <= e.at {
      var j :| 0 <= j < |rest| && rest[j] == e;
      assert all[n] == rest[0] && all[n + j] == e;
    }
  }

  lemma RecordKeepsLedger(done: seq<Event>, rest: seq<Event>, c: ClockState)
    requires Ledger(done + rest, c) && rest != []
    ensures Ledger((done + [rest[0]]) + rest[1..], c)
  {
    assert (done + [rest[0]]) + rest[1..] == done + rest;
  }

  lemma RecordKeepsMidTick(w: World, s: Sim, rest: seq<Event>, tickEnd: nat, x: Entry)
    requires MidTick(w, s, rest, tickEnd) && rest != [] && x.Stamp() == rest[0].at
    requires x.Fired? ==> x.event == rest[0]
    ensures MidTick(w, s.(trajectory := s.trajectory + [x]), if x.Fired? then rest[1..] else rest, tickEnd)
  {
    hide FiredOf;
    FiredOfSnoc(s.trajectory, x);
    RecordKeepsLedger(FiredOf(s.trajectory), rest, s.clock);
    HeadIsEarliest(FiredOf(s.trajectory), rest, s.clock.events);
    assert rest[0] in rest;
    StampsOfSnoc(s.trajectory, x);
    hide Ledger, StampsInOrder;
    assert FiredOf(s.trajectory) + [] == FiredOf(s.trajectory);
  }

  lemma HandleKeepsMidTick(w: World, s: Sim, rest: seq<Event>, tickEnd: nat)
    requires MidTick(w, s, rest, tickEnd) && rest != [] && w.tickDt <= OBSERVATION_DELAY
    ensures MidTick(w, Handle(w, s, rest[0]), rest[1..], tickEnd)
  {
    hide MidTick, ScheduleAll, Observations;
    var e := rest[0];
    var reaction := if IsSignal(e.kind) then w.policy(s.trajectory, e, s.clock.now) else None;
    if reaction.Some? {
      var s1 := s.(clock := ScheduleAll(s.clock, Observations(reaction.value, s.clock.now)));
      ReactionKeepsMidTick(w, s, rest, tickEnd, reaction.value);
      RecordKeepsMidTick(w, s1, rest, tickEnd, Directed(e.at, reaction.value));
      var s2 := s1.(trajectory := s1.trajectory + [Directed(e.at, reaction.value)]);
      RecordKeepsMidTick(w, s2, rest, tickEnd, Fired(e));
      assert s.trajectory + [Directed(e.at, reaction.value), Fired(e)] == s2.trajectory + [Fired(e)];
    } else {
      RecordKeepsMidTick(w, s, rest, tickEnd, Fired(e));
    }
  }

  lemma {:induction false} HandleAllKeepsMidTick(w: World, s: Sim, rest: seq<Event>, tickEnd: nat)
    requires MidTick(w, s, rest, tickEnd) && w.tickDt <= OBSERVATION_DELAY
    ensures MidTick(w, HandleAll(w, s, rest), [], tickEnd)
    decreases |rest|
  {
    if rest != [] {
      HandleKeepsMidTick(w, s, rest, tickEnd);
      HandleAllKeepsMidTick(w, Handle(w, s, rest[0]), rest[1..], tickEnd);
    }
  }

  /** The drained events and the rest of the queue, by time. */
  lemma DrainSplits(c: ClockState, target: nat)
    requires Sorted(c.events)
    ensures c.events == c.Drained(target) + c.AfterDrain(target).events
    ensures forall e :: e in c.Drained(target) ==> e.at <= target && e in c.events
    ensures forall e :: e in c.AfterDrain(target).events ==> e.at > target
  {
    var n := DueCount(c.events, target);
    hide DueCount;
    var later := c.AfterDrain(target).events;
    forall e | e in later ensures e.at > target {
      var j :| 0 <= j < |later| && later[j] == e;
      assert c.events[n + j] == e;
      assert j > 0 ==> Before(c.events[n], c.events[n + j]);
    }
  }

  lemma SortedSuffix(p: seq<Event>, q: seq<Event>)
    requires Sorted(p + q)
    ensures Sorted(q)
  {
    forall i, j | 0 <= i < j < |q| ensures Before(q[i], q[j]) {
      assert (p + q)[|p| + i] == q[i] && (p + q)[|p| + j] == q[j];
    }
  }

  lemma StartOfTick(w: World, s: Sim)
    requires Settled(s)
    ensures var tickEnd := s.clock.now + w.tickDt;
            MidTick(w, s.(clock := s.clock.AfterDrain(tickEnd)), s.clock.Drained(tickEnd), tickEnd)
  {
    var tickEnd := s.clock.now + w.tickDt;
    var fired := FiredOf(s.trajectory);
    SortedSuffix(fired, s.clock.events);
    DrainSplits(s.clock, tickEnd);
    assert fired + s.clock.events == (fired + s.clock.Drained(tickEnd)) + s.clock.AfterDrain(tickEnd).events;
  }

  lemma LedgerIgnoresNow(done: seq<Event>, c: ClockState, now: nat)
    requires Ledger(done + [], c)
    ensures Ledger(done, c.(now := now))
  {
    assert done + [] == done;
  }

  lemma EndOfTick(w: World, s: Sim, tickEnd: nat)
    requires MidTick(w, s, [], tickEnd)
    ensures Settled(Sim(s.clock.(now := s.clock.now + w.tickDt), s.trajectory + [Snapshot(tickEnd)]))
  {
    hide FiredOf, Ledger;
    LedgerIgnoresNow(FiredOf(s.trajectory), s.clock, tickEnd);
    FiredOfSnoc(s.trajectory, Snapshot(tickEnd));
    StampsOfSnoc(s.trajectory, Snapshot(tickEnd));
    hide StampsInOrder;
    assert FiredOf(s.trajectory) + [] == FiredOf(s.trajectory);
  }

  /** One tick, for any policy and any tick of at most the observation delay. */
  lemma TickKeepsSettled(w: World, s: Sim)
    requires Settled(s) && 0 < w.tickDt <= OBSERVATION_DELAY
    ensures Settled(Tick(w, s))
  {
    hide MidTick, Settled, HandleAll, Ledger;
    var tickEnd := s.clock.now + w.tickDt;
    var s0 := s.(clock := s.clock.AfterDrain(tickEnd));
    StartOfTick(w, s);
    HandleAllKeepsMidTick(w, s0, s.clock.Drained(tickEnd), tickEnd);
    EndOfTick(w, HandleAll(w, s0, s.clock.Drained(tickEnd)), tickEnd);
  }

  // ---------- what a tick does to events other than observations ----------

  /** Nothing was lost or rewritten, and the fired list only grew at its end. */
  ghost predicate Keeps(s: Sim, s': Sim) {
    && FiredOf(s.trajectory) <= FiredOf(s'.trajectory)
    && (forall e :: e in FiredOf(s.trajectory) + s.clock.events ==> e in FiredOf(s'.trajectory) + s'.clock.events)
  }

  /** Besides, the only new events are observations. */
  ghost predicate Extends(s: Sim, s': Sim) {
    && Keeps(s, s')
    && (forall e :: e in FiredOf(s'.trajectory) + s'.clock.events && !e.kind.ObservationDue?
          ==> e in FiredOf(s.trajectory) + s.clock.events)
  }

  lemma ExtendsIsTransitive(a: Sim, b: Sim, c: Sim)
    requires Extends(a, b) && Extends(b, c)
    ensures Extends(a, c)
  {
    forall e | e in FiredOf(c.trajectory) + c.clock.events && !e.kind.ObservationDue?
      ensures e in FiredOf(a.trajectory) + a.clock.events
    {
      assert e in FiredOf(b.trajectory) + b.clock.events;
    }
  }

  lemma HandleFires(w: World, s: Sim, e: Event)
    ensures FiredOf(Handle(w, s, e).trajectory) == FiredOf(s.trajectory) + [e]
    ensures forall x :: x in s.clock.events ==> x in Handle(w, s, e).clock.events
    ensures forall x :: x in Handle(w, s, e).clock.events && !x.kind.ObservationDue? ==> x in s.clock.events
  {
    var reaction := if IsSignal(e.kind) then w.policy(s.trajectory, e, s.clock.now) else None;
    if reaction.Some? {
      var plan := Observations(reaction.value, s.clock.now);
      ObservationsAreLater(reaction.value, s.clock.now);
      ScheduleAllAdds(s.clock, plan);
      FiredOfSnoc(s.trajectory, Directed(e.at, reaction.value));
      FiredOfSnoc(s.trajectory + [Directed(e.at, reaction.value)], Fired(e));
      assert s.trajectory + [Directed(e.at, reaction.value), Fired(e)]
          == s.trajectory + [Directed(e.at, reaction.value)] + [Fired(e)];
    } else {
      FiredOfSnoc(s.trajectory, Fired(e));
    }
  }

  lemma {:induction false} HandleAllFires(w: World, s: Sim, es: seq<Event>)
    ensures FiredOf(HandleAll(w, s, es).trajectory) == FiredOf(s.trajectory) + es
    ensures forall x :: x in s.clock.events ==> x in HandleAll(w, s, es).clock.events
    ensures forall x :: x in HandleAll(w, s, es).clock.events && !x.kind.ObservationDue? ==> x in s.clock.events
    decreases |es|
  {
    if es != [] {
      HandleFires(w, s, es[0]);
      HandleAllFires(w, Handle(w, s, es[0]), es[1..]);
      assert FiredOf(s.trajectory) + [es[0]] + es[1..] == FiredOf(s.trajectory) + es;
    }
  }

  lemma TickExtends(w: World, s: Sim)
    ensures Extends(s, Tick(w, s))
  {
    hide HandleAll, FiredOf, DueCount;
    var tickEnd := s.clock.now + w.tickDt;
    var drained := s.clock.Drained(tickEnd);
    var s0 := s.(clock := s.clock.AfterDrain(tickEnd));
    HandleAllFires(w, s0, drained);
    var s1 := HandleAll(w, s0, drained);
    FiredOfSnoc(s1.trajectory, Snapshot(tickEnd));
    var s' := Tick(w, s);
    var fired := FiredOf(s.trajectory);
    assert s'.clock.events == s1.clock.events && FiredOf(s'.trajectory) == fired + drained;
    assert s.clock.events == drained + s0.clock.events;
    assert forall e :: e in s.clock.events <==> e in drained || e in s0.clock.events;
  }

  lemma {:induction false} RunTicksIsOrderly(w: World, s: Sim, end: nat)
    requires Settled(s) && 0 < w.tickDt <= OBSERVATION_DELAY
    ensures Settled(RunTicks(w, s, end)) && Extends(s, RunTicks(w, s, end))
    ensures RunTicks(w, s, end).clock.now >= end
    decreases end - s.clock.now
  {
    hide Settled, Tick;
    if s.clock.now < end {
      TickKeepsSettled(w, s);
      TickExtends(w, s);
      TickAdvances(w, s);
      RunTicksIsOrderly(w, Tick(w, s), end);
      hide Extends;
      ExtendsIsTransitive(s, Tick(w, s), RunTicks(w, s, end));
    }
  }

  lemma {:induction false} TickUntilIsOrderly(w: World, s: Sim, stop: Sim -> bool, end: nat)
    requires Settled(s) && 0 < w.tickDt <= OBSERVATION_DELAY
    ensures var s' := TickUntil(w, s, stop, end).0; Settled(s') && Extends(s, s')
    decreases end - s.clock.now
  {
    hide Settled, Tick;
    if !stop(s) && s.clock.now < end {
      TickKeepsSettled(w, s);
      TickExtends(w, s);
      TickAdvances(w, s);
      TickUntilIsOrderly(w, Tick(w, s), stop, end);
      hide Extends;
      ExtendsIsTransitive(s, Tick(w, s), TickUntil(w, s, stop, end).0);
    }
  }
}
