/** When a run fires an occurrence a second time: events left waiting by a run that was stopped early. */
module HarnessRepeat {
  import opened Numbers
  import opened Clock
  import opened Harness
  import opened HarnessOrder
  import opened HarnessWindow
  import opened HarnessSlices

  /** Exactly one of the events is for the occurrence. */
  ghost predicate OnceFor(es: seq<Event>, o: Occurrence) {
    exists e :: IsFor(es, e, o) && forall f :: IsFor(es, f, o) ==> f == e
  }

  ghost predicate IsFor(es: seq<Event>, e: Event, o: Occurrence) {
    e in es && (e.kind, e.at) == o
  }

  lemma SlotOrderIsInjective(plan: seq<Occurrence>)
    requires forall i, j :: 0 <= i < j < |plan| ==> SlotBefore(plan[i], plan[j])
    ensures forall i, j :: 0 <= i < |plan| && 0 <= j < |plan| && plan[i] == plan[j] ==> i == j
  {
  }

  lemma PlannedOnce(w: World, c: ClockState, until: nat, o: Occurrence) returns (added: Event)
    requires InWindow(w.cfg, c.now, until, o)
    ensures Planned(c, PreloadPlan(w.cfg, c.now, until), added) && (added.kind, added.at) == o
    ensures forall e :: Planned(c, PreloadPlan(w.cfg, c.now, until), e) && (e.kind, e.at) == o ==> e == added
  {
    var plan := PreloadPlan(w.cfg, c.now, until);
    PreloadPlanCovers(w.cfg, c.now, until);
    SlotsAreBounded(w.cfg, o);
    hide PreloadPlan;
    assert o in plan;
    var i :| 0 <= i < |plan| && plan[i] == o;
    added := Event(o.1, c.nextId + i, o.0);
    SlotOrderIsInjective(plan);
  }

  /** Preloading adds exactly one event for an occurrence in its window to those already waiting for it. */
  lemma PreloadAddsOne(w: World, s: Sim, until: nat, o: Occurrence) returns (added: Event)
    requires Settled(s) && InWindow(w.cfg, s.clock.now, until, o)
    ensures IsFor(Preload(w, s, until).clock.events, added, o) && added !in s.clock.events
    ensures forall e :: IsFor(Preload(w, s, until).clock.events, e, o) <==> e == added || IsFor(s.clock.events, e, o)
  {
    hide PreloadPlan, ScheduleAll, InWindow, FiredOf;
    added := PlannedOnce(w, s.clock, until, o);
    ScheduleAllAdds(s.clock, PreloadPlan(w.cfg, s.clock.now, until));
    assert added in s.clock.events ==> added in FiredOf(s.trajectory) + s.clock.events;
  }

  /** On sequences: what was queued for a due source is what fires for it. */
  lemma DueIsFired(fired: seq<Event>, queue: seq<Event>, latest: seq<Event>, queue': seq<Event>, o: Occurrence, now: nat)
    requires IsSource(o.0) && o.1 <= now
    requires Sorted(fired + queue) && Sorted(fired + latest)
    requires forall e :: e in fired + queue ==> e in fired + latest + queue'
    requires forall e :: e in fired + latest + queue' && !e.kind.ObservationDue? ==> e in fired + queue
    requires forall e :: e in queue' ==> e.at > now || e.kind.ObservationDue?
    ensures forall e :: IsFor(latest, e, o) <==> IsFor(queue, e, o)
  {
    SortedPartsAreDisjoint(fired, queue);
    SortedPartsAreDisjoint(fired, latest);
    forall e | IsFor(queue, e, o) ensures IsFor(latest, e, o) {
      assert e in fired + queue;
    }
    forall e | IsFor(latest, e, o) ensures IsFor(queue, e, o) {
      assert e in fired + latest + queue';
    }
  }

  lemma RunFiresTheDue(w: World, p: Sim, end: nat, o: Occurrence)
    requires Settled(p) && 0 < w.tickDt <= OBSERVATION_DELAY && IsSource(o.0) && o.1 <= end
    ensures var s' := RunTicks(w, p, end);
            && FiredOf(p.trajectory) <= FiredOf(s'.trajectory)
            && forall e :: IsFor(NewlyFired(p, s'), e, o) <==> IsFor(p.clock.events, e, o)
  {
    RunTicksIsOrderly(w, p, end);
    var s' := RunTicks(w, p, end);
    hide RunTicks, StampsInOrder, FiredOf;
    var fired, latest := FiredOf(p.trajectory), NewlyFired(p, s');
    assert FiredOf(s'.trajectory) == fired + latest;
    SortedPrefix(fired + latest, s'.clock.events);
    hide Sorted, IsFor;
    DueIsFired(fired, p.clock.events, latest, s'.clock.events, o, s'.clock.now);
  }

  /** Main result: a run fires an occurrence of its window exactly once exactly when no event for it was
      already waiting, for any policy and whatever ran before. */
  lemma OccurrenceFiresOnceIffNotWaiting(w: World, s: Sim, d: nat, o: Occurrence)
    requires Settled(s) && 0 < w.tickDt <= OBSERVATION_DELAY && InWindow(w.cfg, s.clock.now, s.clock.now + d, o)
    ensures var s' := RunFor(w, s, d);
            && FiredOf(s.trajectory) <= FiredOf(s'.trajectory)
            && (OnceFor(NewlyFired(s, s'), o) <==> !exists e :: IsFor(s.clock.events, e, o))
  {
    hide *;
    var end := s.clock.now + d;
    var p := Preload(w, s, end);
    PreloadKeepsSettled(w, s, end);
    PreloadKeepsClock(w, s, end);
    var added := PreloadAddsOne(w, s, end, o);
    WindowIsDue(w.cfg, s.clock.now, end, o);
    RunFiresTheDue(w, p, end, o);
    RunForIsRunTicks(w, s, d);
    SameTrajectory(s, p, RunFor(w, s, d));
    AddedIsFor(p.clock.events, added, o);
    AddedDecides(NewlyFired(s, RunFor(w, s, d)), s.clock.events, added, o);
  }

  lemma WindowIsDue(c: Config, from: nat, until: nat, o: Occurrence)
    requires InWindow(c, from, until, o)
    ensures IsSource(o.0) && o.1 <= until
  {
  }

  lemma SameTrajectory(s: Sim, p: Sim, s': Sim)
    requires p.trajectory == s.trajectory && FiredOf(p.trajectory) <= FiredOf(s'.trajectory)
    ensures FiredOf(s.trajectory) <= FiredOf(s'.trajectory) && NewlyFired(s, s') == NewlyFired(p, s')
  {
    hide FiredOf;
  }

  lemma AddedIsFor(es: seq<Event>, e: Event, o: Occurrence)
    requires IsFor(es, e, o)
    ensures (e.kind, e.at) == o
  {
  }

  lemma AddedDecides(latest: seq<Event>, waiting: seq<Event>, added: Event, o: Occurrence)
    requires added !in waiting && (added.kind, added.at) == o
    requires forall e :: IsFor(latest, e, o) <==> e == added || IsFor(waiting, e, o)
    ensures OnceFor(latest, o) <==> !exists e :: IsFor(waiting, e, o)
  {
    assert IsFor(latest, added, o);
  }

  // ---------- conditional runs ----------

  /** A conditional run preloads at most sixty seconds. */
  function Horizon(s: Sim, max: nat): nat { s.clock.now + Min(max, 60_000_000_000) }

  /** On sequences: of the sources queued those due by `now` have fired and the others are still queued. */
  lemma DueAndLater(fired: seq<Event>, queue: seq<Event>, latest: seq<Event>, queue': seq<Event>, now: nat)
    requires Sorted(fired + queue) && Sorted(fired + latest)
    requires forall e :: e in fired + queue ==> e in fired + latest + queue'
    requires forall e :: e in fired + latest + queue' && !e.kind.ObservationDue? ==> e in fired + queue
    requires forall e :: e in fired + latest ==> e !in queue' && e.at <= now
    requires forall e :: e in queue' ==> e.at > now || e.kind.ObservationDue?
    ensures Sorted(latest)
    ensures forall e: Event :: IsSource(e.kind) ==> (e in latest <==> e in queue && e.at <= now)
    ensures forall e: Event :: IsSource(e.kind) ==> (e in queue' <==> e in queue && e.at > now)
  {
    SortedSuffix(fired, latest);
    SortedPartsAreDisjoint(fired, queue);
    SortedPartsAreDisjoint(fired, latest);
    forall e: Event | IsSource(e.kind) && e in queue ensures e in latest || e in queue' {
      assert e in fired + queue;
    }
    forall e: Event | IsSource(e.kind) && (e in latest || e in queue') ensures e in queue {
      assert e in fired + latest + queue';
    }
    forall e | e in latest ensures e.at <= now && e !in queue' {
      assert e in fired + latest;
    }
  }

  lemma TicksFireTheDue(w: World, p: Sim, stop: Sim -> bool, end: nat)
    requires Settled(p) && 0 < w.tickDt <= OBSERVATION_DELAY
    ensures var s' := TickUntil(w, p, stop, end).0;
            && Settled(s') && FiredOf(p.trajectory) <= FiredOf(s'.trajectory) && Sorted(NewlyFired(p, s'))
            && (forall e: Event :: IsSource(e.kind) ==> (e in NewlyFired(p, s') <==> e in p.clock.events && e.at <= s'.clock.now))
            && (forall e: Event :: IsSource(e.kind) ==> (e in s'.clock.events <==> e in p.clock.events && e.at > s'.clock.now))
  {
    TickUntilIsOrderly(w, p, stop, end);
    var s' := TickUntil(w, p, stop, end).0;
    FiredIsRecorded(s'.trajectory);
    assert forall e :: e in FiredOf(s'.trajectory) ==> Fired(e).Stamp() <= s'.clock.now;
    hide TickUntil, StampsInOrder, FiredOf;
    var fired, latest := FiredOf(p.trajectory), NewlyFired(p, s');
    assert FiredOf(s'.trajectory) == fired + latest;
    SortedPrefix(fired + latest, s'.clock.events);
    SortedPartsAreDisjoint(fired + latest, s'.clock.events);
    DueAndLater(fired, p.clock.events, latest, s'.clock.events, s'.clock.now);
  }

  lemma RunUntilTicks(w: World, s: Sim, stop: Sim -> bool, max: nat)
    requires w.tickDt > 0
    ensures RunUntil(w, s, stop, max) == TickUntil(w, Preload(w, s, Horizon(s, max)), stop, s.clock.now + max)
  {
    hide TickUntil, Preload;
  }

  /** The occurrences of a window that are due by `now`, and those that are not. */
  lemma CutWindow(latest: seq<Event>, queue: seq<Event>, left: seq<Event>, c: Config, from: nat, until: nat, now: nat)
    requires Sorted(latest) && IdsFollowSlots(queue) && from <= until
    requires forall e: Event :: IsSource(e.kind) ==> (e in latest <==> e in queue && e.at <= now)
    requires forall e: Event :: IsSource(e.kind) ==> (e in left <==> e in queue && e.at > now)
    requires forall e :: e in queue && IsSource(e.kind) ==> InWindow(c, from, until, (e.kind, e.at))
    requires forall o :: InWindow(c, from, until, o) ==> From(queue, o)
    ensures IsWindow(Sources(latest), c, from, Min(now, until))
    ensures forall o: Occurrence :: From(left, o) <==> InWindow(c, from, until, o) && o.1 > now
  {
    assert IdsFollowSlots(latest);
    SourcesAreInOrder(latest);
    forall o ensures o in Sources(latest) <==> InWindow(c, from, Min(now, until), o) {
      if From(latest, o) {
        var e :| e in latest && IsSource(e.kind) && (e.kind, e.at) == o;
        assert e in queue;
      }
      if InWindow(c, from, Min(now, until), o) {
        assert From(queue, o);
        var e :| e in queue && IsSource(e.kind) && (e.kind, e.at) == o;
        assert e in latest;
      }
    }
    forall o: Occurrence ensures From(left, o) <==> InWindow(c, from, until, o) && o.1 > now {
      if From(left, o) {
        var e :| e in left && IsSource(e.kind) && (e.kind, e.at) == o;
        assert e in queue;
      }
      if InWindow(c, from, until, o) && o.1 > now {
        var e :| e in queue && IsSource(e.kind) && (e.kind, e.at) == o;
        assert e in left;
      }
    }
  }

  /** Main result for conditional runs, whenever and why ever they stop: they fire exactly the scenario's
      occurrences up to their end or sixty seconds after their start, whichever is first, and leave waiting
      exactly the preloaded ones that are later than their end. */
  lemma ConditionalRunFires(w: World, s: Sim, stop: Sim -> bool, max: nat)
    requires Settled(s) && Idle(s) && 0 < w.tickDt <= OBSERVATION_DELAY
    ensures var s' := RunUntil(w, s, stop, max).0;
            && Settled(s') && FiredOf(s.trajectory) <= FiredOf(s'.trajectory)
            && IsWindow(Sources(NewlyFired(s, s')), w.cfg, s.clock.now, Min(s'.clock.now, Horizon(s, max)))
            && forall o: Occurrence :: From(s'.clock.events, o) <==> InWindow(w.cfg, s.clock.now, Horizon(s, max), o) && o.1 > s'.clock.now
  {
    hide *;
    var until := Horizon(s, max);
    var p := Preload(w, s, until);
    HorizonIsLater(s, max);
    PreloadKeepsSettled(w, s, until);
    PreloadKeepsClock(w, s, until);
    PreloadedIdsFollowSlots(w, s, until);
    RunUntilTicks(w, s, stop, max);
    TicksFireTheDue(w, p, stop, s.clock.now + max);
    var s' := RunUntil(w, s, stop, max).0;
    SameTrajectory(s, p, s');
    CutWindow(NewlyFired(p, s'), p.clock.events, s'.clock.events, w.cfg, s.clock.now, until, s'.clock.now);
  }

  lemma {:induction false} TicksStop(w: World, s: Sim, stop: Sim -> bool, end: nat)
    requires w.tickDt > 0
    ensures var r := TickUntil(w, s, stop, end);
            (r.1 <==> stop(r.0)) && (!r.1 ==> r.0.clock.now >= end) && (stop(s) ==> r.0 == s)
    decreases end - s.clock.now
  {
    hide Tick;
    if !stop(s) && s.clock.now < end {
      TickAdvances(w, s);
      TicksStop(w, Tick(w, s), stop, end);
    }
  }

  /** A conditional run says that it stopped exactly when its predicate holds where it ends, and goes on to its
      limit otherwise; a predicate that holds at once ends it before the first tick. */
  lemma ConditionalRunStops(w: World, s: Sim, stop: Sim -> bool, max: nat)
    requires w.tickDt > 0
    ensures var r := RunUntil(w, s, stop, max);
            && (r.1 <==> stop(r.0))
            && (!r.1 ==> r.0.clock.now >= s.clock.now + max)
            && (stop(Preload(w, s, Horizon(s, max))) ==> r.0.clock.now == s.clock.now)
  {
    hide *;
    RunUntilTicks(w, s, stop, max);
    PreloadKeepsClock(w, s, Horizon(s, max));
    TicksStop(w, Preload(w, s, Horizon(s, max)), stop, s.clock.now + max);
  }

  lemma HorizonIsLater(s: Sim, max: nat)
    ensures s.clock.now <= Horizon(s, max)
  {
  }

  /** So after a conditional run the next run fires an occurrence of its own window exactly once exactly when the
      conditional run had not preloaded it: what lies between its end and its horizon is repeated. */
  lemma NextRunRepeatsTheHorizon(w: World, s: Sim, stop: Sim -> bool, max: nat, d: nat, o: Occurrence)
    requires Settled(s) && Idle(s) && 0 < w.tickDt <= OBSERVATION_DELAY
    requires var s1 := RunUntil(w, s, stop, max).0; InWindow(w.cfg, s1.clock.now, s1.clock.now + d, o)
    ensures var s1 := RunUntil(w, s, stop, max).0;
            var s2 := RunFor(w, s1, d);
            && FiredOf(s1.trajectory) <= FiredOf(s2.trajectory)
            && (OnceFor(NewlyFired(s1, s2), o) <==> o.1 > Horizon(s, max))
  {
    hide *;
    var s1 := RunUntil(w, s, stop, max).0;
    ConditionalRunFires(w, s, stop, max);
    ConditionalRunAdvances(w, s, stop, max);
    OccurrenceFiresOnceIffNotWaiting(w, s1, d, o);
    WaitingInHorizon(w.cfg, s.clock.now, s1.clock.now, s1.clock.now + d, Horizon(s, max), s1.clock.events, o);
  }

  lemma {:induction false} TicksAdvance(w: World, s: Sim, stop: Sim -> bool, end: nat)
    requires w.tickDt > 0
    ensures s.clock.now <= TickUntil(w, s, stop, end).0.clock.now
    decreases end - s.clock.now
  {
    hide Tick;
    if !stop(s) && s.clock.now < end {
      TickAdvances(w, s);
      TicksAdvance(w, Tick(w, s), stop, end);
    }
  }

  lemma ConditionalRunAdvances(w: World, s: Sim, stop: Sim -> bool, max: nat)
    requires w.tickDt > 0
    ensures s.clock.now <= RunUntil(w, s, stop, max).0.clock.now
  {
    hide *;
    RunUntilTicks(w, s, stop, max);
    PreloadKeepsClock(w, s, Horizon(s, max));
    TicksAdvance(w, Preload(w, s, Horizon(s, max)), stop, s.clock.now + max);
  }

  lemma WaitingInHorizon(c: Config, start: nat, now: nat, end: nat, horizon: nat, es: seq<Event>, o: Occurrence)
    requires start <= now && InWindow(c, now, end, o)
    requires From(es, o) <==> InWindow(c, start, horizon, o) && o.1 > now
    ensures (exists e :: IsFor(es, e, o)) <==> o.1 <= horizon
  {
    if From(es, o) {
      var e :| e in es && IsSource(e.kind) && (e.kind, e.at) == o;
      assert IsFor(es, e, o);
    }
    if e :| IsFor(es, e, o) {
      assert From(es, o);
    }
  }

  /** From any settled state, idle or not, a conditional run that stops at once makes the next run repeat
      everything both of them cover. */
  lemma StoppedRunIsRepeated(w: World, s: Sim, max: nat, d: nat, o: Occurrence)
    requires Settled(s) && 0 < w.tickDt <= OBSERVATION_DELAY
    requires InWindow(w.cfg, s.clock.now, Horizon(s, max), o) && InWindow(w.cfg, s.clock.now, s.clock.now + d, o)
    ensures var stopped := Do(w, s, Until((_: Sim) => true, max));
            var s' := RunFor(w, stopped, d);
            && FiredOf(stopped.trajectory) <= FiredOf(s'.trajectory)
            && !OnceFor(NewlyFired(stopped, s'), o)
  {
    hide *;
    var until := Horizon(s, max);
    var stopped := Do(w, s, Until((_: Sim) => true, max));
    StoppedIsPreloaded(w, s, max);
    PreloadKeepsSettled(w, s, until);
    PreloadKeepsClock(w, s, until);
    var added := PreloadAddsOne(w, s, until, o);
    OccurrenceFiresOnceIffNotWaiting(w, stopped, d, o);
    assert IsFor(stopped.clock.events, added, o);
  }

  lemma StoppedIsPreloaded(w: World, s: Sim, max: nat)
    requires w.tickDt > 0
    ensures Do(w, s, Until((_: Sim) => true, max)) == Preload(w, s, Horizon(s, max))
  {
    hide Preload;
  }

  /** A heartbeat at every instant: a conditional run that stops at once preloads the first, and the next run
      preloads and fires it again. */
  lemma HeartbeatIsRepeated(policy: Policy)
    ensures var w := World(Config(1, 0, 0, 0, 0, []), policy, 1);
            var s1 := RunUntil(w, START, (_: Sim) => true, 1).0;
            var s2 := RunFor(w, s1, 1);
            && FiredOf(s1.trajectory) <= FiredOf(s2.trajectory)
            && !OnceFor(NewlyFired(s1, s2), (Heartbeat, 1))
  {
    hide *;
    var w := World(Config(1, 0, 0, 0, 0, []), policy, 1);
    var stop := (_: Sim) => true;
    StartIsIdle();
    StoppedAtOnce(w, START, 1);
    HeartbeatIsDue();
    NextRunRepeatsTheHorizon(w, START, stop, 1, 1, (Heartbeat, 1));
  }

  lemma StoppedAtOnce(w: World, s: Sim, max: nat)
    requires w.tickDt > 0
    ensures RunUntil(w, s, (_: Sim) => true, max).0.clock.now == s.clock.now
  {
    hide Preload;
    PreloadKeepsClock(w, s, Horizon(s, max));
  }

  lemma HeartbeatIsDue()
    ensures InWindow(Config(1, 0, 0, 0, 0, []), 0, 1, (Heartbeat, 1)) && Horizon(START, 1) == 1
  {
  }
}
