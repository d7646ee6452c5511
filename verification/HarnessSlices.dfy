/** Cutting a run into pieces: the scenario's events fire as if it had been one run. */
module HarnessSlices {
  import opened Clock
  import opened Harness
  import opened HarnessOrder
  import opened HarnessWindow

  // ---------- when a run ends ----------

  /** The clock after a run towards `end`: whole ticks, so possibly past it. */
  function RunEnd(now: nat, end: nat, dt: nat): nat
    requires dt > 0
    decreases end - now
  {
    if now >= end then now else RunEnd(now + dt, end, dt)
  }

  lemma {:induction false} RunEndIsCeiling(now: nat, end: nat, dt: nat)
    requires dt > 0 && now <= end
    ensures end <= RunEnd(now, end, dt) < end + dt && (RunEnd(now, end, dt) - now) % dt == 0
    ensures (end - now) % dt == 0 ==> RunEnd(now, end, dt) == end
    decreases end - now
  {
    if now < end {
      if now + dt <= end {
        RunEndIsCeiling(now + dt, end, dt);
        var r := RunEnd(now, end, dt);
        AddPeriod(r - (now + dt), dt);
        AddPeriod(end - (now + dt), dt);
      } else {
        assert RunEnd(now + dt, end, dt) == now + dt;
        MultipleOf(dt, 1);
      }
    } else {
      MultipleOf(dt, 0);
    }
  }

  lemma {:induction false} RunTicksEndsAt(w: World, s: Sim, end: nat)
    requires w.tickDt > 0
    ensures RunTicks(w, s, end).clock.now == RunEnd(s.clock.now, end, w.tickDt)
    decreases end - s.clock.now
  {
    hide Tick;
    if s.clock.now < end {
      TickAdvances(w, s);
      RunTicksEndsAt(w, Tick(w, s), end);
    }
  }

  // ---------- the canonical list of a window ----------

  predicate Earlier(p: Occurrence, q: Occurrence) {
    p.1 < q.1 || (p.1 == q.1 && Slot(p.0) < Slot(q.0))
  }

  ghost predicate InOrder(ps: seq<Occurrence>) {
    forall i, j :: 0 <= i < j < |ps| ==> Earlier(ps[i], ps[j])
  }

  /** All occurrences in the window, by time and then by slot. There is only one such list. */
  ghost predicate IsWindow(ps: seq<Occurrence>, c: Config, from: nat, until: nat) {
    InOrder(ps) && forall p :: p in ps <==> InWindow(c, from, until, p)
  }

  lemma {:induction false} InOrderIsUnique(ps: seq<Occurrence>, qs: seq<Occurrence>)
    requires InOrder(ps) && InOrder(qs) && forall p :: p in ps <==> p in qs
    ensures ps == qs
  {
    assert ps != [] ==> ps[0] in ps;
    assert qs != [] ==> qs[0] in qs;
    if ps != [] && qs != [] {
      assert ps[0] in qs && qs[0] in ps;
      assert ps[0] == qs[0];
      forall p ensures p in ps[1..] <==> p in qs[1..] {
        assert p in ps <==> p == ps[0] || p in ps[1..];
        assert p in qs <==> p == qs[0] || p in qs[1..];
      }
      InOrderIsUnique(ps[1..], qs[1..]);
    }
  }

  lemma InOrderConcat(ps: seq<Occurrence>, qs: seq<Occurrence>)
    requires InOrder(ps) && InOrder(qs) && forall p, q :: p in ps && q in qs ==> Earlier(p, q)
    ensures InOrder(ps + qs)
  {
  }

  // ---------- the scenario's events among the fired ----------

  function Sources(es: seq<Event>): seq<Occurrence> {
    if es == [] then []
    else
      var n := |es| - 1;
      Sources(es[..n]) + if IsSource(es[n].kind) then [(es[n].kind, es[n].at)] else []
  }

  lemma {:induction false} SourcesOfConcat(es: seq<Event>, fs: seq<Event>)
    ensures Sources(es + fs) == Sources(es) + Sources(fs)
    decreases |fs|
  {
    if fs == [] {
      assert es + fs == es;
    } else {
      var n := |fs| - 1;
      assert (es + fs)[..|es + fs| - 1] == es + fs[..n];
      SourcesOfConcat(es, fs[..n]);
    }
  }

  ghost predicate From(es: seq<Event>, p: Occurrence) {
    exists e :: e in es && IsSource(e.kind) && (e.kind, e.at) == p
  }

  /** Events of the same instant were issued in slot order. */
  ghost predicate IdsFollowSlots(es: seq<Event>) {
    forall e, f :: e in es && f in es && IsSource(e.kind) && IsSource(f.kind) && e.at == f.at && e.id < f.id
      ==> Slot(e.kind) < Slot(f.kind)
  }

  lemma FromOfSnoc(es: seq<Event>, last: Event)
    ensures forall p :: From(es + [last], p) <==> From(es, p) || (IsSource(last.kind) && p == (last.kind, last.at))
  {
    forall p ensures From(es + [last], p) <==> From(es, p) || (IsSource(last.kind) && p == (last.kind, last.at)) {
      if From(es, p) {
        var e :| e in es && IsSource(e.kind) && (e.kind, e.at) == p;
        assert e in es + [last];
      }
      assert last in es + [last];
    }
  }

  lemma EarlierThanLast(es: seq<Event>, last: Event, p: Occurrence)
    requires Sorted(es + [last]) && IdsFollowSlots(es + [last]) && From(es, p) && IsSource(last.kind)
    ensures Earlier(p, (last.kind, last.at))
  {
    var e :| e in es && IsSource(e.kind) && (e.kind, e.at) == p;
    var i :| 0 <= i < |es| && es[i] == e;
    assert Before((es + [last])[i], (es + [last])[|es|]);
    assert e in es + [last] && last in es + [last];
  }

  lemma {:induction false} SourcesAreInOrder(es: seq<Event>)
    requires Sorted(es) && IdsFollowSlots(es)
    ensures InOrder(Sources(es))
    ensures forall p :: p in Sources(es) <==> From(es, p)
  {
    if es == [] {
      assert forall p :: !From(es, p);
    } else {
      var n := |es| - 1;
      var before, last := es[..n], es[n];
      assert es == before + [last];
      SortedPrefix(before, [last]);
      assert IdsFollowSlots(before) by {
        assert forall e :: e in before ==> e in es;
      }
      SourcesAreInOrder(before);
      FromOfSnoc(before, last);
      forall p | p in Sources(before) && IsSource(last.kind) ensures Earlier(p, (last.kind, last.at)) {
        EarlierThanLast(before, last, p);
      }
      hide From, Sorted, IdsFollowSlots;
      if IsSource(last.kind) {
        InOrderConcat(Sources(before), [(last.kind, last.at)]);
      }
    }
  }

  // ---------- what one run fires ----------

  /** No scenario event is waiting: true at the start and after any run that was not stopped early. */
  ghost predicate Idle(s: Sim) { forall e :: e in s.clock.events ==> !IsSource(e.kind) }

  function NewlyFired(s: Sim, s': Sim): seq<Event>
    requires FiredOf(s.trajectory) <= FiredOf(s'.trajectory)
  {
    FiredOf(s'.trajectory)[|FiredOf(s.trajectory)|..]
  }

  lemma PreloadedIdsFollowSlots(w: World, s: Sim, until: nat)
    requires Settled(s) && Idle(s)
    ensures var p := Preload(w, s, until);
            && IdsFollowSlots(p.clock.events)
            && (forall e :: e in p.clock.events && IsSource(e.kind) ==> InWindow(w.cfg, s.clock.now, until, (e.kind, e.at)))
            && (forall o :: InWindow(w.cfg, s.clock.now, until, o) ==> From(p.clock.events, o))
  {
    var plan := PreloadPlan(w.cfg, s.clock.now, until);
    var p := Preload(w, s, until);
    PreloadPlanCovers(w.cfg, s.clock.now, until);
    ScheduleAllAdds(s.clock, plan);
    hide PreloadPlan, ScheduleAll, Settled;
    forall e | e in p.clock.events && IsSource(e.kind)
      ensures Planned(s.clock, plan, e) && InWindow(w.cfg, s.clock.now, until, (e.kind, e.at))
    {
      assert plan[e.id - s.clock.nextId] in plan;
    }
    forall e, f | e in p.clock.events && f in p.clock.events && IsSource(e.kind) && IsSource(f.kind) && e.at == f.at && e.id < f.id
      ensures Slot(e.kind) < Slot(f.kind)
    {
      assert SlotBefore(plan[e.id - s.clock.nextId], plan[f.id - s.clock.nextId]);
    }
    forall o | InWindow(w.cfg, s.clock.now, until, o) ensures From(p.clock.events, o) {
      SlotsAreBounded(w.cfg, o);
      assert o in plan;
      var i :| 0 <= i < |plan| && plan[i] == o;
      assert Planned(s.clock, plan, Event(o.1, s.clock.nextId + i, o.0));
    }
  }

  lemma SlotsAreBounded(c: Config, o: Occurrence)
    requires IsSource(o.0) && Due(c, o.0, o.1)
    ensures Slot(o.0) < 5 + 2 * |c.injections|
  {
  }

  /** On sequences: if nothing is lost, only observations are added, and no source is left in the queue,
      then the sources among the newly fired are exactly those that were queued. */
  lemma QueuedSourcesAreFired(fired: seq<Event>, queue: seq<Event>, latest: seq<Event>, queue': seq<Event>)
    requires Sorted(fired + queue) && Sorted(fired + latest)
    requires forall e :: e in fired + queue ==> e in fired + latest + queue'
    requires forall e :: e in fired + latest + queue' && !e.kind.ObservationDue? ==> e in fired + queue
    requires forall e :: e in queue' ==> !IsSource(e.kind)
    ensures Sorted(latest)
    ensures forall e: Event :: IsSource(e.kind) ==> (e in latest <==> e in queue)
  {
    SortedSuffix(fired, latest);
    SortedPartsAreDisjoint(fired, queue);
    SortedPartsAreDisjoint(fired, latest);
    forall e: Event | IsSource(e.kind) && e in queue ensures e in latest {
      assert e in fired + queue;
    }
    forall e: Event | IsSource(e.kind) && e in latest ensures e in queue {
      assert e in fired + latest + queue';
    }
  }

  lemma SortedPrefix(p: seq<Event>, q: seq<Event>)
    requires Sorted(p + q)
    ensures Sorted(p)
  {
    forall i, j | 0 <= i < j < |p| ensures Before(p[i], p[j]) {
      assert (p + q)[i] == p[i] && (p + q)[j] == p[j];
    }
  }

  /** On sequences: a source still queued would have been queued before, and so be due. */
  lemma NoneIsLeft(fired: seq<Event>, queue: seq<Event>, latest: seq<Event>, queue': seq<Event>, end: nat)
    requires forall e :: e in fired + latest + queue' && !e.kind.ObservationDue? ==> e in fired + queue
    requires forall e :: e in fired + latest ==> e !in queue'
    requires forall e :: e in queue && IsSource(e.kind) ==> e.at <= end
    requires forall e :: e in queue' ==> e.at > end || e.kind.ObservationDue?
    ensures forall e :: e in queue' ==> !IsSource(e.kind)
  {
    forall e | e in queue' ensures !IsSource(e.kind) {
      assert e in fired + latest + queue';
      assert e in fired ==> e in fired + latest;
    }
  }

  /** Of the events waiting at the start, exactly those that are the scenario's are newly fired. */
  lemma RunFiresTheWaiting(w: World, p: Sim, end: nat)
    requires Settled(p) && 0 < w.tickDt <= OBSERVATION_DELAY
    requires forall e :: e in p.clock.events && IsSource(e.kind) ==> e.at <= end
    ensures var s' := RunTicks(w, p, end);
            && Settled(s') && Idle(s') && FiredOf(p.trajectory) <= FiredOf(s'.trajectory)
            && Sorted(NewlyFired(p, s'))
            && forall e: Event :: IsSource(e.kind) ==> (e in NewlyFired(p, s') <==> e in p.clock.events)
  {
    RunTicksIsOrderly(w, p, end);
    var s' := RunTicks(w, p, end);
    hide RunTicks, StampsInOrder, FiredOf;
    var fired, latest := FiredOf(p.trajectory), NewlyFired(p, s');
    assert FiredOf(s'.trajectory) == fired + latest;
    SortedPrefix(fired + latest, s'.clock.events);
    SortedPartsAreDisjoint(fired + latest, s'.clock.events);
    NoneIsLeft(fired, p.clock.events, latest, s'.clock.events, end);
    QueuedSourcesAreFired(fired, p.clock.events, latest, s'.clock.events);
  }

  /** On sequences: newly fired sources that are the planned ones form the canonical list of the window. */
  lemma FiredPlanIsWindow(latest: seq<Event>, queue: seq<Event>, c: Config, from: nat, until: nat)
    requires Sorted(latest) && IdsFollowSlots(queue)
    requires forall e: Event :: IsSource(e.kind) ==> (e in latest <==> e in queue)
    requires forall e :: e in queue && IsSource(e.kind) ==> InWindow(c, from, until, (e.kind, e.at))
    requires forall o :: InWindow(c, from, until, o) ==> From(queue, o)
    ensures IsWindow(Sources(latest), c, from, until)
  {
    assert IdsFollowSlots(latest);
    SourcesAreInOrder(latest);
    forall o ensures o in Sources(latest) <==> InWindow(c, from, until, o) {
      if From(latest, o) {
        var e :| e in latest && IsSource(e.kind) && (e.kind, e.at) == o;
        assert e in queue;
      }
      if InWindow(c, from, until, o) {
        var e :| e in queue && IsSource(e.kind) && (e.kind, e.at) == o;
        assert e in latest;
      }
    }
  }

  lemma PreloadKeepsClock(w: World, s: Sim, until: nat)
    ensures Preload(w, s, until).clock.now == s.clock.now && Preload(w, s, until).trajectory == s.trajectory
  {
    ScheduleAllAdds(s.clock, PreloadPlan(w.cfg, s.clock.now, until));
  }

  lemma WindowIsReached(c: Config, from: nat, until: nat, queue: seq<Event>)
    requires forall e :: e in queue && IsSource(e.kind) ==> InWindow(c, from, until, (e.kind, e.at))
    ensures forall e :: e in queue && IsSource(e.kind) ==> e.at <= until
  {
  }

  /** Main result for one run: whatever the policy answers, the scenario events it fires are exactly those
      due after its start and up to its nominal end, by time and then by slot. */
  lemma RunForFiresItsWindow(w: World, s: Sim, d: nat)
    requires Settled(s) && Idle(s) && 0 < w.tickDt <= OBSERVATION_DELAY
    ensures var s' := RunFor(w, s, d);
            && Settled(s') && Idle(s') && FiredOf(s.trajectory) <= FiredOf(s'.trajectory)
            && s'.clock.now == RunEnd(s.clock.now, s.clock.now + d, w.tickDt)
            && IsWindow(Sources(NewlyFired(s, s')), w.cfg, s.clock.now, s.clock.now + d)
  {
    hide Preload, Settled, RunTicks, IdsFollowSlots, IsWindow, InWindow, From, FiredOf, Idle, Sources, Sorted, RunEnd;
    var end := s.clock.now + d;
    var p := Preload(w, s, end);
    PreloadKeepsSettled(w, s, end);
    PreloadedIdsFollowSlots(w, s, end);
    PreloadKeepsClock(w, s, end);
    WindowIsReached(w.cfg, s.clock.now, end, p.clock.events);
    RunFiresTheWaiting(w, p, end);
    RunTicksEndsAt(w, p, end);
    FiredPlanIsWindow(NewlyFired(p, RunTicks(w, p, end)), p.clock.events, w.cfg, s.clock.now, end);
  }

  // ---------- two runs against one ----------

  /** The scenario wants something in a stretch that a cut run treats differently: the overshoot of the
      first run, which the second preload skips, or the time the second run then reaches past the whole. */
  ghost predicate DueInGap(c: Config, now: nat, a: nat, b: nat, cut: nat, p: Occurrence) {
    && IsSource(p.0) && Due(c, p.0, p.1)
    && (|| (now + a < p.1 <= cut && p.1 <= now + a + b)
        || (now + a + b < p.1 && cut < p.1 <= cut + b))
  }

  /** A run of `a` followed by a run of `b`. */
  function CutRun(w: World, s: Sim, a: nat, b: nat): Sim
    requires w.tickDt > 0
  {
    RunFor(w, RunFor(w, s, a), b)
  }

  /** The occurrences a cut run fires, in order. */
  ghost predicate IsCutWindow(ps: seq<Occurrence>, c: Config, now: nat, a: nat, b: nat, cut: nat) {
    InOrder(ps) && forall p :: p in ps <==> InWindow(c, now, now + a, p) || InWindow(c, cut, cut + b, p)
  }

  lemma WindowsConcat(ps: seq<Occurrence>, qs: seq<Occurrence>, c: Config, now: nat, a: nat, b: nat, cut: nat)
    requires IsWindow(ps, c, now, now + a) && IsWindow(qs, c, cut, cut + b) && now + a <= cut
    ensures IsCutWindow(ps + qs, c, now, a, b, cut)
  {
    InOrderConcat(ps, qs);
  }

  /** Which of the two lists differ is decided by the gap alone. */
  lemma GapDecides(ps: seq<Occurrence>, qs: seq<Occurrence>, c: Config, now: nat, a: nat, b: nat, cut: nat)
    requires IsCutWindow(ps, c, now, a, b, cut) && IsWindow(qs, c, now, now + a + b) && now + a <= cut
    ensures ps == qs <==> !exists p :: DueInGap(c, now, a, b, cut, p)
  {
    if p :| DueInGap(c, now, a, b, cut, p) {
      assert p in ps <==> p !in qs;
    } else {
      forall p ensures p in ps <==> p in qs {
        assert !DueInGap(c, now, a, b, cut, p);
      }
      InOrderIsUnique(ps, qs);
    }
  }

  lemma NewlyFiredOfTwo(s: Sim, one: Sim, two: Sim)
    requires FiredOf(s.trajectory) <= FiredOf(one.trajectory) <= FiredOf(two.trajectory)
    ensures FiredOf(s.trajectory) <= FiredOf(two.trajectory)
    ensures Sources(NewlyFired(s, two)) == Sources(NewlyFired(s, one)) + Sources(NewlyFired(one, two))
  {
    hide FiredOf;
    assert NewlyFired(s, two) == NewlyFired(s, one) + NewlyFired(one, two);
    SourcesOfConcat(NewlyFired(s, one), NewlyFired(one, two));
  }

  lemma CutRunFires(w: World, s: Sim, a: nat, b: nat)
    requires Settled(s) && Idle(s) && 0 < w.tickDt <= OBSERVATION_DELAY
    ensures var two := CutRun(w, s, a, b);
            && FiredOf(s.trajectory) <= FiredOf(two.trajectory)
            && IsCutWindow(Sources(NewlyFired(s, two)), w.cfg, s.clock.now, a, b, RunEnd(s.clock.now, s.clock.now + a, w.tickDt))
  {
    hide RunFor, Settled, Idle, FiredOf, NewlyFired, Sources, IsWindow, IsCutWindow, RunEnd;
    var now, one := s.clock.now, RunFor(w, s, a);
    RunForFiresItsWindow(w, s, a);
    RunForFiresItsWindow(w, one, b);
    RunEndIsCeiling(now, now + a, w.tickDt);
    var two := RunFor(w, one, b);
    NewlyFiredOfTwo(s, one, two);
    WindowsConcat(Sources(NewlyFired(s, one)), Sources(NewlyFired(one, two)), w.cfg, now, a, b, RunEnd(now, now + a, w.tickDt));
  }

  /** Main result: with the same scenario and tick but any two policies, running for `a` and then for `b`
      fires the same scenario events in the same order as one run for `a + b` exactly when nothing is due in
      the gap. */
  lemma CutRunMatchesIffGapIsEmpty(w: World, w': World, s: Sim, a: nat, b: nat)
    requires Settled(s) && Idle(s) && 0 < w.tickDt <= OBSERVATION_DELAY
    requires w'.cfg == w.cfg && w'.tickDt == w.tickDt
    ensures var two, whole := CutRun(w, s, a, b), RunFor(w', s, a + b);
            var cut := RunEnd(s.clock.now, s.clock.now + a, w.tickDt);
            && FiredOf(s.trajectory) <= FiredOf(two.trajectory) && FiredOf(s.trajectory) <= FiredOf(whole.trajectory)
            && (Sources(NewlyFired(s, two)) == Sources(NewlyFired(s, whole)) <==>
                !exists p :: DueInGap(w.cfg, s.clock.now, a, b, cut, p))
  {
    hide RunFor, CutRun, Settled, Idle, FiredOf, NewlyFired, Sources, IsWindow, IsCutWindow, RunEnd, DueInGap;
    var now := s.clock.now;
    var cut := RunEnd(now, now + a, w.tickDt);
    RunEndIsCeiling(now, now + a, w.tickDt);
    CutRunFires(w, s, a, b);
    RunForFiresItsWindow(w', s, a + b);
    assert now + (a + b) == now + a + b;
    GapDecides(Sources(NewlyFired(s, CutRun(w, s, a, b))), Sources(NewlyFired(s, RunFor(w', s, a + b))), w.cfg, now, a, b, cut);
  }

  /** A tick that divides the first piece leaves no gap, so the cut cannot be seen. */
  lemma AlignedCutIsInvisible(w: World, w': World, s: Sim, a: nat, b: nat)
    requires Settled(s) && Idle(s) && 0 < w.tickDt <= OBSERVATION_DELAY
    requires w'.cfg == w.cfg && w'.tickDt == w.tickDt && a % w.tickDt == 0
    ensures var two, whole := CutRun(w, s, a, b), RunFor(w', s, a + b);
            && FiredOf(s.trajectory) <= FiredOf(two.trajectory) && FiredOf(s.trajectory) <= FiredOf(whole.trajectory)
            && Sources(NewlyFired(s, two)) == Sources(NewlyFired(s, whole))
  {
    hide *;
    CutRunMatchesIffGapIsEmpty(w, w', s, a, b);
    RunEndIsCeiling(s.clock.now, s.clock.now + a, w.tickDt);
    AlignedCutHasNoGap(w.cfg, s.clock.now, a, b, RunEnd(s.clock.now, s.clock.now + a, w.tickDt));
  }

  lemma AlignedCutHasNoGap(c: Config, now: nat, a: nat, b: nat, cut: nat)
    requires cut == now + a
    ensures !exists p :: DueInGap(c, now, a, b, cut, p)
  {
  }

  /** A heartbeat every four instants and ticks of two: after a run of three the clock stands at four, and the
      next run starts behind the heartbeat that one run of four fires. */
  lemma OvershootIsSkipped(policy: Policy)
    ensures var w := World(Config(4, 0, 0, 0, 0, []), policy, 2);
            var two, whole := CutRun(w, START, 3, 1), RunFor(w, START, 4);
            && FiredOf(START.trajectory) <= FiredOf(two.trajectory) && FiredOf(START.trajectory) <= FiredOf(whole.trajectory)
            && Sources(NewlyFired(START, two)) != Sources(NewlyFired(START, whole))
  {
    hide *;
    var w := World(Config(4, 0, 0, 0, 0, []), policy, 2);
    StartIsIdle();
    OvershootGap();
    CutRunMatchesIffGapIsEmpty(w, w, START, 3, 1);
  }

  lemma StartIsIdle()
    ensures Settled(START) && Idle(START) && START.clock.now == 0 && 2 <= OBSERVATION_DELAY
  {
  }

  lemma OvershootGap()
    ensures RunEnd(0, 3, 2) == 4 && DueInGap(Config(4, 0, 0, 0, 0, []), 0, 3, 1, 4, (Heartbeat, 4))
  {
    assert RunEnd(0, 3, 2) == RunEnd(2, 3, 2) == RunEnd(4, 3, 2) == 4;
  }

  // ---------- how often each source fires ----------

  function TimesOf(ps: seq<Occurrence>, kind: EventKind): seq<nat> {
    if ps == [] then []
    else
      var n := |ps| - 1;
      TimesOf(ps[..n], kind) + if ps[n].0 == kind then [ps[n].1] else []
  }

  lemma IncreasingOfSnoc(ts: seq<nat>, t: nat)
    requires Increasing(ts) && forall x :: x in ts ==> x < t
    ensures Increasing(ts + [t])
  {
    forall i, j | 0 <= i < j < |ts + [t]| ensures (ts + [t])[i] < (ts + [t])[j] {
      assert ts[i] in ts;
    }
  }

  lemma InOrderOfSnoc(ps: seq<Occurrence>, last: Occurrence)
    requires InOrder(ps + [last])
    ensures InOrder(ps) && forall p :: p in ps ==> Earlier(p, last)
  {
    var all := ps + [last];
    forall i | 0 <= i < |ps| ensures Earlier(ps[i], last) {
      assert Earlier(all[i], all[|ps|]);
    }
    forall i, j | 0 <= i < j < |ps| ensures Earlier(ps[i], ps[j]) {
      assert Earlier(all[i], all[j]);
    }
  }

  lemma TimesOfSnoc(ps: seq<Occurrence>, last: Occurrence, kind: EventKind)
    ensures TimesOf(ps + [last], kind) == TimesOf(ps, kind) + if last.0 == kind then [last.1] else []
  {
    assert (ps + [last])[..|ps|] == ps;
  }

  lemma {:induction false} TimesAreIncreasing(ps: seq<Occurrence>, kind: EventKind)
    requires InOrder(ps)
    ensures Increasing(TimesOf(ps, kind))
    ensures forall t: nat :: t in TimesOf(ps, kind) <==> (kind, t) in ps
  {
    if ps != [] {
      var n := |ps| - 1;
      var before, last := ps[..n], ps[n];
      assert ps == before + [last];
      hide InOrder, TimesOf, Increasing;
      InOrderOfSnoc(before, last);
      TimesOfSnoc(before, last, kind);
      TimesAreIncreasing(before, kind);
      if last.0 == kind {
        forall t | t in TimesOf(before, kind) ensures t < last.1 {
          assert Earlier((kind, t), last);
        }
        IncreasingOfSnoc(TimesOf(before, kind), last.1);
      }
    }
  }

  /** In a run of length `d` a source of period p fires exactly end/p - start/p times. */
  lemma PeriodCount(w: World, s: Sim, d: nat, kind: EventKind)
    requires Settled(s) && Idle(s) && 0 < w.tickDt <= OBSERVATION_DELAY
    requires IsSource(kind) && Period(w.cfg, kind) > 0
    ensures var s' := RunFor(w, s, d);
            && FiredOf(s.trajectory) <= FiredOf(s'.trajectory)
            && |TimesOf(Sources(NewlyFired(s, s')), kind)|
               == (s.clock.now + d) / Period(w.cfg, kind) - s.clock.now / Period(w.cfg, kind)
  {
    hide *;
    RunForFiresItsWindow(w, s, d);
    CountOfWindow(w.cfg, Sources(NewlyFired(s, RunFor(w, s, d))), kind, s.clock.now, s.clock.now + d);
  }

  lemma CountOfWindow(c: Config, ps: seq<Occurrence>, kind: EventKind, now: nat, end: nat)
    requires IsWindow(ps, c, now, end) && IsSource(kind) && Period(c, kind) > 0 && now <= end
    ensures |TimesOf(ps, kind)| == end / Period(c, kind) - now / Period(c, kind)
  {
    var p := Period(c, kind);
    TimesAreIncreasing(ps, kind);
    assert forall t: nat :: t in TimesOf(ps, kind) <==> now < t <= end && t % p == 0 by {
      forall t: nat ensures t in TimesOf(ps, kind) <==> now < t <= end && t % p == 0 {
        assert (kind, t) in ps <==> InWindow(c, now, end, (kind, t));
      }
    }
    CountOfMultiples(TimesOf(ps, kind), now, end, p);
  }

  lemma CountOfMultiples(ts: seq<nat>, now: nat, end: nat, p: nat)
    requires p > 0 && now <= end && Increasing(ts)
    requires forall t: nat :: t in ts <==> now < t <= end && t % p == 0
    ensures |ts| == end / p - now / p
  {
    var first := (now / p + 1) * p;
    FirstMultipleAfter(now, p);
    PeriodicTimesAreTheMultiples(first, p, end);
    assert first / p == now / p + 1;
    if first > end {
      QuotientOf(now, end, p);
    }
    forall t: nat | t in ts ensures first <= t {
      if t < first {
        NextMultiple(first - p, t, p);
      }
    }
    var times := PeriodicTimes(first, p, end);
    hide PeriodicTimes;
    IncreasingIsUnique(ts, times);
  }

  lemma QuotientOf(now: nat, end: nat, p: nat)
    requires p > 0 && now <= end < (now / p + 1) * p
    ensures end / p == now / p
  {
    FirstMultipleAfter(now, p);
    var base := (now / p + 1) * p - p;
    QuotientBetween(base, end, p);
    QuotientBetween(base, now, p);
  }
}
