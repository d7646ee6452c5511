/** Which events a run fires: everything scheduled once, and for a run of a given length exactly the
    scenario's events due in it, however the run is cut into pieces. */
module HarnessWindow {
  import opened Clock
  import opened Harness
  import opened HarnessOrder

  // ---------- the scenario's own events ----------

  predicate IsSource(k: EventKind) { !k.ObservationDue? && !k.Custom? }

  /** The order in which events due at the same instant are preloaded. */
  function Slot(k: EventKind): nat {
    match k
    case Heartbeat => 0
    case SignalMemory => 1
    case SignalCompute => 2
    case SignalThermal => 3
    case SignalEnergy => 4
    case ExternalInjectionStart(i) => 5 + 2 * i
    case ExternalInjectionEnd(i) => 6 + 2 * i
    case _ => 0
  }

  function Period(c: Config, k: EventKind): nat {
    match k
    case Heartbeat => c.heartbeat
    case SignalMemory => c.memory
    case SignalCompute => c.compute
    case SignalThermal => c.thermal
    case SignalEnergy => c.energy
    case _ => 0
  }

  /** The scenario wants `k` at time `t`: a multiple of its interval, or an injection's own boundary. */
  predicate Due(c: Config, k: EventKind, t: nat) {
    match k
    case ExternalInjectionStart(i) => i < |c.injections| && t == c.injections[i].start
    case ExternalInjectionEnd(i) => i < |c.injections| && t == c.injections[i].start + c.injections[i].duration
    case _ => Period(c, k) > 0 && t % Period(c, k) == 0
  }

  type Occurrence = (EventKind, nat)

  ghost predicate InWindow(c: Config, from: nat, until: nat, p: Occurrence) {
    IsSource(p.0) && from < p.1 <= until && Due(c, p.0, p.1)
  }

  // ---------- what preloading schedules ----------

  predicate SlotBefore(p: Occurrence, q: Occurrence) {
    Slot(p.0) < Slot(q.0) || (Slot(p.0) == Slot(q.0) && p.1 < q.1)
  }

  /** `plan` lists the occurrences of the slots from `lo` up to `hi`, slot by slot and in time order. */
  ghost predicate Covers(plan: seq<Occurrence>, c: Config, from: nat, until: nat, lo: nat, hi: nat) {
    && (forall i, j :: 0 <= i < j < |plan| ==> SlotBefore(plan[i], plan[j]))
    && (forall p :: p in plan <==> InWindow(c, from, until, p) && lo <= Slot(p.0) < hi)
  }

  lemma CoversConcat(p: seq<Occurrence>, q: seq<Occurrence>, c: Config, from: nat, until: nat, lo: nat, mid: nat, hi: nat)
    requires Covers(p, c, from, until, lo, mid) && Covers(q, c, from, until, mid, hi) && lo <= mid <= hi
    ensures Covers(p + q, c, from, until, lo, hi)
  {
    forall i, j | 0 <= i < j < |p + q| ensures SlotBefore((p + q)[i], (p + q)[j]) {
      if i < |p| <= j {
        assert p[i] in p && q[j - |p|] in q;
      }
    }
  }

  lemma PeriodicPlanCovers(c: Config, kind: EventKind, from: nat, until: nat)
    requires IsSource(kind) && Slot(kind) < 5
    ensures Covers(PeriodicPlan(kind, from, Period(c, kind), until), c, from, until, Slot(kind), Slot(kind) + 1)
  {
    hide *;
    var p := Period(c, kind);
    PeriodicPlanIs(kind, from, p, until);
    if p > 0 {
      PeriodicTimesInWindow(from, p, until);
      TimesCover(c, kind, from, until, PeriodicTimes((from / p + 1) * p, p, until));
    } else {
      NoPeriodCovers(c, kind, from, until);
    }
  }

  lemma PeriodicPlanIs(kind: EventKind, from: nat, p: nat, until: nat)
    ensures p == 0 ==> PeriodicPlan(kind, from, p, until) == []
    ensures p > 0 ==> PeriodicPlan(kind, from, p, until) == Plan(kind, PeriodicTimes((from / p + 1) * p, p, until))
  {
  }

  lemma NoPeriodCovers(c: Config, kind: EventKind, from: nat, until: nat)
    requires IsSource(kind) && Slot(kind) < 5 && Period(c, kind) == 0
    ensures Covers([], c, from, until, Slot(kind), Slot(kind) + 1)
  {
    forall o: Occurrence | IsSource(o.0) && Slot(o.0) == Slot(kind) ensures o.0 == kind {
    }
  }

  /** The times of a periodic plan are the multiples of the period in the window, in order. */
  lemma PeriodicTimesInWindow(from: nat, p: nat, until: nat)
    requires p > 0
    ensures var times := PeriodicTimes((from / p + 1) * p, p, until);
            Increasing(times) && forall t: nat :: t in times <==> from < t <= until && t % p == 0
  {
    var first := (from / p + 1) * p;
    FirstMultipleAfter(from, p);
    PeriodicTimesAreTheMultiples(first, p, until);
    hide PeriodicTimes;
    forall t: nat | from < t <= until && t % p == 0 ensures first <= t {
      if t < first {
        NextMultiple(first - p, t, p);
      }
    }
  }

  lemma TimesCover(c: Config, kind: EventKind, from: nat, until: nat, times: seq<nat>)
    requires IsSource(kind) && Slot(kind) < 5 && Period(c, kind) > 0 && Increasing(times)
    requires forall t: nat :: t in times <==> from < t <= until && t % Period(c, kind) == 0
    ensures Covers(Plan(kind, times), c, from, until, Slot(kind), Slot(kind) + 1)
  {
    var plan := Plan(kind, times);
    forall o: Occurrence ensures o in plan <==> InWindow(c, from, until, o) && Slot(o.0) == Slot(kind) {
      if o in plan {
        var i :| 0 <= i < |plan| && plan[i] == o;
        assert times[i] in times;
      }
      if InWindow(c, from, until, o) && Slot(o.0) == Slot(kind) {
        assert o.0 == kind && o.1 in times;
        var i :| 0 <= i < |times| && times[i] == o.1;
        assert plan[i] == o;
      }
    }
  }

  /** The first multiple of `p` after `now`, as the source computes it. */
  lemma FirstMultipleAfter(now: nat, p: nat)
    requires p > 0
    ensures var first := (now / p + 1) * p;
            first % p == 0 && first / p == now / p + 1 && first - p <= now < first && (first - p) % p == 0
  {
    var q := now / p;
    assert now == p * q + now % p;
    MultipleOf(p, q);
    MultipleOf(p, q + 1);
    assert (q + 1) * p == p * (q + 1) == p * q + p;
  }

  lemma PickCovers(c: Config, k: EventKind, t: nat, from: nat, until: nat)
    requires IsSource(k) && Slot(k) >= 5 && forall t' :: Due(c, k, t') <==> t' == t
    ensures Covers(Pick(k, t, from, until), c, from, until, Slot(k), Slot(k) + 1)
  {
    forall o: Occurrence | InWindow(c, from, until, o) && Slot(o.0) == Slot(k) ensures o == (k, t) {
      assert o.0 == k;
    }
  }

  lemma InjectionCovers(c: Config, i: nat, from: nat, until: nat)
    requires i < |c.injections|
    ensures var inj := c.injections[i];
            Covers(Pick(ExternalInjectionStart(i), inj.start, from, until)
                   + Pick(ExternalInjectionEnd(i), inj.start + inj.duration, from, until), c, from, until, 5 + 2 * i, 7 + 2 * i)
  {
    var inj := c.injections[i];
    PickCovers(c, ExternalInjectionStart(i), inj.start, from, until);
    PickCovers(c, ExternalInjectionEnd(i), inj.start + inj.duration, from, until);
    hide Covers, Pick;
    CoversConcat(Pick(ExternalInjectionStart(i), inj.start, from, until),
                 Pick(ExternalInjectionEnd(i), inj.start + inj.duration, from, until), c, from, until, 5 + 2 * i, 6 + 2 * i, 7 + 2 * i);
  }

  lemma InjectionPlanStep(injections: seq<Injection>, n: nat, now: nat, until: nat)
    requires n <= |injections|
    ensures n == 0 ==> InjectionPlan(injections, n, now, until) == []
    ensures n > 0 ==>
      var inj := injections[n - 1];
      InjectionPlan(injections, n, now, until)
      == InjectionPlan(injections, n - 1, now, until)
         + (Pick(ExternalInjectionStart(n - 1), inj.start, now, until)
            + Pick(ExternalInjectionEnd(n - 1), inj.start + inj.duration, now, until))
  {
  }

  lemma NothingCovers(c: Config, from: nat, until: nat, lo: nat)
    ensures Covers([], c, from, until, lo, lo)
  {
  }

  lemma {:induction false} InjectionPlanCovers(c: Config, n: nat, from: nat, until: nat)
    requires n <= |c.injections|
    ensures Covers(InjectionPlan(c.injections, n, from, until), c, from, until, 5, 5 + 2 * n)
    decreases n
  {
    hide *;
    InjectionPlanStep(c.injections, n, from, until);
    if n == 0 {
      NothingCovers(c, from, until, 5);
    } else {
      var inj := c.injections[n - 1];
      InjectionCovers(c, n - 1, from, until);
      InjectionPlanCovers(c, n - 1, from, until);
      CoversConcat(InjectionPlan(c.injections, n - 1, from, until),
                   Pick(ExternalInjectionStart(n - 1), inj.start, from, until)
                   + Pick(ExternalInjectionEnd(n - 1), inj.start + inj.duration, from, until), c, from, until, 5, 3 + 2 * n, 5 + 2 * n);
    }
  }

  /** Preloading plans exactly the occurrences in the window, ordered by slot and then by time. */
  lemma PreloadPlanCovers(c: Config, from: nat, until: nat)
    ensures Covers(PreloadPlan(c, from, until), c, from, until, 0, 5 + 2 * |c.injections|)
  {
    hide Covers, PeriodicPlan, InjectionPlan;
    var p0, p1 := PeriodicPlan(Heartbeat, from, c.heartbeat, until), PeriodicPlan(SignalMemory, from, c.memory, until);
    var p2, p3 := PeriodicPlan(SignalCompute, from, c.compute, until), PeriodicPlan(SignalThermal, from, c.thermal, until);
    var p4 := PeriodicPlan(SignalEnergy, from, c.energy, until);
    PeriodicPlanCovers(c, Heartbeat, from, until);
    PeriodicPlanCovers(c, SignalMemory, from, until);
    PeriodicPlanCovers(c, SignalCompute, from, until);
    PeriodicPlanCovers(c, SignalThermal, from, until);
    PeriodicPlanCovers(c, SignalEnergy, from, until);
    InjectionPlanCovers(c, |c.injections|, from, until);
    CoversConcat(p0, p1, c, from, until, 0, 1, 2);
    CoversConcat(p0 + p1, p2, c, from, until, 0, 2, 3);
    CoversConcat(p0 + p1 + p2, p3, c, from, until, 0, 3, 4);
    CoversConcat(p0 + p1 + p2 + p3, p4, c, from, until, 0, 4, 5);
    CoversConcat(p0 + p1 + p2 + p3 + p4, InjectionPlan(c.injections, |c.injections|, from, until), c, from, until, 0, 5, 5 + 2 * |c.injections|);
  }

  lemma PreloadKeepsSettled(w: World, s: Sim, until: nat)
    requires Settled(s)
    ensures Settled(Preload(w, s, until)) && Keeps(s, Preload(w, s, until))
  {
    var plan := PreloadPlan(w.cfg, s.clock.now, until);
    PreloadPlanCovers(w.cfg, s.clock.now, until);
    FiredIsRecorded(s.trajectory);
    forall x, i | x in FiredOf(s.trajectory) && 0 <= i < |plan| ensures x.at <= plan[i].1 {
      assert Fired(x).Stamp() <= s.clock.now;
      assert plan[i] in plan;
    }
    ScheduleAllKeepsLedger(FiredOf(s.trajectory), s.clock, plan);
    ScheduleAllAdds(s.clock, plan);
    forall e | e in Preload(w, s, until).clock.events
      ensures e.at > s.clock.now || (e.at == s.clock.now && e.kind.ObservationDue?)
    {
      if e !in s.clock.events {
        assert plan[e.id - s.clock.nextId] in plan;
      }
    }
  }

  // ---------- any sequence of operations ----------

  datatype Operation = TickOnce | For(duration: nat) | Until(stop: Sim -> bool, max: nat)

  function Do(w: World, s: Sim, op: Operation): Sim
    requires w.tickDt > 0
  {
    match op
    case TickOnce => Tick(w, s)
    case For(d) => RunFor(w, s, d)
    case Until(stop, max) => RunUntil(w, s, stop, max).0
  }

  function DoAll(w: World, s: Sim, ops: seq<Operation>): Sim
    requires w.tickDt > 0
    decreases |ops|
  {
    if ops == [] then s else DoAll(w, Do(w, s, ops[0]), ops[1..])
  }

  lemma KeepsIsTransitive(a: Sim, b: Sim, c: Sim)
    requires Keeps(a, b) && Keeps(b, c)
    ensures Keeps(a, c)
  {
  }

  lemma DoIsOrderly(w: World, s: Sim, op: Operation)
    requires Settled(s) && 0 < w.tickDt <= OBSERVATION_DELAY
    ensures Settled(Do(w, s, op)) && Keeps(s, Do(w, s, op))
  {
    hide Settled, Tick, Preload, Keeps;
    match op {
      case TickOnce =>
        TickKeepsSettled(w, s);
        TickExtends(w, s);
        ExtendsKeeps(s, Tick(w, s));
      case For(d) =>
        var end := s.clock.now + d;
        PreloadKeepsSettled(w, s, end);
        RunTicksIsOrderly(w, Preload(w, s, end), end);
        ExtendsKeeps(Preload(w, s, end), RunFor(w, s, d));
        KeepsIsTransitive(s, Preload(w, s, end), RunFor(w, s, d));
      case Until(stop, max) =>
        var p := Preload(w, s, s.clock.now + if max <= HORIZON then max else HORIZON);
        PreloadKeepsSettled(w, s, s.clock.now + if max <= HORIZON then max else HORIZON);
        TickUntilIsOrderly(w, p, stop, s.clock.now + max);
        ExtendsKeeps(p, Do(w, s, op));
        KeepsIsTransitive(s, p, Do(w, s, op));
    }
  }

  lemma ExtendsKeeps(a: Sim, b: Sim)
    requires Extends(a, b)
    ensures Keeps(a, b)
  {
  }

  lemma {:induction false} DoAllIsOrderly(w: World, s: Sim, ops: seq<Operation>)
    requires Settled(s) && 0 < w.tickDt <= OBSERVATION_DELAY
    ensures Settled(DoAll(w, s, ops)) && Keeps(s, DoAll(w, s, ops))
    decreases |ops|
  {
    hide Settled, Do;
    if ops != [] {
      DoIsOrderly(w, s, ops[0]);
      DoAllIsOrderly(w, Do(w, s, ops[0]), ops[1..]);
      hide Keeps;
      KeepsIsTransitive(s, Do(w, s, ops[0]), DoAll(w, s, ops));
    }
  }

  /** `e` was handled at exactly one place in the run. */
  ghost predicate FiredExactlyOnce(s: Sim, e: Event) {
    var fired := FiredOf(s.trajectory);
    && e in fired
    && forall i, j :: 0 <= i < |fired| && 0 <= j < |fired| && fired[i] == e && fired[j] == e ==> i == j
  }

  /** Main result, for any tick of at most the observation delay, any policy and any sequence of ticks, runs
      and conditional runs, cut anywhere: the whole history fires in (time, id) order with nondecreasing
      time stamps; every id names one event; and an event issued by the cut has, once its time is reached,
      fired exactly once and is no longer pending, except an observation due at this very instant. */
  lemma EveryEventFiresOnceInOrder(w: World, ops: seq<Operation>, more: seq<Operation>)
    requires 0 < w.tickDt <= OBSERVATION_DELAY
    ensures var cut := DoAll(w, START, ops);
            var end := DoAll(w, cut, more);
            var all := FiredOf(end.trajectory) + end.clock.events;
            && Sorted(all)
            && StampsInOrder(end.trajectory)
            && (forall id :: 0 <= id < end.clock.nextId ==> Issued(all, id))
            && (forall e, f :: e in all && f in all && e.id == f.id ==> e == f)
            && FiredOf(cut.trajectory) <= FiredOf(end.trajectory)
            && forall e :: e in FiredOf(cut.trajectory) + cut.clock.events && e.at <= end.clock.now ==>
                 || (FiredExactlyOnce(end, e) && e !in end.clock.events)
                 || (e !in FiredOf(end.trajectory) && e in end.clock.events && e.at == end.clock.now && e.kind.ObservationDue?)
  {
    hide DoAll;
    assert Settled(START);
    DoAllIsOrderly(w, START, ops);
    var cut := DoAll(w, START, ops);
    DoAllIsOrderly(w, cut, more);
    SettledFiresOnce(DoAll(w, cut, more));
  }

  lemma SortedIsInjective(all: seq<Event>)
    requires Sorted(all)
    ensures forall i, j :: 0 <= i < |all| && 0 <= j < |all| && all[i] == all[j] ==> i == j
  {
  }

  lemma SortedPartsAreDisjoint(a: seq<Event>, b: seq<Event>)
    requires Sorted(a + b)
    ensures forall e :: e in a ==> e !in b
  {
    forall i, j | 0 <= i < |a| && 0 <= j < |b| ensures a[i] != b[j] {
      assert (a + b)[i] == a[i] && (a + b)[|a| + j] == b[j];
    }
  }

  lemma SettledFiresOnce(s: Sim)
    requires Settled(s)
    ensures forall e :: e in FiredOf(s.trajectory) ==> FiredExactlyOnce(s, e) && e !in s.clock.events
  {
    var fired := FiredOf(s.trajectory);
    var all := fired + s.clock.events;
    SortedPartsAreDisjoint(fired, s.clock.events);
    SortedIsInjective(all);
    assert forall i :: 0 <= i < |fired| ==> fired[i] == all[i];
  }
}
