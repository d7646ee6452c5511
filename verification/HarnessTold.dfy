/** What a trajectory tells: every poll is put to the policy, every directive answers a poll, and every compression
    is observed three seconds later (src/sim/harness.rs:264-436). */
module HarnessTold {
  import opened Wrappers
  import opened Commands
  import opened Clock
  import opened Harness
  import opened HarnessOrder
  import opened HarnessWindow
  import opened HarnessSlices

  // ---------- a trajectory explains itself ----------

  /** The clock while the next entry is made: the end of the last tick. */
  function LastSnapshot(t: seq<Entry>): nat {
    if t == [] then 0
    else
      match t[|t| - 1]
      case Snapshot(when) => when
      case _ => LastSnapshot(t[..|t| - 1])
  }

  /** What the policy answers to an event after these entries. Memory, compute, thermal and energy polls are put to
      it, and nothing else is. */
  function Answer(w: World, before: seq<Entry>, e: Event): Option<seq<EngineCommand>> {
    if e.kind == SignalMemory || e.kind == SignalCompute || e.kind == SignalThermal || e.kind == SignalEnergy
    then w.policy(before, e, LastSnapshot(before))
    else None
  }

  /** A directive is the policy's answer to the event recorded right after it; an event without one had no answer;
      snapshots are one tick apart. */
  ghost predicate Explained(w: World, t: seq<Entry>, i: nat)
    requires i < |t|
  {
    match t[i]
    case Snapshot(when) => when == LastSnapshot(t[..i]) + w.tickDt
    case Directed(when, commands) =>
      i + 1 < |t| && t[i + 1].Fired? && t[i + 1].event.at == when && Answer(w, t[..i], t[i + 1].event) == Some(commands)
    case Fired(e) => (i > 0 && t[i - 1].Directed?) || Answer(w, t[..i], e) == None
  }

  ghost predicate Told(w: World, s: Sim) {
    && LastSnapshot(s.trajectory) == s.clock.now
    && forall i :: 0 <= i < |s.trajectory| ==> Explained(w, s.trajectory, i)
  }

  lemma ExplainedStays(w: World, t: seq<Entry>, more: seq<Entry>, i: nat)
    requires i < |t| && Explained(w, t, i)
    ensures Explained(w, t + more, i)
  {
    assert (t + more)[..i] == t[..i];
  }

  lemma LastIsNoDirective(w: World, s: Sim)
    requires Told(w, s) && s.trajectory != []
    ensures !s.trajectory[|s.trajectory| - 1].Directed?
  {
    assert Explained(w, s.trajectory, |s.trajectory| - 1);
  }

  lemma SnapshotOfSnoc(t: seq<Entry>, x: Entry)
    ensures LastSnapshot(t + [x]) == if x.Snapshot? then x.when else LastSnapshot(t)
  {
    assert (t + [x])[..|t|] == t;
  }

  lemma FiredIsExplained(w: World, s: Sim, e: Event)
    requires Told(w, s) && Answer(w, s.trajectory, e) == None
    ensures Told(w, s.(trajectory := s.trajectory + [Fired(e)]))
  {
    var t := s.trajectory;
    var t' := t + [Fired(e)];
    SnapshotOfSnoc(t, Fired(e));
    hide LastSnapshot, Answer;
    forall i | 0 <= i < |t'| ensures Explained(w, t', i) {
      if i < |t| {
        ExplainedStays(w, t, [Fired(e)], i);
      } else {
        assert t'[..i] == t;
      }
    }
  }

  lemma AnswerIsExplained(w: World, s: Sim, e: Event, commands: seq<EngineCommand>)
    requires Told(w, s) && Answer(w, s.trajectory, e) == Some(commands)
    ensures Told(w, s.(trajectory := s.trajectory + [Directed(e.at, commands), Fired(e)]))
  {
    var t := s.trajectory;
    var more := [Directed(e.at, commands), Fired(e)];
    var t' := t + more;
    SnapshotOfSnoc(t, more[0]);
    SnapshotOfSnoc(t + [more[0]], more[1]);
    assert t' == t + [more[0]] + [more[1]];
    hide LastSnapshot, Answer;
    forall i | 0 <= i < |t'| ensures Explained(w, t', i) {
      if i < |t| {
        ExplainedStays(w, t, more, i);
      } else if i == |t| {
        assert t'[..i] == t;
      }
    }
  }

  lemma HandleKeepsTold(w: World, s: Sim, e: Event)
    requires Told(w, s)
    ensures Told(w, Handle(w, s, e))
  {
    HandleKeepsNow(w, s, e);
    match Answer(w, s.trajectory, e) {
      case None => FiredIsExplained(w, s, e);
      case Some(commands) => AnswerIsExplained(w, s, e, commands);
    }
    hide LastSnapshot, Explained, ScheduleAll;
  }

  lemma {:induction false} HandleAllKeepsTold(w: World, s: Sim, es: seq<Event>)
    requires Told(w, s)
    ensures Told(w, HandleAll(w, s, es))
    decreases |es|
  {
    if es != [] {
      HandleKeepsTold(w, s, es[0]);
      HandleAllKeepsTold(w, Handle(w, s, es[0]), es[1..]);
    }
  }

  lemma SnapshotIsExplained(w: World, s: Sim)
    requires Told(w, s)
    ensures Told(w, Sim(s.clock.(now := s.clock.now + w.tickDt), s.trajectory + [Snapshot(s.clock.now + w.tickDt)]))
  {
    var t := s.trajectory;
    var x := Snapshot(s.clock.now + w.tickDt);
    SnapshotOfSnoc(t, x);
    hide LastSnapshot, Answer;
    forall i | 0 <= i < |t + [x]| ensures Explained(w, t + [x], i) {
      if i < |t| {
        ExplainedStays(w, t, [x], i);
      } else {
        assert (t + [x])[..i] == t;
      }
    }
  }

  lemma TickKeepsTold(w: World, s: Sim)
    requires Told(w, s)
    ensures Told(w, Tick(w, s))
  {
    hide *;
    var tickEnd := s.clock.now + w.tickDt;
    var s0 := s.(clock := s.clock.AfterDrain(tickEnd));
    DrainKeepsTold(w, s, tickEnd);
    HandleAllKeepsTold(w, s0, s.clock.Drained(tickEnd));
    HandleAllKeepsNow(w, s0, s.clock.Drained(tickEnd));
    DrainIsASplit(s.clock, tickEnd);
    TickStep(w, s);
    SnapshotIsExplained(w, HandleAll(w, s0, s.clock.Drained(tickEnd)));
  }

  lemma DrainKeepsTold(w: World, s: Sim, tickEnd: nat)
    requires Told(w, s)
    ensures Told(w, s.(clock := s.clock.AfterDrain(tickEnd)))
  {
    hide LastSnapshot, Explained;
  }

  lemma {:induction false} RunTicksKeepsTold(w: World, s: Sim, end: nat)
    requires Told(w, s) && w.tickDt > 0
    ensures Told(w, RunTicks(w, s, end))
    decreases end - s.clock.now
  {
    hide Told, Tick;
    if s.clock.now < end {
      TickKeepsTold(w, s);
      TickAdvances(w, s);
      RunTicksKeepsTold(w, Tick(w, s), end);
    }
  }

  lemma {:induction false} TickUntilKeepsTold(w: World, s: Sim, stop: Sim -> bool, end: nat)
    requires Told(w, s) && w.tickDt > 0
    ensures Told(w, TickUntil(w, s, stop, end).0)
    decreases end - s.clock.now
  {
    hide Told, Tick;
    if !stop(s) && s.clock.now < end {
      TickKeepsTold(w, s);
      TickAdvances(w, s);
      TickUntilKeepsTold(w, Tick(w, s), stop, end);
    }
  }

  lemma PreloadKeepsTold(w: World, s: Sim, until: nat)
    requires Told(w, s)
    ensures Told(w, Preload(w, s, until))
  {
    PreloadKeepsClock(w, s, until);
    hide Preload, LastSnapshot, Explained;
  }

  lemma DoKeepsTold(w: World, s: Sim, op: Operation)
    requires Told(w, s) && w.tickDt > 0
    ensures Told(w, Do(w, s, op))
  {
    hide Told, Tick, Preload, RunTicks, TickUntil;
    match op {
      case TickOnce => TickKeepsTold(w, s);
      case For(d) =>
        PreloadKeepsTold(w, s, s.clock.now + d);
        RunTicksKeepsTold(w, Preload(w, s, s.clock.now + d), s.clock.now + d);
      case Until(stop, max) =>
        var until := s.clock.now + if max <= HORIZON then max else HORIZON;
        PreloadKeepsTold(w, s, until);
        TickUntilKeepsTold(w, Preload(w, s, until), stop, s.clock.now + max);
    }
  }

  lemma {:induction false} DoAllKeepsTold(w: World, s: Sim, ops: seq<Operation>)
    requires Told(w, s) && w.tickDt > 0
    ensures Told(w, DoAll(w, s, ops))
    decreases |ops|
  {
    hide Told, Do;
    if ops != [] {
      DoKeepsTold(w, s, ops[0]);
      DoAllKeepsTold(w, Do(w, s, ops[0]), ops[1..]);
    }
  }

  /** Main result, for every policy, tick and sequence of operations: each entry of the trajectory is explained by
      those before it. Every memory, compute, thermal and energy poll was put to the policy with the trajectory so
      far and the start of the tick, and a directive was recorded just before it exactly when there was an answer. */
  lemma EveryEntryIsExplained(w: World, ops: seq<Operation>)
    requires w.tickDt > 0
    ensures var s := DoAll(w, START, ops);
            && LastSnapshot(s.trajectory) == s.clock.now
            && forall i :: 0 <= i < |s.trajectory| ==> Explained(w, s.trajectory, i)
  {
    assert Told(w, START);
    DoAllKeepsTold(w, START, ops);
  }

  // ---------- a policy that always answers ----------

  ghost predicate AlwaysAnswers(w: World) {
    forall t, e, now :: w.policy(t, e, now).Some?
  }

  function Directives(t: seq<Entry>): nat {
    if t == [] then 0 else Directives(t[..|t| - 1]) + if t[|t| - 1].Directed? then 1 else 0
  }

  function CountOf(es: seq<Event>, kind: EventKind): nat {
    if es == [] then 0 else CountOf(es[..|es| - 1], kind) + if es[|es| - 1].kind == kind then 1 else 0
  }

  function Polls(es: seq<Event>): nat {
    CountOf(es, SignalMemory) + CountOf(es, SignalCompute) + CountOf(es, SignalThermal) + CountOf(es, SignalEnergy)
  }

  lemma PollsOfSnoc(es: seq<Event>, e: Event)
    ensures Polls(es + [e]) == Polls(es)
      + if e.kind == SignalMemory || e.kind == SignalCompute || e.kind == SignalThermal || e.kind == SignalEnergy then 1 else 0
  {
    assert (es + [e])[..|es|] == es;
  }

  lemma DirectivesOfSnoc(t: seq<Entry>, x: Entry)
    ensures Directives(t + [x]) == Directives(t) + if x.Directed? then 1 else 0
  {
    assert (t + [x])[..|t|] == t;
  }

  ghost predicate AllExplained(w: World, t: seq<Entry>) {
    forall i :: 0 <= i < |t| ==> Explained(w, t, i)
  }

  lemma ExplainedBefore(w: World, t: seq<Entry>, more: seq<Entry>)
    requires AllExplained(w, t + more) && (more != [] ==> !more[0].Fired? || t == [] || !t[|t| - 1].Directed?)
    ensures AllExplained(w, t)
  {
    var all := t + more;
    hide LastSnapshot, Answer;
    forall i | 0 <= i < |t| ensures Explained(w, t, i) {
      assert Explained(w, all, i);
      assert all[..i] == t[..i];
    }
  }

  predicate IsPoll(e: Event) {
    e.kind == SignalMemory || e.kind == SignalCompute || e.kind == SignalThermal || e.kind == SignalEnergy
  }

  /** One more entry: a directive, a firing or a snapshot. */
  lemma CountsGrow(init: seq<Entry>, x: Entry)
    ensures Directives(init + [x]) == Directives(init) + if x.Directed? then 1 else 0
    ensures Polls(FiredOf(init + [x])) == Polls(FiredOf(init)) + if x.Fired? && IsPoll(x.event) then 1 else 0
  {
    DirectivesOfSnoc(init, x);
    FiredOfSnoc(init, x);
    if x.Fired? {
      PollsOfSnoc(FiredOf(init), x.event);
    } else {
      assert FiredOf(init) + [] == FiredOf(init);
    }
  }

  /** An event with an answer is a poll; without a directive before it, it is none if the policy always answers. */
  lemma AnsweredIffPoll(w: World, t: seq<Entry>, i: nat)
    requires AlwaysAnswers(w) && i < |t| && Explained(w, t, i)
    ensures t[i].Directed? ==> i + 1 < |t| && t[i + 1].Fired? && IsPoll(t[i + 1].event)
    ensures t[i].Fired? && (i == 0 || !t[i - 1].Directed?) ==> !IsPoll(t[i].event)
  {
    hide LastSnapshot;
  }

  lemma {:induction false} DirectivesArePolls(w: World, t: seq<Entry>)
    requires AllExplained(w, t) && AlwaysAnswers(w)
    ensures Directives(t) == Polls(FiredOf(t))
    decreases |t|
  {
    if t != [] {
      hide FiredOf, Polls, Directives, Explained, AlwaysAnswers, IsPoll;
      var n := |t| - 1;
      var init, last := t[..n], t[n];
      assert t == init + [last];
      assert Explained(w, t, n);
      AnsweredIffPoll(w, t, n);
      CountsGrow(init, last);
      if last.Fired? && n > 0 && t[n - 1].Directed? {
        var earlier := t[..n - 1];
        assert Explained(w, t, n - 1);
        AnsweredIffPoll(w, t, n - 1);
        EarlierEndsWell(w, t, n - 1);
        assert init == earlier + [t[n - 1]] && t == earlier + [t[n - 1], last];
        ExplainedBefore(w, earlier, [t[n - 1], last]);
        CountsGrow(earlier, t[n - 1]);
        DirectivesArePolls(w, earlier);
      } else {
        ExplainedBefore(w, init, [last]);
        DirectivesArePolls(w, init);
      }
    } else {
      NothingCounted();
    }
  }

  lemma NothingCounted()
    ensures Directives([]) == 0 && Polls(FiredOf([])) == 0
  {
  }

  lemma EarlierEndsWell(w: World, t: seq<Entry>, i: nat)
    requires AllExplained(w, t) && i < |t| && t[i].Directed?
    ensures i > 0 ==> !t[i - 1].Directed?
  {
    if i > 0 {
      assert Explained(w, t, i - 1);
    }
  }

  lemma {:induction false} CountIsTimes(es: seq<Event>, kind: EventKind)
    requires IsSource(kind)
    ensures CountOf(es, kind) == |TimesOf(Sources(es), kind)|
    decreases |es|
  {
    if es != [] {
      var init, last := es[..|es| - 1], es[|es| - 1];
      CountIsTimes(init, kind);
      if IsSource(last.kind) {
        TimesOfSnoc(Sources(init), (last.kind, last.at), kind);
      } else {
        assert Sources(init) + [] == Sources(init);
      }
    }
  }

  /** How often a source of this interval is due from the start to `d`; an interval of zero is never due. */
  function PerPeriod(d: nat, period: nat): nat {
    if period == 0 then 0 else d / period
  }

  lemma StartHasFiredNothing(s: Sim)
    ensures FiredOf(START.trajectory) == [] && FiredOf(START.trajectory) <= FiredOf(s.trajectory)
    ensures NewlyFired(START, s) == FiredOf(s.trajectory)
  {
  }

  lemma {:induction false} NoTimes(ps: seq<Occurrence>, kind: EventKind)
    requires forall p :: p in ps ==> p.0 != kind
    ensures TimesOf(ps, kind) == []
    decreases |ps|
  {
    if ps != [] {
      NoTimes(ps[..|ps| - 1], kind);
    }
  }

  lemma ZeroIsNeverDue(c: Config, ps: seq<Occurrence>, kind: EventKind, from: nat, until: nat)
    requires IsWindow(ps, c, from, until) && IsSource(kind) && Slot(kind) < 5 && Period(c, kind) == 0
    ensures TimesOf(ps, kind) == []
  {
    forall p | p in ps ensures p.0 != kind {
      assert InWindow(c, from, until, p);
    }
    NoTimes(ps, kind);
  }

  lemma CountFromStart(w: World, d: nat, kind: EventKind)
    requires 0 < w.tickDt <= OBSERVATION_DELAY && IsSource(kind) && Slot(kind) < 5
    ensures CountOf(FiredOf(RunFor(w, START, d).trajectory), kind) == PerPeriod(d, Period(w.cfg, kind))
  {
    hide *;
    var s := RunFor(w, START, d);
    StartIsIdle();
    StartHasFiredNothing(s);
    CountIsTimes(FiredOf(s.trajectory), kind);
    PerPeriodIs(d, Period(w.cfg, kind));
    if Period(w.cfg, kind) > 0 {
      PeriodCount(w, START, d, kind);
    } else {
      RunForFiresItsWindow(w, START, d);
      ZeroIsNeverDue(w.cfg, Sources(NewlyFired(START, s)), kind, START.clock.now, START.clock.now + d);
    }
  }

  lemma PerPeriodIs(d: nat, period: nat)
    ensures period == 0 ==> PerPeriod(d, period) == 0
    ensures period > 0 ==> PerPeriod(d, period) == (0 + d) / period - 0 / period
  {
  }

  /** Main result: a policy that always answers gives one directive per poll, so a run of `d` from the start records
      d/memory + d/compute + d/thermal + d/energy directives, an interval of zero giving none. */
  lemma OneDirectivePerPoll(w: World, d: nat)
    requires AlwaysAnswers(w) && 0 < w.tickDt <= 3_000_000_000
    ensures Directives(RunFor(w, START, d).trajectory)
         == PerPeriod(d, w.cfg.memory) + PerPeriod(d, w.cfg.compute) + PerPeriod(d, w.cfg.thermal) + PerPeriod(d, w.cfg.energy)
  {
    hide *;
    var t := RunFor(w, START, d).trajectory;
    DelayIs();
    RunForIsExplained(w, d);
    DirectivesArePolls(w, t);
    PollsAre(w, FiredOf(t));
    CountFromStart(w, d, SignalMemory);
    CountFromStart(w, d, SignalCompute);
    CountFromStart(w, d, SignalThermal);
    CountFromStart(w, d, SignalEnergy);
  }

  lemma DelayIs()
    ensures OBSERVATION_DELAY == 3_000_000_000
  {
  }

  lemma PollsAre(w: World, es: seq<Event>)
    ensures Polls(es) == CountOf(es, SignalMemory) + CountOf(es, SignalCompute) + CountOf(es, SignalThermal) + CountOf(es, SignalEnergy)
    ensures forall k | k in {SignalMemory, SignalCompute, SignalThermal, SignalEnergy} :: IsSource(k) && Slot(k) < 5
    ensures Period(w.cfg, SignalMemory) == w.cfg.memory && Period(w.cfg, SignalCompute) == w.cfg.compute
    ensures Period(w.cfg, SignalThermal) == w.cfg.thermal && Period(w.cfg, SignalEnergy) == w.cfg.energy
  {
  }

  lemma RunForIsExplained(w: World, d: nat)
    requires w.tickDt > 0
    ensures AllExplained(w, RunFor(w, START, d).trajectory)
  {
    EveryEntryIsExplained(w, [For(d)]);
    DoAllOfOne(w, For(d));
    hide RunFor, LastSnapshot, Explained;
  }

  lemma DoAllOfOne(w: World, op: Operation)
    requires w.tickDt > 0
    ensures DoAll(w, START, [op]) == Do(w, START, op)
  {
    hide Do;
    assert [op][1..] == [];
  }

  // ---------- every compression is observed ----------

  function Compressions(commands: seq<EngineCommand>): nat {
    if commands == [] then 0
    else Compressions(commands[..|commands| - 1]) + if commands[|commands| - 1].KvCompress? then 1 else 0
  }

  function Copies(o: Occurrence, n: nat): multiset<Occurrence> {
    multiset{}[o := n]
  }

  /** What an entry asks to be observed: one observation for each compression of a directive, three seconds after
      the start of the tick that gave it. */
  function PromiseOf(before: seq<Entry>, x: Entry): multiset<Occurrence> {
    match x
    case Directed(_, commands) =>
      Copies((ObservationDue("kv.compress", LastSnapshot(before)), LastSnapshot(before) + 3_000_000_000), Compressions(commands))
    case _ => multiset{}
  }

  /** What a trajectory's directives ask to be observed. */
  function Promised(t: seq<Entry>): multiset<Occurrence> {
    if t == [] then multiset{} else Promised(t[..|t| - 1]) + PromiseOf(t[..|t| - 1], t[|t| - 1])
  }

  function OneIssued(kind: EventKind, at: nat): multiset<Occurrence> {
    if kind.ObservationDue? then multiset{(kind, at)} else multiset{}
  }

  /** The observations among events. */
  function IssuedIn(es: seq<Event>): multiset<Occurrence> {
    if es == [] then multiset{} else OneIssued(es[0].kind, es[0].at) + IssuedIn(es[1..])
  }

  function PlannedIn(plan: seq<Occurrence>): multiset<Occurrence> {
    if plan == [] then multiset{} else OneIssued(plan[0].0, plan[0].1) + PlannedIn(plan[1..])
  }

  lemma {:induction false} IssuedOfConcat(es: seq<Event>, fs: seq<Event>)
    ensures IssuedIn(es + fs) == IssuedIn(es) + IssuedIn(fs)
    decreases |es|
  {
    if es == [] {
      assert es + fs == fs;
    } else {
      assert (es + fs)[1..] == es[1..] + fs;
      IssuedOfConcat(es[1..], fs);
    }
  }

  lemma {:induction false} IssuedOfInsert(q: seq<Event>, e: Event)
    ensures IssuedIn(Insert(q, e)) == IssuedIn(q) + OneIssued(e.kind, e.at)
    decreases |q|
  {
    if q == [] || Before(e, q[0]) {
      assert ([e] + q)[1..] == q;
    } else {
      assert ([q[0]] + Insert(q[1..], e))[1..] == Insert(q[1..], e);
      IssuedOfInsert(q[1..], e);
    }
  }

  lemma {:induction false} ScheduleAllIssues(c: ClockState, plan: seq<Occurrence>)
    ensures IssuedIn(ScheduleAll(c, plan).events) == IssuedIn(c.events) + PlannedIn(plan)
    decreases |plan|
  {
    if plan != [] {
      IssuedOfInsert(c.events, Event(plan[0].1, c.nextId, plan[0].0));
      ScheduleAllIssues(c.Schedule(plan[0].0, plan[0].1), plan[1..]);
    }
  }

  lemma {:induction false} PlannedOfConcat(p: seq<Occurrence>, q: seq<Occurrence>)
    ensures PlannedIn(p + q) == PlannedIn(p) + PlannedIn(q)
    decreases |p|
  {
    if p == [] {
      assert p + q == q;
    } else {
      assert (p + q)[1..] == p[1..] + q;
      PlannedOfConcat(p[1..], q);
    }
  }

  lemma ObservationsOfSnoc(init: seq<EngineCommand>, last: EngineCommand, now: nat)
    ensures Observations(init + [last], now) == Observations(init, now)
      + if last.KvCompress? then [(ObservationDue("kv.compress", now), now + 3_000_000_000)] else []
    ensures Compressions(init + [last]) == Compressions(init) + if last.KvCompress? then 1 else 0
  {
    assert (init + [last])[..|init|] == init;
  }

  lemma PlannedOfOne(o: Occurrence)
    requires o.0.ObservationDue?
    ensures PlannedIn([o]) == multiset{o} && PlannedIn([]) == multiset{}
  {
    assert [o][1..] == [];
  }

  lemma OneMoreCopy(o: Occurrence, n: nat)
    ensures Copies(o, n) + multiset{o} == Copies(o, n + 1)
  {
  }

  lemma {:induction false} ObservationsAreCopies(commands: seq<EngineCommand>, now: nat)
    ensures PlannedIn(Observations(commands, now))
         == Copies((ObservationDue("kv.compress", now), now + 3_000_000_000), Compressions(commands))
    decreases |commands|
  {
    if commands == [] {
      assert Copies((ObservationDue("kv.compress", now), now + 3_000_000_000), 0) == multiset{};
    } else {
      var init, last := commands[..|commands| - 1], commands[|commands| - 1];
      var one: Occurrence := (ObservationDue("kv.compress", now), now + 3_000_000_000);
      assert commands == init + [last];
      hide *;
      ObservationsAreCopies(init, now);
      ObservationsOfSnoc(init, last, now);
      PlannedOfConcat(Observations(init, now), [one]);
      PlannedOfOne(one);
      OneMoreCopy(one, Compressions(init));
      assert Observations(init, now) + [] == Observations(init, now);
    }
  }

  lemma {:induction false} SourcesIssueNothing(plan: seq<Occurrence>)
    requires forall p :: p in plan ==> IsSource(p.0)
    ensures PlannedIn(plan) == multiset{}
    decreases |plan|
  {
    if plan != [] {
      assert plan[0] in plan;
      SourcesIssueNothing(plan[1..]);
    }
  }

  lemma PromisedOfSnoc(t: seq<Entry>, x: Entry)
    ensures Promised(t + [x]) == Promised(t) + PromiseOf(t, x)
  {
    hide PromiseOf;
    assert (t + [x])[..|t|] == t;
  }

  /** Fired, drained and queued observations together are those promised. */
  ghost predicate Kept(s: Sim, rest: seq<Event>) {
    && LastSnapshot(s.trajectory) == s.clock.now
    && IssuedIn(FiredOf(s.trajectory)) + IssuedIn(rest) + IssuedIn(s.clock.events) == Promised(s.trajectory)
  }

  lemma IssuedOfFired(fired: seq<Event>, e: Event, rest: seq<Event>)
    requires rest != [] && rest[0] == e
    ensures IssuedIn(fired + [e]) + IssuedIn(rest[1..]) == IssuedIn(fired) + IssuedIn(rest)
  {
    IssuedOfConcat(fired, [e]);
    assert [e][1..] == [];
  }

  /** What handling an event does to the trajectory and the queue. */
  lemma HandleTells(w: World, s: Sim, e: Event)
    ensures var s' := Handle(w, s, e);
            match if IsSignal(e.kind) then w.policy(s.trajectory, e, s.clock.now) else None
            case None => s' == s.(trajectory := s.trajectory + [Fired(e)])
            case Some(commands) =>
              && s'.trajectory == s.trajectory + [Directed(e.at, commands)] + [Fired(e)]
              && s'.clock == ScheduleAll(s.clock, Observations(commands, s.clock.now))
  {
    hide ScheduleAll, Observations, IsSignal;
    var reaction := if IsSignal(e.kind) then w.policy(s.trajectory, e, s.clock.now) else None;
    if reaction.Some? {
      assert s.trajectory + [Directed(e.at, reaction.value), Fired(e)] == s.trajectory + [Directed(e.at, reaction.value)] + [Fired(e)];
    }
  }

  lemma SilentEntry(t: seq<Entry>, e: Event)
    ensures Promised(t + [Fired(e)]) == Promised(t) && LastSnapshot(t + [Fired(e)]) == LastSnapshot(t)
  {
    PromisedOfSnoc(t, Fired(e));
    SnapshotOfSnoc(t, Fired(e));
    hide Promised, LastSnapshot;
  }

  lemma DirectedEntry(t: seq<Entry>, when: nat, commands: seq<EngineCommand>)
    ensures Promised(t + [Directed(when, commands)]) == Promised(t) + PlannedIn(Observations(commands, LastSnapshot(t)))
    ensures LastSnapshot(t + [Directed(when, commands)]) == LastSnapshot(t)
  {
    PromisedOfSnoc(t, Directed(when, commands));
    SnapshotOfSnoc(t, Directed(when, commands));
    ObservationsAreCopies(commands, LastSnapshot(t));
    hide Promised, LastSnapshot, Observations, PlannedIn, Compressions;
  }

  lemma HandleKeepsKept(w: World, s: Sim, rest: seq<Event>)
    requires Kept(s, rest) && rest != []
    ensures Kept(Handle(w, s, rest[0]), rest[1..])
  {
    var e := rest[0];
    var t := s.trajectory;
    HandleKeepsNow(w, s, e);
    HandleFires(w, s, e);
    HandleTells(w, s, e);
    IssuedOfFired(FiredOf(t), e, rest);
    hide FiredOf, IssuedIn, Promised, LastSnapshot, ScheduleAll, Observations, IsSignal, Handle, PlannedIn;
    match if IsSignal(e.kind) then w.policy(t, e, s.clock.now) else None {
      case None => SilentEntry(t, e);
      case Some(commands) =>
        DirectedEntry(t, e.at, commands);
        SilentEntry(t + [Directed(e.at, commands)], e);
        ScheduleAllIssues(s.clock, Observations(commands, s.clock.now));
    }
  }

  lemma {:induction false} HandleAllKeepsKept(w: World, s: Sim, rest: seq<Event>)
    requires Kept(s, rest)
    ensures Kept(HandleAll(w, s, rest), [])
    decreases |rest|
  {
    if rest != [] {
      HandleKeepsKept(w, s, rest);
      HandleAllKeepsKept(w, Handle(w, s, rest[0]), rest[1..]);
    }
  }

  lemma DrainIsASplit(c: ClockState, tickEnd: nat)
    ensures c.events == c.Drained(tickEnd) + c.AfterDrain(tickEnd).events && c.AfterDrain(tickEnd).now == c.now
  {
    hide DueCount;
  }

  lemma DrainKeepsKept(s: Sim, tickEnd: nat)
    requires Kept(s, [])
    ensures Kept(s.(clock := s.clock.AfterDrain(tickEnd)), s.clock.Drained(tickEnd))
  {
    DrainIsASplit(s.clock, tickEnd);
    assert IssuedIn([]) == multiset{};
    hide FiredOf, Promised, IssuedIn, LastSnapshot, ClockState.Drained, ClockState.AfterDrain;
    IssuedOfConcat(s.clock.Drained(tickEnd), s.clock.AfterDrain(tickEnd).events);
  }

  lemma SnapshotKeepsKept(w: World, s: Sim)
    requires Kept(s, [])
    ensures Kept(Sim(s.clock.(now := s.clock.now + w.tickDt), s.trajectory + [Snapshot(s.clock.now + w.tickDt)]), [])
  {
    var x := Snapshot(s.clock.now + w.tickDt);
    hide IssuedIn, Promised, FiredOf, LastSnapshot;
    SnapshotOfSnoc(s.trajectory, x);
    PromisedOfSnoc(s.trajectory, x);
    FiredOfSnoc(s.trajectory, x);
    assert FiredOf(s.trajectory) + [] == FiredOf(s.trajectory);
  }

  lemma TickKeepsKept(w: World, s: Sim)
    requires Kept(s, [])
    ensures Kept(Tick(w, s), [])
  {
    hide *;
    var tickEnd := s.clock.now + w.tickDt;
    var s0 := s.(clock := s.clock.AfterDrain(tickEnd));
    DrainIsASplit(s.clock, tickEnd);
    DrainKeepsKept(s, tickEnd);
    HandleAllKeepsKept(w, s0, s.clock.Drained(tickEnd));
    HandleAllKeepsNow(w, s0, s.clock.Drained(tickEnd));
    TickStep(w, s);
    SnapshotKeepsKept(w, HandleAll(w, s0, s.clock.Drained(tickEnd)));
  }

  lemma PreloadKeepsKept(w: World, s: Sim, until: nat)
    requires Kept(s, [])
    ensures Kept(Preload(w, s, until), [])
  {
    var plan := PreloadPlan(w.cfg, s.clock.now, until);
    PreloadPlanCovers(w.cfg, s.clock.now, until);
    PreloadKeepsClock(w, s, until);
    ScheduleAllIssues(s.clock, plan);
    hide PreloadPlan, ScheduleAll, IssuedIn, Promised, FiredOf, LastSnapshot;
    SourcesIssueNothing(plan);
  }

  lemma {:induction false} RunTicksKeepsKept(w: World, s: Sim, end: nat)
    requires Kept(s, []) && w.tickDt > 0
    ensures Kept(RunTicks(w, s, end), [])
    decreases end - s.clock.now
  {
    hide Kept, Tick;
    if s.clock.now < end {
      TickKeepsKept(w, s);
      TickAdvances(w, s);
      RunTicksKeepsKept(w, Tick(w, s), end);
    }
  }

  lemma {:induction false} TickUntilKeepsKept(w: World, s: Sim, stop: Sim -> bool, end: nat)
    requires Kept(s, []) && w.tickDt > 0
    ensures Kept(TickUntil(w, s, stop, end).0, [])
    decreases end - s.clock.now
  {
    hide Kept, Tick;
    if !stop(s) && s.clock.now < end {
      TickKeepsKept(w, s);
      TickAdvances(w, s);
      TickUntilKeepsKept(w, Tick(w, s), stop, end);
    }
  }

  lemma {:induction false} DoAllKeepsKept(w: World, s: Sim, ops: seq<Operation>)
    requires Kept(s, []) && w.tickDt > 0
    ensures Kept(DoAll(w, s, ops), [])
    decreases |ops|
  {
    hide Kept, Tick, Preload, RunTicks, TickUntil;
    if ops != [] {
      match ops[0] {
        case TickOnce => TickKeepsKept(w, s);
        case For(d) =>
          PreloadKeepsKept(w, s, s.clock.now + d);
          RunTicksKeepsKept(w, Preload(w, s, s.clock.now + d), s.clock.now + d);
        case Until(stop, max) =>
          var until := s.clock.now + if max <= HORIZON then max else HORIZON;
          PreloadKeepsKept(w, s, until);
          TickUntilKeepsKept(w, Preload(w, s, until), stop, s.clock.now + max);
      }
      DoAllKeepsKept(w, Do(w, s, ops[0]), ops[1..]);
    }
  }

  /** Main result, for every policy, tick and sequence of operations: the observations fired and still queued are
      exactly those the trajectory's directives promise, each as often as it was asked for. */
  lemma ObservationsAreThePromised(w: World, ops: seq<Operation>)
    requires w.tickDt > 0
    ensures var s := DoAll(w, START, ops);
            IssuedIn(FiredOf(s.trajectory)) + IssuedIn(s.clock.events) == Promised(s.trajectory)
  {
    assert Kept(START, []);
    DoAllKeepsKept(w, START, ops);
    hide DoAll, FiredOf, Promised;
    assert IssuedIn([]) == multiset{};
  }
}
