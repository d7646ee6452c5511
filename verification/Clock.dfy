/** Virtual clock and event queue (src/sim/clock.rs). Times are whole nanoseconds. */
module Clock {

  datatype EventKind =
    | Heartbeat
    | SignalMemory
    | SignalCompute
    | SignalThermal
    | SignalEnergy
    | ObservationDue(action: string, recordedAt: nat)
    | ExternalInjectionStart(index: nat)
    | ExternalInjectionEnd(index: nat)
    | Custom(name: string)

  datatype Event = Event(at: nat, id: nat, kind: EventKind)

  /** Firing order: time first, then the order of scheduling. */
  predicate Before(a: Event, b: Event) {
    a.at < b.at || (a.at == b.at && a.id < b.id)
  }

  ghost predicate Sorted(es: seq<Event>) {
    forall i, j :: 0 <= i < j < |es| ==> Before(es[i], es[j])
  }

  /** The queue is kept as the sequence in which a binary heap with `Before` as its order would be popped. */
  function Insert(q: seq<Event>, e: Event): (q': seq<Event>)
    ensures multiset(q') == multiset(q) + multiset{e}
  {
    if q == [] || Before(e, q[0]) then [e] + q
    else
      assert q == [q[0]] + q[1..];
      [q[0]] + Insert(q[1..], e)
  }

  lemma {:induction false} InsertKeepsSorted(prefix: seq<Event>, q: seq<Event>, e: Event)
    requires Sorted(prefix + q)
    requires forall x :: x in prefix ==> Before(x, e)
    requires forall x :: x in q ==> x.id != e.id
    ensures Sorted(prefix + Insert(q, e))
    decreases |q|
  {
    if q == [] || Before(e, q[0]) {
      var all := prefix + q;
      assert prefix + Insert(q, e) == prefix + [e] + q;
      forall i, j | 0 <= i < j < |all| + 1 ensures Before((prefix + [e] + q)[i], (prefix + [e] + q)[j]) {
        var n := |prefix|;
        if i < n && j > n {
          assert Before(all[i], all[j - 1]);
        } else if i < n && j == n {
          assert prefix[i] in prefix;
        } else if i == n {
          assert j > n + 1 ==> Before(all[n], all[j - 1]);
        } else {
          assert Before(all[if i > n then i - 1 else i], all[if j > n then j - 1 else j]);
        }
      }
    } else {
      assert prefix + q == (prefix + [q[0]]) + q[1..];
      InsertKeepsSorted(prefix + [q[0]], q[1..], e);
      assert (prefix + [q[0]]) + Insert(q[1..], e) == prefix + Insert(q, e);
    }
  }

  /** How many events at the head of the queue are due by `target`. */
  function DueCount(q: seq<Event>, target: nat): (n: nat)
    ensures n <= |q|
    ensures forall i :: 0 <= i < n ==> q[i].at <= target
    ensures n < |q| ==> q[n].at > target
  {
    if q == [] || q[0].at > target then 0 else 1 + DueCount(q[1..], target)
  }

  datatype ClockState = ClockState(now: nat, events: seq<Event>, nextId: nat)
  {
    function Schedule(kind: EventKind, at: nat): ClockState {
      ClockState(now, Insert(events, Event(at, nextId, kind)), nextId + 1)
    }

    function Drained(target: nat): seq<Event> { events[..DueCount(events, target)] }

    function AfterDrain(target: nat): ClockState { this.(events := events[DueCount(events, target)..]) }
  }

  const FRESH := ClockState(0, [], 0)

  /** Several schedulings in order. */
  function ScheduleAll(c: ClockState, plan: seq<(EventKind, nat)>): ClockState
    decreases |plan|
  {
    if plan == [] then c else ScheduleAll(c.Schedule(plan[0].0, plan[0].1), plan[1..])
  }

  /** first, first + period, ... up to `until`. */
  function PeriodicTimes(first: nat, period: nat, until: nat): seq<nat>
    requires period > 0
    decreases until + 1 - first
  {
    if first > until then [] else [first] + PeriodicTimes(first + period, period, until)
  }

  function Plan(kind: EventKind, times: seq<nat>): (plan: seq<(EventKind, nat)>)
    ensures |plan| == |times|
  {
    seq(|times|, i requires 0 <= i < |times| => (kind, times[i]))
  }

  lemma PeriodicStep(c: ClockState, kind: EventKind, t: nat, period: nat, until: nat)
    requires period > 0 && t <= until
    ensures ScheduleAll(c, Plan(kind, PeriodicTimes(t, period, until)))
         == ScheduleAll(c.Schedule(kind, t), Plan(kind, PeriodicTimes(t + period, period, until)))
  {
    assert Plan(kind, PeriodicTimes(t, period, until))[1..] == Plan(kind, PeriodicTimes(t + period, period, until));
  }

  lemma PeriodicEnd(c: ClockState, kind: EventKind, t: nat, period: nat, until: nat)
    requires period > 0 && t > until
    ensures ScheduleAll(c, Plan(kind, PeriodicTimes(t, period, until))) == c
  {
  }

  class VirtualClock {
    var now: nat
    var events: seq<Event>
    var nextId: nat

    function View(): ClockState
      reads this
    {
      ClockState(now, events, nextId)
    }

    constructor ()
      ensures View() == FRESH
    {
      now, events, nextId := 0, [], 0;
    }

    method Schedule(kind: EventKind, at: nat) returns (id: nat)
      modifies this
      ensures View() == old(View()).Schedule(kind, at) && id == old(nextId)
    {
      id := nextId;
      nextId := nextId + 1;
      events := Insert(events, Event(at, id, kind));
    }

    method SchedulePeriodic(kind: EventKind, first: nat, period: nat, until: nat)
      requires period > 0
      modifies this
      ensures View() == ScheduleAll(old(View()), Plan(kind, PeriodicTimes(first, period, until)))
    {
      hide ScheduleAll, Plan, PeriodicTimes;
      var t := first;
      ghost var goal := ScheduleAll(View(), Plan(kind, PeriodicTimes(first, period, until)));
      while t <= until
        invariant ScheduleAll(View(), Plan(kind, PeriodicTimes(t, period, until))) == goal
        decreases until + 1 - t
      {
        PeriodicStep(View(), kind, t, period, until);
        var _ := Schedule(kind, t);
        t := t + period;
      }
      PeriodicEnd(View(), kind, t, period, until);
    }

    method DrainUntil(target: nat) returns (result: seq<Event>)
      modifies this
      ensures View() == old(View()).AfterDrain(target)
      ensures result == old(View()).Drained(target)
    {
      result := [];
      ghost var k := 0;
      while events != [] && events[0].at <= target
        invariant k + DueCount(events, target) == DueCount(old(events), target)
        invariant events == old(events)[k..] && result == old(events)[..k]
        invariant now == old(now) && nextId == old(nextId)
        decreases |events|
      {
        result := result + [events[0]];
        events := events[1..];
        k := k + 1;
      }
    }

    method Advance(dt: nat)
      modifies this
      ensures View() == old(View()).(now := old(now) + dt)
    {
      now := now + dt;
    }
  }

  // ---------- what scheduling adds ----------

  /** `e` is what scheduling `plan` on `c` creates for one of its entries. */
  ghost predicate Planned(c: ClockState, plan: seq<(EventKind, nat)>, e: Event) {
    c.nextId <= e.id < c.nextId + |plan| && (e.kind, e.at) == plan[e.id - c.nextId]
  }

  lemma ScheduleAdds(c: ClockState, kind: EventKind, at: nat)
    ensures forall e :: e in c.Schedule(kind, at).events <==> (e in c.events || e == Event(at, c.nextId, kind))
  {
    var c' := c.Schedule(kind, at);
    forall e ensures e in c'.events <==> (e in c.events || e == Event(at, c.nextId, kind)) {
      assert e in c'.events <==> e in multiset(c'.events);
      assert e in c.events <==> e in multiset(c.events);
    }
  }

  lemma {:induction false} ScheduleAllAdds(c: ClockState, plan: seq<(EventKind, nat)>)
    ensures ScheduleAll(c, plan).now == c.now && ScheduleAll(c, plan).nextId == c.nextId + |plan|
    ensures forall e :: e in ScheduleAll(c, plan).events <==> (e in c.events || Planned(c, plan, e))
    decreases |plan|
  {
    if plan != [] {
      var c1 := c.Schedule(plan[0].0, plan[0].1);
      ScheduleAdds(c, plan[0].0, plan[0].1);
      ScheduleAllAdds(c1, plan[1..]);
      forall e ensures Planned(c, plan, e) <==> (e == Event(plan[0].1, c.nextId, plan[0].0) || Planned(c1, plan[1..], e)) {
        if c.nextId < e.id < c.nextId + |plan| {
          assert plan[1..][e.id - c1.nextId] == plan[e.id - c.nextId];
        }
      }
    }
  }

  lemma {:induction false} ScheduleAllOfConcat(c: ClockState, p: seq<(EventKind, nat)>, q: seq<(EventKind, nat)>)
    ensures ScheduleAll(c, p + q) == ScheduleAll(ScheduleAll(c, p), q)
    decreases |p|
  {
    if p == [] {
      assert p + q == q;
    } else {
      assert (p + q)[1..] == p[1..] + q;
      ScheduleAllOfConcat(c.Schedule(p[0].0, p[0].1), p[1..], q);
    }
  }

  // ---------- multiples of a period ----------

  lemma ProductMono(p: nat, x: nat, y: nat)
    requires x <= y
    ensures p * x <= p * y
  {
  }

  lemma NextMultiple(a: nat, b: nat, p: nat)
    requires p > 0 && a % p == 0 && b % p == 0 && a < b
    ensures a + p <= b
  {
    var x, y := a / p, b / p;
    assert a == p * x && b == p * y;
    if y <= x { ProductMono(p, y, x); } else { ProductMono(p, x + 1, y); }
  }

  lemma StepOfMultiple(a: nat, p: nat)
    requires p > 0 && a % p == 0
    ensures (a + p) % p == 0 && (a + p) / p == a / p + 1
  {
    var x := a / p;
    assert a == p * x && a + p == p * (x + 1);
    MultipleOf(p, x + 1);
  }

  lemma MultipleOf(p: nat, x: nat)
    requires p > 0
    ensures (p * x) % p == 0 && (p * x) / p == x
  {
    if x > 0 {
      MultipleOf(p, x - 1);
      assert p * x == p * (x - 1) + p;
      AddPeriod(p * (x - 1), p);
    }
  }

  lemma AddPeriod(a: nat, p: nat)
    requires p > 0
    ensures (a + p) % p == a % p && (a + p) / p == a / p + 1
  {
    var q, r := a / p, a % p;
    assert a == p * q + r;
    assert a + p == p * (q + 1) + r;
    DivModUnique(a + p, p, q + 1, r);
  }

  lemma DivModUnique(a: nat, p: nat, q: nat, r: nat)
    requires p > 0 && a == p * q + r && r < p
    ensures a / p == q && a % p == r
  {
    var q', r' := a / p, a % p;
    assert a == p * q' + r';
    if q < q' { ProductMono(p, q + 1, q'); } else if q' < q { ProductMono(p, q' + 1, q); }
  }

  ghost predicate Increasing(ts: seq<nat>) { forall i, j :: 0 <= i < j < |ts| ==> ts[i] < ts[j] }

  /** The periodic times are the multiples of the period in range, in order, and there are as many as the
      integer quotients say. */
  lemma {:induction false} PeriodicTimesAreTheMultiples(first: nat, period: nat, until: nat)
    requires period > 0 && first % period == 0
    ensures var ts := PeriodicTimes(first, period, until);
            && Increasing(ts)
            && (forall t :: t in ts <==> first <= t <= until && t % period == 0)
            && (first <= until ==> |ts| == until / period - first / period + 1)
            && (first > until ==> ts == [])
    decreases until + 1 - first
  {
    if first <= until {
      StepOfMultiple(first, period);
      PeriodicTimesAreTheMultiples(first + period, period, until);
      var rest := PeriodicTimes(first + period, period, until);
      forall t | first <= t <= until && t % period == 0 && t != first ensures t in rest {
        NextMultiple(first, t, period);
      }
      forall j | 0 <= j < |rest| ensures first < rest[j] {
        assert rest[j] in rest;
      }
      if first + period > until {
        QuotientBetween(first, until, period);
      }
    }
  }

  lemma QuotientBetween(a: nat, b: nat, p: nat)
    requires p > 0 && a % p == 0 && a <= b < a + p
    ensures b / p == a / p
  {
    assert a == p * (a / p);
    DivModUnique(b, p, a / p, b - a);
  }

  lemma {:induction false} IncreasingIsUnique(s: seq<nat>, t: seq<nat>)
    requires Increasing(s) && Increasing(t) && (forall x :: x in s <==> x in t)
    ensures s == t
  {
    assert s != [] ==> s[0] in s;
    assert t != [] ==> t[0] in t;
    if s != [] && t != [] {
      assert s[0] in t && t[0] in s;
      forall x ensures x in s[1..] <==> x in t[1..] {
        assert x in s <==> x == s[0] || x in s[1..];
        assert x in t <==> x == t[0] || x in t[1..];
      }
      IncreasingIsUnique(s[1..], t[1..]);
    }
  }
}
