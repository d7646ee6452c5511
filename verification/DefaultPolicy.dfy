/** The reference policy script (scripts/policy_default.lua): per-axis relief windows over one KV budget. */
module DefaultPolicy {
  import opened Wrappers

  datatype Axis = Memory | Gpu | Thermal | Latency

  const AXES: seq<Axis> := [Memory, Gpu, Thermal, Latency]

  function Place(a: Axis): (i: nat)
    ensures i < |AXES| && AXES[i] == a
  {
    match a case Memory => 0 case Gpu => 1 case Thermal => 2 case Latency => 3
  }

  function Enter(a: Axis): real {
    match a case Memory => 0.80 case Gpu => 0.85 case Thermal => 0.75 case Latency => 0.30
  }

  function Exit(a: Axis): real {
    match a case Memory => 0.80 case Gpu => 0.60 case Thermal => 0.55 case Latency => 0.10
  }

  const B_MAX: real := 0.90
  const B_MIN: real := 0.25
  const B_STEP: real := 0.05

  datatype Pressure = Pressure(memory: real, gpu: real, thermal: real, latency: real)
  {
    function At(a: Axis): real {
      match a case Memory => memory case Gpu => gpu case Thermal => thermal case Latency => latency
    }

    /** How far `a` is past its own enter threshold. */
    function Excess(a: Axis): real { At(a) - Enter(a) }
  }

  datatype Context = Context(seen: bool, pressure: Pressure)

  datatype Action = KvCompress(budget: real) | RestoreDefaults

  /** The script's upvalues. */
  datatype Window = Window(relieving: set<Axis>, applied: Option<real>)

  const CLOSED := Window({}, None)

  // ---------- most_stressed ----------

  /** `a` has the largest excess, and no axis listed before it does as badly. */
  ghost predicate IsMostStressed(p: Pressure, a: Axis, axes: seq<Axis>) {
    exists i :: 0 <= i < |axes| && axes[i] == a
      && (forall j :: 0 <= j < |axes| ==> p.Excess(axes[j]) <= p.Excess(a))
      && (forall j :: 0 <= j < i ==> p.Excess(axes[j]) < p.Excess(a))
  }

  function MostStressed(p: Pressure): (worst: Axis)
    ensures IsMostStressed(p, worst, AXES)
    ensures forall a: Axis :: p.Excess(a) <= p.Excess(worst)
  {
    var m, g, t, l := p.Excess(Memory), p.Excess(Gpu), p.Excess(Thermal), p.Excess(Latency);
    var r := if m >= g && m >= t && m >= l then Memory
             else if g >= t && g >= l then Gpu
             else if t >= l then Thermal
             else Latency;
    assert AXES[Place(r)] == r;
    r
  }

  lemma MostStressedIsUnique(p: Pressure, a: Axis, b: Axis)
    requires IsMostStressed(p, a, AXES) && IsMostStressed(p, b, AXES)
    ensures a == b
  {
  }

  method FindMostStressed(p: Pressure) returns (worst: Axis)
    ensures worst == MostStressed(p)
  {
    var best: Option<Axis> := None;
    ghost var found := 0;
    for k := 0 to |AXES|
      invariant k == 0 <==> best == None
      invariant k > 0 ==> 0 <= found < k && AXES[found] == best.value
      invariant forall j :: 0 <= j < k ==> p.Excess(AXES[j]) <= p.Excess(best.value)
      invariant forall j :: 0 <= j < found && j < k ==> p.Excess(AXES[j]) < p.Excess(best.value)
    {
      var a := AXES[k];
      if best == None || p.Excess(a) > p.Excess(best.value) {
        best := Some(a);
        found := k;
      }
    }
    worst := best.value;
    assert AXES[found] == worst;
    MostStressedIsUnique(p, worst, MostStressed(p));
  }

  // ---------- the budget ramp ----------

  function RMin(a: real, b: real): real { if a <= b then a else b }

  function RMax(a: real, b: real): real { if a >= b then a else b }

  /** Pressure past the enter threshold, as a fraction of the room left up to 1. */
  function Over(pressure: real, a: Axis): real {
    var span := 1.0 - Enter(a);
    RMin(RMax((pressure - Enter(a)) / span, 0.0), 1.0)
  }

  /** The ramp's rungs: 5 stands for 0.25 and 18 for 0.90. */
  function Rung(k: int): real { k as real * B_STEP }

  function Quantize(budget: real): real {
    RMin(RMax(Rung((budget / B_STEP + 0.5).Floor), B_MIN), B_MAX)
  }

  function Budget(pressure: real, a: Axis): real {
    Quantize(B_MAX - Over(pressure, a) * (B_MAX - B_MIN))
  }

  ghost predicate OnRamp(b: real) {
    exists k :: 5 <= k <= 18 && b == Rung(k)
  }

  lemma QuantizeIsOnRamp(budget: real)
    ensures OnRamp(Quantize(budget))
  {
    var k := (budget / B_STEP + 0.5).Floor;
    assert B_MIN == Rung(5) && B_MAX == Rung(18);
    assert Quantize(budget) == Rung(if k < 5 then 5 else if k > 18 then 18 else k);
  }

  /** More pressure on an axis never asks to keep more of the cache. */
  lemma BudgetIsAntitone(p: real, q: real, a: Axis)
    requires p <= q
    ensures Budget(p, a) >= Budget(q, a)
  {
    OverIsMonotone(p, q, a);
    QuantizeIsMonotone(B_MAX - Over(q, a) * (B_MAX - B_MIN), B_MAX - Over(p, a) * (B_MAX - B_MIN));
  }

  lemma OverIsMonotone(p: real, q: real, a: Axis)
    requires p <= q
    ensures Over(p, a) <= Over(q, a)
  {
    match a case Memory => case Gpu => case Thermal => case Latency =>
  }

  lemma QuantizeIsMonotone(x: real, y: real)
    requires x <= y
    ensures Quantize(x) <= Quantize(y)
  {
    assert (x / B_STEP + 0.5).Floor <= (y / B_STEP + 0.5).Floor;
  }

  // ---------- decide ----------

  function StillRelieving(relieving: set<Axis>, p: Pressure): set<Axis> {
    set a | a in relieving && p.At(a) >= Exit(a)
  }

  function Step(w: Window, ctx: Context): (Window, Option<Action>) {
    if !ctx.seen then (w, None)
    else
      var p := ctx.pressure;
      var still := StillRelieving(w.relieving, p);
      if w.applied.Some? && still == {} then (Window(still, None), Some(RestoreDefaults))
      else
        var a := MostStressed(p);
        if a !in still && p.At(a) < Enter(a) then (Window(still, w.applied), None)
        else
          var budget := Budget(p.At(a), a);
          if w.applied.Some? && budget >= w.applied.value
          then (Window(still + {a}, w.applied), None)
          else (Window(still + {a}, Some(budget)), Some(KvCompress(budget)))
  }

  class Policy {
    var relieving: set<Axis>
    var applied: Option<real>

    function View(): Window
      reads this
    {
      Window(relieving, applied)
    }

    constructor ()
      ensures View() == CLOSED
    {
      relieving, applied := {}, None;
    }

    method Decide(ctx: Context) returns (action: Option<Action>)
      modifies this
      ensures (View(), action) == Step(old(View()), ctx)
    {
      if !ctx.seen {
        return None;
      }
      var p := ctx.pressure;
      var stillRelieving := false;
      var k := 0;
      while k < |AXES|
        invariant 0 <= k <= |AXES|
        invariant forall i :: 0 <= i < k ==> (AXES[i] in relieving <==> AXES[i] in old(relieving) && p.At(AXES[i]) >= Exit(AXES[i]))
        invariant forall i :: k <= i < |AXES| ==> (AXES[i] in relieving <==> AXES[i] in old(relieving))
        invariant stillRelieving <==> exists i :: 0 <= i < k && AXES[i] in relieving
        invariant applied == old(applied)
      {
        var axis := AXES[k];
        if axis in relieving {
          if p.At(axis) < Exit(axis) {
            relieving := relieving - {axis};
          } else {
            stillRelieving := true;
          }
        }
        k := k + 1;
      }
      forall a: Axis ensures a in relieving <==> a in StillRelieving(old(relieving), p) {
        assert AXES[Place(a)] == a;
      }
      assert relieving == StillRelieving(old(relieving), p);
      if a :| a in relieving {
        assert AXES[Place(a)] in relieving;
      }
      if applied.Some? && !stillRelieving {
        applied := None;
        return Some(RestoreDefaults);
      }
      var a := FindMostStressed(p);
      if a !in relieving && p.At(a) < Enter(a) {
        return None;
      }
      relieving := relieving + {a};
      var budget := Budget(p.At(a), a);
      if applied.Some? && budget >= applied.value {
        return None;
      }
      applied := Some(budget);
      return Some(KvCompress(budget));
    }
  }

  // ---------- what one call keeps and promises ----------

  /** A budget is in force exactly while some axis is being relieved. */
  ghost predicate Consistent(w: Window) {
    && (w.applied.Some? <==> w.relieving != {})
    && (w.applied.Some? ==> OnRamp(w.applied.value))
  }

  lemma StepKeepsConsistent(w: Window, ctx: Context)
    requires Consistent(w)
    ensures Consistent(Step(w, ctx).0)
  {
    if ctx.seen {
      var a := MostStressed(ctx.pressure);
      QuantizeIsOnRamp(B_MAX - Over(ctx.pressure.At(a), a) * (B_MAX - B_MIN));
      assert a in Step(w, ctx).0.relieving || Step(w, ctx).0.relieving == StillRelieving(w.relieving, ctx.pressure);
    }
  }

  /** The cache is given back exactly when a window is open and every relieved axis has fallen under its
      own exit threshold; no other axis can keep the window open or close it. */
  lemma RestoreIffEveryRelievedAxisCooled(w: Window, ctx: Context)
    requires Consistent(w) && ctx.seen
    ensures Step(w, ctx).1 == Some(RestoreDefaults)
      <==> w.relieving != {} && forall a :: a in w.relieving ==> ctx.pressure.At(a) < Exit(a)
    ensures Step(w, ctx).1 == Some(RestoreDefaults) ==> Step(w, ctx).0 == CLOSED
  {
    var still := StillRelieving(w.relieving, ctx.pressure);
    assert still == {} <==> forall a :: a in w.relieving ==> a !in still;
  }

  /** After any acting call: relieved axes are still at or over exit, and an axis at or over enter means a
      window is open that is at least as tight as the worst axis asks. */
  lemma StepServesTheWorstAxis(w: Window, ctx: Context)
    requires Consistent(w) && ctx.seen
    ensures var (w', action) := Step(w, ctx);
      && (forall a :: a in w'.relieving ==> ctx.pressure.At(a) >= Exit(a))
      && (action != Some(RestoreDefaults) && (exists a :: ctx.pressure.At(a) >= Enter(a)) ==>
            var worst := MostStressed(ctx.pressure);
            var wanted := Budget(ctx.pressure.At(worst), worst);
            && worst in w'.relieving
            && w'.applied == Some(if w.applied.Some? then RMin(w.applied.value, wanted) else wanted))
  {
    var p := ctx.pressure;
    var worst := MostStressed(p);
    if a :| p.At(a) >= Enter(a) {
      assert p.Excess(a) <= p.Excess(worst);
    }
  }

  /** Giving the cache back out of this window always means that every axis is under its enter threshold. */
  ghost predicate RestoreMeansHeadroom(w: Window) {
    forall ctx: Context :: ctx.seen && Step(w, ctx).1 == Some(RestoreDefaults) ==> forall a :: ctx.pressure.At(a) < Enter(a)
  }

  /** Main result: that holds exactly of a closed window, which has nothing to give back, and of one in which
      every axis is being relieved. An axis without a window of its own can be over enter at the very moment
      the others let go. */
  lemma RestoreMeansHeadroomIffAllRelieved(w: Window)
    requires Consistent(w)
    ensures RestoreMeansHeadroom(w) <==> (w.relieving == {} || forall a: Axis :: a in w.relieving)
  {
    if w.relieving == {} || forall a: Axis :: a in w.relieving {
      forall ctx: Context, a | ctx.seen && Step(w, ctx).1 == Some(RestoreDefaults) ensures ctx.pressure.At(a) < Enter(a) {
        RestoreIffEveryRelievedAxisCooled(w, ctx);
        hide Step;
        ExitIsAtMostEnter(a);
        assert a in w.relieving;
      }
    } else {
      var b: Axis :| b !in w.relieving;
      var ctx := Context(true, Only(b, 1.0));
      RestoreIffEveryRelievedAxisCooled(w, ctx);
      assert ctx.pressure.At(b) >= Enter(b);
      assert Step(w, ctx).1 == Some(RestoreDefaults);
    }
  }

  lemma ExitIsAtMostEnter(a: Axis)
    ensures 0.0 < Exit(a) <= Enter(a) < 1.0
  {
  }

  /** Pressure on one axis and none on the others. */
  function Only(a: Axis, x: real): Pressure {
    Pressure(if a == Memory then x else 0.0, if a == Gpu then x else 0.0,
             if a == Thermal then x else 0.0, if a == Latency then x else 0.0)
  }

  /** Then the same reading opens a new window on the very next call. */
  lemma RestoreReopensIffUnderPressure(w: Window, ctx: Context)
    requires Consistent(w) && ctx.seen && Step(w, ctx).1 == Some(RestoreDefaults)
    ensures Step(Step(w, ctx).0, ctx).1.Some? <==> exists a :: ctx.pressure.At(a) >= Enter(a)
    ensures Step(Step(w, ctx).0, ctx).1.Some? ==>
      var worst := MostStressed(ctx.pressure);
      Step(Step(w, ctx).0, ctx).1 == Some(KvCompress(Budget(ctx.pressure.At(worst), worst)))
  {
    RestoreIffEveryRelievedAxisCooled(w, ctx);
    StepServesTheWorstAxis(CLOSED, ctx);
  }

  /** Two readings from a fresh start: a memory spike, and then a busy GPU with the memory free again. */
  lemma RestoreUnderPressureHappens()
    ensures var spike := Step(CLOSED, Context(true, Pressure(0.92, 0.0, 0.0, 0.0)));
            var next := Context(true, Pressure(0.5, 0.95, 0.0, 0.0));
            && spike == (Window({Memory}, Some(Rung(10))), Some(KvCompress(Rung(10))))
            && Step(spike.0, next).1 == Some(RestoreDefaults)
            && next.pressure.At(Gpu) >= Enter(Gpu)
  {
    var p := Pressure(0.92, 0.0, 0.0, 0.0);
    assert MostStressed(p) == Memory;
    assert Over(0.92, Memory) == 0.6;
    assert (B_MAX - Over(0.92, Memory) * (B_MAX - B_MIN)) / B_STEP + 0.5 == 10.7;
    assert (10.7).Floor == 10;
    assert Budget(0.92, Memory) == Rung(10);
    assert StillRelieving({}, p) == {} && {} + {Memory} == {Memory};
    assert StillRelieving({Memory}, Pressure(0.5, 0.95, 0.0, 0.0)) == {};
  }

  /** Of the two ways to answer nothing without a restore, one leaves the worst axis without a window, and only
      that one means headroom everywhere; the other is the ratchet. */
  lemma NothingWithoutWindowMeansHeadroom(w: Window, ctx: Context)
    requires ctx.seen && Step(w, ctx).1 == None
    ensures MostStressed(ctx.pressure) !in Step(w, ctx).0.relieving ==> forall a :: ctx.pressure.At(a) < Enter(a)
    ensures MostStressed(ctx.pressure) in Step(w, ctx).0.relieving ==>
      var worst := MostStressed(ctx.pressure);
      w.applied.Some? && w.applied.value <= Budget(ctx.pressure.At(worst), worst)
  {
    var p := ctx.pressure;
    forall a | MostStressed(p) !in Step(w, ctx).0.relieving ensures p.At(a) < Enter(a) {
      assert p.Excess(a) <= p.Excess(MostStressed(p));
    }
  }

  /** The ratchet's nothing under pressure: a window that is already as tight as it gets. */
  lemma RatchetIsSilentUnderPressure()
    ensures Step(Window({Memory}, Some(Rung(5))), Context(true, Only(Memory, 0.95))).1 == None
  {
    var p := Only(Memory, 0.95);
    assert MostStressed(p) == Memory;
    QuantizeIsOnRamp(B_MAX - Over(0.95, Memory) * (B_MAX - B_MIN));
    assert Memory in StillRelieving({Memory}, p);
  }

  // ---------- does the worst axis ask for the least ----------

  /** The room an axis has between its enter threshold and full pressure. */
  function Span(a: Axis): real { 1.0 - Enter(a) }

  /** When `w` is worst and calls for relief, what it asks for is tight enough for `a` too. */
  ghost predicate Serves(p: Pressure, w: Axis, a: Axis) {
    MostStressed(p) == w && p.At(w) >= Enter(w) ==> Budget(p.At(w), w) <= Budget(p.At(a), a)
  }

  lemma NarrowerServes(p: Pressure, w: Axis, a: Axis)
    requires Span(w) <= Span(a)
    ensures Serves(p, w, a)
  {
    hide MostStressed, Quantize;
    if MostStressed(p) == w && p.At(w) >= Enter(w) {
      assert p.Excess(a) <= p.Excess(w);
      ShareIsMonotone(p.Excess(a), p.Excess(w), Span(w), Span(a));
      QuantizeIsMonotone(B_MAX - Over(p.At(w), w) * (B_MAX - B_MIN), B_MAX - Over(p.At(a), a) * (B_MAX - B_MIN));
    }
  }

  lemma ShareIsMonotone(x: real, y: real, narrow: real, wide: real)
    requires x <= y && 0.0 <= y && 0.0 < narrow <= wide
    ensures RMin(RMax(x / wide, 0.0), 1.0) <= RMin(RMax(y / narrow, 0.0), 1.0)
  {
    if x > 0.0 {
      QuotientMono(x, y, narrow, wide);
    } else {
      var q := x / wide;
      assert q * wide == x;
      assert q <= 0.0;
    }
  }

  lemma QuotientMono(x: real, y: real, narrow: real, wide: real)
    requires 0.0 < x <= y && 0.0 < narrow <= wide
    ensures x / wide <= y / narrow
  {
    var q := x / wide;
    assert q * wide == x && q >= 0.0;
    assert q * narrow <= q * wide;
    assert q * narrow <= y;
  }

  /** An axis with more room can be worst while one with less room is at its limit and wants everything. */
  function Crowded(w: Axis, a: Axis): Pressure {
    var x := Enter(w) + Span(a) + 0.001;
    Pressure(if w == Memory then x else if a == Memory then 1.0 else 0.0, if w == Gpu then x else if a == Gpu then 1.0 else 0.0,
             if w == Thermal then x else if a == Thermal then 1.0 else 0.0, if w == Latency then x else if a == Latency then 1.0 else 0.0)
  }

  lemma CrowdedIsWorst(w: Axis, a: Axis)
    requires w != a
    ensures MostStressed(Crowded(w, a)) == w
  {
    var p := Crowded(w, a);
    forall b: Axis | b != w ensures p.Excess(b) < p.Excess(w) {
    }
  }

  lemma FullPressureWantsAll(a: Axis)
    ensures Budget(1.0, a) == B_MIN
  {
    FullShare(a);
    hide Over, Enter;
    var x := (B_MAX - 1.0 * (B_MAX - B_MIN)) / B_STEP + 0.5;
    assert x == 5.5 && x.Floor == 5;
  }

  lemma FullShare(a: Axis)
    ensures Over(1.0, a) == 1.0
  {
    var span := 1.0 - Enter(a);
    assert (1.0 - Enter(a)) / span == 1.0;
  }

  lemma CrowdedShare(w: Axis, a: Axis)
    requires Span(w) > Span(a)
    ensures Over(Enter(w) + Span(a) + 0.001, w) <= 0.9
  {
    var q := (Span(a) + 0.001) / Span(w);
    assert q * Span(w) == Span(a) + 0.001;
  }

  lemma PartPressureKeepsSome(y: real, w: Axis)
    requires Over(y, w) <= 0.9
    ensures Budget(y, w) > B_MIN
  {
    var over := Over(y, w);
    hide Over;
    var x := (B_MAX - over * (B_MAX - B_MIN)) / B_STEP + 0.5;
    assert x >= 6.0;
    assert x.Floor >= 6;
  }

  lemma WiderFails(w: Axis, a: Axis)
    requires Span(w) > Span(a)
    ensures !Serves(Crowded(w, a), w, a)
  {
    CrowdedIsWorst(w, a);
    assert Crowded(w, a).At(w) == Enter(w) + Span(a) + 0.001 && Crowded(w, a).At(a) == 1.0;
    hide MostStressed, Budget, Over;
    FullPressureWantsAll(a);
    CrowdedShare(w, a);
    PartPressureKeepsSome(Enter(w) + Span(a) + 0.001, w);
  }

  /** Main result: the worst axis always serves another exactly when it has no more room than that one. */
  lemma WorstServesIffNarrower(w: Axis, a: Axis)
    ensures (forall p :: Serves(p, w, a)) <==> Span(w) <= Span(a)
  {
    if Span(w) <= Span(a) {
      forall p ensures Serves(p, w, a) {
        NarrowerServes(p, w, a);
      }
    } else {
      WiderFails(w, a);
    }
  }

  /** So of the four axes only the GPU, when it is worst, always serves every other. */
  lemma OnlyGpuServesAll(w: Axis)
    ensures (forall p, a :: Serves(p, w, a)) <==> w == Gpu
  {
    if w == Gpu {
      forall p, a ensures Serves(p, w, a) {
        NarrowerServes(p, w, a);
      }
    } else {
      WiderFails(w, Gpu);
    }
  }

  /** A reading that shows it: the window keeps more of the cache than the memory axis alone would have asked for. */
  lemma WorstAxisNeedNotAskForLeast()
    ensures var p := Pressure(0.95, 0.0, 0.0, 0.50);
            && p.At(Memory) >= Enter(Memory)
            && Step(CLOSED, Context(true, p)).0.applied == Some(Rung(14))
            && Budget(p.At(Memory), Memory) == Rung(8)
  {
    var p := Pressure(0.95, 0.0, 0.0, 0.50);
    assert MostStressed(p) == Latency;
    TwoBudgets();
    hide Budget, MostStressed;
  }

  lemma TwoBudgets()
    ensures Budget(0.50, Latency) == Rung(14) && Budget(0.95, Memory) == Rung(8)
  {
    var x := B_MAX - Over(0.50, Latency) * (B_MAX - B_MIN);
    assert x / B_STEP + 0.5 >= 14.0 && x / B_STEP + 0.5 < 15.0;
    assert (x / B_STEP + 0.5).Floor == 14;
    var y := B_MAX - Over(0.95, Memory) * (B_MAX - B_MIN);
    assert (y / B_STEP + 0.5).Floor == 8;
  }

  // ---------- the script in its own numbers ----------

  /** A whole multiple of 0.05 between 0.25 and 0.90. */
  predicate IsTwentieth(b: real) {
    0.25 <= b <= 0.90 && (20.0 * b).Floor as real == 20.0 * b
  }

  /** Rounding goes to the nearest rung, and up from the middle. */
  lemma QuantizeIsNearest(x: real)
    requires 0.25 <= x <= 0.90
    ensures IsTwentieth(Quantize(x)) && -0.025 < Quantize(x) - x <= 0.025
  {
    var k := (x / B_STEP + 0.5).Floor;
    assert 5 <= k <= 18;
    assert Quantize(x) == Rung(k) && 20.0 * Rung(k) == k as real;
  }

  lemma BudgetIsNearest(pressure: real, a: Axis)
    requires pressure >= Enter(a)
    ensures var share := (pressure - Enter(a)) / (1.0 - Enter(a));
            var exact := 0.90 - 0.65 * (if share > 1.0 then 1.0 else share);
            IsTwentieth(Budget(pressure, a)) && -0.025 < Budget(pressure, a) - exact <= 0.025
  {
    assert Over(pressure, a) >= 0.0;
    var over := Over(pressure, a);
    QuantizeIsNearest(B_MAX - over * (B_MAX - B_MIN));
    hide Quantize, IsTwentieth;
  }

  /** Main result for a closed window: nothing is asked for while every axis is under its enter threshold. Else the
      budget is the nearest twentieth to what the axis furthest past its threshold asks for, falling from 0.90 at
      the threshold to 0.25 at full pressure. Of equals the first in the list counts. */
  lemma FirstBudget(p: Pressure)
    ensures var memory, gpu, thermal, latency := p.memory - 0.80, p.gpu - 0.85, p.thermal - 0.75, p.latency - 0.30;
            var (excess, room) :=
              if memory >= gpu && memory >= thermal && memory >= latency then (memory, 0.20)
              else if gpu >= thermal && gpu >= latency then (gpu, 0.15)
              else if thermal >= latency then (thermal, 0.25)
              else (latency, 0.70);
            var action := Step(CLOSED, Context(true, p)).1;
            if excess < 0.0 then action == None
            else
              && action.Some? && action.value.KvCompress?
              && IsTwentieth(action.value.budget)
              && var exact := 0.90 - 0.65 * (if excess > room then 1.0 else excess / room);
                 -0.025 < action.value.budget - exact <= 0.025
  {
    var a := MostStressed(p);
    assert StillRelieving({}, p) == {};
    if p.At(a) >= Enter(a) {
      BudgetIsNearest(p.At(a), a);
      ShareOverOne(p.At(a) - Enter(a), 1.0 - Enter(a));
      hide Budget, IsTwentieth;
    }
  }

  lemma ShareOverOne(x: real, room: real)
    requires room > 0.0
    ensures x / room > 1.0 <==> x > room
  {
    var q := x / room;
    assert q * room == x;
    assert q > 1.0 ==> q * room > room;
    assert q <= 1.0 ==> q * room <= room;
  }

  /** The exit thresholds: a window of one axis is given back exactly when that axis falls under its own. */
  lemma ExitThresholds(w: Window, p: Pressure)
    requires Consistent(w)
    ensures var restores := Step(w, Context(true, p)).1 == Some(RestoreDefaults);
            && (w.relieving == {Memory} ==> (restores <==> p.memory < 0.80))
            && (w.relieving == {Gpu} ==> (restores <==> p.gpu < 0.60))
            && (w.relieving == {Thermal} ==> (restores <==> p.thermal < 0.55))
            && (w.relieving == {Latency} ==> (restores <==> p.latency < 0.10))
  {
    RestoreIffEveryRelievedAxisCooled(w, Context(true, p));
    hide Step;
    assert Memory in {Memory} && Gpu in {Gpu} && Thermal in {Thermal} && Latency in {Latency};
  }

  /** Before the first heartbeat the script answers nothing and remembers everything. */
  lemma UnseenIsSilent(w: Window, p: Pressure)
    ensures Step(w, Context(false, p)) == (w, None)
  {
  }

  // ---------- whole runs ----------

  /** The window after all of `ctxs`. */
  function After(w: Window, ctxs: seq<Context>): Window
    decreases |ctxs|
  {
    if ctxs == [] then w else After(Step(w, ctxs[0]).0, ctxs[1..])
  }

  /** The non-nil results, in order. */
  function Emitted(w: Window, ctxs: seq<Context>): seq<Action>
    decreases |ctxs|
  {
    if ctxs == [] then []
    else
      var (w', action) := Step(w, ctxs[0]);
      (if action.Some? then [action.value] else []) + Emitted(w', ctxs[1..])
  }

  /** Windows one after the other: compressions at strictly falling rungs, then one restore.
      `open` is the budget of the window the sequence starts in. */
  ghost predicate Windows(open: Option<real>, actions: seq<Action>)
    decreases |actions|
  {
    actions == [] ||
    match actions[0]
    case KvCompress(b) => OnRamp(b) && (open.Some? ==> b < open.value) && Windows(Some(b), actions[1..])
    case RestoreDefaults => open.Some? && Windows(None, actions[1..])
  }

  /** What one call may emit, seen from the budget in force. */
  lemma StepEmitsNext(w: Window, ctx: Context)
    ensures var (w', action) := Step(w, ctx);
            && (Consistent(w) ==> Consistent(w'))
            && match action
               case None => w'.applied == w.applied
               case Some(KvCompress(b)) => OnRamp(b) && (w.applied.Some? ==> b < w.applied.value) && w'.applied == Some(b)
               case Some(RestoreDefaults) => w.applied.Some? && w'.applied == None
  {
    if Consistent(w) {
      StepKeepsConsistent(w, ctx);
    }
    var a := MostStressed(ctx.pressure);
    QuantizeIsOnRamp(B_MAX - Over(ctx.pressure.At(a), a) * (B_MAX - B_MIN));
    hide Consistent;
  }

  /** From any window, even one that an interrupted call left inconsistent. */
  lemma {:induction false} RunEmitsWindows(w: Window, ctxs: seq<Context>)
    ensures Windows(w.applied, Emitted(w, ctxs))
    ensures Consistent(w) ==> Consistent(After(w, ctxs))
    decreases |ctxs|
  {
    hide Step, Consistent, OnRamp;
    if ctxs != [] {
      StepEmitsNext(w, ctxs[0]);
      var (w', action) := Step(w, ctxs[0]);
      RunEmitsWindows(w', ctxs[1..]);
      if action.Some? {
        assert Emitted(w, ctxs)[1..] == Emitted(w', ctxs[1..]);
      } else {
        assert Emitted(w, ctxs) == Emitted(w', ctxs[1..]);
      }
    }
  }

  /** Rungs strictly under `open`. */
  ghost predicate Room(open: Option<real>, room: int) {
    match open
    case None => room == 14
    case Some(b) => exists k :: 5 <= k <= 18 && b == Rung(k) && room == k - 5
  }

  lemma {:induction false} WindowsFrom(open: Option<real>, actions: seq<Action>, i: nat) returns (open': Option<real>)
    requires Windows(open, actions) && i <= |actions| && (open.Some? ==> OnRamp(open.value))
    ensures Windows(open', actions[i..]) && (open'.Some? ==> OnRamp(open'.value))
    decreases i
  {
    if i == 0 {
      open' := open;
      assert actions[0..] == actions;
    } else {
      open' := WindowsFrom(if actions[0].KvCompress? then Some(actions[0].budget) else None, actions[1..], i - 1);
      assert actions[1..][i - 1..] == actions[i..];
    }
  }

  lemma {:induction false} CompressionsFitTheRoom(open: Option<real>, actions: seq<Action>, n: nat, room: int)
    requires Windows(open, actions) && n <= |actions| && Room(open, room)
    requires forall i :: 0 <= i < n ==> actions[i].KvCompress?
    ensures n <= room
    ensures forall i :: 0 <= i < n ==> B_MIN <= actions[i].budget <= B_MAX && (open.Some? ==> actions[i].budget < open.value)
    ensures forall i, j :: 0 <= i < j < n ==> actions[j].budget < actions[i].budget
    decreases n
  {
    if n > 0 {
      var b := actions[0].budget;
      var k :| 5 <= k <= 18 && b == Rung(k);
      if open.Some? {
        var m :| 5 <= m <= 18 && open.value == Rung(m) && room == m - 5;
        assert k < m;
      }
      CompressionsFitTheRoom(Some(b), actions[1..], n - 1, k - 5);
      forall i, j | 0 <= i < j < n ensures actions[j].budget < actions[i].budget {
        assert actions[j] == actions[1..][j - 1];
        if i > 0 {
          assert actions[i] == actions[1..][i - 1];
        }
      }
    }
  }

  /** Main result: whatever the pressures do and however long the run, any stretch of directives with no
      restore in it is at most fourteen compressions, strictly tightening, all within the ramp. */
  lemma WindowEmitsAtMostFourteen(ctxs: seq<Context>, i: nat, j: nat)
    requires i <= j <= |Emitted(CLOSED, ctxs)|
    requires forall k :: i <= k < j ==> Emitted(CLOSED, ctxs)[k] != RestoreDefaults
    ensures j - i <= 14
    ensures forall k :: i <= k < j ==> B_MIN <= Emitted(CLOSED, ctxs)[k].budget <= B_MAX
    ensures forall k, l :: i <= k < l < j ==> Emitted(CLOSED, ctxs)[l].budget < Emitted(CLOSED, ctxs)[k].budget
  {
    var actions := Emitted(CLOSED, ctxs);
    RunEmitsWindows(CLOSED, ctxs);
    var open := WindowsFrom(None, actions, i);
    var tail := actions[i..];
    assert forall k :: 0 <= k < j - i ==> tail[k] == actions[i + k];
    var room := 14;
    if open.Some? {
      var k :| 5 <= k <= 18 && open.value == Rung(k);
      room := k - 5;
    }
    CompressionsFitTheRoom(open, tail, j - i, room);
    assert forall k :: i <= k < j ==> actions[k] == tail[k - i];
  }

  /** Memory pressure that asks for rung 18 - j. */
  function Climb(j: nat): Context { Context(true, Pressure(0.80 + 0.2 * j as real / 13.0, 0.0, 0.0, 0.0)) }

  lemma ClimbBudget(j: nat)
    requires j <= 13
    ensures MostStressed(Climb(j).pressure) == Memory && Budget(Climb(j).pressure.memory, Memory) == Rung(18 - j)
  {
    var p := Climb(j).pressure.memory;
    var x := j as real;
    assert p - Enter(Memory) == 0.2 * x / 13.0;
    assert Over(p, Memory) == x / 13.0;
    assert (B_MAX - Over(p, Memory) * (B_MAX - B_MIN)) / B_STEP + 0.5 == (18 - j) as real + 0.5;
    assert ((18 - j) as real + 0.5).Floor == 18 - j;
  }

  function Climbs(j: nat): seq<Context>
    requires j <= 14
    decreases 14 - j
  {
    if j == 14 then [] else [Climb(j)] + Climbs(j + 1)
  }

  lemma ClimbsStep(j: nat)
    requires j < 14
    ensures Climbs(j) == [Climb(j)] + Climbs(j + 1)
  {
  }

  function ClimbWindow(j: nat): Window { if j == 0 then CLOSED else Window({Memory}, Some(Rung(19 - j))) }

  lemma ClimbStep(j: nat)
    requires j <= 13
    ensures Step(ClimbWindow(j), Climb(j)) == (ClimbWindow(j + 1), Some(KvCompress(Rung(18 - j))))
  {
    var w, p := ClimbWindow(j), Climb(j).pressure;
    ClimbBudget(j);
    assert p.memory >= Exit(Memory);
    assert StillRelieving(w.relieving, p) == w.relieving;
    assert w.relieving + {Memory} == {Memory};
    assert j > 0 ==> Rung(18 - j) < Rung(19 - j);
  }

  lemma EmittedOfCons(w: Window, ctx: Context, rest: seq<Context>, w': Window, action: Action)
    requires Step(w, ctx) == (w', Some(action)) && action != RestoreDefaults
    ensures |Emitted(w, [ctx] + rest)| == 1 + |Emitted(w', rest)|
    ensures RestoreDefaults !in Emitted(w', rest) ==> RestoreDefaults !in Emitted(w, [ctx] + rest)
  {
    hide Step;
    assert ([ctx] + rest)[1..] == rest;
    assert Emitted(w, [ctx] + rest) == [action] + Emitted(w', rest);
  }

  lemma NothingEmitted(w: Window)
    ensures Climbs(14) == [] && Emitted(w, []) == []
  {
  }

  /** The bound is met: fourteen rising memory readings give fourteen compressions in one window. */
  lemma {:induction false} FourteenIsReached(j: nat)
    requires j <= 14
    ensures |Emitted(ClimbWindow(j), Climbs(j))| == 14 - j
    ensures RestoreDefaults !in Emitted(ClimbWindow(j), Climbs(j))
    decreases 14 - j
  {
    hide *;
    if j < 14 {
      ClimbsStep(j);
      ClimbStep(j);
      FourteenIsReached(j + 1);
      EmittedOfCons(ClimbWindow(j), Climb(j), Climbs(j + 1), ClimbWindow(j + 1), KvCompress(Rung(18 - j)));
    } else {
      NothingEmitted(ClimbWindow(j));
    }
  }

  /** No two directives in a row are the same command, whatever the pressures do. */
  lemma {:induction false} NeighboursDiffer(open: Option<real>, actions: seq<Action>)
    requires Windows(open, actions)
    ensures forall i :: 0 < i < |actions| ==> actions[i] != actions[i - 1]
    decreases |actions|
  {
    if |actions| >= 2 {
      NeighboursDiffer(if actions[0].KvCompress? then Some(actions[0].budget) else None, actions[1..]);
      forall i | 0 < i < |actions| ensures actions[i] != actions[i - 1] {
        if i > 1 {
          assert actions[i] == actions[1..][i - 1] && actions[i - 1] == actions[1..][i - 2];
        }
      }
    }
  }
}
