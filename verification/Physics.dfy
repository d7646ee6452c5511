/** Thermal and frequency dynamics of the simulator (src/sim/physics.rs). */
module Physics {
  import opened Numbers

  /** The exponential and the power are library functions. All that is used of them is that exp of a number
      that is not positive lies in (0, 1], and that a power of a number in [0, 1] stays in [0, 1]. */
  datatype Maths = Maths(exp: real -> real, pow: (real, real) -> real) {
    ghost predicate Valid() {
      && (forall x :: x <= 0.0 ==> 0.0 < exp(x) <= 1.0)
      && (forall r, e :: 0.0 <= r <= 1.0 && e >= 0.0 ==> 0.0 <= pow(r, e) <= 1.0)
    }
  }

  function LagStep(m: Maths, current: real, target: real, tau: real, dt: real): real {
    if tau <= 0.0 then target else current + (target - current) * (1.0 - m.exp(-dt / tau))
  }

  // ---------- small facts about real products ----------

  lemma RatioAtMostOne(x: real, y: real)
    requires 0.0 < y && x <= y
    ensures x / y <= 1.0 && y * (x / y) == x
    ensures 0.0 <= x ==> 0.0 <= x / y
  {
  }

  lemma Fraction(d: real, k: real) returns (p: real)
    requires 0.0 <= k <= 1.0
    ensures p == d * k
    ensures if d >= 0.0 then 0.0 <= p <= d else d <= p <= 0.0
  {
    if d >= 0.0 {
      p := PositiveFraction(d, k);
    } else {
      var q := PositiveFraction(-d, k);
      p := -q;
      Opposite(d, 0.0, k);
    }
  }

  lemma PositiveFraction(d: real, k: real) returns (p: real)
    requires d >= 0.0 && 0.0 <= k <= 1.0
    ensures p == d * k && 0.0 <= p <= d
  {
    p := d * k;
    Scale(d, k, 1.0);
  }

  /** A point between two others stays inside any interval that holds both. */
  lemma ConvexStays(a: real, b: real, k: real, lo: real, hi: real)
    requires lo <= a <= hi && lo <= b <= hi && 0.0 <= k <= 1.0
    ensures lo <= a + (b - a) * k <= hi
  {
    var p := Fraction(b - a, k);
    assert lo <= a + p <= hi;
  }

  lemma Opposite(a: real, b: real, k: real)
    ensures (b - a) * k == -((a - b) * k)
  {
  }

  /** First-order lag never leaves an interval that holds both the value and its target. */
  lemma LagStays(m: Maths, current: real, target: real, tau: real, dt: real, lo: real, hi: real)
    requires m.Valid() && dt >= 0.0 && lo <= current <= hi && lo <= target <= hi
    ensures lo <= LagStep(m, current, target, tau, dt) <= hi
  {
    if tau > 0.0 {
      DivideMono(-dt, 0.0, tau);
      ConvexStays(current, target, 1.0 - m.exp(-dt / tau), lo, hi);
    }
  }

  /** The distance left to the target is the exponential of -dt/tau of what it was; without a time constant nothing
      is left. */
  lemma LagLeavesExponential(m: Maths, current: real, target: real, tau: real, dt: real)
    ensures tau > 0.0 ==> target - LagStep(m, current, target, tau, dt) == (target - current) * m.exp(-dt / tau)
    ensures tau <= 0.0 ==> LagStep(m, current, target, tau, dt) == target
  {
    if tau > 0.0 {
      var e := m.exp(-dt / tau);
      assert (target - current) * (1.0 - e) == (target - current) - (target - current) * e;
    }
  }

  lemma QuotientsAdd(x: real, y: real, tau: real)
    requires tau > 0.0
    ensures -x / tau + -y / tau == -(x + y) / tau
  {
    var p, q := -x / tau, -y / tau;
    assert p * tau == -x && q * tau == -y;
    assert (p + q) * tau == -(x + y);
  }

  /** Main result on lag: two steps towards a target are one step of the time of both, so the outcome does not
      depend on how finely time is cut. */
  lemma LagComposes(m: Maths, current: real, target: real, tau: real, dt1: real, dt2: real)
    requires forall x, y :: m.exp(x + y) == m.exp(x) * m.exp(y)
    ensures LagStep(m, LagStep(m, current, target, tau, dt1), target, tau, dt2) == LagStep(m, current, target, tau, dt1 + dt2)
  {
    if tau > 0.0 {
      var middle := LagStep(m, current, target, tau, dt1);
      LagLeavesExponential(m, current, target, tau, dt1);
      LagLeavesExponential(m, middle, target, tau, dt2);
      LagLeavesExponential(m, current, target, tau, dt1 + dt2);
      QuotientsAdd(dt1, dt2, tau);
      var e1, e2, e := m.exp(-dt1 / tau), m.exp(-dt2 / tau), m.exp(-(dt1 + dt2) / tau);
      assert e == e1 * e2 by { assert m.exp(-dt1 / tau + -dt2 / tau) == e1 * e2; }
      hide LagStep;
      ProductAssociates(target - current, e1, e2);
    }
  }

  lemma ProductAssociates(x: real, y: real, z: real)
    ensures (x * y) * z == x * (y * z)
  {
  }

  // ---------- frequency scaling ----------

  datatype Dvfs = Dvfs(soft: real, hard: real, kThermal: real, tau: real)

  function Clamp(x: real, lo: real, hi: real): real
    requires lo <= hi
  {
    if x < lo then lo else if x > hi then hi else x
  }

  function Limited(ratio: real, minFreq: real, maxFreq: real): real
    requires 0.0 < maxFreq && minFreq <= maxFreq
  {
    RatioAtMostOne(minFreq, maxFreq);
    maxFreq * Clamp(ratio, minFreq / maxFreq, 1.0)
  }

  function Ramp(temp: real, c: Dvfs): real
    requires c.soft < c.hard
  {
    1.0 - c.kThermal * (temp - c.soft) / (c.hard - c.soft)
  }

  function DvfsTargetFreq(temp: real, c: Dvfs, minFreq: real, maxFreq: real): real
    requires 0.0 < maxFreq && minFreq <= maxFreq
  {
    if temp < c.soft then maxFreq
    else if temp >= c.hard then minFreq
    else
      Limited(Ramp(temp, c), minFreq, maxFreq)
  }

  /** The target is always an allowed frequency, whatever the thresholds and gain. */
  lemma DvfsTargetInRange(temp: real, c: Dvfs, minFreq: real, maxFreq: real)
    requires 0.0 < maxFreq && minFreq <= maxFreq
    ensures minFreq <= DvfsTargetFreq(temp, c, minFreq, maxFreq) <= maxFreq
  {
    hide Ramp, Limited;
    if c.soft <= temp < c.hard {
      LimitedInRange(Ramp(temp, c), minFreq, maxFreq);
    }
  }

  lemma LimitedInRange(ratio: real, minFreq: real, maxFreq: real)
    requires 0.0 < maxFreq && minFreq <= maxFreq
    ensures minFreq <= Limited(ratio, minFreq, maxFreq) <= maxFreq
  {
    RatioAtMostOne(minFreq, maxFreq);
    var r := Clamp(ratio, minFreq / maxFreq, 1.0);
    Scale(maxFreq, minFreq / maxFreq, r);
    Scale(maxFreq, r, 1.0);
  }

  lemma LimitedIsMonotone(r1: real, r2: real, minFreq: real, maxFreq: real)
    requires 0.0 < maxFreq && minFreq <= maxFreq && r1 <= r2
    ensures Limited(r1, minFreq, maxFreq) <= Limited(r2, minFreq, maxFreq)
  {
    RatioAtMostOne(minFreq, maxFreq);
    Scale(maxFreq, Clamp(r1, minFreq / maxFreq, 1.0), Clamp(r2, minFreq / maxFreq, 1.0));
  }

  lemma RampIsAntitone(t1: real, t2: real, c: Dvfs)
    requires c.kThermal >= 0.0 && t1 <= t2 && c.soft < c.hard
    ensures Ramp(t1, c) >= Ramp(t2, c)
  {
    Scale(c.kThermal, t1 - c.soft, t2 - c.soft);
    DivideMono(c.kThermal * (t1 - c.soft), c.kThermal * (t2 - c.soft), c.hard - c.soft);
  }

  /** A hotter cluster is never asked to run faster. */
  lemma DvfsTargetIsAntitone(t1: real, t2: real, c: Dvfs, minFreq: real, maxFreq: real)
    requires 0.0 < maxFreq && minFreq <= maxFreq && c.kThermal >= 0.0 && t1 <= t2
    ensures DvfsTargetFreq(t1, c, minFreq, maxFreq) >= DvfsTargetFreq(t2, c, minFreq, maxFreq)
  {
    DvfsTargetInRange(t1, c, minFreq, maxFreq);
    DvfsTargetInRange(t2, c, minFreq, maxFreq);
    hide Ramp, Limited;
    if c.soft <= t1 && t2 < c.hard {
      RampIsAntitone(t1, t2, c);
      LimitedIsMonotone(Ramp(t2, c), Ramp(t1, c), minFreq, maxFreq);
    }
  }

  /** The target is the maximum under the soft threshold, the minimum from the hard one on, and in between falls by
      the gain times the share of the way, cut off at the minimum and at the maximum. */
  lemma DvfsTargetOnTheRamp(temp: real, c: Dvfs, minFreq: real, maxFreq: real)
    requires 0.0 < maxFreq && minFreq <= maxFreq
    ensures temp < c.soft ==> DvfsTargetFreq(temp, c, minFreq, maxFreq) == maxFreq
    ensures c.soft <= temp && temp >= c.hard ==> DvfsTargetFreq(temp, c, minFreq, maxFreq) == minFreq
    ensures c.soft <= temp < c.hard ==>
      var wanted := maxFreq * (1.0 - c.kThermal * (temp - c.soft) / (c.hard - c.soft));
      DvfsTargetFreq(temp, c, minFreq, maxFreq) == if wanted < minFreq then minFreq else if wanted > maxFreq then maxFreq else wanted
  {
    if c.soft <= temp < c.hard {
      var ratio := Ramp(temp, c);
      RatioAtMostOne(minFreq, maxFreq);
      if ratio <= 1.0 {
        LimitedBelow(ratio, minFreq, maxFreq);
      }
      OverTheTop(ratio, maxFreq);
    }
  }

  lemma OverTheTop(ratio: real, maxFreq: real)
    requires 0.0 < maxFreq
    ensures ratio > 1.0 <==> maxFreq * ratio > maxFreq
  {
    assert maxFreq * ratio - maxFreq == maxFreq * (ratio - 1.0);
  }

  lemma LimitedBelow(ratio: real, minFreq: real, maxFreq: real)
    requires 0.0 < maxFreq && minFreq <= maxFreq && ratio <= 1.0
    ensures Limited(ratio, minFreq, maxFreq) == if maxFreq * ratio < minFreq then minFreq else maxFreq * ratio
  {
    RatioAtMostOne(minFreq, maxFreq);
    if ratio < minFreq / maxFreq {
      assert maxFreq * ratio < maxFreq * (minFreq / maxFreq);
    } else {
      Scale(maxFreq, minFreq / maxFreq, ratio);
    }
  }

  // ---------- thermal coupling ----------

  /** Heat exchanged between the clusters: one assignment per direction and cluster. */
  function Couple(cpu: real, gpu: real, cpuToGpu: real, gpuToCpu: real, dt: real): (real, real) {
    var gap := cpu - gpu;
    var cpu1 := cpu - cpuToGpu * gap * dt;
    var gpu1 := gpu + cpuToGpu * gap * dt;
    var gap2 := gpu - cpu;
    (cpu1 + gpuToCpu * gap2 * dt, gpu1 - gpuToCpu * gap2 * dt)
  }

  /** Coupling conserves the sum and scales the gap by 1 - 2 (cpuToGpu + gpuToCpu) dt. */
  lemma CouplingConservesHeat(cpu: real, gpu: real, a: real, b: real, dt: real)
    ensures var (c, g) := Couple(cpu, gpu, a, b, dt);
            && c + g == cpu + gpu
            && c - g == (1.0 - 2.0 * ((a + b) * dt)) * (cpu - gpu)
  {
    CoupleIsConvex(cpu, gpu, a, b, dt);
    var k := (a + b) * dt;
    Opposite(cpu, gpu, k);
    assert (1.0 - 2.0 * k) * (cpu - gpu) == (cpu - gpu) - 2.0 * ((cpu - gpu) * k);
  }

  /** Each cluster moves towards the other by the fraction (cpuToGpu + gpuToCpu) dt of the gap. */
  lemma CoupleIsConvex(cpu: real, gpu: real, a: real, b: real, dt: real)
    ensures Couple(cpu, gpu, a, b, dt).0 == cpu + (gpu - cpu) * ((a + b) * dt)
    ensures Couple(cpu, gpu, a, b, dt).1 == gpu + (cpu - gpu) * ((a + b) * dt)
  {
    Exchange(cpu - gpu, a, b, dt);
    Exchange(gpu - cpu, a, b, dt);
    assert a * (gpu - cpu) * dt == -(a * (cpu - gpu) * dt);
    assert b * (gpu - cpu) * dt == -(b * (cpu - gpu) * dt);
  }

  lemma Exchange(gap: real, a: real, b: real, dt: real)
    ensures a * gap * dt + b * gap * dt == gap * ((a + b) * dt)
  {
    assert a * gap * dt == gap * (a * dt);
    assert b * gap * dt == gap * (b * dt);
  }

  /** Both clusters are inside [lo, hi] after coupling when they were before. */
  predicate KeepsBand(a: real, b: real, dt: real, cpu: real, gpu: real, lo: real, hi: real) {
    lo <= cpu <= hi && lo <= gpu <= hi ==>
      && lo <= Couple(cpu, gpu, a, b, dt).0 <= hi
      && lo <= Couple(cpu, gpu, a, b, dt).1 <= hi
  }

  lemma CouplingKeepsBand(a: real, b: real, dt: real, cpu: real, gpu: real, lo: real, hi: real)
    requires 0.0 <= (a + b) * dt <= 1.0
    ensures KeepsBand(a, b, dt, cpu, gpu, lo, hi)
  {
    if lo <= cpu <= hi && lo <= gpu <= hi {
      CoupleIsConvex(cpu, gpu, a, b, dt);
      ConvexStays(cpu, gpu, (a + b) * dt, lo, hi);
      ConvexStays(gpu, cpu, (a + b) * dt, lo, hi);
    }
  }

  /** Coupling keeps every band that holds both clusters exactly when (cpuToGpu + gpuToCpu) dt is in [0, 1]. */
  lemma CouplingKeepsBandsIff(a: real, b: real, dt: real)
    ensures (forall cpu, gpu, lo, hi :: KeepsBand(a, b, dt, cpu, gpu, lo, hi)) <==> (0.0 <= (a + b) * dt <= 1.0)
  {
    if 0.0 <= (a + b) * dt <= 1.0 {
      forall cpu, gpu, lo, hi ensures KeepsBand(a, b, dt, cpu, gpu, lo, hi) {
        CouplingKeepsBand(a, b, dt, cpu, gpu, lo, hi);
      }
    } else {
      CoupleIsConvex(1.0, 0.0, a, b, dt);
      assert !KeepsBand(a, b, dt, 1.0, 0.0, 0.0, 1.0);
    }
  }

  // ---------- heating ----------

  datatype Thermal = Thermal(baseline: real, coeff: real, exponent: real, tau: real)

  /** Equilibrium temperature of a cluster under a load (percent) at a frequency. */
  function HeatTarget(m: Maths, d: Thermal, load: real, freq: real, maxFreq: real): real
    requires 0.0 < maxFreq
  {
    var excess := m.pow(freq / maxFreq, d.exponent) - 0.5;
    d.baseline + d.coeff * load + (if excess > 0.0 then excess else 0.0) * 20.0
  }

  lemma HeatTargetIsBounded(m: Maths, d: Thermal, load: real, maxLoad: real, freq: real, maxFreq: real)
    requires m.Valid() && d.coeff >= 0.0 && d.exponent >= 0.0
    requires 0.0 <= load <= maxLoad && 0.0 <= freq <= maxFreq && 0.0 < maxFreq
    ensures d.baseline <= HeatTarget(m, d, load, freq, maxFreq) <= d.baseline + d.coeff * maxLoad + 10.0
  {
    RatioAtMostOne(freq, maxFreq);
    Scale(d.coeff, 0.0, load);
    Scale(d.coeff, load, maxLoad);
  }

  /** Each percent of load adds the cluster's coefficient; a frequency whose power exceeds one half adds twenty
      degrees for the excess, so ten at full frequency, and a lower one adds nothing. */
  lemma HeatTargetParts(m: Maths, d: Thermal, load: real, more: real, freq: real, maxFreq: real)
    requires 0.0 < maxFreq
    ensures HeatTarget(m, d, load + more, freq, maxFreq) == HeatTarget(m, d, load, freq, maxFreq) + d.coeff * more
    ensures var r := m.pow(freq / maxFreq, d.exponent);
            HeatTarget(m, d, 0.0, freq, maxFreq) == d.baseline + (if r > 0.5 then 20.0 * r - 10.0 else 0.0)
  {
    assert d.coeff * (load + more) == d.coeff * load + d.coeff * more;
  }

  // ---------- the state and a step ----------

  datatype Config = Config(cpuDvfs: Dvfs, gpuDvfs: Dvfs, cpuHeat: Thermal, gpuHeat: Thermal,
                           cpuToGpu: real, gpuToCpu: real,
                           cpuMin: real, cpuMax: real, gpuMin: real, gpuMax: real)
  {
    ghost predicate Valid() { 0.0 < cpuMax && cpuMin <= cpuMax && 0.0 < gpuMax && gpuMin <= gpuMax }

    /** Frequencies and heating coefficients are not negative. */
    ghost predicate NonNegative() {
      && 0.0 <= cpuMin && 0.0 <= gpuMin
      && cpuHeat.coeff >= 0.0 && gpuHeat.coeff >= 0.0 && cpuHeat.exponent >= 0.0 && gpuHeat.exponent >= 0.0
    }
  }

  datatype State = State(cpuTemp: real, gpuTemp: real, cpuFreq: real, gpuFreq: real)

  /** Engine plus external load of one tick, in percent. */
  datatype Load = Load(cpu: real, gpu: real)

  function DvfsUpdate(m: Maths, c: Config, s: State, dt: real): State
    requires c.Valid()
  {
    s.(cpuFreq := LagStep(m, s.cpuFreq, DvfsTargetFreq(s.cpuTemp, c.cpuDvfs, c.cpuMin, c.cpuMax), c.cpuDvfs.tau, dt),
       gpuFreq := LagStep(m, s.gpuFreq, DvfsTargetFreq(s.gpuTemp, c.gpuDvfs, c.gpuMin, c.gpuMax), c.gpuDvfs.tau, dt))
  }

  function LaggedCpu(m: Maths, c: Config, s: State, l: Load, dt: real): real
    requires c.Valid()
  {
    LagStep(m, s.cpuTemp, HeatTarget(m, c.cpuHeat, l.cpu, s.cpuFreq, c.cpuMax), c.cpuHeat.tau, dt)
  }

  function LaggedGpu(m: Maths, c: Config, s: State, l: Load, dt: real): real
    requires c.Valid()
  {
    LagStep(m, s.gpuTemp, HeatTarget(m, c.gpuHeat, l.gpu, s.gpuFreq, c.gpuMax), c.gpuHeat.tau, dt)
  }

  function PassiveThermal(m: Maths, c: Config, s: State, l: Load, dt: real): State
    requires c.Valid()
  {
    var (cpu, gpu) := Couple(LaggedCpu(m, c, s, l, dt), LaggedGpu(m, c, s, l, dt), c.cpuToGpu, c.gpuToCpu, dt);
    s.(cpuTemp := cpu, gpuTemp := gpu)
  }

  class PhysicalState {
    const m: Maths
    const cfg: Config
    var cpuClusterThermalC: real
    var gpuClusterThermalC: real
    var cpuFreqMhz: real
    var gpuFreqMhz: real

    function View(): State
      reads this
    {
      State(cpuClusterThermalC, gpuClusterThermalC, cpuFreqMhz, gpuFreqMhz)
    }

    constructor (m: Maths, cfg: Config, s: State)
      ensures this.m == m && this.cfg == cfg && View() == s
    {
      this.m, this.cfg := m, cfg;
      cpuClusterThermalC, gpuClusterThermalC := s.cpuTemp, s.gpuTemp;
      cpuFreqMhz, gpuFreqMhz := s.cpuFreq, s.gpuFreq;
    }

    method UpdateDvfs(dt: real)
      requires cfg.Valid()
      modifies this
      ensures View() == DvfsUpdate(m, cfg, old(View()), dt)
    {
      hide LagStep, DvfsTargetFreq;
      var cpuTarget := DvfsTargetFreq(cpuClusterThermalC, cfg.cpuDvfs, cfg.cpuMin, cfg.cpuMax);
      cpuFreqMhz := LagStep(m, cpuFreqMhz, cpuTarget, cfg.cpuDvfs.tau, dt);
      var gpuTarget := DvfsTargetFreq(gpuClusterThermalC, cfg.gpuDvfs, cfg.gpuMin, cfg.gpuMax);
      gpuFreqMhz := LagStep(m, gpuFreqMhz, gpuTarget, cfg.gpuDvfs.tau, dt);
    }

    method UpdateThermal(l: Load, dt: real)
      requires cfg.Valid()
      modifies this
      ensures View() == PassiveThermal(m, cfg, old(View()), l, dt)
    {
      hide LagStep, HeatTarget;
      var cpuTarget := HeatTarget(m, cfg.cpuHeat, l.cpu, cpuFreqMhz, cfg.cpuMax);
      var gpuTarget := HeatTarget(m, cfg.gpuHeat, l.gpu, gpuFreqMhz, cfg.gpuMax);
      var newCpu := LagStep(m, cpuClusterThermalC, cpuTarget, cfg.cpuHeat.tau, dt);
      var newGpu := LagStep(m, gpuClusterThermalC, gpuTarget, cfg.gpuHeat.tau, dt);
      var gap := newCpu - newGpu;
      var cpu := newCpu - cfg.cpuToGpu * gap * dt;
      var gpu := newGpu + cfg.cpuToGpu * gap * dt;
      var gap2 := newGpu - newCpu;
      cpuClusterThermalC := cpu + cfg.gpuToCpu * gap2 * dt;
      gpuClusterThermalC := gpu - cfg.gpuToCpu * gap2 * dt;
    }
  }

  // ---------- each part of the state by its own numbers ----------

  /** What is left of a distance after a step. */
  function Remaining(m: Maths, distance: real, tau: real, dt: real): real {
    if tau <= 0.0 then 0.0 else distance * m.exp(-dt / tau)
  }

  /** Each frequency closes in on the target for its own temperature and limits, by its own time constant. */
  lemma DvfsIsPerCluster(m: Maths, c: Config, s: State, dt: real)
    requires c.Valid()
    ensures var s' := DvfsUpdate(m, c, s, dt);
            var cpu, gpu := DvfsTargetFreq(s.cpuTemp, c.cpuDvfs, c.cpuMin, c.cpuMax), DvfsTargetFreq(s.gpuTemp, c.gpuDvfs, c.gpuMin, c.gpuMax);
            && s'.cpuTemp == s.cpuTemp && s'.gpuTemp == s.gpuTemp
            && cpu - s'.cpuFreq == Remaining(m, cpu - s.cpuFreq, c.cpuDvfs.tau, dt)
            && gpu - s'.gpuFreq == Remaining(m, gpu - s.gpuFreq, c.gpuDvfs.tau, dt)
  {
    LagLeavesExponential(m, s.cpuFreq, DvfsTargetFreq(s.cpuTemp, c.cpuDvfs, c.cpuMin, c.cpuMax), c.cpuDvfs.tau, dt);
    LagLeavesExponential(m, s.gpuFreq, DvfsTargetFreq(s.gpuTemp, c.gpuDvfs, c.gpuMin, c.gpuMax), c.gpuDvfs.tau, dt);
    hide DvfsTargetFreq, LagStep;
  }

  /** Without coupling each temperature closes in on the equilibrium of its own load and frequency, by its own time
      constant, and the frequencies stay. */
  lemma HeatIsPerCluster(m: Maths, c: Config, s: State, l: Load, dt: real)
    requires c.Valid() && c.cpuToGpu == 0.0 && c.gpuToCpu == 0.0
    ensures var s' := PassiveThermal(m, c, s, l, dt);
            var cpu, gpu := HeatTarget(m, c.cpuHeat, l.cpu, s.cpuFreq, c.cpuMax), HeatTarget(m, c.gpuHeat, l.gpu, s.gpuFreq, c.gpuMax);
            && s'.cpuFreq == s.cpuFreq && s'.gpuFreq == s.gpuFreq
            && cpu - s'.cpuTemp == Remaining(m, cpu - s.cpuTemp, c.cpuHeat.tau, dt)
            && gpu - s'.gpuTemp == Remaining(m, gpu - s.gpuTemp, c.gpuHeat.tau, dt)
  {
    LagLeavesExponential(m, s.cpuTemp, HeatTarget(m, c.cpuHeat, l.cpu, s.cpuFreq, c.cpuMax), c.cpuHeat.tau, dt);
    LagLeavesExponential(m, s.gpuTemp, HeatTarget(m, c.gpuHeat, l.gpu, s.gpuFreq, c.gpuMax), c.gpuHeat.tau, dt);
    hide HeatTarget, LagStep;
  }

  /** A step moves the frequencies first, and the heat follows the new ones. */
  lemma StepHeatsAfterScaling(m: Maths, c: Config, s: State, l: Load, dt: real)
    requires c.Valid()
    ensures var s' := Step(m, c, s, l, dt);
            var f := DvfsUpdate(m, c, s, dt);
            && s'.cpuFreq == f.cpuFreq && s'.gpuFreq == f.gpuFreq
            && s'.cpuTemp + s'.gpuTemp == LaggedCpu(m, c, f, l, dt) + LaggedGpu(m, c, f, l, dt)
  {
    hide LagStep, HeatTarget, DvfsTargetFreq;
    var f := DvfsUpdate(m, c, s, dt);
    CouplingConservesHeat(LaggedCpu(m, c, f, l, dt), LaggedGpu(m, c, f, l, dt), c.cpuToGpu, c.gpuToCpu, dt);
  }

  // ---------- runs ----------

  function Step(m: Maths, c: Config, s: State, l: Load, dt: real): State
    requires c.Valid()
  {
    PassiveThermal(m, c, DvfsUpdate(m, c, s, dt), l, dt)
  }

  function Run(m: Maths, c: Config, s: State, loads: seq<Load>, dt: real): State
    requires c.Valid()
    decreases |loads|
  {
    if loads == [] then s else Run(m, c, Step(m, c, s, loads[0], dt), loads[1..], dt)
  }

  ghost predicate FreqsInRange(c: Config, s: State) {
    c.cpuMin <= s.cpuFreq <= c.cpuMax && c.gpuMin <= s.gpuFreq <= c.gpuMax
  }

  ghost predicate TempsInBand(s: State, lo: real, hi: real) {
    lo <= s.cpuTemp <= hi && lo <= s.gpuTemp <= hi
  }

  lemma DvfsKeepsFreqsInRange(m: Maths, c: Config, s: State, dt: real)
    requires m.Valid() && c.Valid() && dt >= 0.0 && FreqsInRange(c, s)
    ensures FreqsInRange(c, DvfsUpdate(m, c, s, dt))
  {
    DvfsTargetInRange(s.cpuTemp, c.cpuDvfs, c.cpuMin, c.cpuMax);
    DvfsTargetInRange(s.gpuTemp, c.gpuDvfs, c.gpuMin, c.gpuMax);
    hide DvfsTargetFreq, LagStep, Maths.Valid;
    var cpuTarget := DvfsTargetFreq(s.cpuTemp, c.cpuDvfs, c.cpuMin, c.cpuMax);
    var gpuTarget := DvfsTargetFreq(s.gpuTemp, c.gpuDvfs, c.gpuMin, c.gpuMax);
    LagStays(m, s.cpuFreq, cpuTarget, c.cpuDvfs.tau, dt, c.cpuMin, c.cpuMax);
    LagStays(m, s.gpuFreq, gpuTarget, c.gpuDvfs.tau, dt, c.gpuMin, c.gpuMax);
  }

  /** Targets inside the band keep both clusters inside it, provided the coupling is not too strong for the tick. */
  lemma ThermalKeepsBand(m: Maths, c: Config, s: State, l: Load, dt: real, lo: real, hi: real)
    requires m.Valid() && c.Valid() && dt >= 0.0 && 0.0 <= (c.cpuToGpu + c.gpuToCpu) * dt <= 1.0
    requires TempsInBand(s, lo, hi)
    requires lo <= HeatTarget(m, c.cpuHeat, l.cpu, s.cpuFreq, c.cpuMax) <= hi
    requires lo <= HeatTarget(m, c.gpuHeat, l.gpu, s.gpuFreq, c.gpuMax) <= hi
    ensures TempsInBand(PassiveThermal(m, c, s, l, dt), lo, hi)
  {
    hide HeatTarget, LagStep, Couple, Maths.Valid;
    LagStays(m, s.cpuTemp, HeatTarget(m, c.cpuHeat, l.cpu, s.cpuFreq, c.cpuMax), c.cpuHeat.tau, dt, lo, hi);
    LagStays(m, s.gpuTemp, HeatTarget(m, c.gpuHeat, l.gpu, s.gpuFreq, c.gpuMax), c.gpuHeat.tau, dt, lo, hi);
    CouplingKeepsBand(c.cpuToGpu, c.gpuToCpu, dt, LaggedCpu(m, c, s, l, dt), LaggedGpu(m, c, s, l, dt), lo, hi);
  }

  /** The band [lo, hi] holds the coolest and the hottest equilibrium of both clusters for loads up to maxLoad. */
  ghost predicate BandHoldsEquilibria(c: Config, maxLoad: real, lo: real, hi: real) {
    && lo <= c.cpuHeat.baseline && c.cpuHeat.baseline + c.cpuHeat.coeff * maxLoad + 10.0 <= hi
    && lo <= c.gpuHeat.baseline && c.gpuHeat.baseline + c.gpuHeat.coeff * maxLoad + 10.0 <= hi
  }

  lemma StepKeepsBand(m: Maths, c: Config, s: State, l: Load, dt: real, maxLoad: real, lo: real, hi: real)
    requires m.Valid() && c.Valid() && c.NonNegative() && dt >= 0.0 && 0.0 <= (c.cpuToGpu + c.gpuToCpu) * dt <= 1.0
    requires BandHoldsEquilibria(c, maxLoad, lo, hi) && 0.0 <= l.cpu <= maxLoad && 0.0 <= l.gpu <= maxLoad
    requires FreqsInRange(c, s) && TempsInBand(s, lo, hi)
    ensures FreqsInRange(c, Step(m, c, s, l, dt)) && TempsInBand(Step(m, c, s, l, dt), lo, hi)
  {
    DvfsKeepsFreqsInRange(m, c, s, dt);
    hide HeatTarget, LagStep, DvfsTargetFreq, Couple, LaggedCpu, LaggedGpu, Maths.Valid;
    var s1 := DvfsUpdate(m, c, s, dt);
    HeatTargetIsBounded(m, c.cpuHeat, l.cpu, maxLoad, s1.cpuFreq, c.cpuMax);
    HeatTargetIsBounded(m, c.gpuHeat, l.gpu, maxLoad, s1.gpuFreq, c.gpuMax);
    ThermalKeepsBand(m, c, s1, l, dt, lo, hi);
  }

  /** Main result: for coupling that is not too strong for the tick, both frequencies stay in their range and both
      temperatures in the band of equilibria for the whole run, whatever the loads do below maxLoad. */
  lemma {:induction false} RunKeepsBand(m: Maths, c: Config, s: State, loads: seq<Load>, dt: real,
                                        maxLoad: real, lo: real, hi: real)
    requires m.Valid() && c.Valid() && c.NonNegative() && dt >= 0.0 && 0.0 <= (c.cpuToGpu + c.gpuToCpu) * dt <= 1.0
    requires BandHoldsEquilibria(c, maxLoad, lo, hi)
    requires forall i :: 0 <= i < |loads| ==> 0.0 <= loads[i].cpu <= maxLoad && 0.0 <= loads[i].gpu <= maxLoad
    requires FreqsInRange(c, s) && TempsInBand(s, lo, hi)
    ensures FreqsInRange(c, Run(m, c, s, loads, dt)) && TempsInBand(Run(m, c, s, loads, dt), lo, hi)
    decreases |loads|
  {
    if loads != [] {
      StepKeepsBand(m, c, s, loads[0], dt, maxLoad, lo, hi);
      hide Step, FreqsInRange, TempsInBand, BandHoldsEquilibria, Maths.Valid;
      RunKeepsBand(m, c, Step(m, c, s, loads[0], dt), loads[1..], dt, maxLoad, lo, hi);
    }
  }

  /** The frequencies need neither the coupling bound nor the band: they never leave [min, max]. */
  lemma {:induction false} RunKeepsFreqsInRange(m: Maths, c: Config, s: State, loads: seq<Load>, dt: real)
    requires m.Valid() && c.Valid() && dt >= 0.0 && FreqsInRange(c, s)
    ensures FreqsInRange(c, Run(m, c, s, loads, dt))
    decreases |loads|
  {
    if loads != [] {
      DvfsKeepsFreqsInRange(m, c, s, dt);
      hide DvfsUpdate, LaggedCpu, LaggedGpu, Couple, Maths.Valid;
      RunKeepsFreqsInRange(m, c, Step(m, c, s, loads[0], dt), loads[1..], dt);
    }
  }
}
