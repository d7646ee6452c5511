/** Enter/exit triggers and the time-between-tokens tracker (src/policy/common/state.rs). */
module Triggers {
  import opened Numbers
  import opened Wrappers

  // ---------- time-between-tokens tracker ----------

  /** `warmupCount` is a 32-bit counter: it wraps, and an average restarts whenever it reads zero. */
  datatype Tbt = Tbt(ewma: real, baseline: Option<real>, warmupCount: nat, warmupTarget: nat)

  const U32: nat := 0x1_0000_0000

  function Fresh(target: nat): Tbt { Tbt(0.0, None, 0, target) }

  function AfterObserving(t: Tbt, tbtMs: real): Tbt {
    var ewma := if t.warmupCount == 0 then tbtMs else 0.875 * t.ewma + 0.125 * tbtMs;
    var count := (t.warmupCount + 1) % U32;
    var baseline := if t.baseline == None && count >= t.warmupTarget then Some(ewma) else t.baseline;
    Tbt(ewma, baseline, count, t.warmupTarget)
  }

  function DegradationRatio(t: Tbt): Option<real> {
    match t.baseline
    case None => None
    case Some(b) => if b > 0.0 then Some((t.ewma - b) / b) else Some(0.0)
  }

  // ---------- the trigger rule shared by the three axes ----------

  function Toggle(on: bool, x: real, enter: real, exit: real): bool {
    if on then !(x < exit) else x > enter
  }

  datatype Config = Config(tbtEnter: real, tbtExit: real, tbtWarmupTokens: nat,
                           memEnter: real, memExit: real, tempEnter: real, tempExit: real)

  datatype Flags = Flags(tbtDegraded: bool, memLow: bool, tempHigh: bool)

  /** A heartbeat reading; the wire can carry NaN and infinities. */
  datatype Reading = NotFinite | Finite(ms: real)

  function Valid(r: Reading): bool { r.Finite? && r.ms > 0.0 }

  datatype State = State(tbt: Tbt, flags: Flags)

  function UpdateTbt(c: Config, s: State, r: Reading): State {
    if !Valid(r) then s
    else
      var tbt := AfterObserving(s.tbt, r.ms);
      match DegradationRatio(tbt)
      case None => s.(tbt := tbt)
      case Some(ratio) =>
        State(tbt, s.flags.(tbtDegraded := Toggle(s.flags.tbtDegraded, ratio, c.tbtEnter, c.tbtExit)))
  }

  class TbtTracker {
    var ewma: real
    var baseline: Option<real>
    var warmupCount: nat
    const warmupTarget: nat

    function View(): Tbt
      reads this
    {
      Tbt(ewma, baseline, warmupCount, warmupTarget)
    }

    constructor (target: nat)
      ensures View() == Fresh(target)
    {
      ewma, baseline, warmupCount, warmupTarget := 0.0, None, 0, target;
    }

    method Observe(tbtMs: real)
      modifies this
      ensures View() == AfterObserving(old(View()), tbtMs)
    {
      if warmupCount == 0 {
        ewma := tbtMs;
      } else {
        ewma := 0.875 * ewma + 0.125 * tbtMs;
      }
      warmupCount := (warmupCount + 1) % U32;
      if baseline == None && warmupCount >= warmupTarget {
        baseline := Some(ewma);
      }
    }
  }

  class TriggerEngine {
    const config: Config
    const tbt: TbtTracker
    var tbtDegraded: bool
    var memLow: bool
    var tempHigh: bool

    function View(): State
      reads this, tbt
    {
      State(tbt.View(), Flags(tbtDegraded, memLow, tempHigh))
    }

    constructor (config: Config)
      ensures this.config == config && fresh(tbt)
      ensures View() == State(Fresh(config.tbtWarmupTokens), Flags(false, false, false))
    {
      this.config := config;
      tbt := new TbtTracker(config.tbtWarmupTokens);
      tbtDegraded, memLow, tempHigh := false, false, false;
    }

    method UpdateTbtMs(reading: Reading)
      modifies this, tbt
      ensures View() == UpdateTbt(config, old(View()), reading)
    {
      if !Valid(reading) {
        return;
      }
      tbt.Observe(reading.ms);
      match DegradationRatio(tbt.View()) {
        case None =>
        case Some(ratio) =>
          if tbtDegraded {
            if ratio < config.tbtExit {
              tbtDegraded := false;
            }
          } else if ratio > config.tbtEnter {
            tbtDegraded := true;
          }
      }
    }

    method UpdateMem(pressure: real)
      modifies this
      ensures View() == old(View()).(flags := old(View()).flags.(memLow := Toggle(old(memLow), pressure, config.memEnter, config.memExit)))
    {
      if memLow {
        if pressure < config.memExit {
          memLow := false;
        }
      } else if pressure > config.memEnter {
        memLow := true;
      }
    }

    method UpdateTemp(normalized: real)
      modifies this
      ensures View() == old(View()).(flags := old(View()).flags.(tempHigh := Toggle(old(tempHigh), normalized, config.tempEnter, config.tempExit)))
    {
      if tempHigh {
        if normalized < config.tempExit {
          tempHigh := false;
        }
      } else if normalized > config.tempEnter {
        tempHigh := true;
      }
    }
  }

  // ---------- runs of heartbeats ----------

  /** The state after each of `rs`, the start included. */
  function History(c: Config, s: State, rs: seq<Reading>): (h: seq<State>)
    ensures |h| == |rs| + 1 && h[0] == s
    decreases |rs|
  {
    [s] + if rs == [] then [] else History(c, UpdateTbt(c, s, rs[0]), rs[1..])
  }

  ghost predicate Within(lo: real, hi: real, t: Tbt) {
    && (t.warmupCount != 0 ==> lo <= t.ewma <= hi)
    && (t.baseline.Some? ==> lo <= t.baseline.value <= hi)
  }

  lemma RatioIsBounded(lo: real, hi: real, enter: real, b: real, x: real)
    requires 0.0 < lo <= b && lo <= x <= hi <= lo * (1.0 + enter)
    ensures (x - b) / b <= enter
  {
    assert lo * (1.0 + enter) == lo + lo * enter;
    assert lo * enter <= b * enter;
    assert x - b <= enter * b;
    DivideLe(x - b, enter, b);
  }

  lemma DivideLe(x: real, k: real, b: real)
    requires b > 0.0 && x <= k * b
    ensures x / b <= k
  {
  }

  /** Readings inside a band no wider than the enter margin never raise the latency trigger, whenever the
      baseline happens to be taken, for any start whose average already lies in the band. */
  lemma {:induction false} BandNeverDegrades(c: Config, s: State, rs: seq<Reading>, lo: real, hi: real)
    requires 0.0 < lo <= hi <= lo * (1.0 + c.tbtEnter)
    requires Within(lo, hi, s.tbt) && !s.flags.tbtDegraded
    requires forall i :: 0 <= i < |rs| && Valid(rs[i]) ==> lo <= rs[i].ms <= hi
    ensures forall i :: 0 <= i <= |rs| ==> !History(c, s, rs)[i].flags.tbtDegraded
    decreases |rs|
  {
    if rs != [] {
      var s' := UpdateTbt(c, s, rs[0]);
      if Valid(rs[0]) && s'.tbt.baseline.Some? {
        RatioIsBounded(lo, hi, c.tbtEnter, s'.tbt.baseline.value, s'.tbt.ewma);
      }
      BandNeverDegrades(c, s', rs[1..], lo, hi);
    }
  }

  /** How many of `rs` are observations at all. */
  function Observed(rs: seq<Reading>): nat {
    if rs == [] then 0 else (if Valid(rs[0]) then 1 else 0) + Observed(rs[1..])
  }

  /** The baseline is frozen: it is missing exactly until the warm-up count is met, and once it exists
      no later reading changes it. */
  lemma {:induction false} BaselineIsFrozen(c: Config, s: State, rs: seq<Reading>)
    requires s.tbt.baseline == None ==> s.tbt.warmupCount == 0 || s.tbt.warmupCount < s.tbt.warmupTarget
    requires s.tbt.warmupTarget < U32 && s.tbt.warmupCount < U32
    ensures var end := History(c, s, rs)[|rs|].tbt;
            && (s.tbt.baseline.Some? ==> end.baseline == s.tbt.baseline)
            && (s.tbt.baseline == None ==>
                  (end.baseline == None <==> Observed(rs) == 0 || s.tbt.warmupCount + Observed(rs) < s.tbt.warmupTarget))
    decreases |rs|
  {
    if rs != [] {
      BaselineIsFrozen(c, UpdateTbt(c, s, rs[0]), rs[1..]);
    }
  }

  // ---------- recovery ----------

  /** `x` shrunk by 7/8, `n` times over. */
  function Decayed(n: nat, x: real): real { if n == 0 then x else 0.875 * Decayed(n - 1, x) }

  lemma {:induction false} DecayedShifts(n: nat, x: real)
    ensures Decayed(n, 0.875 * x) == 0.875 * Decayed(n, x)
  {
    if n > 0 { DecayedShifts(n - 1, x); }
  }

  lemma {:induction false} DecayedIsMonotone(n: nat, x: real, y: real)
    requires x <= y
    ensures Decayed(n, x) <= Decayed(n, y)
  {
    if n > 0 { DecayedIsMonotone(n - 1, x, y); }
  }

  /** Bernoulli's inequality for 8/7: geometric decay outruns the hyperbola 7 / (7 + n). */
  lemma {:induction false} DecayedBound(n: nat, x: real)
    requires x >= 0.0
    ensures 0.0 <= Decayed(n, x) <= x
    ensures Decayed(n, x) * (7.0 + n as real) <= 7.0 * x
  {
    if n > 0 {
      DecayedBound(n - 1, x);
      var d, m := Decayed(n - 1, x), (n - 1) as real;
      assert n as real == m + 1.0;
      DecayStep(d, m, x);
    }
  }

  lemma DecayStep(d: real, m: real, x: real)
    requires 0.0 <= d <= x && m >= 0.0 && d * (7.0 + m) <= 7.0 * x
    ensures 0.875 * d * (7.0 + (m + 1.0)) <= 7.0 * x
  {
    assert 0.875 * d * (7.0 + (m + 1.0)) == 0.875 * (d * (7.0 + m) + d);
  }

  function Repeat(r: Reading, n: nat): (rs: seq<Reading>)
    ensures |rs| == n
  {
    seq(n, _ => r)
  }

  function AfterBaselines(t: Tbt, b: real, n: nat): Tbt
    decreases n
  {
    if n == 0 then t else AfterBaselines(AfterObserving(t, b), b, n - 1)
  }

  lemma {:induction false} TbtOfHistory(c: Config, s: State, b: real, n: nat)
    requires b > 0.0
    ensures History(c, s, Repeat(Finite(b), n))[n].tbt == AfterBaselines(s.tbt, b, n)
    decreases n
  {
    if n > 0 {
      assert Repeat(Finite(b), n)[1..] == Repeat(Finite(b), n - 1);
      TbtOfHistory(c, UpdateTbt(c, s, Finite(b)), b, n - 1);
    }
  }

  /** Feeding the baseline back shrinks the excess by exactly 7/8 per reading, as long as the counter
      does not wrap; a wrap can only drop it to zero. */
  lemma {:induction false} ExcessDecays(t: Tbt, b: real, n: nat)
    requires t.baseline == Some(b) && t.ewma >= b && t.warmupCount < U32
    ensures var end := AfterBaselines(t, b, n);
            && end.baseline == Some(b)
            && 0.0 <= end.ewma - b <= Decayed(n, t.ewma - b)
            && (0 < t.warmupCount && t.warmupCount + n <= U32 ==> end.ewma - b == Decayed(n, t.ewma - b))
    decreases n
  {
    if n > 0 {
      var t' := AfterObserving(t, b);
      var x := t.ewma - b;
      ExcessDecays(t', b, n - 1);
      DecayedShifts(n - 1, x);
      DecayedIsMonotone(n - 1, t'.ewma - b, 0.875 * x);
    }
  }

  /** A trigger that is off stays off while its input stays at or under the enter threshold. */
  lemma {:induction false} ClearedStaysCleared(c: Config, s: State, b: real, n: nat)
    requires s.tbt.baseline == Some(b) && b > 0.0 && s.tbt.ewma >= b && s.tbt.warmupCount < U32
    requires !s.flags.tbtDegraded && DegradationRatio(s.tbt).value <= c.tbtEnter
    ensures !History(c, s, Repeat(Finite(b), n))[n].flags.tbtDegraded
    decreases n
  {
    if n > 0 {
      var s' := UpdateTbt(c, s, Finite(b));
      assert s'.tbt.ewma <= s.tbt.ewma;
      DivideMono(s'.tbt.ewma - b, s.tbt.ewma - b, b);
      assert Repeat(Finite(b), n)[1..] == Repeat(Finite(b), n - 1);
      ClearedStaysCleared(c, s', b, n - 1);
    }
  }

  /** Walking `n` readings down: either the trigger has been cleared, or the ratio never fell under exit. */
  lemma {:induction false} DegradedMeansAboveExit(c: Config, s: State, b: real, n: nat)
    requires s.tbt.baseline == Some(b) && b > 0.0 && s.tbt.ewma >= b && s.tbt.warmupCount < U32
    requires c.tbtExit <= c.tbtEnter && n > 0
    ensures var end := History(c, s, Repeat(Finite(b), n))[n];
            end.tbt.baseline == Some(b) && (end.flags.tbtDegraded && s.flags.tbtDegraded ==> (end.tbt.ewma - b) / b >= c.tbtExit)
    decreases n
  {
    var s' := UpdateTbt(c, s, Finite(b));
    assert Repeat(Finite(b), n)[1..] == Repeat(Finite(b), n - 1);
    var h := History(c, s', Repeat(Finite(b), n - 1));
    assert History(c, s, Repeat(Finite(b), n))[n] == h[n - 1];
    TbtOfHistory(c, s, b, n);
    ExcessDecays(s.tbt, b, n);
    if n > 1 {
      if s.flags.tbtDegraded && !s'.flags.tbtDegraded {
        ClearedStaysCleared(c, s', b, n - 1);
      } else {
        DegradedMeansAboveExit(c, s', b, n - 1);
      }
    }
  }

  /** Main result: after degrading with ratio r, any n >= 7 r / exit readings at the baseline clear the
      trigger, however long the tracker has been running. */
  lemma RecoveryBound(c: Config, s: State, b: real, r: real, n: nat)
    requires s.tbt.baseline == Some(b) && b > 0.0 && s.tbt.warmupCount < U32
    requires s.flags.tbtDegraded && DegradationRatio(s.tbt) == Some(r) && r >= 0.0
    requires 0.0 < c.tbtExit <= c.tbtEnter
    requires n > 0 && n as real >= 7.0 * r / c.tbtExit
    ensures !History(c, s, Repeat(Finite(b), n))[n].flags.tbtDegraded
  {
    RatioFallsUnderExit(c, s, b, r, n);
    hide *;
    DegradedMeansAboveExit(c, s, b, n);
  }

  lemma RatioFallsUnderExit(c: Config, s: State, b: real, r: real, n: nat)
    requires s.tbt.baseline == Some(b) && b > 0.0 && s.tbt.warmupCount < U32
    requires DegradationRatio(s.tbt) == Some(r) && r >= 0.0 && c.tbtExit > 0.0
    requires n as real >= 7.0 * r / c.tbtExit
    ensures s.tbt.ewma >= b
    ensures (History(c, s, Repeat(Finite(b), n))[n].tbt.ewma - b) / b < c.tbtExit
  {
    hide *;
    ExcessOfRatio(s.tbt, b, r);
    TbtOfHistory(c, s, b, n);
    ExcessDecays(s.tbt, b, n);
    var x := s.tbt.ewma - b;
    DecayedBound(n, x);
    RatioUnderExit(Decayed(n, x), n as real, r, c.tbtExit, b, AfterBaselines(s.tbt, b, n).ewma - b);
  }

  lemma ExcessOfRatio(t: Tbt, b: real, r: real)
    requires t.baseline == Some(b) && b > 0.0 && DegradationRatio(t) == Some(r) && r >= 0.0
    ensures t.ewma - b == r * b && t.ewma >= b
  {
  }

  lemma RatioUnderExit(d: real, n: real, r: real, exit: real, b: real, x: real)
    requires d >= 0.0 && r >= 0.0 && exit > 0.0 && b > 0.0 && n >= 0.0
    requires d * (7.0 + n) <= 7.0 * (r * b) && n >= 7.0 * r / exit && x <= d
    ensures x / b < exit
  {
    assert 7.0 * r <= n * exit by {
      var q := 7.0 * r / exit;
      assert q * exit == 7.0 * r;
      assert q * exit <= n * exit;
    }
    Scale(b, 7.0 * r, n * exit);
    assert b * (n * exit) == (exit * b) * n;
    assert d * (7.0 + n) < (exit * b) * (7.0 + n) by {
      assert exit * b > 0.0;
      assert (exit * b) * (7.0 + n) == 7.0 * (exit * b) + (exit * b) * n;
    }
    assert d < exit * b by { CancelLt(d, exit * b, 7.0 + n); }
    QuotientLt(x, exit, b);
  }

  lemma CancelLt(x: real, y: real, k: real)
    requires k > 0.0 && x * k < y * k
    ensures x < y
  {
  }

  lemma QuotientLt(x: real, k: real, b: real)
    requires b > 0.0 && x < k * b
    ensures x / b < k
  {
  }

  // ---------- the width of band that never degrades ----------

  /** Every reading that counts lies in [lo, hi]. */
  ghost predicate InBand(rs: seq<Reading>, lo: real, hi: real) {
    forall i :: 0 <= i < |rs| && Valid(rs[i]) ==> lo <= rs[i].ms <= hi
  }

  ghost predicate EverDegrades(c: Config, s: State, rs: seq<Reading>) {
    exists i :: 0 <= i <= |rs| && History(c, s, rs)[i].flags.tbtDegraded
  }

  function Start(c: Config): State { State(Fresh(c.tbtWarmupTokens), Flags(false, false, false)) }

  /** The first reading that sets the baseline, and those before it, all at `lo`. */
  lemma {:induction false} WarmUp(c: Config, s: State, lo: real, n: nat)
    requires lo > 0.0 && s.tbt.baseline == None && s.tbt.warmupTarget < U32
    requires n > 0 && s.tbt.warmupCount + n < U32
    requires s.tbt.warmupCount > 0 ==> s.tbt.ewma == lo
    requires s.tbt.warmupCount + n >= s.tbt.warmupTarget && (n > 1 ==> s.tbt.warmupCount + n - 1 < s.tbt.warmupTarget)
    ensures var end := History(c, s, Repeat(Finite(lo), n))[n].tbt;
            end.baseline == Some(lo) && end.ewma == lo && end.warmupCount < U32
    decreases n
  {
    hide History;
    var s' := UpdateTbt(c, s, Finite(lo));
    assert Repeat(Finite(lo), n)[1..] == Repeat(Finite(lo), n - 1);
    HistoryStep(c, s, Repeat(Finite(lo), n));
    if n > 1 {
      WarmUp(c, s', lo, n - 1);
    }
  }

  /** Readings above the average close the distance to it by at least 1/8 each. */
  lemma {:induction false} ApproachDecays(t: Tbt, hi: real, n: nat)
    requires t.baseline.Some? && t.ewma <= hi && t.warmupCount < U32
    ensures var end := AfterBaselines(t, hi, n);
            end.baseline == t.baseline && 0.0 <= hi - end.ewma <= Decayed(n, hi - t.ewma)
    decreases n
  {
    if n > 0 {
      var t' := AfterObserving(t, hi);
      ApproachDecays(t', hi, n - 1);
      DecayedShifts(n - 1, hi - t.ewma);
      DecayedIsMonotone(n - 1, hi - t'.ewma, 0.875 * (hi - t.ewma));
    }
  }

  /** However small the gap, geometric decay gets under it. */
  lemma DecayReaches(x: real, gap: real) returns (n: nat)
    requires x >= 0.0 && gap > 0.0
    ensures n > 0 && Decayed(n, x) < gap
  {
    n := (7.0 * x / gap).Floor + 1;
    DecayedBound(n, x);
    var k := 7.0 + n as real;
    assert n as real > 7.0 * x / gap;
    ProductOver(x, gap, n as real);
    hide Decayed;
    assert Decayed(n, x) * k < gap * k;
    CancelLt(Decayed(n, x), gap, k);
  }

  lemma ProductOver(x: real, gap: real, n: real)
    requires x >= 0.0 && gap > 0.0 && n > 7.0 * x / gap
    ensures 7.0 * x < gap * (7.0 + n)
  {
    var q := 7.0 * x / gap;
    assert q * gap == 7.0 * x;
    assert gap * (7.0 + n) == gap * 7.0 + gap * n;
    assert gap * n > gap * q;
  }

  lemma HistoryStep(c: Config, s: State, rs: seq<Reading>)
    requires rs != []
    ensures History(c, s, rs)[|rs|] == History(c, UpdateTbt(c, s, rs[0]), rs[1..])[|rs| - 1]
  {
    hide UpdateTbt;
  }

  lemma {:induction false} HistoryOfConcat(c: Config, s: State, rs: seq<Reading>, more: seq<Reading>)
    ensures History(c, s, rs + more)[|rs + more|] == History(c, History(c, s, rs)[|rs|], more)[|more|]
    decreases |rs|
  {
    hide *;
    if rs == [] {
      assert rs + more == more;
    } else {
      HistoryStep(c, s, rs);
      HistoryStep(c, s, rs + more);
      assert (rs + more)[1..] == rs[1..] + more && (rs + more)[0] == rs[0];
      HistoryOfConcat(c, UpdateTbt(c, s, rs[0]), rs[1..], more);
    }
  }

  /** A reading that leaves the ratio over enter finds the trigger on or turns it on. */
  lemma OverEnterMeansOn(c: Config, s: State, r: Reading)
    requires Valid(r)
    requires var ratio := DegradationRatio(UpdateTbt(c, s, r).tbt); ratio.Some? && ratio.value > c.tbtEnter
    ensures s.flags.tbtDegraded || UpdateTbt(c, s, r).flags.tbtDegraded
  {
  }

  lemma LastOfRepeat(c: Config, s: State, r: Reading, n: nat)
    requires n > 0
    ensures History(c, s, Repeat(r, n))[n] == UpdateTbt(c, History(c, s, Repeat(r, n - 1))[n - 1], r)
  {
    var before := History(c, s, Repeat(r, n - 1))[n - 1];
    assert Repeat(r, n - 1) + [r] == Repeat(r, n);
    HistoryStep(c, before, [r]);
    assert [r][1..] == [];
    hide History, UpdateTbt;
    HistoryOfConcat(c, s, Repeat(r, n - 1), [r]);
  }

  lemma RatioOverEnter(lo: real, x: real, enter: real)
    requires lo > 0.0 && x > lo * (1.0 + enter)
    ensures (x - lo) / lo > enter
  {
    assert lo * (1.0 + enter) == lo + lo * enter;
    var q := (x - lo) / lo;
    assert q * lo == x - lo;
    if q <= enter {
      Scale(lo, q, enter);
    }
  }

  /** From a baseline at the bottom of a band that is too wide, readings at its top turn the trigger on. */
  lemma TopOfWideBand(c: Config, s: State, lo: real, hi: real) returns (n: nat)
    requires 0.0 < lo <= hi && hi > lo * (1.0 + c.tbtEnter)
    requires s.tbt.baseline == Some(lo) && s.tbt.ewma == lo && s.tbt.warmupCount < U32
    ensures History(c, s, Repeat(Finite(hi), n))[n].flags.tbtDegraded
  {
    n := DecayReaches(hi - lo, hi - lo * (1.0 + c.tbtEnter));
    TbtOfHistory(c, s, hi, n);
    ApproachDecays(s.tbt, hi, n);
    RatioOverEnter(lo, AfterBaselines(s.tbt, hi, n).ewma, c.tbtEnter);
    hide History, AfterBaselines, Decayed, UpdateTbt;
    LastOfRepeat(c, s, Finite(hi), n);
    OverEnterMeansOn(c, History(c, s, Repeat(Finite(hi), n - 1))[n - 1], Finite(hi));
    if !History(c, s, Repeat(Finite(hi), n))[n].flags.tbtDegraded {
      n := n - 1;
    }
  }

  lemma WideBandDegrades(c: Config, lo: real, hi: real) returns (rs: seq<Reading>)
    requires 0.0 < lo <= hi && hi > lo * (1.0 + c.tbtEnter) && c.tbtWarmupTokens < U32
    ensures InBand(rs, lo, hi) && EverDegrades(c, Start(c), rs)
  {
    var m := if c.tbtWarmupTokens == 0 then 1 else c.tbtWarmupTokens;
    var first := Repeat(Finite(lo), m);
    WarmUp(c, Start(c), lo, m);
    var warm := History(c, Start(c), first)[m];
    hide History;
    var n := TopOfWideBand(c, warm, lo, hi);
    rs := first + Repeat(Finite(hi), n);
    HistoryOfConcat(c, Start(c), first, Repeat(Finite(hi), n));
    assert History(c, Start(c), rs)[|rs|].flags.tbtDegraded;
  }

  ghost predicate BandIsSafe(c: Config, lo: real, hi: real) {
    forall rs :: InBand(rs, lo, hi) ==> !EverDegrades(c, Start(c), rs)
  }

  /** Main result: from a fresh start no sequence of readings in [lo, hi] ever raises the latency trigger
      exactly when hi <= lo (1 + enter). */
  lemma BandIsSafeIffNarrow(c: Config, lo: real, hi: real)
    requires 0.0 < lo <= hi && c.tbtWarmupTokens < U32
    ensures BandIsSafe(c, lo, hi) <==> hi <= lo * (1.0 + c.tbtEnter)
  {
    if hi <= lo * (1.0 + c.tbtEnter) {
      forall rs | InBand(rs, lo, hi) ensures !EverDegrades(c, Start(c), rs) {
        BandNeverDegrades(c, Start(c), rs, lo, hi);
      }
    } else {
      var rs := WideBandDegrades(c, lo, hi);
    }
  }

  // ---------- what the baseline is ----------

  function Readings(xs: seq<real>): (rs: seq<Reading>)
    ensures |rs| == |xs|
  {
    seq(|xs|, i requires 0 <= i < |xs| => Finite(xs[i]))
  }

  /** What reading `i` adds to an average over all of them: 7/8 for each later reading, and 1/8 unless it is the first. */
  function Addend(xs: seq<real>, i: nat): real
    requires i < |xs|
  {
    Decayed(|xs| - 1 - i, if i == 0 then xs[0] else 0.125 * xs[i])
  }

  function Total(xs: seq<real>, n: nat): real
    requires n <= |xs|
  {
    if n == 0 then 0.0 else Total(xs, n - 1) + Addend(xs, n - 1)
  }

  lemma {:induction false} TotalOfInit(xs: seq<real>, n: nat)
    requires n < |xs|
    ensures Total(xs, n) == 0.875 * Total(xs[..|xs| - 1], n)
    decreases n
  {
    if n > 0 {
      TotalOfInit(xs, n - 1);
      assert Addend(xs, n - 1) == 0.875 * Addend(xs[..|xs| - 1], n - 1);
    }
  }

  /** Main result: through the warm-up the average is the weighted sum of all readings, and the baseline is that
      average at the end of the warm-up, whatever the readings are. */
  lemma {:induction false} BaselineIsTheWeightedAverage(c: Config, xs: seq<real>)
    requires xs != [] && |xs| < U32 && forall i :: 0 <= i < |xs| ==> xs[i] > 0.0
    requires |xs| == 1 || |xs| <= c.tbtWarmupTokens
    ensures var end := History(c, Start(c), Readings(xs))[|xs|].tbt;
            && end.warmupCount == |xs| && end.warmupTarget == c.tbtWarmupTokens
            && end.ewma == Total(xs, |xs|)
            && end.baseline == (if |xs| >= c.tbtWarmupTokens then Some(Total(xs, |xs|)) else None)
    decreases |xs|
  {
    var n := |xs| - 1;
    var init := xs[..n];
    assert Readings(init) + [Finite(xs[n])] == Readings(xs);
    TotalOfInit(xs, n);
    hide History, Total, UpdateTbt, Addend;
    TotalStep(xs, n);
    AddendOfLast(xs);
    HistoryByOne(c, Start(c), Readings(init), Finite(xs[n]));
    var before := History(c, Start(c), Readings(init))[n];
    if n > 0 {
      BaselineIsTheWeightedAverage(c, init);
    } else {
      TotalOfNone(xs);
    }
    hide Readings;
    WarmupReading(c, before, xs[n]);
  }

  lemma AddendOfLast(xs: seq<real>)
    requires xs != []
    ensures Addend(xs, |xs| - 1) == if |xs| == 1 then xs[0] else 0.125 * xs[|xs| - 1]
  {
  }

  lemma HistoryByOne(c: Config, s: State, rs: seq<Reading>, r: Reading)
    ensures History(c, s, rs + [r])[|rs| + 1] == UpdateTbt(c, History(c, s, rs)[|rs|], r)
  {
    hide *;
    HistoryOfConcat(c, s, rs, [r]);
    HistoryStep(c, History(c, s, rs)[|rs|], [r]);
    assert [r][1..] == [];
  }

  lemma WarmupReading(c: Config, s: State, x: real)
    requires x > 0.0 && s.tbt.warmupCount + 1 < U32 && s.tbt.baseline.None?
    ensures var t := UpdateTbt(c, s, Finite(x)).tbt;
            && t.warmupCount == s.tbt.warmupCount + 1 && t.warmupTarget == s.tbt.warmupTarget
            && t.ewma == (if s.tbt.warmupCount == 0 then x else 0.875 * s.tbt.ewma + 0.125 * x)
            && t.baseline == (if t.warmupCount >= t.warmupTarget then Some(t.ewma) else None)
  {
  }

  lemma TotalStep(xs: seq<real>, n: nat)
    requires n < |xs|
    ensures Total(xs, n + 1) == Total(xs, n) + Addend(xs, n)
  {
  }

  lemma TotalOfNone(xs: seq<real>)
    ensures Total(xs, 0) == 0.0
  {
  }

  /** Readings that are not finite or not positive change nothing; every other one is observed. */
  lemma OnlyPositiveReadingsCount(c: Config, s: State, r: Reading)
    ensures (r == NotFinite || r.ms <= 0.0) ==> UpdateTbt(c, s, r) == s
    ensures r.Finite? && r.ms > 0.0 ==> UpdateTbt(c, s, r).tbt.warmupCount == (s.tbt.warmupCount + 1) % 0x1_0000_0000
  {
  }

  /** The three triggers share one rule: strictly over enter turns on, strictly under exit turns off, and in
      between nothing changes. */
  lemma ToggleInBetween(on: bool, x: real, enter: real, exit: real)
    requires exit <= enter
    ensures Toggle(on, x, enter, exit) <==> x > enter || (on && x >= exit)
  {
  }

  // ---------- flips cost movement of the input ----------

  function Flips(on: bool, xs: seq<real>, enter: real, exit: real): nat
    decreases |xs|
  {
    if xs == [] then 0
    else
      var on' := Toggle(on, xs[0], enter, exit);
      (if on' != on then 1 else 0) + Flips(on', xs[1..], enter, exit)
  }

  lemma {:induction false} FlipsFromAnchor(on: bool, anchor: real, xs: seq<real>, enter: real, exit: real)
    requires if on then anchor > enter else anchor < exit
    ensures Times(Flips(on, xs, enter, exit), enter - exit) <= Variation(anchor, xs)
    decreases |xs|
  {
    if xs != [] {
      var on' := Toggle(on, xs[0], enter, exit);
      if on' != on {
        FlipsFromAnchor(on', xs[0], xs[1..], enter, exit);
      } else {
        FlipsFromAnchor(on, anchor, xs[1..], enter, exit);
        VariationTriangle(anchor, xs[0], xs[1..]);
      }
    }
  }

  /** Any of the three triggers, started off: every flip after the first costs the enter-exit gap. */
  lemma {:induction false} FlipsBoundedByVariation(from: real, xs: seq<real>, enter: real, exit: real)
    requires enter >= exit
    ensures Times(Flips(false, xs, enter, exit), enter - exit) <= Variation(from, xs) + (enter - exit)
    decreases |xs|
  {
    if xs != [] {
      if Toggle(false, xs[0], enter, exit) {
        FlipsFromAnchor(true, xs[0], xs[1..], enter, exit);
      } else {
        FlipsBoundedByVariation(xs[0], xs[1..], enter, exit);
      }
    }
  }
}
