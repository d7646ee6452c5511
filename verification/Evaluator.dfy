/** Hysteresis threshold evaluator (src/evaluator.rs): a four-level state machine that escalates
    at once and recovers only past a margin. */
module Evaluator {
  import opened Numbers
  import opened Wrappers

  datatype Level = Normal | Warning | Critical | Emergency
  {
    function Rank(): nat {
      match this
      case Normal => 0
      case Warning => 1
      case Critical => 2
      case Emergency => 3
    }
  }

  datatype Direction = Ascending | Descending

  datatype Thresholds = Thresholds(warning: real, critical: real, emergency: real, hysteresis: real)
  {
    /** The configuration a metric of this direction is meant to have. */
    ghost predicate Ordered(d: Direction) {
      && hysteresis >= 0.0
      && match d
         case Ascending => warning <= critical <= emergency
         case Descending => warning >= critical >= emergency
    }

    function Negated(): Thresholds {
      Thresholds(-warning, -critical, -emergency, hysteresis)
    }
  }

  // ---------- the two level functions, branch by branch ----------

  function LevelAscending(value: real, current: Level, t: Thresholds): Level {
    var warningDown := t.warning - t.hysteresis;
    var criticalDown := t.critical - t.hysteresis;
    var emergencyDown := t.emergency - t.hysteresis;
    if value >= t.emergency && current.Rank() < 3 then Emergency
    else if value >= t.critical && current.Rank() < 2 then Critical
    else if value >= t.warning && current.Rank() < 1 then Warning
    else
      match current
      case Emergency =>
        if value < emergencyDown then
          if value < warningDown then Normal else if value < criticalDown then Warning else Critical
        else current
      case Critical =>
        if value < criticalDown then
          if value < warningDown then Normal else Warning
        else current
      case Warning => if value < warningDown then Normal else current
      case Normal => current
  }

  function LevelDescending(value: real, current: Level, t: Thresholds): Level {
    var warningUp := t.warning + t.hysteresis;
    var criticalUp := t.critical + t.hysteresis;
    var emergencyUp := t.emergency + t.hysteresis;
    if value <= t.emergency && current.Rank() < 3 then Emergency
    else if value <= t.critical && current.Rank() < 2 then Critical
    else if value <= t.warning && current.Rank() < 1 then Warning
    else
      match current
      case Emergency =>
        if value > emergencyUp then
          if value > warningUp then Normal else if value > criticalUp then Warning else Critical
        else current
      case Critical =>
        if value > criticalUp then
          if value > warningUp then Normal else Warning
        else current
      case Warning => if value > warningUp then Normal else current
      case Normal => current
  }

  function Next(d: Direction, t: Thresholds, current: Level, value: real): Level {
    match d
    case Ascending => LevelAscending(value, current, t)
    case Descending => LevelDescending(value, current, t)
  }

  class ThresholdEvaluator {
    const direction: Direction
    const thresholds: Thresholds
    var current: Level

    constructor (direction: Direction, thresholds: Thresholds)
      ensures this.direction == direction && this.thresholds == thresholds && current == Normal
    {
      this.direction := direction;
      this.thresholds := thresholds;
      current := Normal;
    }

    method Evaluate(value: real) returns (changed: Option<Level>)
      modifies this
      ensures current == Next(direction, thresholds, old(current), value)
      ensures changed == if current == old(current) then None else Some(current)
    {
      var newLevel: Level;
      match direction {
        case Ascending => newLevel := LevelAscending(value, current, thresholds);
        case Descending => newLevel := LevelDescending(value, current, thresholds);
      }
      if newLevel != current {
        current := newLevel;
        changed := Some(newLevel);
      } else {
        changed := None;
      }
    }
  }

  /** The levels after each of `values`, starting from `current`. */
  function Run(d: Direction, t: Thresholds, current: Level, values: seq<real>): (levels: seq<Level>)
    ensures |levels| == |values|
    decreases |values|
  {
    if values == [] then []
    else
      var next := Next(d, t, current, values[0]);
      [next] + Run(d, t, next, values[1..])
  }

  // ---------- a memoryless reference, and the clamp that relates the two ----------

  /** The level of `value` when every threshold is moved down by `margin`: no state, no recovery rule. */
  function LevelAt(value: real, t: Thresholds, margin: real): Level {
    if value >= t.emergency - margin then Emergency
    else if value >= t.critical - margin then Critical
    else if value >= t.warning - margin then Warning
    else Normal
  }

  /** One step keeps the current level clamped between the raw and the relaxed memoryless level. */
  lemma AscendingIsClamp(value: real, current: Level, t: Thresholds)
    requires t.Ordered(Ascending)
    ensures LevelAscending(value, current, t).Rank()
         == Max(LevelAt(value, t, 0.0).Rank(), Min(current.Rank(), LevelAt(value, t, t.hysteresis).Rank()))
  {
    match current case Normal => case Warning => case Critical => case Emergency =>
  }

  /** A descending metric behaves as its negation does under negated thresholds, ordered or not. */
  lemma {:induction false} DescendingIsNegatedAscending(t: Thresholds, current: Level, values: seq<real>)
    ensures Run(Descending, t, current, values) == Run(Ascending, t.Negated(), current, Negated(values))
    decreases |values|
  {
    if values != [] {
      var next := Next(Descending, t, current, values[0]);
      assert next == Next(Ascending, t.Negated(), current, -values[0]);
      DescendingIsNegatedAscending(t, next, values[1..]);
      assert Negated(values)[1..] == Negated(values[1..]);
    }
  }

  function Negated(values: seq<real>): seq<real> {
    seq(|values|, i requires 0 <= i < |values| => -values[i])
  }

  /** Pointwise worse inputs, from a worse start, never give a better level anywhere in a run. */
  lemma {:induction false} RunIsMonotone(t: Thresholds, low: Level, high: Level, lows: seq<real>, highs: seq<real>)
    requires t.Ordered(Ascending) && low.Rank() <= high.Rank() && |lows| == |highs|
    requires forall i :: 0 <= i < |lows| ==> lows[i] <= highs[i]
    ensures forall i :: 0 <= i < |lows| ==>
      Run(Ascending, t, low, lows)[i].Rank() <= Run(Ascending, t, high, highs)[i].Rank()
    decreases |lows|
  {
    if lows != [] {
      AscendingIsClamp(lows[0], low, t);
      AscendingIsClamp(highs[0], high, t);
      var low' := Next(Ascending, t, low, lows[0]);
      var high' := Next(Ascending, t, high, highs[0]);
      RunIsMonotone(t, low', high', lows[1..], highs[1..]);
    }
  }

  // ---------- without hysteresis the run forgets its past ----------

  /** Level of an available-memory percentage, as the simulator computes it without state. */
  function MemoryLevelFromAvailablePct(pct: real): Level {
    if pct <= 10.0 then Emergency
    else if pct <= 20.0 then Critical
    else if pct <= 40.0 then Warning
    else Normal
  }

  /** Level of a temperature, as the simulator computes it without state. */
  function ThermalLevelFromTempC(temp: real): Level {
    if temp >= 85.0 then Emergency
    else if temp >= 75.0 then Critical
    else if temp >= 60.0 then Warning
    else Normal
  }

  lemma {:induction false} ZeroHysteresisIsMemoryless(t: Thresholds, current: Level, values: seq<real>)
    requires t.Ordered(Ascending) && t.hysteresis == 0.0
    ensures forall i :: 0 <= i < |values| ==> Run(Ascending, t, current, values)[i] == LevelAt(values[i], t, 0.0)
    decreases |values|
  {
    if values != [] {
      AscendingIsClamp(values[0], current, t);
      ZeroHysteresisIsMemoryless(t, Next(Ascending, t, current, values[0]), values[1..]);
    }
  }

  /** The simulator's level functions are the evaluator at the default thresholds with no hysteresis,
      whatever was measured before. */
  lemma SimulatorLevelsAreZeroHysteresisRuns(current: Level, values: seq<real>)
    ensures forall i :: 0 <= i < |values| ==>
      && Run(Descending, Thresholds(40.0, 20.0, 10.0, 0.0), current, values)[i] == MemoryLevelFromAvailablePct(values[i])
      && Run(Ascending, Thresholds(60.0, 75.0, 85.0, 0.0), current, values)[i] == ThermalLevelFromTempC(values[i])
  {
    var mem := Thresholds(40.0, 20.0, 10.0, 0.0);
    DescendingIsNegatedAscending(mem, current, values);
    ZeroHysteresisIsMemoryless(mem.Negated(), current, Negated(values));
    ZeroHysteresisIsMemoryless(Thresholds(60.0, 75.0, 85.0, 0.0), current, values);
  }

  // ---------- oscillation is paid for by movement of the input ----------

  /** Total movement of the signal. */
  function TotalVariation(values: seq<real>): (v: real)
    ensures v >= 0.0
  {
    if values == [] then 0.0 else Variation(values[0], values[1..])
  }

  datatype Trend = Flat | Up | Down

  function TrendAfter(trend: Trend, previous: Level, next: Level): Trend {
    if next.Rank() > previous.Rank() then Up
    else if next.Rank() < previous.Rank() then Down
    else trend
  }

  /** How often the level history turns round: a rise after a fall or a fall after a rise,
      however many steps at a constant level lie between. */
  function Reversals(trend: Trend, previous: Level, levels: seq<Level>): nat
    decreases |levels|
  {
    if levels == [] then 0
    else
      var trend' := TrendAfter(trend, previous, levels[0]);
      (if trend != Flat && trend' != trend then 1 else 0) + Reversals(trend', levels[0], levels[1..])
  }

  /** How many times the level changes: the number of `Some` results of `Evaluate`. */
  function Changes(previous: Level, levels: seq<Level>): nat
    decreases |levels|
  {
    if levels == [] then 0
    else (if levels[0] != previous then 1 else 0) + Changes(levels[0], levels[1..])
  }

  /** `anchor` is an input that justifies the last move: it reached the level's own threshold on the
      way up, or fell past the recovery threshold of the level above on the way down. */
  ghost predicate Anchored(t: Thresholds, trend: Trend, level: Level, anchor: real) {
    match trend
    case Flat => true
    case Up => LevelAt(anchor, t, 0.0).Rank() >= level.Rank()
    case Down => LevelAt(anchor, t, t.hysteresis).Rank() <= level.Rank()
  }

  lemma ReversalNeedsTravel(t: Thresholds, trend: Trend, level: Level, anchor: real, value: real)
    requires t.Ordered(Ascending) && Anchored(t, trend, level, anchor)
    ensures var next := Next(Ascending, t, level, value);
            var trend' := TrendAfter(trend, level, next);
            && (next != level ==> Anchored(t, trend', next, value))
            && (next == level ==> trend' == trend)
            && (trend != Flat && trend' != trend ==> Abs(value - anchor) >= t.hysteresis)
  {
    AscendingIsClamp(value, level, t);
    match level case Normal => case Warning => case Critical => case Emergency =>
  }

  lemma ProductBound(n: nat, h: real, bound: real)
    requires Times(n, h) <= bound
    ensures h * n as real <= bound
  {
    TimesIsProduct(n, h);
  }

  lemma {:induction false} ReversalsFromAnchor(t: Thresholds, trend: Trend, level: Level, anchor: real, values: seq<real>)
    requires t.Ordered(Ascending) && Anchored(t, trend, level, anchor)
    ensures Times(Reversals(trend, level, Run(Ascending, t, level, values)), t.hysteresis) <= Variation(anchor, values)
    decreases |values|
  {
    if values != [] {
      var value, rest := values[0], values[1..];
      var next := Next(Ascending, t, level, value);
      var trend' := TrendAfter(trend, level, next);
      ReversalNeedsTravel(t, trend, level, anchor, value);
      var from := if next == level then anchor else value;
      ReversalsFromAnchor(t, trend', next, from, rest);
      VariationTriangle(anchor, value, rest);
    }
  }

  lemma {:induction false} VariationOfNegated(from: real, values: seq<real>)
    ensures Variation(-from, Negated(values)) == Variation(from, values)
    decreases |values|
  {
    if values != [] {
      VariationOfNegated(values[0], values[1..]);
      assert Negated(values)[1..] == Negated(values[1..]);
    }
  }

  lemma TurnsBoundedByVariation(d: Direction, t: Thresholds, values: seq<real>)
    requires t.Ordered(d)
    ensures Times(Reversals(Flat, Normal, Run(d, t, Normal, values)), t.hysteresis) <= TotalVariation(values)
    decreases d.Descending?
  {
    match d {
      case Ascending =>
        if values != [] {
          ReversalsFromAnchor(t, Flat, Normal, values[0], values);
        }
      case Descending =>
        DescendingIsNegatedAscending(t, Normal, values);
        if values != [] {
          VariationOfNegated(values[0], values[1..]);
          assert Negated(values)[1..] == Negated(values[1..]);
        }
        TurnsBoundedByVariation(Ascending, t.Negated(), Negated(values));
    }
  }

  /** Main result: in either direction, each turn of the level history costs at least `hysteresis`
      of movement in the input. */
  lemma ReversalsBoundedByVariation(d: Direction, t: Thresholds, values: seq<real>)
    requires t.Ordered(d)
    ensures t.hysteresis * Reversals(Flat, Normal, Run(d, t, Normal, values)) as real <= TotalVariation(values)
  {
    hide *;
    TurnsBoundedByVariation(d, t, values);
    var turns := Reversals(Flat, Normal, Run(d, t, Normal, values));
    ProductBound(turns, t.hysteresis, TotalVariation(values));
  }

  /** Between turns the level moves one way through four levels, so at most three notifications. */
  lemma {:induction false} ChangesBoundedByReversals(trend: Trend, previous: Level, levels: seq<Level>)
    ensures Changes(previous, levels) <= 3 * Reversals(trend, previous, levels)
      + (match trend case Flat => 3 case Up => 3 - previous.Rank() case Down => previous.Rank())
    decreases |levels|
  {
    if levels != [] {
      ChangesBoundedByReversals(TrendAfter(trend, previous, levels[0]), levels[0], levels[1..]);
    }
  }

  lemma MarginIsNonNegative(d: Direction, t: Thresholds)
    requires t.Ordered(d)
    ensures t.hysteresis >= 0.0
  {
  }

  /** The number of level-change notifications of a whole run is bounded by the movement of its input. */
  lemma NotificationsBoundedByVariation(d: Direction, t: Thresholds, values: seq<real>)
    requires t.Ordered(d)
    ensures t.hysteresis * Changes(Normal, Run(d, t, Normal, values)) as real <= 3.0 * TotalVariation(values) + 3.0 * t.hysteresis
  {
    hide *;
    assert t.hysteresis >= 0.0 by { MarginIsNonNegative(d, t); }
    var levels := Run(d, t, Normal, values);
    ChangesBoundedByReversals(Flat, Normal, levels);
    TurnsBoundedByVariation(d, t, values);
    TimesOfTriple(Changes(Normal, levels), Reversals(Flat, Normal, levels), t.hysteresis);
    ProductBound(Changes(Normal, levels), t.hysteresis, 3.0 * TotalVariation(values) + 3.0 * t.hysteresis);
  }

  lemma {:induction false} TimesOfTriple(n: nat, m: nat, h: real)
    requires h >= 0.0 && n <= 3 * m + 3
    ensures 0.0 <= Times(n, h) <= 3.0 * Times(m, h) + 3.0 * h
    decreases m
  {
    assert Times(1, h) == h && Times(2, h) == h + Times(1, h) && Times(3, h) == h + Times(2, h);
    if n > 3 {
      TimesOfTriple(n - 3, m - 1, h);
      assert Times(n - 1, h) == h + Times(n - 2, h) && Times(n - 2, h) == h + Times(n - 3, h);
    } else if m > 0 {
      TimesOfTriple(n, m - 1, h);
    }
  }
}
