/** Composition of the effects of the active actions on the physical state (src/sim/compose.rs). */
module Compose {
  import opened Wrappers
  import Physics

  datatype Op = Multiply | Add | AddDelta | Max | Min

  /** What evaluating an expression in the context of the tick yields. */
  datatype Outcome = Text(s: string) | Number(v: real) | Failure

  datatype Value = Literal(v: real) | StringLiteral(s: string) | Expr(outcome: Outcome)

  datatype Effect =
    | SetTo(value: Value, tau: real)
    | ScaleBy(factor: Value, tau: real)
    | AddTo(value: Value, tau: real)
    | SetTau(tau: real)

  /** `holds` is the outcome of the action's condition; an absent condition holds, a failing one does not. */
  datatype Action = Action(holds: bool, effects: map<string, Effect>)

  datatype Interaction = Interaction(actions: seq<string>, effects: map<string, Effect>)

  datatype Scenario = Scenario(actions: map<string, Action>, defaultOp: Op, perDimension: map<string, Op>,
                               interactions: seq<Interaction>)

  function Rule(cfg: Scenario, dim: string): Op {
    if dim in cfg.perDimension then cfg.perDimension[dim] else cfg.defaultOp
  }

  function NumberOr(v: Value, default: real): real {
    match v
    case Literal(x) => x
    case Expr(Number(x)) => x
    case _ => default
  }

  function AddOp(rule: Op): Op {
    if rule == Add || rule == AddDelta then rule else Add
  }

  // ---------- specification: one dimension at a time ----------

  /** What has been gathered about one dimension: an operation with its operands, a time constant, a text. */
  datatype Cell = Cell(num: Option<(Op, seq<real>)>, tau: Option<real>, text: Option<string>)

  const EMPTY := Cell(None, None, None)

  /** What one effect says about its dimension. A strong time constant replaces what is there, a weak one only
      fills a gap. */
  datatype Contribution = Contribution(num: Option<(Op, real)>, strong: Option<real>, weak: Option<real>,
                                       text: Option<string>)

  const SILENT := Contribution(None, None, None, None)

  function Positive(tau: real): Option<real> {
    if tau > 0.0 then Some(tau) else None
  }

  function OfAction(rule: Op, e: Effect): Contribution {
    match e
    case SetTo(Literal(v), tau) => Contribution(Some((Max, v)), Positive(tau), None, None)
    case SetTo(StringLiteral(s), _) => SILENT.(text := Some(s))
    case SetTo(Expr(Text(s)), _) => SILENT.(text := Some(s))
    case SetTo(Expr(Number(v)), tau) => Contribution(Some((Max, v)), Positive(tau), None, None)
    case SetTo(Expr(Failure), _) => SILENT
    case ScaleBy(f, tau) => Contribution(Some((Multiply, NumberOr(f, 1.0))), None, Positive(tau), None)
    case AddTo(v, tau) => Contribution(Some((AddOp(rule), NumberOr(v, 0.0))), None, Positive(tau), None)
    case SetTau(tau) => SILENT.(strong := Some(tau))
  }

  /** Interactions follow the dimension's rule for `SetTo` and ignore every value that is not a literal there. */
  function OfInteraction(rule: Op, e: Effect): Contribution {
    match e
    case SetTo(Literal(v), tau) =>
      Contribution(Some((if rule == Max || rule == Min then rule else Max, v)), Positive(tau), None, None)
    case SetTo(_, _) => SILENT
    case _ => OfAction(rule, e)
  }

  function Absorb(c: Cell, k: Contribution): Cell {
    Cell(
      match k.num
      case None => c.num
      case Some((op, v)) => if c.num.None? then Some((op, [v])) else Some((c.num.value.0, c.num.value.1 + [v])),
      if k.strong.Some? then k.strong else if c.tau.None? then k.weak else c.tau,
      if k.text.Some? then k.text else c.text)
  }

  lemma AbsorbSilent(c: Cell)
    ensures Absorb(c, SILENT) == c
  {
  }

  function Fold(c: Cell, ks: seq<Contribution>): Cell {
    if ks == [] then c else Absorb(Fold(c, ks[..|ks| - 1]), ks[|ks| - 1])
  }

  function ActionOn(cfg: Scenario, name: string, dim: string): Contribution {
    if name in cfg.actions && cfg.actions[name].holds && dim in cfg.actions[name].effects
    then OfAction(Rule(cfg, dim), cfg.actions[name].effects[dim])
    else SILENT
  }

  function ActionsOn(cfg: Scenario, active: seq<string>, dim: string): (ks: seq<Contribution>)
    ensures |ks| == |active|
    ensures forall i :: 0 <= i < |ks| ==> ks[i] == ActionOn(cfg, active[i], dim)
  {
    seq(|active|, i requires 0 <= i < |active| => ActionOn(cfg, active[i], dim))
  }

  predicate Matches(term: Interaction, active: seq<string>) {
    forall a :: a in term.actions ==> a in active
  }

  function TermOn(cfg: Scenario, term: Interaction, active: seq<string>, dim: string): Contribution {
    if Matches(term, active) && dim in term.effects then OfInteraction(Rule(cfg, dim), term.effects[dim]) else SILENT
  }

  function TermsOn(cfg: Scenario, terms: seq<Interaction>, active: seq<string>, dim: string): (ks: seq<Contribution>)
    ensures |ks| == |terms|
    ensures forall i :: 0 <= i < |ks| ==> ks[i] == TermOn(cfg, terms[i], active, dim)
  {
    seq(|terms|, i requires 0 <= i < |terms| => TermOn(cfg, terms[i], active, dim))
  }

  /** Everything gathered about a dimension: the actions in the order they became active, then the interactions. */
  function Gathered(cfg: Scenario, active: seq<string>, dim: string): Cell {
    Fold(Fold(EMPTY, ActionsOn(cfg, active, dim)), TermsOn(cfg, cfg.interactions, active, dim))
  }

  function Combine(op: Op, x: real, y: real): real {
    match op
    case Multiply => x * y
    case Add => x + y
    case AddDelta => x + y
    case Max => if x < y then y else x
    case Min => if x < y then x else y
  }

  function Reduce(op: Op, vs: seq<real>): real
    requires vs != []
  {
    if |vs| == 1 then vs[0] else Combine(op, Reduce(op, vs[..|vs| - 1]), vs[|vs| - 1])
  }

  function Target(op: Op, vs: seq<real>, current: real): real
    requires vs != []
  {
    var v := Reduce(op, vs);
    match op
    case Multiply => current * v
    case Add => current + v
    case AddDelta => current + v
    case Max => v
    case Min => v
  }

  function Settle(m: Physics.Maths, c: Cell, current: real, dt: real): real {
    if c.num.None? || c.num.value.1 == [] then current
    else Physics.LagStep(m, current, Target(c.num.value.0, c.num.value.1, current),
                         if c.tau.Some? then c.tau.value else 0.0, dt)
  }

  datatype State = State(fields: map<string, real>, kvDtype: string)

  /** The state after one tick of action effects. Without active actions nothing happens, not even an
      interaction that asks for none. */
  function Applied(m: Physics.Maths, cfg: Scenario, active: seq<string>, s: State, dt: real): State {
    if active == [] then s
    else State(Settled(m, cfg, active, s.fields, dt), Retyped(cfg, active, s.kvDtype))
  }

  function Settled(m: Physics.Maths, cfg: Scenario, active: seq<string>, fields: map<string, real>, dt: real): map<string, real> {
    map d | d in fields :: Settle(m, Gathered(cfg, active, d), fields[d], dt)
  }

  /** Of the texts only the one for `kv_dtype` has a field to go to. */
  function Retyped(cfg: Scenario, active: seq<string>, kvDtype: string): string {
    var text := Gathered(cfg, active, "kv_dtype").text;
    if text.Some? then text.value else kvDtype
  }

  // ---------- the code: three maps filled by nested loops ----------

  /** The three maps the source fills, with one lookup through all of them. */
  class Collector {
    var dimEffects: map<string, (Op, seq<real>)>
    var dimTau: map<string, real>
    var stringSets: map<string, string>

    constructor ()
      ensures forall d :: At(d) == EMPTY
    {
      dimEffects, dimTau, stringSets := map[], map[], map[];
    }

    function At(d: string): Cell
      reads this
    {
      Cell(if d in dimEffects then Some(dimEffects[d]) else None,
           if d in dimTau then Some(dimTau[d]) else None,
           if d in stringSets then Some(stringSets[d]) else None)
    }

    /** Only the first operation seen for a dimension is kept. */
    method CollectEffect(dim: string, op: Op, value: real)
      modifies this`dimEffects
      ensures At(dim) == Absorb(old(At(dim)), SILENT.(num := Some((op, value))))
      ensures forall d :: d != dim ==> At(d) == old(At(d))
    {
      if dim !in dimEffects {
        dimEffects := dimEffects[dim := (op, [])];
      }
      var (kept, values) := dimEffects[dim];
      dimEffects := dimEffects[dim := (kept, values + [value])];
      assert [] + [value] == [value];
    }

    method InsertTau(dim: string, tau: real)
      modifies this`dimTau
      ensures At(dim) == Absorb(old(At(dim)), SILENT.(strong := Positive(tau)))
      ensures forall d :: d != dim ==> At(d) == old(At(d))
    {
      if tau > 0.0 {
        dimTau := dimTau[dim := tau];
      }
    }

    method OrInsertTau(dim: string, tau: real)
      modifies this`dimTau
      ensures At(dim) == Absorb(old(At(dim)), SILENT.(weak := Positive(tau)))
      ensures forall d :: d != dim ==> At(d) == old(At(d))
    {
      if tau > 0.0 && dim !in dimTau {
        dimTau := dimTau[dim := tau];
      }
    }

    /** The effect of a `SetTau`, a `ScaleBy` or an `AddTo`, which actions and interactions treat alike. */
    method TakeShared(dim: string, e: Effect, rule: Op)
      requires !e.SetTo?
      modifies this
      ensures At(dim) == Absorb(old(At(dim)), OfAction(rule, e))
      ensures forall d :: d != dim ==> At(d) == old(At(d))
    {
      match e {
        case ScaleBy(factor, tau) =>
          CollectEffect(dim, Multiply, NumberOr(factor, 1.0));
          OrInsertTau(dim, tau);
        case AddTo(value, tau) =>
          CollectEffect(dim, AddOp(rule), NumberOr(value, 0.0));
          OrInsertTau(dim, tau);
        case SetTau(tau) =>
          dimTau := dimTau[dim := tau];
      }
    }

    method TakeAction(dim: string, e: Effect, rule: Op)
      modifies this
      ensures At(dim) == Absorb(old(At(dim)), OfAction(rule, e))
      ensures forall d :: d != dim ==> At(d) == old(At(d))
    {
      match e {
        case SetTo(Literal(v), tau) =>
          CollectEffect(dim, Max, v);
          InsertTau(dim, tau);
        case SetTo(StringLiteral(s), _) =>
          stringSets := stringSets[dim := s];
        case SetTo(Expr(outcome), tau) =>
          match outcome {
            case Text(s) =>
              stringSets := stringSets[dim := s];
            case Number(v) =>
              CollectEffect(dim, Max, v);
              InsertTau(dim, tau);
            case Failure =>
          }
        case _ =>
          TakeShared(dim, e, rule);
      }
    }

    method TakeInteraction(dim: string, e: Effect, rule: Op)
      modifies this
      ensures At(dim) == Absorb(old(At(dim)), OfInteraction(rule, e))
      ensures forall d :: d != dim ==> At(d) == old(At(d))
    {
      match e {
        case SetTo(Literal(v), tau) =>
          CollectEffect(dim, if rule == Max || rule == Min then rule else Max, v);
          InsertTau(dim, tau);
        case SetTo(_, _) =>
        case _ =>
          TakeShared(dim, e, rule);
      }
    }

    /** All effects of one action. The order in which the map yields its dimensions is left open. */
    method TakeActionEffects(cfg: Scenario, effects: map<string, Effect>)
      modifies this
      ensures forall d :: At(d) == Absorb(old(At(d)), if d in effects then OfAction(Rule(cfg, d), effects[d]) else SILENT)
    {
      hide Absorb, OfAction, Rule, At;
      forall d ensures old(At(d)) == Absorb(old(At(d)), SILENT) { AbsorbSilent(old(At(d))); }
      var rest := effects.Keys;
      while rest != {}
        invariant rest <= effects.Keys
        invariant forall d :: At(d) == if d in effects && d !in rest then Absorb(old(At(d)), OfAction(Rule(cfg, d), effects[d])) else old(At(d))
        decreases rest
      {
        var dim :| dim in rest;
        TakeAction(dim, effects[dim], Rule(cfg, dim));
        rest := rest - {dim};
      }
    }

    method TakeInteractionEffects(cfg: Scenario, effects: map<string, Effect>)
      modifies this
      ensures forall d :: At(d) == Absorb(old(At(d)), if d in effects then OfInteraction(Rule(cfg, d), effects[d]) else SILENT)
    {
      hide Absorb, OfInteraction, Rule, At;
      forall d ensures old(At(d)) == Absorb(old(At(d)), SILENT) { AbsorbSilent(old(At(d))); }
      var rest := effects.Keys;
      while rest != {}
        invariant rest <= effects.Keys
        invariant forall d :: At(d) == if d in effects && d !in rest then Absorb(old(At(d)), OfInteraction(Rule(cfg, d), effects[d])) else old(At(d))
        decreases rest
      {
        var dim :| dim in rest;
        TakeInteraction(dim, effects[dim], Rule(cfg, dim));
        rest := rest - {dim};
      }
    }

    /** The loop over the active actions: unknown names and actions whose condition fails are passed over. */
    method TakeActions(cfg: Scenario, active: seq<string>)
      modifies this
      ensures forall d :: At(d) == Fold(old(At(d)), ActionsOn(cfg, active, d))
    {
      hide Absorb, OfAction, Rule, At;
      var i := 0;
      while i < |active|
        invariant 0 <= i <= |active|
        invariant forall d :: At(d) == Fold(old(At(d)), ActionsOn(cfg, active[..i], d))
      {
        label Before:
        var name := active[i];
        if name in cfg.actions && cfg.actions[name].holds {
          TakeActionEffects(cfg, cfg.actions[name].effects);
        }
        forall d ensures At(d) == Fold(old(At(d)), ActionsOn(cfg, active[..i + 1], d)) {
          assert At(d) == Absorb(old@Before(At(d)), ActionOn(cfg, name, d)) by { AbsorbSilent(old@Before(At(d))); }
          FoldGrows(old(At(d)), ActionsOn(cfg, active[..i + 1], d), ActionsOn(cfg, active[..i], d), ActionOn(cfg, name, d));
        }
        i := i + 1;
      }
      assert active[..|active|] == active;
    }

    method TakeInteractions(cfg: Scenario, active: seq<string>)
      modifies this
      ensures forall d :: At(d) == Fold(old(At(d)), TermsOn(cfg, cfg.interactions, active, d))
    {
      hide Absorb, OfInteraction, Rule, At;
      var terms := cfg.interactions;
      var i := 0;
      while i < |terms|
        invariant 0 <= i <= |terms|
        invariant forall d :: At(d) == Fold(old(At(d)), TermsOn(cfg, terms[..i], active, d))
      {
        label Before:
        if forall a :: a in terms[i].actions ==> a in active {
          TakeInteractionEffects(cfg, terms[i].effects);
        }
        forall d ensures At(d) == Fold(old(At(d)), TermsOn(cfg, terms[..i + 1], active, d)) {
          assert At(d) == Absorb(old@Before(At(d)), TermOn(cfg, terms[i], active, d)) by { AbsorbSilent(old@Before(At(d))); }
          FoldGrows(old(At(d)), TermsOn(cfg, terms[..i + 1], active, d), TermsOn(cfg, terms[..i], active, d),
                    TermOn(cfg, terms[i], active, d));
        }
        i := i + 1;
      }
      assert terms[..|terms|] == terms;
    }

    method Gather(cfg: Scenario, active: seq<string>)
      requires forall d :: At(d) == EMPTY
      modifies this
      ensures forall d :: At(d) == Gathered(cfg, active, d)
    {
      hide Fold, ActionsOn, TermsOn, At;
      TakeActions(cfg, active);
      TakeInteractions(cfg, active);
    }
  }

  lemma FoldGrows(c: Cell, all: seq<Contribution>, init: seq<Contribution>, k: Contribution)
    requires all == init + [k]
    ensures Fold(c, all) == Absorb(Fold(c, init), k)
  {
    assert all[..|all| - 1] == init;
  }

  class PhysicalState {
    var fields: map<string, real>
    var kvDtype: string

    function View(): State
      reads this
    {
      State(fields, kvDtype)
    }

    method ApplyNumbers(m: Physics.Maths, cfg: Scenario, active: seq<string>, c: Collector, dt: real)
      requires forall d :: c.At(d) == Gathered(cfg, active, d)
      modifies this`fields
      ensures fields == Settled(m, cfg, active, old(fields), dt)
    {
      hide Physics.LagStep, Target, Reduce, Gathered;
      ghost var was := fields;
      var rest := c.dimEffects.Keys;
      while rest != {}
        invariant rest <= c.dimEffects.Keys
        invariant fields.Keys == was.Keys
        invariant forall d :: d in fields ==>
          fields[d] == if d in c.dimEffects && d !in rest then Settle(m, c.At(d), was[d], dt) else was[d]
        decreases rest
      {
        var dim :| dim in rest;
        rest := rest - {dim};
        var (op, values) := c.dimEffects[dim];
        if values != [] && dim in fields {
          var tau := if dim in c.dimTau then c.dimTau[dim] else 0.0;
          var target := Target(op, values, fields[dim]);
          fields := fields[dim := Physics.LagStep(m, fields[dim], target, tau, dt)];
        }
      }
      forall d | d in was ensures fields[d] == Settle(m, Gathered(cfg, active, d), was[d], dt) {
        assert c.At(d) == Gathered(cfg, active, d);
      }
    }

    method ApplyTexts(cfg: Scenario, active: seq<string>, c: Collector)
      requires forall d :: c.At(d) == Gathered(cfg, active, d)
      modifies this`kvDtype
      ensures kvDtype == Retyped(cfg, active, old(kvDtype))
    {
      hide Gathered;
      var texts := c.stringSets.Keys;
      while texts != {}
        invariant texts <= c.stringSets.Keys
        invariant kvDtype == if "kv_dtype" in c.stringSets && "kv_dtype" !in texts then c.stringSets["kv_dtype"] else old(kvDtype)
        decreases texts
      {
        var dim :| dim in texts;
        texts := texts - {dim};
        if dim == "kv_dtype" {
          kvDtype := c.stringSets[dim];
        }
      }
      assert c.At("kv_dtype") == Gathered(cfg, active, "kv_dtype");
    }

    /** The maps' iteration orders are left open in every loop, so the result holds for each of them. */
    method ApplyActions(m: Physics.Maths, cfg: Scenario, active: seq<string>, dt: real)
      modifies this
      ensures View() == Applied(m, cfg, active, old(View()), dt)
    {
      if active == [] {
        return;
      }
      hide Gathered, Settled, Retyped, Collector.At;
      var c := new Collector();
      c.Gather(cfg, active);
      ApplyNumbers(m, cfg, active, c, dt);
      ApplyTexts(cfg, active, c);
    }
  }
}
