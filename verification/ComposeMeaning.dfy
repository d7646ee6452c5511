/** What applying the active actions means for one field: which effects speak, which operation and time constant they
    settle on, and what an interaction adds (src/sim/compose.rs:40-254). */
module ComposeMeaning {
  import opened Sequences
  import opened Wrappers
  import opened Compose
  import opened ComposeOrder
  import Physics

  // ---------- folding ----------

  lemma {:induction false} FoldConcat(c: Cell, xs: seq<Contribution>, ys: seq<Contribution>, all: seq<Contribution>)
    requires all == xs + ys
    ensures Fold(c, all) == Fold(Fold(c, xs), ys)
    decreases |ys|
  {
    if ys == [] {
      assert all == xs;
    } else {
      var init, k := ys[..|ys| - 1], ys[|ys| - 1];
      assert all == (xs + init) + [k];
      FoldConcat(c, xs, init, xs + init);
      hide Fold, Absorb;
      FoldGrows(c, all, xs + init, k);
      FoldGrows(Fold(c, xs), ys, init, k);
    }
  }

  lemma FoldOne(c: Cell, k: Contribution)
    ensures Fold(c, [k]) == Absorb(c, k)
  {
    hide Absorb;
    FoldGrows(c, [k], [], k);
  }

  lemma {:induction false} SilenceChangesNothing(c: Cell, ks: seq<Contribution>)
    requires forall i :: 0 <= i < |ks| ==> ks[i] == SILENT
    ensures Fold(c, ks) == c
    decreases |ks|
  {
    if ks != [] {
      SilenceChangesNothing(c, ks[..|ks| - 1]);
      AbsorbSilent(c);
    }
  }

  /** One that speaks among silent ones is all there is. */
  lemma OneSpeaks(c: Cell, ks: seq<Contribution>, i: nat)
    requires i < |ks| && forall j :: 0 <= j < |ks| && j != i ==> ks[j] == SILENT
    ensures Fold(c, ks) == Absorb(c, ks[i])
  {
    hide Fold, Absorb;
    var pre, k, post := ks[..i], ks[i], ks[i + 1..];
    assert ks == pre + [k] + post;
    FoldConcat(c, pre + [k], post, ks);
    FoldConcat(c, pre, [k], pre + [k]);
    SilenceChangesNothing(c, pre);
    FoldOne(c, k);
    SilenceChangesNothing(Fold(c, pre + [k]), post);
  }

  // ---------- which operation, operands, time constant and text a dimension ends up with ----------

  function FirstSome<T>(os: seq<Option<T>>): Option<T> {
    if os == [] then None else if os[0].Some? then os[0] else FirstSome(os[1..])
  }

  function LastSome<T>(os: seq<Option<T>>): Option<T> {
    if os == [] then None else if os[|os| - 1].Some? then os[|os| - 1] else LastSome(os[..|os| - 1])
  }

  lemma {:induction false} FirstSomeGrows<T>(os: seq<Option<T>>, o: Option<T>)
    ensures FirstSome(os + [o]) == if FirstSome(os).Some? then FirstSome(os) else o
    decreases |os|
  {
    if os == [] {
      assert os + [o] == [o] && [o][1..] == [];
    } else {
      assert (os + [o])[1..] == os[1..] + [o];
      FirstSomeGrows(os[1..], o);
    }
  }

  lemma LastSomeGrows<T>(os: seq<Option<T>>, o: Option<T>)
    ensures LastSome(os + [o]) == if o.Some? then o else LastSome(os)
  {
    assert (os + [o])[..|os|] == os;
  }

  function Ops(ks: seq<Contribution>): seq<Option<Op>> {
    seq(|ks|, i requires 0 <= i < |ks| => if ks[i].num.Some? then Some(ks[i].num.value.0) else None)
  }

  function Strongs(ks: seq<Contribution>): seq<Option<real>> {
    seq(|ks|, i requires 0 <= i < |ks| => ks[i].strong)
  }

  function Weaks(ks: seq<Contribution>): seq<Option<real>> {
    seq(|ks|, i requires 0 <= i < |ks| => ks[i].weak)
  }

  function Texts(ks: seq<Contribution>): seq<Option<string>> {
    seq(|ks|, i requires 0 <= i < |ks| => ks[i].text)
  }

  /** The first operation decides and takes every operand in order; the last strong time constant counts, without
      one the first weak one; and the last text. */
  ghost predicate Settles(ks: seq<Contribution>, c: Cell) {
    && c.num == (match FirstSome(Ops(ks)) case Some(op) => Some((op, Operands(ks))) case None => None)
    && c.tau == (if LastSome(Strongs(ks)).Some? then LastSome(Strongs(ks)) else FirstSome(Weaks(ks)))
    && c.text == LastSome(Texts(ks))
  }

  lemma ListsGrow(init: seq<Contribution>, k: Contribution)
    ensures Ops(init + [k]) == Ops(init) + [if k.num.Some? then Some(k.num.value.0) else None]
    ensures Strongs(init + [k]) == Strongs(init) + [k.strong]
    ensures Weaks(init + [k]) == Weaks(init) + [k.weak]
    ensures Texts(init + [k]) == Texts(init) + [k.text]
  {
  }

  lemma {:induction false} NoOps(ks: seq<Contribution>)
    requires FirstSome(Ops(ks)).None?
    ensures Operands(ks) == []
    decreases |ks|
  {
    if ks != [] {
      var init, k := ks[..|ks| - 1], ks[|ks| - 1];
      assert ks == init + [k];
      ListsGrow(init, k);
      FirstSomeGrows(Ops(init), if k.num.Some? then Some(k.num.value.0) else None);
      NoOps(init);
    }
  }

  lemma {:induction false} FoldSettles(ks: seq<Contribution>)
    ensures Settles(ks, Fold(EMPTY, ks))
    decreases |ks|
  {
    if ks != [] {
      var init, k := ks[..|ks| - 1], ks[|ks| - 1];
      assert ks == init + [k];
      FoldSettles(init);
      SettlesGrows(init, k, Fold(EMPTY, init));
      hide *;
      FoldGrows(EMPTY, ks, init, k);
    }
  }

  lemma SettlesGrows(init: seq<Contribution>, k: Contribution, c: Cell)
    requires Settles(init, c)
    ensures Settles(init + [k], Absorb(c, k))
  {
    hide FirstSome, LastSome, Ops, Strongs, Weaks, Texts, Operands;
    ListsGrow(init, k);
    OperandsGrow(init, k);
    var op := if k.num.Some? then Some(k.num.value.0) else None;
    FirstSomeGrows(Ops(init), op);
    FirstSomeGrows(Weaks(init), k.weak);
    LastSomeGrows(Strongs(init), k.strong);
    LastSomeGrows(Texts(init), k.text);
    if FirstSome(Ops(init)).None? {
      NoOps(init);
    }
    OperandAdds(Operands(init), k);
  }

  lemma OperandAdds(vs: seq<real>, k: Contribution)
    ensures vs + Operand(k) == if k.num.Some? then vs + [k.num.value.1] else vs
    ensures k.num.Some? ==> [] + [k.num.value.1] == [k.num.value.1]
  {
  }

  /** Everything said about a dimension: the active actions in order, then the interactions in order. */
  function Said(cfg: Scenario, active: seq<string>, d: string): seq<Contribution> {
    ActionsOn(cfg, active, d) + TermsOn(cfg, cfg.interactions, active, d)
  }

  /** What is gathered about a dimension. */
  lemma GatheredSettles(cfg: Scenario, active: seq<string>, d: string)
    ensures Settles(Said(cfg, active, d), Gathered(cfg, active, d))
  {
    hide *;
    GatheredIsSaid(cfg, active, d);
    FoldSettles(Said(cfg, active, d));
  }

  // ---------- what the operands come to ----------

  function Product(vs: seq<real>): real {
    if vs == [] then 1.0 else vs[0] * Product(vs[1..])
  }

  function Sum(vs: seq<real>): real {
    if vs == [] then 0.0 else vs[0] + Sum(vs[1..])
  }

  lemma {:induction false} ProductGrows(vs: seq<real>, v: real)
    ensures Product(vs + [v]) == Product(vs) * v
    decreases |vs|
  {
    if vs == [] {
      assert vs + [v] == [v] && [v][1..] == [];
    } else {
      assert (vs + [v])[1..] == vs[1..] + [v];
      ProductGrows(vs[1..], v);
      Regroup(vs[0], Product(vs[1..]), v);
    }
  }

  lemma Regroup(x: real, y: real, z: real)
    ensures x * (y * z) == x * y * z
  {
  }

  lemma {:induction false} SumGrows(vs: seq<real>, v: real)
    ensures Sum(vs + [v]) == Sum(vs) + v
    decreases |vs|
  {
    if vs == [] {
      assert vs + [v] == [v] && [v][1..] == [];
    } else {
      assert (vs + [v])[1..] == vs[1..] + [v];
      SumGrows(vs[1..], v);
    }
  }

  lemma {:induction false} ReduceMultiplies(vs: seq<real>)
    requires vs != []
    ensures Reduce(Multiply, vs) == Product(vs)
    decreases |vs|
  {
    var init, v := vs[..|vs| - 1], vs[|vs| - 1];
    assert vs == init + [v];
    ProductGrows(init, v);
    if |vs| > 1 {
      ReduceMultiplies(init);
    }
  }

  lemma {:induction false} ReduceAdds(op: Op, vs: seq<real>)
    requires vs != [] && (op == Add || op == AddDelta)
    ensures Reduce(op, vs) == Sum(vs)
    decreases |vs|
  {
    var init, v := vs[..|vs| - 1], vs[|vs| - 1];
    assert vs == init + [v];
    SumGrows(init, v);
    if |vs| > 1 {
      ReduceAdds(op, init);
    }
  }

  lemma {:induction false} ReduceChooses(op: Op, vs: seq<real>)
    requires vs != [] && (op == Max || op == Min)
    ensures Reduce(op, vs) in vs
    ensures forall v :: v in vs ==> if op == Max then v <= Reduce(op, vs) else Reduce(op, vs) <= v
    decreases |vs|
  {
    if |vs| > 1 {
      var init, v := vs[..|vs| - 1], vs[|vs| - 1];
      assert forall x :: x in vs <==> x in init || x == v;
      ReduceChooses(op, init);
    }
  }

  /** y is where the operation takes the value x with these operands. */
  ghost predicate Leads(op: Op, vs: seq<real>, x: real, y: real) {
    match op
    case Multiply => y == x * Product(vs)
    case Add => y == x + Sum(vs)
    case AddDelta => y == x + Sum(vs)
    case Max => y in vs && forall v :: v in vs ==> v <= y
    case Min => y in vs && forall v :: v in vs ==> y <= v
  }

  lemma OperandsOfOp(ks: seq<Contribution>)
    requires FirstSome(Ops(ks)).Some?
    ensures Operands(ks) != []
  {
    if Operands(ks) == [] {
      NoOperandsNoOps(ks);
    }
  }

  lemma {:induction false} NoOperandsNoOps(ks: seq<Contribution>)
    requires Operands(ks) == []
    ensures FirstSome(Ops(ks)).None?
    decreases |ks|
  {
    if ks != [] {
      var init, k := ks[..|ks| - 1], ks[|ks| - 1];
      assert ks == init + [k];
      ListsGrow(init, k);
      NoOperandsNoOps(init);
      FirstSomeGrows(Ops(init), None);
    }
  }

  /** Main result: a field no number speaks about keeps its value; any other goes, with the lag of the time constant
      that counts and at once without one, to where the first operation takes it with all operands. No field
      appears or disappears. */
  lemma FieldFollowsWhatIsSaid(m: Physics.Maths, cfg: Scenario, active: seq<string>, s: State, dt: real, d: string)
    requires active != [] && d in s.fields
    ensures var ks, s' := Said(cfg, active, d), Applied(m, cfg, active, s, dt);
            s'.fields.Keys == s.fields.Keys
            && match FirstSome(Ops(ks))
               case None => s'.fields[d] == s.fields[d]
               case Some(op) =>
                 var tau := if LastSome(Strongs(ks)).Some? then LastSome(Strongs(ks)) else FirstSome(Weaks(ks));
                 exists y :: Leads(op, Operands(ks), s.fields[d], y)
                          && s'.fields[d] == if tau.None? then y else Physics.LagStep(m, s.fields[d], y, tau.value, dt)
  {
    GatheredSettles(cfg, active, d);
    hide Gathered, Said, Ops, Strongs, Weaks, FirstSome, LastSome, Operands, Leads, Target, Physics.LagStep;
    var ks, x := Said(cfg, active, d), s.fields[d];
    if FirstSome(Ops(ks)).Some? {
      var op := FirstSome(Ops(ks)).value;
      OperandsOfOp(ks);
      TargetLeads(op, Operands(ks), x);
      var y := Target(op, Operands(ks), x);
      Physics.LagLeavesExponential(m, x, y, 0.0, dt);
    }
  }

  lemma TargetLeads(op: Op, vs: seq<real>, x: real)
    requires vs != []
    ensures Leads(op, vs, x, Target(op, vs, x))
  {
    hide Reduce, Product, Sum;
    match op
    case Multiply => ReduceMultiplies(vs);
    case Add => ReduceAdds(op, vs);
    case AddDelta => ReduceAdds(op, vs);
    case Max => ReduceChooses(op, vs);
    case Min => ReduceChooses(op, vs);
  }

  /** Only the last text set for `kv_dtype` reaches the state. */
  lemma TextFollowsWhatIsSaid(m: Physics.Maths, cfg: Scenario, active: seq<string>, s: State, dt: real)
    requires active != []
    ensures Applied(m, cfg, active, s, dt).kvDtype ==
              match LastSome(Texts(Said(cfg, active, "kv_dtype"))) case Some(t) => t case None => s.kvDtype
  {
    GatheredSettles(cfg, active, "kv_dtype");
    hide Gathered, Said, Texts, LastSome, Settled;
  }

  // ---------- who speaks ----------

  predicate ActionSpeaks(cfg: Scenario, name: string, d: string) {
    name in cfg.actions && cfg.actions[name].holds && d in cfg.actions[name].effects
  }

  predicate TermSpeaks(term: Interaction, active: seq<string>, d: string) {
    (forall a :: a in term.actions ==> a in active) && d in term.effects
  }

  ghost predicate NoActionSpeaks(cfg: Scenario, active: seq<string>, d: string) {
    forall a :: a in active ==> !ActionSpeaks(cfg, a, d)
  }

  ghost predicate NoTermSpeaks(cfg: Scenario, active: seq<string>, d: string) {
    forall t :: t in cfg.interactions ==> !TermSpeaks(t, active, d)
  }

  lemma SilentActions(cfg: Scenario, active: seq<string>, d: string, c: Cell)
    requires NoActionSpeaks(cfg, active, d)
    ensures Fold(c, ActionsOn(cfg, active, d)) == c
  {
    forall i | 0 <= i < |active| ensures ActionsOn(cfg, active, d)[i] == SILENT {
      assert !ActionSpeaks(cfg, active[i], d);
    }
    SilenceChangesNothing(c, ActionsOn(cfg, active, d));
  }

  lemma SilentTerms(cfg: Scenario, active: seq<string>, d: string, c: Cell)
    requires NoTermSpeaks(cfg, active, d)
    ensures Fold(c, TermsOn(cfg, cfg.interactions, active, d)) == c
  {
    var ts := cfg.interactions;
    forall i | 0 <= i < |ts| ensures TermsOn(cfg, ts, active, d)[i] == SILENT {
      assert !TermSpeaks(ts[i], active, d);
    }
    SilenceChangesNothing(c, TermsOn(cfg, ts, active, d));
  }

  /** A field nobody active speaks about keeps its value, and so does the text. */
  lemma UnspokenIsUnchanged(m: Physics.Maths, cfg: Scenario, active: seq<string>, s: State, dt: real, d: string)
    requires active == [] || (NoActionSpeaks(cfg, active, d) && NoTermSpeaks(cfg, active, d))
    ensures Applied(m, cfg, active, s, dt).fields.Keys == s.fields.Keys
    ensures d in s.fields ==> Applied(m, cfg, active, s, dt).fields[d] == s.fields[d]
    ensures d == "kv_dtype" ==> Applied(m, cfg, active, s, dt).kvDtype == s.kvDtype
  {
    if active != [] {
      SilentActions(cfg, active, d, EMPTY);
      SilentTerms(cfg, active, d, EMPTY);
    }
  }

  // ---------- one effect alone ----------

  /** The number a value stands for; a text and a failure stand for none. */
  function NumberOf(v: Value): Option<real> {
    match v
    case Literal(x) => Some(x)
    case Expr(Number(x)) => Some(x)
    case Expr(Text(_)) => None
    case Expr(Failure) => None
    case StringLiteral(_) => None
  }

  /** Where an effect alone takes a field from x, and how fast; nowhere when it holds no usable number. */
  function Aim(e: Effect, x: real): Option<(real, real)> {
    match e
    case SetTo(v, tau) => if NumberOf(v).Some? then Some((NumberOf(v).value, tau)) else None
    case ScaleBy(v, tau) => if NumberOf(v).Some? then Some((x * NumberOf(v).value, tau)) else None
    case AddTo(v, tau) => if NumberOf(v).Some? then Some((x + NumberOf(v).value, tau)) else None
    case SetTau(_) => None
  }

  /** The text an effect sets. */
  function TextOf(e: Effect): Option<string> {
    match e
    case SetTo(StringLiteral(t), _) => Some(t)
    case SetTo(Expr(Text(t)), _) => Some(t)
    case _ => None
  }

  function Reached(m: Physics.Maths, e: Effect, x: real, dt: real): real {
    match Aim(e, x)
    case None => x
    case Some(aim) => Physics.LagStep(m, x, aim.0, aim.1, dt)
  }

  /** Of what an interaction sets to only a literal number counts. */
  function InteractionReaches(m: Physics.Maths, e: Effect, x: real, dt: real): real {
    if e.SetTo? && !e.value.Literal? then x else Reached(m, e, x, dt)
  }

  lemma LagToItself(m: Physics.Maths, x: real, tau: real, dt: real)
    ensures Physics.LagStep(m, x, x, tau, dt) == x
  {
  }

  /** One effect in an empty cell settles as the effect alone. */
  lemma ActionAlone(m: Physics.Maths, rule: Op, e: Effect, x: real, dt: real)
    ensures Settle(m, Absorb(EMPTY, OfAction(rule, e)), x, dt) == Reached(m, e, x, dt)
  {
    OneTarget(x, NumberOr(if e.ScaleBy? then e.factor else Literal(0.0), 1.0));
    OneTarget(x, NumberOr(if e.AddTo? || e.SetTo? then e.value else Literal(0.0), 0.0));
    assert x * 1.0 == x;
    hide Physics.LagStep, Target;
    var tau := match e case SetTo(_, t) => t case ScaleBy(_, t) => t case AddTo(_, t) => t case SetTau(t) => t;
    LagToItself(m, x, tau, dt);
    LagToItself(m, x, 0.0, dt);
    WithoutLag(m, tau, dt);
  }

  lemma InteractionAlone(m: Physics.Maths, rule: Op, e: Effect, x: real, dt: real)
    ensures Settle(m, Absorb(EMPTY, OfInteraction(rule, e)), x, dt) == InteractionReaches(m, e, x, dt)
  {
    if e.SetTo? {
      OneTarget(x, NumberOr(e.value, 0.0));
      hide Physics.LagStep, Target;
      WithoutLag(m, e.tau, dt);
    } else {
      hide *;
      ActionAlone(m, rule, e, x, dt);
      SharedMeaning(m, rule, e, x, dt);
    }
  }

  lemma SharedMeaning(m: Physics.Maths, rule: Op, e: Effect, x: real, dt: real)
    requires !e.SetTo?
    ensures OfInteraction(rule, e) == OfAction(rule, e) && InteractionReaches(m, e, x, dt) == Reached(m, e, x, dt)
  {
  }

  lemma OneTarget(x: real, v: real)
    ensures Target(Multiply, [v], x) == x * v
    ensures Target(Add, [v], x) == x + v && Target(AddDelta, [v], x) == x + v
    ensures Target(Max, [v], x) == v && Target(Min, [v], x) == v
  {
  }

  lemma WithoutLag(m: Physics.Maths, tau: real, dt: real)
    ensures tau <= 0.0 ==> forall x, y :: Physics.LagStep(m, x, y, tau, dt) == Physics.LagStep(m, x, y, 0.0, dt)
  {
  }

  /** The text of an effect alone. */
  lemma TextAlone(rule: Op, e: Effect)
    ensures Absorb(EMPTY, OfAction(rule, e)).text == TextOf(e)
    ensures Absorb(EMPTY, OfInteraction(rule, e)).text == None
  {
  }

  /** When one active action alone speaks about a field, its effect decides it. */
  lemma OneActionDecides(m: Physics.Maths, cfg: Scenario, active: seq<string>, i: nat, s: State, dt: real, d: string)
    requires i < |active| && ActionSpeaks(cfg, active[i], d)
    requires forall j :: 0 <= j < |active| && j != i ==> !ActionSpeaks(cfg, active[j], d)
    requires NoTermSpeaks(cfg, active, d)
    ensures var e, s' := cfg.actions[active[i]].effects[d], Applied(m, cfg, active, s, dt);
            && (d in s.fields ==> d in s'.fields && s'.fields[d] == Reached(m, e, s.fields[d], dt))
            && (d == "kv_dtype" ==> s'.kvDtype == if TextOf(e).Some? then TextOf(e).value else s.kvDtype)
  {
    var e := cfg.actions[active[i]].effects[d];
    OneSpeaks(EMPTY, ActionsOn(cfg, active, d), i);
    SilentTerms(cfg, active, d, Fold(EMPTY, ActionsOn(cfg, active, d)));
    assert Gathered(cfg, active, d) == Absorb(EMPTY, OfAction(Rule(cfg, d), e));
    TextAlone(Rule(cfg, d), e);
    hide Gathered, Absorb, OfAction, Settle, Reached, TextOf, NoTermSpeaks;
    if d in s.fields {
      ActionAlone(m, Rule(cfg, d), e, s.fields[d], dt);
    }
  }

  /** When one interaction alone does, likewise, except that it sets no text. */
  lemma OneInteractionDecides(m: Physics.Maths, cfg: Scenario, active: seq<string>, i: nat, s: State, dt: real, d: string)
    requires active != [] && NoActionSpeaks(cfg, active, d)
    requires i < |cfg.interactions| && TermSpeaks(cfg.interactions[i], active, d)
    requires forall j :: 0 <= j < |cfg.interactions| && j != i ==> !TermSpeaks(cfg.interactions[j], active, d)
    ensures var e, s' := cfg.interactions[i].effects[d], Applied(m, cfg, active, s, dt);
            && (d in s.fields ==> d in s'.fields && s'.fields[d] == InteractionReaches(m, e, s.fields[d], dt))
            && (d == "kv_dtype" ==> s'.kvDtype == s.kvDtype)
  {
    var e := cfg.interactions[i].effects[d];
    SilentActions(cfg, active, d, EMPTY);
    OneSpeaks(EMPTY, TermsOn(cfg, cfg.interactions, active, d), i);
    assert Gathered(cfg, active, d) == Absorb(EMPTY, OfInteraction(Rule(cfg, d), e));
    TextAlone(Rule(cfg, d), e);
    hide Gathered, Absorb, OfInteraction, Settle, InteractionReaches, NoActionSpeaks;
    if d in s.fields {
      InteractionAlone(m, Rule(cfg, d), e, s.fields[d], dt);
    }
  }

  // ---------- several effects ----------

  /** The time constant an effect carries. */
  function TauSaid(e: Effect): Option<real> {
    match e
    case SetTo(v, tau) => if NumberOf(v).Some? && tau > 0.0 then Some(tau) else None
    case ScaleBy(_, tau) => if tau > 0.0 then Some(tau) else None
    case AddTo(_, tau) => if tau > 0.0 then Some(tau) else None
    case SetTau(tau) => Some(tau)
  }

  lemma TwoActionsSaid(cfg: Scenario, a: string, b: string, d: string)
    requires NoTermSpeaks(cfg, [a, b], d)
    ensures Gathered(cfg, [a, b], d) == Absorb(Absorb(EMPTY, ActionOn(cfg, a, d)), ActionOn(cfg, b, d))
  {
    hide ActionOn, Absorb;
    var ks := ActionsOn(cfg, [a, b], d);
    assert ks == [ActionOn(cfg, a, d)] + [ActionOn(cfg, b, d)];
    SilentTerms(cfg, [a, b], d, Fold(EMPTY, ks));
    FoldGrows(EMPTY, ks, [ActionOn(cfg, a, d)], ActionOn(cfg, b, d));
    FoldOne(EMPTY, ActionOn(cfg, a, d));
  }

  /** Of two actions in a row the second gives the time constant when it carries one and either sets, or the first
      carries none; else the first does. */
  lemma WhoseTimeConstant(cfg: Scenario, a: string, b: string, d: string)
    requires ActionSpeaks(cfg, a, d) && ActionSpeaks(cfg, b, d) && NoTermSpeaks(cfg, [a, b], d)
    ensures var e1, e2 := cfg.actions[a].effects[d], cfg.actions[b].effects[d];
            Gathered(cfg, [a, b], d).tau ==
              if TauSaid(e2).Some? && (e2.SetTo? || e2.SetTau? || TauSaid(e1).None?) then TauSaid(e2) else TauSaid(e1)
  {
    TwoActionsSaid(cfg, a, b, d);
    hide Gathered, NoTermSpeaks;
  }

  /** Two sets of a number in a row settle at once on the larger or, under the minimum, on the smaller. */
  lemma SetsSettle(m: Physics.Maths, op: Op, v1: real, v2: real, x: real, dt: real)
    requires op == Max || op == Min
    ensures var k1, k2 := SILENT.(num := Some((op, v1))), SILENT.(num := Some((op, v2)));
            Settle(m, Absorb(Absorb(EMPTY, k1), k2), x, dt) == if (v1 <= v2) == (op == Min) then v1 else v2
  {
    ReduceChooses(op, [v1, v2]);
    assert [v1] + [v2] == [v1, v2];
    hide Reduce;
  }

  /** Two actions that set a number: the larger one, whatever the dimension's rule. */
  lemma SetsTakeTheLarger(m: Physics.Maths, cfg: Scenario, a: string, b: string, s: State, dt: real, d: string, v1: real, v2: real)
    requires ActionSpeaks(cfg, a, d) && ActionSpeaks(cfg, b, d) && NoTermSpeaks(cfg, [a, b], d) && d in s.fields
    requires cfg.actions[a].effects[d] == SetTo(Literal(v1), 0.0) && cfg.actions[b].effects[d] == SetTo(Literal(v2), 0.0)
    ensures Applied(m, cfg, [a, b], s, dt).fields[d] == if v1 <= v2 then v2 else v1
  {
    TwoActionsSaid(cfg, a, b, d);
    assert ActionOn(cfg, a, d) == SILENT.(num := Some((Max, v1))) && ActionOn(cfg, b, d) == SILENT.(num := Some((Max, v2)));
    hide Gathered, NoTermSpeaks, ActionSpeaks, ActionOn, Absorb, Settle;
    SetsSettle(m, Max, v1, v2, s.fields[d], dt);
  }

  predicate RuledMin(cfg: Scenario, d: string) {
    if d in cfg.perDimension then cfg.perDimension[d] == Min else cfg.defaultOp == Min
  }

  /** Two interactions that set a number: the smaller one where the rule of the dimension, or else the default rule,
      is the minimum, and the larger one everywhere else. */
  lemma SetsOfInteractionsFollowTheRule(m: Physics.Maths, cfg: Scenario, active: seq<string>, t1: Interaction, t2: Interaction,
                                        s: State, dt: real, d: string, v1: real, v2: real)
    requires active != [] && d in s.fields && NoActionSpeaks(cfg, active, d) && cfg.interactions == [t1, t2]
    requires TermSpeaks(t1, active, d) && TermSpeaks(t2, active, d)
    requires t1.effects[d] == SetTo(Literal(v1), 0.0) && t2.effects[d] == SetTo(Literal(v2), 0.0)
    ensures Applied(m, cfg, active, s, dt).fields[d] == if (v1 <= v2) == RuledMin(cfg, d) then v1 else v2
  {
    var k1, k2 := OfInteraction(Rule(cfg, d), t1.effects[d]), OfInteraction(Rule(cfg, d), t2.effects[d]);
    var ts := TermsOn(cfg, cfg.interactions, active, d);
    assert ts == [k1] + [k2];
    SilentActions(cfg, active, d, EMPTY);
    FoldGrows(EMPTY, ts, [k1], k2);
    FoldOne(EMPTY, k1);
    assert Gathered(cfg, active, d) == Absorb(Absorb(EMPTY, k1), k2);
    var op := if RuledMin(cfg, d) then Min else Max;
    assert k1 == SILENT.(num := Some((op, v1))) && k2 == SILENT.(num := Some((op, v2)));
    hide Gathered, NoActionSpeaks, Fold, TermSpeaks, RuledMin, Absorb, OfInteraction, Settle;
    SetsSettle(m, op, v1, v2, s.fields[d], dt);
  }

  // ---------- adding an interaction ----------

  lemma SameGatheredSameState(m: Physics.Maths, cfg1: Scenario, cfg2: Scenario, active: seq<string>, s: State, dt: real)
    requires forall d :: Gathered(cfg1, active, d) == Gathered(cfg2, active, d)
    ensures Applied(m, cfg1, active, s, dt) == Applied(m, cfg2, active, s, dt)
  {
    hide Gathered, Settle;
  }

  lemma TermsSplit(cfg1: Scenario, cfg2: Scenario, pre: seq<Interaction>, term: Interaction, post: seq<Interaction>,
                   active: seq<string>, d: string)
    requires cfg1 == cfg2.(interactions := pre + [term] + post) && cfg2.interactions == pre + post
    ensures TermsOn(cfg1, cfg1.interactions, active, d)
         == TermsOn(cfg2, pre, active, d) + [TermOn(cfg2, term, active, d)] + TermsOn(cfg2, post, active, d)
    ensures TermsOn(cfg2, cfg2.interactions, active, d) == TermsOn(cfg2, pre, active, d) + TermsOn(cfg2, post, active, d)
    ensures ActionsOn(cfg1, active, d) == ActionsOn(cfg2, active, d)
  {
    hide OfInteraction, OfAction, Matches;
  }

  /** Main result: an interaction that names one action which is not active changes no state, wherever it stands
      among the others. */
  lemma UnmatchedInteractionIsInert(m: Physics.Maths, cfg: Scenario, pre: seq<Interaction>, term: Interaction, post: seq<Interaction>,
                                    active: seq<string>, s: State, dt: real, missing: string)
    requires cfg.interactions == pre + post
    requires missing in term.actions && missing !in active
    ensures Applied(m, cfg.(interactions := pre + [term] + post), active, s, dt) == Applied(m, cfg, active, s, dt)
  {
    var cfg1 := cfg.(interactions := pre + [term] + post);
    forall d ensures Gathered(cfg1, active, d) == Gathered(cfg, active, d) {
      UnmatchedGathersNothing(cfg1, cfg, pre, term, post, active, d);
    }
    hide *;
    SameGatheredSameState(m, cfg1, cfg, active, s, dt);
  }

  lemma UnmatchedGathersNothing(cfg1: Scenario, cfg: Scenario, pre: seq<Interaction>, term: Interaction, post: seq<Interaction>,
                                active: seq<string>, d: string)
    requires cfg1 == cfg.(interactions := pre + [term] + post) && cfg.interactions == pre + post
    requires exists a :: a in term.actions && a !in active
    ensures Gathered(cfg1, active, d) == Gathered(cfg, active, d)
  {
    hide Fold, TermsOn, ActionsOn, OfInteraction;
    var c := Fold(EMPTY, ActionsOn(cfg, active, d));
    var ks, ls := TermsOn(cfg, pre, active, d), TermsOn(cfg, post, active, d);
    TermsSplit(cfg1, cfg, pre, term, post, active, d);
    FoldConcat(c, ks + [SILENT], ls, ks + [SILENT] + ls);
    FoldConcat(c, ks, [SILENT], ks + [SILENT]);
    FoldConcat(c, ks, ls, ks + ls);
    SilenceChangesNothing(Fold(c, ks), [SILENT]);
  }

  /** A last interaction whose actions are all active says its effects after everything else. */
  lemma MatchedInteractionSaysLast(cfg: Scenario, term: Interaction, active: seq<string>, d: string)
    requires forall a :: a in term.actions ==> a in active
    ensures var cfg1 := cfg.(interactions := cfg.interactions + [term]);
            Said(cfg1, active, d) == Said(cfg, active, d)
                                     + [if d in term.effects then OfInteraction(Rule(cfg, d), term.effects[d]) else SILENT]
  {
    var cfg1 := cfg.(interactions := cfg.interactions + [term] + []);
    assert cfg1 == cfg.(interactions := cfg.interactions + [term]);
    assert cfg.interactions + [] == cfg.interactions;
    assert TermsOn(cfg, [], active, d) == [];
    var k := if d in term.effects then OfInteraction(Rule(cfg, d), term.effects[d]) else SILENT;
    assert TermOn(cfg, term, active, d) == k;
    hide TermsOn, ActionsOn, OfInteraction, TermOn;
    var xs, ys := ActionsOn(cfg, active, d), TermsOn(cfg, cfg.interactions, active, d);
    TermsSplit(cfg1, cfg, cfg.interactions, term, [], active, d);
    PlusNothing(ys);
    PlusNothing(ys + [k]);
    PlusAssociates(xs, ys, [k]);
  }

  lemma PlusNothing<T>(xs: seq<T>)
    ensures xs + [] == xs
  {
  }

  lemma GatheredIsSaid(cfg: Scenario, active: seq<string>, d: string)
    ensures Gathered(cfg, active, d) == Fold(EMPTY, Said(cfg, active, d))
  {
    hide Fold, ActionsOn, TermsOn;
    FoldConcat(EMPTY, ActionsOn(cfg, active, d), TermsOn(cfg, cfg.interactions, active, d), Said(cfg, active, d));
  }

  /** Main result: such an interaction has its effects absorbed after everything else, and what it does not name
      it leaves as it was. */
  lemma MatchedInteractionComesLast(m: Physics.Maths, cfg: Scenario, term: Interaction, active: seq<string>, s: State, dt: real, d: string)
    requires forall a :: a in term.actions ==> a in active
    ensures var cfg1 := cfg.(interactions := cfg.interactions + [term]);
            && Gathered(cfg1, active, d) == (if d in term.effects
                                             then Absorb(Gathered(cfg, active, d), OfInteraction(Rule(cfg, d), term.effects[d]))
                                             else Gathered(cfg, active, d))
            && (d !in term.effects && d in s.fields ==> Applied(m, cfg1, active, s, dt).fields[d] == Applied(m, cfg, active, s, dt).fields[d])
  {
    hide Fold, Said, OfInteraction, Absorb, Gathered, Rule, Settle;
    var cfg1 := cfg.(interactions := cfg.interactions + [term]);
    var k := if d in term.effects then OfInteraction(Rule(cfg, d), term.effects[d]) else SILENT;
    MatchedInteractionSaysLast(cfg, term, active, d);
    GatheredIsSaid(cfg1, active, d);
    GatheredIsSaid(cfg, active, d);
    FoldGrows(EMPTY, Said(cfg1, active, d), Said(cfg, active, d), k);
    AbsorbSilent(Gathered(cfg, active, d));
  }
}
