/** Exactly when the order of the active actions can be seen in the state (src/sim/compose.rs:40-254). */
module ComposeState {
  import opened Sequences
  import opened Wrappers
  import opened Compose
  import opened ComposeOrder
  import Physics

  // ---------- the time constant as a share of the way ----------

  /** All that is used of the exponential: it is 1 at zero, positive and strictly increasing. */
  ghost predicate IsExponential(m: Physics.Maths) {
    m.exp(0.0) == 1.0 && forall x, y :: x < y ==> 0.0 < m.exp(x) < m.exp(y)
  }

  /** The share of the way to the target that one tick covers. */
  function Share(m: Physics.Maths, tau: real, dt: real): real {
    if tau <= 0.0 then 1.0 else 1.0 - m.exp(-dt / tau)
  }

  /** Time constants that are not positive all mean at once. */
  predicate SameTau(t1: real, t2: real) {
    t1 == t2 || (t1 <= 0.0 && t2 <= 0.0)
  }

  lemma NegatedQuotient(dt: real, tau: real) returns (q: real)
    requires dt > 0.0 && tau > 0.0
    ensures q == -dt / tau && q < 0.0 && q * tau == -dt
  {
    q := -dt / tau;
    assert q * tau == -dt;
  }

  lemma EqualQuotients(q: real, t1: real, t2: real, dt: real)
    requires dt > 0.0 && q * t1 == -dt && q * t2 == -dt
    ensures t1 == t2
  {
    assert q * (t1 - t2) == 0.0;
    assert q != 0.0;
  }

  lemma SharesDifferIffTausDo(m: Physics.Maths, t1: real, t2: real, dt: real)
    requires IsExponential(m) && dt > 0.0
    ensures 0.0 < Share(m, t1, dt) <= 1.0
    ensures Share(m, t1, dt) == Share(m, t2, dt) <==> SameTau(t1, t2)
  {
    if t1 > 0.0 {
      var q1 := NegatedQuotient(dt, t1);
      if t2 > 0.0 {
        var q2 := NegatedQuotient(dt, t2);
        if q1 == q2 {
          EqualQuotients(q1, t1, t2, dt);
        }
        assert q1 < q2 || q2 < q1 || q1 == q2;
      }
    } else if t2 > 0.0 {
      var q2 := NegatedQuotient(dt, t2);
    }
  }

  // ---------- two ways to settle one value ----------

  /** A value pulled by the share k of the way to its target. */
  function Pulled(op: Op, v: real, k: real, x: real): real {
    match op
    case Multiply => x + (x * v - x) * k
    case Add => x + (x + v - x) * k
    case AddDelta => x + (x + v - x) * k
    case Max => x + (v - x) * k
    case Min => x + (v - x) * k
  }

  predicate IsAdd(op: Op) { op == Add || op == AddDelta }

  /** The operands leave every value as it is: their product is one, or their sum nothing. */
  predicate Neutral(op: Op, vs: seq<real>)
    requires vs != []
  {
    (op == Multiply && Reduce(op, vs) == 1.0) || (IsAdd(op) && Reduce(op, vs) == 0.0)
  }

  /** Multiplying by zero and setting to zero are the one pair of different operations with the same effect:
      the largest operand is zero, and so is the product. */
  predicate BothZero(op1: Op, op2: Op, vs: seq<real>)
    requires vs != []
  {
    ((op1 == Multiply && op2 == Max) || (op1 == Max && op2 == Multiply)) && Reduce(Max, vs) == 0.0
  }

  predicate SamePull(op1: Op, op2: Op, vs: seq<real>)
    requires vs != []
  {
    op1 == op2 || (IsAdd(op1) && IsAdd(op2)) || BothZero(op1, op2, vs)
  }

  /** The operations an action can bring to a dimension. */
  predicate OfActions(op: Op) { op != Min }

  ghost predicate PullAlike(op1: Op, k1: real, op2: Op, k2: real, vs: seq<real>)
    requires vs != []
  {
    forall x :: Pulled(op1, Reduce(op1, vs), k1, x) == Pulled(op2, Reduce(op2, vs), k2, x)
  }

  lemma {:induction false} ZeroMaxMeansZeroProduct(vs: seq<real>)
    requires vs != [] && Reduce(Max, vs) == 0.0
    ensures Reduce(Multiply, vs) == 0.0
    decreases |vs|
  {
    if |vs| > 1 {
      var init, last := vs[..|vs| - 1], vs[|vs| - 1];
      if last != 0.0 {
        ZeroMaxMeansZeroProduct(init);
      }
    }
  }

  /** A pull is a line: its slope and its value at zero. */
  function Slope(op: Op, v: real, k: real): real {
    match op
    case Multiply => 1.0 + (v - 1.0) * k
    case Add => 1.0
    case AddDelta => 1.0
    case Max => 1.0 - k
    case Min => 1.0 - k
  }

  function AtZero(op: Op, v: real, k: real): real {
    if op == Multiply then 0.0 else v * k
  }

  lemma PullIsALine(op: Op, v: real, k: real, x: real)
    ensures Pulled(op, v, k, x) == Slope(op, v, k) * x + AtZero(op, v, k)
  {
    if op == Multiply {
      assert (x * v - x) * k == ((v - 1.0) * k) * x;
    } else if !IsAdd(op) {
      assert (v - x) * k == v * k - k * x;
      assert (1.0 - k) * x == x - k * x;
    }
  }

  lemma ProductIsZero(x: real, k: real)
    requires k > 0.0
    ensures x * k == 0.0 <==> x == 0.0
  {
  }

  lemma ProductsAreEqual(x: real, k1: real, k2: real)
    ensures x * k1 == x * k2 <==> x == 0.0 || k1 == k2
  {
    assert x * k1 - x * k2 == x * (k1 - k2);
  }

  lemma LinesAreEqual(op1: Op, v1: real, k1: real, op2: Op, v2: real, k2: real)
    ensures (forall x :: Pulled(op1, v1, k1, x) == Pulled(op2, v2, k2, x))
       <==> (Slope(op1, v1, k1) == Slope(op2, v2, k2) && AtZero(op1, v1, k1) == AtZero(op2, v2, k2))
  {
    hide Pulled, Slope, AtZero;
    PullIsALine(op1, v1, k1, 0.0);
    PullIsALine(op2, v2, k2, 0.0);
    PullIsALine(op1, v1, k1, 1.0);
    PullIsALine(op2, v2, k2, 1.0);
    forall x | Slope(op1, v1, k1) == Slope(op2, v2, k2) && AtZero(op1, v1, k1) == AtZero(op2, v2, k2)
      ensures Pulled(op1, v1, k1, x) == Pulled(op2, v2, k2, x)
    {
      PullIsALine(op1, v1, k1, x);
      PullIsALine(op2, v2, k2, x);
    }
  }

  lemma {:induction false} AddsReduceAlike(vs: seq<real>)
    requires vs != []
    ensures Reduce(Add, vs) == Reduce(AddDelta, vs)
    decreases |vs|
  {
    if |vs| > 1 {
      AddsReduceAlike(vs[..|vs| - 1]);
    }
  }

  /** The lines of two operations, case by case. */
  lemma SlopesAreEqual(op1: Op, v1: real, k1: real, op2: Op, v2: real, k2: real)
    requires 0.0 < k1 <= 1.0 && 0.0 < k2 <= 1.0
    ensures (Slope(op1, v1, k1) == Slope(op2, v2, k2) && AtZero(op1, v1, k1) == AtZero(op2, v2, k2)) <==>
      if op1 == Multiply then
        if op2 == Multiply then (v1 - 1.0) * k1 == (v2 - 1.0) * k2
        else if IsAdd(op2) then v1 == 1.0 && v2 == 0.0
        else v2 == 0.0 && (v1 - 1.0) * k1 == -k2
      else if IsAdd(op1) then
        if op2 == Multiply then v2 == 1.0 && v1 == 0.0
        else if IsAdd(op2) then v1 * k1 == v2 * k2
        else false
      else
        if op2 == Multiply then v1 == 0.0 && (v2 - 1.0) * k2 == -k1
        else if IsAdd(op2) then false
        else k1 == k2 && v1 * k1 == v2 * k2
  {
    ProductIsZero(v1 - 1.0, k1);
    ProductIsZero(v2 - 1.0, k2);
    ProductIsZero(v1, k1);
    ProductIsZero(v2, k2);
  }

  predicate LeavesAlone(op: Op, v: real) {
    (op == Multiply && v == 1.0) || (IsAdd(op) && v == 0.0)
  }

  predicate SameOrZero(op1: Op, v1: real, op2: Op, v2: real) {
    || op1 == op2
    || (IsAdd(op1) && IsAdd(op2))
    || (op1 == Multiply && op2 == Max && v2 == 0.0)
    || (op1 == Max && op2 == Multiply && v1 == 0.0)
  }

  lemma LinesMatch(op1: Op, v1: real, k1: real, op2: Op, v2: real, k2: real)
    requires 0.0 < k1 <= 1.0 && 0.0 < k2 <= 1.0
    requires op1 == op2 || (OfActions(op1) && OfActions(op2))
    requires SameOrZero(op1, v1, op2, v2) ==> v1 == v2
    ensures (Slope(op1, v1, k1) == Slope(op2, v2, k2) && AtZero(op1, v1, k1) == AtZero(op2, v2, k2))
       <==> ((SameOrZero(op1, v1, op2, v2) && k1 == k2) || (LeavesAlone(op1, v1) && LeavesAlone(op2, v2)))
  {
    hide Slope, AtZero;
    if op1 == Multiply && op2 == Multiply {
      ProductsMatch(v1, k1, k2);
    } else if IsAdd(op1) && IsAdd(op2) {
      SumsMatch(op1, op2, v1, k1, k2);
    } else if op1 == Multiply && op2 == Max && v2 == 0.0 {
      ZerosMatch(k1, k2);
    } else if op1 == Max && op2 == Multiply && v1 == 0.0 {
      ZerosMatch(k2, k1);
    } else {
      SlopesAreEqual(op1, v1, k1, op2, v2, k2);
    }
  }

  predicate SameLine(op1: Op, v1: real, k1: real, op2: Op, v2: real, k2: real) {
    Slope(op1, v1, k1) == Slope(op2, v2, k2) && AtZero(op1, v1, k1) == AtZero(op2, v2, k2)
  }

  lemma ProductsMatch(v: real, k1: real, k2: real)
    ensures SameLine(Multiply, v, k1, Multiply, v, k2) <==> v == 1.0 || k1 == k2
  {
    ProductsAreEqual(v - 1.0, k1, k2);
  }

  lemma SumsMatch(op1: Op, op2: Op, v: real, k1: real, k2: real)
    requires IsAdd(op1) && IsAdd(op2)
    ensures SameLine(op1, v, k1, op2, v, k2) <==> v == 0.0 || k1 == k2
  {
    ProductsAreEqual(v, k1, k2);
  }

  lemma ZerosMatch(k1: real, k2: real)
    ensures SameLine(Multiply, 0.0, k1, Max, 0.0, k2) <==> k1 == k2
  {
  }

  lemma ZeroMaxDecides(op1: Op, op2: Op, vs: seq<real>)
    requires vs != []
    ensures SameOrZero(op1, Reduce(op1, vs), op2, Reduce(op2, vs)) <==> SamePull(op1, op2, vs)
    ensures SamePull(op1, op2, vs) ==> Reduce(op1, vs) == Reduce(op2, vs)
  {
    AddsReduceAlike(vs);
    if Reduce(Max, vs) == 0.0 {
      ZeroMaxMeansZeroProduct(vs);
    }
    hide Reduce;
  }

  /** Two ways to settle a dimension agree on every value exactly when they are the same operation at the same
      share, or when neither changes anything. */
  lemma PullAlikeIff(op1: Op, k1: real, op2: Op, k2: real, vs: seq<real>)
    requires vs != [] && 0.0 < k1 <= 1.0 && 0.0 < k2 <= 1.0
    requires op1 == op2 || (OfActions(op1) && OfActions(op2))
    ensures PullAlike(op1, k1, op2, k2, vs)
       <==> ((SamePull(op1, op2, vs) && k1 == k2) || (Neutral(op1, vs) && Neutral(op2, vs)))
  {
    hide Reduce, Pulled, Slope, AtZero, SameOrZero, SamePull;
    LinesAreEqual(op1, Reduce(op1, vs), k1, op2, Reduce(op2, vs), k2);
    ZeroMaxDecides(op1, op2, vs);
    LinesMatch(op1, Reduce(op1, vs), k1, op2, Reduce(op2, vs), k2);
  }

  // ---------- what is gathered, split into actions and interactions ----------

  function TauOf(c: Cell): real {
    if c.tau.Some? then c.tau.value else 0.0
  }

  /** All operands of a dimension, those of the actions first. */
  function AllOperands(ks: seq<Contribution>, ts: seq<Contribution>): seq<real> {
    Operands(ks) + Operands(ts)
  }

  /** `g` is what comes of `c` when contributions with these operands, gathering to `t` on their own, follow it. */
  ghost predicate Onto(c: Cell, g: Cell, t: Cell, vs: seq<real>, strong: bool) {
    && (c.num.Some? ==> g.num == Some((c.num.value.0, c.num.value.1 + vs)))
    && (c.num.None? ==> g.num == t.num)
    && g.tau == (if strong || c.tau.None? then t.tau else c.tau)
    && g.text == (if t.text.Some? then t.text else c.text)
  }

  lemma AbsorbOnto(c: Cell, g: Cell, t: Cell, vs: seq<real>, strong: bool, k: Contribution)
    requires Onto(c, g, t, vs, strong) && (strong ==> t.tau.Some?)
    ensures Onto(c, Absorb(g, k), Absorb(t, k), vs + Operand(k), strong || k.strong.Some?)
  {
    if c.num.Some? {
      PlusAssociates(c.num.value.1, vs, Operand(k));
      assert c.num.value.1 + vs + [] == c.num.value.1 + vs && vs + [] == vs;
    }
  }

  /** The interactions add to what the actions left: their operands at the end, their time constant if they
      have a strong one or the actions have none. */
  lemma {:induction false} FoldOnto(c: Cell, ts: seq<Contribution>)
    ensures Onto(c, Fold(c, ts), Fold(EMPTY, ts), Operands(ts), HasStrong(ts))
    decreases |ts|
  {
    hide *;
    if ts == [] {
      OntoNothing(c);
    } else {
      var init, k := ts[..|ts| - 1], ts[|ts| - 1];
      assert ts == init + [k];
      FoldOnto(c, init);
      StrongIsGathered(init);
      OperandsGrow(init, k);
      StrongGrows(init, k);
      FoldGrows(c, ts, init, k);
      FoldGrows(EMPTY, ts, init, k);
      AbsorbOnto(c, Fold(c, init), Fold(EMPTY, init), Operands(init), HasStrong(init), k);
    }
  }

  lemma OntoNothing(c: Cell)
    ensures Onto(c, Fold(c, []), Fold(EMPTY, []), Operands([]), HasStrong([]))
  {
    assert c.num.Some? ==> c.num.value.1 + [] == c.num.value.1;
  }

  lemma StrongIsGathered(ks: seq<Contribution>)
    ensures HasStrong(ks) ==> Fold(EMPTY, ks).tau.Some?
  {
    FoldIsWitnessed(ks);
    hide Fold, HasStrong;
  }

  lemma StrongGrows(init: seq<Contribution>, k: Contribution)
    ensures HasStrong(init + [k]) <==> HasStrong(init) || k.strong.Some?
  {
    assert k in init + [k];
    if HasStrong(init) {
      var x :| x in init && x.strong.Some?;
      assert x in init + [k];
    }
  }

  // ---------- which operation leads ----------

  /** In some order of the contributions `ks`, followed by `ts`, the operation `op` is the first to be seen. */
  ghost predicate CanLead(ks: seq<Contribution>, ts: seq<Contribution>, op: Op) {
    || (exists k :: k in ks && k.num.Some? && k.num.value.0 == op)
    || ((forall k :: k in ks ==> k.num.None?) && Fold(EMPTY, ts).num.Some? && Fold(EMPTY, ts).num.value.0 == op)
  }

  lemma {:induction false} SomeOperand(ks: seq<Contribution>, k: Contribution)
    requires k in ks && k.num.Some?
    ensures Operands(ks) != []
    decreases |ks|
  {
    var init, last := ks[..|ks| - 1], ks[|ks| - 1];
    if k != last {
      SomeOperand(init, k);
    }
  }

  /** What is gathered has all operands, under an operation that can lead. */
  lemma GatheredNum(ks: seq<Contribution>, ts: seq<Contribution>)
    ensures var g := Fold(Fold(EMPTY, ks), ts);
            if g.num.None? then AllOperands(ks, ts) == []
            else g.num.value.1 == AllOperands(ks, ts) != [] && CanLead(ks, ts, g.num.value.0)
  {
    var c, t := Fold(EMPTY, ks), Fold(EMPTY, ts);
    FoldOnto(c, ts);
    FoldIsWitnessed(ks);
    FoldIsWitnessed(ts);
    hide Fold, Operands, TextWitnessed, TauWitnessed;
    NumIsGathered(ks, c);
    NumIsGathered(ts, t);
  }

  lemma NumIsGathered(ks: seq<Contribution>, c: Cell)
    requires NumWitnessed(ks, c)
    ensures c.num.None? <==> Operands(ks) == []
  {
    if c.num.None? {
      NoOperands(ks);
    } else {
      var k :| k in ks && k.num.Some?;
      SomeOperand(ks, k);
    }
  }

  // ---------- which time constant lasts ----------

  /** Whatever the order of `ks`, the same time constant results, up to those that mean at once. */
  ghost predicate TausAgree(ks: seq<Contribution>, ts: seq<Contribution>) {
    || HasStrong(ts)
    || (if HasStrong(ks)
        then forall k1, k2 :: k1 in ks && k2 in ks && k1.strong.Some? && k2.strong.Some? ==> SameTau(k1.strong.value, k2.strong.value)
        else forall k1, k2 :: k1 in ks && k2 in ks && k1.weak.Some? && k2.weak.Some? ==> SameTau(k1.weak.value, k2.weak.value))
  }

  lemma AgreeingTausLast(ks1: seq<Contribution>, ks2: seq<Contribution>, ts: seq<Contribution>)
    requires TausAgree(ks1, ts) && forall k :: k in ks1 <==> k in ks2
    ensures SameTau(TauOf(Fold(Fold(EMPTY, ks1), ts)), TauOf(Fold(Fold(EMPTY, ks2), ts)))
  {
    var c1, c2 := Fold(EMPTY, ks1), Fold(EMPTY, ks2);
    FoldOnto(c1, ts);
    FoldOnto(c2, ts);
    FoldIsWitnessed(ks1);
    FoldIsWitnessed(ks2);
    hide Fold, Operands, NumWitnessed, TextWitnessed;
    assert HasStrong(ks1) == HasStrong(ks2);
    if !HasStrong(ts) {
      TausOfMembers(ks1, c1, ks2, c2);
    }
  }

  lemma TausOfMembers(ks1: seq<Contribution>, c1: Cell, ks2: seq<Contribution>, c2: Cell)
    requires TauWitnessed(ks1, c1) && TauWitnessed(ks2, c2) && forall k :: k in ks1 <==> k in ks2
    requires TausAgree(ks1, [])
    ensures c1.tau.Some? == c2.tau.Some? && (c1.tau.Some? ==> SameTau(c1.tau.value, c2.tau.value))
  {
    assert HasStrong(ks1) == HasStrong(ks2);
    assert !HasStrong([]);
  }

  // ---------- a dimension of the state ----------

  /** What the actions and interactions say about a dimension, and what is gathered from it. */
  function Interactions(cfg: Scenario, active: seq<string>, d: string): seq<Contribution> {
    TermsOn(cfg, cfg.interactions, active, d)
  }

  /** The value of a dimension after one tick of action effects. */
  function FieldAfter(m: Physics.Maths, cfg: Scenario, active: seq<string>, s: State, dt: real, d: string): real
    requires d in s.fields
  {
    Applied(m, cfg, active, s, dt).fields[d]
  }

  /** The order of the active actions cannot be seen in a dimension, whatever the state is. */
  ghost predicate OrderUnseen(m: Physics.Maths, cfg: Scenario, active: seq<string>, dt: real, d: string) {
    forall other, s: State :: Permutes(active, other) && d in s.fields ==>
      FieldAfter(m, cfg, other, s, dt, d) == FieldAfter(m, cfg, active, s, dt, d)
  }

  /** The condition, in terms of what the actions and interactions say: there is no operand, or every operation
      that can lead leaves all values alone, or all that can lead do the same and the time constants agree. */
  ghost predicate Harmless(ks: seq<Contribution>, ts: seq<Contribution>) {
    var vs := AllOperands(ks, ts);
    || vs == []
    || (forall op :: CanLead(ks, ts, op) ==> Neutral(op, vs))
    || (TausAgree(ks, ts) && forall op1, op2 :: CanLead(ks, ts, op1) && CanLead(ks, ts, op2) ==> SamePull(op1, op2, vs))
  }

  lemma SettleIsPull(m: Physics.Maths, c: Cell, x: real, dt: real)
    requires c.num.Some? && c.num.value.1 != []
    ensures Settle(m, c, x, dt) == Pulled(c.num.value.0, Reduce(c.num.value.0, c.num.value.1), Share(m, TauOf(c), dt), x)
  {
    hide Reduce;
  }

  lemma ActionsNeverMinimise(cfg: Scenario, active: seq<string>, d: string, op: Op)
    requires exists k :: k in ActionsOn(cfg, active, d) && k.num.Some? && k.num.value.0 == op
    ensures OfActions(op)
  {
  }

  lemma LeadersCompare(cfg: Scenario, active: seq<string>, d: string, op1: Op, op2: Op)
    requires CanLead(ActionsOn(cfg, active, d), Interactions(cfg, active, d), op1)
    requires CanLead(ActionsOn(cfg, active, d), Interactions(cfg, active, d), op2)
    ensures op1 == op2 || (OfActions(op1) && OfActions(op2))
  {
    if op1 != op2 {
      hide ActionsOn, TermsOn, Fold;
      ActionsNeverMinimise(cfg, active, d, op1);
      ActionsNeverMinimise(cfg, active, d, op2);
    }
  }

  /** Everything the order of the actions leaves unchanged about a dimension. */
  lemma PermutedSame(cfg: Scenario, active: seq<string>, other: seq<string>, d: string)
    requires Permutes(active, other)
    ensures var ks, ks', ts := ActionsOn(cfg, active, d), ActionsOn(cfg, other, d), Interactions(cfg, active, d);
            && Interactions(cfg, other, d) == ts
            && (forall k :: k in ks <==> k in ks')
            && Permutes(AllOperands(ks, ts), AllOperands(ks', ts))
            && (AllOperands(ks, ts) == [] <==> AllOperands(ks', ts) == [])
            && (forall op :: CanLead(ks, ts, op) <==> CanLead(ks', ts, op))
  {
    PermutedMembers(cfg, active, other, d);
    PermutedMembers(cfg, other, active, d);
    PermutedOperands(cfg, active, other, d);
    InteractionsIgnoreOrder(cfg, active, other, d);
    hide ActionsOn, TermsOn, Operands, Fold;
    var ks, ks', ts := ActionsOn(cfg, active, d), ActionsOn(cfg, other, d), Interactions(cfg, active, d);
    AppendedPermute(Operands(ks), Operands(ks'), Operands(ts));
    PermutedEmpty(AllOperands(ks, ts), AllOperands(ks', ts));
  }

  lemma AppendedPermute<T>(a: seq<T>, b: seq<T>, c: seq<T>)
    requires Permutes(a, b)
    ensures Permutes(a + c, b + c)
  {
  }

  lemma PermutedEmpty<T>(a: seq<T>, b: seq<T>)
    requires Permutes(a, b)
    ensures a == [] <==> b == []
  {
    assert |multiset(a)| == |a| && |multiset(b)| == |b|;
  }

  /** A dimension that has operands is pulled; one that has none keeps its value. */
  lemma FieldIsPulled(m: Physics.Maths, cfg: Scenario, active: seq<string>, s: State, dt: real, d: string)
    requires active != [] && d in s.fields
    ensures var ks, ts := ActionsOn(cfg, active, d), Interactions(cfg, active, d);
            var g, x := Gathered(cfg, active, d), FieldAfter(m, cfg, active, s, dt, d);
            if g.num.None? then AllOperands(ks, ts) == [] && x == s.fields[d]
            else AllOperands(ks, ts) != [] && CanLead(ks, ts, g.num.value.0)
                 && x == Pulled(g.num.value.0, Reduce(g.num.value.0, AllOperands(ks, ts)), Share(m, TauOf(g), dt), s.fields[d])
  {
    GatheredNum(ActionsOn(cfg, active, d), Interactions(cfg, active, d));
    hide ActionsOn, TermsOn, Fold, AllOperands, CanLead, Reduce, Pulled, Share;
    var g := Gathered(cfg, active, d);
    if g.num.Some? {
      SettleIsPull(m, g, s.fields[d], dt);
    }
  }

  /** The pull on a dimension when the actions are taken in this order. */
  ghost predicate PulledBy(m: Physics.Maths, cfg: Scenario, active: seq<string>, dt: real, d: string,
                           vs: seq<real>, op: Op, k: real)
    requires vs != []
  {
    forall s: State :: d in s.fields ==> FieldAfter(m, cfg, active, s, dt, d) == Pulled(op, Reduce(op, vs), k, s.fields[d])
  }

  /** Whatever the order, it is one of the leading operations on the same operands. */
  lemma OtherOrderPulls(m: Physics.Maths, cfg: Scenario, active: seq<string>, other: seq<string>, dt: real, d: string)
    returns (op: Op, tau: real)
    requires active != [] && Permutes(active, other) && AllOperands(ActionsOn(cfg, active, d), Interactions(cfg, active, d)) != []
    ensures var ks, ts := ActionsOn(cfg, active, d), Interactions(cfg, active, d);
            && CanLead(ks, ts, op)
            && Gathered(cfg, other, d).num.Some? && op == Gathered(cfg, other, d).num.value.0 && tau == TauOf(Gathered(cfg, other, d))
            && PulledBy(m, cfg, other, dt, d, AllOperands(ks, ts), op, Share(m, tau, dt))
  {
    PermutedEmpty(active, other);
    PermutedSame(cfg, active, other, d);
    GatheredNum(ActionsOn(cfg, other, d), Interactions(cfg, other, d));
    var g := Gathered(cfg, other, d);
    op, tau := g.num.value.0, TauOf(g);
    var vs, vs' := AllOperands(ActionsOn(cfg, active, d), Interactions(cfg, active, d)),
                   AllOperands(ActionsOn(cfg, other, d), Interactions(cfg, other, d));
    ReduceIgnoresOrder(op, vs, vs');
    hide *;
    forall s: State | d in s.fields
      ensures FieldAfter(m, cfg, other, s, dt, d) == Pulled(op, Reduce(op, vs), Share(m, tau, dt), s.fields[d])
    {
      FieldIsPulled(m, cfg, other, s, dt, d);
    }
  }

  lemma AlikeInEveryState(m: Physics.Maths, cfg: Scenario, xs: seq<string>, ys: seq<string>, dt: real, d: string,
                          vs: seq<real>, op1: Op, k1: real, op2: Op, k2: real)
    requires vs != [] && PulledBy(m, cfg, xs, dt, d, vs, op1, k1) && PulledBy(m, cfg, ys, dt, d, vs, op2, k2)
    ensures (forall s: State :: d in s.fields ==> FieldAfter(m, cfg, ys, s, dt, d) == FieldAfter(m, cfg, xs, s, dt, d))
       <==> PullAlike(op1, k1, op2, k2, vs)
  {
    hide FieldAfter, Pulled, Reduce;
    if forall s: State :: d in s.fields ==> FieldAfter(m, cfg, ys, s, dt, d) == FieldAfter(m, cfg, xs, s, dt, d) {
      forall x ensures Pulled(op1, Reduce(op1, vs), k1, x) == Pulled(op2, Reduce(op2, vs), k2, x) {
        var s := State(map[d := x], "");
        assert s.fields[d] == x;
        assert FieldAfter(m, cfg, ys, s, dt, d) == FieldAfter(m, cfg, xs, s, dt, d);
      }
    }
  }

  /** Two orders that cannot be told apart lead with the same pull, or with pulls that change nothing. */
  lemma OrdersCompare(m: Physics.Maths, cfg: Scenario, active: seq<string>, other: seq<string>, dt: real, d: string)
    returns (op1: Op, tau1: real, op2: Op, tau2: real)
    requires IsExponential(m) && dt > 0.0 && active != [] && Permutes(active, other)
    requires AllOperands(ActionsOn(cfg, active, d), Interactions(cfg, active, d)) != []
    ensures var ks, ts := ActionsOn(cfg, active, d), Interactions(cfg, active, d);
            var vs := AllOperands(ks, ts);
            && CanLead(ks, ts, op1) && CanLead(ks, ts, op2)
            && Gathered(cfg, active, d).num.Some? && op1 == Gathered(cfg, active, d).num.value.0 && tau1 == TauOf(Gathered(cfg, active, d))
            && Gathered(cfg, other, d).num.Some? && op2 == Gathered(cfg, other, d).num.value.0 && tau2 == TauOf(Gathered(cfg, other, d))
            && ((forall s: State :: d in s.fields ==> FieldAfter(m, cfg, other, s, dt, d) == FieldAfter(m, cfg, active, s, dt, d))
                <==> ((SamePull(op1, op2, vs) && SameTau(tau1, tau2)) || (Neutral(op1, vs) && Neutral(op2, vs))))
  {
    hide *;
    SelfPermutes(active);
    op1, tau1 := OtherOrderPulls(m, cfg, active, active, dt, d);
    op2, tau2 := OtherOrderPulls(m, cfg, active, other, dt, d);
    var vs := AllOperands(ActionsOn(cfg, active, d), Interactions(cfg, active, d));
    AlikeInEveryState(m, cfg, active, other, dt, d, vs, op1, Share(m, tau1, dt), op2, Share(m, tau2, dt));
    SharesDifferIffTausDo(m, tau1, tau2, dt);
    SharesDifferIffTausDo(m, tau2, tau1, dt);
    LeadersCompare(cfg, active, d, op1, op2);
    PullAlikeIff(op1, Share(m, tau1, dt), op2, Share(m, tau2, dt), vs);
  }

  lemma SelfPermutes<T>(xs: seq<T>)
    ensures Permutes(xs, xs)
  {
  }

  lemma GatheredTausAgree(cfg: Scenario, active: seq<string>, other: seq<string>, d: string)
    requires Permutes(active, other) && TausAgree(ActionsOn(cfg, active, d), Interactions(cfg, active, d))
    ensures SameTau(TauOf(Gathered(cfg, active, d)), TauOf(Gathered(cfg, other, d)))
  {
    PermutedSame(cfg, active, other, d);
    hide ActionsOn, TermsOn, Fold, TausAgree;
    AgreeingTausLast(ActionsOn(cfg, active, d), ActionsOn(cfg, other, d), Interactions(cfg, active, d));
  }

  lemma NothingToApply(m: Physics.Maths, cfg: Scenario, active: seq<string>, s: State, dt: real, d: string)
    requires d in s.fields && AllOperands(ActionsOn(cfg, active, d), Interactions(cfg, active, d)) == []
    ensures FieldAfter(m, cfg, active, s, dt, d) == s.fields[d]
  {
    if active != [] {
      FieldIsPulled(m, cfg, active, s, dt, d);
    }
    hide ActionsOn, TermsOn, Gathered, Settle;
  }

  lemma HarmlessIsUnseen(m: Physics.Maths, cfg: Scenario, active: seq<string>, dt: real, d: string)
    requires IsExponential(m) && dt > 0.0 && Harmless(ActionsOn(cfg, active, d), Interactions(cfg, active, d))
    ensures OrderUnseen(m, cfg, active, dt, d)
  {
    hide FieldAfter, ActionsOn, TermsOn, AllOperands, Gathered, IsExponential, CanLead, TausAgree, Neutral, SamePull, SameTau, Permutes;
    var vs := AllOperands(ActionsOn(cfg, active, d), Interactions(cfg, active, d));
    forall other, s: State | Permutes(active, other) && d in s.fields
      ensures FieldAfter(m, cfg, other, s, dt, d) == FieldAfter(m, cfg, active, s, dt, d)
    {
      PermutedEmpty(active, other);
      PermutedSame(cfg, active, other, d);
      if vs == [] {
        NothingToApply(m, cfg, active, s, dt, d);
        NothingToApply(m, cfg, other, s, dt, d);
      } else if active != [] {
        var op1, tau1, op2, tau2 := OrdersCompare(m, cfg, active, other, dt, d);
        if TausAgree(ActionsOn(cfg, active, d), Interactions(cfg, active, d)) {
          GatheredTausAgree(cfg, active, other, d);
        }
      }
    }
  }

  // ---------- every leading operation and every lasting time constant comes about in some order ----------

  lemma LeadingOrder(cfg: Scenario, active: seq<string>, d: string, op: Op) returns (other: seq<string>)
    requires CanLead(ActionsOn(cfg, active, d), Interactions(cfg, active, d), op)
    ensures Permutes(active, other)
    ensures Gathered(cfg, other, d).num.Some? && Gathered(cfg, other, d).num.value.0 == op
  {
    var ks := ActionsOn(cfg, active, d);
    if k :| k in ks && k.num.Some? && k.num.value.0 == op {
      var i :| 0 <= i < |ks| && ks[i] == k;
      other := [active[i]] + Without(active, i);
      MovedActions(cfg, active, i, d);
      hide ActionsOn, TermsOn, Fold, Without, Permutes;
      FirstWins(k, ActionsOn(cfg, Without(active, i), d));
    } else {
      other := active;
      FoldIsWitnessed(ks);
      hide ActionsOn, TermsOn, Fold, Operands;
    }
    hide ActionsOn, TermsOn, Fold, Operands;
    FoldOnto(Fold(EMPTY, ActionsOn(cfg, other, d)), Interactions(cfg, other, d));
  }

  lemma StrongOrder(cfg: Scenario, active: seq<string>, d: string, k: Contribution) returns (other: seq<string>)
    requires k in ActionsOn(cfg, active, d) && k.strong.Some? && !HasStrong(Interactions(cfg, active, d))
    ensures Permutes(active, other) && TauOf(Gathered(cfg, other, d)) == k.strong.value
  {
    var ks := ActionsOn(cfg, active, d);
    var i :| 0 <= i < |ks| && ks[i] == k;
    other := Without(active, i) + [active[i]];
    MovedActions(cfg, active, i, d);
    InteractionsIgnoreOrder(cfg, active, other, d);
    hide ActionsOn, TermsOn, Fold, Without, Permutes, HasStrong;
    LastWins(k, ActionsOn(cfg, Without(active, i), d));
    FoldOnto(Fold(EMPTY, ActionsOn(cfg, other, d)), Interactions(cfg, other, d));
  }

  lemma WeakOrder(cfg: Scenario, active: seq<string>, d: string, k: Contribution) returns (other: seq<string>)
    requires k in ActionsOn(cfg, active, d) && k.weak.Some?
    requires !HasStrong(ActionsOn(cfg, active, d)) && !HasStrong(Interactions(cfg, active, d))
    ensures Permutes(active, other) && TauOf(Gathered(cfg, other, d)) == k.weak.value
  {
    var ks := ActionsOn(cfg, active, d);
    var i :| 0 <= i < |ks| && ks[i] == k;
    other := [active[i]] + Without(active, i);
    MovedActions(cfg, active, i, d);
    InteractionsIgnoreOrder(cfg, active, other, d);
    PermutesBack(active, other);
    PermutedMembers(cfg, other, active, d);
    assert !HasStrong(ActionsOn(cfg, other, d));
    hide ActionsOn, TermsOn, Fold, Without, Permutes, HasStrong;
    FirstWins(k, ActionsOn(cfg, Without(active, i), d));
    FoldOnto(Fold(EMPTY, ActionsOn(cfg, other, d)), Interactions(cfg, other, d));
  }

  lemma PermutesBack<T>(xs: seq<T>, ys: seq<T>)
    requires Permutes(xs, ys)
    ensures Permutes(ys, xs)
  {
  }

  lemma SamePullComposes(op: Op, op1: Op, op2: Op, vs: seq<real>)
    requires vs != [] && SamePull(op, op1, vs) && SamePull(op, op2, vs)
    ensures SamePull(op1, op2, vs)
    ensures Neutral(op, vs) <==> Neutral(op1, vs)
  {
    AddsReduceAlike(vs);
    if Reduce(Max, vs) == 0.0 {
      ZeroMaxMeansZeroProduct(vs);
    }
    hide Reduce;
  }

  /** When the order is unseen and some leading operation changes values, every order pulls as the given one does. */
  lemma UnseenOrdersPullAlike(m: Physics.Maths, cfg: Scenario, active: seq<string>, other: seq<string>, dt: real, d: string, op0: Op)
    requires IsExponential(m) && dt > 0.0 && active != [] && Permutes(active, other) && OrderUnseen(m, cfg, active, dt, d)
    requires AllOperands(ActionsOn(cfg, active, d), Interactions(cfg, active, d)) != []
    requires CanLead(ActionsOn(cfg, active, d), Interactions(cfg, active, d), op0)
    requires !Neutral(op0, AllOperands(ActionsOn(cfg, active, d), Interactions(cfg, active, d)))
    ensures Gathered(cfg, active, d).num.Some? && Gathered(cfg, other, d).num.Some?
    ensures SamePull(Gathered(cfg, active, d).num.value.0, Gathered(cfg, other, d).num.value.0,
                     AllOperands(ActionsOn(cfg, active, d), Interactions(cfg, active, d)))
    ensures SameTau(TauOf(Gathered(cfg, active, d)), TauOf(Gathered(cfg, other, d)))
  {
    var first := LeadingOrder(cfg, active, d, op0);
    hide FieldAfter, ActionsOn, TermsOn, AllOperands, Gathered, IsExponential, CanLead, Neutral, SamePull, SameTau, Permutes;
    var op1, tau1, op2, tau2 := OrdersCompare(m, cfg, active, first, dt, d);
    var op3, tau3, op4, tau4 := OrdersCompare(m, cfg, active, other, dt, d);
    if SamePull(op1, op2, AllOperands(ActionsOn(cfg, active, d), Interactions(cfg, active, d))) {
      SamePullComposes(op1, op2, op2, AllOperands(ActionsOn(cfg, active, d), Interactions(cfg, active, d)));
    }
  }

  lemma NoActionsAreHarmless(ts: seq<Contribution>)
    ensures Harmless([], ts)
  {
    assert !HasStrong([]);
    hide Fold, HasStrong;
  }

  /** One time constant that every order of the actions ends with, up to those that mean at once. */
  ghost predicate OneTau(cfg: Scenario, active: seq<string>, d: string, tau: real) {
    forall other :: Permutes(active, other) ==> SameTau(tau, TauOf(Gathered(cfg, other, d)))
  }

  lemma OneTauAgrees(cfg: Scenario, active: seq<string>, d: string, tau: real)
    requires OneTau(cfg, active, d, tau)
    ensures TausAgree(ActionsOn(cfg, active, d), Interactions(cfg, active, d))
  {
    var ks, ts := ActionsOn(cfg, active, d), Interactions(cfg, active, d);
    hide ActionsOn, TermsOn, Gathered, HasStrong, TauOf;
    if !HasStrong(ts) {
      forall k | k in ks && k.strong.Some? ensures SameTau(tau, k.strong.value) {
        var other := StrongOrder(cfg, active, d, k);
      }
      forall k | k in ks && k.weak.Some? && !HasStrong(ks) ensures SameTau(tau, k.weak.value) {
        var other := WeakOrder(cfg, active, d, k);
      }
    }
  }

  lemma UnseenIsHarmless(m: Physics.Maths, cfg: Scenario, active: seq<string>, dt: real, d: string)
    requires IsExponential(m) && dt > 0.0 && OrderUnseen(m, cfg, active, dt, d)
    ensures Harmless(ActionsOn(cfg, active, d), Interactions(cfg, active, d))
  {
    if active == [] {
      NoActionsAreHarmless(Interactions(cfg, active, d));
    }
    hide FieldAfter, ActionsOn, TermsOn, AllOperands, Gathered, IsExponential, CanLead, Neutral, SamePull, SameTau, Permutes,
      OrderUnseen, TausAgree, TauOf;
    var ks, ts := ActionsOn(cfg, active, d), Interactions(cfg, active, d);
    var vs := AllOperands(ks, ts);
    if active != [] && vs != [] {
      if op0 :| CanLead(ks, ts, op0) && !Neutral(op0, vs) {
        forall other | Permutes(active, other) ensures SameTau(TauOf(Gathered(cfg, active, d)), TauOf(Gathered(cfg, other, d))) {
          UnseenOrdersPullAlike(m, cfg, active, other, dt, d, op0);
        }
        OneTauAgrees(cfg, active, d, TauOf(Gathered(cfg, active, d)));
        forall op1, op2 | CanLead(ks, ts, op1) && CanLead(ks, ts, op2) ensures SamePull(op1, op2, vs) {
          var first := LeadingOrder(cfg, active, d, op1);
          var second := LeadingOrder(cfg, active, d, op2);
          UnseenOrdersPullAlike(m, cfg, active, first, dt, d, op0);
          UnseenOrdersPullAlike(m, cfg, active, second, dt, d, op0);
          SamePullComposes(Gathered(cfg, active, d).num.value.0, op1, op2, vs);
        }
      }
    }
  }

  /** Main result: for given outcomes of conditions and expressions, the order of the active actions cannot be seen
      in a dimension of any state exactly when what the actions and the matching interactions say about it is
      harmless. Texts do not matter here, time constants only when something is applied. */
  lemma OrderUnseenIffHarmless(m: Physics.Maths, cfg: Scenario, active: seq<string>, dt: real, d: string)
    requires IsExponential(m) && dt > 0.0
    ensures OrderUnseen(m, cfg, active, dt, d) <==> Harmless(ActionsOn(cfg, active, d), Interactions(cfg, active, d))
  {
    hide *;
    if OrderUnseen(m, cfg, active, dt, d) {
      UnseenIsHarmless(m, cfg, active, dt, d);
    }
    if Harmless(ActionsOn(cfg, active, d), Interactions(cfg, active, d)) {
      HarmlessIsUnseen(m, cfg, active, dt, d);
    }
  }

  // ---------- the one text of the state ----------

  /** All texts that the active actions set on `kv_dtype` are one. */
  ghost predicate OneText(ks: seq<Contribution>) {
    forall k1, k2 :: k1 in ks && k2 in ks && k1.text.Some? && k2.text.Some? ==> k1.text == k2.text
  }

  ghost predicate TextUnseen(m: Physics.Maths, cfg: Scenario, active: seq<string>, dt: real) {
    forall other, s: State :: Permutes(active, other) ==>
      Applied(m, cfg, other, s, dt).kvDtype == Applied(m, cfg, active, s, dt).kvDtype
  }

  lemma {:induction false} InteractionsSetNoText(cfg: Scenario, active: seq<string>, d: string)
    ensures Fold(EMPTY, Interactions(cfg, active, d)).text == None
  {
    var ts := Interactions(cfg, active, d);
    assert forall k :: k in ts ==> k.text.None?;
    hide TermsOn, Fold;
    FoldIsWitnessed(ts);
  }

  /** The text gathered is the one the actions leave. */
  lemma GatheredText(cfg: Scenario, active: seq<string>, d: string)
    ensures Gathered(cfg, active, d).text == Fold(EMPTY, ActionsOn(cfg, active, d)).text
  {
    InteractionsSetNoText(cfg, active, d);
    hide ActionsOn, TermsOn, Fold;
    FoldOnto(Fold(EMPTY, ActionsOn(cfg, active, d)), Interactions(cfg, active, d));
  }

  function Left(text: Option<string>, kvDtype: string): string {
    if text.Some? then text.value else kvDtype
  }

  lemma TextAfter(m: Physics.Maths, cfg: Scenario, active: seq<string>, s: State, dt: real)
    ensures Applied(m, cfg, active, s, dt).kvDtype == Left(Fold(EMPTY, ActionsOn(cfg, active, "kv_dtype")).text, s.kvDtype)
  {
    GatheredText(cfg, active, "kv_dtype");
    hide Gathered, Settle;
  }

  lemma TextsOfMembers(ks1: seq<Contribution>, c1: Cell, ks2: seq<Contribution>, c2: Cell)
    requires TextWitnessed(ks1, c1) && TextWitnessed(ks2, c2) && OneText(ks1) && forall k :: k in ks1 <==> k in ks2
    ensures c1.text == c2.text
  {
  }

  /** Main result: for given outcomes, the order cannot be seen in `kv_dtype` exactly when the active actions set at
      most one text on it. */
  lemma TextUnseenIffOne(m: Physics.Maths, cfg: Scenario, active: seq<string>, dt: real)
    ensures TextUnseen(m, cfg, active, dt) <==> OneText(ActionsOn(cfg, active, "kv_dtype"))
  {
    var ks := ActionsOn(cfg, active, "kv_dtype");
    if OneText(ks) {
      forall other, s: State | Permutes(active, other)
        ensures Applied(m, cfg, other, s, dt).kvDtype == Applied(m, cfg, active, s, dt).kvDtype
      {
        OneTextIsUnseen(m, cfg, active, other, s, dt);
      }
    }
    if TextUnseen(m, cfg, active, dt) {
      hide Applied, ActionsOn;
      forall k | k in ks && k.text.Some? ensures k.text.value == Applied(m, cfg, active, State(map[], ""), dt).kvDtype {
        TextCanBeLast(m, cfg, active, k, dt);
      }
    }
  }

  lemma OneTextIsUnseen(m: Physics.Maths, cfg: Scenario, active: seq<string>, other: seq<string>, s: State, dt: real)
    requires Permutes(active, other) && OneText(ActionsOn(cfg, active, "kv_dtype"))
    ensures Applied(m, cfg, other, s, dt).kvDtype == Applied(m, cfg, active, s, dt).kvDtype
  {
    var ks, ks' := ActionsOn(cfg, active, "kv_dtype"), ActionsOn(cfg, other, "kv_dtype");
    PermutedSame(cfg, active, other, "kv_dtype");
    FoldIsWitnessed(ks);
    FoldIsWitnessed(ks');
    hide ActionsOn, Fold, Applied, OneText, TextWitnessed, NumWitnessed, TauWitnessed;
    TextsOfMembers(ks, Fold(EMPTY, ks), ks', Fold(EMPTY, ks'));
    TextAfter(m, cfg, active, s, dt);
    TextAfter(m, cfg, other, s, dt);
  }

  lemma TextCanBeLast(m: Physics.Maths, cfg: Scenario, active: seq<string>, k: Contribution, dt: real)
    requires TextUnseen(m, cfg, active, dt) && k in ActionsOn(cfg, active, "kv_dtype") && k.text.Some?
    ensures k.text.value == Applied(m, cfg, active, State(map[], ""), dt).kvDtype
  {
    var ks := ActionsOn(cfg, active, "kv_dtype");
    var i :| 0 <= i < |ks| && ks[i] == k;
    var other := Without(active, i) + [active[i]];
    MovedActions(cfg, active, i, "kv_dtype");
    hide ActionsOn, Fold, Applied, Without, Permutes;
    LastWins(k, ActionsOn(cfg, Without(active, i), "kv_dtype"));
    TextAfter(m, cfg, other, State(map[], ""), dt);
  }

  // ---------- the whole state ----------

  /** All states with these dimensions that hold the same value in each. */
  function Uniform(dims: set<string>, x: real, kvDtype: string): State {
    State(map d | d in dims :: x, kvDtype)
  }

  /** A dimension after the tick depends on that dimension before it, and the text on the text. */
  lemma PartsAreIndependent(m: Physics.Maths, cfg: Scenario, active: seq<string>, s1: State, s2: State, dt: real)
    ensures forall d :: d in s1.fields && d in s2.fields && s1.fields[d] == s2.fields[d] ==>
      FieldAfter(m, cfg, active, s1, dt, d) == FieldAfter(m, cfg, active, s2, dt, d)
    ensures s1.kvDtype == s2.kvDtype ==> Applied(m, cfg, active, s1, dt).kvDtype == Applied(m, cfg, active, s2, dt).kvDtype
  {
    hide Gathered, Settle;
  }

  lemma AppliedIsItsParts(m: Physics.Maths, cfg: Scenario, active: seq<string>, s: State, dt: real)
    ensures Applied(m, cfg, active, s, dt).fields == map d | d in s.fields :: FieldAfter(m, cfg, active, s, dt, d)
  {
    hide Gathered, Settle;
  }

  ghost predicate StateUnseen(m: Physics.Maths, cfg: Scenario, active: seq<string>, dt: real, dims: set<string>) {
    forall other, s: State :: Permutes(active, other) && s.fields.Keys == dims ==>
      Applied(m, cfg, other, s, dt) == Applied(m, cfg, active, s, dt)
  }

  lemma StateUnseenInParts(m: Physics.Maths, cfg: Scenario, active: seq<string>, dt: real, dims: set<string>)
    requires StateUnseen(m, cfg, active, dt, dims)
    ensures forall d :: d in dims ==> OrderUnseen(m, cfg, active, dt, d)
    ensures TextUnseen(m, cfg, active, dt)
  {
    hide Applied, FieldAfter, Permutes;
    forall d, other, s: State | d in dims && Permutes(active, other) && d in s.fields
      ensures FieldAfter(m, cfg, other, s, dt, d) == FieldAfter(m, cfg, active, s, dt, d)
    {
      var u := Uniform(dims, s.fields[d], "");
      assert Applied(m, cfg, other, u, dt) == Applied(m, cfg, active, u, dt);
      AppliedIsItsParts(m, cfg, active, u, dt);
      AppliedIsItsParts(m, cfg, other, u, dt);
      assert FieldAfter(m, cfg, other, u, dt, d) == Applied(m, cfg, other, u, dt).fields[d];
      PartsAreIndependent(m, cfg, active, s, u, dt);
      PartsAreIndependent(m, cfg, other, s, u, dt);
    }
    forall other, s: State | Permutes(active, other)
      ensures Applied(m, cfg, other, s, dt).kvDtype == Applied(m, cfg, active, s, dt).kvDtype
    {
      var u := Uniform(dims, 0.0, s.kvDtype);
      assert Applied(m, cfg, other, u, dt) == Applied(m, cfg, active, u, dt);
      PartsAreIndependent(m, cfg, active, s, u, dt);
      PartsAreIndependent(m, cfg, other, s, u, dt);
    }
  }

  lemma PartsUnseenInState(m: Physics.Maths, cfg: Scenario, active: seq<string>, dt: real, dims: set<string>)
    requires forall d :: d in dims ==> OrderUnseen(m, cfg, active, dt, d)
    requires TextUnseen(m, cfg, active, dt)
    ensures StateUnseen(m, cfg, active, dt, dims)
  {
    hide Applied, FieldAfter, Permutes;
    forall other, s: State | Permutes(active, other) && s.fields.Keys == dims
      ensures Applied(m, cfg, other, s, dt) == Applied(m, cfg, active, s, dt)
    {
      AppliedIsItsParts(m, cfg, active, s, dt);
      AppliedIsItsParts(m, cfg, other, s, dt);
      assert Applied(m, cfg, other, s, dt).fields == Applied(m, cfg, active, s, dt).fields;
    }
  }

  /** Main result: for given outcomes, no state with the dimensions `dims` shows the order of the active actions
      exactly when it is harmless for each of them and the actions set at most one text on `kv_dtype`. */
  lemma StateUnseenIff(m: Physics.Maths, cfg: Scenario, active: seq<string>, dt: real, dims: set<string>)
    requires IsExponential(m) && dt > 0.0
    ensures StateUnseen(m, cfg, active, dt, dims)
       <==> ((forall d :: d in dims ==> Harmless(ActionsOn(cfg, active, d), Interactions(cfg, active, d)))
             && OneText(ActionsOn(cfg, active, "kv_dtype")))
  {
    hide *;
    TextUnseenIffOne(m, cfg, active, dt);
    forall d ensures OrderUnseen(m, cfg, active, dt, d) <==> Harmless(ActionsOn(cfg, active, d), Interactions(cfg, active, d)) {
      OrderUnseenIffHarmless(m, cfg, active, dt, d);
    }
    if StateUnseen(m, cfg, active, dt, dims) {
      StateUnseenInParts(m, cfg, active, dt, dims);
    } else if (forall d :: d in dims ==> OrderUnseen(m, cfg, active, dt, d)) && TextUnseen(m, cfg, active, dt) {
      PartsUnseenInState(m, cfg, active, dt, dims);
    }
  }

  /** Conditions and expressions may be evaluated anew in every state: when what they then say is harmless in each
      of them, no state shows the order in this dimension. */
  lemma HarmlessEverywhereIsUnseen(m: Physics.Maths, evaluated: State -> Scenario, active: seq<string>, other: seq<string>,
                                  s: State, dt: real, d: string)
    requires IsExponential(m) && dt > 0.0 && Permutes(active, other) && d in s.fields
    requires forall s: State :: Harmless(ActionsOn(evaluated(s), active, d), Interactions(evaluated(s), active, d))
    ensures FieldAfter(m, evaluated(s), other, s, dt, d) == FieldAfter(m, evaluated(s), active, s, dt, d)
  {
    hide FieldAfter, Harmless, ActionsOn, TermsOn;
    HarmlessIsUnseen(m, evaluated(s), active, dt, d);
  }
}
