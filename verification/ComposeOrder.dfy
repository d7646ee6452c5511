/** When the order in which actions became active matters for their combined effect (src/sim/compose.rs:63-240). */
module ComposeOrder {
  import opened Sequences
  import opened Wrappers
  import opened Compose
  import Physics

  predicate Permutes<T(==)>(xs: seq<T>, ys: seq<T>) {
    multiset(xs) == multiset(ys)
  }

  /** The same up to the order of the operands. */
  predicate Same(c1: Cell, c2: Cell) {
    && c1.tau == c2.tau && c1.text == c2.text
    && match (c1.num, c2.num)
       case (Some((op1, vs1)), Some((op2, vs2))) => op1 == op2 && Permutes(vs1, vs2)
       case (None, None) => true
       case _ => false
  }

  /** No two contributions to a dimension compete: they have one operation, one text, one strong time constant,
      and, when there is no strong one, one weak time constant. */
  ghost predicate Agree(ks: seq<Contribution>) {
    forall k1, k2 :: k1 in ks && k2 in ks ==>
      && (k1.num.Some? && k2.num.Some? ==> k1.num.value.0 == k2.num.value.0)
      && (k1.text.Some? && k2.text.Some? ==> k1.text == k2.text)
      && (k1.strong.Some? && k2.strong.Some? ==> k1.strong == k2.strong)
      && (k1.weak.Some? && k2.weak.Some? && !HasStrong(ks) ==> k1.weak == k2.weak)
  }

  ghost predicate HasStrong(ks: seq<Contribution>) {
    exists k :: k in ks && k.strong.Some?
  }

  // ---------- what a fold gathers ----------

  function Operand(k: Contribution): seq<real> {
    match k.num
    case Some((_, v)) => [v]
    case None => []
  }

  /** The operands, in order. */
  function Operands(ks: seq<Contribution>): seq<real> {
    if ks == [] then [] else Operands(ks[..|ks| - 1]) + Operand(ks[|ks| - 1])
  }

  ghost predicate NumWitnessed(ks: seq<Contribution>, c: Cell) {
    && (c.num.Some? ==> c.num.value.1 == Operands(ks)
                        && exists k :: k in ks && k.num.Some? && k.num.value.0 == c.num.value.0)
    && (c.num.None? ==> forall k :: k in ks ==> k.num.None?)
  }

  ghost predicate TextWitnessed(ks: seq<Contribution>, c: Cell) {
    && (c.text.Some? ==> exists k :: k in ks && k.text == c.text)
    && (c.text.None? ==> forall k :: k in ks ==> k.text.None?)
  }

  ghost predicate TauWitnessed(ks: seq<Contribution>, c: Cell) {
    && (HasStrong(ks) ==> exists k :: k in ks && k.strong.Some? && k.strong == c.tau)
    && (!HasStrong(ks) && c.tau.Some? ==> exists k :: k in ks && k.weak == c.tau)
    && (!HasStrong(ks) && c.tau.None? ==> forall k :: k in ks ==> k.weak.None?)
  }

  /** Every part of the gathered cell was said by some contribution, and a part is absent only when no
      contribution speaks of it. */
  ghost predicate Witnessed(ks: seq<Contribution>, c: Cell) {
    NumWitnessed(ks, c) && TextWitnessed(ks, c) && TauWitnessed(ks, c)
  }

  lemma {:induction false} FoldIsWitnessed(ks: seq<Contribution>)
    ensures Witnessed(ks, Fold(EMPTY, ks))
    decreases |ks|
  {
    if ks != [] {
      var init, k := ks[..|ks| - 1], ks[|ks| - 1];
      FoldIsWitnessed(init);
      assert ks == init + [k];
      assert forall x :: x in ks <==> x in init || x == k;
      hide Fold, Operands;
      WitnessedGrows(init, k, Fold(EMPTY, init), ks);
      OperandsGrow(init, k);
      assert Fold(EMPTY, ks) == Absorb(Fold(EMPTY, init), k) by { FoldGrows(EMPTY, ks, init, k); }
    }
  }

  lemma OperandsGrow(init: seq<Contribution>, k: Contribution)
    ensures Operands(init + [k]) == Operands(init) + Operand(k)
  {
    assert (init + [k])[..|init|] == init;
  }

  lemma {:induction false} NoOperands(ks: seq<Contribution>)
    requires forall k :: k in ks ==> k.num.None?
    ensures Operands(ks) == []
    decreases |ks|
  {
    if ks != [] {
      NoOperands(ks[..|ks| - 1]);
    }
  }

  lemma WitnessedGrows(init: seq<Contribution>, k: Contribution, c: Cell, ks: seq<Contribution>)
    requires Witnessed(init, c) && ks == init + [k]
    requires forall x :: x in ks <==> x in init || x == k
    ensures Witnessed(ks, Absorb(c, k))
  {
    hide NumWitnessed, TextWitnessed, TauWitnessed, Absorb;
    NumGrows(init, k, c, ks);
    TextGrows(init, k, c, ks);
    TauGrows(init, k, c, ks);
  }

  lemma NumGrows(init: seq<Contribution>, k: Contribution, c: Cell, ks: seq<Contribution>)
    requires NumWitnessed(init, c) && ks == init + [k]
    requires forall x :: x in ks <==> x in init || x == k
    ensures NumWitnessed(ks, Absorb(c, k))
  {
    OperandsGrow(init, k);
    if c.num.None? {
      NoOperands(init);
    }
    hide Operands;
  }

  lemma TextGrows(init: seq<Contribution>, k: Contribution, c: Cell, ks: seq<Contribution>)
    requires TextWitnessed(init, c)
    requires forall x :: x in ks <==> x in init || x == k
    ensures TextWitnessed(ks, Absorb(c, k))
  {
  }

  lemma TauGrows(init: seq<Contribution>, k: Contribution, c: Cell, ks: seq<Contribution>)
    requires TauWitnessed(init, c)
    requires forall x :: x in ks <==> x in init || x == k
    ensures TauWitnessed(ks, Absorb(c, k))
  {
  }

  // ---------- agreement makes the order irrelevant ----------

  lemma {:induction false} OperandsAppend(xs: seq<Contribution>, ys: seq<Contribution>)
    ensures Operands(xs + ys) == Operands(xs) + Operands(ys)
    decreases |ys|
  {
    if ys == [] {
      assert xs + ys == xs;
    } else {
      var init, k := ys[..|ys| - 1], ys[|ys| - 1];
      assert ys == init + [k];
      OperandsAppend(xs, init);
      hide *;
      PlusAssociates(xs, init, [k]);
      OperandsGrow(xs + init, k);
      OperandsGrow(init, k);
      PlusAssociates(Operands(xs), Operands(init), Operand(k));
    }
  }

  function Without<T>(xs: seq<T>, i: nat): seq<T>
    requires i < |xs|
  {
    xs[..i] + xs[i + 1..]
  }

  lemma WithoutIsRest<T>(xs: seq<T>, i: nat)
    requires i < |xs|
    ensures multiset(xs) == multiset([xs[i]]) + multiset(Without(xs, i))
  {
    assert xs == xs[..i] + [xs[i]] + xs[i + 1..];
  }

  /** Taking one action out takes exactly its operand out. */
  lemma OperandsWithout(cfg: Scenario, names: seq<string>, i: nat, d: string)
    requires i < |names|
    ensures multiset(Operands(ActionsOn(cfg, names, d)))
         == multiset(Operands(ActionsOn(cfg, [names[i]], d))) + multiset(Operands(ActionsOn(cfg, Without(names, i), d)))
  {
    hide *;
    var before, one, after := ActionsOn(cfg, names[..i], d), ActionsOn(cfg, [names[i]], d), ActionsOn(cfg, names[i + 1..], d);
    ActionsSplit(cfg, names, i, d);
    OperandsAppend(before + one, after);
    OperandsAppend(before, one);
    OperandsAppend(before, after);
    MiddleOut(Operands(before), Operands(one), Operands(after));
  }

  lemma ActionsSplit(cfg: Scenario, names: seq<string>, i: nat, d: string)
    requires i < |names|
    ensures var before, one, after := ActionsOn(cfg, names[..i], d), ActionsOn(cfg, [names[i]], d), ActionsOn(cfg, names[i + 1..], d);
            && ActionsOn(cfg, names, d) == before + one + after
            && ActionsOn(cfg, Without(names, i), d) == before + after
  {
    hide ActionOn;
  }

  lemma MiddleOut<T>(a: seq<T>, b: seq<T>, c: seq<T>)
    ensures multiset(a + b + c) == multiset(b) + multiset(a + c)
  {
  }

  /** Two permuted lists stay permuted when the head of one is taken out of both. */
  lemma RemainderPermutes<T>(xs: seq<T>, ys: seq<T>) returns (i: nat)
    requires xs != [] && Permutes(xs, ys)
    ensures i < |ys| && ys[i] == xs[0] && Permutes(Without(xs, 0), Without(ys, i))
  {
    assert xs[0] in multiset(ys);
    i :| 0 <= i < |ys| && ys[i] == xs[0];
    WithoutIsRest(xs, 0);
    WithoutIsRest(ys, i);
    hide Without;
    assert multiset(Without(xs, 0)) == multiset(xs) - multiset([xs[0]]);
    assert multiset(Without(ys, i)) == multiset(ys) - multiset([xs[0]]);
  }

  lemma {:induction false} PermutedOperands(cfg: Scenario, xs: seq<string>, ys: seq<string>, d: string)
    requires Permutes(xs, ys)
    ensures Permutes(Operands(ActionsOn(cfg, xs, d)), Operands(ActionsOn(cfg, ys, d)))
    decreases |xs|
  {
    if xs == [] {
      assert |multiset(ys)| == 0;
    } else {
      var i := RemainderPermutes(xs, ys);
      OperandsWithout(cfg, xs, 0, d);
      OperandsWithout(cfg, ys, i, d);
      assert |Without(xs, 0)| < |xs|;
      hide Operands, ActionsOn, Without;
      PermutedOperands(cfg, Without(xs, 0), Without(ys, i), d);
    }
  }

  lemma PermutedMembers(cfg: Scenario, xs: seq<string>, ys: seq<string>, d: string)
    requires Permutes(xs, ys)
    ensures forall k :: k in ActionsOn(cfg, xs, d) ==> k in ActionsOn(cfg, ys, d)
  {
    forall k | k in ActionsOn(cfg, xs, d) ensures k in ActionsOn(cfg, ys, d) {
      var i :| 0 <= i < |xs| && ActionsOn(cfg, xs, d)[i] == k;
      assert xs[i] in multiset(xs);
      assert xs[i] in multiset(ys);
      var j :| 0 <= j < |ys| && ys[j] == xs[i];
      assert ActionsOn(cfg, ys, d)[j] == k;
    }
  }

  /** Cells witnessed by agreeing contributions with the same members and operands are the same. */
  lemma AgreeingCellsAreSame(ks1: seq<Contribution>, c1: Cell, ks2: seq<Contribution>, c2: Cell)
    requires Witnessed(ks1, c1) && Witnessed(ks2, c2) && Agree(ks1)
    requires forall k :: k in ks1 <==> k in ks2
    requires Permutes(Operands(ks1), Operands(ks2))
    ensures Same(c1, c2)
  {
    hide Operands;
    assert HasStrong(ks1) == HasStrong(ks2);
  }

  lemma AgreeingActionsCommute(cfg: Scenario, xs: seq<string>, ys: seq<string>, d: string)
    requires Permutes(xs, ys) && Agree(ActionsOn(cfg, xs, d))
    ensures Same(Fold(EMPTY, ActionsOn(cfg, xs, d)), Fold(EMPTY, ActionsOn(cfg, ys, d)))
  {
    PermutedMembers(cfg, xs, ys, d);
    PermutedMembers(cfg, ys, xs, d);
    PermutedOperands(cfg, xs, ys, d);
    hide Operands, ActionsOn, Fold, Witnessed, Agree, Permutes, Same;
    var ks1, ks2 := ActionsOn(cfg, xs, d), ActionsOn(cfg, ys, d);
    FoldIsWitnessed(ks1);
    FoldIsWitnessed(ks2);
    AgreeingCellsAreSame(ks1, Fold(EMPTY, ks1), ks2, Fold(EMPTY, ks2));
  }

  // ---------- and only agreement does ----------

  /** The first contribution fixes the operation and, when no strong one follows, the time constant. */
  lemma {:induction false} FirstWins(k: Contribution, rest: seq<Contribution>)
    ensures k.num.Some? ==> Fold(EMPTY, [k] + rest).num.Some? && Fold(EMPTY, [k] + rest).num.value.0 == k.num.value.0
    ensures k.weak.Some? && !HasStrong([k] + rest) ==> Fold(EMPTY, [k] + rest).tau == k.weak
    decreases |rest|
  {
    var all := [k] + rest;
    if rest == [] {
      assert all == [] + [k];
      FoldGrows(EMPTY, all, [], k);
      assert k in all;
    } else {
      var init, last := [k] + rest[..|rest| - 1], rest[|rest| - 1];
      FirstWins(k, rest[..|rest| - 1]);
      FoldGrows(EMPTY, all, init, last);
      assert last in all;
      assert forall x :: x in init ==> x in all;
    }
  }

  /** The last contribution fixes the text and the strong time constant. */
  lemma LastWins(k: Contribution, rest: seq<Contribution>)
    ensures k.text.Some? ==> Fold(EMPTY, rest + [k]).text == k.text
    ensures k.strong.Some? ==> Fold(EMPTY, rest + [k]).tau == k.strong
  {
    FoldGrows(EMPTY, rest + [k], rest, k);
  }

  /** The gathered cell says, in every order, what k says wherever it speaks. */
  ghost predicate Follows(c: Cell, k: Contribution, hasStrong: bool) {
    && (k.num.Some? ==> c.num.Some? && c.num.value.0 == k.num.value.0)
    && (k.text.Some? ==> c.text == k.text)
    && (k.strong.Some? ==> c.tau == k.strong)
    && (k.weak.Some? && !hasStrong ==> c.tau == k.weak)
  }

  ghost predicate OrderIrrelevant(cfg: Scenario, active: seq<string>, d: string) {
    forall other :: Permutes(active, other) ==>
      Same(Fold(EMPTY, ActionsOn(cfg, active, d)), Fold(EMPTY, ActionsOn(cfg, other, d)))
  }

  lemma FollowsFirstAndLast(c: Cell, k: Contribution, rest: seq<Contribution>, hasStrong: bool)
    requires Same(c, Fold(EMPTY, [k] + rest)) && Same(c, Fold(EMPTY, rest + [k]))
    requires HasStrong([k] + rest) ==> hasStrong
    ensures Follows(c, k, hasStrong)
  {
    hide Fold, Permutes, HasStrong;
    FirstWins(k, rest);
    LastWins(k, rest);
  }

  lemma MovedActions(cfg: Scenario, active: seq<string>, i: nat, d: string)
    requires i < |active|
    ensures ActionsOn(cfg, [active[i]] + Without(active, i), d) == [ActionOn(cfg, active[i], d)] + ActionsOn(cfg, Without(active, i), d)
    ensures ActionsOn(cfg, Without(active, i) + [active[i]], d) == ActionsOn(cfg, Without(active, i), d) + [ActionOn(cfg, active[i], d)]
    ensures Permutes(active, [active[i]] + Without(active, i)) && Permutes(active, Without(active, i) + [active[i]])
  {
    WithoutIsRest(active, i);
    hide Without, ActionOn;
  }

  /** Putting an action first, or last, shows that the cell follows it. */
  lemma IrrelevantOrderFollowsEach(cfg: Scenario, active: seq<string>, i: nat, d: string)
    requires i < |active| && OrderIrrelevant(cfg, active, d)
    ensures Follows(Fold(EMPTY, ActionsOn(cfg, active, d)), ActionOn(cfg, active[i], d), HasStrong(ActionsOn(cfg, active, d)))
  {
    var k, rest := ActionOn(cfg, active[i], d), ActionsOn(cfg, Without(active, i), d);
    var first, last := [active[i]] + Without(active, i), Without(active, i) + [active[i]];
    MovedActions(cfg, active, i, d);
    assert Permutes(first, active);
    PermutedMembers(cfg, first, active, d);
    hide Fold, ActionsOn, ActionOn, Permutes, Without, Same, Follows;
    assert Same(Fold(EMPTY, ActionsOn(cfg, active, d)), Fold(EMPTY, ActionsOn(cfg, first, d)));
    assert Same(Fold(EMPTY, ActionsOn(cfg, active, d)), Fold(EMPTY, ActionsOn(cfg, last, d)));
    FollowsFirstAndLast(Fold(EMPTY, ActionsOn(cfg, active, d)), k, rest, HasStrong(ActionsOn(cfg, active, d)));
  }

  /** Main result: whatever order the active actions are taken in, the same is gathered about a dimension
      exactly when no two of their contributions to it compete. */
  lemma OrderIrrelevantIffAgree(cfg: Scenario, active: seq<string>, d: string)
    ensures OrderIrrelevant(cfg, active, d) <==> Agree(ActionsOn(cfg, active, d))
  {
    var ks := ActionsOn(cfg, active, d);
    if Agree(ks) {
      forall other | Permutes(active, other) ensures Same(Fold(EMPTY, ks), Fold(EMPTY, ActionsOn(cfg, other, d))) {
        AgreeingActionsCommute(cfg, active, other, d);
      }
    }
    if OrderIrrelevant(cfg, active, d) {
      forall k | k in ks ensures Follows(Fold(EMPTY, ks), k, HasStrong(ks)) {
        var i :| 0 <= i < |ks| && ks[i] == k;
        IrrelevantOrderFollowsEach(cfg, active, i, d);
      }
      hide Fold, ActionsOn;
    }
  }

  // ---------- from what is gathered to the state ----------

  lemma CombineSwaps(op: Op, x: real, y: real, z: real)
    ensures Combine(op, Combine(op, x, y), z) == Combine(op, Combine(op, x, z), y)
    ensures Combine(op, x, y) == Combine(op, y, x)
  {
    if op == Multiply {
      assert x * y * z == x * z * y;
    }
  }

  /** Any one operand can be combined last. */
  lemma {:induction false} ReduceTakesAnyLast(op: Op, vs: seq<real>, i: nat)
    requires i < |vs| && |vs| > 1
    ensures Reduce(op, vs) == Combine(op, Reduce(op, Without(vs, i)), vs[i])
    decreases |vs|
  {
    var init, last := vs[..|vs| - 1], vs[|vs| - 1];
    if i == |vs| - 1 {
      assert Without(vs, i) == init;
    } else if |vs| == 2 {
      assert Without(vs, i) == [last];
      CombineSwaps(op, vs[0], vs[1], 0.0);
    } else {
      assert Without(vs, i) == Without(init, i) + [last];
      assert Without(vs, i)[..|vs| - 2] == Without(init, i);
      ReduceTakesAnyLast(op, init, i);
      CombineSwaps(op, Reduce(op, Without(init, i)), vs[i], last);
      hide Combine;
    }
  }

  lemma {:induction false} ReduceIgnoresOrder(op: Op, xs: seq<real>, ys: seq<real>)
    requires xs != [] && ys != [] && Permutes(xs, ys)
    ensures Reduce(op, xs) == Reduce(op, ys)
    decreases |xs|
  {
    assert |multiset(xs)| == |xs| && |multiset(ys)| == |ys|;
    if |xs| == 1 {
      assert ys[0] in multiset(xs);
    } else {
      var i := RemainderPermutes(xs, ys);
      assert |Without(xs, 0)| == |xs| - 1;
      hide Permutes, Reduce, Combine, Without;
      ReduceTakesAnyLast(op, xs, 0);
      ReduceTakesAnyLast(op, ys, i);
      ReduceIgnoresOrder(op, Without(xs, 0), Without(ys, i));
    }
  }

  lemma SameCellsSettleAlike(m: Physics.Maths, c1: Cell, c2: Cell, current: real, dt: real)
    requires Same(c1, c2)
    ensures Settle(m, c1, current, dt) == Settle(m, c2, current, dt)
  {
    if c1.num.Some? {
      var vs1, vs2 := c1.num.value.1, c2.num.value.1;
      assert |multiset(vs1)| == |vs1| && |multiset(vs2)| == |vs2|;
      if vs1 != [] {
        ReduceIgnoresOrder(c1.num.value.0, vs1, vs2);
      }
      hide Reduce, Physics.LagStep;
    }
  }

  lemma AbsorbKeepsSame(c1: Cell, c2: Cell, k: Contribution)
    requires Same(c1, c2)
    ensures Same(Absorb(c1, k), Absorb(c2, k))
  {
  }

  lemma {:induction false} FoldKeepsSame(c1: Cell, c2: Cell, ks: seq<Contribution>)
    requires Same(c1, c2)
    ensures Same(Fold(c1, ks), Fold(c2, ks))
    decreases |ks|
  {
    if ks != [] {
      FoldKeepsSame(c1, c2, ks[..|ks| - 1]);
      AbsorbKeepsSame(Fold(c1, ks[..|ks| - 1]), Fold(c2, ks[..|ks| - 1]), ks[|ks| - 1]);
    }
  }

  /** Which interactions apply does not depend on the order of the actions. */
  lemma InteractionsIgnoreOrder(cfg: Scenario, xs: seq<string>, ys: seq<string>, d: string)
    requires Permutes(xs, ys)
    ensures TermsOn(cfg, cfg.interactions, xs, d) == TermsOn(cfg, cfg.interactions, ys, d)
  {
    forall a ensures a in xs <==> a in ys {
      assert a in xs <==> a in multiset(xs);
    }
    forall t ensures Matches(t, xs) == Matches(t, ys) {
    }
  }

  lemma PermutedGatherSame(cfg: Scenario, xs: seq<string>, ys: seq<string>, d: string)
    requires Permutes(xs, ys) && Agree(ActionsOn(cfg, xs, d))
    ensures Same(Gathered(cfg, xs, d), Gathered(cfg, ys, d))
  {
    hide Fold, ActionsOn, TermsOn, Agree, Permutes, Same;
    InteractionsIgnoreOrder(cfg, xs, ys, d);
    AgreeingActionsCommute(cfg, xs, ys, d);
    FoldKeepsSame(Fold(EMPTY, ActionsOn(cfg, xs, d)), Fold(EMPTY, ActionsOn(cfg, ys, d)),
                  TermsOn(cfg, cfg.interactions, xs, d));
  }

  /** Main result for the state: a dimension on which the active actions agree gets the same value in every
      order of the actions, whatever they do to other dimensions and whatever interactions apply. */
  lemma AgreeingFieldIgnoresOrder(m: Physics.Maths, cfg: Scenario, xs: seq<string>, ys: seq<string>, s: State, dt: real, d: string)
    requires Permutes(xs, ys) && Agree(ActionsOn(cfg, xs, d)) && d in s.fields
    ensures Applied(m, cfg, xs, s, dt).fields[d] == Applied(m, cfg, ys, s, dt).fields[d]
  {
    assert (xs == []) == (ys == []) by { assert |multiset(xs)| == |multiset(ys)|; }
    hide Gathered, ActionsOn, Agree, Settle, Permutes, Same;
    PermutedGatherSame(cfg, xs, ys, d);
    SameCellsSettleAlike(m, Gathered(cfg, xs, d), Gathered(cfg, ys, d), s.fields[d], dt);
  }

  /** Only scalings, all with one time constant: the documented multiplicative case. */
  ghost predicate ScalesAlike(cfg: Scenario, active: seq<string>, d: string, tau: real) {
    forall a :: a in active && a in cfg.actions && d in cfg.actions[a].effects ==>
      cfg.actions[a].effects[d].ScaleBy? && cfg.actions[a].effects[d].tau == tau
  }

  lemma ScalingIgnoresOrder(m: Physics.Maths, cfg: Scenario, xs: seq<string>, ys: seq<string>, s: State, dt: real,
                            d: string, tau: real)
    requires Permutes(xs, ys) && ScalesAlike(cfg, xs, d, tau) && d in s.fields
    ensures Applied(m, cfg, xs, s, dt).fields[d] == Applied(m, cfg, ys, s, dt).fields[d]
  {
    assert Agree(ActionsOn(cfg, xs, d)) by {
      var ks := ActionsOn(cfg, xs, d);
      forall k | k in ks ensures k == SILENT || (k.num.Some? && k.num.value.0 == Multiply && k.weak == Positive(tau) && k.strong.None? && k.text.None?) {
        var i :| 0 <= i < |ks| && ks[i] == k;
        assert xs[i] in xs;
      }
    }
    AgreeingFieldIgnoresOrder(m, cfg, xs, ys, s, dt, d);
  }

  function DoubleAndPlus(): Scenario {
    Scenario(map["double" := Action(true, map["x" := ScaleBy(Literal(2.0), 0.0)]),
                 "plus" := Action(true, map["x" := AddTo(Literal(3.0), 0.0)])], Add, map[], [])
  }

  /** Order does matter in general: the first operation seen for a dimension decides how all its operands are
      combined, so doubling and adding three give 60 or 15 from 10, depending on which became active first. */
  lemma FirstOperationDecides(m: Physics.Maths)
    ensures var s := State(map["x" := 10.0], "f16");
            && Applied(m, DoubleAndPlus(), ["double", "plus"], s, 1.0).fields == map["x" := 60.0]
            && Applied(m, DoubleAndPlus(), ["plus", "double"], s, 1.0).fields == map["x" := 15.0]
  {
    GatheredDoubleAndPlus();
    hide Gathered, DoubleAndPlus;
    assert [2.0, 3.0][..1] == [2.0] && [3.0, 2.0][..1] == [3.0];
    assert Settle(m, Cell(Some((Multiply, [2.0, 3.0])), None, None), 10.0, 1.0) == 60.0;
    assert Settle(m, Cell(Some((Add, [3.0, 2.0])), None, None), 10.0, 1.0) == 15.0;
  }

  lemma GatheredDoubleAndPlus()
    ensures Gathered(DoubleAndPlus(), ["double", "plus"], "x") == Cell(Some((Multiply, [2.0, 3.0])), None, None)
    ensures Gathered(DoubleAndPlus(), ["plus", "double"], "x") == Cell(Some((Add, [3.0, 2.0])), None, None)
  {
    var cfg := DoubleAndPlus();
    GatheredOfTwo(cfg, "double", "plus", "x");
    GatheredOfTwo(cfg, "plus", "double", "x");
    hide Gathered;
    assert |"double"| != |"plus"|;
    assert ActionOn(cfg, "double", "x") == SILENT.(num := Some((Multiply, 2.0)));
    assert ActionOn(cfg, "plus", "x") == SILENT.(num := Some((Add, 3.0)));
    assert [2.0] + [3.0] == [2.0, 3.0] && [3.0] + [2.0] == [3.0, 2.0];
  }

  lemma GatheredOfTwo(cfg: Scenario, a: string, b: string, d: string)
    requires cfg.interactions == []
    ensures Gathered(cfg, [a, b], d) == Absorb(Absorb(EMPTY, ActionOn(cfg, a, d)), ActionOn(cfg, b, d))
  {
    assert ActionsOn(cfg, [a, b], d) == [ActionOn(cfg, a, d)] + [ActionOn(cfg, b, d)];
    FoldGrows(EMPTY, ActionsOn(cfg, [a, b], d), [ActionOn(cfg, a, d)], ActionOn(cfg, b, d));
    FoldGrows(EMPTY, [ActionOn(cfg, a, d)], [], ActionOn(cfg, a, d));
  }
}
