/**
 * Rules for reasoning about formulas. `Runs` says that a formula, on a subject and from an engine state, takes
 * exactly `cost` ticks and gives a value and a new engine state, whatever else the machine holds.
 */
module Rules {
  import opened Basics
  import opened Nouns
  import opened Evaluation
  import opened DenseTree
  import opened Compile
  import Axis

  function After<S>(m: Machine<S>, cost: nat, engine: S): (r: Machine<S>)
    requires m.Valid() && cost <= m.Ticks()
    ensures r.Valid() && r.Ticks() == m.Ticks() - cost && r.engine == engine
  {
    m.WithTicks(m.Ticks() - cost).(engine := engine)
  }

  ghost predicate Runs<S(!new)>(w: World<S>, s: S, subject: Noun, formula: Noun, v: Noun, s': S, cost: nat) {
    forall m: Machine<S> {:trigger Eval(w, m, subject, formula)} ::
      m.Valid() && m.engine == s && cost <= m.Ticks() ==> Eval(w, m, subject, formula) == (Ok(v), After(m, cost, s'))
  }

  lemma AfterAfter<S>(m: Machine<S>, a: nat, s1: S, b: nat, s2: S)
    requires m.Valid() && a + b <= m.Ticks()
    ensures After(After(m, a, s1), b, s2) == After(m, a + b, s2)
  {
    assert After(After(m, a, s1), b, s2).balances == After(m, a + b, s2).balances;
  }

  lemma PayOne<S>(m: Machine<S>)
    requires m.Valid() && m.Ticks() > 0
    ensures m.WithTicks(m.Ticks() - 1) == After(m, 1, m.engine)
  {
  }

  lemma RunsLiteral<S(!new)>(w: World<S>, s: S, subject: Noun, n: Noun)
    ensures Runs(w, s, subject, Quoted(LITERAL, n), n, s, 1)
  {
    assert AsU8(FromU8(LITERAL)) == Some(LITERAL) by {
      OpcodeRead(LITERAL);
    }
  }

  lemma OpcodeRead(op: Byte)
    ensures AsU8(FromU8(op)) == Some(op)
  {
    assert [op][1..] == [] && LeValue([]) == 0;
    assert LeValue([op]) == op;
  }

  lemma RunsAxis<S(!new)>(w: World<S>, s: S, subject: Noun, index: Noun, v: Noun)
    requires Axis.AxisResult(index, subject) == Ok(v)
    ensures Runs(w, s, subject, Quoted(AXIS, index), v, s, 1)
  {
    OpcodeRead(AXIS);
  }

  /** Evaluating is paying one tick and dispatching. */
  lemma EvalUnfolds<S>(w: World<S>, m: Machine<S>, subject: Noun, formula: Noun)
    requires m.Valid() && m.Ticks() > 0
    ensures Eval(w, m, subject, formula) == Dispatch(w, After(m, 1, m.engine), subject, formula)
  {
    PayOne(m);
  }

  lemma DispatchBoth<S>(w: World<S>, m: Machine<S>, subject: Noun, f: Noun, g: Noun)
    requires m.Valid() && f.Cell?
    ensures Dispatch(w, m, subject, Cell(f, g)) == EvalBoth(w, m, subject, f, g)
  {
  }

  lemma DispatchOpcode<S>(w: World<S>, m: Machine<S>, subject: Noun, op: Byte, argument: Noun)
    requires m.Valid()
    ensures IsStrict(op) ==> Dispatch(w, m, subject, Quoted(op, argument)) == EvalStrict(w, m, subject, op, argument)
    ensures op == IF ==> Dispatch(w, m, subject, Quoted(op, argument)) == EvalIf(w, m, subject, argument)
    ensures op == RECURSE ==> Dispatch(w, m, subject, Quoted(op, argument)) == EvalRecurse(w, m, subject, argument)
    ensures op in {COMPOSE, DEFINE, CALL} ==>
              Dispatch(w, m, subject, Quoted(op, argument)) == EvalChained(w, m, subject, op, argument)
  {
    hide EvalBoth, EvalStrict, EvalIf, EvalRecurse, EvalChained, EvalRetrieve, EvalExucrypt, EvalExecuteAs;
    OpcodeRead(op);
  }

  /** A formula that runs, run after `spent` ticks have been spent. */
  lemma RunsAt<S(!new)>(w: World<S>, m: Machine<S>, spent: nat, s: S, subject: Noun, f: Noun, v: Noun, s': S, cost: nat)
    requires m.Valid() && spent + cost <= m.Ticks() && Runs(w, s, subject, f, v, s', cost)
    ensures Eval(w, After(m, spent, s), subject, f) == (Ok(v), After(m, spent + cost, s'))
  {
    hide Eval, After;
    AfterAfter(m, spent, s, cost, s');
    var m' := After(m, spent, s);
    assert Eval(w, m', subject, f) == (Ok(v), After(m', cost, s'));
  }

  lemma AppliesAt<S(!new)>(w: World<S>, m: Machine<S>, spent: nat, op: nat, s: S, x: Noun, y: Noun, s': S, cost: nat)
    requires IsStrict(op) && m.Valid() && spent + cost <= m.Ticks() && Applies(w, op, s, x, y, s', cost)
    ensures Primitive(w, After(m, spent, s), op, x) == (Ok(y), After(m, spent + cost, s'))
  {
    hide Primitive, After;
    AfterAfter(m, spent, s, cost, s');
    var m' := After(m, spent, s);
    assert Primitive(w, m', op, x) == (Ok(y), After(m', cost, s'));
  }

  lemma BothAt<S>(w: World<S>, m: Machine<S>, subject: Noun, f: Noun, g: Noun,
                  x: Noun, m1: Machine<S>, y: Noun, m2: Machine<S>)
    requires m.Valid() && m1.Valid()
    requires Eval(w, m, subject, f) == (Ok(x), m1) && Eval(w, m1, subject, g) == (Ok(y), m2)
    ensures EvalBoth(w, m, subject, f, g) == (Ok(Cell(x, y)), m2)
  {
    hide Eval;
  }

  lemma RecurseAt<S>(w: World<S>, m: Machine<S>, subject: Noun, f: Noun, g: Noun,
                     x: Noun, m1: Machine<S>, h: Noun, m2: Machine<S>, y: Noun, m3: Machine<S>)
    requires m.Valid() && m1.Valid() && m2.Valid()
    requires Eval(w, m, subject, f) == (Ok(x), m1) && Eval(w, m1, subject, g) == (Ok(h), m2)
    requires Eval(w, m2, x, h) == (Ok(y), m3)
    ensures EvalRecurse(w, m, subject, Cell(f, g)) == (Ok(y), m3)
  {
    hide Eval;
  }

  lemma ChainedAt<S>(w: World<S>, m: Machine<S>, subject: Noun, op: nat, argument: Noun,
                     x: Noun, m1: Machine<S>, subject': Noun, formula': Noun, y: Noun, m2: Machine<S>)
    requires m.Valid() && m1.Valid() && argument.Cell?
    requires Eval(w, m, subject, if op == CALL then argument.right else argument.left) == (Ok(x), m1)
    requires Continuation(op, subject, argument, x) == Ok((subject', formula'))
    requires Eval(w, m1, subject', formula') == (Ok(y), m2)
    ensures EvalChained(w, m, subject, op, argument) == (Ok(y), m2)
  {
    hide Eval, Continuation;
  }

  lemma BothOn<S(!new)>(w: World<S>, subject: Noun, f: Noun, g: Noun,
                        s: S, x: Noun, s1: S, a: nat, y: Noun, s2: S, b: nat, m: Machine<S>)
    requires f.Cell?
    requires Runs(w, s, subject, f, x, s1, a) && Runs(w, s1, subject, g, y, s2, b)
    requires m.Valid() && m.engine == s && 1 + a + b <= m.Ticks()
    ensures Eval(w, m, subject, Cell(f, g)) == (Ok(Cell(x, y)), After(m, 1 + a + b, s2))
  {
    hide *;
    EvalUnfolds(w, m, subject, Cell(f, g));
    DispatchBoth(w, After(m, 1, s), subject, f, g);
    RunsAt(w, m, 1, s, subject, f, x, s1, a);
    RunsAt(w, m, 1 + a, s1, subject, g, y, s2, b);
    BothAt(w, After(m, 1, s), subject, f, g, x, After(m, 1 + a, s1), y, After(m, 1 + a + b, s2));
  }

  lemma RunsBoth<S(!new)>(w: World<S>, subject: Noun, f: Noun, g: Noun,
                          s: S, x: Noun, s1: S, a: nat, y: Noun, s2: S, b: nat)
    requires f.Cell?
    requires Runs(w, s, subject, f, x, s1, a) && Runs(w, s1, subject, g, y, s2, b)
    ensures Runs(w, s, subject, Cell(f, g), Cell(x, y), s2, 1 + a + b)
  {
    forall m: Machine<S> | m.Valid() && m.engine == s && 1 + a + b <= m.Ticks()
      ensures Eval(w, m, subject, Cell(f, g)) == (Ok(Cell(x, y)), After(m, 1 + a + b, s2))
    {
      BothOn(w, subject, f, g, s, x, s1, a, y, s2, b, m);
    }
  }

  lemma StrictOn<S(!new)>(w: World<S>, subject: Noun, op: Byte, f: Noun,
                          s: S, x: Noun, s1: S, a: nat, y: Noun, s2: S, b: nat, m: Machine<S>)
    requires IsStrict(op)
    requires Runs(w, s, subject, f, x, s1, a) && Applies(w, op, s1, x, y, s2, b)
    requires m.Valid() && m.engine == s && 1 + a + b <= m.Ticks()
    ensures Eval(w, m, subject, Quoted(op, f)) == (Ok(y), After(m, 1 + a + b, s2))
  {
    hide Eval, Dispatch, After, Settled, Runs, Applies, Primitive, IsStrict, Quoted;
    EvalUnfolds(w, m, subject, Quoted(op, f));
    DispatchOpcode(w, After(m, 1, s), subject, op, f);
    RunsAt(w, m, 1, s, subject, f, x, s1, a);
    AppliesAt(w, m, 1 + a, op, s1, x, y, s2, b);
  }

  lemma RunsStrict<S(!new)>(w: World<S>, subject: Noun, op: Byte, f: Noun,
                            s: S, x: Noun, s1: S, a: nat, y: Noun, s2: S, b: nat)
    requires IsStrict(op)
    requires Runs(w, s, subject, f, x, s1, a) && Applies(w, op, s1, x, y, s2, b)
    ensures Runs(w, s, subject, Quoted(op, f), y, s2, 1 + a + b)
  {
    forall m: Machine<S> | m.Valid() && m.engine == s && 1 + a + b <= m.Ticks()
      ensures Eval(w, m, subject, Quoted(op, f)) == (Ok(y), After(m, 1 + a + b, s2))
    {
      StrictOn(w, subject, op, f, s, x, s1, a, y, s2, b, m);
    }
  }

  lemma IfOn<S(!new)>(w: World<S>, subject: Noun, f: Noun, g: Noun, h: Noun,
                      s: S, x: Noun, s1: S, a: nat, y: Noun, s2: S, b: nat, m: Machine<S>)
    requires Branch(x, g, h).Some?
    requires Runs(w, s, subject, f, x, s1, a) && Runs(w, s1, subject, Branch(x, g, h).value, y, s2, b)
    requires m.Valid() && m.engine == s && 1 + a + b <= m.Ticks()
    ensures Eval(w, m, subject, Quoted(IF, Cell(f, Cell(g, h)))) == (Ok(y), After(m, 1 + a + b, s2))
  {
    hide Eval, Dispatch, After, Settled, Runs, Quoted, Branch;
    EvalUnfolds(w, m, subject, Quoted(IF, Cell(f, Cell(g, h))));
    DispatchOpcode(w, After(m, 1, s), subject, IF, Cell(f, Cell(g, h)));
    RunsAt(w, m, 1, s, subject, f, x, s1, a);
    RunsAt(w, m, 1 + a, s1, subject, Branch(x, g, h).value, y, s2, b);
  }

  lemma RunsIf<S(!new)>(w: World<S>, subject: Noun, f: Noun, g: Noun, h: Noun,
                        s: S, x: Noun, s1: S, a: nat, y: Noun, s2: S, b: nat)
    requires Branch(x, g, h).Some?
    requires Runs(w, s, subject, f, x, s1, a) && Runs(w, s1, subject, Branch(x, g, h).value, y, s2, b)
    ensures Runs(w, s, subject, Quoted(IF, Cell(f, Cell(g, h))), y, s2, 1 + a + b)
  {
    forall m: Machine<S> | m.Valid() && m.engine == s && 1 + a + b <= m.Ticks()
      ensures Eval(w, m, subject, Quoted(IF, Cell(f, Cell(g, h)))) == (Ok(y), After(m, 1 + a + b, s2))
    {
      IfOn(w, subject, f, g, h, s, x, s1, a, y, s2, b, m);
    }
  }

  lemma ChainedOn<S(!new)>(w: World<S>, subject: Noun, op: Byte, argument: Noun, subject': Noun, formula': Noun,
                           s: S, x: Noun, s1: S, a: nat, y: Noun, s2: S, b: nat, m: Machine<S>)
    requires op in {COMPOSE, DEFINE, CALL}
    requires argument.Cell?
    requires Runs(w, s, subject, if op == CALL then argument.right else argument.left, x, s1, a)
    requires Continuation(op, subject, argument, x) == Ok((subject', formula'))
    requires Runs(w, s1, subject', formula', y, s2, b)
    requires m.Valid() && m.engine == s && 1 + a + b <= m.Ticks()
    ensures Eval(w, m, subject, Quoted(op, argument)) == (Ok(y), After(m, 1 + a + b, s2))
  {
    hide Eval, EvalChained, After, Settled, Runs, Quoted, Continuation;
    ChainedUnfolds(w, m, subject, op, argument, s);
    RunsAt(w, m, 1, s, subject, if op == CALL then argument.right else argument.left, x, s1, a);
    RunsAt(w, m, 1 + a, s1, subject', formula', y, s2, b);
    ChainedAt(w, After(m, 1, s), subject, op, argument, x, After(m, 1 + a, s1), subject', formula', y,
              After(m, 1 + a + b, s2));
  }

  lemma ChainedUnfolds<S>(w: World<S>, m: Machine<S>, subject: Noun, op: Byte, argument: Noun, s: S)
    requires op in {COMPOSE, DEFINE, CALL} && m.Valid() && m.engine == s && m.Ticks() > 0
    ensures After(m, 1, s).Valid()
    ensures Eval(w, m, subject, Quoted(op, argument)) == EvalChained(w, After(m, 1, s), subject, op, argument)
  {
    hide Eval, Dispatch, EvalChained, Quoted;
    EvalUnfolds(w, m, subject, Quoted(op, argument));
    DispatchOpcode(w, After(m, 1, s), subject, op, argument);
  }

  /** `COMPOSE`, `DEFINE` and `CALL` run one formula and then another on a subject made from its value. */
  lemma RunsChained<S(!new)>(w: World<S>, subject: Noun, op: Byte, argument: Noun, subject': Noun, formula': Noun,
                             s: S, x: Noun, s1: S, a: nat, y: Noun, s2: S, b: nat)
    requires op in {COMPOSE, DEFINE, CALL}
    requires argument.Cell?
    requires Runs(w, s, subject, if op == CALL then argument.right else argument.left, x, s1, a)
    requires Continuation(op, subject, argument, x) == Ok((subject', formula'))
    requires Runs(w, s1, subject', formula', y, s2, b)
    ensures Runs(w, s, subject, Quoted(op, argument), y, s2, 1 + a + b)
  {
    forall m: Machine<S> | m.Valid() && m.engine == s && 1 + a + b <= m.Ticks()
      ensures Eval(w, m, subject, Quoted(op, argument)) == (Ok(y), After(m, 1 + a + b, s2))
    {
      ChainedOn(w, subject, op, argument, subject', formula', s, x, s1, a, y, s2, b, m);
    }
  }

  lemma RecurseOn<S(!new)>(w: World<S>, subject: Noun, f: Noun, g: Noun,
                           s: S, x: Noun, s1: S, a: nat, h: Noun, s2: S, b: nat, y: Noun, s3: S, c: nat, m: Machine<S>)
    requires Runs(w, s, subject, f, x, s1, a) && Runs(w, s1, subject, g, h, s2, b) && Runs(w, s2, x, h, y, s3, c)
    requires m.Valid() && m.engine == s && 1 + a + b + c <= m.Ticks()
    ensures Eval(w, m, subject, Quoted(RECURSE, Cell(f, g))) == (Ok(y), After(m, 1 + a + b + c, s3))
  {
    hide Eval, Dispatch, EvalRecurse, After, Settled, Runs, Quoted;
    EvalUnfolds(w, m, subject, Quoted(RECURSE, Cell(f, g)));
    DispatchOpcode(w, After(m, 1, s), subject, RECURSE, Cell(f, g));
    RunsAt(w, m, 1, s, subject, f, x, s1, a);
    RunsAt(w, m, 1 + a, s1, subject, g, h, s2, b);
    RunsAt(w, m, 1 + a + b, s2, x, h, y, s3, c);
    RecurseAt(w, After(m, 1, s), subject, f, g, x, After(m, 1 + a, s1), h, After(m, 1 + a + b, s2),
              y, After(m, 1 + a + b + c, s3));
  }

  lemma RunsRecurse<S(!new)>(w: World<S>, subject: Noun, f: Noun, g: Noun,
                             s: S, x: Noun, s1: S, a: nat, h: Noun, s2: S, b: nat, y: Noun, s3: S, c: nat)
    requires Runs(w, s, subject, f, x, s1, a) && Runs(w, s1, subject, g, h, s2, b) && Runs(w, s2, x, h, y, s3, c)
    ensures Runs(w, s, subject, Quoted(RECURSE, Cell(f, g)), y, s3, 1 + a + b + c)
  {
    forall m: Machine<S> | m.Valid() && m.engine == s && 1 + a + b + c <= m.Ticks()
      ensures Eval(w, m, subject, Quoted(RECURSE, Cell(f, g))) == (Ok(y), After(m, 1 + a + b + c, s3))
    {
      RecurseOn(w, subject, f, g, s, x, s1, a, h, s2, b, y, s3, c, m);
    }
  }

  /** Formulas that run one after another, threading the engine: states and costs of each. */
  ghost predicate RunsAll<S(!new)>(w: World<S>, subject: Noun,
                                   fs: seq<Noun>, vs: seq<Noun>, states: seq<S>, costs: seq<nat>) {
    |fs| == |vs| == |costs| && |states| == |fs| + 1 &&
    (forall i :: 0 <= i < |fs| ==> fs[i].Cell?) &&
    forall i :: 0 <= i < |fs| ==> Runs(w, states[i], subject, fs[i], vs[i], states[i + 1], costs[i])
  }

  function Sum(costs: seq<nat>): nat {
    if costs == [] then 0 else costs[0] + Sum(costs[1..])
  }

  lemma {:induction false} RunsNested<S(!new)>(w: World<S>, subject: Noun,
                                               fs: seq<Noun>, vs: seq<Noun>, states: seq<S>, costs: seq<nat>)
    returns (cost: nat)
    requires fs != [] && RunsAll(w, subject, fs, vs, states, costs)
    ensures Runs(w, states[0], subject, Nested(fs), Nested(vs), states[|fs|], cost)
    ensures Nested(fs).Cell?
    decreases |fs|
  {
    if |fs| == 1 {
      cost := costs[0];
    } else {
      var rest := RunsNested(w, subject, fs[1..], vs[1..], states[1..], costs[1..]);
      RunsBoth(w, subject, fs[0], Nested(fs[1..]), states[0], vs[0], states[1], costs[0],
               Nested(vs[1..]), states[|fs|], rest);
      cost := 1 + costs[0] + rest;
    }
  }

  /** Pairing neighbouring formulas pairs their values. */
  lemma {:induction false} RunsPaired<S(!new)>(w: World<S>, subject: Noun,
                                               fs: seq<Noun>, vs: seq<Noun>, states: seq<S>, costs: seq<nat>)
    returns (states': seq<S>, costs': seq<nat>)
    requires RunsAll(w, subject, fs, vs, states, costs)
    ensures RunsAll(w, subject, PairUp(fs), PairUp(vs), states', costs')
    ensures states'[0] == states[0] && states'[|states'| - 1] == states[|states| - 1]
    decreases |fs|
  {
    if |fs| <= 1 {
      states', costs' := states, costs;
    } else {
      var restStates, restCosts := RunsPaired(w, subject, fs[2..], vs[2..], states[2..], costs[2..]);
      RunsBoth(w, subject, fs[0], fs[1], states[0], vs[0], states[1], costs[0], vs[1], states[2], costs[1]);
      states' := [states[0]] + restStates;
      costs' := [1 + costs[0] + costs[1]] + restCosts;
      PairedIsAll(w, subject, fs, vs, states, costs, restStates, restCosts);
    }
  }

  lemma PairedIsAll<S(!new)>(w: World<S>, subject: Noun, fs: seq<Noun>, vs: seq<Noun>, states: seq<S>, costs: seq<nat>,
                             restStates: seq<S>, restCosts: seq<nat>)
    requires |fs| == |vs| == |costs| >= 2 && |states| == |fs| + 1
    requires Runs(w, states[0], subject, Cell(fs[0], fs[1]), Cell(vs[0], vs[1]), states[2], 1 + costs[0] + costs[1])
    requires RunsAll(w, subject, PairUp(fs[2..]), PairUp(vs[2..]), restStates, restCosts)
    requires restStates[0] == states[2]
    ensures RunsAll(w, subject, PairUp(fs), PairUp(vs), [states[0]] + restStates, [1 + costs[0] + costs[1]] + restCosts)
  {
    hide Runs;
    var fs', vs' := PairUp(fs), PairUp(vs);
    assert fs' == [Cell(fs[0], fs[1])] + PairUp(fs[2..]);
    assert vs' == [Cell(vs[0], vs[1])] + PairUp(vs[2..]);
    var ss, cs := [states[0]] + restStates, [1 + costs[0] + costs[1]] + restCosts;
    forall i | 0 <= i < |fs'|
      ensures fs'[i].Cell? && Runs(w, ss[i], subject, fs'[i], vs'[i], ss[i + 1], cs[i])
    {
      if i > 0 {
        assert fs'[i] == PairUp(fs[2..])[i - 1] && vs'[i] == PairUp(vs[2..])[i - 1];
      }
    }
  }

  /** A dense tree of formulas makes the dense tree of their values. */
  lemma {:induction false} RunsDense<S(!new)>(w: World<S>, subject: Noun,
                                              fs: seq<Noun>, vs: seq<Noun>, states: seq<S>, costs: seq<nat>)
    returns (cost: nat)
    requires fs != [] && RunsAll(w, subject, fs, vs, states, costs)
    ensures Runs(w, states[0], subject, Dense(fs), Dense(vs), states[|fs|], cost)
    ensures Dense(fs).Cell?
    decreases |fs|
  {
    if |fs| == 1 {
      cost := costs[0];
    } else {
      var states', costs' := RunsPaired(w, subject, fs, vs, states, costs);
      cost := RunsDense(w, subject, PairUp(fs), PairUp(vs), states', costs');
    }
  }

  /** A strict opcode takes exactly `cost` ticks to make `y` of `x`, whatever else the machine holds. */
  ghost predicate Applies<S(!new)>(w: World<S>, op: nat, s: S, x: Noun, y: Noun, s': S, cost: nat)
    requires IsStrict(op)
  {
    forall m: Machine<S> {:trigger Primitive(w, m, op, x)} ::
      m.Valid() && m.engine == s && cost <= m.Ticks() ==> Primitive(w, m, op, x) == (Ok(y), After(m, cost, s'))
  }
}
