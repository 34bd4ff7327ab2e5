/**
 * Where balances come from. An evaluation raises no balance (`Evaluation.Settled`); here, an account that it
 * opens starts with what the engine grants in some state the engine can be in, and the engine itself moves
 * only by its own operations.
 */
module Ledger {
  import opened Basics
  import opened Nouns
  import opened Evaluation

  /** A property of engine states that every operation of the engine keeps. */
  ghost predicate Kept<S(!new)>(w: World<S>, inv: S -> bool) {
    && (forall s, n {:trigger w.random(s, n)} :: inv(s) ==> inv(w.random(s, n).1))
    && (forall s, k {:trigger w.load(s, k)} :: inv(s) ==> inv(w.load(s, k).1))
    && (forall s, k, v {:trigger w.store(s, k + [0], v)} :: inv(s) ==> inv(w.store(s, k + [0], v)))
    && (forall s, v {:trigger w.store(s, w.blake(v, [], 64) + [1], v)} ::
          inv(s) ==> inv(w.store(s, w.blake(v, [], 64) + [1], v)))
    && (forall s, k, v {:trigger w.send(s, k, v)} :: inv(s) ==> inv(w.send(s, k, v)))
    && (forall s, c, k {:trigger w.consumeCounter(s, c, k)} :: inv(s) ==> inv(w.consumeCounter(s, c, k).1))
  }

  ghost predicate Affordable<S(!new)>(w: World<S>, inv: S -> bool, k: Key, balance: nat) {
    exists s :: inv(s) && balance <= w.grant(s, k)
  }

  /** The engine still satisfies the property, and accounts opened since hold no more than was granted. */
  ghost predicate Accounted<S(!new)>(w: World<S>, inv: S -> bool, m: Machine<S>, m': Machine<S>) {
    inv(m'.engine) &&
    forall k :: k in m'.balances && k !in m.balances ==> Affordable(w, inv, k, m'.balances[k])
  }

  lemma AffordableLess<S(!new)>(w: World<S>, inv: S -> bool, k: Key, balance: nat, less: nat)
    requires Affordable(w, inv, k, balance) && less <= balance
    ensures Affordable(w, inv, k, less)
  {
    var s :| inv(s) && balance <= w.grant(s, k);
    assert less <= w.grant(s, k);
  }

  lemma AccountedThen<S(!new)>(w: World<S>, inv: S -> bool, m: Machine<S>, m1: Machine<S>, m2: Machine<S>)
    requires Accounted(w, inv, m, m1) && Accounted(w, inv, m1, m2) && Settled(m1, m2)
    ensures Accounted(w, inv, m, m2)
  {
    forall k | k in m2.balances && k !in m.balances
      ensures Affordable(w, inv, k, m2.balances[k])
    {
      if k in m1.balances {
        AffordableLess(w, inv, k, m1.balances[k], m2.balances[k]);
      }
    }
  }

  lemma PrimitiveKeeps<S(!new)>(w: World<S>, inv: S -> bool, m: Machine<S>, op: nat, v: Noun)
    requires m.Valid() && IsStrict(op) && Kept(w, inv) && inv(m.engine)
    ensures inv(Primitive(w, m, op, v).1.engine)
  {
  }

  /** The theorem, for every property that the engine's operations keep. */
  lemma {:induction false} EvalAccounted<S(!new)>(w: World<S>, inv: S -> bool, m: Machine<S>, subject: Noun,
                                                  formula: Noun)
    requires m.Valid() && Kept(w, inv) && inv(m.engine)
    ensures Accounted(w, inv, m, Eval(w, m, subject, formula).1)
    decreases Unmet(m), Total(m.balances), 0
  {
    if m.Ticks() > 0 {
      PaidDescends(m);
      var paid := m.WithTicks(m.Ticks() - 1);
      assert paid.balances.Keys == m.balances.Keys;
      DispatchAccounted(w, inv, paid, subject, formula);
    }
  }

  lemma {:induction false} DispatchAccounted<S(!new)>(w: World<S>, inv: S -> bool, m: Machine<S>, subject: Noun,
                                                      formula: Noun)
    requires m.Valid() && Kept(w, inv) && inv(m.engine)
    ensures Accounted(w, inv, m, Dispatch(w, m, subject, formula).1)
    decreases Unmet(m), Total(m.balances), 3
  {
    match formula
    case Atom(_) =>
    case Cell(head, argument) =>
      if head.Cell? {
        BothAccounted(w, inv, m, subject, head, argument);
      } else if AsU8(head).Some? {
        var op := AsU8(head).value;
        if op == AXIS || op == LITERAL {
        } else if IsStrict(op) {
          StrictAccounted(w, inv, m, subject, op, argument);
        } else if op == RECURSE {
          RecurseAccounted(w, inv, m, subject, argument);
        } else if op == IF {
          IfAccounted(w, inv, m, subject, argument);
        } else if op == COMPOSE || op == DEFINE || op == CALL {
          ChainedAccounted(w, inv, m, subject, op, argument);
        } else if op == RETRIEVE_BY_HASH || op == RETRIEVE_BY_KEY {
          RetrieveAccounted(w, inv, m, subject, op, argument);
        } else if op == EXUCRYPT {
          ExucryptAccounted(w, inv, m, subject, argument);
        } else if op == EXECUTE_AS {
          ExecuteAsAccounted(w, inv, m, subject, argument);
        }
      }
  }

  /** Continue on another formula after some accounted and settled steps. */
  lemma {:induction false} ThenEval<S(!new)>(w: World<S>, inv: S -> bool, m: Machine<S>, m': Machine<S>,
                                             subject: Noun, formula: Noun)
    requires m.Valid() && m'.Valid() && Kept(w, inv)
    requires Settled(m, m') && Accounted(w, inv, m, m')
    ensures Accounted(w, inv, m, Eval(w, m', subject, formula).1)
    decreases Unmet(m), Total(m.balances), 1
  {
    SettledAtMost(m, m');
    EvalAccounted(w, inv, m', subject, formula);
    AccountedThen(w, inv, m, m', Eval(w, m', subject, formula).1);
  }

  lemma SpentAccounted<S(!new)>(w: World<S>, inv: S -> bool, m: Machine<S>, m1: Machine<S>, m2: Machine<S>)
    requires Settled(m, m1) && m.Valid() && Accounted(w, inv, m, m1) && Spent(m1, m2) && inv(m2.engine)
    ensures Settled(m, m2) && Accounted(w, inv, m, m2)
  {
    AccountedThen(w, inv, m, m1, m2);
  }

  lemma UnsealedEngine<S(!new)>(w: World<S>, m: Machine<S>, v: Noun)
    requires m.Valid()
    ensures Unsealed(w, m, v).2.engine == m.engine
  {
  }

  lemma DelegatedKeeps<S(!new)>(w: World<S>, inv: S -> bool, m: Machine<S>, v: Noun)
    requires m.Valid() && Kept(w, inv) && inv(m.engine)
    ensures inv(Delegated(w, m, v).1.engine)
  {
    hide PrivateKey, Decrypted, Spent;
  }

  lemma {:induction false} BothAccounted<S(!new)>(w: World<S>, inv: S -> bool, m: Machine<S>, subject: Noun,
                                                  left: Noun, right: Noun)
    requires m.Valid() && Kept(w, inv) && inv(m.engine)
    ensures Accounted(w, inv, m, EvalBoth(w, m, subject, left, right).1)
    decreases Unmet(m), Total(m.balances), 2
  {
    EvalAccounted(w, inv, m, subject, left);
    var (lhs, m1) := Eval(w, m, subject, left);
    if lhs.Ok? {
      ThenEval(w, inv, m, m1, subject, right);
    }
  }

  lemma {:induction false} StrictAccounted<S(!new)>(w: World<S>, inv: S -> bool, m: Machine<S>, subject: Noun,
                                                    op: nat, argument: Noun)
    requires m.Valid() && IsStrict(op) && Kept(w, inv) && inv(m.engine)
    ensures Accounted(w, inv, m, EvalStrict(w, m, subject, op, argument).1)
    decreases Unmet(m), Total(m.balances), 2
  {
    EvalAccounted(w, inv, m, subject, argument);
    var (v, m1) := Eval(w, m, subject, argument);
    if v.Ok? {
      PrimitiveKeeps(w, inv, m1, op, v.value);
      SpentAccounted(w, inv, m, m1, Primitive(w, m1, op, v.value).1);
    }
  }

  lemma {:induction false} RecurseAccounted<S(!new)>(w: World<S>, inv: S -> bool, m: Machine<S>, subject: Noun,
                                                     argument: Noun)
    requires m.Valid() && Kept(w, inv) && inv(m.engine)
    ensures Accounted(w, inv, m, EvalRecurse(w, m, subject, argument).1)
    decreases Unmet(m), Total(m.balances), 2
  {
    if argument.Cell? {
      EvalAccounted(w, inv, m, subject, argument.left);
      var (newSubject, m1) := Eval(w, m, subject, argument.left);
      if newSubject.Ok? {
        ThenEval(w, inv, m, m1, subject, argument.right);
        var (newFormula, m2) := Eval(w, m1, subject, argument.right);
        if newFormula.Ok? {
          ThenEval(w, inv, m, m2, newSubject.value, newFormula.value);
        }
      }
    }
  }

  lemma {:induction false} IfAccounted<S(!new)>(w: World<S>, inv: S -> bool, m: Machine<S>, subject: Noun,
                                                argument: Noun)
    requires m.Valid() && Kept(w, inv) && inv(m.engine)
    ensures Accounted(w, inv, m, EvalIf(w, m, subject, argument).1)
    decreases Unmet(m), Total(m.balances), 2
  {
    if argument.Cell? && argument.right.Cell? {
      EvalAccounted(w, inv, m, subject, argument.left);
      var (condition, m1) := Eval(w, m, subject, argument.left);
      if condition.Ok? {
        var branch := Branch(condition.value, argument.right.left, argument.right.right);
        if branch.Some? {
          ThenEval(w, inv, m, m1, subject, branch.value);
        }
      }
    }
  }

  lemma {:induction false} ChainedAccounted<S(!new)>(w: World<S>, inv: S -> bool, m: Machine<S>, subject: Noun,
                                                     op: nat, argument: Noun)
    requires m.Valid() && Kept(w, inv) && inv(m.engine)
    ensures Accounted(w, inv, m, EvalChained(w, m, subject, op, argument).1)
    decreases Unmet(m), Total(m.balances), 2
  {
    if argument.Cell? {
      var first := if op == CALL then argument.right else argument.left;
      EvalAccounted(w, inv, m, subject, first);
      var (v, m1) := Eval(w, m, subject, first);
      if v.Ok? && Continuation(op, subject, argument, v.value).Ok? {
        var (newSubject, newFormula) := Continuation(op, subject, argument, v.value).value;
        ThenEval(w, inv, m, m1, newSubject, newFormula);
      }
    }
  }

  lemma {:induction false} RetrieveAccounted<S(!new)>(w: World<S>, inv: S -> bool, m: Machine<S>, subject: Noun,
                                                      op: nat, argument: Noun)
    requires m.Valid() && Kept(w, inv) && inv(m.engine)
    ensures Accounted(w, inv, m, EvalRetrieve(w, m, subject, op, argument).1)
    decreases Unmet(m), Total(m.balances), 2
  {
    hide Eval, Unmet, Total, Affordable;
    EvalAccounted(w, inv, m, subject, argument);
    var (v, m1) := Eval(w, m, subject, argument);
    if v.Ok? {
      var (program, m2) := Retrieved(w, m1, op, v.value);
      SpentAccounted(w, inv, m, m1, m2);
      if program.Ok? && program.value.Some? {
        ThenEval(w, inv, m, m2, subject, program.value.value);
      }
    }
  }

  lemma {:induction false} ExucryptAccounted<S(!new)>(w: World<S>, inv: S -> bool, m: Machine<S>, subject: Noun,
                                                      argument: Noun)
    requires m.Valid() && Kept(w, inv) && inv(m.engine)
    ensures Accounted(w, inv, m, EvalExucrypt(w, m, subject, argument).1)
    decreases Unmet(m), Total(m.balances), 2
  {
    hide Eval, Unmet, Total, Affordable, Settled, Spent;
    EvalAccounted(w, inv, m, subject, argument);
    var (v, m1) := Eval(w, m, subject, argument);
    SettledStays(m, m1, m.executingAs);
    if v.Ok? {
      hide Unsealed;
      var (program, private, m2) := Unsealed(w, m1, v.value);
      UnsealedEngine(w, m1, v.value);
      SpentAccounted(w, inv, m, m1, m2);
      if program.Ok? && program.value.Some? {
        ThenEval(w, inv, m, m2, subject, program.value.value);
      }
    }
  }

  lemma {:induction false} ExecuteAsAccounted<S(!new)>(w: World<S>, inv: S -> bool, m: Machine<S>, subject: Noun,
                                                       argument: Noun)
    requires m.Valid() && Kept(w, inv) && inv(m.engine)
    ensures Accounted(w, inv, m, EvalExecuteAs(w, m, subject, argument).1)
    decreases Unmet(m), Total(m.balances), 2
  {
    hide Eval, Unmet, Total, Delegated, Affordable, Spent;
    EvalAccounted(w, inv, m, subject, argument);
    var (v, m1) := Eval(w, m, subject, argument);
    SettledStays(m, m1, m.executingAs);
    if v.Ok? {
      var (delegation, m2) := Delegated(w, m1, v.value);
      DelegatedKeeps(w, inv, m1, v.value);
      SpentAccounted(w, inv, m, m1, m2);
      if delegation.Ok? {
        var Delegation(newSubject, runner, body) := delegation.value;
        SwitchedAtMost(w, m, m2, runner);
        var delegate := Switched(w, m2, runner);
        SwitchedAccounted(w, inv, m, m2, runner);
        EvalAccounted(w, inv, delegate, newSubject, body);
        var m3 := Eval(w, delegate, newSubject, body).1;
        DelegateAccounted(w, inv, m, delegate, m3);
      }
    }
  }

  lemma SwitchedAccounted<S(!new)>(w: World<S>, inv: S -> bool, m: Machine<S>, m': Machine<S>, runner: Key)
    requires Accounted(w, inv, m, m')
    ensures Accounted(w, inv, m, Switched(w, m', runner))
  {
    if runner !in m'.balances {
      assert w.grant(m'.engine, runner) <= w.grant(m'.engine, runner);
    }
  }

  lemma DelegateAccounted<S(!new)>(w: World<S>, inv: S -> bool, m: Machine<S>, delegate: Machine<S>, m': Machine<S>)
    requires Accounted(w, inv, m, delegate) && Accounted(w, inv, delegate, m') && Settled(delegate, m')
    ensures Accounted(w, inv, m, m')
  {
    AccountedThen(w, inv, m, delegate, m');
  }

  /** A whole program spends no more than its own limit and what the engine grants to the runners it involves. */
  lemma ProgramAccounted<S(!new)>(w: World<S>, inv: S -> bool, engine: S, subject: Noun, formula: Noun, limit: nat)
    requires Kept(w, inv) && inv(engine)
    ensures var m := Eval(w, Machine(NOBODY, map[NOBODY := limit], engine), subject, formula).1;
            m.executingAs == NOBODY && inv(m.engine) &&
            NOBODY in m.balances && m.balances[NOBODY] <= limit &&
            forall k :: k in m.balances && k != NOBODY ==> Affordable(w, inv, k, m.balances[k])
  {
    EvalAccounted(w, inv, Machine(NOBODY, map[NOBODY := limit], engine), subject, formula);
  }
}
