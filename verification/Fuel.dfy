/**
 * Fuel monotonicity: giving any account more ticks never changes a successful evaluation. It returns the same
 * noun, leaves the world outside the same, and takes the same ticks from every account.
 */
module Fuel {
  import opened Basics
  import opened Nouns
  import opened Evaluation
  import Equal
  import Shape

  /** The machine in which account `k` has `d` more ticks. */
  function Granted<S>(m: Machine<S>, k: Key, d: nat): (r: Machine<S>)
    requires k in m.balances
    ensures r.balances.Keys == m.balances.Keys
    ensures m.Valid() ==> r.Valid() && r.Ticks() == m.Ticks() + if k == m.executingAs then d else 0
  {
    m.(balances := m.balances[k := m.balances[k] + d])
  }

  /** A step that does the same with more ticks in account `k`. */
  ghost predicate Unmoved<T, S>(step: (Result<T, EvalError>, Machine<S>), richer: (Result<T, EvalError>, Machine<S>),
                                k: Key, d: nat) {
    step.0.Ok? ==> k in step.1.balances && richer == (step.0, Granted(step.1, k, d))
  }

  lemma GrantedTicks<S>(m: Machine<S>, k: Key, d: nat, count: nat)
    requires m.Valid() && k in m.balances
    ensures Granted(m.WithTicks(count), k, d) ==
            Granted(m, k, d).WithTicks(count + if k == m.executingAs then d else 0)
  {
    var a := Granted(m.WithTicks(count), k, d).balances;
    var b := Granted(m, k, d).WithTicks(count + if k == m.executingAs then d else 0).balances;
    assert a.Keys == b.Keys;
    assert forall j :: j in a ==> a[j] == b[j];
    assert a == b;
  }

  lemma ChargedMore<S>(m: Machine<S>, k: Key, d: nat, cost: nat)
    requires m.Valid() && k in m.balances && Charged(m, cost).Some?
    ensures Charged(Granted(m, k, d), cost) == Some(Granted(Charged(m, cost).value, k, d))
  {
    GrantedTicks(m, k, d, m.Ticks() - cost);
  }

  lemma {:induction false} PrivateKeyMore<S>(w: World<S>, m: Machine<S>, k: Key, d: nat, public: Noun, right: bool)
    requires m.Valid() && k in m.balances && PrivateKey(w, m, public, right).0.Some?
    ensures PrivateKey(w, Granted(m, k, d), public, right) ==
            (PrivateKey(w, m, public, right).0, Granted(PrivateKey(w, m, public, right).1, k, d))
    decreases public
  {
    match public
    case Atom(xs) =>
      ChargedMore(m, k, d, |xs|);
    case Cell(l, r) =>
      ChargedMore(m, k, d, 128);
      var m1 := Charged(m, 128).value;
      PrivateKeyMore(w, m1, k, d, l, false);
      PrivateKeyMore(w, PrivateKey(w, m1, l, false).1, k, d, r, true);
  }

  lemma DecryptedMore<S>(w: World<S>, m: Machine<S>, k: Key, d: nat, key: Bytes, ciphertext: Bytes)
    requires m.Valid() && k in m.balances
    ensures Unmoved(Decrypted(w, m, key, ciphertext), Decrypted(w, Granted(m, k, d), key, ciphertext), k, d)
  {
    if |ciphertext| <= m.Ticks() {
      ChargedMore(m, k, d, |ciphertext|);
    }
  }

  lemma BinaryMathMore<S>(m: Machine<S>, k: Key, d: nat, v: Noun, f: (Bytes, Bytes) -> Noun)
    requires m.Valid() && k in m.balances
    ensures Unmoved(BinaryMath(m, v, f), BinaryMath(Granted(m, k, d), v, f), k, d)
  {
    if v.Cell? {
      var cost := Max(AtomLen(v.left), AtomLen(v.right));
      if cost <= m.Ticks() {
        ChargedMore(m, k, d, cost);
      }
    }
  }

  lemma HashInputMore<S>(m: Machine<S>, k: Key, d: nat, v: Noun)
    requires m.Valid() && k in m.balances
    ensures Unmoved(HashInput(m, v), HashInput(Granted(m, k, d), v), k, d)
  {
    if ToBytes(v).Ok? && 20 + |ToBytes(v).value| <= m.Ticks() {
      ChargedMore(m, k, d, 20 + |ToBytes(v).value|);
    }
  }

  lemma ComparedMore<S>(m: Machine<S>, k: Key, d: nat, v: Noun)
    requires m.Valid() && k in m.balances
    ensures Unmoved(Compared(m, v), Compared(Granted(m, k, d), v), k, d)
  {
    if v.Cell? {
      Equal.CompareIsEquality(v.left, v.right, m.Ticks());
      Equal.CompareIsEquality(v.left, v.right, Granted(m, k, d).Ticks());
      GrantedTicks(m, k, d, Equal.Compare(v.left, v.right, m.Ticks()).1);
    }
  }

  lemma RecutMore<S>(m: Machine<S>, k: Key, d: nat, v: Noun)
    requires m.Valid() && k in m.balances
    ensures Unmoved(Recut(m, v), Recut(Granted(m, k, d), v), k, d)
  {
    if v.Cell? {
      Shape.ReshapeSucceeds(v.left, v.right, m.Ticks(), RESHAPE_LIMIT);
      Shape.ReshapeSucceeds(v.left, v.right, Granted(m, k, d).Ticks(), RESHAPE_LIMIT);
      GrantedTicks(m, k, d, Shape.Reshaped(v.left, v.right, m.Ticks(), RESHAPE_LIMIT).1);
    }
  }

  lemma ShapeOfMore<S>(m: Machine<S>, k: Key, d: nat, v: Noun)
    requires m.Valid() && k in m.balances
    ensures Unmoved(ShapeOf(m, v), ShapeOf(Granted(m, k, d), v), k, d)
  {
    Shape.MeasuredCost(v, m.Ticks());
    Shape.MeasuredCost(v, Granted(m, k, d).Ticks());
    GrantedTicks(m, k, d, Shape.Measured(v, m.Ticks()).1);
  }

  lemma InvertedMore<S>(m: Machine<S>, k: Key, d: nat, v: Noun)
    requires m.Valid() && k in m.balances
    ensures Unmoved(Inverted(m, v), Inverted(Granted(m, k, d), v), k, d)
  {
    if AtomLen(v) <= m.Ticks() {
      ChargedMore(m, k, d, AtomLen(v));
    }
  }

  lemma KeypairMore<S>(w: World<S>, m: Machine<S>, k: Key, d: nat, v: Noun)
    requires m.Valid() && k in m.balances
    ensures Unmoved(Keypair(w, m, v), Keypair(w, Granted(m, k, d), v), k, d)
  {
    hide PrivateKey;
    var public := Cell(v, Atom(w.random(m.engine, 32).0));
    var m' := m.(engine := w.random(m.engine, 32).1);
    assert Granted(m, k, d).(engine := m'.engine) == Granted(m', k, d);
    if PrivateKey(w, m', public, false).0.Some? {
      PrivateKeyMore(w, m', k, d, public, false);
    }
  }

  lemma OpenedMore<S>(w: World<S>, m: Machine<S>, k: Key, d: nat, v: Noun)
    requires m.Valid() && k in m.balances
    ensures Unmoved(Opened(w, m, v), Opened(w, Granted(m, k, d), v), k, d)
  {
    if v.Cell? && IsKey(v.left) && v.right.Atom? {
      DecryptedMore(w, m, k, d, v.left.bytes, v.right.bytes);
    }
  }

  lemma HashedMore<S>(w: World<S>, m: Machine<S>, k: Key, d: nat, v: Noun)
    requires m.Valid() && k in m.balances
    ensures Unmoved(Hashed(w, m, v), Hashed(w, Granted(m, k, d), v), k, d)
  {
    HashInputMore(m, k, d, v);
  }

  lemma StoredByHashMore<S>(w: World<S>, m: Machine<S>, k: Key, d: nat, v: Noun)
    requires m.Valid() && k in m.balances
    ensures Unmoved(StoredByHash(w, m, v), StoredByHash(w, Granted(m, k, d), v), k, d)
  {
    HashInputMore(m, k, d, v);
  }

  /** The strict opcodes that do not look at the meter. */
  lemma UnmeteredMore<S>(w: World<S>, m: Machine<S>, k: Key, d: nat, op: nat, v: Noun)
    requires m.Valid() && k in m.balances && op in {IS_CELL, STORE_BY_KEY, RANDOM, ENCRYPT, SEND}
    ensures Unmoved(Primitive(w, m, op, v), Primitive(w, Granted(m, k, d), op, v), k, d)
  {
    hide ToBytes, Compared, Recut, ShapeOf, BinaryMath, Inverted, Keypair, Opened, Hashed, StoredByHash, Spent;
  }

  lemma PrimitiveMore<S>(w: World<S>, m: Machine<S>, k: Key, d: nat, op: nat, v: Noun)
    requires m.Valid() && k in m.balances && IsStrict(op)
    ensures Unmoved(Primitive(w, m, op, v), Primitive(w, Granted(m, k, d), op, v), k, d)
  {
    hide Unmoved, Granted, Compared, Recut, ShapeOf, BinaryMath, Inverted, Keypair, Opened, Hashed, StoredByHash;
    if op == IS_EQUAL {
      ComparedMore(m, k, d, v);
    } else if op == HASH {
      HashedMore(w, m, k, d, v);
    } else if op == STORE_BY_HASH {
      StoredByHashMore(w, m, k, d, v);
    } else if op == RESHAPE {
      RecutMore(m, k, d, v);
    } else if op == SHAPE {
      ShapeOfMore(m, k, d, v);
    } else if op == ADD {
      BinaryMathMore(m, k, d, v, AddNouns);
    } else if op == LESS {
      BinaryMathMore(m, k, d, v, LessNouns);
    } else if op == XOR {
      BinaryMathMore(m, k, d, v, XorNouns);
    } else if op == INVERT {
      InvertedMore(m, k, d, v);
    } else if op == GENERATE_KEYPAIR {
      KeypairMore(w, m, k, d, v);
    } else if op == DECRYPT {
      OpenedMore(w, m, k, d, v);
    } else {
      UnmeteredMore(w, m, k, d, op, v);
    }
  }

  lemma RetrievedMore<S>(w: World<S>, m: Machine<S>, k: Key, d: nat, op: nat, v: Noun)
    requires m.Valid() && k in m.balances
    ensures Unmoved(Retrieved(w, m, op, v), Retrieved(w, Granted(m, k, d), op, v), k, d)
  {
  }

  lemma EncryptedMore<S>(w: World<S>, m: Machine<S>, k: Key, d: nat, key: Bytes, plaintext: Noun)
    requires m.Valid() && k in m.balances
    ensures Unmoved(Encrypted(w, m, key, plaintext), Encrypted(w, Granted(m, k, d), key, plaintext), k, d)
  {
  }

  lemma UnsealedMore<S>(w: World<S>, m: Machine<S>, k: Key, d: nat, v: Noun)
    requires m.Valid() && k in m.balances && Unsealed(w, m, v).0.Ok?
    ensures var (program, private, m') := Unsealed(w, m, v);
            Unsealed(w, Granted(m, k, d), v) == (program, private, Granted(m', k, d))
  {
    hide PrivateKey, Decrypted;
    PrivateKeyMore(w, m, k, d, v.left, false);
    var (private, m1) := PrivateKey(w, m, v.left, false);
    DecryptedMore(w, m1, k, d, private.value, v.right.bytes);
  }

  lemma DelegatedMore<S>(w: World<S>, m: Machine<S>, k: Key, d: nat, v: Noun)
    requires m.Valid() && k in m.balances
    ensures Unmoved(Delegated(w, m, v), Delegated(w, Granted(m, k, d), v), k, d)
  {
    hide PrivateKey, Decrypted, Granted;
    if Delegated(w, m, v).0.Ok? {
      PrivateKeyMore(w, m, k, d, v.right.left, false);
      var (private, m1) := PrivateKey(w, m, v.right.left, false);
      DecryptedMore(w, m1, k, d, private.value, v.right.right.right.bytes);
      var m2 := Decrypted(w, m1, private.value, v.right.right.right.bytes).1;
      GrantedEngine(m2, k, d, Delegated(w, m, v).1.engine);
    }
  }

  lemma GrantedEngine<S>(m: Machine<S>, k: Key, d: nat, engine: S)
    requires k in m.balances
    ensures Granted(m, k, d).engine == m.engine
    ensures Granted(m, k, d).(engine := engine) == Granted(m.(engine := engine), k, d)
  {
  }

  lemma SwitchedMore<S>(w: World<S>, m: Machine<S>, k: Key, d: nat, runner: Key)
    requires k in m.balances
    ensures k in Switched(w, m, runner).balances
    ensures Switched(w, Granted(m, k, d), runner) == Granted(Switched(w, m, runner), k, d)
  {
    var a := Switched(w, Granted(m, k, d), runner).balances;
    var b := Granted(Switched(w, m, runner), k, d).balances;
    assert a.Keys == b.Keys;
    assert forall j :: j in a ==> a[j] == b[j];
    assert a == b;
  }

  /** The theorem: a successful evaluation is unmoved by more ticks in any account. */
  lemma {:induction false} EvalMore<S>(w: World<S>, m: Machine<S>, k: Key, d: nat, subject: Noun, formula: Noun)
    requires m.Valid() && k in m.balances
    ensures Unmoved(Eval(w, m, subject, formula), Eval(w, Granted(m, k, d), subject, formula), k, d)
    decreases Unmet(m), Total(m.balances), 0
  {
    hide Dispatch, Unmoved, Unmet, Total, Settled, Granted;
    if m.Ticks() > 0 {
      PaidDescends(m);
      GrantedTicks(m, k, d, m.Ticks() - 1);
      DispatchMore(w, m.WithTicks(m.Ticks() - 1), k, d, subject, formula);
    } else {
      StoppedUnmoved(w, m, k, d, subject, formula);
    }
  }

  lemma StoppedUnmoved<S>(w: World<S>, m: Machine<S>, k: Key, d: nat, subject: Noun, formula: Noun)
    requires m.Valid() && k in m.balances && m.Ticks() == 0
    ensures Unmoved(Eval(w, m, subject, formula), Eval(w, Granted(m, k, d), subject, formula), k, d)
  {
    hide Dispatch;
  }

  lemma {:induction false} DispatchMore<S>(w: World<S>, m: Machine<S>, k: Key, d: nat, subject: Noun, formula: Noun)
    requires m.Valid() && k in m.balances
    ensures Unmoved(Dispatch(w, m, subject, formula), Dispatch(w, Granted(m, k, d), subject, formula), k, d)
    decreases Unmet(m), Total(m.balances), 3
  {
    hide EvalBoth, EvalStrict, EvalRecurse, EvalIf, EvalChained, EvalRetrieve, EvalExucrypt, EvalExecuteAs, Granted;
    match formula
    case Atom(_) =>
    case Cell(head, argument) =>
      if head.Cell? {
        BothMore(w, m, k, d, subject, head, argument);
      } else if AsU8(head).Some? {
        var op := AsU8(head).value;
        if op == AXIS || op == LITERAL {
        } else if IsStrict(op) {
          StrictMore(w, m, k, d, subject, op, argument);
        } else if op == RECURSE {
          RecurseMore(w, m, k, d, subject, argument);
        } else if op == IF {
          IfMore(w, m, k, d, subject, argument);
        } else if op == COMPOSE || op == DEFINE || op == CALL {
          ChainedMore(w, m, k, d, subject, op, argument);
        } else if op == RETRIEVE_BY_HASH || op == RETRIEVE_BY_KEY {
          RetrieveMore(w, m, k, d, subject, op, argument);
        } else if op == EXUCRYPT {
          ExucryptMore(w, m, k, d, subject, argument);
        } else if op == EXECUTE_AS {
          ExecuteAsMore(w, m, k, d, subject, argument);
        }
      }
  }

  lemma {:induction false} BothMore<S>(w: World<S>, m: Machine<S>, k: Key, d: nat, subject: Noun, left: Noun,
                                       right: Noun)
    requires m.Valid() && k in m.balances
    ensures Unmoved(EvalBoth(w, m, subject, left, right), EvalBoth(w, Granted(m, k, d), subject, left, right), k, d)
    decreases Unmet(m), Total(m.balances), 1
  {
    hide Eval, Granted, Unmet, Total, Settled;
    EvalMore(w, m, k, d, subject, left);
    var (lhs, m1) := Eval(w, m, subject, left);
    SettledStays(m, m1, k);
    if lhs.Ok? {
      SettledAtMost(m, m1);
      EvalMore(w, m1, k, d, subject, right);
    }
  }

  lemma {:induction false} StrictMore<S>(w: World<S>, m: Machine<S>, k: Key, d: nat, subject: Noun, op: nat,
                                         argument: Noun)
    requires m.Valid() && k in m.balances && IsStrict(op)
    ensures Unmoved(EvalStrict(w, m, subject, op, argument), EvalStrict(w, Granted(m, k, d), subject, op, argument),
                    k, d)
    decreases Unmet(m), Total(m.balances), 1
  {
    hide Eval, Granted;
    EvalMore(w, m, k, d, subject, argument);
    var (v, m1) := Eval(w, m, subject, argument);
    if v.Ok? {
      PrimitiveMore(w, m1, k, d, op, v.value);
    }
  }

  lemma {:induction false} RecurseMore<S>(w: World<S>, m: Machine<S>, k: Key, d: nat, subject: Noun, argument: Noun)
    requires m.Valid() && k in m.balances
    ensures Unmoved(EvalRecurse(w, m, subject, argument), EvalRecurse(w, Granted(m, k, d), subject, argument), k, d)
    decreases Unmet(m), Total(m.balances), 1
  {
    hide Eval, Granted;
    if argument.Cell? {
      EvalMore(w, m, k, d, subject, argument.left);
      var (newSubject, m1) := Eval(w, m, subject, argument.left);
      if newSubject.Ok? {
        SettledAtMost(m, m1);
        EvalMore(w, m1, k, d, subject, argument.right);
        var (newFormula, m2) := Eval(w, m1, subject, argument.right);
        if newFormula.Ok? {
          SettledAtMost(m, m2);
          EvalMore(w, m2, k, d, newSubject.value, newFormula.value);
        }
      }
    }
  }

  lemma {:induction false} IfMore<S>(w: World<S>, m: Machine<S>, k: Key, d: nat, subject: Noun, argument: Noun)
    requires m.Valid() && k in m.balances
    ensures Unmoved(EvalIf(w, m, subject, argument), EvalIf(w, Granted(m, k, d), subject, argument), k, d)
    decreases Unmet(m), Total(m.balances), 1
  {
    hide Eval, Granted;
    if argument.Cell? && argument.right.Cell? {
      EvalMore(w, m, k, d, subject, argument.left);
      var (condition, m1) := Eval(w, m, subject, argument.left);
      if condition.Ok? {
        SettledAtMost(m, m1);
        var branch := Branch(condition.value, argument.right.left, argument.right.right);
        if branch.Some? {
          EvalMore(w, m1, k, d, subject, branch.value);
        }
      }
    }
  }

  lemma {:induction false} ChainedMore<S>(w: World<S>, m: Machine<S>, k: Key, d: nat, subject: Noun, op: nat,
                                          argument: Noun)
    requires m.Valid() && k in m.balances
    ensures Unmoved(EvalChained(w, m, subject, op, argument), EvalChained(w, Granted(m, k, d), subject, op, argument),
                    k, d)
    decreases Unmet(m), Total(m.balances), 1
  {
    hide Eval, Granted;
    if argument.Cell? {
      var first := if op == CALL then argument.right else argument.left;
      EvalMore(w, m, k, d, subject, first);
      var (v, m1) := Eval(w, m, subject, first);
      if v.Ok? && Continuation(op, subject, argument, v.value).Ok? {
        SettledAtMost(m, m1);
        var (newSubject, newFormula) := Continuation(op, subject, argument, v.value).value;
        EvalMore(w, m1, k, d, newSubject, newFormula);
      }
    }
  }

  lemma {:induction false} RetrieveMore<S>(w: World<S>, m: Machine<S>, k: Key, d: nat, subject: Noun, op: nat,
                                           argument: Noun)
    requires m.Valid() && k in m.balances
    ensures Unmoved(EvalRetrieve(w, m, subject, op, argument),
                    EvalRetrieve(w, Granted(m, k, d), subject, op, argument), k, d)
    decreases Unmet(m), Total(m.balances), 1
  {
    hide Eval, Granted, Retrieved, Unmet, Total, Settled, Spent;
    EvalMore(w, m, k, d, subject, argument);
    var (v, m1) := Eval(w, m, subject, argument);
    SettledStays(m, m1, k);
    if v.Ok? {
      RetrievedMore(w, m1, k, d, op, v.value);
      var (program, m2) := Retrieved(w, m1, op, v.value);
      if program.Ok? && program.value.Some? {
        SpentSettled(m, m1, m2);
        SettledAtMost(m, m2);
        EvalMore(w, m2, k, d, subject, program.value.value);
      }
    }
  }

  lemma {:induction false} SealedMore<S>(w: World<S>, m: Machine<S>, k: Key, d: nat, subject: Noun, formula: Noun,
                                         key: Bytes)
    requires m.Valid() && k in m.balances
    ensures Unmoved(EvalSealed(w, m, subject, formula, key), EvalSealed(w, Granted(m, k, d), subject, formula, key),
                    k, d)
    decreases Unmet(m), Total(m.balances), 1
  {
    hide Encrypted, Granted;
    EvalMore(w, m, k, d, subject, formula);
    var (result, m1) := Eval(w, m, subject, formula);
    if result.Ok? {
      EncryptedMore(w, m1, k, d, key, result.value);
    }
  }

  lemma {:induction false} ExucryptMore<S>(w: World<S>, m: Machine<S>, k: Key, d: nat, subject: Noun, argument: Noun)
    requires m.Valid() && k in m.balances
    ensures Unmoved(EvalExucrypt(w, m, subject, argument), EvalExucrypt(w, Granted(m, k, d), subject, argument), k, d)
    decreases Unmet(m), Total(m.balances), 2
  {
    hide Eval, Unsealed, EvalSealed, Granted, Unmet, Total, Settled;
    EvalMore(w, m, k, d, subject, argument);
    var (v, m1) := Eval(w, m, subject, argument);
    SettledStays(m, m1, k);
    if v.Ok? {
      var (program, key, m2) := Unsealed(w, m1, v.value);
      if program.Ok? {
        UnsealedMore(w, m1, k, d, v.value);
        if program.value.Some? {
          SpentSettled(m, m1, m2);
          SettledAtMost(m, m2);
          SealedMore(w, m2, k, d, subject, program.value.value, key);
        }
      }
    }
  }

  lemma {:induction false} ExecuteAsMore<S>(w: World<S>, m: Machine<S>, k: Key, d: nat, subject: Noun, argument: Noun)
    requires m.Valid() && k in m.balances
    ensures Unmoved(EvalExecuteAs(w, m, subject, argument), EvalExecuteAs(w, Granted(m, k, d), subject, argument), k, d)
    decreases Unmet(m), Total(m.balances), 1
  {
    hide Eval;
    EvalMore(w, m, k, d, subject, argument);
    var (v, m1) := Eval(w, m, subject, argument);
    if v.Ok? {
      hide Delegated, Granted, Switched;
      DelegatedMore(w, m1, k, d, v.value);
      var (delegation, m2) := Delegated(w, m1, v.value);
      if delegation.Ok? {
        var Delegation(newSubject, runner, body) := delegation.value;
        SpentSettled(m, m1, m2);
        SwitchedAtMost(w, m, m2, runner);
        SwitchedMore(w, m2, k, d, runner);
        var delegate := Switched(w, m2, runner);
        EvalMore(w, delegate, k, d, newSubject, body);
        var (result, m3) := Eval(w, delegate, newSubject, body);
        if result.Ok? {
          SwitchedMore(w, m3, k, d, m2.executingAs);
        }
      }
    }
  }

  /** For whole programs: a limit that is enough may be raised freely. */
  lemma ProgramMore<S>(w: World<S>, engine: S, expression: Noun, limit: nat, higher: nat)
    requires limit <= higher
    requires EvalProgram(w, engine, expression, limit).0.Ok?
    ensures EvalProgram(w, engine, expression, higher) == EvalProgram(w, engine, expression, limit)
  {
    var m := Machine(NOBODY, map[NOBODY := limit], engine);
    EvalMore(w, m, NOBODY, higher - limit, expression.left, expression.right);
    assert Granted(m, NOBODY, higher - limit).balances == map[NOBODY := higher];
  }
}
