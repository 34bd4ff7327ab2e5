/** How the instructions fail that run programs which were stored or sealed. */
module Failures {
  import opened Basics
  import opened Nouns
  import opened Evaluation
  import opened Operations
  import opened Rules
  import opened Storage
  import opened Requests
  import Deserialize
  import Instructions

  /** Where the argument of an instruction fails, so does the instruction, with the same error. */
  lemma ArgumentFails<S>(w: World<S>, m: Machine<S>, subject: Noun, op: Byte, f: Noun)
    requires m.Valid() && m.Ticks() > 0
    requires op in {3, 4, 5, 10, 11, 12, 13, 14, 15, 16, 17, 18, 19, 20, 21, 22, 23, 24, 25, 26}
    requires Eval(w, Ticked(m), subject, f).0.Err?
    ensures Eval(w, m, subject, Cell(Atom([op]), f)) == Eval(w, Ticked(m), subject, f)
  {
    hide Eval, Dispatch, IsStrict;
    EvalUnfolds(w, m, subject, Cell(Atom([op]), f));
    Strict(op);
    if op == 12 || op == 14 {
      DispatchRetrieve(w, Ticked(m), subject, op, f);
    } else if op == 19 || op == 26 {
      DispatchRequest(w, Ticked(m), subject, f);
    } else {
      DispatchOpcode(w, Ticked(m), subject, op, f);
    }
  }

  /** A key that is too large to encode, and bytes in storage that are not a noun. */
  lemma RetrievalFails<S>(w: World<S>, m: Machine<S>, subject: Noun, f: Noun, v: Noun, key: Bytes)
    requires m.Valid() && m.Ticks() > 0 && Eval(w, Ticked(m), subject, f).0 == Ok(v)
    ensures var m1 := Eval(w, Ticked(m), subject, f).1;
            (Stored(v).None? ==> Eval(w, m, subject, Cell(Atom([14]), f)) == (Err(MemoryExceeded), m1)) &&
            (Stored(v) == Some(key) && Corrupt(w, m1.engine, key + [0]) ==>
              Eval(w, m, subject, Cell(Atom([14]), f)).0 == Err(StorageCorrupt)) &&
            (v == Atom(key) && Corrupt(w, m1.engine, key + [1]) ==>
              Eval(w, m, subject, Cell(Atom([12]), f)).0 == Err(StorageCorrupt))
  {
    SettledStays(Ticked(m), Eval(w, Ticked(m), subject, f).1, m.executingAs);
    EvalUnfolds(w, m, subject, Cell(Atom([12]), f));
    EvalUnfolds(w, m, subject, Cell(Atom([14]), f));
    DispatchRetrieve(w, Ticked(m), subject, 12, f);
    DispatchRetrieve(w, Ticked(m), subject, 14, f);
    StoredIsToBytes(v);
    Instructions.TooLarge(v);
    hide Eval, Dispatch, ToBytes, Stored, Deserialize.Decode;
  }

  /** Something is in storage under a key that is no noun. */
  predicate Corrupt<S>(w: World<S>, s: S, key: Bytes) {
    w.load(s, key).0.Some? && Deserialize.Decode(w.load(s, key).0.value).Err?
  }

  lemma UnsealedFails<S>(w: World<S>, m: Machine<S>, v: Noun)
    requires m.Valid()
    ensures v.Atom? ==> Unsealed(w, m, v).0 == Err(BadArgument)
    ensures v.Cell? && PrivateKeyCost(v.left) > m.Ticks() ==> Unsealed(w, m, v).0 == Err(TickLimitExceeded)
    ensures v.Cell? && PrivateKeyCost(v.left) <= m.Ticks() && v.right.Cell? ==> Unsealed(w, m, v).0 == Err(BadArgument)
    ensures v.Cell? && v.right.Atom? && PrivateKeyCost(v.left) + UnlockCost(v.right.bytes) > m.Ticks() ==>
              Unsealed(w, m, v).0 == Err(TickLimitExceeded)
  {
    hide PrivateKey, PrivateKeyCost, Deserialize.Decode;
    if v.Cell? {
      PrivateKeyPaid(w, m, v.left, false);
    }
  }

  /** A request without a sealed program, and one that cannot be paid for. */
  lemma SealedFails<S>(w: World<S>, m: Machine<S>, subject: Noun, f: Noun, v: Noun)
    requires m.Valid() && m.Ticks() > 0 && Eval(w, Ticked(m), subject, f).0 == Ok(v)
    ensures var m1 := Eval(w, Ticked(m), subject, f).1;
            var r := Eval(w, m, subject, Cell(Atom([19]), f)).0;
            m1.Valid() &&
            (v.Atom? ==> r == Err(BadArgument)) &&
            (v.Cell? && PrivateKeyCost(v.left) > m1.Ticks() ==> r == Err(TickLimitExceeded)) &&
            (v.Cell? && PrivateKeyCost(v.left) <= m1.Ticks() && v.right.Cell? ==> r == Err(BadArgument)) &&
            (v.Cell? && v.right.Atom? && PrivateKeyCost(v.left) + UnlockCost(v.right.bytes) > m1.Ticks() ==>
              r == Err(TickLimitExceeded))
  {
    hide Eval, Dispatch, Unsealed, PrivateKeyCost, UnlockCost;
    var m1 := Eval(w, Ticked(m), subject, f).1;
    SettledStays(Ticked(m), m1, m.executingAs);
    EvalUnfolds(w, m, subject, Cell(Atom([19]), f));
    DispatchRequest(w, Ticked(m), subject, f);
    UnsealedFails(w, m1, v);
  }

  lemma DelegatedFails<S>(w: World<S>, m: Machine<S>, v: Noun)
    requires m.Valid()
    ensures !IsDelegation(v) ==> Delegated(w, m, v) == (Err(BadArgument), m)
    ensures IsDelegation(v) && |v.right.right.left.bytes| != 8 ==> Delegated(w, m, v) == (Err(BadExecuteAsCounter), m)
    ensures IsDelegation(v) && |v.right.right.left.bytes| == 8 ==>
              (32 + UnlockCost(v.right.right.right.bytes) > m.Ticks() ==>
                Delegated(w, m, v).0 == Err(TickLimitExceeded))
  {
    hide PrivateKey, Deserialize.Decode;
    if IsDelegation(v) {
      PrivateKeyPaid(w, m, v.right.left, false);
    }
  }

  /** A delegation is a subject, a runner of 32 bytes, a counter of eight and what the runner sealed. */
  lemma DelegationFails<S>(w: World<S>, m: Machine<S>, subject: Noun, f: Noun, v: Noun)
    requires m.Valid() && m.Ticks() > 0 && Eval(w, Ticked(m), subject, f).0 == Ok(v)
    ensures var m1 := Eval(w, Ticked(m), subject, f).1;
            var (r, m') := Eval(w, m, subject, Cell(Atom([26]), f));
            m1.Valid() &&
            (!IsDelegation(v) ==> (r, m') == (Err(BadArgument), m1)) &&
            (IsDelegation(v) && |v.right.right.left.bytes| != 8 ==> (r, m') == (Err(BadExecuteAsCounter), m1)) &&
            (IsDelegation(v) && |v.right.right.left.bytes| == 8 ==>
              (32 + UnlockCost(v.right.right.right.bytes) > m1.Ticks() ==> r == Err(TickLimitExceeded)))
  {
    hide Eval, Dispatch, Delegated, UnlockCost, IsDelegation;
    var m1 := Eval(w, Ticked(m), subject, f).1;
    SettledStays(Ticked(m), m1, m.executingAs);
    EvalUnfolds(w, m, subject, Cell(Atom([26]), f));
    DispatchRequest(w, Ticked(m), subject, f);
    DelegatedFails(w, m1, v);
  }

  predicate IsDelegation(v: Noun) {
    v.Cell? && v.right.Cell? && v.right.right.Cell? && v.right.left.Atom? && |v.right.left.bytes| == 32 &&
    v.right.right.left.Atom? && v.right.right.right.Atom?
  }
}
