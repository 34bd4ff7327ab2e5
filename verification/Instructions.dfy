/**
 * The machine's instructions by their numbers: what each that evaluates formulas does, in which order and with which
 * errors, and with which errors the others fail.
 */
module Instructions {
  import opened Basics
  import opened Nouns
  import opened Evaluation
  import opened Operations
  import opened Rules
  import opened Storage
  import Axis
  import Arithmetic
  import Equal
  import Shape
  import Serialize

  /** A formula is an instruction by the value of its head, or two formulas side by side, and takes a tick. */
  lemma Formulas<S>(w: World<S>, m: Machine<S>, subject: Noun, head: Bytes, argument: Noun)
    requires m.Valid()
    ensures m.Ticks() == 0 ==> forall formula :: Eval(w, m, subject, formula) == (Err(TickLimitExceeded), m)
    ensures m.Ticks() > 0 ==> forall bs: Bytes :: Eval(w, m, subject, Atom(bs)) == (Err(AtomicFormula), Ticked(m))
    ensures m.Ticks() > 0 && LeValue(head) < 256 ==>
              Eval(w, m, subject, Cell(Atom(head), argument)) ==
              Eval(w, m, subject, Cell(Atom([LeValue(head)]), argument))
    ensures m.Ticks() > 0 && LeValue(head) >= 256 ==>
              Eval(w, m, subject, Cell(Atom(head), argument)) == (Err(NotAnOpcode), Ticked(m))
    ensures m.Ticks() > 0 && 27 <= LeValue(head) < 256 ==>
              Eval(w, m, subject, Cell(Atom(head), argument)) == (Err(BadOpcode(LeValue(head))), Ticked(m))
  {
    hide EvalBoth, EvalStrict, EvalIf, EvalRecurse, EvalChained, EvalRetrieve, EvalExucrypt, EvalExecuteAs, LeValue;
    if m.Ticks() > 0 {
      EvalUnfolds(w, m, subject, Cell(Atom(head), argument));
      if LeValue(head) < 256 {
        EvalUnfolds(w, m, subject, Cell(Atom([LeValue(head)]), argument));
        OpcodeRead(LeValue(head));
      }
      forall bs: Bytes
        ensures Eval(w, m, subject, Atom(bs)) == (Err(AtomicFormula), Ticked(m))
      {
        EvalUnfolds(w, m, subject, Atom(bs));
      }
    }
  }

  /** Two formulas, the left one first. */
  lemma Pairs<S>(w: World<S>, m: Machine<S>, subject: Noun, f: Noun, g: Noun)
    requires m.Valid() && m.Ticks() > 0 && f.Cell?
    ensures var (x, m1) := Eval(w, Ticked(m), subject, f);
            m1.Valid() &&
            Eval(w, m, subject, Cell(f, g)) ==
              if x.Err? then (x, m1)
              else
                var (y, m2) := Eval(w, m1, subject, g);
                (if y.Err? then y else Ok(Cell(x.value, y.value)), m2)
  {
    hide Eval, Dispatch;
    EvalUnfolds(w, m, subject, Cell(f, g));
    DispatchBoth(w, Ticked(m), subject, f, g);
    SettledStays(Ticked(m), Eval(w, Ticked(m), subject, f).1, m.executingAs);
  }

  lemma DispatchedControl<S>(w: World<S>, m: Machine<S>, subject: Noun, argument: Noun)
    requires m.Valid()
    ensures Dispatch(w, m, subject, Cell(Atom([0]), argument)) == (FromAxis(Axis.AxisResult(argument, subject)), m)
    ensures Dispatch(w, m, subject, Cell(Atom([1]), argument)) == (Ok(argument), m)
    ensures Dispatch(w, m, subject, Cell(Atom([2]), argument)) == EvalRecurse(w, m, subject, argument)
    ensures Dispatch(w, m, subject, Cell(Atom([6]), argument)) == EvalIf(w, m, subject, argument)
  {
    hide EvalBoth, EvalStrict, EvalIf, EvalRecurse, EvalChained, EvalRetrieve, EvalExucrypt, EvalExecuteAs;
    OpcodeRead(0);
    OpcodeRead(1);
    OpcodeRead(2);
    OpcodeRead(6);
  }

  lemma DispatchedChained<S>(w: World<S>, m: Machine<S>, subject: Noun, op: Byte, argument: Noun)
    requires m.Valid() && op in {7, 8, 9}
    ensures Dispatch(w, m, subject, Cell(Atom([op]), argument)) == EvalChained(w, m, subject, op, argument)
  {
    hide EvalBoth, EvalStrict, EvalIf, EvalRecurse, EvalChained, EvalRetrieve, EvalExucrypt, EvalExecuteAs;
    OpcodeRead(op);
  }

  /** 0 fetches the part of the subject at an index, and 1 gives its argument. */
  lemma FetchAndQuote<S>(w: World<S>, m: Machine<S>, subject: Noun, argument: Noun)
    requires m.Valid() && m.Ticks() > 0
    ensures Eval(w, m, subject, Cell(Atom([0]), argument)) ==
            ((if argument.Cell? then Err(CellAsIndex)
              else if Axis.Slot(LeValue(argument.bytes), subject).None? then Err(IndexOutOfRange)
              else Ok(Axis.Slot(LeValue(argument.bytes), subject).value)), Ticked(m))
    ensures Eval(w, m, subject, Cell(Atom([1]), argument)) == (Ok(argument), Ticked(m))
  {
    hide Eval, Dispatch, LeValue, Axis.Slot;
    EvalUnfolds(w, m, subject, Cell(Atom([0]), argument));
    EvalUnfolds(w, m, subject, Cell(Atom([1]), argument));
    DispatchedControl(w, Ticked(m), subject, argument);
  }

  /** 2 evaluates a subject, then a formula, and goes on with them. */
  lemma Recursion<S>(w: World<S>, m: Machine<S>, subject: Noun, f: Noun, g: Noun, bs: Bytes)
    requires m.Valid() && m.Ticks() > 0
    ensures Eval(w, m, subject, Cell(Atom([2]), Atom(bs))) == (Err(BadRecurseArgument), Ticked(m))
    ensures var (x, m1) := Eval(w, Ticked(m), subject, f);
            m1.Valid() &&
            var (y, m2) := Eval(w, m1, subject, g);
            m2.Valid() &&
            Eval(w, m, subject, Cell(Atom([2]), Cell(f, g))) ==
              if x.Err? then (x, m1) else if y.Err? then (y, m2) else Eval(w, m2, x.value, y.value)
  {
    hide Eval, Dispatch;
    EvalUnfolds(w, m, subject, Cell(Atom([2]), Atom(bs)));
    EvalUnfolds(w, m, subject, Cell(Atom([2]), Cell(f, g)));
    DispatchedControl(w, Ticked(m), subject, Atom(bs));
    DispatchedControl(w, Ticked(m), subject, Cell(f, g));
    var m1 := Eval(w, Ticked(m), subject, f).1;
    SettledStays(Ticked(m), m1, m.executingAs);
    SettledStays(m1, Eval(w, m1, subject, g).1, m1.executingAs);
  }

  /** 6 goes on with one branch if its condition is 1, and the other if it is 0. */
  lemma Condition<S>(w: World<S>, m: Machine<S>, subject: Noun, f: Noun, g: Noun, h: Noun, malformed: Noun)
    requires m.Valid() && m.Ticks() > 0 && (malformed.Atom? || malformed.right.Atom?)
    ensures Eval(w, m, subject, Cell(Atom([6]), malformed)) == (Err(BadArgument), Ticked(m))
    ensures var (x, m1) := Eval(w, Ticked(m), subject, f);
            m1.Valid() &&
            Eval(w, m, subject, Cell(Atom([6]), Cell(f, Cell(g, h)))) ==
              if x.Err? then (x, m1)
              else if x.value.Atom? && LeValue(x.value.bytes) == 1 then Eval(w, m1, subject, g)
              else if x.value.Atom? && LeValue(x.value.bytes) == 0 then Eval(w, m1, subject, h)
              else (Err(BadIfCondition), m1)
  {
    hide Eval, Dispatch, LeValue;
    EvalUnfolds(w, m, subject, Cell(Atom([6]), malformed));
    EvalUnfolds(w, m, subject, Cell(Atom([6]), Cell(f, Cell(g, h))));
    DispatchedControl(w, Ticked(m), subject, malformed);
    DispatchedControl(w, Ticked(m), subject, Cell(f, Cell(g, h)));
    SettledStays(Ticked(m), Eval(w, Ticked(m), subject, f).1, m.executingAs);
  }

  /** 7 goes on with a value as the subject, 8 with the value put before the subject, 9 with code found in the value. */
  lemma Chaining<S>(w: World<S>, m: Machine<S>, subject: Noun, f: Noun, g: Noun, bs: Bytes)
    requires m.Valid() && m.Ticks() > 0
    ensures forall op: Byte :: op in {7, 8, 9} ==>
              Eval(w, m, subject, Cell(Atom([op]), Atom(bs))) == (Err(BadArgument), Ticked(m))
    ensures var (x, m1) := Eval(w, Ticked(m), subject, f);
            m1.Valid() &&
            Eval(w, m, subject, Cell(Atom([7]), Cell(f, g))) ==
              (if x.Err? then (x, m1) else Eval(w, m1, x.value, g)) &&
            Eval(w, m, subject, Cell(Atom([8]), Cell(f, g))) ==
              (if x.Err? then (x, m1) else Eval(w, m1, Cell(x.value, subject), g)) &&
            Eval(w, m, subject, Cell(Atom([9]), Cell(g, f))) ==
              (if x.Err? then (x, m1)
               else if g.Cell? then (Err(CellAsIndex), m1)
               else if Axis.Slot(LeValue(g.bytes), x.value).None? then (Err(IndexOutOfRange), m1)
               else Eval(w, m1, x.value, Axis.Slot(LeValue(g.bytes), x.value).value))
  {
    hide Eval, Dispatch, LeValue, Axis.Slot;
    forall op: Byte | op in {7, 8, 9}
      ensures Eval(w, m, subject, Cell(Atom([op]), Atom(bs))) == (Err(BadArgument), Ticked(m))
    {
      EvalUnfolds(w, m, subject, Cell(Atom([op]), Atom(bs)));
      DispatchedChained(w, Ticked(m), subject, op, Atom(bs));
    }
    EvalUnfolds(w, m, subject, Cell(Atom([7]), Cell(f, g)));
    EvalUnfolds(w, m, subject, Cell(Atom([8]), Cell(f, g)));
    EvalUnfolds(w, m, subject, Cell(Atom([9]), Cell(g, f)));
    DispatchedChained(w, Ticked(m), subject, 7, Cell(f, g));
    DispatchedChained(w, Ticked(m), subject, 8, Cell(f, g));
    DispatchedChained(w, Ticked(m), subject, 9, Cell(g, f));
    SettledStays(Ticked(m), Eval(w, Ticked(m), subject, f).1, m.executingAs);
  }

  /** How an instruction fails for which there is no operation on its argument. */
  function Complaint(op: Instruction, v: Noun): EvalError {
    match op
    case DoEqual => BadEqualsArgument
    case DoRandom => InvalidLength
    case DoInvert => NonAtomicMath
    case DoHash => MemoryExceeded
    case DoStoreByHash => MemoryExceeded
    case DoReshape => if v.Atom? then BadArgument else BadShape
    case DoAdd => if v.Atom? then BadArgument else NonAtomicMath
    case DoLess => if v.Atom? then BadArgument else NonAtomicMath
    case DoXor => if v.Atom? then BadArgument else NonAtomicMath
    case DoStoreByKey => if v.Atom? then BadArgument else MemoryExceeded
    case DoSend => if v.Cell? && IsKeyBytes(v.left) then MemoryExceeded else BadArgument
    case DoEncrypt => if v.Cell? && IsKeyBytes(v.left) then MemoryExceeded else BadArgument
    case _ => BadArgument
  }

  /** What an instruction takes before it looks whether its argument is good. */
  function Deposit(op: Instruction, v: Noun): nat {
    if v.Cell? && op in {DoAdd, DoLess, DoXor} then Max(AtomLen(v.left), AtomLen(v.right)) else 0
  }

  /** An outcome that is a failure, if it is one, is the right one. */
  ghost predicate Complains<S>(m: Machine<S>, outcome: (Outcome, Machine<S>), op: Instruction, v: Noun,
                               effect: Option<Effect<S>>)
    requires m.Valid()
  {
    outcome.0.Err? ==>
      outcome.0.error ==
        if op == DoReshape then Complaint(op, v)
        else if effect.Some? || m.Ticks() < Deposit(op, v) then TickLimitExceeded
        else Complaint(op, v)
  }

  /** The encoder has one way to fail. */
  lemma TooLarge(n: Noun)
    ensures Stored(n).None? ==> ToBytes(n) == Err(MemoryExceeded)
  {
    hide Serialize.AppendAtoms, Serialize.EncodeAtoms, Serialize.EndsWithLiteralByte;
    Serialize.AppendAtomsFits([], n, 1_000_000);
    Serialize.EncodeShape(n, 1_000_000);
  }

  lemma ShapeComplains<S>(w: World<S>, m: Machine<S>, v: Noun)
    requires m.Valid()
    ensures Complains(m, ShapeOf(m, v), DoShape, v, Operation(w, DoShape, v, m.engine))
  {
    hide Shape.Measured, Shape.Lengths, Leaves;
  }

  lemma KeypairComplains<S>(w: World<S>, m: Machine<S>, v: Noun)
    requires m.Valid()
    ensures Complains(m, Keypair(w, m, v), DoGenerateKeypair, v, Operation(w, DoGenerateKeypair, v, m.engine))
  {
    hide PrivateKey, KeyPair;
  }

  lemma InvertComplains<S>(w: World<S>, m: Machine<S>, v: Noun)
    requires m.Valid()
    ensures Complains(m, Inverted(m, v), DoInvert, v, Operation(w, DoInvert, v, m.engine))
  {
    hide Inverse, Arithmetic.InvertBytes;
  }

  lemma RandomComplains<S>(w: World<S>, m: Machine<S>, v: Noun)
    requires m.Valid()
    ensures Complains(m, Drawn(w, m, v), DoRandom, v, Operation(w, DoRandom, v, m.engine))
  {
    hide LeValue;
  }

  lemma HashComplains<S>(w: World<S>, m: Machine<S>, v: Noun)
    requires m.Valid()
    ensures Complains(m, Hashed(w, m, v), DoHash, v, Operation(w, DoHash, v, m.engine))
    ensures Complains(m, StoredByHash(w, m, v), DoStoreByHash, v, Operation(w, DoStoreByHash, v, m.engine))
  {
    hide Stored, ToBytes;
    StoredIsToBytes(v);
    TooLarge(v);
  }

  lemma CompareComplains<S>(w: World<S>, m: Machine<S>, v: Noun)
    requires m.Valid()
    ensures Complains(m, Compared(m, v), DoEqual, v, Operation(w, DoEqual, v, m.engine))
    ensures Complains(m, Recut(m, v), DoReshape, v, Operation(w, DoReshape, v, m.engine))
  {
    hide Equal.Compare, Shape.Reshaped, Flatten;
  }

  lemma StoreComplains<S>(w: World<S>, m: Machine<S>, v: Noun)
    requires m.Valid()
    ensures Complains(m, StoreByKey(w, m, v), DoStoreByKey, v, Operation(w, DoStoreByKey, v, m.engine))
  {
    hide Stored, ToBytes;
    if v.Cell? {
      StoredIsToBytes(v.left);
      StoredIsToBytes(v.right);
      TooLarge(v.left);
      TooLarge(v.right);
    }
  }

  lemma SendComplains<S>(w: World<S>, m: Machine<S>, v: Noun)
    requires m.Valid()
    ensures Complains(m, Sent(w, m, v), DoSend, v, Operation(w, DoSend, v, m.engine))
  {
    hide Stored, ToBytes;
    if v.Cell? {
      StoredIsToBytes(v.right);
      TooLarge(v.right);
    }
  }

  lemma EncryptComplains<S>(w: World<S>, m: Machine<S>, v: Noun)
    requires m.Valid()
    ensures Complains(m, if v.Atom? || !IsKey(v.left) then (Err(BadArgument), m)
                         else Encrypted(w, m, v.left.bytes, v.right), DoEncrypt, v,
                           Operation(w, DoEncrypt, v, m.engine))
  {
    hide Stored, ToBytes, Sealed;
    if v.Cell? {
      StoredIsToBytes(v.right);
      TooLarge(v.right);
    }
  }

  lemma DecryptComplains<S>(w: World<S>, m: Machine<S>, v: Noun)
    requires m.Valid()
    ensures Complains(m, Opened(w, m, v), DoDecrypt, v, Operation(w, DoDecrypt, v, m.engine))
  {
    hide Unlocked;
  }

  lemma MathComplains<S>(w: World<S>, m: Machine<S>, v: Noun, op: Instruction, f: (Bytes, Bytes) -> Noun)
    requires m.Valid() && op in {DoAdd, DoLess, DoXor}
    ensures Complains(m, BinaryMath(m, v, f), op, v, Operation(w, op, v, m.engine))
  {
    hide Big, BeValue, Pow256, Xored;
  }

  /** An instruction that works on the value of its argument fails with exactly these errors. */
  lemma OperationComplains<S>(w: World<S>, m: Machine<S>, op: Instruction, v: Noun)
    requires m.Valid() && IsStrict(Number(op))
    ensures Complains(m, Primitive(w, m, Number(op), v), op, v, Operation(w, op, v, m.engine))
  {
    hide Complains, Operation, Primitive, IsStrict, Number;
    StrictOps(op);
    if op in {DoIsCell, DoReshape, DoEqual, DoHash} {
      FirstComplain(w, m, op, v);
    } else if op in {DoStoreByHash, DoStoreByKey, DoRandom, DoGenerateKeypair} {
      SecondComplain(w, m, op, v);
    } else if op in {DoEncrypt, DoDecrypt, DoShape, DoSend} {
      ThirdComplain(w, m, op, v);
    } else {
      MathComplain(w, m, op, v);
    }
  }

  lemma FirstComplain<S>(w: World<S>, m: Machine<S>, op: Instruction, v: Noun)
    requires m.Valid() && op in {DoIsCell, DoReshape, DoEqual, DoHash} && IsStrict(Number(op))
    ensures Complains(m, Primitive(w, m, Number(op), v), op, v, Operation(w, op, v, m.engine))
  {
    hide Complains, Operation, Primitive, IsStrict;
    DispatchedFirst(w, m, v);
    match op
    case DoIsCell => SucceedsAlways(w, m, v);
    case DoReshape => CompareComplains(w, m, v);
    case DoEqual => CompareComplains(w, m, v);
    case DoHash => HashComplains(w, m, v);
  }

  lemma SecondComplain<S>(w: World<S>, m: Machine<S>, op: Instruction, v: Noun)
    requires m.Valid() && op in {DoStoreByHash, DoStoreByKey, DoRandom, DoGenerateKeypair} && IsStrict(Number(op))
    ensures Complains(m, Primitive(w, m, Number(op), v), op, v, Operation(w, op, v, m.engine))
  {
    hide Complains, Operation, Primitive, IsStrict;
    DispatchedSecond(w, m, v);
    match op
    case DoStoreByHash => HashComplains(w, m, v);
    case DoStoreByKey => StoreComplains(w, m, v);
    case DoRandom => RandomComplains(w, m, v);
    case DoGenerateKeypair => KeypairComplains(w, m, v);
  }

  lemma ThirdComplain<S>(w: World<S>, m: Machine<S>, op: Instruction, v: Noun)
    requires m.Valid() && op in {DoEncrypt, DoDecrypt, DoShape, DoSend} && IsStrict(Number(op))
    ensures Complains(m, Primitive(w, m, Number(op), v), op, v, Operation(w, op, v, m.engine))
  {
    hide Complains, Operation, Primitive, IsStrict;
    DispatchedThird(w, m, v);
    match op
    case DoEncrypt => EncryptComplains(w, m, v);
    case DoDecrypt => DecryptComplains(w, m, v);
    case DoShape => ShapeComplains(w, m, v);
    case DoSend => SendComplains(w, m, v);
  }

  lemma MathComplain<S>(w: World<S>, m: Machine<S>, op: Instruction, v: Noun)
    requires m.Valid() && op in {DoAdd, DoInvert, DoXor, DoLess} && IsStrict(Number(op))
    ensures Complains(m, Primitive(w, m, Number(op), v), op, v, Operation(w, op, v, m.engine))
  {
    hide Complains, Operation, Primitive, IsStrict;
    DispatchedMath(w, m, v);
    match op
    case DoAdd => MathComplains(w, m, v, op, AddNouns);
    case DoInvert => InvertComplains(w, m, v);
    case DoXor => MathComplains(w, m, v, op, XorNouns);
    case DoLess => MathComplains(w, m, v, op, LessNouns);
  }

  lemma SucceedsAlways<S>(w: World<S>, m: Machine<S>, v: Noun)
    requires m.Valid()
    ensures Complains(m, (Ok(FromBool(v.Cell?)), m), DoIsCell, v, Operation(w, DoIsCell, v, m.engine))
  {
  }
}
