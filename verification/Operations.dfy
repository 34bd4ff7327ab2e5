/**
 * What each instruction of the machine does to its argument: no meter, no opcode table, numbers by their value.
 * The machine's opcodes are proved to do these things, for exactly these costs, and to succeed at nothing else.
 */
module Operations {
  import opened Basics
  import opened Nouns
  import opened Evaluation
  import opened Rules
  import Arithmetic
  import Serialize
  import Deserialize
  import Equal
  import Shape

  datatype Instruction =
    | DoAxis | DoLiteral | DoRecurse | DoIsCell | DoReshape | DoEqual | DoIf | DoCompose | DoDefine | DoCall
    | DoHash | DoStoreByHash | DoRetrieveByHash | DoStoreByKey | DoRetrieveByKey | DoRandom
    | DoGenerateKeypair | DoEncrypt | DoDecrypt | DoExucrypt | DoShape | DoAdd | DoInvert | DoXor | DoLess
    | DoSend | DoExecuteAs

  /** The number of each instruction. */
  function Number(op: Instruction): Byte {
    match op
    case DoAxis => 0
    case DoLiteral => 1
    case DoRecurse => 2
    case DoIsCell => 3
    case DoReshape => 4
    case DoEqual => 5
    case DoIf => 6
    case DoCompose => 7
    case DoDefine => 8
    case DoCall => 9
    case DoHash => 10
    case DoStoreByHash => 11
    case DoRetrieveByHash => 12
    case DoStoreByKey => 13
    case DoRetrieveByKey => 14
    case DoRandom => 15
    case DoGenerateKeypair => 16
    case DoEncrypt => 17
    case DoDecrypt => 18
    case DoExucrypt => 19
    case DoShape => 20
    case DoAdd => 21
    case DoInvert => 22
    case DoXor => 23
    case DoLess => 24
    case DoSend => 25
    case DoExecuteAs => 26
  }

  datatype Effect<S> = Effect(value: Noun, engine: S, cost: nat)

  function Truth(b: bool): Noun {
    if b then Atom([1]) else Atom([0])
  }

  /** The bytes of a noun in storage, in messages and under encryption, if it is not too large. */
  function Stored(n: Noun): Option<Bytes> {
    match Serialize.Encode(n, 1_000_000)
    case Ok(bs) => Some(bs)
    case Err(_) => None
  }

  /** The atom of a length and a big-endian value. */
  function Big(value: nat, length: nat): Noun {
    Atom(Arithmetic.BeBytes(value, length))
  }

  /** The private key of a public noun: at each pair the hashes of its halves, right atoms keyed by the secret. */
  function PrivateOf(blake: (Bytes, Bytes, nat) -> Bytes, secret: Bytes, public: Noun, right: bool): Bytes {
    match public
    case Atom(bs) => blake(bs, if right then secret else [], 32)
    case Cell(l, r) => blake(PrivateOf(blake, secret, l, false) + PrivateOf(blake, secret, r, true), [], 32)
  }

  /** What decrypting with a key gives: a true and the noun, or a false. */
  function Unlocked<S>(w: World<S>, key: Bytes, ciphertext: Bytes): Noun {
    if |ciphertext| < 24 then Truth(false)
    else
      match w.open(key, ciphertext[..8], ciphertext[24..], ciphertext[8..24])
      case None => Truth(false)
      case Some(plaintext) =>
        match Deserialize.Decode(plaintext)
        case Err(_) => Truth(false)
        case Ok(n) => Cell(Truth(true), n)
  }

  /** Bitwise, from the first bytes on; the rest of the longer atom stands. */
  function Xored(x: Bytes, y: Bytes): Noun {
    if x == [] then Atom(y)
    else if y == [] then Atom(x)
    else Atom([((x[0] as bv8) ^ (y[0] as bv8)) as int] + Xored(x[1..], y[1..]).bytes)
  }

  /** What an operation on one stored noun comes to, at 20 ticks and one for each byte. */
  function OnBytes<S>(op: Instruction, w: World<S>, bytes: Option<Bytes>, s: S): Option<Effect<S>> {
    if bytes.None? then None
    else
      var hash, cost := w.blake(bytes.value, [], 64), 20 + |bytes.value|;
      Some(if op == DoHash then Effect(Atom(hash), s, cost)
           else Effect(Truth(true), w.store(s, hash + [1], bytes.value), cost))
  }

  /** What an operation on two numbers comes to, at a tick for each byte of the longer. */
  function OnNumbers<S>(op: Instruction, x: Noun, y: Noun, s: S): Option<Effect<S>> {
    if x.Cell? || y.Cell? then None
    else
      var (a, b, length) := (BeValue(x.bytes), BeValue(y.bytes), Max(|x.bytes|, |y.bytes|));
      Some(Effect(if op == DoAdd then Big((a + b) % Pow256(length), length)
                  else if op == DoLess then Truth(a < b)
                  else Xored(x.bytes, y.bytes),
                  s, length))
  }

  function Inverse(bs: Bytes): Noun {
    BeValueBound(bs);
    Big(Pow256(|bs|) - 1 - BeValue(bs), |bs|)
  }

  /** A new key: a private one for the public one that a seed and 32 random bytes make. */
  function KeyPair<S>(w: World<S>, seed: Noun, s: S): Effect<S> {
    var (random, s') := w.random(s, 32);
    var public := Cell(seed, Atom(random));
    Effect(Cell(Atom(PrivateOf(w.blake, w.secret(s'), public, false)), public), s',
           |Flatten(public)| + 128 * (Leaves(public) - 1))
  }

  function Sealed<S>(w: World<S>, key: Bytes, plaintext: Bytes, s: S): Effect<S> {
    var (nonce, s') := w.random(s, 8);
    var (ciphertext, tag) := w.seal(key, nonce, plaintext);
    Effect(Atom(nonce + tag + ciphertext), s', 0)
  }

  predicate IsKeyBytes(n: Noun) {
    n.Atom? && |n.bytes| == 32
  }

  /** What an instruction does to the value of its argument, for those that evaluate nothing else. */
  function Operation<S>(w: World<S>, op: Instruction, v: Noun, s: S): Option<Effect<S>> {
    match op
    case DoIsCell => Some(Effect(Truth(v.Cell?), s, 0))
    case DoShape => Some(Effect(Shape.Lengths(v), s, 2 * Leaves(v) - 1))
    case DoHash => OnBytes(op, w, Stored(v), s)
    case DoStoreByHash => OnBytes(op, w, Stored(v), s)
    case DoGenerateKeypair => Some(KeyPair(w, v, s))
    case DoInvert => if v.Cell? then None else Some(Effect(Inverse(v.bytes), s, |v.bytes|))
    case DoRandom =>
      if v.Cell? || LeValue(v.bytes) > 1_000_000 then None
      else Some(Effect(Atom(w.random(s, LeValue(v.bytes)).0), w.random(s, LeValue(v.bytes)).1, 0))
    case DoEqual => if v.Atom? then None else Some(Effect(Truth(v.left == v.right), s,
                                                          Equal.CompareCost(v.left, v.right)))
    case DoReshape =>
      if v.Atom? then None
      else
        var (data, lengths) := (v.left, v.right);
        if Shape.AllLengths(lengths) && Shape.Demand(lengths) <= |Flatten(data)| &&
          Shape.Allocation(lengths) <= 10_000_000
        then Some(Effect(Shape.Cut(lengths, Flatten(data)), s, Shape.Demand(lengths)))
        else None
    case DoStoreByKey =>
      if v.Atom? || Stored(v.left).None? || Stored(v.right).None? then None
      else Some(Effect(Truth(true), w.store(s, Stored(v.left).value + [0], Stored(v.right).value), 0))
    case DoSend =>
      if v.Atom? || !IsKeyBytes(v.left) || Stored(v.right).None? then None
      else Some(Effect(Atom([0]), w.send(s, v.left.bytes, Stored(v.right).value), 0))
    case DoEncrypt =>
      if v.Atom? || !IsKeyBytes(v.left) || Stored(v.right).None? then None
      else Some(Sealed(w, v.left.bytes, Stored(v.right).value, s))
    case DoDecrypt =>
      if v.Atom? || !IsKeyBytes(v.left) || v.right.Cell? then None
      else
        var length := |v.right.bytes|;
        Some(Effect(Unlocked(w, v.left.bytes, v.right.bytes), s, if length < 24 then 0 else length))
    case DoAdd => if v.Atom? then None else OnNumbers(op, v.left, v.right, s)
    case DoLess => if v.Atom? then None else OnNumbers(op, v.left, v.right, s)
    case DoXor => if v.Atom? then None else OnNumbers(op, v.left, v.right, s)
    case _ => None
  }

  /** The opcodes that only work on the value of their argument, by their numbers. */
  lemma Strict(n: nat)
    ensures IsStrict(n) <==> n in {3, 4, 5, 10, 11, 13, 15, 16, 17, 18, 20, 21, 22, 23, 24, 25}
  {
  }

  lemma DispatchedFirst<S>(w: World<S>, m: Machine<S>, v: Noun)
    requires m.Valid()
    ensures Primitive(w, m, 3, v) == (Ok(FromBool(v.Cell?)), m)
    ensures Primitive(w, m, 4, v) == Recut(m, v)
    ensures Primitive(w, m, 5, v) == Compared(m, v)
    ensures Primitive(w, m, 10, v) == Hashed(w, m, v)
  {
    hide Recut, Compared, Hashed, StoredByHash, StoreByKey, Drawn, Keypair, Opened, Encrypted, ShapeOf, BinaryMath,
      Inverted, Sent;
  }

  lemma DispatchedSecond<S>(w: World<S>, m: Machine<S>, v: Noun)
    requires m.Valid()
    ensures Primitive(w, m, 11, v) == StoredByHash(w, m, v)
    ensures Primitive(w, m, 13, v) == StoreByKey(w, m, v)
    ensures Primitive(w, m, 15, v) == Drawn(w, m, v)
    ensures Primitive(w, m, 16, v) == Keypair(w, m, v)
  {
    hide Recut, Compared, Hashed, StoredByHash, StoreByKey, Drawn, Keypair, Opened, Encrypted, ShapeOf, BinaryMath,
      Inverted, Sent;
  }

  lemma DispatchedThird<S>(w: World<S>, m: Machine<S>, v: Noun)
    requires m.Valid()
    ensures Primitive(w, m, 17, v) ==
            if v.Atom? || !IsKey(v.left) then (Err(BadArgument), m) else Encrypted(w, m, v.left.bytes, v.right)
    ensures Primitive(w, m, 18, v) == Opened(w, m, v)
    ensures Primitive(w, m, 20, v) == ShapeOf(m, v)
    ensures Primitive(w, m, 25, v) == Sent(w, m, v)
  {
    hide Recut, Compared, Hashed, StoredByHash, StoreByKey, Drawn, Keypair, Opened, Encrypted, ShapeOf, BinaryMath,
      Inverted, Sent;
  }

  lemma DispatchedMath<S>(w: World<S>, m: Machine<S>, v: Noun)
    requires m.Valid()
    ensures Primitive(w, m, 21, v) == BinaryMath(m, v, AddNouns)
    ensures Primitive(w, m, 22, v) == Inverted(m, v)
    ensures Primitive(w, m, 23, v) == BinaryMath(m, v, XorNouns)
    ensures Primitive(w, m, 24, v) == BinaryMath(m, v, LessNouns)
  {
    hide Recut, Compared, Hashed, StoredByHash, StoreByKey, Drawn, Keypair, Opened, Encrypted, ShapeOf, BinaryMath,
      Inverted, Sent;
  }

  /** An outcome is what an effect says: success exactly where there is one that the machine can pay for. */
  ghost predicate Follows<S>(m: Machine<S>, outcome: (Outcome, Machine<S>), effect: Option<Effect<S>>)
    requires m.Valid()
  {
    if effect.Some? && effect.value.cost <= m.Ticks()
    then outcome == (Ok(effect.value.value), After(m, effect.value.cost, effect.value.engine))
    else outcome.0.Err?
  }

  lemma Untouched<S>(m: Machine<S>, engine: S)
    requires m.Valid()
    ensures After(m, 0, engine) == m.(engine := engine)
  {
    assert After(m, 0, engine).balances == m.balances;
  }

  lemma StoredIsToBytes(n: Noun)
    ensures Stored(n) == match ToBytes(n) case Ok(bs) => Some(bs) case Err(_) => None
  {
    hide Serialize.Encode;
  }

  lemma {:induction false} XoredIs(x: Bytes, y: Bytes)
    ensures Xored(x, y) == Atom(Arithmetic.XorBytes(x, y))
  {
    if x != [] && y != [] {
      XoredIs(x[1..], y[1..]);
      var a, b := Arithmetic.XorBytes(x, y), Arithmetic.XorBytes(x[1..], y[1..]);
      assert a[1..] == b;
      HeadAndTail(a);
    }
  }

  lemma ArithmeticIs(x: Bytes, y: Bytes)
    ensures var length := Max(|x|, |y|);
            AddNouns(x, y) == Big((BeValue(x) + BeValue(y)) % Pow256(length), length)
    ensures Atom(Arithmetic.InvertBytes(x)) == Inverse(x)
    ensures LessNouns(x, y) == Truth(BeValue(x) < BeValue(y)) && XorNouns(x, y) == Xored(x, y)
  {
    hide Xored, Arithmetic.XorBytes, Arithmetic.BeBytes, Arithmetic.InvertBytes, Pow256, BeValue;
    var length := Max(|x|, |y|);
    XoredIs(x, y);
    ModularBytes(BeValue(x) + BeValue(y), length);
    Arithmetic.InvertValue(x);
    BeValueBound(x);
    BytesOfValue(Arithmetic.InvertBytes(x));
  }

  lemma ModularBytes(value: nat, length: nat)
    ensures Arithmetic.BeBytes(value % Pow256(length), length) == Arithmetic.BeBytes(value, length)
  {
    hide Arithmetic.BeBytes, Pow256, BeValue;
    Arithmetic.BeBytesValue(value, length);
    Arithmetic.BeBytesValue(value % Pow256(length), length);
    BeValueInjective(Arithmetic.BeBytes(value % Pow256(length), length), Arithmetic.BeBytes(value, length));
  }

  lemma BytesOfValue(bs: Bytes)
    ensures Arithmetic.BeBytes(BeValue(bs), |bs|) == bs
  {
    hide Arithmetic.BeBytes, Pow256, BeValue;
    BeValueBound(bs);
    Arithmetic.BeBytesValue(BeValue(bs), |bs|);
    BeValueInjective(Arithmetic.BeBytes(BeValue(bs), |bs|), bs);
  }

  /** The machine finds the private key, and pays what it costs. */
  lemma {:induction false} PrivateKeyIs<S>(w: World<S>, m: Machine<S>, public: Noun, right: bool)
    requires m.Valid() && PrivateKey(w, m, public, right).0.Some?
    ensures PrivateKey(w, m, public, right).0 == Some(PrivateOf(w.blake, w.secret(m.engine), public, right))
    decreases public
  {
    if public.Cell? {
      var m1 := Charged(m, 128).value;
      PrivateKeyIs(w, m1, public.left, false);
      PrivateKeyIs(w, PrivateKey(w, m1, public.left, false).1, public.right, true);
    }
  }

  lemma ShapeFollows<S>(w: World<S>, m: Machine<S>, v: Noun)
    requires m.Valid()
    ensures Follows(m, (Ok(FromBool(v.Cell?)), m), Operation(w, DoIsCell, v, m.engine))
    ensures Follows(m, ShapeOf(m, v), Operation(w, DoShape, v, m.engine))
  {
    Untouched(m, m.engine);
    Shape.MeasuredCost(v, m.Ticks());
  }

  lemma HashFollows<S>(w: World<S>, m: Machine<S>, v: Noun)
    requires m.Valid()
    ensures Follows(m, Hashed(w, m, v), Operation(w, DoHash, v, m.engine))
    ensures Follows(m, StoredByHash(w, m, v), Operation(w, DoStoreByHash, v, m.engine))
  {
    StoredIsToBytes(v);
    hide Stored, ToBytes;
  }

  lemma InvertFollows<S>(w: World<S>, m: Machine<S>, v: Noun)
    requires m.Valid()
    ensures Follows(m, Inverted(m, v), Operation(w, DoInvert, v, m.engine))
  {
    hide Arithmetic.InvertBytes, Inverse;
    if v.Atom? {
      ArithmeticIs(v.bytes, []);
    }
  }

  lemma RandomFollows<S>(w: World<S>, m: Machine<S>, v: Noun)
    requires m.Valid()
    ensures Follows(m, Drawn(w, m, v), Operation(w, DoRandom, v, m.engine))
  {
    hide LeValue;
    if v.Atom? {
      Untouched(m, w.random(m.engine, LeValue(v.bytes)).1);
    }
  }

  lemma KeypairFollows<S>(w: World<S>, m: Machine<S>, v: Noun)
    requires m.Valid()
    ensures Follows(m, Keypair(w, m, v), Operation(w, DoGenerateKeypair, v, m.engine))
  {
    hide PrivateKey, PrivateOf, Flatten, Leaves;
    var (seed, s') := w.random(m.engine, 32);
    var public := Cell(v, Atom(seed));
    var m' := m.(engine := s');
    PrivateKeyPaid(w, m', public, false);
    if PrivateKey(w, m', public, false).0.Some? {
      PrivateKeyIs(w, m', public, false);
    }
  }

  lemma EqualFollows<S>(w: World<S>, m: Machine<S>, v: Noun)
    requires m.Valid()
    ensures Follows(m, Compared(m, v), Operation(w, DoEqual, v, m.engine))
  {
    if v.Cell? {
      Equal.CompareIsEquality(v.left, v.right, m.Ticks());
    }
  }

  lemma ReshapeFollows<S>(w: World<S>, m: Machine<S>, v: Noun)
    requires m.Valid()
    ensures Follows(m, Recut(m, v), Operation(w, DoReshape, v, m.engine))
  {
    hide Flatten;
    if v.Cell? {
      Shape.ReshapeSucceeds(v.left, v.right, m.Ticks(), RESHAPE_LIMIT);
    }
  }

  lemma StoringFollows<S>(w: World<S>, m: Machine<S>, v: Noun)
    requires m.Valid()
    ensures Follows(m, StoreByKey(w, m, v), Operation(w, DoStoreByKey, v, m.engine))
    ensures Follows(m, Sent(w, m, v), Operation(w, DoSend, v, m.engine))
  {
    hide Stored, ToBytes;
    if v.Cell? {
      StoredIsToBytes(v.left);
      StoredIsToBytes(v.right);
      if Operation(w, DoStoreByKey, v, m.engine).Some? {
        Untouched(m, Operation(w, DoStoreByKey, v, m.engine).value.engine);
      }
      if Operation(w, DoSend, v, m.engine).Some? {
        Untouched(m, Operation(w, DoSend, v, m.engine).value.engine);
      }
    }
  }

  lemma EncryptFollows<S>(w: World<S>, m: Machine<S>, v: Noun)
    requires m.Valid() && v.Cell? && IsKeyBytes(v.left)
    ensures Follows(m, Encrypted(w, m, v.left.bytes, v.right), Operation(w, DoEncrypt, v, m.engine))
  {
    hide Stored, ToBytes;
    StoredIsToBytes(v.right);
    Untouched(m, w.random(m.engine, 8).1);
  }

  lemma DecryptFollows<S>(w: World<S>, m: Machine<S>, v: Noun)
    requires m.Valid()
    ensures Follows(m, Opened(w, m, v), Operation(w, DoDecrypt, v, m.engine))
  {
    hide Deserialize.Decode;
    Untouched(m, m.engine);
  }

  lemma MathPaid<S>(m: Machine<S>, v: Noun, f: (Bytes, Bytes) -> Noun)
    requires m.Valid()
    ensures Follows(m, BinaryMath(m, v, f),
                    if v.Cell? && v.left.Atom? && v.right.Atom?
                    then Some(Effect(f(v.left.bytes, v.right.bytes), m.engine, Max(|v.left.bytes|, |v.right.bytes|)))
                    else None)
  {
  }

  lemma MathIs<S>(w: World<S>, v: Noun, s: S)
    requires v.Cell? && v.left.Atom? && v.right.Atom?
    ensures var x, y, length := v.left.bytes, v.right.bytes, Max(|v.left.bytes|, |v.right.bytes|);
            Operation(w, DoAdd, v, s) == Some(Effect(AddNouns(x, y), s, length)) &&
            Operation(w, DoLess, v, s) == Some(Effect(LessNouns(x, y), s, length)) &&
            Operation(w, DoXor, v, s) == Some(Effect(XorNouns(x, y), s, length))
  {
    hide BeValue, Pow256, Big, Xored, AddNouns, LessNouns, XorNouns;
    ArithmeticIs(v.left.bytes, v.right.bytes);
  }

  lemma MathFollows<S>(w: World<S>, m: Machine<S>, v: Noun)
    requires m.Valid()
    ensures Follows(m, BinaryMath(m, v, AddNouns), Operation(w, DoAdd, v, m.engine))
    ensures Follows(m, BinaryMath(m, v, LessNouns), Operation(w, DoLess, v, m.engine))
    ensures Follows(m, BinaryMath(m, v, XorNouns), Operation(w, DoXor, v, m.engine))
  {
    hide BinaryMath, AddNouns, LessNouns, XorNouns, Follows;
    MathPaid(m, v, AddNouns);
    MathPaid(m, v, LessNouns);
    MathPaid(m, v, XorNouns);
    if v.Cell? && v.left.Atom? && v.right.Atom? {
      MathIs(w, v, m.engine);
      hide Operation;
    }
  }

  lemma FirstFollow<S>(w: World<S>, m: Machine<S>, op: Instruction, v: Noun)
    requires m.Valid() && op in {DoIsCell, DoReshape, DoEqual, DoHash} && IsStrict(Number(op))
    ensures Follows(m, Primitive(w, m, Number(op), v), Operation(w, op, v, m.engine))
  {
    hide Follows, Operation, Primitive, IsStrict;
    DispatchedFirst(w, m, v);
    match op
    case DoIsCell => ShapeFollows(w, m, v);
    case DoReshape => ReshapeFollows(w, m, v);
    case DoEqual => EqualFollows(w, m, v);
    case DoHash => HashFollows(w, m, v);
  }

  lemma SecondFollow<S>(w: World<S>, m: Machine<S>, op: Instruction, v: Noun)
    requires m.Valid() && op in {DoStoreByHash, DoStoreByKey, DoRandom, DoGenerateKeypair} && IsStrict(Number(op))
    ensures Follows(m, Primitive(w, m, Number(op), v), Operation(w, op, v, m.engine))
  {
    hide Follows, Operation, Primitive, IsStrict;
    DispatchedSecond(w, m, v);
    match op
    case DoStoreByHash => HashFollows(w, m, v);
    case DoStoreByKey => StoringFollows(w, m, v);
    case DoRandom => RandomFollows(w, m, v);
    case DoGenerateKeypair => KeypairFollows(w, m, v);
  }

  lemma ThirdFollow<S>(w: World<S>, m: Machine<S>, op: Instruction, v: Noun)
    requires m.Valid() && op in {DoEncrypt, DoDecrypt, DoShape, DoSend} && IsStrict(Number(op))
    ensures Follows(m, Primitive(w, m, Number(op), v), Operation(w, op, v, m.engine))
  {
    hide Follows, Operation, Primitive, IsStrict;
    DispatchedThird(w, m, v);
    match op
    case DoEncrypt => EncryptOrNotFollows(w, m, v);
    case DoDecrypt => DecryptFollows(w, m, v);
    case DoShape => ShapeFollows(w, m, v);
    case DoSend => StoringFollows(w, m, v);
  }

  lemma MathFollow<S>(w: World<S>, m: Machine<S>, op: Instruction, v: Noun)
    requires m.Valid() && op in {DoAdd, DoInvert, DoXor, DoLess} && IsStrict(Number(op))
    ensures Follows(m, Primitive(w, m, Number(op), v), Operation(w, op, v, m.engine))
  {
    hide Follows, Operation, Primitive, IsStrict;
    DispatchedMath(w, m, v);
    match op
    case DoAdd => MathFollows(w, m, v);
    case DoInvert => InvertFollows(w, m, v);
    case DoXor => MathFollows(w, m, v);
    case DoLess => MathFollows(w, m, v);
  }

  lemma StrictOps(op: Instruction)
    ensures IsStrict(Number(op)) <==>
            op in {DoIsCell, DoReshape, DoEqual, DoHash} ||
              op in {DoStoreByHash, DoStoreByKey, DoRandom, DoGenerateKeypair} ||
            op in {DoEncrypt, DoDecrypt, DoShape, DoSend} || op in {DoAdd, DoInvert, DoXor, DoLess}
  {
    Strict(Number(op));
    hide IsStrict;
  }

  /**
   * Each instruction that only works on the value of its argument does what its operation says, for exactly its cost,
   * and fails where there is none or the cost cannot be paid.
   */
  lemma OperationFollows<S>(w: World<S>, m: Machine<S>, op: Instruction, v: Noun)
    requires m.Valid() && IsStrict(Number(op))
    ensures Follows(m, Primitive(w, m, Number(op), v), Operation(w, op, v, m.engine))
  {
    hide Follows, Operation, Primitive, IsStrict, Number;
    StrictOps(op);
    if op in {DoIsCell, DoReshape, DoEqual, DoHash} {
      FirstFollow(w, m, op, v);
    } else if op in {DoStoreByHash, DoStoreByKey, DoRandom, DoGenerateKeypair} {
      SecondFollow(w, m, op, v);
    } else if op in {DoEncrypt, DoDecrypt, DoShape, DoSend} {
      ThirdFollow(w, m, op, v);
    } else {
      MathFollow(w, m, op, v);
    }
  }

  lemma EncryptOrNotFollows<S>(w: World<S>, m: Machine<S>, v: Noun)
    requires m.Valid()
    ensures Follows(m, if v.Atom? || !IsKey(v.left) then (Err(BadArgument), m)
                       else Encrypted(w, m, v.left.bytes, v.right), Operation(w, DoEncrypt, v, m.engine))
  {
    hide Encrypted;
    if v.Cell? && IsKey(v.left) {
      EncryptFollows(w, m, v);
      hide Follows, Operation;
    }
  }
}
