/**
 * The interpreter as the program runs it (`vm/src/eval.rs`): an object with a meter, a current runner, and a
 * table of set-aside meters, whose evaluation loop reassigns its subject and formula. Each method is shown to
 * do what the function of the same step in `Evaluation` says.
 */
module Computation {
  import opened Basics
  import opened Nouns
  import opened Evaluation
  import opened Ticks
  import Axis
  import Equal
  import Representation
  import Shape
  import Arithmetic
  import Serialize
  import Deserialize

  /** What one turn of the evaluation loop comes to: an answer, or a new subject and formula. */
  datatype Turn = Done(outcome: Outcome) | Continue(subject: Noun, formula: Noun)

  function Counts(readings: map<Key, Reading>): map<Key, nat> {
    map k | k in readings :: readings[k].count
  }

  lemma CountsUpdate(readings: map<Key, Reading>, k: Key, reading: Reading)
    ensures Counts(readings[k := reading]) == Counts(readings)[k := reading.count]
  {
  }

  class Computation<S> {
    const world: World<S>
    const ticksRemaining: Meter
    var executingAs: Key
    var engine: S
    var ticksFor: map<Key, Reading>

    /** The machine this object is: the current runner's balance is what the meter shows. */
    ghost function State(): (m: Machine<S>)
      reads this, ticksRemaining
      ensures m.Valid() && m.Ticks() == ticksRemaining.count
    {
      Machine(executingAs, Counts(ticksFor)[executingAs := ticksRemaining.count], engine)
    }

    /** No meter, running or set aside, shows more than it started with. */
    ghost predicate Valid()
      reads this, ticksRemaining
    {
      ticksRemaining.Shown().Valid() && forall k :: k in ticksFor ==> ticksFor[k].Valid()
    }

    constructor (world: World<S>, engine: S, tickLimit: nat)
      ensures this.world == world && fresh(ticksRemaining) && Valid()
      ensures State() == Machine(NOBODY, map[NOBODY := tickLimit], engine)
    {
      this.world := world;
      this.engine := engine;
      this.ticksRemaining := new Meter(tickLimit);
      this.executingAs := NOBODY;
      this.ticksFor := map[];
    }

    method Pay(cost: nat) returns (ok: bool)
      requires Valid()
      modifies ticksRemaining`count
      ensures Valid()
      ensures ok <==> Charged(old(State()), cost).Some?
      ensures State() == if ok then Charged(old(State()), cost).value else old(State())
    {
      ghost var before := State();
      ok := ticksRemaining.Incur(cost);
      if ok {
        Metered(before);
      }
    }

    /** Moving the meter is moving the current runner's balance and nothing else. */
    ghost method Metered(before: Machine<S>)
      requires before == Machine(executingAs, before.balances, engine) && before.Valid()
      requires before.balances == Counts(ticksFor)[executingAs := before.Ticks()]
      ensures State() == before.WithTicks(ticksRemaining.count)
    {
      assert State().balances == before.balances[executingAs := ticksRemaining.count];
    }

    method SwitchToRunner(privateKey: Key) returns (wasRunningAs: Key)
      requires Valid()
      modifies this`executingAs, this`ticksFor, ticksRemaining
      ensures Valid()
      ensures wasRunningAs == old(executingAs)
      ensures State() == Switched(world, old(State()), privateKey)
    {
      ghost var before := State();
      wasRunningAs := executingAs;
      CountsUpdate(ticksFor, executingAs, ticksRemaining.Shown());
      ticksFor := ticksFor[executingAs := ticksRemaining.Shown()];
      executingAs := privateKey;
      if privateKey !in ticksFor {
        var grant := world.grant(engine, privateKey);
        CountsUpdate(ticksFor, privateKey, Reading(grant, grant));
        ticksFor := ticksFor[privateKey := Reading(grant, grant)];
      }
      ticksRemaining.Become(ticksFor[privateKey]);
      assert State().balances == Switched(world, before, privateKey).balances;
    }

    method PrivateSymmetricKeyFor(public: Noun, branchedRight: bool) returns (r: Option<Bytes>)
      requires Valid()
      modifies ticksRemaining`count
      ensures Valid()
      ensures (r, State()) == PrivateKey(world, old(State()), public, branchedRight)
      decreases public
    {
      match public {
        case Atom(xs) =>
          var ok := Pay(|xs|);
          if !ok {
            return None;
          }
          r := Some(world.blake(xs, if branchedRight then world.secret(engine) else [], 32));
        case Cell(left, right) =>
          var ok := Pay(128);
          if !ok {
            return None;
          }
          var leftHash := PrivateSymmetricKeyFor(left, false);
          if leftHash == None {
            return None;
          }
          var rightHash := PrivateSymmetricKeyFor(right, true);
          if rightHash == None {
            return None;
          }
          r := Some(world.blake(leftHash.value + rightHash.value, [], 32));
      }
    }

    method Decrypt(key: Bytes, ciphertext: Bytes) returns (r: Result<Option<Noun>, EvalError>)
      requires Valid()
      modifies ticksRemaining`count
      ensures Valid()
      ensures (r, State()) == Decrypted(world, old(State()), key, ciphertext)
    {
      var header := NONCE_LEN + TAG_LEN;
      if |ciphertext| < header {
        return Ok(None);
      }
      var ok := Pay(|ciphertext|);
      if !ok {
        return Err(TickLimitExceeded);
      }
      var plaintext := world.open(key, ciphertext[..NONCE_LEN], ciphertext[header..], ciphertext[NONCE_LEN..header]);
      if plaintext == None {
        return Ok(None);
      }
      var decoded := Deserialize.DeserializeBytes(plaintext.value);
      r := Ok(match decoded
              case Err(_) => None
              case Ok(n) => Some(n));
    }

    method SerializeNoun(n: Noun) returns (r: Result<Bytes, EvalError>)
      ensures r == ToBytes(n)
    {
      var bytes := Serialize.SerializeToBytes(n, SERIALIZATION_LIMIT);
      r := match bytes
           case Ok(bs) => Ok(bs)
           case Err(OverlongAtom) => Err(BadArgument)
           case Err(MaximumLengthExceeded) => Err(MemoryExceeded);
    }

    method Encrypt(key: Bytes, plaintext: Noun) returns (r: Outcome)
      requires Valid()
      modifies this`engine
      ensures Valid()
      ensures (r, State()) == Encrypted(world, old(State()), key, plaintext)
    {
      var buffer := SerializeNoun(plaintext);
      if buffer.Err? {
        return Err(buffer.error);
      }
      var (nonce, engine') := world.random(engine, NONCE_LEN);
      engine := engine';
      var (ciphertext, tag) := world.seal(key, nonce, buffer.value);
      r := Ok(Atom(nonce + tag + ciphertext));
    }

    method HashableBytes(v: Noun) returns (r: Result<Bytes, EvalError>)
      requires Valid()
      modifies ticksRemaining`count
      ensures Valid()
      ensures (r, State()) == HashInput(old(State()), v)
    {
      var buffer := SerializeNoun(v);
      if buffer.Err? {
        return buffer;
      }
      var ok := Pay(20 + |buffer.value|);
      r := if ok then buffer else Err(TickLimitExceeded);
    }

    method TestEquality(v: Noun) returns (r: Outcome)
      requires Valid()
      modifies ticksRemaining`count
      ensures Valid()
      ensures (r, State()) == Compared(old(State()), v)
    {
      if v.Atom? {
        return Err(BadEqualsArgument);
      }
      ghost var before := State();
      Representation.StoreMeans(v.left);
      Representation.StoreMeans(v.right);
      var equal := Equal.AreEqual(Representation.Store(v.left), Representation.Store(v.right), ticksRemaining);
      Metered(before);
      r := if equal.Some? then Ok(FromBool(equal.value)) else Err(TickLimitExceeded);
    }

    method ReshapeNoun(v: Noun) returns (r: Outcome)
      requires Valid()
      modifies ticksRemaining`count
      ensures Valid()
      ensures (r, State()) == Recut(old(State()), v)
    {
      if v.Atom? {
        return Err(BadArgument);
      }
      ghost var before := State();
      var result := Shape.Reshape(v.left, v.right, ticksRemaining, RESHAPE_LIMIT);
      Metered(before);
      r := if result.Ok? then Ok(result.value) else Err(BadShape);
    }

    method MeasureShape(v: Noun) returns (r: Outcome)
      requires Valid()
      modifies ticksRemaining`count
      ensures Valid()
      ensures (r, State()) == ShapeOf(old(State()), v)
    {
      ghost var before := State();
      var result := Shape.Length(v, ticksRemaining);
      Metered(before);
      r := if result.Some? then Ok(result.value) else Err(TickLimitExceeded);
    }

    method AddAtoms(v: Noun) returns (r: Outcome)
      requires Valid()
      modifies ticksRemaining`count
      ensures Valid()
      ensures (r, State()) == BinaryMath(old(State()), v, AddNouns)
    {
      if v.Atom? {
        return Err(BadArgument);
      }
      var ok := Pay(Max(AtomLen(v.left), AtomLen(v.right)));
      if !ok {
        return Err(TickLimitExceeded);
      }
      if v.left.Cell? || v.right.Cell? {
        return Err(NonAtomicMath);
      }
      var sum := Arithmetic.Add(v.left.bytes, v.right.bytes);
      r := Ok(Atom(sum));
    }

    method CompareAtoms(v: Noun) returns (r: Outcome)
      requires Valid()
      modifies ticksRemaining`count
      ensures Valid()
      ensures (r, State()) == BinaryMath(old(State()), v, LessNouns)
    {
      if v.Atom? {
        return Err(BadArgument);
      }
      var ok := Pay(Max(AtomLen(v.left), AtomLen(v.right)));
      if !ok {
        return Err(TickLimitExceeded);
      }
      if v.left.Cell? || v.right.Cell? {
        return Err(NonAtomicMath);
      }
      var lesser := Arithmetic.Less(v.left.bytes, v.right.bytes);
      r := Ok(FromBool(lesser));
    }

    method XorAtoms(v: Noun) returns (r: Outcome)
      requires Valid()
      modifies ticksRemaining`count
      ensures Valid()
      ensures (r, State()) == BinaryMath(old(State()), v, XorNouns)
    {
      if v.Atom? {
        return Err(BadArgument);
      }
      var ok := Pay(Max(AtomLen(v.left), AtomLen(v.right)));
      if !ok {
        return Err(TickLimitExceeded);
      }
      r := if v.left.Atom? && v.right.Atom? then Ok(XorNouns(v.left.bytes, v.right.bytes)) else Err(NonAtomicMath);
    }

    method InvertAtom(v: Noun) returns (r: Outcome)
      requires Valid()
      modifies ticksRemaining`count
      ensures Valid()
      ensures (r, State()) == Inverted(old(State()), v)
    {
      var ok := Pay(AtomLen(v));
      if !ok {
        return Err(TickLimitExceeded);
      }
      r := if v.Atom? then Ok(Atom(Arithmetic.InvertBytes(v.bytes))) else Err(NonAtomicMath);
    }

    method GenerateKeypair(v: Noun) returns (r: Outcome)
      requires Valid()
      modifies this`engine, ticksRemaining`count
      ensures Valid()
      ensures (r, State()) == Keypair(world, old(State()), v)
    {
      var (seed, engine') := world.random(engine, 32);
      engine := engine';
      var public := Cell(v, Atom(seed));
      var private := PrivateSymmetricKeyFor(public, false);
      r := if private.Some? then Ok(Cell(Atom(private.value), public)) else Err(TickLimitExceeded);
    }

    method OpenCiphertext(v: Noun) returns (r: Outcome)
      requires Valid()
      modifies ticksRemaining`count
      ensures Valid()
      ensures (r, State()) == Opened(world, old(State()), v)
    {
      if v.Atom? || !IsKey(v.left) || v.right.Cell? {
        return Err(BadArgument);
      }
      var plaintext := Decrypt(v.left.bytes, v.right.bytes);
      r := match plaintext
           case Err(e) => Err(e)
           case Ok(None) => Ok(FromBool(false))
           case Ok(Some(n)) => Ok(Cell(FromBool(true), n));
    }

    method SendMessage(v: Noun) returns (r: Outcome)
      requires Valid()
      modifies this`engine
      ensures Valid()
      ensures (r, State()) == Sent(world, old(State()), v)
    {
      if v.Atom? || !IsKey(v.left) {
        return Err(BadArgument);
      }
      var message := SerializeNoun(v.right);
      if message.Err? {
        return Err(message.error);
      }
      engine := world.send(engine, v.left.bytes, message.value);
      r := Ok(FromU8(0));
    }

    method StoreUnderKey(v: Noun) returns (r: Outcome)
      requires Valid()
      modifies this`engine
      ensures Valid()
      ensures (r, State()) == StoreByKey(world, old(State()), v)
    {
      if v.Atom? {
        return Err(BadArgument);
      }
      var storageKey := SerializeNoun(v.left);
      if storageKey.Err? {
        return Err(storageKey.error);
      }
      var storageValue := SerializeNoun(v.right);
      if storageValue.Err? {
        return Err(storageValue.error);
      }
      engine := world.store(engine, storageKey.value + [BY_KEY_TAG], storageValue.value);
      r := Ok(FromBool(true));
    }

    method DrawRandom(v: Noun) returns (r: Outcome)
      requires Valid()
      modifies this`engine
      ensures Valid()
      ensures (r, State()) == Drawn(world, old(State()), v)
    {
      var length := AsU64(v);
      if length == None || length.value > RANDOM_LIMIT {
        return Err(InvalidLength);
      }
      var (xs, engine') := world.random(engine, length.value);
      engine := engine';
      r := Ok(Atom(xs));
    }

    method StoreUnderHash(v: Noun) returns (r: Outcome)
      requires Valid()
      modifies this`engine, ticksRemaining`count
      ensures Valid()
      ensures (r, State()) == StoredByHash(world, old(State()), v)
    {
      var buffer := HashableBytes(v);
      if buffer.Err? {
        return Err(buffer.error);
      }
      engine := world.store(engine, world.blake(buffer.value, [], 64) + [BY_HASH_TAG], buffer.value);
      r := Ok(FromBool(true));
    }

    method HashNoun(v: Noun) returns (r: Outcome)
      requires Valid()
      modifies ticksRemaining`count
      ensures Valid()
      ensures (r, State()) == Hashed(world, old(State()), v)
    {
      var buffer := HashableBytes(v);
      r := if buffer.Ok? then Ok(Atom(world.blake(buffer.value, [], 64))) else Err(buffer.error);
    }

    /** A strict opcode, given its argument's value. */
    method Apply(op: nat, v: Noun) returns (r: Outcome)
      requires IsStrict(op)
      requires Valid()
      modifies this`engine, ticksRemaining`count
      ensures Valid()
      ensures (r, State()) == Primitive(world, old(State()), op, v)
    {
      hide Compared, Hashed, StoredByHash, StoreByKey, Drawn, Recut, ShapeOf, BinaryMath, Inverted, Keypair, Opened,
           Encrypted, Sent;
      if op == IS_CELL {
        r := Ok(FromBool(v.Cell?));
      } else if op == IS_EQUAL {
        r := TestEquality(v);
      } else if op == HASH {
        r := HashNoun(v);
      } else if op == STORE_BY_HASH {
        r := StoreUnderHash(v);
      } else if op == STORE_BY_KEY {
        r := StoreUnderKey(v);
      } else if op == RANDOM {
        r := DrawRandom(v);
      } else if op == RESHAPE {
        r := ReshapeNoun(v);
      } else if op == SHAPE {
        r := MeasureShape(v);
      } else if op == ADD {
        r := AddAtoms(v);
      } else if op == LESS {
        r := CompareAtoms(v);
      } else if op == XOR {
        r := XorAtoms(v);
      } else if op == INVERT {
        r := InvertAtom(v);
      } else if op == GENERATE_KEYPAIR {
        r := GenerateKeypair(v);
      } else if op == DECRYPT {
        r := OpenCiphertext(v);
      } else if op == ENCRYPT {
        if v.Atom? || !IsKey(v.left) {
          return Err(BadArgument);
        }
        r := Encrypt(v.left.bytes, v.right);
      } else {
        r := SendMessage(v);
      }
    }

    /** What is left to do after a turn. */
    ghost function Resolved(turn: Turn): Step<S>
      reads this, ticksRemaining
    {
      match turn
      case Done(outcome) => (outcome, State())
      case Continue(subject, formula) => Eval(world, State(), subject, formula)
    }

    /** The evaluation loop: every turn answers or goes on with a new subject and formula. */
    method EvalOn(subject0: Noun, formula0: Noun) returns (r: Outcome)
      requires Valid()
      modifies this, ticksRemaining
      ensures Valid()
      ensures (r, State()) == Eval(world, old(State()), subject0, formula0)
      decreases Unmet(State()), Total(State().balances), 0
    {
      hide Valid, State, Dispatch, Settled, Total, Unmet;
      var subject, formula := subject0, formula0;
      while true
        invariant Valid()
        invariant Eval(world, State(), subject, formula) == Eval(world, old(State()), subject0, formula0)
        invariant AtMost(State(), old(State()))
        decreases Unmet(State()), Total(State().balances)
      {
        ghost var before := State();
        var ok := Pay(1);
        if !ok {
          return Err(TickLimitExceeded);
        }
        PaidDescends(before);
        ghost var paid := State();
        var turn := Take(subject, formula);
        SettledAtMost(paid, State());
        match turn {
          case Done(outcome) =>
            return outcome;
          case Continue(newSubject, newFormula) =>
            subject, formula := newSubject, newFormula;
        }
      }
    }

    /** One turn, its tick paid. */
    method Take(subject: Noun, formula: Noun) returns (turn: Turn)
      requires Valid()
      modifies this, ticksRemaining
      ensures Valid()
      ensures Resolved(turn) == Dispatch(world, old(State()), subject, formula)
      ensures Settled(old(State()), State())
      decreases Unmet(State()), Total(State().balances), 3
    {
      if formula.Atom? {
        return Done(Err(AtomicFormula));
      }
      var argument := formula.right;
      if formula.left.Cell? {
        turn := TakeBoth(subject, formula.left, argument);
        return;
      }
      var opcode := AsU8(formula.left);
      if opcode == None {
        return Done(Err(NotAnOpcode));
      }
      var op := opcode.value;
      if op == AXIS {
        var found := Axis.AxisOf(subject, argument);
        turn := Done(FromAxis(found));
      } else if op == LITERAL {
        turn := Done(Ok(argument));
      } else if IsStrict(op) {
        turn := TakeStrict(subject, op, argument);
      } else if op == RECURSE {
        turn := TakeRecurse(subject, argument);
      } else if op == IF {
        turn := TakeIf(subject, argument);
      } else if op == COMPOSE || op == DEFINE || op == CALL {
        turn := TakeChained(subject, op, argument);
      } else if op == RETRIEVE_BY_HASH || op == RETRIEVE_BY_KEY {
        turn := TakeRetrieve(subject, op, argument);
      } else if op == EXUCRYPT {
        turn := TakeExucrypt(subject, argument);
      } else if op == EXECUTE_AS {
        turn := TakeExecuteAs(subject, argument);
      } else {
        turn := Done(Err(BadOpcode(op)));
      }
    }

    method TakeBoth(subject: Noun, left: Noun, right: Noun) returns (turn: Turn)
      requires Valid()
      modifies this, ticksRemaining
      ensures Valid()
      ensures Resolved(turn) == EvalBoth(world, old(State()), subject, left, right)
      ensures Settled(old(State()), State())
      decreases Unmet(State()), Total(State().balances), 2
    {
      var lhs := EvalOn(subject, left);
      if lhs.Err? {
        return Done(lhs);
      }
      SettledAtMost(old(State()), State());
      var rhs := EvalOn(subject, right);
      if rhs.Err? {
        return Done(rhs);
      }
      turn := Done(Ok(Cell(lhs.value, rhs.value)));
    }

    method TakeStrict(subject: Noun, op: nat, argument: Noun) returns (turn: Turn)
      requires IsStrict(op)
      requires Valid()
      modifies this, ticksRemaining
      ensures Valid()
      ensures Resolved(turn) == EvalStrict(world, old(State()), subject, op, argument)
      ensures Settled(old(State()), State())
      decreases Unmet(State()), Total(State().balances), 2
    {
      hide Primitive;
      var v := EvalOn(subject, argument);
      if v.Err? {
        return Done(v);
      }
      var outcome := Apply(op, v.value);
      turn := Done(outcome);
    }

    method TakeRecurse(subject: Noun, argument: Noun) returns (turn: Turn)
      requires Valid()
      modifies this, ticksRemaining
      ensures Valid()
      ensures Resolved(turn) == EvalRecurse(world, old(State()), subject, argument)
      ensures Settled(old(State()), State())
      decreases Unmet(State()), Total(State().balances), 2
    {
      if argument.Atom? {
        return Done(Err(BadRecurseArgument));
      }
      var newSubject := EvalOn(subject, argument.left);
      if newSubject.Err? {
        return Done(newSubject);
      }
      SettledAtMost(old(State()), State());
      var newFormula := EvalOn(subject, argument.right);
      if newFormula.Err? {
        return Done(newFormula);
      }
      turn := Continue(newSubject.value, newFormula.value);
    }

    method TakeIf(subject: Noun, argument: Noun) returns (turn: Turn)
      requires Valid()
      modifies this, ticksRemaining
      ensures Valid()
      ensures Resolved(turn) == EvalIf(world, old(State()), subject, argument)
      ensures Settled(old(State()), State())
      decreases Unmet(State()), Total(State().balances), 2
    {
      if argument.Atom? || argument.right.Atom? {
        return Done(Err(BadArgument));
      }
      var condition := EvalOn(subject, argument.left);
      if condition.Err? {
        return Done(condition);
      }
      match AsU8(condition.value) {
        case Some(1) => turn := Continue(subject, argument.right.left);
        case Some(0) => turn := Continue(subject, argument.right.right);
        case _ => turn := Done(Err(BadIfCondition));
      }
    }

    method TakeChained(subject: Noun, op: nat, argument: Noun) returns (turn: Turn)
      requires op == COMPOSE || op == DEFINE || op == CALL
      requires Valid()
      modifies this, ticksRemaining
      ensures Valid()
      ensures Resolved(turn) == EvalChained(world, old(State()), subject, op, argument)
      ensures Settled(old(State()), State())
      decreases Unmet(State()), Total(State().balances), 2
    {
      if argument.Atom? {
        return Done(Err(BadArgument));
      }
      var v := EvalOn(subject, if op == CALL then argument.right else argument.left);
      if v.Err? {
        return Done(v);
      }
      if op == COMPOSE {
        turn := Continue(v.value, argument.right);
      } else if op == DEFINE {
        turn := Continue(Cell(v.value, subject), argument.right);
      } else {
        var inner := Axis.AxisOf(v.value, argument.left);
        turn := if inner.Ok? then Continue(v.value, inner.value) else Done(FromAxis(inner));
      }
    }

    /** `retrieve_with_tag`: run what is stored under the key, if anything is. */
    method Retrieve(op: nat, v: Noun) returns (r: Result<Option<Noun>, EvalError>)
      requires op == RETRIEVE_BY_HASH || op == RETRIEVE_BY_KEY
      requires Valid()
      modifies this`engine
      ensures Valid()
      ensures (r, State()) == Retrieved(world, old(State()), op, v)
    {
      var key: Bytes;
      if op == RETRIEVE_BY_HASH {
        if v.Cell? {
          return Ok(None);
        }
        key := v.bytes + [BY_HASH_TAG];
      } else {
        var bytes := SerializeNoun(v);
        if bytes.Err? {
          return Err(bytes.error);
        }
        key := bytes.value + [BY_KEY_TAG];
      }
      var (stored, engine') := world.load(engine, key);
      engine := engine';
      if stored == None {
        return Ok(None);
      }
      var decoded := Deserialize.DeserializeBytes(stored.value);
      r := if decoded.Ok? then Ok(Some(decoded.value)) else Err(StorageCorrupt);
    }

    method TakeRetrieve(subject: Noun, op: nat, argument: Noun) returns (turn: Turn)
      requires op == RETRIEVE_BY_HASH || op == RETRIEVE_BY_KEY
      requires Valid()
      modifies this, ticksRemaining
      ensures Valid()
      ensures Resolved(turn) == EvalRetrieve(world, old(State()), subject, op, argument)
      ensures Settled(old(State()), State())
      decreases Unmet(State()), Total(State().balances), 2
    {
      hide Retrieved, Eval, Unmet, Total, Valid, State;
      var v := EvalOn(subject, argument);
      if v.Err? {
        return Done(v);
      }
      var program := Retrieve(op, v.value);
      if program.Err? {
        return Done(Err(program.error));
      }
      if program.value == None {
        return Done(Ok(FromBool(false)));
      }
      SettledAtMost(old(State()), State());
      var result := EvalOn(subject, program.value.value);
      if result.Err? {
        return Done(result);
      }
      turn := Done(Ok(Cell(FromBool(true), result.value)));
    }

    method Unseal(v: Noun) returns (program: Result<Option<Noun>, EvalError>, key: Bytes)
      requires Valid()
      modifies ticksRemaining`count
      ensures Valid()
      ensures (program, key, State()) == Unsealed(world, old(State()), v)
    {
      if v.Atom? {
        return Err(BadArgument), [];
      }
      var private := PrivateSymmetricKeyFor(v.left, false);
      if private == None {
        return Err(TickLimitExceeded), [];
      }
      if v.right.Cell? {
        return Err(BadArgument), [];
      }
      program := Decrypt(private.value, v.right.bytes);
      key := private.value;
    }

    method TakeExucrypt(subject: Noun, argument: Noun) returns (turn: Turn)
      requires Valid()
      modifies this, ticksRemaining
      ensures Valid()
      ensures Resolved(turn) == EvalExucrypt(world, old(State()), subject, argument)
      ensures Settled(old(State()), State())
      decreases Unmet(State()), Total(State().balances), 2
    {
      hide Unsealed, EvalSealed, Eval, Unmet, Total;
      var v := EvalOn(subject, argument);
      if v.Err? {
        return Done(v);
      }
      var program, key := Unseal(v.value);
      if program.Err? {
        return Done(Err(program.error));
      }
      if program.value == None {
        return Done(Ok(FromBool(false)));
      }
      SettledAtMost(old(State()), State());
      var outcome := RunSealed(subject, program.value.value, key);
      turn := Done(outcome);
    }

    /** Run a decrypted program and encrypt what it gives. */
    method RunSealed(subject: Noun, formula: Noun, key: Bytes) returns (r: Outcome)
      requires Valid()
      modifies this, ticksRemaining
      ensures Valid()
      ensures (r, State()) == EvalSealed(world, old(State()), subject, formula, key)
      decreases Unmet(State()), Total(State().balances), 1
    {
      hide Encrypted, Eval;
      r := EvalOn(subject, formula);
      if r.Ok? {
        var sealed := Encrypt(key, r.value);
        r := if sealed.Ok? then Ok(Cell(FromBool(true), sealed.value)) else sealed;
      }
    }

    /** Everything `EXECUTE_AS` does before it switches runners. */
    method Delegate(v: Noun) returns (r: Result<Delegation, EvalError>)
      requires Valid()
      modifies this`engine, ticksRemaining`count
      ensures Valid()
      ensures (r, State()) == Delegated(world, old(State()), v)
    {
      if v.Atom? || v.right.Atom? || !IsKey(v.right.left) || v.right.right.Atom? || v.right.right.right.Cell? {
        return Err(BadArgument);
      }
      var runner, counter, ciphertext := v.right.left.bytes, v.right.right.left, v.right.right.right.bytes;
      if counter.Cell? {
        return Err(BadArgument);
      }
      if |counter.bytes| != 8 {
        return Err(BadExecuteAsCounter);
      }
      var private := PrivateSymmetricKeyFor(v.right.left, false);
      if private == None {
        return Err(TickLimitExceeded);
      }
      var body := Decrypt(private.value, ciphertext);
      if body.Err? {
        return Err(body.error);
      }
      if body.value == None {
        return Err(BadExecuteAsBody);
      }
      var (unused, engine') := world.consumeCounter(engine, counter.bytes, runner);
      engine := engine';
      r := if unused then Ok(Delegation(v.left, runner, body.value.value)) else Err(BadExecuteAsCounter);
    }

    method TakeExecuteAs(subject: Noun, argument: Noun) returns (turn: Turn)
      requires Valid()
      modifies this, ticksRemaining
      ensures Valid()
      ensures Resolved(turn) == EvalExecuteAs(world, old(State()), subject, argument)
      ensures Settled(old(State()), State())
      decreases Unmet(State()), Total(State().balances), 2
    {
      hide Delegated;
      var v := EvalOn(subject, argument);
      if v.Err? {
        return Done(v);
      }
      var delegation := Delegate(v.value);
      if delegation.Err? {
        return Done(Err(delegation.error));
      }
      ghost var before := State();
      SwitchedAtMost(world, old(State()), before, delegation.value.runner);
      var oldRunner := SwitchToRunner(delegation.value.runner);
      var ret := EvalOn(delegation.value.subject, delegation.value.body);
      ghost var after := State();
      var _ := SwitchToRunner(oldRunner);
      DelegateSettled(world, before, delegation.value.runner, after);
      turn := Done(ret);
    }
  }

  /** `eval`: run a program for nobody in particular, with the ticks given. */
  method EvalExpression<S>(world: World<S>, engine: S, expression: Noun, tickLimit: nat) returns (r: Outcome,
                           engine': S)
    ensures (r, engine') == EvalProgram(world, engine, expression, tickLimit)
  {
    match expression {
      case Atom(_) =>
        return Err(EvalOnAtom), engine;
      case Cell(subject, formula) =>
        var computation := new Computation(world, engine, tickLimit);
        r := computation.EvalOn(subject, formula);
        engine' := computation.engine;
    }
  }
}
