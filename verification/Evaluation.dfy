/**
 * The noun machine (`vm/src/eval.rs`): what evaluating a formula against a subject does to the result, the
 * tick balances, and the world outside.
 *
 * Every runner has a balance. `Machine.balances` holds, for the runner that is executing, what its meter
 * shows now; the copy that the program keeps aside for it while it runs is never read before it is
 * overwritten, so it does not appear here.
 *
 * The world outside (storage, randomness, the ledger's policy) and cryptography are arbitrary functions.
 */
module Evaluation {
  import opened Basics
  import opened Nouns
  import opened Serialize
  import opened Deserialize
  import Axis
  import Equal
  import Shape
  import Arithmetic

  type Key = k: Bytes | |k| == 32 witness NOBODY

  /** The key of the runner a program starts as. */
  const NOBODY: Bytes :=
    [0, 0, 0, 0, 0, 0, 0, 0, 0, 0, 0, 0, 0, 0, 0, 0, 0, 0, 0, 0, 0, 0, 0, 0, 0, 0, 0, 0, 0, 0, 0, 0]

  datatype EvalError =
    | CellAsIndex | IndexOutOfRange | InvalidLength | NotAnOpcode | BadOpcode(opcode: nat) | BadRecurseArgument
    | BadEqualsArgument | BadArgument | BadIfCondition | TickLimitExceeded | AtomicFormula | MemoryExceeded
    | StorageCorrupt | EvalOnAtom | BadShape | NonAtomicMath | BadExecuteAsBody | BadExecuteAsCounter

  /** The side effect engine, as a state machine over `S`, and the cryptographic primitives. */
  datatype World<!S> = World(
    random: (S, nat) -> (Bytes, S),
    load: (S, Bytes) -> (Option<Bytes>, S),
    store: (S, Bytes, Bytes) -> S,
    send: (S, Bytes, Bytes) -> S,
    secret: S -> Bytes,
    grant: (S, Key) -> nat,
    consumeCounter: (S, Bytes, Key) -> (bool, S),
    blake: (Bytes, Bytes, nat) -> Bytes,
    seal: (Bytes, Bytes, Bytes) -> (Bytes, Bytes),
    open: (Bytes, Bytes, Bytes, Bytes) -> Option<Bytes>)

  datatype Machine<S> = Machine(executingAs: Key, balances: map<Key, nat>, engine: S) {
    predicate Valid() {
      executingAs in balances
    }

    function Ticks(): nat
      requires Valid()
    {
      balances[executingAs]
    }

    function WithTicks(count: nat): Machine<S> {
      this.(balances := balances[executingAs := count])
    }
  }

  type Outcome = Result<Noun, EvalError>

  const AXIS := 0
  const LITERAL := 1
  const RECURSE := 2
  const IS_CELL := 3
  const RESHAPE := 4
  const IS_EQUAL := 5
  const IF := 6
  const COMPOSE := 7
  const DEFINE := 8
  const CALL := 9
  const HASH := 10
  const STORE_BY_HASH := 11
  const RETRIEVE_BY_HASH := 12
  const STORE_BY_KEY := 13
  const RETRIEVE_BY_KEY := 14
  const RANDOM := 15
  const GENERATE_KEYPAIR := 16
  const ENCRYPT := 17
  const DECRYPT := 18
  const EXUCRYPT := 19
  const SHAPE := 20
  const ADD := 21
  const INVERT := 22
  const XOR := 23
  const LESS := 24
  const SEND := 25
  const EXECUTE_AS := 26

  const SERIALIZATION_LIMIT := 1_000_000
  const RESHAPE_LIMIT := 10_000_000
  const RANDOM_LIMIT := 1_000_000
  const NONCE_LEN := 8
  const TAG_LEN := 16
  const BY_KEY_TAG: Byte := 0
  const BY_HASH_TAG: Byte := 1

  /** Opcodes that evaluate their argument and then work on its value without evaluating anything else. */
  predicate IsStrict(op: nat) {
    op in {IS_CELL, RESHAPE, IS_EQUAL, HASH, STORE_BY_HASH, STORE_BY_KEY, RANDOM, GENERATE_KEYPAIR, ENCRYPT, DECRYPT,
           SHAPE, ADD, INVERT, XOR, LESS, SEND}
  }

  function FromAxis(r: Result<Noun, Axis.AxisError>): Outcome {
    match r
    case Ok(n) => Ok(n)
    case Err(IndexOutOfRange) => Err(IndexOutOfRange)
    case Err(CellAsIndex) => Err(CellAsIndex)
  }

  function ToBytes(n: Noun): Result<Bytes, EvalError> {
    match Encode(n, SERIALIZATION_LIMIT)
    case Ok(bs) => Ok(bs)
    case Err(OverlongAtom) => Err(BadArgument)
    case Err(MaximumLengthExceeded) => Err(MemoryExceeded)
  }

  /** A machine that has only spent ticks of the current runner and changed the engine. */
  ghost predicate Spent<S>(m: Machine<S>, m': Machine<S>) {
    m.Valid() && m'.Valid() && m'.executingAs == m.executingAs && m'.balances.Keys == m.balances.Keys &&
    m'.Ticks() <= m.Ticks() && forall k :: k in m.balances && k != m.executingAs ==> m'.balances[k] == m.balances[k]
  }

  /** What every evaluation leaves: the same runner, no balance raised, no account lost. */
  ghost predicate Settled<S>(m: Machine<S>, m': Machine<S>) {
    m'.executingAs == m.executingAs && m.balances.Keys <= m'.balances.Keys &&
    forall k :: k in m.balances ==> m'.balances[k] <= m.balances[k]
  }

  function Charged<S>(m: Machine<S>, cost: nat): (r: Option<Machine<S>>)
    requires m.Valid()
    ensures r.Some? ==> Spent(m, r.value) && r.value.engine == m.engine
  {
    if cost <= m.Ticks() then Some(m.WithTicks(m.Ticks() - cost)) else None
  }

  /** `private_symmetric_key_for`: nothing when the meter runs out. */
  function PrivateKey<S>(w: World<S>, m: Machine<S>, public: Noun,
                         branchedRight: bool): (r: (Option<Bytes>, Machine<S>))
    requires m.Valid()
    ensures Spent(m, r.1) && r.1.engine == m.engine
    decreases public
  {
    match public
    case Atom(xs) =>
      (match Charged(m, |xs|)
       case None => (None, m)
       case Some(m') => (Some(w.blake(xs, if branchedRight then w.secret(m.engine) else [], 32)), m'))
    case Cell(left, right) =>
      match Charged(m, 128)
      case None => (None, m)
      case Some(m1) =>
        match PrivateKey(w, m1, left, false)
        case (None, m2) => (None, m2)
        case (Some(leftHash), m2) =>
          match PrivateKey(w, m2, right, true)
          case (None, m3) => (None, m3)
          case (Some(rightHash), m3) => (Some(w.blake(leftHash + rightHash, [], 32)), m3)
  }

  /** What a private key costs: a tick for each byte, and 128 for each pair. */
  function PrivateKeyCost(public: Noun): nat {
    |Flatten(public)| + 128 * (Leaves(public) - 1)
  }

  /** A private key is found exactly when its cost can be paid, and then the cost is all that is spent. */
  lemma {:induction false} PrivateKeyPaid<S>(w: World<S>, m: Machine<S>, public: Noun, right: bool)
    requires m.Valid()
    ensures var (key, m') := PrivateKey(w, m, public, right);
            (key.Some? <==> PrivateKeyCost(public) <= m.Ticks()) &&
            (key.Some? ==> m' == m.WithTicks(m.Ticks() - PrivateKeyCost(public)))
    decreases public
  {
    if public.Cell? && Charged(m, 128).Some? {
      var m1 := Charged(m, 128).value;
      PrivateKeyPaid(w, m1, public.left, false);
      PrivateKeyPaid(w, PrivateKey(w, m1, public.left, false).1, public.right, true);
    }
  }

  /** The key found depends on the engine alone, not on who runs or on what is left. */
  lemma {:induction false} PrivateKeyOfEngine<S>(w: World<S>, m: Machine<S>, n: Machine<S>, public: Noun, right: bool)
    requires m.Valid() && n.Valid() && m.engine == n.engine
    requires PrivateKey(w, m, public, right).0.Some? && PrivateKey(w, n, public, right).0.Some?
    ensures PrivateKey(w, m, public, right).0 == PrivateKey(w, n, public, right).0
    decreases public
  {
    if public.Cell? {
      var m1, n1 := Charged(m, 128).value, Charged(n, 128).value;
      PrivateKeyOfEngine(w, m1, n1, public.left, false);
      PrivateKeyOfEngine(w, PrivateKey(w, m1, public.left, false).1, PrivateKey(w, n1, public.left, false).1,
                         public.right, true);
    }
  }

  /** Nothing inside `Ok` when the ciphertext is malformed or not authentic; an error only for lack of ticks. */
  function Decrypted<S>(w: World<S>, m: Machine<S>, key: Bytes, ciphertext: Bytes):
    (r: (Result<Option<Noun>, EvalError>, Machine<S>))
    requires m.Valid()
    ensures Spent(m, r.1) && r.1.engine == m.engine
  {
    var header := NONCE_LEN + TAG_LEN;
    if |ciphertext| < header then (Ok(None), m)
    else
      match Charged(m, |ciphertext|)
      case None => (Err(TickLimitExceeded), m)
      case Some(m') =>
        match w.open(key, ciphertext[..NONCE_LEN], ciphertext[header..], ciphertext[NONCE_LEN..header])
        case None => (Ok(None), m')
        case Some(plaintext) =>
          match Decode(plaintext)
          case Err(_) => (Ok(None), m')
          case Ok(n) => (Ok(Some(n)), m')
  }

  function Encrypted<S>(w: World<S>, m: Machine<S>, key: Bytes, plaintext: Noun): (r: (Outcome, Machine<S>))
    ensures r.1.balances == m.balances && r.1.executingAs == m.executingAs
  {
    match ToBytes(plaintext)
    case Err(e) => (Err(e), m)
    case Ok(buffer) =>
      var (nonce, engine) := w.random(m.engine, NONCE_LEN);
      var (ciphertext, tag) := w.seal(key, nonce, buffer);
      (Ok(Atom(nonce + tag + ciphertext)), m.(engine := engine))
  }

  /** Arithmetic on two atoms costs a tick for each byte of the longer. */
  function BinaryMath<S>(m: Machine<S>, v: Noun, f: (Bytes, Bytes) -> Noun): (r: (Outcome, Machine<S>))
    requires m.Valid()
    ensures Spent(m, r.1)
  {
    match v
    case Atom(_) => (Err(BadArgument), m)
    case Cell(lhs, rhs) =>
      match Charged(m, Max(AtomLen(lhs), AtomLen(rhs)))
      case None => (Err(TickLimitExceeded), m)
      case Some(m') =>
        if lhs.Atom? && rhs.Atom? then (Ok(f(lhs.bytes, rhs.bytes)), m') else (Err(NonAtomicMath), m')
  }

  function AddNouns(x: Bytes, y: Bytes): Noun {
    Atom(Arithmetic.AddBytes(x, y))
  }

  function XorNouns(x: Bytes, y: Bytes): Noun {
    Atom(Arithmetic.XorBytes(x, y))
  }

  function LessNouns(x: Bytes, y: Bytes): Noun {
    FromBool(BeValue(x) < BeValue(y))
  }

  function HashInput<S>(m: Machine<S>, v: Noun): (r: (Result<Bytes, EvalError>, Machine<S>))
    requires m.Valid()
    ensures Spent(m, r.1) && r.1.engine == m.engine
  {
    match ToBytes(v)
    case Err(e) => (Err(e), m)
    case Ok(buffer) =>
      match Charged(m, 20 + |buffer|)
      case None => (Err(TickLimitExceeded), m)
      case Some(m') => (Ok(buffer), m')
  }

  predicate IsKey(n: Noun) {
    n.Atom? && |n.bytes| == 32
  }

  function Compared<S>(m: Machine<S>, v: Noun): (r: (Outcome, Machine<S>))
    requires m.Valid()
    ensures Spent(m, r.1)
  {
    match v
    case Atom(_) => (Err(BadEqualsArgument), m)
    case Cell(lhs, rhs) =>
      match Equal.Compare(lhs, rhs, m.Ticks())
      case (None, count) => (Err(TickLimitExceeded), m.WithTicks(count))
      case (Some(equal), count) => (Ok(FromBool(equal)), m.WithTicks(count))
  }

  function Recut<S>(m: Machine<S>, v: Noun): (r: (Outcome, Machine<S>))
    requires m.Valid()
    ensures Spent(m, r.1)
  {
    match v
    case Atom(_) => (Err(BadArgument), m)
    case Cell(data, structure) =>
      match Shape.Reshaped(data, structure, m.Ticks(), RESHAPE_LIMIT)
      case (Err(_), count) => (Err(BadShape), m.WithTicks(count))
      case (Ok(n), count) => (Ok(n), m.WithTicks(count))
  }

  function ShapeOf<S>(m: Machine<S>, v: Noun): (r: (Outcome, Machine<S>))
    requires m.Valid()
    ensures Spent(m, r.1)
  {
    match Shape.Measured(v, m.Ticks())
    case (None, count) => (Err(TickLimitExceeded), m.WithTicks(count))
    case (Some(n), count) => (Ok(n), m.WithTicks(count))
  }

  function Inverted<S>(m: Machine<S>, v: Noun): (r: (Outcome, Machine<S>))
    requires m.Valid()
    ensures Spent(m, r.1)
  {
    match Charged(m, AtomLen(v))
    case None => (Err(TickLimitExceeded), m)
    case Some(m') => (if v.Atom? then Ok(Atom(Arithmetic.InvertBytes(v.bytes))) else Err(NonAtomicMath), m')
  }

  function Hashed<S>(w: World<S>, m: Machine<S>, v: Noun): (r: (Outcome, Machine<S>))
    requires m.Valid()
    ensures Spent(m, r.1)
  {
    match HashInput(m, v)
    case (Err(e), m') => (Err(e), m')
    case (Ok(buffer), m') => (Ok(Atom(w.blake(buffer, [], 64))), m')
  }

  function StoredByHash<S>(w: World<S>, m: Machine<S>, v: Noun): (r: (Outcome, Machine<S>))
    requires m.Valid()
    ensures Spent(m, r.1)
  {
    match HashInput(m, v)
    case (Err(e), m') => (Err(e), m')
    case (Ok(buffer), m') =>
      (Ok(FromBool(true)), m'.(engine := w.store(m'.engine, w.blake(buffer, [], 64) + [BY_HASH_TAG], buffer)))
  }

  function Drawn<S>(w: World<S>, m: Machine<S>, v: Noun): (r: (Outcome, Machine<S>))
    requires m.Valid()
    ensures Spent(m, r.1)
  {
    match AsU64(v)
    case None => (Err(InvalidLength), m)
    case Some(length) =>
      if length > RANDOM_LIMIT then (Err(InvalidLength), m)
      else (Ok(Atom(w.random(m.engine, length).0)), m.(engine := w.random(m.engine, length).1))
  }

  function Keypair<S>(w: World<S>, m: Machine<S>, v: Noun): (r: (Outcome, Machine<S>))
    requires m.Valid()
    ensures Spent(m, r.1)
  {
    var public := Cell(v, Atom(w.random(m.engine, 32).0));
    match PrivateKey(w, m.(engine := w.random(m.engine, 32).1), public, false)
    case (None, m') => (Err(TickLimitExceeded), m')
    case (Some(private), m') => (Ok(Cell(Atom(private), public)), m')
  }

  function Opened<S>(w: World<S>, m: Machine<S>, v: Noun): (r: (Outcome, Machine<S>))
    requires m.Valid()
    ensures Spent(m, r.1)
  {
    if v.Atom? || !IsKey(v.left) || v.right.Cell? then (Err(BadArgument), m)
    else
      match Decrypted(w, m, v.left.bytes, v.right.bytes)
      case (Err(e), m') => (Err(e), m')
      case (Ok(None), m') => (Ok(FromBool(false)), m')
      case (Ok(Some(plaintext)), m') => (Ok(Cell(FromBool(true), plaintext)), m')
  }

  function Sent<S>(w: World<S>, m: Machine<S>, v: Noun): (r: (Outcome, Machine<S>))
    requires m.Valid()
    ensures Spent(m, r.1)
  {
    if v.Atom? || !IsKey(v.left) then (Err(BadArgument), m)
    else
      match ToBytes(v.right)
      case Err(e) => (Err(e), m)
      case Ok(message) => (Ok(FromU8(0)), m.(engine := w.send(m.engine, v.left.bytes, message)))
  }

  /** The strict opcodes, given the value of their argument. */
  function Primitive<S>(w: World<S>, m: Machine<S>, op: nat, v: Noun): (r: (Outcome, Machine<S>))
    requires m.Valid() && IsStrict(op)
    ensures Spent(m, r.1)
  {
    if op == IS_CELL then (Ok(FromBool(v.Cell?)), m)
    else if op == IS_EQUAL then Compared(m, v)
    else if op == HASH then Hashed(w, m, v)
    else if op == STORE_BY_HASH then StoredByHash(w, m, v)
    else if op == STORE_BY_KEY then StoreByKey(w, m, v)
    else if op == RANDOM then Drawn(w, m, v)
    else if op == RESHAPE then Recut(m, v)
    else if op == SHAPE then ShapeOf(m, v)
    else if op == ADD then BinaryMath(m, v, AddNouns)
    else if op == LESS then BinaryMath(m, v, LessNouns)
    else if op == XOR then BinaryMath(m, v, XorNouns)
    else if op == INVERT then Inverted(m, v)
    else if op == GENERATE_KEYPAIR then Keypair(w, m, v)
    else if op == DECRYPT then Opened(w, m, v)
    else if op == ENCRYPT then
      if v.Atom? || !IsKey(v.left) then (Err(BadArgument), m) else Encrypted(w, m, v.left.bytes, v.right)
    else Sent(w, m, v)
  }

  function StoreByKey<S>(w: World<S>, m: Machine<S>, v: Noun): (r: (Outcome, Machine<S>))
    requires m.Valid()
    ensures Spent(m, r.1)
  {
    match v
    case Atom(_) => (Err(BadArgument), m)
    case Cell(key, value) =>
      match (ToBytes(key), ToBytes(value))
      case (Err(e), _) => (Err(e), m)
      case (_, Err(e)) => (Err(e), m)
      case (Ok(storageKey), Ok(storageValue)) =>
        (Ok(FromBool(true)), m.(engine := w.store(m.engine, storageKey + [BY_KEY_TAG], storageValue)))
  }

  /** `switch_to_runner`: a runner met for the first time starts with what the engine grants it. */
  function Switched<S>(w: World<S>, m: Machine<S>, runner: Key): Machine<S> {
    m.(executingAs := runner,
       balances := if runner in m.balances then m.balances else m.balances[runner := w.grant(m.engine, runner)])
  }

  /** `EXUCRYPT`'s decryption: the program to run, or nothing when the request is not authentic. */
  function Unsealed<S>(w: World<S>, m: Machine<S>, v: Noun): (r: (Result<Option<Noun>, EvalError>, Bytes, Machine<S>))
    requires m.Valid()
    ensures Spent(m, r.2)
  {
    match v
    case Atom(_) => (Err(BadArgument), [], m)
    case Cell(publicKey, request) =>
      match PrivateKey(w, m, publicKey, false)
      case (None, m1) => (Err(TickLimitExceeded), [], m1)
      case (Some(private), m1) =>
        if request.Cell? then (Err(BadArgument), [], m1)
        else
          var (program, m2) := Decrypted(w, m1, private, request.bytes);
          (program, private, m2)
  }

  datatype Delegation = Delegation(subject: Noun, runner: Key, body: Noun)

  /** Everything `EXECUTE_AS` does before it switches runners. */
  function Delegated<S>(w: World<S>, m: Machine<S>, v: Noun): (r: (Result<Delegation, EvalError>, Machine<S>))
    requires m.Valid()
    ensures Spent(m, r.1)
  {
    if v.Atom? || v.right.Atom? || !IsKey(v.right.left) || v.right.right.Atom? || v.right.right.right.Cell? then
      (Err(BadArgument), m)
    else
      var runner, counter, ciphertext := v.right.left.bytes, v.right.right.left, v.right.right.right.bytes;
      if counter.Cell? then (Err(BadArgument), m)
      else if |counter.bytes| != 8 then (Err(BadExecuteAsCounter), m)
      else
        match PrivateKey(w, m, v.right.left, false)
        case (None, m1) => (Err(TickLimitExceeded), m1)
        case (Some(private), m1) =>
          match Decrypted(w, m1, private, ciphertext)
          case (Err(e), m2) => (Err(e), m2)
          case (Ok(None), m2) => (Err(BadExecuteAsBody), m2)
          case (Ok(Some(body)), m2) =>
            var (fresh', engine) := w.consumeCounter(m2.engine, counter.bytes, runner);
            var m3 := m2.(engine := engine);
            (if fresh' then Ok(Delegation(v.left, runner, body)) else Err(BadExecuteAsCounter), m3)
  }

  ghost function BytesBelow(n: nat): set<Byte>
    requires n <= 256
    ensures forall b: Byte :: b in BytesBelow(n) <==> b < n
  {
    if n == 0 then {} else BytesBelow(n - 1) + {n - 1}
  }

  /** Every key of a length; there are finitely many. */
  ghost function AllKeys(len: nat): set<Bytes> {
    if len == 0 then {[]} else set b, tail | b in BytesBelow(256) && tail in AllKeys(len - 1) :: [b] + tail
  }

  lemma {:induction false} InAllKeys(k: Bytes)
    ensures k in AllKeys(|k|)
  {
    if k != [] {
      InAllKeys(k[1..]);
      assert k[0] in BytesBelow(256);
      assert k == [k[0]] + k[1..];
    }
  }

  ghost function Total(balances: map<Key, nat>): nat
    decreases |balances|
  {
    if balances == map[] then 0
    else
      var k :| k in balances;
      balances[k] + Total(balances - {k})
  }

  lemma {:induction false} TotalTake(balances: map<Key, nat>, k: Key)
    requires k in balances
    ensures Total(balances) == balances[k] + Total(balances - {k})
    decreases |balances|
  {
    var j :| j in balances && Total(balances) == balances[j] + Total(balances - {j});
    if j != k {
      TotalTake(balances - {j}, k);
      TotalTake(balances - {k}, j);
      assert balances - {j} - {k} == balances - {k} - {j};
    }
  }

  lemma {:induction false} TotalMonotone(a: map<Key, nat>, b: map<Key, nat>)
    requires a.Keys == b.Keys
    requires forall k :: k in a ==> a[k] <= b[k]
    ensures Total(a) <= Total(b)
    decreases |a|
  {
    if a != map[] {
      var k :| k in a;
      TotalTake(a, k);
      TotalTake(b, k);
      TotalMonotone(a - {k}, b - {k});
    } else {
      assert b == map[];
    }
  }

  /** Runners not met yet. */
  ghost function Unmet<S>(m: Machine<S>): set<Bytes> {
    AllKeys(32) - m.balances.Keys
  }

  /** A later machine is smaller: it has met a new runner, or met none and lost ticks. */
  ghost predicate Descends<S>(m': Machine<S>, m: Machine<S>) {
    Unmet(m') < Unmet(m) || (Unmet(m') == Unmet(m) && Total(m'.balances) < Total(m.balances))
  }

  ghost predicate AtMost<S>(m': Machine<S>, m: Machine<S>) {
    Descends(m', m) || (Unmet(m') == Unmet(m) && Total(m'.balances) == Total(m.balances))
  }

  lemma SettledAtMost<S>(m: Machine<S>, m': Machine<S>)
    requires Settled(m, m')
    ensures AtMost(m', m)
  {
    if m'.balances.Keys == m.balances.Keys {
      TotalMonotone(m'.balances, m.balances);
    } else {
      var k :| k in m'.balances && k !in m.balances;
      InAllKeys(k);
      assert k in Unmet(m) && k !in Unmet(m');
    }
  }

  /** What is settled can go on: the runner's account is still there, and so is every other. */
  lemma SettledStays<S>(m: Machine<S>, m': Machine<S>, k: Key)
    requires m.Valid() && Settled(m, m') && k in m.balances
    ensures m'.Valid() && k in m'.balances
  {
  }

  lemma PaidDescends<S>(m: Machine<S>)
    requires m.Valid() && m.Ticks() > 0
    ensures Descends(m.WithTicks(m.Ticks() - 1), m)
  {
    var k := m.executingAs;
    var m' := m.WithTicks(m.Ticks() - 1);
    TotalTake(m.balances, k);
    TotalTake(m'.balances, k);
    assert m.balances - {k} == m'.balances - {k};
  }

  lemma SwitchedAtMost<S>(w: World<S>, m: Machine<S>, m': Machine<S>, runner: Key)
    requires Settled(m, m')
    ensures AtMost(Switched(w, m', runner), m)
  {
    SettledAtMost(m, m');
    if runner !in m'.balances {
      InAllKeys(runner);
      assert runner in Unmet(m');
    }
  }

  lemma SpentSettled<S>(m: Machine<S>, m1: Machine<S>, m2: Machine<S>)
    requires m.Valid() && Settled(m, m1) && m1.Valid() && Spent(m1, m2)
    ensures Settled(m, m2)
  {
  }

  lemma DelegateSettled<S>(w: World<S>, m: Machine<S>, runner: Key, m': Machine<S>)
    requires m.Valid() && Settled(Switched(w, m, runner), m')
    ensures Settled(m, Switched(w, m', m.executingAs))
  {
  }

  type Step<S> = (Outcome, Machine<S>)

  /** Evaluating a formula. The measure shows that evaluation ends for every noun and every engine. */
  function Eval<S>(w: World<S>, m: Machine<S>, subject: Noun, formula: Noun): (r: Step<S>)
    requires m.Valid()
    ensures Settled(m, r.1)
    decreases Unmet(m), Total(m.balances), 0
  {
    if m.Ticks() == 0 then (Err(TickLimitExceeded), m)
    else
      PaidDescends(m);
      Dispatch(w, m.WithTicks(m.Ticks() - 1), subject, formula)
  }

  /** What a formula does once its tick is paid. */
  function Dispatch<S>(w: World<S>, m: Machine<S>, subject: Noun, formula: Noun): (r: Step<S>)
    requires m.Valid()
    ensures Settled(m, r.1)
    decreases Unmet(m), Total(m.balances), 3
  {
    match formula
    case Atom(_) => (Err(AtomicFormula), m)
    case Cell(head, argument) =>
      if head.Cell? then EvalBoth(w, m, subject, head, argument)
      else
        match AsU8(head)
        case None => (Err(NotAnOpcode), m)
        case Some(op) =>
          if op == AXIS then (FromAxis(Axis.AxisResult(argument, subject)), m)
          else if op == LITERAL then (Ok(argument), m)
          else if IsStrict(op) then EvalStrict(w, m, subject, op, argument)
          else if op == RECURSE then EvalRecurse(w, m, subject, argument)
          else if op == IF then EvalIf(w, m, subject, argument)
          else if op == COMPOSE || op == DEFINE || op == CALL then EvalChained(w, m, subject, op, argument)
          else if op == RETRIEVE_BY_HASH || op == RETRIEVE_BY_KEY then EvalRetrieve(w, m, subject, op, argument)
          else if op == EXUCRYPT then EvalExucrypt(w, m, subject, argument)
          else if op == EXECUTE_AS then EvalExecuteAs(w, m, subject, argument)
          else (Err(BadOpcode(op)), m)
  }

  /** Distribute: the opcode and the argument are both formulas. */
  function EvalBoth<S>(w: World<S>, m: Machine<S>, subject: Noun, left: Noun, right: Noun): (r: Step<S>)
    requires m.Valid()
    ensures Settled(m, r.1)
    decreases Unmet(m), Total(m.balances), 1
  {
    match Eval(w, m, subject, left)
    case (Err(e), m1) => (Err(e), m1)
    case (Ok(lhs), m1) =>
      SettledAtMost(m, m1);
      match Eval(w, m1, subject, right)
      case (Err(e), m2) => (Err(e), m2)
      case (Ok(rhs), m2) => (Ok(Cell(lhs, rhs)), m2)
  }

  function EvalStrict<S>(w: World<S>, m: Machine<S>, subject: Noun, op: nat, argument: Noun): (r: Step<S>)
    requires m.Valid() && IsStrict(op)
    ensures Settled(m, r.1)
    decreases Unmet(m), Total(m.balances), 1
  {
    match Eval(w, m, subject, argument)
    case (Err(e), m1) => (Err(e), m1)
    case (Ok(v), m1) =>
      var r := Primitive(w, m1, op, v);
      SpentSettled(m, m1, r.1);
      r
  }

  function EvalRecurse<S>(w: World<S>, m: Machine<S>, subject: Noun, argument: Noun): (r: Step<S>)
    requires m.Valid()
    ensures Settled(m, r.1)
    decreases Unmet(m), Total(m.balances), 1
  {
    match argument
    case Atom(_) => (Err(BadRecurseArgument), m)
    case Cell(b, c) =>
      match Eval(w, m, subject, b)
      case (Err(e), m1) => (Err(e), m1)
      case (Ok(newSubject), m1) =>
        SettledAtMost(m, m1);
        match Eval(w, m1, subject, c)
        case (Err(e), m2) => (Err(e), m2)
        case (Ok(newFormula), m2) =>
          SettledAtMost(m, m2);
          Eval(w, m2, newSubject, newFormula)
  }

  /** A condition is a number, 1 to take the first branch and 0 to take the second. */
  function Branch(condition: Noun, c: Noun, d: Noun): Option<Noun> {
    if AsU8(condition) == Some(1) then Some(c) else if AsU8(condition) == Some(0) then Some(d) else None
  }

  function EvalIf<S>(w: World<S>, m: Machine<S>, subject: Noun, argument: Noun): (r: Step<S>)
    requires m.Valid()
    ensures Settled(m, r.1)
    decreases Unmet(m), Total(m.balances), 1
  {
    match argument
    case Cell(b, Cell(c, d)) =>
      (match Eval(w, m, subject, b)
       case (Err(e), m1) => (Err(e), m1)
       case (Ok(condition), m1) =>
         SettledAtMost(m, m1);
         match Branch(condition, c, d)
         case None => (Err(BadIfCondition), m1)
         case Some(branch) => Eval(w, m1, subject, branch))
    case _ => (Err(BadArgument), m)
  }

  /** The formula and subject that `COMPOSE`, `DEFINE` and `CALL` go on with, given the value they computed first. */
  function Continuation(op: nat, subject: Noun, argument: Noun, v: Noun): Result<(Noun, Noun), EvalError>
    requires argument.Cell?
  {
    if op == COMPOSE then Ok((v, argument.right))
    else if op == DEFINE then Ok((Cell(v, subject), argument.right))
    else
      match FromAxis(Axis.AxisResult(argument.left, v))
      case Err(e) => Err(e)
      case Ok(inner) => Ok((v, inner))
  }

  function EvalChained<S>(w: World<S>, m: Machine<S>, subject: Noun, op: nat, argument: Noun): (r: Step<S>)
    requires m.Valid()
    ensures Settled(m, r.1)
    decreases Unmet(m), Total(m.balances), 1
  {
    match argument
    case Atom(_) => (Err(BadArgument), m)
    case Cell(b, c) =>
      match Eval(w, m, subject, if op == CALL then c else b)
      case (Err(e), m1) => (Err(e), m1)
      case (Ok(v), m1) =>
        SettledAtMost(m, m1);
        match Continuation(op, subject, argument, v)
        case Err(e) => (Err(e), m1)
        case Ok((newSubject, newFormula)) => Eval(w, m1, newSubject, newFormula)
  }

  /** The key under which `RETRIEVE_BY_HASH` and `RETRIEVE_BY_KEY` look; a cell is never a hash. */
  function KeyToLoad(op: nat, v: Noun): Result<Option<Bytes>, EvalError> {
    if op == RETRIEVE_BY_HASH then Ok(if v.Cell? then None else Some(v.bytes + [BY_HASH_TAG]))
    else
      match ToBytes(v)
      case Err(e) => Err(e)
      case Ok(key) => Ok(Some(key + [BY_KEY_TAG]))
  }

  /** Find a stored noun: nothing inside `Ok` when there is nothing under the key. */
  function Retrieved<S>(w: World<S>, m: Machine<S>, op: nat,
                        v: Noun): (r: (Result<Option<Noun>, EvalError>, Machine<S>))
    requires m.Valid()
    ensures Spent(m, r.1)
  {
    match KeyToLoad(op, v)
    case Err(e) => (Err(e), m)
    case Ok(None) => (Ok(None), m)
    case Ok(Some(key)) =>
      (Parsed(w.load(m.engine, key).0), m.(engine := w.load(m.engine, key).1))
  }

  function Parsed(stored: Option<Bytes>): Result<Option<Noun>, EvalError> {
    match stored
    case None => Ok(None)
    case Some(bs) =>
      match Decode(bs)
      case Err(_) => Err(StorageCorrupt)
      case Ok(n) => Ok(Some(n))
  }

  function EvalRetrieve<S>(w: World<S>, m: Machine<S>, subject: Noun, op: nat, argument: Noun): (r: Step<S>)
    requires m.Valid()
    ensures Settled(m, r.1)
    decreases Unmet(m), Total(m.balances), 1
  {
    match Eval(w, m, subject, argument)
    case (Err(e), m1) => (Err(e), m1)
    case (Ok(v), m1) =>
      match Retrieved(w, m1, op, v)
      case (Err(e), m2) => (Err(e), m2)
      case (Ok(None), m2) => (Ok(FromBool(false)), m2)
      case (Ok(Some(program)), m2) =>
        SpentSettled(m, m1, m2);
        SettledAtMost(m, m2);
        match Eval(w, m2, subject, program)
        case (Err(e), m3) => (Err(e), m3)
        case (Ok(result), m3) => (Ok(Cell(FromBool(true), result)), m3)
  }

  /** Run a decrypted program and encrypt what it gives. */
  function EvalSealed<S>(w: World<S>, m: Machine<S>, subject: Noun, formula: Noun, key: Bytes): (r: Step<S>)
    requires m.Valid()
    ensures Settled(m, r.1)
    decreases Unmet(m), Total(m.balances), 1
  {
    match Eval(w, m, subject, formula)
    case (Err(e), m1) => (Err(e), m1)
    case (Ok(result), m1) =>
      match Encrypted(w, m1, key, result)
      case (Err(e), m2) => (Err(e), m2)
      case (Ok(sealed), m2) => (Ok(Cell(FromBool(true), sealed)), m2)
  }

  function EvalExucrypt<S>(w: World<S>, m: Machine<S>, subject: Noun, argument: Noun): (r: Step<S>)
    requires m.Valid()
    ensures Settled(m, r.1)
    decreases Unmet(m), Total(m.balances), 2
  {
    match Eval(w, m, subject, argument)
    case (Err(e), m1) => (Err(e), m1)
    case (Ok(v), m1) =>
      match Unsealed(w, m1, v)
      case (Err(e), _, m2) => (Err(e), m2)
      case (Ok(None), _, m2) => (Ok(FromBool(false)), m2)
      case (Ok(Some(formula)), key, m2) =>
        SpentSettled(m, m1, m2);
        SettledAtMost(m, m2);
        EvalSealed(w, m2, subject, formula, key)
  }

  /** Evaluate on another runner's account, and come back whatever happens. */
  function EvalExecuteAs<S>(w: World<S>, m: Machine<S>, subject: Noun, argument: Noun): (r: Step<S>)
    requires m.Valid()
    ensures Settled(m, r.1)
    decreases Unmet(m), Total(m.balances), 1
  {
    match Eval(w, m, subject, argument)
    case (Err(e), m1) => (Err(e), m1)
    case (Ok(v), m1) =>
      match Delegated(w, m1, v)
      case (Err(e), m2) => (Err(e), m2)
      case (Ok(Delegation(newSubject, runner, body)), m2) =>
        SpentSettled(m, m1, m2);
        SwitchedAtMost(w, m, m2, runner);
        match Eval(w, Switched(w, m2, runner), newSubject, body)
        case (result, m3) =>
          DelegateSettled(w, m2, runner, m3);
          (result, Switched(w, m3, m2.executingAs))
  }

  /** `eval`: a program is a subject and a formula, run by nobody in particular with the ticks it is given. */
  function EvalProgram<S>(w: World<S>, engine: S, expression: Noun, tickLimit: nat): (Outcome, S) {
    match expression
    case Atom(_) => (Err(EvalOnAtom), engine)
    case Cell(subject, formula) =>
      var (outcome, m) := Eval(w, Machine(NOBODY, map[NOBODY := tickLimit], engine), subject, formula);
      (outcome, m.engine)
  }
}
