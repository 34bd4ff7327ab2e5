/**
 * Programs that come sealed: what `EXUCRYPT` and `EXECUTE_AS` do with them, from key generation to the sealed answer.
 */
module Requests {
  import opened Basics
  import opened Nouns
  import opened Evaluation
  import opened Operations
  import opened Rules
  import opened Storage
  import Deserialize

  /**
   * What is sealed opens under the same key and nonce, and the engine gives as many random bytes as it is asked for.
   */
  ghost predicate Opens<S(!new)>(w: World<S>) {
    && (forall key, nonce, plaintext {:trigger w.seal(key, nonce, plaintext)} ::
          var (ciphertext, tag) := w.seal(key, nonce, plaintext);
          |tag| == 16 && w.open(key, nonce, ciphertext, tag) == Some(plaintext))
    && (forall s, n {:trigger w.random(s, n)} :: |w.random(s, n).0| == n)
  }

  /** A sealed noun is unlocked by its key. */
  lemma SealedUnlocks<S(!new)>(w: World<S>, key: Bytes, n: Noun, s: S)
    requires Opens(w) && Returns(n)
    ensures Sealed(w, key, Stored(n).value, s).value.Atom?
    ensures |Sealed(w, key, Stored(n).value, s).value.bytes| >= 24
    ensures Unlocked(w, key, Sealed(w, key, Stored(n).value, s).value.bytes) == Cell(Atom([1]), n)
  {
    hide Stored, Deserialize.Decode;
    var nonce := w.random(s, 8).0;
    var (ciphertext, tag) := w.seal(key, nonce, Stored(n).value);
    var bytes := nonce + tag + ciphertext;
    assert |nonce| == 8;
    assert bytes[..8] == nonce && bytes[8..24] == tag && bytes[24..] == ciphertext;
  }

  /** The ticks that unlocking takes once the key is known. */
  function UnlockCost(ciphertext: Bytes): nat {
    if |ciphertext| < 24 then 0 else |ciphertext|
  }

  /** Decrypting is unlocking, for a tick for each byte. */
  lemma DecryptedIs<S>(w: World<S>, m: Machine<S>, key: Bytes, ciphertext: Bytes)
    requires m.Valid() && UnlockCost(ciphertext) <= m.Ticks()
    ensures var (r, m') := Decrypted(w, m, key, ciphertext);
            m' == After(m, UnlockCost(ciphertext), m.engine) &&
            (if Unlocked(w, key, ciphertext).Cell?
             then r == Ok(Some(Unlocked(w, key, ciphertext).right)) && Unlocked(w, key, ciphertext).left == Atom([1])
             else r == Ok(None) && Unlocked(w, key, ciphertext) == Atom([0]))
  {
    hide Deserialize.Decode;
    Untouched(m, m.engine);
  }

  /** Finding a key and unlocking with it. */
  lemma KeyThenDecrypted<S>(w: World<S>, m: Machine<S>, public: Noun, ciphertext: Bytes)
    requires m.Valid() && PrivateKeyCost(public) + UnlockCost(ciphertext) <= m.Ticks()
    ensures var key := PrivateOf(w.blake, w.secret(m.engine), public, false);
            var m1 := After(m, PrivateKeyCost(public), m.engine);
            PrivateKey(w, m, public, false) == (Some(key), m1) &&
            Decrypted(w, m1, key, ciphertext).1 ==
              After(m, PrivateKeyCost(public) + UnlockCost(ciphertext), m.engine) &&
            Decrypted(w, m1, key, ciphertext).0 ==
              Ok(if Unlocked(w, key, ciphertext).Cell? then Some(Unlocked(w, key, ciphertext).right) else None)
  {
    hide PrivateKey, PrivateKeyCost, PrivateOf, Decrypted, Unlocked;
    PrivateKeyPaid(w, m, public, false);
    PrivateKeyIs(w, m, public, false);
    var key := PrivateOf(w.blake, w.secret(m.engine), public, false);
    assert m.WithTicks(m.Ticks() - PrivateKeyCost(public)) == After(m, PrivateKeyCost(public), m.engine);
    DecryptedIs(w, After(m, PrivateKeyCost(public), m.engine), key, ciphertext);
    AfterAfter(m, PrivateKeyCost(public), m.engine, UnlockCost(ciphertext), m.engine);
  }

  lemma DispatchRequest<S>(w: World<S>, m: Machine<S>, subject: Noun, f: Noun)
    requires m.Valid()
    ensures Dispatch(w, m, subject, Cell(Atom([19]), f)) == EvalExucrypt(w, m, subject, f)
    ensures Dispatch(w, m, subject, Cell(Atom([26]), f)) == EvalExecuteAs(w, m, subject, f)
  {
    hide EvalBoth, EvalStrict, EvalIf, EvalRecurse, EvalChained, EvalRetrieve, EvalExucrypt, EvalExecuteAs;
    OpcodeRead(19);
    OpcodeRead(26);
  }

  /** What a sealed program's answer is: a one and its value sealed again under the key. */
  function SealedAnswer<S>(w: World<S>, m: Machine<S>, subject: Noun, program: Noun, key: Bytes): Step<S>
    requires m.Valid()
  {
    match Eval(w, m, subject, program)
    case (Err(e), m1) => (Err(e), m1)
    case (Ok(x), m1) =>
      match ToBytes(x)
      case Err(e) => (Err(e), m1)
      case Ok(bytes) =>
        var sealed := Sealed(w, key, bytes, m1.engine);
        (Ok(Cell(Atom([1]), sealed.value)), m1.(engine := sealed.engine))
  }

  /** What a sealed request is opened to. */
  lemma UnsealedIs<S>(w: World<S>, m: Machine<S>, public: Noun, ciphertext: Bytes)
    requires m.Valid() && PrivateKeyCost(public) + UnlockCost(ciphertext) <= m.Ticks()
    ensures var key := PrivateOf(w.blake, w.secret(m.engine), public, false);
            Unsealed(w, m, Cell(public, Atom(ciphertext))) ==
              (Ok(if Unlocked(w, key, ciphertext).Cell? then Some(Unlocked(w, key, ciphertext).right) else None), key,
               After(m, PrivateKeyCost(public) + UnlockCost(ciphertext), m.engine))
  {
    hide PrivateKey, Decrypted, PrivateKeyCost, Unlocked, PrivateOf, UnlockCost;
    KeyThenDecrypted(w, m, public, ciphertext);
  }

  lemma SealedAnswerIs<S>(w: World<S>, m: Machine<S>, subject: Noun, program: Noun, key: Bytes)
    requires m.Valid()
    ensures EvalSealed(w, m, subject, program, key) == SealedAnswer(w, m, subject, program, key)
  {
    hide Eval, ToBytes;
  }

  /** Instruction 19 finds the private key of a public one, and runs what it unlocks on the subject. */
  lemma RunsSealed<S>(w: World<S>, m: Machine<S>, subject: Noun, f: Noun, public: Noun, ciphertext: Bytes)
    requires m.Valid() && m.Ticks() > 0 && Eval(w, Ticked(m), subject, f).0 == Ok(Cell(public, Atom(ciphertext)))
    requires var m1 := Eval(w, Ticked(m), subject, f).1;
             m1.Valid() && PrivateKeyCost(public) + UnlockCost(ciphertext) <= m1.Ticks()
    ensures var m1 := Eval(w, Ticked(m), subject, f).1;
            var m2 := After(m1, PrivateKeyCost(public) + UnlockCost(ciphertext), m1.engine);
            var key := PrivateOf(w.blake, w.secret(m1.engine), public, false);
            Eval(w, m, subject, Cell(Atom([19]), f)) ==
              if Unlocked(w, key, ciphertext).Cell?
              then SealedAnswer(w, m2, subject, Unlocked(w, key, ciphertext).right, key)
              else (Ok(Atom([0])), m2)
  {
    var m1 := Eval(w, Ticked(m), subject, f).1;
    hide Eval, Dispatch, Unsealed, PrivateKeyCost, UnlockCost, Unlocked, PrivateOf, EvalSealed, SealedAnswer;
    EvalUnfolds(w, m, subject, Cell(Atom([19]), f));
    DispatchRequest(w, Ticked(m), subject, f);
    UnsealedIs(w, m1, public, ciphertext);
    var key := PrivateOf(w.blake, w.secret(m1.engine), public, false);
    if Unlocked(w, key, ciphertext).Cell? {
      SealedAnswerIs(w, After(m1, PrivateKeyCost(public) + UnlockCost(ciphertext), m1.engine), subject,
                     Unlocked(w, key, ciphertext).right, key);
    }
  }

  /** What a delegation is opened to, and that its counter is then used up. */
  lemma DelegatedIs<S>(w: World<S>, m: Machine<S>, subject: Noun, runner: Key, counter: Bytes, ciphertext: Bytes)
    requires m.Valid() && |counter| == 8 && 32 + UnlockCost(ciphertext) <= m.Ticks()
    ensures var key := w.blake(runner, [], 32);
            var (fresh', s') := w.consumeCounter(m.engine, counter, runner);
            var v := Cell(subject, Cell(Atom(runner), Cell(Atom(counter), Atom(ciphertext))));
            Delegated(w, m, v) ==
              if !Unlocked(w, key, ciphertext).Cell?
              then (Err(BadExecuteAsBody), After(m, 32 + UnlockCost(ciphertext), m.engine))
              else
                (if fresh' then Ok(Delegation(subject, runner, Unlocked(w, key, ciphertext).right))
                 else Err(BadExecuteAsCounter),
                 After(m, 32 + UnlockCost(ciphertext), s'))
  {
    hide PrivateKey, Decrypted, Unlocked, UnlockCost;
    KeyThenDecrypted(w, m, Atom(runner), ciphertext);
  }

  /** The machine that a runner's program runs on: the runner's account, or a new one with what the engine grants. */
  function RunBy<S>(w: World<S>, m: Machine<S>, runner: Key): (r: Machine<S>)
    requires m.Valid()
    ensures r.Valid() && r.executingAs == runner
  {
    Machine(runner, if runner in m.balances then m.balances
            else m.balances[runner := w.grant(m.engine, runner)], m.engine)
  }

  /** Instruction 26 runs what a runner sealed, once for each counter, on the runner's account. */
  lemma RunsAs<S>(w: World<S>, m: Machine<S>, subject: Noun, f: Noun, subject': Noun, runner: Key, counter: Bytes,
                  ciphertext: Bytes)
    requires m.Valid() && m.Ticks() > 0 && |counter| == 8
    requires Eval(w, Ticked(m), subject, f).0 ==
             Ok(Cell(subject', Cell(Atom(runner), Cell(Atom(counter), Atom(ciphertext)))))
    requires var m1 := Eval(w, Ticked(m), subject, f).1;
             m1.Valid() && 32 + UnlockCost(ciphertext) <= m1.Ticks()
    ensures var m1 := Eval(w, Ticked(m), subject, f).1;
            var key := w.blake(runner, [], 32);
            var (fresh', s') := w.consumeCounter(m1.engine, counter, runner);
            var m2 := After(m1, 32 + UnlockCost(ciphertext), if Unlocked(w, key, ciphertext).Cell? then s'
                            else m1.engine);
            Eval(w, m, subject, Cell(Atom([26]), f)) ==
              if !Unlocked(w, key, ciphertext).Cell? then (Err(BadExecuteAsBody), m2)
              else if !fresh' then (Err(BadExecuteAsCounter), m2)
              else
                var (r, m3) := Eval(w, RunBy(w, m2, runner), subject', Unlocked(w, key, ciphertext).right);
                (r, m3.(executingAs := m1.executingAs))
  {
    var m1 := Eval(w, Ticked(m), subject, f).1;
    hide Eval, Dispatch, Delegated, Unlocked, UnlockCost;
    EvalUnfolds(w, m, subject, Cell(Atom([26]), f));
    DispatchRequest(w, Ticked(m), subject, f);
    DelegatedIs(w, m1, subject', runner, counter, ciphertext);
  }

  /**
   * A request from end to end. Whoever holds the private half of a generated key pair seals a program; the public half
   * and the sealed program then give a one and a sealed answer, which the private half opens to what the program
   * gives.
   */
  lemma RequestAnswered<S(!new)>(w: World<S>, seed: Noun, s: S, program: Noun, s': S, m: Machine<S>, subject: Noun,
                                 f: Noun)
    requires Opens(w) && Returns(program)
    requires var pair := KeyPair(w, seed, s);
             var ciphertext := Sealed(w, pair.value.left.bytes, Stored(program).value, s').value.bytes;
             m.Valid() && m.Ticks() > 0 &&
             Eval(w, Ticked(m), subject, f).0 == Ok(Cell(pair.value.right, Atom(ciphertext))) &&
             var m1 := Eval(w, Ticked(m), subject, f).1;
             m1.Valid() && w.secret(m1.engine) == w.secret(pair.engine) &&
             PrivateKeyCost(pair.value.right) + |ciphertext| <= m1.Ticks()
    ensures var pair := KeyPair(w, seed, s);
            var private := pair.value.left.bytes;
            var ciphertext := Sealed(w, private, Stored(program).value, s').value.bytes;
            var m1 := Eval(w, Ticked(m), subject, f).1;
            var m2 := After(m1, PrivateKeyCost(pair.value.right) + |ciphertext|, m1.engine);
            var (x, m3) := Eval(w, m2, subject, program);
            var (answer, m') := Eval(w, m, subject, Cell(Atom([19]), f));
            (x.Err? ==> (answer, m') == (x, m3)) &&
            (x.Ok? && Returns(x.value) ==>
              answer.Ok? && answer.value.Cell? && answer.value.left == Atom([1]) && answer.value.right.Atom? &&
              Unlocked(w, private, answer.value.right.bytes) == Cell(Atom([1]), x.value))
  {
    hide Eval, Stored, Unlocked, Returns, PrivateKeyCost, Sealed, PrivateOf, Opens, ToBytes;
    var pair := KeyPair(w, seed, s);
    var private := pair.value.left.bytes;
    SealedUnlocks(w, private, program, s');
    ReturnsStored(program);
    var ciphertext := Sealed(w, private, Stored(program).value, s').value.bytes;
    RunsSealed(w, m, subject, f, pair.value.right, ciphertext);
    var m1 := Eval(w, Ticked(m), subject, f).1;
    var m2 := After(m1, PrivateKeyCost(pair.value.right) + |ciphertext|, m1.engine);
    var (x, m3) := Eval(w, m2, subject, program);
    if x.Ok? && Returns(x.value) {
      ReturnsStored(x.value);
      StoredIsToBytes(x.value);
      SealedUnlocks(w, private, x.value, m3.engine);
    }
  }

  lemma ReturnsStored(v: Noun)
    requires Returns(v)
    ensures Stored(v).Some?
  {
  }
}
