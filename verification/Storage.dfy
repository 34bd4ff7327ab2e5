/**
 * What is stored is what is retrieved. The storage of an engine is only assumed to remember, under each key, what was
 * put there last. Nouns stored by key and by hash are then two stores apart from each other: one that is overwritten
 * key by key, and one in which whatever was stored stays, through any evaluation.
 */
module Storage {
  import opened Basics
  import opened Nouns
  import opened Evaluation
  import opened Operations
  import opened Rules
  import opened Ledger
  import Serialize
  import Deserialize
  import Codec
  import Axis

  /** Storage remembers what was put there last, and nothing else the engine does changes it. */
  ghost predicate Remembers<S(!new)>(w: World<S>) {
    && (forall s, k, v, k' {:trigger w.load(w.store(s, k, v), k')} ::
          w.load(w.store(s, k, v), k').0 == if k' == k then Some(v) else w.load(s, k').0)
    && (forall s, k, k' {:trigger w.load(w.load(s, k).1, k')} :: w.load(w.load(s, k).1, k').0 == w.load(s, k').0)
    && (forall s, n, k {:trigger w.load(w.random(s, n).1, k)} :: w.load(w.random(s, n).1, k).0 == w.load(s, k).0)
    && (forall s, to, v, k {:trigger w.load(w.send(s, to, v), k)} :: w.load(w.send(s, to, v), k).0 == w.load(s, k).0)
    && (forall s, c, who, k {:trigger w.load(w.consumeCounter(s, c, who).1, k)} ::
          w.load(w.consumeCounter(s, c, who).1, k).0 == w.load(s, k).0)
  }

  /** A noun is in storage under a key: its bytes, with a zero after the key's. */
  predicate KeyedAs<S>(w: World<S>, s: S, k: Noun, v: Noun) {
    Stored(k).Some? && Stored(v).Some? && w.load(s, Stored(k).value + [0]).0 == Stored(v)
  }

  /** A noun is in storage under its hash: with a one after it. */
  predicate HashedIn<S>(w: World<S>, s: S, v: Noun) {
    Stored(v).Some? && w.load(s, w.blake(Stored(v).value, [], 64) + [1]).0 == Stored(v)
  }

  /** A noun comes back from its bytes. */
  predicate Returns(v: Noun) {
    Stored(v).Some? && Deserialize.Decode(Stored(v).value) == Ok(v)
  }

  /** Every noun that is not too large does, but for the byte order of the length of its atom section. */
  lemma ReturnsWhen(v: Noun)
    ensures Returns(v) <==> Stored(v).Some? && Readable(|Serialize.EncodeAtoms(v)|)
  {
    hide Serialize.Encode, Serialize.EncodeAtoms, Deserialize.Decode, Pow2, Readable;
    Pow2SixtyThree();
    if Stored(v).Some? {
      Codec.RoundTrip(v, 1_000_000);
    }
  }

  /** What is left on the meter when an instruction's argument is evaluated. */
  function Ticked<S>(m: Machine<S>): (r: Machine<S>)
    requires m.Valid() && m.Ticks() > 0
    ensures r.Valid()
  {
    After(m, 1, m.engine)
  }

  /** Evaluating a strict instruction is evaluating its argument and then doing its operation. */
  lemma StrictEvaluates<S>(w: World<S>, m: Machine<S>, subject: Noun, op: Instruction, f: Noun, v: Noun)
    requires m.Valid() && m.Ticks() > 0 && IsStrict(Number(op))
    requires Eval(w, Ticked(m), subject, f).0 == Ok(v)
    ensures var m1 := Eval(w, Ticked(m), subject, f).1;
            m1.Valid() && Follows(m1, Eval(w, m, subject, Cell(Atom([Number(op)]), f)), Operation(w, op, v, m1.engine))
  {
    hide Eval, Dispatch, Primitive, IsStrict, Operation, Number, Follows;
    var m1 := Eval(w, Ticked(m), subject, f).1;
    SettledStays(Ticked(m), m1, m.executingAs);
    DispatchOpcode(w, Ticked(m), subject, Number(op), f);
    EvalUnfolds(w, m, subject, Cell(Atom([Number(op)]), f));
    OperationFollows(w, m1, op, v);
  }

  /** Evaluating a retrieval, given what is loaded. */
  lemma RetrievalEvaluates<S>(w: World<S>, m: Machine<S>, subject: Noun, op: Byte, f: Noun, v: Noun, key: Bytes,
                              program: Noun)
    requires m.Valid() && m.Ticks() > 0 && Eval(w, Ticked(m), subject, f).0 == Ok(v)
    requires (op == 12 && v.Atom? && key == v.bytes + [1]) ||
      (op == 14 && Stored(v).Some? && key == Stored(v).value + [0])
    requires var bytes := w.load(Eval(w, Ticked(m), subject, f).1.engine, key).0;
             bytes.Some? && Deserialize.Decode(bytes.value) == Ok(program)
    ensures var m1 := Eval(w, Ticked(m), subject, f).1;
            var m2 := m1.(engine := w.load(m1.engine, key).1);
            m2.Valid() &&
            Eval(w, m, subject, Cell(Atom([op]), f)) ==
              match Eval(w, m2, subject, program)
              case (Err(e), m3) => (Err(e), m3)
              case (Ok(x), m3) => (Ok(Cell(Atom([1]), x)), m3)
  {
    var m1 := Eval(w, Ticked(m), subject, f).1;
    SettledStays(Ticked(m), m1, m.executingAs);
    EvalUnfolds(w, m, subject, Cell(Atom([op]), f));
    DispatchRetrieve(w, Ticked(m), subject, op, f);
    StoredIsToBytes(v);
    hide Eval, Dispatch, ToBytes, Deserialize.Decode, Stored;
  }

  lemma DispatchRetrieve<S>(w: World<S>, m: Machine<S>, subject: Noun, op: Byte, f: Noun)
    requires m.Valid() && (op == 12 || op == 14)
    ensures Dispatch(w, m, subject, Cell(Atom([op]), f)) == EvalRetrieve(w, m, subject, op, f)
  {
    hide EvalBoth, EvalStrict, EvalIf, EvalRecurse, EvalChained, EvalRetrieve, EvalExucrypt, EvalExecuteAs;
    OpcodeRead(op);
  }

  lemma TagsApart(a: Bytes, b: Bytes)
    ensures a + [0] != b + [1]
    ensures forall c: Byte :: a + [c] == b + [c] ==> a == b
  {
    assert (a + [0])[|a|] == 0 && (b + [1])[|b|] == 1;
    forall c: Byte | a + [c] == b + [c]
      ensures a == b
    {
      assert a == (a + [c])[..|a|] && b == (b + [c])[..|b|];
    }
  }

  /** Different nouns are stored under different keys. */
  lemma KeysApart(k: Noun, k': Noun)
    requires Stored(k).Some? && Stored(k') == Stored(k)
    ensures k == k'
  {
    hide Serialize.Encode, Pow2;
    Pow2SixtyThree();
    Codec.EncodingsAreUnique(k, k', 1_000_000, 1_000_000);
  }

  /** Instruction 13 puts a noun under a key, over what was there, and touches nothing under other keys or hashes. */
  lemma StoresByKey<S(!new)>(w: World<S>, m: Machine<S>, subject: Noun, f: Noun, k: Noun, v: Noun)
    requires Remembers(w) && m.Valid() && m.Ticks() > 0
    requires Eval(w, Ticked(m), subject, f).0 == Ok(Cell(k, v))
    ensures var before := Eval(w, Ticked(m), subject, f).1.engine;
            var (r, m') := Eval(w, m, subject, Cell(Atom([13]), f));
            (r.Ok? <==> Stored(k).Some? && Stored(v).Some?) &&
            (r.Ok? ==>
              r == Ok(Atom([1])) && KeyedAs(w, m'.engine, k, v) &&
              (forall k', v' :: k' != k ==> (KeyedAs(w, m'.engine, k', v') <==> KeyedAs(w, before, k', v'))) &&
              (forall hash: Bytes :: w.load(m'.engine, hash + [1]).0 == w.load(before, hash + [1]).0))
  {
    hide Eval, Stored;
    StrictEvaluates(w, m, subject, DoStoreByKey, f, Cell(k, v));
    var before := Eval(w, Ticked(m), subject, f).1.engine;
    var (r, m') := Eval(w, m, subject, Cell(Atom([13]), f));
    if r.Ok? {
      var key := Stored(k).value + [0];
      assert m'.engine == w.store(before, key, Stored(v).value);
      forall k', v' | k' != k
        ensures KeyedAs(w, m'.engine, k', v') <==> KeyedAs(w, before, k', v')
      {
        if Stored(k').Some? {
          TagsApart(Stored(k').value, Stored(k).value);
          if Stored(k').value == Stored(k).value {
            KeysApart(k, k');
          }
        }
      }
      forall hash: Bytes
        ensures w.load(m'.engine, hash + [1]).0 == w.load(before, hash + [1]).0
      {
        TagsApart(Stored(k).value, hash);
      }
    }
  }

  /** Instruction 11 puts a noun under its hash, and touches nothing under keys or other hashes. */
  lemma StoresByHash<S(!new)>(w: World<S>, m: Machine<S>, subject: Noun, f: Noun, v: Noun)
    requires Remembers(w) && m.Valid() && m.Ticks() > 0
    requires Eval(w, Ticked(m), subject, f).0 == Ok(v)
    requires Eval(w, m, subject, Cell(Atom([11]), f)).0.Ok?
    ensures var before := Eval(w, Ticked(m), subject, f).1.engine;
            var (r, m') := Eval(w, m, subject, Cell(Atom([11]), f));
            r == Ok(Atom([1])) && HashedIn(w, m'.engine, v) &&
            (forall key: Bytes :: w.load(m'.engine, key + [0]).0 == w.load(before, key + [0]).0) &&
            (forall hash: Bytes :: hash != w.blake(Stored(v).value, [], 64) ==>
              w.load(m'.engine, hash + [1]).0 == w.load(before, hash + [1]).0)
  {
    hide Eval, Stored;
    StrictEvaluates(w, m, subject, DoStoreByHash, f, v);
    var before := Eval(w, Ticked(m), subject, f).1.engine;
    var (r, m') := Eval(w, m, subject, Cell(Atom([11]), f));
    var hash := w.blake(Stored(v).value, [], 64);
    assert m'.engine == w.store(before, hash + [1], Stored(v).value);
    forall key: Bytes
      ensures w.load(m'.engine, key + [0]).0 == w.load(before, key + [0]).0
    {
      TagsApart(key, hash);
    }
    forall other: Bytes | other != hash
      ensures w.load(m'.engine, other + [1]).0 == w.load(before, other + [1]).0
    {
      TagsApart(other, hash);
    }
  }

  /** What a retrieval comes to that finds a program: a one, and what the program gives on the subject. */
  function Answer<S>(w: World<S>, m: Machine<S>, subject: Noun, program: Noun): Step<S>
    requires m.Valid()
  {
    match Eval(w, m, subject, program)
    case (Err(e), m') => (Err(e), m')
    case (Ok(x), m') => (Ok(Cell(Atom([1]), x)), m')
  }

  /** The machine once a key has been looked up. */
  function Loaded<S>(w: World<S>, m: Machine<S>, key: Bytes): (r: Machine<S>)
    requires m.Valid()
    ensures r.Valid()
  {
    m.(engine := w.load(m.engine, key).1)
  }

  /** Instruction 14 runs what is in storage under a key. */
  lemma RetrievesByKey<S(!new)>(w: World<S>, m: Machine<S>, subject: Noun, f: Noun, k: Noun, v: Noun)
    requires m.Valid() && m.Ticks() > 0 && Eval(w, Ticked(m), subject, f).0 == Ok(k)
    requires KeyedAs(w, Eval(w, Ticked(m), subject, f).1.engine, k, v) && Returns(v)
    ensures var m1 := Eval(w, Ticked(m), subject, f).1;
            m1.Valid() && Eval(w, m, subject, Cell(Atom([14]), f)) ==
              Answer(w, Loaded(w, m1, Stored(k).value + [0]), subject, v)
  {
    hide Eval, Stored, Deserialize.Decode;
    RetrievalEvaluates(w, m, subject, 14, f, k, Stored(k).value + [0], v);
  }

  /** Instruction 12 runs what is in storage under the hash that instruction 10 gives of it. */
  lemma RetrievesByHash<S(!new)>(w: World<S>, m: Machine<S>, subject: Noun, f: Noun, v: Noun)
    requires Returns(v)
    requires var hash := w.blake(Stored(v).value, [], 64);
             m.Valid() && m.Ticks() > 0 && Eval(w, Ticked(m), subject, f).0 == Ok(Atom(hash)) &&
             HashedIn(w, Eval(w, Ticked(m), subject, f).1.engine, v)
    ensures var m1 := Eval(w, Ticked(m), subject, f).1;
            m1.Valid() && Eval(w, m, subject, Cell(Atom([12]), f)) ==
              Answer(w, Loaded(w, m1, w.blake(Stored(v).value, [], 64) + [1]), subject, v)
  {
    hide Eval, Stored, Deserialize.Decode;
    var hash := w.blake(Stored(v).value, [], 64);
    RetrievalEvaluates(w, m, subject, 12, f, Atom(hash), hash + [1], v);
  }

  lemma HashGives<S>(w: World<S>, m: Machine<S>, subject: Noun, f: Noun, v: Noun)
    requires m.Valid() && m.Ticks() > 0 && Eval(w, Ticked(m), subject, f).0 == Ok(v)
    requires Eval(w, m, subject, Cell(Atom([10]), f)).0.Ok?
    ensures Stored(v).Some? && Eval(w, m, subject, Cell(Atom([10]), f)).0 == Ok(Atom(w.blake(Stored(v).value, [], 64)))
  {
    hide Eval, Stored;
    StrictEvaluates(w, m, subject, DoHash, f, v);
  }

  /** A retrieval that finds nothing gives a zero, and so does one by a hash that is a pair. */
  lemma FindsNothing<S>(w: World<S>, m: Machine<S>, subject: Noun, f: Noun, v: Noun)
    requires m.Valid() && m.Ticks() > 0 && Eval(w, Ticked(m), subject, f).0 == Ok(v)
    ensures var m1 := Eval(w, Ticked(m), subject, f).1;
            (v.Cell? || w.load(m1.engine, v.bytes + [1]).0.None? ==>
              Eval(w, m, subject, Cell(Atom([12]), f)).0 == Ok(Atom([0]))) &&
            (Stored(v).Some? && w.load(m1.engine, Stored(v).value + [0]).0.None? ==>
              Eval(w, m, subject, Cell(Atom([14]), f)).0 == Ok(Atom([0])))
  {
    var m1 := Eval(w, Ticked(m), subject, f).1;
    SettledStays(Ticked(m), m1, m.executingAs);
    EvalUnfolds(w, m, subject, Cell(Atom([12]), f));
    EvalUnfolds(w, m, subject, Cell(Atom([14]), f));
    DispatchRetrieve(w, Ticked(m), subject, 12, f);
    DispatchRetrieve(w, Ticked(m), subject, 14, f);
    StoredIsToBytes(v);
    hide Eval, Dispatch, ToBytes, Stored;
  }

  /** No two byte strings have the same hash. */
  ghost predicate NoCollisions<S>(w: World<S>) {
    forall a, b {:trigger w.blake(a, [], 64), w.blake(b, [], 64)} :: w.blake(a, [], 64) == w.blake(b, [], 64) ==> a == b
  }

  /** What is stored by hash stays, whatever is evaluated, on whose account, with whatever outcome. */
  lemma HashedForever<S(!new)>(w: World<S>, m: Machine<S>, subject: Noun, formula: Noun, v: Noun)
    requires Remembers(w) && NoCollisions(w) && m.Valid() && HashedIn(w, m.engine, v)
    ensures HashedIn(w, Eval(w, m, subject, formula).1.engine, v)
  {
    hide Eval, Stored;
    var hash := w.blake(Stored(v).value, [], 64);
    var inv := s => w.load(s, hash + [1]).0 == Stored(v);
    forall s, k, bytes | inv(s)
      ensures inv(w.store(s, k + [0], bytes))
    {
      TagsApart(k, hash);
    }
    forall s, bytes | inv(s)
      ensures inv(w.store(s, w.blake(bytes, [], 64) + [1], bytes))
    {
      TagsApart(w.blake(bytes, [], 64), hash);
    }
    assert Kept(w, inv);
    EvalAccounted(w, inv, m, subject, formula);
  }

  /** Programs run one after another on an engine. */
  function RunAll<S>(w: World<S>, s: S, programs: seq<(Noun, nat)>): S
    decreases |programs|
  {
    if programs == [] then s
    else RunAll(w, EvalProgram(w, s, programs[0].0, programs[0].1).1, programs[1..])
  }

  lemma {:induction false} HashedThroughout<S(!new)>(w: World<S>, s: S, programs: seq<(Noun, nat)>, v: Noun)
    requires Remembers(w) && NoCollisions(w) && HashedIn(w, s, v)
    ensures HashedIn(w, RunAll(w, s, programs), v)
    decreases |programs|
  {
    hide Eval, Remembers, NoCollisions, HashedIn;
    if programs != [] {
      var (program, limit) := programs[0];
      if program.Cell? {
        HashedForever(w, Machine(NOBODY, map[NOBODY := limit], s), program.left, program.right, v);
      }
      HashedThroughout(w, EvalProgram(w, s, program, limit).1, programs[1..], v);
    }
  }

  /** Stored under a key, then retrieved by it: a one, and what the noun stored gives when it is run. */
  lemma StoredByKeyIsRetrieved<S(!new)>(w: World<S>, m: Machine<S>, subject: Noun, f: Noun, k: Noun, v: Noun,
                                        n: Machine<S>, subject': Noun, g: Noun)
    requires Remembers(w) && m.Valid() && m.Ticks() > 0 && Eval(w, Ticked(m), subject, f).0 == Ok(Cell(k, v))
    requires Eval(w, m, subject, Cell(Atom([13]), f)).0.Ok? && Returns(v)
    requires n.Valid() && n.Ticks() > 0 && Eval(w, Ticked(n), subject', g).0 == Ok(k)
    requires Eval(w, Ticked(n), subject', g).1.engine == Eval(w, m, subject, Cell(Atom([13]), f)).1.engine
    ensures var n1 := Eval(w, Ticked(n), subject', g).1;
            n1.Valid() && Stored(k).Some? && Eval(w, n, subject', Cell(Atom([14]), g)) ==
              Answer(w, Loaded(w, n1, Stored(k).value + [0]), subject', v)
  {
    hide Eval, Stored, Deserialize.Decode, Remembers;
    StoresByKey(w, m, subject, f, k, v);
    RetrievesByKey(w, n, subject', g, k, v);
  }

  /** The machine that runs a program. */
  function Starting<S>(s: S, limit: nat): Machine<S> {
    Machine(NOBODY, map[NOBODY := limit], s)
  }

  /** Stored by hash in one program, then retrieved by that hash in another, whatever programs run between. */
  lemma StoredByHashIsRetrieved<S(!new)>(w: World<S>, s: S, limit: nat, subject: Noun, f: Noun, v: Noun,
                                         programs: seq<(Noun, nat)>, limit': nat, subject': Noun, g: Noun)
    requires Remembers(w) && NoCollisions(w) && limit > 0 && limit' > 0
    requires Eval(w, Ticked(Starting(s, limit)), subject, f).0 == Ok(v)
    requires EvalProgram(w, s, Cell(subject, Cell(Atom([11]), f)), limit).0.Ok?
    requires Returns(v)
    requires var s' := RunAll(w, EvalProgram(w, s, Cell(subject, Cell(Atom([11]), f)), limit).1, programs);
             Eval(w, Ticked(Starting(s', limit')), subject', g).0 == Ok(Atom(w.blake(Stored(v).value, [], 64)))
    ensures var s' := RunAll(w, EvalProgram(w, s, Cell(subject, Cell(Atom([11]), f)), limit).1, programs);
            var m1 := Eval(w, Ticked(Starting(s', limit')), subject', g).1;
            m1.Valid() &&
            var answer := Answer(w, Loaded(w, m1, w.blake(Stored(v).value, [], 64) + [1]), subject', v);
            EvalProgram(w, s', Cell(subject', Cell(Atom([12]), g)), limit') == (answer.0, answer.1.engine)
  {
    hide Eval, Stored, Deserialize.Decode, Remembers, NoCollisions, HashedIn;
    StoresByHash(w, Starting(s, limit), subject, f, v);
    var s1 := EvalProgram(w, s, Cell(subject, Cell(Atom([11]), f)), limit).1;
    HashedThroughout(w, s1, programs, v);
    var s' := RunAll(w, s1, programs);
    HashedForever(w, Ticked(Starting(s', limit')), subject', g, v);
    RetrievesByHash(w, Starting(s', limit'), subject', g, v);
  }
}
