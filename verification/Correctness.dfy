/**
 * The compiler is correct: a program that means a value runs to that value's noun.
 *
 * A closure is the noun [code scope] and a scope is a subject laid out as the compiler addresses it. The
 * result holds for programs whose addresses survive their encoding and whose groups of bindings and arguments
 * have the sizes that dense trees are addressed correctly for (`Portable`).
 */
module Correctness {
  import opened Basics
  import opened Nouns
  import opened Evaluation
  import opened Compile
  import opened Syntax
  import opened DenseTree
  import opened Rules
  import opened Semantics
  import opened Operations
  import opened Addresses
  import opened Axis

  /** The addresses the compiler gives the names of a scope. */
  function NamesOf(env: Env): Option<Names>
    decreases env, 0
  {
    match env
    case Top(_) => Some(map[])
    case Let(names, _, outer) =>
      (match NamesOf(outer)
       case None => None
       case Some(inherited) => AddNameResolutions(inherited, names))
    case Call(_, callee) => ClosureNames(callee)
  }

  /** The addresses a closure's body is compiled with. */
  function ClosureNames(callee: Value): Option<Names>
    decreases callee, 1
  {
    match callee
    case Closure(params, _, selfName, inner) =>
      (match NamesOf(inner)
       case None => None
       case Some(inherited) => LambdaNames(inherited, params, selfName))
    case _ => None
  }

  function CodeOf(callee: Value): Compiled<Noun> {
    match callee
    case Closure(_, body, _, _) =>
      (match ClosureNames(callee)
       case None => Err(Panic)
       case Some(names) => CompileNode(body, names, None))
    case _ => Err(Panic)
  }

  /** A value as a noun. */
  function Encoded(v: Value): Noun
    decreases v, 0
  {
    match v
    case Data(bs) => Atom(bs)
    case Pair(l, r) => Cell(Encoded(l), Encoded(r))
    case Closure(_, _, _, inner) => Cell(if CodeOf(v).Ok? then CodeOf(v).value else Atom([]), Laid(inner))
  }

  function EncodedAll(vs: seq<Value>): (r: seq<Noun>)
    ensures |r| == |vs|
    ensures forall i :: 0 <= i < |vs| ==> r[i] == Encoded(vs[i])
    decreases vs, 0
  {
    if vs == [] then [] else [Encoded(vs[0])] + EncodedAll(vs[1..])
  }

  function DenseOr(ns: seq<Noun>): Noun {
    if ns == [] then Atom([]) else Dense(ns)
  }

  /** A scope as a subject. */
  function Laid(env: Env): Noun
    decreases env, 0
  {
    match env
    case Top(subject) => subject
    case Let(_, values, outer) => Cell(DenseOr(EncodedAll(values)), Laid(outer))
    case Call(args, callee) => Cell(DenseOr(EncodedAll(args)), Encoded(callee))
  }

  /** A group of names or values that dense trees address correctly. */
  ghost predicate Grouped(count: nat) {
    1 <= count <= MAX_COUNT && IsDenseCount(count)
  }

  /**
   * What a program needs for its addresses to work: every address it emits reads back as it was written, no
   * bit of a combined address is lost, and every group of bindings and parameters is of a dense size.
   */
  ghost predicate Portable(node: Node, names: Names, selfName: Option<string>)
    decreases node, 1
  {
    match node
    case Symbol(x) => x in names ==> Readable(names[x])
    case Literal(_) => true
    case List(children) => PortableAll(children, names)
    case Parent(children) =>
      children != [] && children[0].Symbol? ==>
        var name := children[0].name;
        if NativeOpcode(name).Some? then PortableAll(children[1..], names)
        else if name == "axis" then PortableAxis(children, names)
        else if name == "let" then PortableLet(children, names)
        else if name == "lambda" then PortableLambda(children, names, selfName)
        else (name in names ==> Readable(names[name])) && PortableAll(children[1..], names)
  }

  ghost predicate PortableAll(nodes: seq<Node>, names: Names)
    decreases nodes, 0
  {
    nodes != [] ==> Portable(nodes[0], names, None) && PortableAll(nodes[1..], names)
  }

  ghost predicate PortableAxis(children: seq<Node>, names: Names)
    requires children != []
    decreases children, 1
  {
    |children| == 3 ==>
      match (children[1], children[2])
      case (Symbol(x), Literal(bs)) =>
        x in names && LeValue(bs) >= 1 ==>
          Combinable(names[x], LeValue(bs)) && Readable(Joined(names[x], LeValue(bs)))
      case (target, Literal(bs)) => Portable(target, names, None)
      case (target, index) => Portable(target, names, None) && Portable(index, names, None)
  }

  ghost predicate PortableBindings(bindings: seq<Node>, names: Names)
    decreases bindings, 0
  {
    bindings != [] ==>
      PortableBindings(bindings[1..], names) &&
      match bindings[0]
      case Parent(pair) =>
        |pair| == 2 && pair[0].Symbol? ==> Portable(pair[1], names, Some(pair[0].name))
      case _ => true
  }

  ghost predicate PortableLet(children: seq<Node>, names: Names)
    requires children != []
    decreases children, 1
  {
    |children| == 3 && children[1].Parent? ==>
      var bindings := children[1].children;
      Grouped(|bindings|) && PortableBindings(bindings, names) &&
      (BoundNames(bindings).Some? && AddNameResolutions(names, BoundNames(bindings).value).Some? ==>
        Portable(children[2], AddNameResolutions(names, BoundNames(bindings).value).value, None))
  }

  ghost predicate PortableLambda(children: seq<Node>, names: Names, selfName: Option<string>)
    requires children != []
    decreases children, 1
  {
    |children| == 3 && children[1].Parent? && SymbolNames(children[1].children).Ok? ==>
      var params := SymbolNames(children[1].children).value;
      Grouped(|params|) &&
      (LambdaNames(names, params, selfName).Some? ==>
        Portable(children[2], LambdaNames(names, params, selfName).value, None))
  }

  /** Values and scopes that a portable program can reach. */
  ghost predicate Sound(v: Value)
    decreases v, 0
  {
    match v
    case Data(_) => true
    case Pair(l, r) => Sound(l) && Sound(r)
    case Closure(params, body, _, inner) =>
      SoundEnv(inner) && Grouped(|params|) && CodeOf(v).Ok? &&
      ClosureNames(v).Some? && Portable(body, ClosureNames(v).value, None)
  }

  ghost predicate SoundAll(vs: seq<Value>)
    ensures SoundAll(vs) <==> forall i :: 0 <= i < |vs| ==> Sound(vs[i])
    decreases vs, 0
  {
    if vs == [] then true else Sound(vs[0]) && SoundAll(vs[1..])
  }

  ghost predicate SoundEnv(env: Env)
    decreases env, 0
  {
    match env
    case Top(_) => true
    case Let(names, values, outer) =>
      |names| == |values| && Grouped(|names|) && SoundAll(values) && SoundEnv(outer) && NamesOf(env).Some?
    case Call(args, callee) =>
      callee.Closure? && |args| == |callee.params| && SoundAll(args) && Sound(callee)
  }

  /** An item of a well-sized group is at its expected address, one left step down. */
  lemma SlotInGroup(vs: seq<Noun>, i: nat, rest: Noun)
    requires i < |vs| && Grouped(|vs|)
    requires AddInitialStep(DensePosition(|vs|, i), 0).Some?
    ensures Slot(AddInitialStep(DensePosition(|vs|, i), 0).value, Cell(Dense(vs), rest)) == Some(vs[i])
  {
    DenseAgrees(|vs|, i);
    SlotOfDense(vs, i);
    AddInitialStepSlot(DensePosition(|vs|, i), 0, Dense(vs), rest);
  }

  lemma NameAt(parent: Names, names: seq<string>, x: string)
    requires AddNameResolutions(parent, names).Some?
    ensures var m := AddNameResolutions(parent, names).value;
            (x in m <==> x in parent || x in names) &&
            (x in names ==>
              AddInitialStep(DensePosition(|names|, LastIndex(names, x)), 0) == Some(m[x])) &&
            (x !in names && x in parent ==> AddInitialStep(parent[x], 1) == Some(m[x]))
  {
  }

  /** A name found among a group's names is found in the group's tree. */
  lemma GroupLookup(parent: Names, names: seq<string>, values: seq<Value>, rest: Noun, x: string)
    requires AddNameResolutions(parent, names).Some? && |names| == |values| && Grouped(|names|) && x in names
    ensures var m := AddNameResolutions(parent, names).value;
            x in m && Slot(m[x], Cell(DenseOr(EncodedAll(values)), rest)) == Some(Encoded(values[LastIndex(names, x)]))
  {
    NameAt(parent, names, x);
    SlotInGroup(EncodedAll(values), LastIndex(names, x), rest);
  }

  /** A name found outside a group is found one right step down. */
  lemma OuterLookup(parent: Names, names: seq<string>, group: Noun, rest: Noun, x: string)
    requires AddNameResolutions(parent, names).Some? && x !in names
    ensures var m := AddNameResolutions(parent, names).value;
            (x in m <==> x in parent) && (x in m ==> Slot(m[x], Cell(group, rest)) == Slot(parent[x], rest))
  {
    NameAt(parent, names, x);
    if x in parent {
      AddInitialStepSlot(parent[x], 1, group, rest);
    }
  }

  /** What a scope binds a name to is what its subject has at the name's address. */
  lemma {:induction false} LookupAddress(env: Env, x: string)
    requires SoundEnv(env) && NamesOf(env).Some?
    ensures x in NamesOf(env).value <==> Lookup(env, x).Some?
    ensures Lookup(env, x).Some? ==>
              Sound(Lookup(env, x).value) &&
              Slot(NamesOf(env).value[x], Laid(env)) == Some(Encoded(Lookup(env, x).value))
    decreases env
  {
    match env
    case Top(_) =>
    case Let(names, values, outer) =>
      if x in names {
        GroupLookup(NamesOf(outer).value, names, values, Laid(outer), x);
      } else {
        LookupAddress(outer, x);
        OuterLookup(NamesOf(outer).value, names, DenseOr(EncodedAll(values)), Laid(outer), x);
      }
    case Call(args, callee) =>
      CallLookup(args, callee, x);
      if x !in callee.params && callee.selfName != Some(x) {
        LookupAddress(callee.env, x);
      }
  }

  /** Looking a name up in a call: a parameter, the function itself, or two levels down. */
  lemma CallLookup(args: seq<Value>, callee: Value, x: string)
    requires SoundEnv(Call(args, callee)) && ClosureNames(callee).Some?
    ensures var m := ClosureNames(callee).value;
            var subject := Laid(Call(args, callee));
            if x in callee.params then
              x in m && Slot(m[x], subject) == Some(Encoded(args[LastIndex(callee.params, x)]))
            else if callee.selfName == Some(x) then
              x in m && Slot(m[x], subject) == Some(Encoded(callee))
            else
              (x in m <==> x in NamesOf(callee.env).value) &&
              (x in m ==> Slot(m[x], subject) == Slot(NamesOf(callee.env).value[x], Laid(callee.env)))
  {
    var Closure(params, body, selfName, inner) := callee;
    var inherited := NamesOf(inner).value;
    var paired := AddNameResolutions(inherited, []).value;
    var own := if selfName.Some? then paired[selfName.value := 1] else paired;
    var group, pair := DenseOr(EncodedAll(args)), Encoded(callee);
    if x in params {
      GroupLookup(own, params, args, pair, x);
    } else {
      OuterLookup(own, params, group, pair, x);
      OuterLookup(inherited, [], pair.left, pair.right, x);
      assert Slot(1, pair) == Some(pair);
    }
  }

  lemma {:induction false} EncodedFromNoun(n: Noun)
    ensures Encoded(FromNoun(n)) == n && Sound(FromNoun(n))
  {
    match n
    case Atom(_) =>
    case Cell(l, r) =>
      EncodedFromNoun(l);
      EncodedFromNoun(r);
  }

  lemma {:induction false} EncodedToNoun(v: Value)
    requires ToNoun(v).Some?
    ensures Encoded(v) == ToNoun(v).value
  {
    match v
    case Data(_) =>
    case Pair(l, r) =>
      EncodedToNoun(l);
      EncodedToNoun(r);
  }

  /** The parts of a value are at the same addresses in its noun. */
  lemma {:induction false} EncodedPart(index: nat, v: Value)
    requires Part(index, v).Some?
    ensures Slot(index, Encoded(v)) == Some(Encoded(Part(index, v).value))
    ensures Sound(v) ==> Sound(Part(index, v).value)
    decreases index
  {
    if index > 1 {
      EncodedPart(index / 2, v);
    }
  }

  lemma {:induction false} EncodedNested(vs: seq<Value>)
    requires vs != []
    ensures Encoded(NestedPairs(vs)) == Nested(EncodedAll(vs))
    ensures SoundAll(vs) ==> Sound(NestedPairs(vs))
  {
    if |vs| > 1 {
      EncodedNested(vs[1..]);
      assert EncodedAll(vs)[1..] == EncodedAll(vs[1..]);
    }
  }

  /** The compiler's table: each operation's number, and how many arguments it takes. */
  lemma NativeTable(name: string)
    ensures NativeOpcode(name).Some? <==> Named(name).Some?
    ensures Named(name).Some? ==> NativeOpcode(name).value == (Number(Named(name).value.0), Named(name).value.1)
  {
    if NativeOpcode(name).Some? {
      CompiledIsNamed(name);
    } else {
      UncompiledIsNotNamed(name);
    }
    hide NativeOpcode, Named, Number;
  }

  lemma CompiledIsNamed(name: string)
    requires NativeOpcode(name).Some?
    ensures Named(name).Some? && NativeOpcode(name).value == (Number(Named(name).value.0), Named(name).value.1)
  {
    if name in {"random", "is_cell", "hash", "shape", "if"} {
      CompiledFirst(name);
    } else if name in {"equal", "store_by_hash", "retrieve_by_hash", "store_by_key"} {
      CompiledSecond(name);
    } else if name in {"retrieve_by_key", "generate_keypair"} {
      CompiledThird(name);
    } else if name in {"encrypt", "decrypt", "exucrypt"} {
      CompiledFourth(name);
    } else if name in {"add", "invert"} {
      CompiledFifth(name);
    } else {
      CompiledLast(name);
    }
    hide Named, Number;
  }

  lemma CompiledFirst(name: string)
    requires name in {"random", "is_cell", "hash", "shape", "if"}
    ensures NativeOpcode(name).Some? && Named(name).Some?
    ensures NativeOpcode(name).value == (Number(Named(name).value.0), Named(name).value.1)
  {
  }

  lemma CompiledSecond(name: string)
    requires name in {"equal", "store_by_hash", "retrieve_by_hash", "store_by_key"}
    ensures NativeOpcode(name).Some? && Named(name).Some?
    ensures NativeOpcode(name).value == (Number(Named(name).value.0), Named(name).value.1)
  {
  }

  lemma CompiledThird(name: string)
    requires name in {"retrieve_by_key", "generate_keypair"}
    ensures NativeOpcode(name).Some? && Named(name).Some?
    ensures NativeOpcode(name).value == (Number(Named(name).value.0), Named(name).value.1)
  {
  }

  lemma CompiledFourth(name: string)
    requires name in {"encrypt", "decrypt", "exucrypt"}
    ensures NativeOpcode(name).Some? && Named(name).Some?
    ensures NativeOpcode(name).value == (Number(Named(name).value.0), Named(name).value.1)
  {
  }

  lemma CompiledFifth(name: string)
    requires name in {"add", "invert"}
    ensures NativeOpcode(name).Some? && Named(name).Some?
    ensures NativeOpcode(name).value == (Number(Named(name).value.0), Named(name).value.1)
  {
  }

  lemma CompiledLast(name: string)
    requires name in {"xor", "less", "reshape"}
    ensures NativeOpcode(name).Some? && Named(name).Some?
    ensures NativeOpcode(name).value == (Number(Named(name).value.0), Named(name).value.1)
  {
  }

  lemma UncompiledIsNotNamed(name: string)
    requires NativeOpcode(name).None?
    ensures Named(name).None?
  {
    hide Number;
  }

  lemma OperationApplies<S(!new)>(w: World<S>, op: Instruction, n: Noun, s: S)
    requires Operation(w, op, n, s).Some?
    ensures IsStrict(Number(op))
    ensures var e := Operation(w, op, n, s).value;
            Applies(w, Number(op), s, n, e.value, e.engine, e.cost)
  {
    OperationIsStrict(w, op, n, s);
    var e := Operation(w, op, n, s).value;
    hide Operation, Primitive, Number, IsStrict;
    forall m: Machine<S> | m.Valid() && m.engine == s && e.cost <= m.Ticks()
      ensures Primitive(w, m, Number(op), n) == (Ok(e.value), After(m, e.cost, e.engine))
    {
      OperationFollows(w, m, op, n);
    }
  }

  lemma OperationIsStrict<S>(w: World<S>, op: Instruction, n: Noun, s: S)
    requires Operation(w, op, n, s).Some?
    ensures IsStrict(Number(op))
  {
    StrictOps(op);
    hide IsStrict, Number, OnBytes, OnNumbers, KeyPair, Sealed, Unlocked, Stored;
  }

  /** The native operations do to nouns what `Native` does to values. */
  lemma NativeApplies<S(!new)>(w: World<S>, op: Instruction, v: Value, s: S) returns (cost: nat)
    requires Native(w, op, v, s).Some?
    ensures var r := Native(w, op, v, s).value;
            IsStrict(Number(op)) && Sound(r.value) &&
            Applies(w, Number(op), s, Encoded(v), Encoded(r.value), r.engine, cost)
  {
    hide Operation, Number, IsStrict, Applies;
    if op == DoIsCell {
      IsCellIs(w, Encoded(v), s);
      OperationApplies(w, op, Encoded(v), s);
      cost := 0;
    } else {
      var n := ToNoun(v).value;
      EncodedToNoun(v);
      OperationApplies(w, op, n, s);
      EncodedFromNoun(Operation(w, op, n, s).value.value);
      cost := Operation(w, op, n, s).value.cost;
    }
  }

  lemma IsCellIs<S>(w: World<S>, n: Noun, s: S)
    ensures Operation(w, DoIsCell, n, s) == Some(Effect(Atom([if n.Cell? then 1 else 0]), s, 0))
  {
  }

  /** Literal nodes mean themselves and leave the engine alone. */
  lemma {:induction false} LiteralMeans<S>(w: World<S>, node: Node, env: Env, selfName: Option<string>, s: S, fuel: nat)
    requires LiteralNoun(node).Constant?
    ensures Meaning(w, node, env, selfName, s, fuel) == Some(Given(FromNoun(LiteralNoun(node).noun), s))
    decreases node
  {
    if node.List? {
      LiteralsMean(w, node.children, env, s, fuel);
    }
  }

  lemma {:induction false} LiteralsMean<S>(w: World<S>, nodes: seq<Node>, env: Env, s: S, fuel: nat)
    requires LiteralNouns(nodes).Constant?
    ensures var r := MeaningAll(w, nodes, env, s, fuel);
            r.Some? && r.value.engine == s && NestedPairs(r.value.values) == FromNoun(LiteralNouns(nodes).noun)
    decreases nodes
  {
    LiteralMeans(w, nodes[0], env, None, s, fuel);
    if |nodes| > 1 {
      LiteralsMean(w, nodes[1..], env, s, fuel);
    } else {
      assert nodes[1..] == [];
    }
  }

  /** The names that bindings compile with are the names they bind. */
  lemma {:induction false} BindingNames(bindings: seq<Node>, names: Names)
    requires CompileBindings(bindings, names).Ok?
    ensures BoundNames(bindings) == Some(CompileBindings(bindings, names).value.0)
    decreases |bindings|
  {
    if bindings != [] {
      BindingNames(bindings[1..], names);
    }
  }

  /** A scope the theorem speaks of, and its addresses. */
  ghost predicate Scope(env: Env, names: Names) {
    SoundEnv(env) && NamesOf(env) == Some(names)
  }

  /** Compiled code that gives a value's noun, in a scope. */
  ghost predicate Computes<S(!new)>(w: World<S>, env: Env, code: Noun, s: S, r: Given<S>, cost: nat) {
    code.Cell? && Sound(r.value) && Runs(w, s, Laid(env), code, Encoded(r.value), r.engine, cost)
  }

  ghost predicate ComputesAll<S(!new)>(w: World<S>, env: Env,
                                       codes: seq<Noun>, s: S, r: AllGiven<S>, states: seq<S>, costs: seq<nat>) {
    SoundAll(r.values) && RunsAll(w, Laid(env), codes, EncodedAll(r.values), states, costs) &&
    states[0] == s && states[|codes|] == r.engine
  }

  /** The theorem: compiled code runs to the noun of what its source means, and leaves the engine as it should. */
  lemma {:induction false} Correct<S(!new)>(w: World<S>, node: Node, env: Env, names: Names, selfName: Option<string>,
                                            s: S, fuel: nat)
    returns (cost: nat)
    requires Scope(env, names) && Portable(node, names, selfName)
    requires CompileNode(node, names, selfName).Ok?
    requires Meaning(w, node, env, selfName, s, fuel).Some?
    ensures Computes(w, env, CompileNode(node, names, selfName).value, s,
                     Meaning(w, node, env, selfName, s, fuel).value, cost)
    decreases fuel, node, 2
  {
    hide Computes, MeaningIf, MeaningNative, MeaningAxis, MeaningLet, MeaningLambda, MeaningCall, MeaningAll;
    hide CompileNative, CompileAxis, CompileLet, CompileLambda, CompileCall, CompileAll;
    hide PortableAxis, PortableLet, PortableLambda, PortableAll, NativeOpcode, Named;
    match node
    case Symbol(x) =>
      cost := 1;
      CorrectSymbol(w, env, names, x, s);
    case Literal(bs) =>
      cost := 1;
      ComputesLiteral(w, env, bs, s);
    case List(children) =>
      cost := CorrectList(w, children, env, names, s, fuel);
    case Parent(children) =>
      var name := children[0].name;
      NativeTable(name);
      IfNative();
      if name == "if" {
        cost := CorrectIf(w, children, env, names, s, fuel);
      } else if NativeOpcode(name).Some? {
        cost := CorrectNative(w, children, env, names, s, fuel);
      } else if name == "axis" {
        cost := CorrectAxis(w, children, env, names, s, fuel);
      } else if name == "let" {
        cost := CorrectLet(w, children, env, names, s, fuel);
      } else if name == "lambda" {
        cost := CorrectLambda(w, children, env, names, selfName, s);
      } else {
        cost := CorrectCall(w, children, env, names, s, fuel);
      }
  }

  lemma IfNative()
    ensures NativeOpcode("if") == Some((IF, 3))
  {
  }

  lemma ComputesLiteral<S(!new)>(w: World<S>, env: Env, bs: Bytes, s: S)
    ensures Computes(w, env, Quoted(LITERAL, Atom(bs)), s, Given(Data(bs), s), 1)
  {
    hide Runs;
    RunsLiteral(w, s, Laid(env), Atom(bs));
  }

  lemma CorrectSymbol<S(!new)>(w: World<S>, env: Env, names: Names, x: string, s: S)
    requires Scope(env, names) && x in names && Readable(names[x]) && Lookup(env, x).Some?
    ensures Computes(w, env, Fetch(names[x]), s, Given(Lookup(env, x).value, s), 1)
  {
    LookupAddress(env, x);
    RunsAxis(w, s, Laid(env), FromCompact(names[x]), Encoded(Lookup(env, x).value));
  }

  lemma {:induction false} CorrectAll<S(!new)>(w: World<S>, nodes: seq<Node>, env: Env, names: Names, s: S, fuel: nat)
    returns (states: seq<S>, costs: seq<nat>)
    requires Scope(env, names) && PortableAll(nodes, names)
    requires CompileAll(nodes, names).Ok? && MeaningAll(w, nodes, env, s, fuel).Some?
    ensures ComputesAll(w, env, CompileAll(nodes, names).value, s, MeaningAll(w, nodes, env, s, fuel).value, states,
                        costs)
    decreases fuel, nodes, 0
  {
    if nodes == [] {
      states, costs := [s], [];
    } else {
      var first := Meaning(w, nodes[0], env, None, s, fuel).value;
      var cost := Correct(w, nodes[0], env, names, None, s, fuel);
      var restStates, restCosts := CorrectAll(w, nodes[1..], env, names, first.engine, fuel);
      states, costs := [s] + restStates, [cost] + restCosts;
      ComputesCons(w, env, CompileNode(nodes[0], names, None).value, s, first, cost,
                   CompileAll(nodes[1..], names).value, MeaningAll(w, nodes[1..], env, first.engine, fuel).value,
                   restStates, restCosts);
    }
  }

  lemma ComputesCons<S(!new)>(w: World<S>, env: Env, code: Noun, s: S, first: Given<S>, cost: nat,
                              codes: seq<Noun>, rest: AllGiven<S>, states: seq<S>, costs: seq<nat>)
    requires Computes(w, env, code, s, first, cost)
    requires ComputesAll(w, env, codes, first.engine, rest, states, costs)
    ensures ComputesAll(w, env, [code] + codes, s, AllGiven([first.value] + rest.values, rest.engine), [s] + states,
                        [cost] + costs)
  {
    hide Runs, Encoded, Sound, Laid;
    var vs := [first.value] + rest.values;
    assert vs[1..] == rest.values;
    var fs, ss, cs := [code] + codes, [s] + states, [cost] + costs;
    var es := EncodedAll(vs);
    forall i | 0 <= i < |fs|
      ensures fs[i].Cell? && Runs(w, ss[i], Laid(env), fs[i], es[i], ss[i + 1], cs[i])
    {
      if i > 0 {
        assert fs[i] == codes[i - 1] && es[i] == EncodedAll(rest.values)[i - 1];
      }
    }
  }

  lemma {:induction false} CorrectList<S(!new)>(w: World<S>, children: seq<Node>, env: Env, names: Names, s: S,
                                                fuel: nat)
    returns (cost: nat)
    requires Scope(env, names) && PortableAll(children, names)
    requires CompileNode(List(children), names, None).Ok?
    requires Meaning(w, List(children), env, None, s, fuel).Some?
    ensures Computes(w, env, CompileNode(List(children), names, None).value, s,
                     Meaning(w, List(children), env, None, s, fuel).value, cost)
    decreases fuel, children, 1
  {
    if LiteralNoun(List(children)).Constant? {
      var n := LiteralNoun(List(children)).noun;
      LiteralMeans(w, List(children), env, None, s, fuel);
      EncodedFromNoun(n);
      RunsLiteral(w, s, Laid(env), n);
      cost := 1;
    } else {
      var r := MeaningAll(w, children, env, s, fuel).value;
      var formulas := CompileAll(children, names).value;
      var states, costs := CorrectAll(w, children, env, names, s, fuel);
      cost := RunsNested(w, Laid(env), formulas, EncodedAll(r.values), states, costs);
      EncodedNested(r.values);
    }
  }

  lemma {:induction false} CorrectIf<S(!new)>(w: World<S>, children: seq<Node>, env: Env, names: Names, s: S, fuel: nat)
    returns (cost: nat)
    requires children != [] && children[0] == Symbol("if")
    requires Scope(env, names) && PortableAll(children[1..], names)
    requires CompileNative(children, names, (IF, 3)).Ok? && MeaningIf(w, children, env, s, fuel).Some?
    ensures Computes(w, env, CompileNative(children, names, (IF, 3)).value, s,
                     MeaningIf(w, children, env, s, fuel).value, cost)
    decreases fuel, children, 1
  {
    hide *;
    IfParts(w, children, env, names, s, fuel);
    var condition := Meaning(w, children[1], env, None, s, fuel).value;
    var first := Correct(w, children[1], env, names, None, s, fuel);
    var taken := if LeValue(condition.value.bytes) == 1 then children[2] else children[3];
    var rest := Correct(w, taken, env, names, None, condition.engine, fuel);
    ComputesIf(w, env, CompileNode(children[1], names, None).value, CompileNode(children[2], names, None).value,
               CompileNode(children[3], names, None).value, s, condition, first,
               Meaning(w, taken, env, None, condition.engine, fuel).value, rest);
    cost := 1 + first + rest;
  }

  /** What an `if` that compiles and gives a value consists of. */
  lemma IfParts<S(!new)>(w: World<S>, children: seq<Node>, env: Env, names: Names, s: S, fuel: nat)
    requires children != [] && PortableAll(children[1..], names)
    requires CompileNative(children, names, (IF, 3)).Ok? && MeaningIf(w, children, env, s, fuel).Some?
    ensures |children| == 4
    ensures forall i :: 1 <= i < 4 ==> CompileNode(children[i], names, None).Ok? && Portable(children[i], names, None)
    ensures CompileNative(children, names, (IF, 3)).value ==
            Quoted(IF, Cell(CompileNode(children[1], names, None).value,
                            Cell(CompileNode(children[2], names, None).value,
                                 CompileNode(children[3], names, None).value)))
    ensures var c := Meaning(w, children[1], env, None, s, fuel);
            c.Some? && c.value.value.Data? && LeValue(c.value.value.bytes) <= 1 &&
            MeaningIf(w, children, env, s, fuel) ==
              Meaning(w, if LeValue(c.value.value.bytes) == 1 then children[2] else children[3], env, None,
                      c.value.engine, fuel)
  {
    hide CompileNode, Meaning, Portable, LeValue;
    var nodes := children[1..];
    assert nodes[0] == children[1] && nodes[1] == children[2] && nodes[2] == children[3];
    ThreeCompiled(FromU8(IF), nodes, names);
  }

  lemma ComputesIf<S(!new)>(w: World<S>, env: Env, f: Noun, g: Noun, h: Noun, s: S, c: Given<S>, a: nat, r: Given<S>,
                            b: nat)
    requires c.value.Data? && LeValue(c.value.bytes) <= 1
    requires Computes(w, env, f, s, c, a)
    requires Computes(w, env, if LeValue(c.value.bytes) == 1 then g else h, c.engine, r, b)
    ensures Computes(w, env, Quoted(IF, Cell(f, Cell(g, h))), s, r, 1 + a + b)
  {
    hide Runs;
    RunsIf(w, Laid(env), f, g, h, s, Encoded(c.value), c.engine, a, Encoded(r.value), r.engine, b);
  }

  lemma ThreeCompiled(op: Noun, nodes: seq<Node>, names: Names)
    requires |nodes| == 3 && CompileAll(nodes, names).Ok? && PortableAll(nodes, names)
    ensures forall i :: 0 <= i < 3 ==> CompileNode(nodes[i], names, None).Ok? && Portable(nodes[i], names, None)
    ensures Nested([op] + CompileAll(nodes, names).value) ==
            Cell(op, Cell(CompileNode(nodes[0], names, None).value,
                          Cell(CompileNode(nodes[1], names, None).value, CompileNode(nodes[2], names, None).value)))
  {
    hide CompileNode, Portable;
    var rest, last := nodes[1..], nodes[2..];
    assert rest[1..] == last && last[1..] == [];
    assert CompileAll(rest, names).Ok? && PortableAll(rest, names);
    assert CompileAll(last, names).Ok? && PortableAll(last, names);
    var b, c, d := CompileNode(nodes[0], names, None).value, CompileNode(rest[0], names, None).value,
                   CompileNode(last[0], names, None).value;
    assert CompileAll(last, names).value == [d];
    assert CompileAll(rest, names).value == [c, d];
    assert CompileAll(nodes, names).value == [b, c, d];
    NestedFour(op, b, c, d, CompileAll(nodes, names).value);
  }

  lemma NestedFour(a: Noun, b: Noun, c: Noun, d: Noun, rest: seq<Noun>)
    requires rest == [b, c, d]
    ensures Nested([a] + rest) == Cell(a, Cell(b, Cell(c, d)))
  {
    var xs := [a] + rest;
    assert xs[1..] == [b, c, d];
    assert [b, c, d][1..] == [c, d];
    assert [c, d][1..] == [d];
    assert Nested([c, d]) == Cell(c, d);
    assert Nested([b, c, d]) == Cell(b, Cell(c, d));
  }

  lemma {:induction false} CorrectNative<S(!new)>(w: World<S>, children: seq<Node>, env: Env, names: Names, s: S,
                                                  fuel: nat)
    returns (cost: nat)
    requires children != [] && children[0].Symbol? && NativeOpcode(children[0].name).Some?
    requires Named(children[0].name).Some?
    requires Scope(env, names) && PortableAll(children[1..], names)
    requires CompileNative(children, names, NativeOpcode(children[0].name).value).Ok?
    requires MeaningNative(w, Named(children[0].name).value, children, env, s, fuel).Some?
    ensures Computes(w, env, CompileNative(children, names, NativeOpcode(children[0].name).value).value, s,
                     MeaningNative(w, Named(children[0].name).value, children, env, s, fuel).value, cost)
    decreases fuel, children, 1
  {
    hide *;
    NativeParts(w, children, env, names, s, fuel);
    var states, costs := CorrectAll(w, children[1..], env, names, s, fuel);
    cost := ComputesNative(w, env, Named(children[0].name).value.0, CompileAll(children[1..], names).value, s,
                           MeaningAll(w, children[1..], env, s, fuel).value, states, costs);
  }

  /** What a native operation that compiles and gives a value consists of. */
  lemma NativeParts<S(!new)>(w: World<S>, children: seq<Node>, env: Env, names: Names, s: S, fuel: nat)
    requires children != [] && children[0].Symbol? && NativeOpcode(children[0].name).Some?
    requires Named(children[0].name).Some?
    requires CompileNative(children, names, NativeOpcode(children[0].name).value).Ok?
    requires MeaningNative(w, Named(children[0].name).value, children, env, s, fuel).Some?
    ensures CompileAll(children[1..], names).Ok? && MeaningAll(w, children[1..], env, s, fuel).Some?
    ensures var name := children[0].name;
            var op := Named(name).value.0;
            var formulas := CompileAll(children[1..], names).value;
            var r := MeaningAll(w, children[1..], env, s, fuel).value;
            |formulas| == |r.values| >= 1 && Native(w, op, NestedPairs(r.values), r.engine).Some? &&
            CompileNative(children, names, NativeOpcode(name).value).value ==
              Quoted(Number(op), Nested(formulas)) &&
            MeaningNative(w, Named(name).value, children, env, s, fuel) ==
              Native(w, op, NestedPairs(r.values), r.engine)
  {
    hide CompileAll, MeaningAll, Native, NestedPairs, NativeOpcode, Number, Named;
    NativeTable(children[0].name);
    var formulas := CompileAll(children[1..], names).value;
    assert ([FromU8(Number(Named(children[0].name).value.0))] + formulas)[1..] == formulas;
  }

  lemma ComputesNative<S(!new)>(w: World<S>, env: Env, op: Instruction, formulas: seq<Noun>, s: S, r: AllGiven<S>,
                                states: seq<S>, costs: seq<nat>) returns (cost: nat)
    requires formulas != [] && r.values != [] && ComputesAll(w, env, formulas, s, r, states, costs)
    requires Native(w, op, NestedPairs(r.values), r.engine).Some?
    ensures Computes(w, env, Quoted(Number(op), Nested(formulas)), s,
                     Native(w, op, NestedPairs(r.values), r.engine).value, cost)
  {
    hide Runs, RunsAll, Native, NestedPairs, Nested, Applies, Number, IsStrict;
    var first := RunsNested(w, Laid(env), formulas, EncodedAll(r.values), states, costs);
    EncodedNested(r.values);
    var rest := NativeApplies(w, op, NestedPairs(r.values), r.engine);
    var given := Native(w, op, NestedPairs(r.values), r.engine).value;
    RunsStrict(w, Laid(env), Number(op), Nested(formulas), s, Encoded(NestedPairs(r.values)), r.engine, first,
               Encoded(given.value), given.engine, rest);
    cost := 1 + first + rest;
  }

  lemma {:induction false} CorrectAxis<S(!new)>(w: World<S>, children: seq<Node>, env: Env, names: Names, s: S,
                                                fuel: nat)
    returns (cost: nat)
    requires children != [] && Scope(env, names) && PortableAxis(children, names)
    requires CompileAxis(children, names).Ok? && MeaningAxis(w, children, env, s, fuel).Some?
    ensures Computes(w, env, CompileAxis(children, names).value, s, MeaningAxis(w, children, env, s, fuel).value, cost)
    decreases fuel, children, 1
  {
    hide *;
    AxisMeaning(w, children, env, s, fuel);
    AxisCode(children, names);
    if children[1].Symbol? && children[2].Literal? {
      VariablePartMeaning(w, children, env, s, fuel);
      CorrectVariablePart(w, env, names, children[1].name, children[2].bytes, s);
      cost := 1;
    } else {
      var whole := Meaning(w, children[1], env, None, s, fuel).value;
      var index := Meaning(w, children[2], env, None, whole.engine, fuel).value;
      var f := CompileNode(children[1], names, None).value;
      var first := Correct(w, children[1], env, names, None, s, fuel);
      if children[2].Literal? {
        LiteralMeaning(w, children[2].bytes, env, whole.engine, fuel);
        ComputesFixedPart(w, env, f, s, whole, first, children[2].bytes);
        cost := 1 + first + 1;
      } else {
        var second := Correct(w, children[2], env, names, None, whole.engine, fuel);
        cost := ComputesFoundPart(w, env, f, CompileNode(children[2], names, None).value, s, whole, first, index,
                                  second);
      }
    }
  }

  /** What an `axis` that gives a value consists of. */
  lemma AxisMeaning<S(!new)>(w: World<S>, children: seq<Node>, env: Env, s: S, fuel: nat)
    requires MeaningAxis(w, children, env, s, fuel).Some?
    ensures |children| == 3 && Meaning(w, children[1], env, None, s, fuel).Some?
    ensures var whole := Meaning(w, children[1], env, None, s, fuel).value;
            var index := Meaning(w, children[2], env, None, whole.engine, fuel);
            index.Some? && index.value.value.Data? && Part(LeValue(index.value.value.bytes), whole.value).Some? &&
            MeaningAxis(w, children, env, s, fuel) ==
              Some(Given(Part(LeValue(index.value.value.bytes), whole.value).value, index.value.engine))
  {
    hide Meaning, Part, LeValue;
  }

  /** What an `axis` compiles to. */
  lemma AxisCode(children: seq<Node>, names: Names)
    requires |children| == 3 && CompileAxis(children, names).Ok? && PortableAxis(children, names)
    ensures children[1].Symbol? && children[2].Literal? ==>
      var x, index := children[1].name, LeValue(children[2].bytes);
      x in names && CombineAxisIndices(names[x], index).Some? &&
      (index >= 1 ==> Combinable(names[x], index) && Readable(Joined(names[x], index))) &&
      CompileAxis(children, names).value == Fetch(CombineAxisIndices(names[x], index).value)
    ensures !(children[1].Symbol? && children[2].Literal?) ==>
      CompileNode(children[1], names, None).Ok? && Portable(children[1], names, None)
    ensures !children[1].Symbol? && children[2].Literal? ==>
      CompileAxis(children, names).value ==
        Quoted(COMPOSE, Cell(CompileNode(children[1], names, None).value, Quoted(AXIS, Atom(children[2].bytes))))
    ensures !children[2].Literal? ==>
      CompileNode(children[2], names, None).Ok? && Portable(children[2], names, None) &&
      CompileAxis(children, names).value ==
        Quoted(RECURSE, Cell(CompileNode(children[1], names, None).value,
                             Cell(Quoted(LITERAL, FromU8(AXIS)), CompileNode(children[2], names, None).value)))
  {
    hide CompileNode, Portable, LeValue, CombineAxisIndices, Combinable, Readable, Joined;
  }

  lemma VariablePartMeaning<S(!new)>(w: World<S>, children: seq<Node>, env: Env, s: S, fuel: nat)
    requires |children| == 3 && children[1].Symbol? && children[2].Literal? &&
      MeaningAxis(w, children, env, s, fuel).Some?
    ensures Lookup(env, children[1].name).Some?
    ensures var v := Part(LeValue(children[2].bytes), Lookup(env, children[1].name).value);
            v.Some? && MeaningAxis(w, children, env, s, fuel) == Some(Given(v.value, s))
  {
    hide Part, LeValue, Lookup;
  }

  lemma LiteralMeaning<S(!new)>(w: World<S>, bs: Bytes, env: Env, s: S, fuel: nat)
    ensures Meaning(w, Literal(bs), env, None, s, fuel) == Some(Given(Data(bs), s))
  {
  }

  lemma ComputesFixedPart<S(!new)>(w: World<S>, env: Env, f: Noun, s: S, whole: Given<S>, a: nat, bs: Bytes)
    requires Computes(w, env, f, s, whole, a) && Part(LeValue(bs), whole.value).Some?
    ensures Computes(w, env, Quoted(COMPOSE, Cell(f, Quoted(AXIS, Atom(bs)))), s,
                     Given(Part(LeValue(bs), whole.value).value, whole.engine), 1 + a + 1)
  {
    hide Runs, LeValue, Part;
    var part := Part(LeValue(bs), whole.value).value;
    EncodedPart(LeValue(bs), whole.value);
    RunsAxis(w, whole.engine, Encoded(whole.value), Atom(bs), Encoded(part));
    RunsChained(w, Laid(env), COMPOSE, Cell(f, Quoted(AXIS, Atom(bs))), Encoded(whole.value), Quoted(AXIS, Atom(bs)),
                s, Encoded(whole.value), whole.engine, a, Encoded(part), whole.engine, 1);
  }

  lemma ComputesFoundPart<S(!new)>(w: World<S>, env: Env, f: Noun, g: Noun, s: S, whole: Given<S>, a: nat,
                                   index: Given<S>, b: nat)
    returns (cost: nat)
    requires Computes(w, env, f, s, whole, a) && Computes(w, env, g, whole.engine, index, b)
    requires index.value.Data? && Part(LeValue(index.value.bytes), whole.value).Some?
    ensures Computes(w, env, Quoted(RECURSE, Cell(f, Cell(Quoted(LITERAL, FromU8(AXIS)), g))), s,
                     Given(Part(LeValue(index.value.bytes), whole.value).value, index.engine), cost)
  {
    hide Runs, LeValue, Part;
    var bs := index.value.bytes;
    var part := Part(LeValue(bs), whole.value).value;
    EncodedPart(LeValue(bs), whole.value);
    RunsAxis(w, index.engine, Encoded(whole.value), Atom(bs), Encoded(part));
    cost := RunsComputedAxis(w, Laid(env), f, g, s, Encoded(whole.value), whole.engine, a, bs, index.engine, b,
                             Encoded(part));
  }

  /** The address of a variable joined with a literal one is the address of the variable's part. */
  lemma CorrectVariablePart<S(!new)>(w: World<S>, env: Env, names: Names, x: string, bs: Bytes, s: S)
    requires Scope(env, names) && x in names && Lookup(env, x).Some?
    requires Part(LeValue(bs), Lookup(env, x).value).Some?
    requires LeValue(bs) >= 1 ==> Combinable(names[x], LeValue(bs)) && Readable(Joined(names[x], LeValue(bs)))
    ensures CombineAxisIndices(names[x], LeValue(bs)).Some?
    ensures Computes(w, env, Fetch(CombineAxisIndices(names[x], LeValue(bs)).value), s,
                     Given(Part(LeValue(bs), Lookup(env, x).value).value, s), 1)
  {
    var v := Lookup(env, x).value;
    LookupAddress(env, x);
    EncodedPart(LeValue(bs), v);
    CombineSlot(names[x], LeValue(bs), Laid(env));
    RunsAxis(w, s, Laid(env), FromCompact(Joined(names[x], LeValue(bs))), Encoded(Part(LeValue(bs), v).value));
  }

  lemma RunsComputedAxis<S(!new)>(w: World<S>, subject: Noun, f: Noun, g: Noun,
                                  s: S, x: Noun, s1: S, a: nat, bs: Bytes, s2: S, b: nat, y: Noun) returns (cost: nat)
    requires Runs(w, s, subject, f, x, s1, a) && Runs(w, s1, subject, g, Atom(bs), s2, b)
    requires Runs(w, s2, x, Quoted(AXIS, Atom(bs)), y, s2, 1)
    ensures Runs(w, s, subject, Quoted(RECURSE, Cell(f, Cell(Quoted(LITERAL, FromU8(AXIS)), g))), y, s2, cost)
  {
    hide Runs;
    var quote := Quoted(LITERAL, FromU8(AXIS));
    RunsLiteral(w, s1, subject, FromU8(AXIS));
    RunsBoth(w, subject, quote, g, s1, FromU8(AXIS), s1, 1, Atom(bs), s2, b);
    RunsRecurse(w, subject, f, Cell(quote, g), s, x, s1, a, Quoted(AXIS, Atom(bs)), s2, 2 + b, y, s2, 1);
    cost := 1 + a + (2 + b) + 1;
  }

  lemma {:induction false} CorrectBindings<S(!new)>(w: World<S>, bindings: seq<Node>, env: Env, names: Names, s: S,
                                                    fuel: nat)
    returns (states: seq<S>, costs: seq<nat>)
    requires Scope(env, names) && PortableBindings(bindings, names)
    requires CompileBindings(bindings, names).Ok? && MeaningBindings(w, bindings, env, s, fuel).Some?
    ensures ComputesAll(w, env, CompileBindings(bindings, names).value.1, s,
                        MeaningBindings(w, bindings, env, s, fuel).value, states, costs)
    decreases fuel, bindings, 0
  {
    if bindings == [] {
      states, costs := [s], [];
    } else {
      var pair := bindings[0].children;
      var own := Some(pair[0].name);
      var first := Meaning(w, pair[1], env, own, s, fuel).value;
      var cost := Correct(w, pair[1], env, names, own, s, fuel);
      var restStates, restCosts := CorrectBindings(w, bindings[1..], env, names, first.engine, fuel);
      states, costs := [s] + restStates, [cost] + restCosts;
      ComputesCons(w, env, CompileNode(pair[1], names, own).value, s, first, cost,
                   CompileBindings(bindings[1..], names).value.1,
                   MeaningBindings(w, bindings[1..], env, first.engine, fuel).value, restStates, restCosts);
    }
  }

  lemma {:induction false} CorrectLet<S(!new)>(w: World<S>, children: seq<Node>, env: Env, names: Names, s: S,
                                               fuel: nat)
    returns (cost: nat)
    requires children != [] && Scope(env, names) && PortableLet(children, names)
    requires CompileLet(children, names).Ok? && MeaningLet(w, children, env, s, fuel).Some?
    ensures Computes(w, env, CompileLet(children, names).value, s, MeaningLet(w, children, env, s, fuel).value, cost)
    decreases fuel, children, 1
  {
    hide *;
    LetParts(w, children, env, names, s, fuel);
    var bindings := children[1].children;
    var r := MeaningBindings(w, bindings, env, s, fuel).value;
    var (bound, formulas) := CompileBindings(bindings, names).value;
    var states, costs := CorrectBindings(w, bindings, env, names, s, fuel);
    var extended := AddNameResolutions(names, bound).value;
    var inner := Let(bound, r.values, env);
    AllSound(w, env, formulas, s, r, states, costs);
    LetScope(env, names, bound, r.values, extended);
    var rest := Correct(w, children[2], inner, extended, None, r.engine, fuel);
    cost := ComputesLet(w, env, bound, formulas, CompileNode(children[2], extended, None).value, s, r, states, costs,
                        Meaning(w, children[2], inner, None, r.engine, fuel).value, rest);
  }

  /** What a `let` that compiles and gives a value consists of. */
  lemma LetParts<S(!new)>(w: World<S>, children: seq<Node>, env: Env, names: Names, s: S, fuel: nat)
    requires children != [] && PortableLet(children, names)
    requires CompileLet(children, names).Ok? && MeaningLet(w, children, env, s, fuel).Some?
    ensures |children| == 3 && children[1].Parent?
    ensures var bindings := children[1].children;
            PortableBindings(bindings, names) && Grouped(|bindings|) &&
            CompileBindings(bindings, names).Ok? && MeaningBindings(w, bindings, env, s, fuel).Some? &&
            var (bound, formulas) := CompileBindings(bindings, names).value;
            var r := MeaningBindings(w, bindings, env, s, fuel).value;
            |bound| == |formulas| == |r.values| == |bindings| && AddNameResolutions(names, bound).Some? &&
            var extended := AddNameResolutions(names, bound).value;
            Portable(children[2], extended, None) && CompileNode(children[2], extended, None).Ok? &&
            CompileLet(children, names).value ==
              Quoted(DEFINE, Cell(Dense(formulas), CompileNode(children[2], extended, None).value)) &&
            MeaningLet(w, children, env, s, fuel) ==
              Meaning(w, children[2], Let(bound, r.values, env), None, r.engine, fuel)
  {
    BindingNames(children[1].children, names);
    hide CompileNode, Meaning, Portable, Dense, AddNameResolutions;
  }

  /** The scope of a `let`'s body. */
  lemma LetScope(env: Env, names: Names, bound: seq<string>, values: seq<Value>, extended: Names)
    requires Scope(env, names) && Grouped(|bound|) && |bound| == |values| && SoundAll(values)
    requires AddNameResolutions(names, bound) == Some(extended)
    ensures Scope(Let(bound, values, env), extended)
  {
    hide AddNameResolutions;
  }

  lemma AllSound<S(!new)>(w: World<S>, env: Env, codes: seq<Noun>, s: S, r: AllGiven<S>, states: seq<S>,
                           costs: seq<nat>)
    requires ComputesAll(w, env, codes, s, r, states, costs)
    ensures SoundAll(r.values)
  {
  }

  lemma ComputesLet<S(!new)>(w: World<S>, env: Env, bound: seq<string>,
                             formulas: seq<Noun>, body: Noun, s: S, r: AllGiven<S>,
                             states: seq<S>, costs: seq<nat>, given: Given<S>, b: nat) returns (cost: nat)
    requires Grouped(|bound|) && |bound| == |formulas| == |r.values| &&
      ComputesAll(w, env, formulas, s, r, states, costs)
    requires Computes(w, Let(bound, r.values, env), body, r.engine, given, b)
    ensures Computes(w, env, Quoted(DEFINE, Cell(Dense(formulas), body)), s, given, cost)
  {
    hide Runs, RunsAll, Continuation, Dense;
    var first := RunsDense(w, Laid(env), formulas, EncodedAll(r.values), states, costs);
    DefineContinues(Laid(env), Dense(formulas), body, Dense(EncodedAll(r.values)));
    RunsChained(w, Laid(env), DEFINE, Cell(Dense(formulas), body), Laid(Let(bound, r.values, env)), body,
                s, Dense(EncodedAll(r.values)), r.engine, first, Encoded(given.value), given.engine, b);
    cost := 1 + first + b;
  }

  lemma DefineContinues(subject: Noun, f: Noun, g: Noun, v: Noun)
    ensures Continuation(DEFINE, subject, Cell(f, g), v) == Ok((Cell(v, subject), g))
  {
  }

  lemma CorrectLambda<S(!new)>(w: World<S>, children: seq<Node>, env: Env, names: Names, selfName: Option<string>, s: S)
    returns (cost: nat)
    requires children != [] && Scope(env, names) && PortableLambda(children, names, selfName)
    requires CompileLambda(children, names, selfName).Ok? && MeaningLambda(children, env, selfName, s).Some?
    ensures Computes(w, env, CompileLambda(children, names, selfName).value, s,
                     MeaningLambda(children, env, selfName, s).value, cost)
  {
    ClosureRuns(w, Laid(env), CodeOf(MeaningLambda(children, env, selfName, s).value.value).value, s);
    hide Runs;
    cost := 3;
  }

  /** A literal beside the whole subject makes a closure. */
  lemma ClosureRuns<S(!new)>(w: World<S>, subject: Noun, body: Noun, s: S)
    ensures Runs(w, s, subject, Cell(Quoted(LITERAL, body), Quoted(AXIS, FromU8(1))), Cell(body, subject), s, 3)
  {
    RunsLiteral(w, s, subject, body);
    assert [1][1..] == [];
    RunsAxis(w, s, subject, FromU8(1), subject);
    hide Runs;
    RunsBoth(w, subject, Quoted(LITERAL, body), Quoted(AXIS, FromU8(1)), s, body, s, 1, subject, s, 1);
  }

  lemma {:induction false} CorrectCall<S(!new)>(w: World<S>, children: seq<Node>, env: Env, names: Names, s: S,
                                                fuel: nat)
    returns (cost: nat)
    requires children != [] && children[0].Symbol? && Scope(env, names)
    requires children[0].name in names ==> Readable(names[children[0].name])
    requires PortableAll(children[1..], names)
    requires CompileCall(children, names).Ok? && MeaningCall(w, children, env, s, fuel).Some?
    ensures Computes(w, env, CompileCall(children, names).value, s, MeaningCall(w, children, env, s, fuel).value, cost)
    decreases fuel, children, 1
  {
    hide *;
    CallParts(w, children, env, names, s, fuel);
    var name := children[0].name;
    var callee := Lookup(env, name).value;
    var r := MeaningAll(w, children[1..], env, s, fuel).value;
    var formulas := CompileAll(children[1..], names).value;
    var first := CorrectGroup(w, children[1..], env, names, s, fuel);
    CorrectSymbol(w, env, names, name, r.engine);
    CallScope(r.values, callee);
    var rest := Correct(w, callee.body, Call(r.values, callee), ClosureNames(callee).value, None, r.engine, fuel - 1);
    var given := Meaning(w, callee.body, Call(r.values, callee), None, r.engine, fuel - 1).value;
    cost := ComputesCall(w, env, Dense(formulas), Fetch(names[name]), s, r, first, callee, given, rest);
  }

  /** What a call that compiles and gives a value consists of. */
  lemma CallParts<S(!new)>(w: World<S>, children: seq<Node>, env: Env, names: Names, s: S, fuel: nat)
    requires children != [] && children[0].Symbol? && Scope(env, names)
    requires children[0].name in names ==> Readable(names[children[0].name])
    requires CompileCall(children, names).Ok? && MeaningCall(w, children, env, s, fuel).Some?
    ensures var name := children[0].name;
            name in names && Readable(names[name]) && children[1..] != [] && fuel > 0 &&
            Lookup(env, name).Some? && Lookup(env, name).value.Closure? && Sound(Lookup(env, name).value) &&
            CompileAll(children[1..], names).Ok? && MeaningAll(w, children[1..], env, s, fuel).Some? &&
            var callee := Lookup(env, name).value;
            var r := MeaningAll(w, children[1..], env, s, fuel).value;
            |callee.params| == |r.values| >= 1 &&
            CompileCall(children, names).value ==
              Quoted(CALL, Cell(FromU8(6), Cell(Dense(CompileAll(children[1..], names).value),
                                                Fetch(names[name])))) &&
            MeaningCall(w, children, env, s, fuel) ==
              Meaning(w, callee.body, Call(r.values, callee), None, r.engine, fuel - 1)
  {
    hide Meaning, CompileNode, Dense;
    LookupAddress(env, children[0].name);
  }

  lemma {:induction false} CorrectGroup<S(!new)>(w: World<S>, nodes: seq<Node>, env: Env, names: Names, s: S, fuel: nat)
    returns (cost: nat)
    requires nodes != [] && Scope(env, names) && PortableAll(nodes, names)
    requires CompileAll(nodes, names).Ok? && MeaningAll(w, nodes, env, s, fuel).Some?
    ensures var r := MeaningAll(w, nodes, env, s, fuel).value;
            var codes := CompileAll(nodes, names).value;
            SoundAll(r.values) && Dense(codes).Cell? &&
            Runs(w, s, Laid(env), Dense(codes), Dense(EncodedAll(r.values)), r.engine, cost)
    decreases fuel, nodes, 1
  {
    var states, costs := CorrectAll(w, nodes, env, names, s, fuel);
    cost := RunsDense(w, Laid(env), CompileAll(nodes, names).value,
                      EncodedAll(MeaningAll(w, nodes, env, s, fuel).value.values), states, costs);
  }

  lemma ComputesCall<S(!new)>(w: World<S>, env: Env, f: Noun, finder: Noun, s: S, r: AllGiven<S>, a: nat,
                              callee: Value, given: Given<S>, b: nat) returns (cost: nat)
    requires callee.Closure? && Sound(callee) && SoundAll(r.values) && |r.values| == |callee.params| >= 1
    requires f.Cell? && Runs(w, s, Laid(env), f, Dense(EncodedAll(r.values)), r.engine, a)
    requires Computes(w, env, finder, r.engine, Given(callee, r.engine), 1)
    requires Computes(w, Call(r.values, callee), CodeOf(callee).value, r.engine, given, b)
    ensures Computes(w, env, Quoted(CALL, Cell(FromU8(6), Cell(f, finder))), s, given, cost)
  {
    CallScope(r.values, callee);
    cost := RunsCall(w, Laid(env), f, finder, s, Dense(EncodedAll(r.values)), r.engine, a,
                     CodeOf(callee).value, Laid(callee.env), Encoded(given.value), given.engine, b);
  }

  /** The scope of a call, and what its subject and code are. */
  lemma CallScope(args: seq<Value>, callee: Value)
    requires callee.Closure? && Sound(callee) && SoundAll(args) && |args| == |callee.params| >= 1
    ensures ClosureNames(callee).Some? && Scope(Call(args, callee), ClosureNames(callee).value)
    ensures Portable(callee.body, ClosureNames(callee).value, None)
    ensures CodeOf(callee) == CompileNode(callee.body, ClosureNames(callee).value, None) && CodeOf(callee).Ok?
    ensures Encoded(callee) == Cell(CodeOf(callee).value, Laid(callee.env))
    ensures Laid(Call(args, callee)) == Cell(Dense(EncodedAll(args)), Encoded(callee))
  {
  }

  /** Calling: make the arguments, find the closure, and run its code on both. */
  lemma RunsCall<S(!new)>(w: World<S>, subject: Noun, f: Noun, finder: Noun, s: S, args: Noun, s1: S, a: nat,
                          code: Noun, scope: Noun, y: Noun, s2: S, b: nat) returns (cost: nat)
    requires f.Cell? && Runs(w, s, subject, f, args, s1, a) && Runs(w, s1, subject, finder, Cell(code, scope), s1, 1)
    requires Runs(w, s1, Cell(args, Cell(code, scope)), code, y, s2, b)
    ensures Runs(w, s, subject, Quoted(CALL, Cell(FromU8(6), Cell(f, finder))), y, s2, cost)
  {
    hide Runs;
    var core := Cell(args, Cell(code, scope));
    RunsBoth(w, subject, f, finder, s, args, s1, a, Cell(code, scope), s1, 1);
    CallFindsCode(args, code, scope);
    RunsChained(w, subject, CALL, Cell(FromU8(6), Cell(f, finder)), core, code, s, core, s1, 1 + a + 1, y, s2, b);
    cost := 1 + (1 + a + 1) + b;
  }

  /** In [arguments [code scope]], the code is at 6. */
  lemma CallFindsCode(args: Noun, code: Noun, scope: Noun)
    ensures AxisResult(FromU8(6), Cell(args, Cell(code, scope))) == Ok(code)
  {
    assert [6][1..] == [];
    var n := Cell(args, Cell(code, scope));
    assert Slot(1, n) == Some(n);
    assert Slot(3, n) == Some(Cell(code, scope));
  }

  /**
   * Whole programs: with enough ticks, evaluating a compiled program gives the noun of what the program means,
   * with the side effects it should have.
   */
  lemma ProgramCorrect<S(!new)>(w: World<S>, node: Node, subject: Noun, s: S, fuel: nat) returns (cost: nat)
    requires Portable(node, map[], None) && CompileProgram(node).Ok?
    requires Meaning(w, node, Top(subject), None, s, fuel).Some?
    ensures forall limit :: cost <= limit ==>
              var r := Meaning(w, node, Top(subject), None, s, fuel).value;
              EvalProgram(w, s, Cell(subject, CompileProgram(node).value), limit) == (Ok(Encoded(r.value)), r.engine)
  {
    cost := Correct(w, node, Top(subject), map[], None, s, fuel);
    var code := CompileProgram(node).value;
    var r := Meaning(w, node, Top(subject), None, s, fuel).value;
    forall limit | cost <= limit
      ensures EvalProgram(w, s, Cell(subject, code), limit) == (Ok(Encoded(r.value)), r.engine)
    {
      var m := Machine(NOBODY, map[NOBODY := limit], s);
      assert Eval(w, m, subject, code) == (Ok(Encoded(r.value)), After(m, cost, r.engine));
    }
  }

  /**
   * Not so for `(generate_keypair)`: its formula is an atom, and evaluating it fails, whatever the engine and limit.
   */
  lemma GenerateKeypairFails<S>(w: World<S>, subject: Noun, s: S, limit: nat)
    ensures CompileProgram(Parent([Symbol("generate_keypair")])) == Ok(FromU8(GENERATE_KEYPAIR))
    ensures EvalProgram(w, s, Cell(subject, FromU8(GENERATE_KEYPAIR)), limit).0.Err?
  {
    assert [Symbol("generate_keypair")][1..] == [];
    var m := Machine(NOBODY, map[NOBODY := limit], s);
    assert Eval(w, m, subject, FromU8(GENERATE_KEYPAIR)).0.Err? by {
      if m.Ticks() > 0 {
        assert Dispatch(w, m.WithTicks(m.Ticks() - 1), subject, FromU8(GENERATE_KEYPAIR)).0.Err?;
      }
    }
  }
}
