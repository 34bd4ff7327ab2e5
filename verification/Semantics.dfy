/**
 * What Lisp programs mean, without machine or addresses: an evaluator over environments of named values, in
 * which a lambda is a closure. It is the reference the compiler is proved against.
 *
 * A result of `None` means that the program gives no value (a failing operation, a wrong number of arguments,
 * an unbound name) or that `fuel`, which bounds the depth of calls, ran out.
 */
module Semantics {
  import opened Basics
  import opened Nouns
  import opened Evaluation
  import opened Compile
  import opened Syntax
  import opened Operations

  datatype Value =
    | Data(bytes: Bytes)
    | Pair(left: Value, right: Value)
    | Closure(params: seq<string>, body: Node, selfName: Option<string>, env: Env)

  /** Scopes, innermost first; `Top` holds the noun a whole program is run on, which no name reaches. */
  datatype Env =
    | Top(subject: Noun)
    | Let(names: seq<string>, values: seq<Value>, outer: Env)
    | Call(args: seq<Value>, callee: Value)

  /** The innermost binding of a name; in a call, first the parameters, then the function's own name. */
  function Lookup(env: Env, x: string): Option<Value> {
    match env
    case Top(_) => None
    case Let(names, values, outer) =>
      if x in names && |names| == |values| then Some(values[LastIndex(names, x)]) else Lookup(outer, x)
    case Call(args, callee) =>
      match callee
      case Closure(params, _, selfName, inner) =>
        if x in params && |params| == |args| then Some(args[LastIndex(params, x)])
        else if selfName == Some(x) then Some(callee)
        else Lookup(inner, x)
      case _ => None
  }

  /** Values without closures are nouns. */
  function ToNoun(v: Value): Option<Noun> {
    match v
    case Data(bs) => Some(Atom(bs))
    case Closure(_, _, _, _) => None
    case Pair(l, r) =>
      match (ToNoun(l), ToNoun(r))
      case (Some(x), Some(y)) => Some(Cell(x, y))
      case _ => None
  }

  function FromNoun(n: Noun): Value {
    match n
    case Atom(bs) => Data(bs)
    case Cell(l, r) => Pair(FromNoun(l), FromNoun(r))
  }

  /** The part of a value at an address. Only pairs have parts. */
  function Part(index: nat, v: Value): Option<Value> {
    if index == 0 then None
    else if index == 1 then Some(v)
    else
      match Part(index / 2, v)
      case Some(Pair(l, r)) => Some(if index % 2 == 0 then l else r)
      case _ => None
  }

  function NestedPairs(vs: seq<Value>): Value
    requires vs != []
  {
    if |vs| == 1 then vs[0] else Pair(vs[0], NestedPairs(vs[1..]))
  }

  datatype Given<S> = Given(value: Value, engine: S)
  datatype AllGiven<S> = AllGiven(values: seq<Value>, engine: S)

  /** The operations a program can name, and how many arguments each takes. */
  function Named(name: string): Option<(Instruction, nat)> {
    if name == "random" then Some((DoRandom, 1))
    else if name == "is_cell" then Some((DoIsCell, 1))
    else if name == "hash" then Some((DoHash, 1))
    else if name == "shape" then Some((DoShape, 1))
    else if name == "if" then Some((DoIf, 3))
    else if name == "equal" then Some((DoEqual, 2))
    else if name == "store_by_hash" then Some((DoStoreByHash, 1))
    else if name == "retrieve_by_hash" then Some((DoRetrieveByHash, 1))
    else if name == "store_by_key" then Some((DoStoreByKey, 2))
    else if name == "retrieve_by_key" then Some((DoRetrieveByKey, 1))
    else if name == "generate_keypair" then Some((DoGenerateKeypair, 0))
    else if name == "encrypt" then Some((DoEncrypt, 2))
    else if name == "decrypt" then Some((DoDecrypt, 2))
    else if name == "exucrypt" then Some((DoExucrypt, 2))
    else if name == "add" then Some((DoAdd, 2))
    else if name == "invert" then Some((DoInvert, 1))
    else if name == "xor" then Some((DoXor, 2))
    else if name == "less" then Some((DoLess, 2))
    else if name == "reshape" then Some((DoReshape, 2))
    else None
  }

  /** Native operations on values: `is_cell` looks at any value, the others only at data. */
  function Native<S>(w: World<S>, op: Instruction, v: Value, s: S): Option<Given<S>> {
    if op == DoIsCell then Some(Given(Data([if v.Data? then 0 else 1]), s))
    else
      match ToNoun(v)
      case None => None
      case Some(n) =>
        match Operation(w, op, n, s)
        case None => None
        case Some(effect) => Some(Given(FromNoun(effect.value), effect.engine))
  }

  function Meaning<S>(w: World<S>, node: Node, env: Env, selfName: Option<string>, s: S, fuel: nat): Option<Given<S>>
    decreases fuel, node, 1
  {
    match node
    case Symbol(x) =>
      (match Lookup(env, x)
       case None => None
       case Some(v) => Some(Given(v, s)))
    case Literal(bs) => Some(Given(Data(bs), s))
    case List(children) =>
      (match MeaningAll(w, children, env, s, fuel)
       case None => None
       case Some(r) => if r.values == [] then None else Some(Given(NestedPairs(r.values), r.engine)))
    case Parent(children) =>
      if children == [] || !children[0].Symbol? then None
      else
        var name := children[0].name;
        if name == "if" then MeaningIf(w, children, env, s, fuel)
        else if Named(name).Some? then MeaningNative(w, Named(name).value, children, env, s, fuel)
        else if name == "axis" then MeaningAxis(w, children, env, s, fuel)
        else if name == "let" then MeaningLet(w, children, env, s, fuel)
        else if name == "lambda" then MeaningLambda(children, env, selfName, s)
        else MeaningCall(w, children, env, s, fuel)
  }

  /** Left to right, each from the engine state the one before left. */
  function MeaningAll<S>(w: World<S>, nodes: seq<Node>, env: Env, s: S, fuel: nat): (r: Option<AllGiven<S>>)
    ensures r.Some? ==> |r.value.values| == |nodes|
    decreases fuel, nodes, 0
  {
    if nodes == [] then Some(AllGiven([], s))
    else
      match Meaning(w, nodes[0], env, None, s, fuel)
      case None => None
      case Some(first) =>
        match MeaningAll(w, nodes[1..], env, first.engine, fuel)
        case None => None
        case Some(rest) => Some(AllGiven([first.value] + rest.values, rest.engine))
  }

  function MeaningIf<S>(w: World<S>, children: seq<Node>, env: Env, s: S, fuel: nat): Option<Given<S>>
    decreases fuel, children, 1
  {
    if |children| != 4 then None
    else
      match Meaning(w, children[1], env, None, s, fuel)
      case Some(Given(Data(bs), s')) =>
        if LeValue(bs) == 1 then Meaning(w, children[2], env, None, s', fuel)
        else if LeValue(bs) == 0 then Meaning(w, children[3], env, None, s', fuel)
        else None
      case _ => None
  }

  /** Two arguments are given as a pair. */
  function MeaningNative<S>(w: World<S>, native: (Instruction, nat), children: seq<Node>, env: Env, s: S,
                            fuel: nat): Option<Given<S>>
    requires children != []
    decreases fuel, children, 1
  {
    if |children| != native.1 + 1 || |children| == 1 then None
    else
      match MeaningAll(w, children[1..], env, s, fuel)
      case None => None
      case Some(r) => Native(w, native.0, NestedPairs(r.values), r.engine)
  }

  function MeaningAxis<S>(w: World<S>, children: seq<Node>, env: Env, s: S, fuel: nat): Option<Given<S>>
    decreases fuel, children, 1
  {
    if |children| != 3 then None
    else
      match Meaning(w, children[1], env, None, s, fuel)
      case None => None
      case Some(whole) =>
        match Meaning(w, children[2], env, None, whole.engine, fuel)
        case Some(Given(Data(bs), s')) =>
          (match Part(LeValue(bs), whole.value)
           case None => None
           case Some(v) => Some(Given(v, s')))
        case _ => None
  }

  /** Bindings are evaluated in the outer scope; only a lambda can refer to the name it is bound to. */
  function MeaningBindings<S>(w: World<S>, bindings: seq<Node>, env: Env, s: S, fuel: nat): (r: Option<AllGiven<S>>)
    ensures r.Some? ==> |r.value.values| == |bindings|
    ensures r.Some? ==> BoundNames(bindings).Some?
    decreases fuel, bindings, 0
  {
    if bindings == [] then Some(AllGiven([], s))
    else
      match bindings[0]
      case Parent(pair) =>
        if |pair| != 2 || !pair[0].Symbol? then None
        else
          (match Meaning(w, pair[1], env, Some(pair[0].name), s, fuel)
           case None => None
           case Some(first) =>
             match MeaningBindings(w, bindings[1..], env, first.engine, fuel)
             case None => None
             case Some(rest) => Some(AllGiven([first.value] + rest.values, rest.engine)))
      case _ => None
  }

  function BoundNames(bindings: seq<Node>): (r: Option<seq<string>>)
    ensures r.Some? ==> |r.value| == |bindings|
  {
    if bindings == [] then Some([])
    else if !bindings[0].Parent? || |bindings[0].children| != 2 || !bindings[0].children[0].Symbol? then None
    else
      match BoundNames(bindings[1..])
      case None => None
      case Some(rest) => Some([bindings[0].children[0].name] + rest)
  }

  function MeaningLet<S>(w: World<S>, children: seq<Node>, env: Env, s: S, fuel: nat): Option<Given<S>>
    decreases fuel, children, 1
  {
    if |children| != 3 || !children[1].Parent? then None
    else
      match MeaningBindings(w, children[1].children, env, s, fuel)
      case None => None
      case Some(r) =>
        Meaning(w, children[2], Let(BoundNames(children[1].children).value, r.values, env), None, r.engine, fuel)
  }

  function MeaningLambda<S>(children: seq<Node>, env: Env, selfName: Option<string>, s: S): Option<Given<S>> {
    if |children| != 3 || !children[1].Parent? then None
    else
      match SymbolNames(children[1].children)
      case Err(_) => None
      case Ok(params) => Some(Given(Closure(params, children[2], selfName, env), s))
  }

  /** The arguments first, then the body, in the closure's own scope. */
  function MeaningCall<S>(w: World<S>, children: seq<Node>, env: Env, s: S, fuel: nat): Option<Given<S>>
    requires children != [] && children[0].Symbol?
    decreases fuel, children, 1
  {
    match Lookup(env, children[0].name)
    case Some(Closure(params, body, selfName, inner)) =>
      (match MeaningAll(w, children[1..], env, s, fuel)
       case None => None
       case Some(r) =>
         if |params| != |r.values| || fuel == 0 then None
         else Meaning(w, body, Call(r.values, Closure(params, body, selfName, inner)), None, r.engine, fuel - 1))
    case _ => None
  }
}
