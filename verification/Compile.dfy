/**
 * The compiler from Lisp syntax trees to formulas (`lisp/src/compile.rs`). Where the program panics, the
 * model's answer is `Panic`; shifts out of a 64-bit address panic as they do in a checked build.
 */
module Compile {
  import opened Basics
  import opened Nouns
  import opened DenseTree
  import opened Evaluation
  import opened Syntax

  /** Where each name's value is found in the subject. */
  type Names = map<string, nat>

  datatype CompileError =
    | UnresolvedName | EmptyParent | NotAFunctionCall | UnknownFunction | WrongParameterCount | IndexTooBig
    | MalformedAxis | MalformedLet | BindingsNotAList | MalformedBinding | BindingNotASymbol
    | MalformedLambda | ParametersNotAList | ParameterNotASymbol | Panic

  type Compiled<T> = Result<T, CompileError>

  function NativeOpcode(name: string): Option<(Byte, nat)> {
    if name == "random" then Some((RANDOM, 1))
    else if name == "is_cell" then Some((IS_CELL, 1))
    else if name == "hash" then Some((HASH, 1))
    else if name == "shape" then Some((SHAPE, 1))
    else if name == "if" then Some((IF, 3))
    else if name == "equal" then Some((IS_EQUAL, 2))
    else if name == "store_by_hash" then Some((STORE_BY_HASH, 1))
    else if name == "retrieve_by_hash" then Some((RETRIEVE_BY_HASH, 1))
    else if name == "store_by_key" then Some((STORE_BY_KEY, 2))
    else if name == "retrieve_by_key" then Some((RETRIEVE_BY_KEY, 1))
    else if name == "generate_keypair" then Some((GENERATE_KEYPAIR, 0))
    else if name == "encrypt" then Some((ENCRYPT, 2))
    else if name == "decrypt" then Some((DECRYPT, 2))
    else if name == "exucrypt" then Some((EXUCRYPT, 2))
    else if name == "add" then Some((ADD, 2))
    else if name == "invert" then Some((INVERT, 1))
    else if name == "xor" then Some((XOR, 2))
    else if name == "less" then Some((LESS, 2))
    else if name == "reshape" then Some((RESHAPE, 2))
    else None
  }

  function VecToTree(xs: seq<Noun>): Compiled<Noun> {
    if xs == [] then Err(Panic) else Ok(Nested(xs))
  }

  /** `vec_to_tree`, from the last item to the first. */
  method BuildVecToTree(xs: seq<Noun>) returns (r: Compiled<Noun>)
    ensures r == VecToTree(xs)
  {
    if xs == [] {
      return Err(Panic);
    }
    var next := |xs| - 1;
    var tree := xs[next];
    while next > 0
      invariant 0 <= next < |xs|
      invariant tree == Nested(xs[next..])
    {
      next := next - 1;
      assert xs[next..][1..] == xs[next + 1..];
      tree := Cell(xs[next], tree);
    }
    assert xs[0..] == xs;
    r := Ok(tree);
  }

  const TOP_BIT: nat := 0x8000_0000_0000_0000

  /** Prefix an address with one more step from the root: the leading one moves up and the step goes after it. */
  function AddInitialStep(position: nat, step: nat): Option<nat>
    requires step < 2
  {
    if position == 0 || position >= TOP_BIT then None
    else
      var lead := Pow2(Log2(position));
      Some(2 * lead + step * lead + (position - lead))
  }

  /** An address followed by another. The program does not notice bits of the first that are shifted out. */
  function CombineAxisIndices(first: nat, second: nat): Option<nat> {
    if second == 0 then None
    else
      var lead := Pow2(Log2(second));
      Some(first * lead % USIZE_LIMIT + (second - lead))
  }

  function LastIndex(names: seq<string>, x: string): (i: nat)
    requires x in names
    ensures i < |names| && names[i] == x
  {
    if names[|names| - 1] == x then |names| - 1 else LastIndex(names[..|names| - 1], x)
  }

  /** Every inherited address gets one more right step, and each new name is a left step into the dense tree. */
  function AddNameResolutions(parent: Names, names: seq<string>): Option<Names> {
    if exists x :: x in parent && AddInitialStep(parent[x], 1) == None then None
    else if exists i :: 0 <= i < |names| && AddInitialStep(DensePosition(|names|, i), 0) == None then None
    else
      Some(map x | x in parent.Keys + (set name | name in names) ::
        if x in names then AddInitialStep(DensePosition(|names|, LastIndex(names, x)), 0).value
        else AddInitialStep(parent[x], 1).value)
  }

  datatype LiteralResult = NotLiteral | Constant(noun: Noun) | LiteralPanic

  function LiteralNoun(node: Node): LiteralResult {
    match node
    case Literal(bs) => Constant(Atom(bs))
    case List(children) => LiteralNouns(children)
    case _ => NotLiteral
  }

  /** The nouns of literal nodes, nested; the first node that is not literal decides. */
  function LiteralNouns(nodes: seq<Node>): LiteralResult {
    if nodes == [] then LiteralPanic
    else
      match LiteralNoun(nodes[0])
      case NotLiteral => NotLiteral
      case LiteralPanic => LiteralPanic
      case Constant(first) =>
        if |nodes| == 1 then Constant(first)
        else
          match LiteralNouns(nodes[1..])
          case Constant(rest) => Constant(Cell(first, rest))
          case other => other
  }

  function Quoted(op: Byte, n: Noun): Noun {
    Cell(FromU8(op), n)
  }

  /** The formula that fetches what is at an address. */
  function Fetch(position: nat): Noun {
    Quoted(AXIS, FromCompact(position))
  }

  function SymbolNames(nodes: seq<Node>): Compiled<seq<string>> {
    if nodes == [] then Ok([])
    else if !nodes[0].Symbol? then Err(ParameterNotASymbol)
    else
      match SymbolNames(nodes[1..])
      case Err(e) => Err(e)
      case Ok(rest) => Ok([nodes[0].name] + rest)
  }

  /** The names a lambda's body sees: its own name and what was in scope, two levels down, and its parameters. */
  function LambdaNames(names: Names, params: seq<string>, selfName: Option<string>): Option<Names> {
    match AddNameResolutions(names, [])
    case None => None
    case Some(inner) =>
      AddNameResolutions(if selfName.Some? then inner[selfName.value := 1] else inner, params)
  }

  function CompileNode(node: Node, names: Names, selfName: Option<string>): Compiled<Noun>
    decreases node, 1
  {
    match node
    case Symbol(x) =>
      if x in names then Ok(Fetch(names[x])) else Err(UnresolvedName)
    case Literal(bs) => Ok(Quoted(LITERAL, Atom(bs)))
    case List(children) =>
      (match LiteralNoun(node)
       case LiteralPanic => Err(Panic)
       case Constant(n) => Ok(Quoted(LITERAL, n))
       case NotLiteral =>
         match CompileAll(children, names)
         case Err(e) => Err(e)
         case Ok(formulas) => VecToTree(formulas))
    case Parent(children) =>
      if children == [] then Err(EmptyParent)
      else if !children[0].Symbol? then Err(NotAFunctionCall)
      else
        var name := children[0].name;
        if NativeOpcode(name).Some? then CompileNative(children, names, NativeOpcode(name).value)
        else if name == "axis" then CompileAxis(children, names)
        else if name == "let" then CompileLet(children, names)
        else if name == "lambda" then CompileLambda(children, names, selfName)
        else CompileCall(children, names)
  }

  function CompileAll(nodes: seq<Node>, names: Names): (r: Compiled<seq<Noun>>)
    ensures r.Ok? ==> |r.value| == |nodes|
    decreases nodes, 0
  {
    if nodes == [] then Ok([])
    else
      match CompileNode(nodes[0], names, None)
      case Err(e) => Err(e)
      case Ok(first) =>
        match CompileAll(nodes[1..], names)
        case Err(e) => Err(e)
        case Ok(rest) => Ok([first] + rest)
  }

  function CompileNative(children: seq<Node>, names: Names, native: (Byte, nat)): Compiled<Noun>
    requires children != []
    decreases children, 1
  {
    if |children| != native.1 + 1 then Err(WrongParameterCount)
    else
      match CompileAll(children[1..], names)
      case Err(e) => Err(e)
      case Ok(args) => VecToTree([FromU8(native.0)] + args)
  }

  function CompileAxis(children: seq<Node>, names: Names): Compiled<Noun>
    requires children != []
    decreases children, 1
  {
    if |children| != 3 then Err(MalformedAxis)
    else
      match (children[1], children[2])
      case (Symbol(x), Literal(bs)) =>
        if AsU64(Atom(bs)) == None then Err(IndexTooBig)
        else if x !in names then Err(UnresolvedName)
        else
          (match CombineAxisIndices(names[x], LeValue(bs))
           case None => Err(Panic)
           case Some(position) => Ok(Fetch(position)))
      case (target, Literal(bs)) =>
        (match CompileNode(target, names, None)
         case Err(e) => Err(e)
         case Ok(maker) => Ok(Quoted(COMPOSE, Cell(maker, Quoted(AXIS, Atom(bs))))))
      case (target, index) =>
        match CompileNode(target, names, None)
        case Err(e) => Err(e)
        case Ok(maker) =>
          match CompileNode(index, names, None)
          case Err(e) => Err(e)
          case Ok(indexMaker) =>
            Ok(Quoted(RECURSE, Cell(maker, Cell(Quoted(LITERAL, FromU8(AXIS)), indexMaker))))
  }

  /** The names and formulas of a `let`'s bindings; a lambda bound to a name may call itself by it. */
  function CompileBindings(bindings: seq<Node>, names: Names): (r: Compiled<(seq<string>, seq<Noun>)>)
    ensures r.Ok? ==> |r.value.0| == |r.value.1| == |bindings|
    decreases bindings, 0
  {
    if bindings == [] then Ok(([], []))
    else
      match bindings[0]
      case Parent(pair) =>
        if |pair| != 2 then Err(MalformedBinding)
        else if !pair[0].Symbol? then Err(BindingNotASymbol)
        else
          (match CompileNode(pair[1], names, Some(pair[0].name))
           case Err(e) => Err(e)
           case Ok(first) =>
             match CompileBindings(bindings[1..], names)
             case Err(e) => Err(e)
             case Ok((restNames, rest)) => Ok(([pair[0].name] + restNames, [first] + rest)))
      case _ => Err(MalformedBinding)
  }

  function CompileLet(children: seq<Node>, names: Names): Compiled<Noun>
    requires children != []
    decreases children, 1
  {
    if |children| != 3 then Err(MalformedLet)
    else if !children[1].Parent? then Err(BindingsNotAList)
    else
      match AddBindings(children[1].children, names)
      case Err(e) => Err(e)
      case Ok((definitions, extended)) =>
        match CompileNode(children[2], extended, None)
        case Err(e) => Err(e)
        case Ok(body) => Ok(Quoted(DEFINE, Cell(definitions, body)))
  }

  /** The tree of a `let`'s definitions, and the names in scope of its body. */
  function AddBindings(bindings: seq<Node>, names: Names): Compiled<(Noun, Names)>
    decreases bindings, 1
  {
    match CompileBindings(bindings, names)
    case Err(e) => Err(e)
    case Ok((bound, formulas)) =>
      if Packed(formulas) == None then Err(Panic)
      else
        match AddNameResolutions(names, bound)
        case None => Err(Panic)
        case Some(extended) => Ok((Packed(formulas).value, extended))
  }

  function CompileLambda(children: seq<Node>, names: Names, selfName: Option<string>): Compiled<Noun>
    requires children != []
    decreases children, 1
  {
    if |children| != 3 then Err(MalformedLambda)
    else if AddNameResolutions(names, []) == None then Err(Panic)
    else if !children[1].Parent? then Err(ParametersNotAList)
    else
      match SymbolNames(children[1].children)
      case Err(e) => Err(e)
      case Ok(params) =>
        match LambdaNames(names, params, selfName)
        case None => Err(Panic)
        case Some(extended) =>
          match CompileNode(children[2], extended, None)
          case Err(e) => Err(e)
          case Ok(body) => Ok(Cell(Quoted(LITERAL, body), Quoted(AXIS, FromU8(1))))
  }

  function CompileCall(children: seq<Node>, names: Names): Compiled<Noun>
    requires children != [] && children[0].Symbol?
    decreases children, 1
  {
    if children[0].name !in names then Err(UnknownFunction)
    else
      match CompileAll(children[1..], names)
      case Err(e) => Err(e)
      case Ok(args) =>
        match Packed(args)
        case None => Err(Panic)
        case Some(argMaker) =>
          Ok(Quoted(CALL, Cell(FromU8(6), Cell(argMaker, Fetch(names[children[0].name])))))
  }

  /** Whole programs have no names in scope. */
  function CompileProgram(node: Node): Compiled<Noun> {
    CompileNode(node, map[], None)
  }

  /** Where a new name goes: its item's address in the dense tree, one step to the left. */
  function Placed(count: nat, i: nat): Option<nat>
    requires i < count
  {
    AddInitialStep(DensePosition(count, i), 0)
  }

  /** `add_name_resolutions`: inherited names in whatever order, then new ones, later ones over earlier ones. */
  method ResolveNames(parent: Names, names: seq<string>) returns (r: Option<Names>)
    ensures r == AddNameResolutions(parent, names)
  {
    hide AddInitialStep, Placed, LastIndex, AddNameResolutions;
    var resolutions: Names := map[];
    var todo := parent.Keys;
    while todo != {}
      invariant todo <= parent.Keys && resolutions.Keys == parent.Keys - todo
      invariant forall x :: x in resolutions ==> AddInitialStep(parent[x], 1) == Some(resolutions[x])
      decreases |todo|
    {
      var x :| x in todo;
      var placed := AddInitialStep(parent[x], 1);
      if placed.None? {
        OldNameUnplaced(parent, names, x);
        return None;
      }
      resolutions := resolutions[x := placed.value];
      todo := todo - {x};
    }
    r := PlaceNames(parent, resolutions, names);
  }

  /** The loop over new names. */
  method PlaceNames(ghost parent: Names, inherited: Names, names: seq<string>) returns (r: Option<Names>)
    requires inherited.Keys == parent.Keys &&
      forall x :: x in inherited ==> AddInitialStep(parent[x], 1) == Some(inherited[x])
    ensures r == AddNameResolutions(parent, names)
  {
    hide AddInitialStep, Placed, LastIndex, AddNameResolutions;
    var resolutions := inherited;
    for i := 0 to |names|
      invariant forall j: nat :: j < i ==> Placed(|names|, j).Some?
      invariant resolutions.Keys == parent.Keys + (set name | name in names[..i])
      invariant forall x :: x in resolutions ==>
        Some(resolutions[x]) ==
          if x in names[..i] then Placed(|names|, LastIndex(names[..i], x)) else Some(inherited[x])
    {
      var placed := Placed(|names|, i);
      if placed.None? {
        NewNameUnplaced(parent, names, i);
        return None;
      }
      assert names[..i + 1] == names[..i] + [names[i]];
      LastIndexSnoc(names[..i], names[i]);
      resolutions := resolutions[names[i] := placed.value];
    }
    assert names[..|names|] == names;
    NamesResolved(parent, names, inherited, resolutions);
    r := Some(resolutions);
  }

  lemma NamesResolved(parent: Names, names: seq<string>, inherited: Names, resolutions: Names)
    requires inherited.Keys == parent.Keys &&
      forall x :: x in inherited ==> AddInitialStep(parent[x], 1) == Some(inherited[x])
    requires forall j: nat :: j < |names| ==> Placed(|names|, j).Some?
    requires resolutions.Keys == parent.Keys + (set name | name in names)
    requires forall x :: x in resolutions ==>
      Some(resolutions[x]) == if x in names then Placed(|names|, LastIndex(names, x)) else Some(inherited[x])
    ensures AddNameResolutions(parent, names) == Some(resolutions)
  {
    hide AddInitialStep, DensePosition, LastIndex;
    AllPlaced(parent, names, inherited);
    var r := AddNameResolutions(parent, names).value;
    assert r.Keys == resolutions.Keys;
    forall x | x in r
      ensures r[x] == resolutions[x]
    {
      if x !in names {
        assert x in inherited;
      }
    }
    hide Placed, AddNameResolutions;
    assert r == resolutions;
  }

  lemma AllPlaced(parent: Names, names: seq<string>, inherited: Names)
    requires inherited.Keys == parent.Keys &&
      forall x :: x in inherited ==> AddInitialStep(parent[x], 1) == Some(inherited[x])
    requires forall j: nat :: j < |names| ==> Placed(|names|, j).Some?
    ensures AddNameResolutions(parent, names).Some?
  {
    hide AddInitialStep, DensePosition;
    forall i | 0 <= i < |names|
      ensures AddInitialStep(DensePosition(|names|, i), 0) != None
    {
      assert Placed(|names|, i).Some?;
    }
    assert forall x :: x in parent ==> x in inherited;
  }

  /** A name that is given twice is the later one. */
  lemma {:induction false} LastIndexIsLast(names: seq<string>, x: string)
    requires x in names
    ensures x !in names[LastIndex(names, x) + 1..]
    decreases |names|
  {
    var n := |names| - 1;
    if names[n] != x {
      LastIndexIsLast(names[..n], x);
      assert names[LastIndex(names, x) + 1..] == names[..n][LastIndex(names, x) + 1..] + [names[n]];
    }
  }

  lemma LastIndexSnoc(names: seq<string>, name: string)
    ensures LastIndex(names + [name], name) == |names|
    ensures forall x :: x in names && x != name ==> LastIndex(names + [name], x) == LastIndex(names, x)
  {
    assert (names + [name])[..|names|] == names;
  }

  lemma OldNameUnplaced(parent: Names, names: seq<string>, x: string)
    requires x in parent && AddInitialStep(parent[x], 1).None?
    ensures AddNameResolutions(parent, names) == None
  {
  }

  lemma NewNameUnplaced(parent: Names, names: seq<string>, i: nat)
    requires i < |names| && Placed(|names|, i).None?
    ensures AddNameResolutions(parent, names) == None
  {
    hide AddInitialStep, DensePosition;
  }

  /** `add_bindings`, binding by binding. */
  method CollectBindings(bindings: seq<Node>, names: Names) returns (r: Compiled<(Noun, Names)>)
    ensures r == AddBindings(bindings, names)
  {
    var bound: seq<string> := [];
    var formulas: seq<Noun> := [];
    ghost var all := CompileBindings(bindings, names);
    assert all.Ok? ==> [] + all.value.0 == all.value.0 && [] + all.value.1 == all.value.1;
    assert bindings[0..] == bindings;
    for i := 0 to |bindings|
      invariant all == AfterBindings(bound, formulas, CompileBindings(bindings[i..], names))
    {
      assert bindings[i..][0] == bindings[i] && bindings[i..][1..] == bindings[i + 1..];
      match bindings[i]
      case Parent(pair) =>
        if |pair| != 2 {
          return Err(MalformedBinding);
        }
        if !pair[0].Symbol? {
          return Err(BindingNotASymbol);
        }
        var formula := CompileNode(pair[1], names, Some(pair[0].name));
        if formula.Err? {
          return Err(formula.error);
        }
        AfterBinding(bound, formulas, pair[0].name, formula.value, CompileBindings(bindings[i + 1..], names));
        bound, formulas := bound + [pair[0].name], formulas + [formula.value];
      case _ =>
        return Err(MalformedBinding);
    }
    assert bound + [] == bound && formulas + [] == formulas;
    var definitions := BuildIntoDenseTree(formulas);
    if definitions.None? {
      return Err(Panic);
    }
    var extended := ResolveNames(names, bound);
    r := if extended.None? then Err(Panic) else Ok((definitions.value, extended.value));
  }

  /** What collecting bindings gives, when some were collected already. */
  ghost function AfterBindings(bound: seq<string>, formulas: seq<Noun>, rest: Compiled<(seq<string>, seq<Noun>)>)
    : Compiled<(seq<string>, seq<Noun>)> {
    match rest
    case Err(e) => Err(e)
    case Ok((names, ns)) => Ok((bound + names, formulas + ns))
  }

  lemma AfterBinding(bound: seq<string>, formulas: seq<Noun>, name: string, formula: Noun,
                     rest: Compiled<(seq<string>, seq<Noun>)>)
    ensures AfterBindings(bound, formulas, AfterBindings([name], [formula], rest)) ==
      AfterBindings(bound + [name], formulas + [formula], rest)
  {
    if rest.Ok? {
      assert bound + ([name] + rest.value.0) == bound + [name] + rest.value.0;
      assert formulas + ([formula] + rest.value.1) == formulas + [formula] + rest.value.1;
    }
  }
}
