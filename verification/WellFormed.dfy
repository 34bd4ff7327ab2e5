/**
 * Which programs compile: those whose names are bound, whose operations get as many arguments as they take, and whose
 * special forms have their parts. A program that is well formed either compiles or, for its sizes alone, panics.
 */
module WellFormed {
  import opened Basics
  import opened Nouns
  import opened Syntax
  import opened Compile
  import opened Semantics
  import opened Operations
  import opened Correctness
  import opened DenseTree

  predicate Formed(node: Node, bound: set<string>, selfName: Option<string>)
    decreases node, 1
  {
    match node
    case Symbol(x) => x in bound
    case Literal(_) => true
    case List(children) => FormedAll(children, bound)
    case Parent(children) =>
      children != [] && children[0].Symbol? &&
      var name := children[0].name;
      if Named(name).Some? then |children| == 1 + Named(name).value.1 && FormedAll(children[1..], bound)
      else if name == "axis" then FormedAxis(children, bound)
      else if name == "let" then FormedLet(children, bound)
      else if name == "lambda" then FormedLambda(children, bound, selfName)
      else name in bound && FormedAll(children[1..], bound)
  }

  predicate FormedAll(nodes: seq<Node>, bound: set<string>)
    decreases nodes, 0
  {
    nodes != [] ==> Formed(nodes[0], bound, None) && FormedAll(nodes[1..], bound)
  }

  /** A whole and an index. The index of a variable, if it is a literal, is a 64-bit number. */
  predicate FormedAxis(children: seq<Node>, bound: set<string>)
    requires children != []
    decreases children, 1
  {
    |children| == 3 && Formed(children[1], bound, None) && Formed(children[2], bound, None) &&
    (children[1].Symbol? && children[2].Literal? ==> LeValue(children[2].bytes) < 0x1_0000_0000_0000_0000)
  }

  /** Pairs of a name and what it is bound to. */
  predicate FormedBindings(bindings: seq<Node>, bound: set<string>)
    decreases bindings, 0
  {
    bindings != [] ==>
      bindings[0].Parent? &&
      var pair := bindings[0].children;
      |pair| == 2 && pair[0].Symbol? && Formed(pair[1], bound, Some(pair[0].name)) &&
        FormedBindings(bindings[1..], bound)
  }

  predicate FormedLet(children: seq<Node>, bound: set<string>)
    requires children != []
    decreases children, 1
  {
    |children| == 3 && children[1].Parent? && FormedBindings(children[1].children, bound) &&
    Formed(children[2], bound + BindingSet(children[1].children), None)
  }

  /** The names that bindings introduce. */
  function BindingSet(bindings: seq<Node>): set<string> {
    if bindings == [] then {}
    else
      (if bindings[0].Parent? && bindings[0].children != [] && bindings[0].children[0].Symbol?
       then {bindings[0].children[0].name} else {}) + BindingSet(bindings[1..])
  }

  /** The names of symbols. */
  function SymbolSet(nodes: seq<Node>): set<string> {
    if nodes == [] then {} else (if nodes[0].Symbol? then {nodes[0].name} else {}) + SymbolSet(nodes[1..])
  }

  predicate FormedLambda(children: seq<Node>, bound: set<string>, selfName: Option<string>)
    requires children != []
    decreases children, 1
  {
    |children| == 3 && children[1].Parent? && (forall p :: p in children[1].children ==> p.Symbol?) &&
    Formed(children[2], bound + SymbolSet(children[1].children) + (if selfName.Some? then {selfName.value} else {}),
           None)
  }

  /** Compiling ends well, or in a panic. */
  predicate Compiles<T>(r: Compiled<T>) {
    r.Ok? || r.error == Panic
  }

  lemma {:induction false} SymbolNamesOf(nodes: seq<Node>)
    ensures SymbolNames(nodes).Ok? <==> forall p :: p in nodes ==> p.Symbol?
    ensures SymbolNames(nodes).Ok? ==> (set name | name in SymbolNames(nodes).value) == SymbolSet(nodes)
    ensures SymbolNames(nodes).Ok? ==> |SymbolNames(nodes).value| == |nodes|
    ensures SymbolNames(nodes).Ok? ==> forall i :: 0 <= i < |nodes| ==> nodes[i] == Symbol(SymbolNames(nodes).value[i])
  {
    if nodes != [] {
      SymbolNamesOf(nodes[1..]);
      assert nodes[0] in nodes;
      forall p | p in nodes
        ensures p == nodes[0] || p in nodes[1..]
      {
      }
    }
  }

  lemma ResolvedKeys(parent: Names, names: seq<string>)
    requires AddNameResolutions(parent, names).Some?
    ensures AddNameResolutions(parent, names).value.Keys == parent.Keys + (set name | name in names)
  {
  }

  lemma {:induction false} LiteralFormed(node: Node, bound: set<string>)
    requires LiteralNoun(node).Constant? || LiteralNoun(node).LiteralPanic?
    ensures LiteralNoun(node).Constant? ==> Formed(node, bound, None)
    decreases node, 1
  {
    if node.List? && LiteralNoun(node).Constant? {
      LiteralsFormed(node.children, bound);
    }
  }

  lemma {:induction false} LiteralsFormed(nodes: seq<Node>, bound: set<string>)
    requires LiteralNouns(nodes).Constant?
    ensures FormedAll(nodes, bound)
    decreases nodes, 0
  {
    LiteralFormed(nodes[0], bound);
    if |nodes| > 1 {
      LiteralsFormed(nodes[1..], bound);
    }
  }

  /** The theorem. */
  lemma {:induction false} CompilesWhenFormed(node: Node, names: Names, selfName: Option<string>)
    ensures CompileNode(node, names, selfName).Ok? ==> Formed(node, names.Keys, selfName)
    ensures Formed(node, names.Keys, selfName) ==> Compiles(CompileNode(node, names, selfName))
    decreases node, 2
  {
    hide CompileNative, CompileAxis, CompileLet, CompileLambda, CompileCall, CompileAll, NativeOpcode, Named;
    hide FormedAxis, FormedLet, FormedLambda, FormedAll;
    match node
    case Symbol(_) =>
    case Literal(_) =>
    case List(children) =>
      if LiteralNoun(node).Constant? {
        LiteralFormed(node, names.Keys);
      }
      AllCompileWhenFormed(children, names);
    case Parent(children) =>
      if children != [] && children[0].Symbol? {
        var name := children[0].name;
        NativeTable(name);
        if NativeOpcode(name).Some? {
          NativeWhenFormed(children, names);
        } else if name == "axis" {
          AxisWhenFormed(children, names);
        } else if name == "let" {
          LetWhenFormed(children, names);
        } else if name == "lambda" {
          LambdaWhenFormed(children, names, selfName);
        } else {
          CallWhenFormed(children, names);
        }
      }
  }

  lemma {:induction false} AllCompileWhenFormed(nodes: seq<Node>, names: Names)
    ensures CompileAll(nodes, names).Ok? ==> FormedAll(nodes, names.Keys)
    ensures FormedAll(nodes, names.Keys) ==> Compiles(CompileAll(nodes, names))
    decreases nodes, 0
  {
    hide CompileNode, Formed;
    if nodes != [] {
      CompilesWhenFormed(nodes[0], names, None);
      AllCompileWhenFormed(nodes[1..], names);
    }
  }

  lemma {:induction false} NativeWhenFormed(children: seq<Node>, names: Names)
    requires children != [] && children[0].Symbol? && NativeOpcode(children[0].name).Some?
    ensures var native := NativeOpcode(children[0].name).value;
            var formed := |children| == 1 + native.1 && FormedAll(children[1..], names.Keys);
            (CompileNative(children, names, native).Ok? ==> formed) &&
            (formed ==> Compiles(CompileNative(children, names, native)))
    decreases children, 1
  {
    hide CompileAll, FormedAll, NativeOpcode;
    AllCompileWhenFormed(children[1..], names);
  }

  lemma {:induction false} AxisWhenFormed(children: seq<Node>, names: Names)
    requires children != []
    ensures CompileAxis(children, names).Ok? ==> FormedAxis(children, names.Keys)
    ensures FormedAxis(children, names.Keys) ==> Compiles(CompileAxis(children, names))
    decreases children, 1
  {
    if |children| == 3 {
      CompilesWhenFormed(children[1], names, None);
      CompilesWhenFormed(children[2], names, None);
    }
  }

  lemma {:induction false} BindingsWhenFormed(bindings: seq<Node>, names: Names)
    ensures CompileBindings(bindings, names).Ok? ==>
              FormedBindings(bindings, names.Keys) &&
              (set name | name in CompileBindings(bindings, names).value.0) == BindingSet(bindings)
    ensures FormedBindings(bindings, names.Keys) ==> Compiles(CompileBindings(bindings, names))
    decreases bindings, 0
  {
    hide CompileNode, Formed;
    if bindings != [] {
      if bindings[0].Parent? && |bindings[0].children| == 2 && bindings[0].children[0].Symbol? {
        CompilesWhenFormed(bindings[0].children[1], names, Some(bindings[0].children[0].name));
        BindingsWhenFormed(bindings[1..], names);
      }
    }
  }

  lemma {:induction false} LetWhenFormed(children: seq<Node>, names: Names)
    requires children != []
    ensures CompileLet(children, names).Ok? ==> FormedLet(children, names.Keys)
    ensures FormedLet(children, names.Keys) ==> Compiles(CompileLet(children, names))
    decreases children, 1
  {
    hide CompileNode, Formed, CompileBindings, FormedBindings, AddNameResolutions;
    if |children| == 3 && children[1].Parent? {
      var bindings := children[1].children;
      BindingsWhenFormed(bindings, names);
      if AddBindings(bindings, names).Ok? {
        var (_, extended) := AddBindings(bindings, names).value;
        ResolvedKeys(names, CompileBindings(bindings, names).value.0);
        CompilesWhenFormed(children[2], extended, None);
      }
    }
  }

  lemma {:induction false} LambdaWhenFormed(children: seq<Node>, names: Names, selfName: Option<string>)
    requires children != []
    ensures CompileLambda(children, names, selfName).Ok? ==> FormedLambda(children, names.Keys, selfName)
    ensures FormedLambda(children, names.Keys, selfName) ==> Compiles(CompileLambda(children, names, selfName))
    decreases children, 1
  {
    hide CompileNode, Formed, AddNameResolutions;
    if |children| == 3 && children[1].Parent? {
      var params := children[1].children;
      SymbolNamesOf(params);
      if SymbolNames(params).Ok? && LambdaNames(names, SymbolNames(params).value, selfName).Some? {
        var extended := LambdaNames(names, SymbolNames(params).value, selfName).value;
        LambdaKeys(names, SymbolNames(params).value, selfName);
        CompilesWhenFormed(children[2], extended, None);
        assert extended.Keys == names.Keys + SymbolSet(params) + (if selfName.Some? then {selfName.value} else {});
      }
    }
  }

  lemma LambdaKeys(names: Names, params: seq<string>, selfName: Option<string>)
    requires LambdaNames(names, params, selfName).Some?
    ensures LambdaNames(names, params, selfName).value.Keys ==
            names.Keys + (set name | name in params) + (if selfName.Some? then {selfName.value} else {})
  {
    hide AddNameResolutions;
    var inner := AddNameResolutions(names, []).value;
    ResolvedKeys(names, []);
    ResolvedKeys(if selfName.Some? then inner[selfName.value := 1] else inner, params);
  }

  lemma {:induction false} CallWhenFormed(children: seq<Node>, names: Names)
    requires children != [] && children[0].Symbol?
    ensures var formed := children[0].name in names.Keys && FormedAll(children[1..], names.Keys);
            (CompileCall(children, names).Ok? ==> formed) &&
            (formed ==> Compiles(CompileCall(children, names)))
    decreases children, 1
  {
    hide CompileAll, FormedAll;
    AllCompileWhenFormed(children[1..], names);
  }

  /** How many levels of scope a program opens at most, a `let` one and a `lambda` two. */
  function Deep(node: Node): nat
    decreases node, 1
  {
    match node
    case Symbol(_) => 0
    case Literal(_) => 0
    case List(children) => DeepAll(children)
    case Parent(children) =>
      DeepAll(children) +
      if children != [] && children[0] == Symbol("let") then 1
      else if children != [] && children[0] == Symbol("lambda") then 2
      else 0
  }

  function DeepAll(nodes: seq<Node>): nat
    decreases nodes, 0
  {
    if nodes == [] then 0 else Max(Deep(nodes[0]), DeepAll(nodes[1..]))
  }

  /** No list or group of bindings or arguments is empty, no group has more than 512, and no literal index is zero. */
  predicate Sized(node: Node)
    decreases node, 1
  {
    match node
    case Symbol(_) => true
    case Literal(_) => true
    case List(children) => children != [] && SizedAll(children)
    case Parent(children) =>
      children != [] && children[0].Symbol? ==>
        var name := children[0].name;
        if Named(name).Some? then SizedAll(children[1..])
        else if name == "axis" then
          SizedAll(children[1..]) &&
          (|children| == 3 && children[1].Symbol? && children[2].Literal? ==> LeValue(children[2].bytes) != 0)
        else if name == "let" then
          |children| == 3 && children[1].Parent? ==>
            1 <= |children[1].children| <= 512 && SizedBindings(children[1].children) && Sized(children[2])
        else if name == "lambda" then
          |children| == 3 && children[1].Parent? ==> |children[1].children| <= 512 && Sized(children[2])
        else 2 <= |children| <= 513 && SizedAll(children[1..])
  }

  predicate SizedAll(nodes: seq<Node>)
    decreases nodes, 0
  {
    nodes != [] ==> Sized(nodes[0]) && SizedAll(nodes[1..])
  }

  predicate SizedBindings(bindings: seq<Node>)
    decreases bindings, 0
  {
    bindings != [] ==>
      (bindings[0].Parent? && |bindings[0].children| == 2 ==> Sized(bindings[0].children[1])) &&
      SizedBindings(bindings[1..])
  }

  /** All addresses of a scope leave room for so many more steps. */
  predicate Roomy(names: Names, steps: nat) {
    steps <= 50 && forall x :: x in names ==> 1 <= names[x] < Pow2(63 - steps)
  }

  lemma StepBound(position: nat, step: nat, bits: nat)
    requires step < 2 && 1 <= position < Pow2(bits) && bits <= 63
    ensures AddInitialStep(position, step).Some? && 1 <= AddInitialStep(position, step).value < Pow2(bits + 1)
  {
    Pow2SixtyThree();
    Pow2Monotone(bits, 63);
    var k := Log2(position);
    if k >= bits {
      Pow2Monotone(bits, k);
    }
    assert Pow2(k + 1) == 2 * Pow2(k) && Pow2(k + 2) == 2 * Pow2(k + 1);
    Pow2Monotone(k + 2, bits + 1);
    hide Pow2, Log2;
    assert step * Pow2(k) <= Pow2(k);
  }

  lemma PositionBound(count: nat, i: nat)
    requires i < count <= 512
    ensures 1 <= DensePosition(count, i) < Pow2(10)
  {
    assert Pow2(5) == 32;
    Pow2Sum(5, 5);
  }

  /** A scope keeps room when names are added to it. */
  lemma RoomyResolved(parent: Names, names: seq<string>, steps: nat)
    requires Roomy(parent, steps + 1) && |names| <= 512
    ensures AddNameResolutions(parent, names).Some? && Roomy(AddNameResolutions(parent, names).value, steps)
  {
    hide AddInitialStep, DensePosition, Pow2;
    forall x | x in parent
      ensures AddInitialStep(parent[x], 1).Some? && 1 <= AddInitialStep(parent[x], 1).value < Pow2(63 - steps)
    {
      StepBound(parent[x], 1, 62 - steps);
    }
    forall i | 0 <= i < |names|
      ensures AddInitialStep(DensePosition(|names|, i), 0).Some?
      ensures 1 <= AddInitialStep(DensePosition(|names|, i), 0).value < Pow2(63 - steps)
    {
      PositionBound(|names|, i);
      StepBound(DensePosition(|names|, i), 0, 10);
      Pow2Monotone(11, 63 - steps);
    }
  }

  lemma RoomyLess(names: Names, steps: nat, less: nat)
    requires Roomy(names, steps) && less <= steps
    ensures Roomy(names, less)
  {
    Pow2Monotone(63 - steps, 63 - less);
  }

  /** With sizes as they should be and at most 50 levels of scope, a program compiles if it is well formed. */
  lemma {:induction false} FormedCompiles(node: Node, names: Names, selfName: Option<string>)
    requires Formed(node, names.Keys, selfName) && Sized(node) && Roomy(names, Deep(node))
    ensures CompileNode(node, names, selfName).Ok?
    decreases node, 2
  {
    hide CompileNative, CompileAxis, CompileLet, CompileLambda, CompileCall, CompileAll, NativeOpcode, Named;
    hide FormedAxis, FormedLet, FormedLambda, FormedAll, SizedAll, SizedBindings, Roomy, DeepAll;
    match node
    case Symbol(_) =>
    case Literal(_) =>
    case List(children) =>
      SizedLiteral(node);
      AllFormedCompile(children, names);
    case Parent(children) =>
      var name := children[0].name;
      NativeTable(name);
      if NativeOpcode(name).Some? {
        RestDeep(children, names, Deep(node));
        AllFormedCompile(children[1..], names);
        NativeCompiles(children, names);
      } else if name == "axis" {
        AxisFormedCompiles(children, names);
      } else if name == "let" {
        LetFormedCompiles(children, names);
      } else if name == "lambda" {
        LambdaFormedCompiles(children, names, selfName);
      } else {
        RestDeep(children, names, Deep(node));
        AllFormedCompile(children[1..], names);
        CallCompiles(children, names);
      }
  }

  lemma {:induction false} SizedLiteral(node: Node)
    requires Sized(node)
    ensures !LiteralNoun(node).LiteralPanic?
    decreases node, 1
  {
    if node.List? {
      SizedLiterals(node.children);
    }
  }

  lemma {:induction false} SizedLiterals(nodes: seq<Node>)
    requires nodes != [] && SizedAll(nodes)
    ensures !LiteralNouns(nodes).LiteralPanic?
    decreases nodes, 0
  {
    SizedLiteral(nodes[0]);
    if |nodes| > 1 {
      SizedLiterals(nodes[1..]);
    }
  }

  lemma RestDeep(children: seq<Node>, names: Names, steps: nat)
    requires children != [] && Roomy(names, steps) && DeepAll(children) <= steps
    ensures Roomy(names, DeepAll(children[1..]))
  {
    RoomyLess(names, steps, DeepAll(children[1..]));
  }

  lemma {:induction false} AllFormedCompile(nodes: seq<Node>, names: Names)
    requires FormedAll(nodes, names.Keys) && SizedAll(nodes) && Roomy(names, DeepAll(nodes))
    ensures CompileAll(nodes, names).Ok?
    decreases nodes, 0
  {
    hide CompileNode, Formed, Sized, Roomy;
    if nodes != [] {
      RoomyLess(names, DeepAll(nodes), Deep(nodes[0]));
      RoomyLess(names, DeepAll(nodes), DeepAll(nodes[1..]));
      FormedCompiles(nodes[0], names, None);
      AllFormedCompile(nodes[1..], names);
    }
  }

  lemma NativeCompiles(children: seq<Node>, names: Names)
    requires children != [] && children[0].Symbol? && NativeOpcode(children[0].name).Some?
    requires |children| == 1 + NativeOpcode(children[0].name).value.1 && CompileAll(children[1..], names).Ok?
    ensures CompileNative(children, names, NativeOpcode(children[0].name).value).Ok?
  {
    hide CompileAll, NativeOpcode;
  }

  lemma CallCompiles(children: seq<Node>, names: Names)
    requires 2 <= |children| <= 513 && children[0].Symbol? && children[0].name in names
    requires CompileAll(children[1..], names).Ok?
    ensures CompileCall(children, names).Ok?
  {
    hide CompileAll;
  }

  lemma AxisSized(children: seq<Node>)
    requires |children| == 3 && children[0] == Symbol("axis") && Sized(Parent(children))
    ensures Sized(children[1]) && Sized(children[2])
    ensures children[1].Symbol? && children[2].Literal? ==> LeValue(children[2].bytes) != 0
  {
    var nodes := children[1..];
    assert nodes[0] == children[1] && nodes[1..][0] == children[2];
    assert SizedAll(nodes) && SizedAll(nodes[1..]);
  }

  lemma AxisDeep(children: seq<Node>)
    requires |children| == 3
    ensures Deep(children[1]) <= DeepAll(children) && Deep(children[2]) <= DeepAll(children)
  {
    var nodes := children[1..];
    assert nodes[0] == children[1] && nodes[1..][0] == children[2];
    assert DeepAll(nodes[1..]) >= Deep(children[2]) && DeepAll(nodes) >= DeepAll(nodes[1..]);
  }

  lemma {:induction false} AxisFormedCompiles(children: seq<Node>, names: Names)
    requires children != [] && children[0] == Symbol("axis") && FormedAxis(children, names.Keys)
    requires Sized(Parent(children)) && Roomy(names, Deep(Parent(children)))
    ensures CompileAxis(children, names).Ok?
    decreases children, 1
  {
    AxisSized(children);
    hide CompileNode, Formed, Sized, LeValue, Roomy, DeepAll;
    AxisDeep(children);
    RoomyLess(names, Deep(Parent(children)), Deep(children[1]));
    RoomyLess(names, Deep(Parent(children)), Deep(children[2]));
    FormedCompiles(children[1], names, None);
    FormedCompiles(children[2], names, None);
  }

  lemma {:induction false} BindingsFormedCompile(bindings: seq<Node>, names: Names)
    requires FormedBindings(bindings, names.Keys) && SizedBindings(bindings) && Roomy(names, DeepAll(bindings))
    ensures CompileBindings(bindings, names).Ok?
    decreases bindings, 0
  {
    hide CompileNode, Formed, Sized, Roomy;
    if bindings != [] {
      var pair := bindings[0].children;
      PairDeep(pair);
      RoomyLess(names, DeepAll(bindings), Deep(pair[1]));
      RoomyLess(names, DeepAll(bindings), DeepAll(bindings[1..]));
      FormedCompiles(pair[1], names, Some(pair[0].name));
      BindingsFormedCompile(bindings[1..], names);
    }
  }

  lemma PairDeep(pair: seq<Node>)
    requires |pair| == 2
    ensures Deep(pair[1]) <= DeepAll(pair) <= Deep(Parent(pair))
  {
    assert pair[1..][0] == pair[1];
    assert DeepAll(pair[1..]) >= Deep(pair[1]);
  }

  lemma ThreeDeep(children: seq<Node>)
    requires |children| == 3 && children[1].Parent?
    ensures DeepAll(children) >= Deep(children[1]) >= DeepAll(children[1].children)
    ensures DeepAll(children) >= Deep(children[2])
  {
    assert children[1..][0] == children[1] && children[2..][0] == children[2] && children[1..][1..] == children[2..];
    assert DeepAll(children[2..]) >= Deep(children[2]);
    assert DeepAll(children[1..]) >= DeepAll(children[2..]);
  }

  /** The scope of a `let`'s body. */
  lemma BoundRoomy(bindings: seq<Node>, names: Names, steps: nat)
    requires CompileBindings(bindings, names).Ok? && 1 <= |bindings| <= 512 && Roomy(names, steps + 1)
    ensures AddBindings(bindings, names).Ok?
    ensures var extended := AddBindings(bindings, names).value.1;
            Roomy(extended, steps) && extended.Keys == names.Keys + BindingSet(bindings)
  {
    hide CompileBindings, FormedBindings, AddNameResolutions, Roomy;
    var bound := CompileBindings(bindings, names).value.0;
    BindingsWhenFormed(bindings, names);
    hide BindingSet;
    RoomyResolved(names, bound, steps);
    ResolvedKeys(names, bound);
  }

  lemma {:induction false} LetFormedCompiles(children: seq<Node>, names: Names)
    requires children != [] && children[0] == Symbol("let") && FormedLet(children, names.Keys)
    requires Sized(Parent(children)) && Roomy(names, DeepAll(children) + 1)
    ensures CompileLet(children, names).Ok?
    decreases children, 1
  {
    LetSized(children);
    hide CompileNode, Formed, Sized, SizedBindings, AddBindings, FormedBindings, Roomy, Deep, DeepAll, BindingSet;
    var bindings := children[1].children;
    ThreeDeep(children);
    RoomyLess(names, DeepAll(children) + 1, DeepAll(bindings));
    BindingsFormedCompile(bindings, names);
    BoundRoomy(bindings, names, DeepAll(children));
    var extended := AddBindings(bindings, names).value.1;
    RoomyLess(extended, DeepAll(children), Deep(children[2]));
    FormedCompiles(children[2], extended, None);
  }

  lemma LetSized(children: seq<Node>)
    requires |children| == 3 && children[0] == Symbol("let") && children[1].Parent? && Sized(Parent(children))
    ensures 1 <= |children[1].children| <= 512 && SizedBindings(children[1].children) && Sized(children[2])
  {
  }

  lemma LambdaSized(children: seq<Node>)
    requires |children| == 3 && children[0] == Symbol("lambda") && children[1].Parent? && Sized(Parent(children))
    ensures |children[1].children| <= 512 && Sized(children[2])
  {
  }

  /** The scope of a `lambda`'s body. */
  lemma ParametersRoomy(params: seq<Node>, names: Names, selfName: Option<string>, steps: nat)
    requires SymbolNames(params).Ok? && |params| <= 512 && Roomy(names, steps + 2)
    ensures AddNameResolutions(names, []).Some? && LambdaNames(names, SymbolNames(params).value, selfName).Some?
    ensures var extended := LambdaNames(names, SymbolNames(params).value, selfName).value;
            Roomy(extended, steps) &&
            extended.Keys == names.Keys + SymbolSet(params) + (if selfName.Some? then {selfName.value} else {})
  {
    SymbolNamesOf(params);
    var symbols := SymbolNames(params).value;
    SymbolCount(params);
    RoomyResolved(names, [], steps + 1);
    assert Pow2(63 - (steps + 1)) >= 2;
    hide AddNameResolutions, SymbolSet, SymbolNames, Pow2;
    var inner := AddNameResolutions(names, []).value;
    RoomyResolved(if selfName.Some? then inner[selfName.value := 1] else inner, symbols, steps);
    LambdaKeys(names, symbols, selfName);
  }

  lemma {:induction false} LambdaFormedCompiles(children: seq<Node>, names: Names, selfName: Option<string>)
    requires children != [] && children[0] == Symbol("lambda") && FormedLambda(children, names.Keys, selfName)
    requires Sized(Parent(children)) && Roomy(names, DeepAll(children) + 2)
    ensures CompileLambda(children, names, selfName).Ok?
    decreases children, 1
  {
    LambdaSized(children);
    hide CompileNode, Formed, Sized, AddNameResolutions, LambdaNames, DeepAll, Deep, Roomy, SymbolSet;
    ThreeDeep(children);
    var params := children[1].children;
    SymbolNamesOf(params);
    hide SymbolNames;
    ParametersRoomy(params, names, selfName, DeepAll(children));
    var extended := LambdaNames(names, SymbolNames(params).value, selfName).value;
    RoomyLess(extended, DeepAll(children), Deep(children[2]));
    FormedCompiles(children[2], extended, None);
  }

  lemma {:induction false} SymbolCount(nodes: seq<Node>)
    requires SymbolNames(nodes).Ok?
    ensures |SymbolNames(nodes).value| == |nodes|
  {
    if nodes != [] {
      SymbolCount(nodes[1..]);
    }
  }

  /** A whole program compiles if and only if it is well formed, for such sizes. */
  lemma ProgramCompilesIffFormed(node: Node)
    requires Sized(node) && Deep(node) <= 50
    ensures CompileProgram(node).Ok? <==> Formed(node, {}, None)
  {
    var none: Names := map[];
    CompilesWhenFormed(node, none, None);
    assert none.Keys == {};
    if Formed(node, {}, None) {
      FormedCompiles(node, none, None);
    }
  }
}
