/** From the text of a program to what it computes (`lisp/src/compile.rs`, `compile`). */
module Programs {
  import opened Basics
  import opened Nouns
  import opened Syntax
  import opened Evaluation
  import opened Semantics
  import opened Correctness
  import Spelling
  import Trees
  import Compile

  datatype TextError = Unparsed(parse: Trees.ParseError) | Uncompiled(compile: Compile.CompileError)

  function CompileText(code: string): Result<Noun, TextError> {
    match Trees.Parse(code)
    case Err(e) => Err(Unparsed(e))
    case Ok(node) =>
      match Compile.CompileProgram(node)
      case Err(e) => Err(Uncompiled(e))
      case Ok(formula) => Ok(formula)
  }

  /**
   * End to end: a text compiles to a formula whose evaluation, with enough ticks, gives what the program means,
   * however the text is spelled and laid out.
   */
  lemma TextCorrect<S(!new)>(w: World<S>, es: seq<Spelling.Element>, node: Node, subject: Noun, s: S,
                             fuel: nat) returns (cost: nat)
    requires Spelling.WellSpaced(es) && Spelling.MeantAll(es) == Trees.TokensOf(node)
    requires Portable(node, map[], None) && Compile.CompileProgram(node).Ok?
    requires Meaning(w, node, Top(subject), None, s, fuel).Some?
    ensures CompileText(Spelling.TextAll(es)).Ok?
    ensures forall limit :: cost <= limit ==>
              var r := Meaning(w, node, Top(subject), None, s, fuel).value;
              EvalProgram(w, s, Cell(subject, CompileText(Spelling.TextAll(es)).value), limit) ==
                (Ok(Encoded(r.value)), r.engine)
  {
    Trees.ParseOfText(es, node);
    cost := ProgramCorrect(w, node, subject, s, fuel);
  }
}
