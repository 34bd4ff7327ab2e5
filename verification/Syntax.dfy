/** Syntax trees of the Lisp (`lisp/src/tree.rs`). */
module Syntax {
  import opened Basics

  datatype Node =
    | Parent(children: seq<Node>)
    | Symbol(name: string)
    | Literal(bytes: Bytes)
    | List(children: seq<Node>)
}
