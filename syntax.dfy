/** The part of Python's syntax tree the program looks at. Parsing, the tree
    walk and `ast.unparse` / `ast.get_docstring` are outside the model:
    annotations arrive as their unparsed text, docstrings as already
    extracted, and a file arrives as the nodes `ast.walk` yields, in order. */
module Syntax {
  import opened Opt

  /** `ast.arg`: a parameter name and its annotation, if any. */
  datatype Param = Param(arg: string, annotation: Option<string>)

  /** `ast.arguments`: every kind of parameter a definition can declare. */
  datatype Arguments = Arguments(
    posonlyargs: seq<Param>,
    args: seq<Param>,
    vararg: Option<Param>,
    kwonlyargs: seq<Param>,
    kwarg: Option<Param>)

  /** The fields of a (possibly async) function definition that matter. */
  datatype FunctionNode = FunctionNode(
    name: string,
    args: Arguments,
    returnAnnotation: Option<string>,
    docstring: Option<string>)

  /** One node yielded by the tree walk. */
  datatype Node =
    | FunctionDef(def: FunctionNode)
    | AsyncFunctionDef(def: FunctionNode)
    | OtherNode
}
