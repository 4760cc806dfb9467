/** Signature extraction: `analyze_function`. */
module Analyzer {
  import opened Opt
  import opened Syntax

  /** `{'name': ..., 'type': ...}`; the `'type'` key is present exactly
      when `typ` is `Some`. */
  datatype ArgInfo = ArgInfo(name: string, typ: Option<string>)

  /** The dictionary `analyze_function` returns (`returnType` is its
      `'returns'` key). */
  datatype FunctionRecord = FunctionRecord(
    name: string,
    args: seq<ArgInfo>,
    returnType: Option<string>,
    docstring: string)

  /** The entries for a list of simple positional parameters. */
  function ArgsOf(params: seq<Param>): (r: seq<ArgInfo>)
    ensures |r| == |params|
    ensures forall i :: 0 <= i < |params| ==>
      r[i].name == params[i].arg && r[i].typ == params[i].annotation
  {
    if params == [] then []
    else ArgsOf(params[..|params| - 1]) + [ArgInfo(params[|params| - 1].arg, params[|params| - 1].annotation)]
  }

  /** The record of one definition. */
  function RecordOf(fn: FunctionNode): FunctionRecord {
    FunctionRecord(fn.name, ArgsOf(fn.args.args), fn.returnAnnotation, fn.docstring.GetOr(""))
  }

  /** `analyze_function(node)`: one entry per simple positional parameter,
      in order, carrying a type exactly when the parameter is annotated;
      the return annotation if any; the docstring or `''`. */
  method AnalyzeFunction(node: FunctionNode) returns (details: FunctionRecord)
    ensures details.name == node.name
    ensures |details.args| == |node.args.args|
    ensures forall i :: 0 <= i < |details.args| ==>
      && details.args[i].name == node.args.args[i].arg
      && (details.args[i].typ.Some? <==> node.args.args[i].annotation.Some?)
      && details.args[i].typ == node.args.args[i].annotation
    ensures details.returnType.None? <==> node.returnAnnotation.None?
    ensures details.returnType == node.returnAnnotation
    ensures details.docstring == if node.docstring.Some? then node.docstring.value else ""
    ensures details == RecordOf(node)
  {
    var params := node.args.args;
    var args: seq<ArgInfo> := [];
    for i := 0 to |params|
      invariant |args| == i
      invariant forall k :: 0 <= k < i ==> args[k] == ArgInfo(params[k].arg, params[k].annotation)
    {
      var info := ArgInfo(params[i].arg, None);
      if params[i].annotation.Some? {
        info := info.(typ := Some(params[i].annotation.value));
      }
      args := args + [info];
    }
    details := FunctionRecord(node.name, args, None, node.docstring.GetOr(""));
    if node.returnAnnotation.Some? {
      details := details.(returnType := Some(node.returnAnnotation.value));
    }
  }

  /** Positional-only, variadic and keyword-only parameters never show up:
      the record depends on `args.args` alone. */
  lemma RecordIgnoresOtherParameters(fn: FunctionNode, other: Arguments)
    requires other.args == fn.args.args
    ensures RecordOf(fn.(args := other)) == RecordOf(fn)
    ensures forall a :: a in RecordOf(fn).args ==> exists p :: p in fn.args.args && a.name == p.arg
  {
    var r := RecordOf(fn).args;
    forall a | a in r ensures exists p :: p in fn.args.args && a.name == p.arg {
      var i :| 0 <= i < |r| && r[i] == a;
      assert fn.args.args[i] in fn.args.args;
    }
  }
}
