/** The plain-text branch of `generate_report`: the project mapping is
    flattened file by file, module by module and function by function into
    a list of lines, which are joined with `'\n'`. Writing the result to
    `project_documentation.txt` is outside the model. */
module Report {
  import opened Opt
  import opened Assoc
  import opened Text
  import opened Analyzer
  import opened Extractor
  import opened Scanner
  import opened Lines

  /** `'-' * 40` and `'=' * 40`. */
  const Dashes: string := "----------------------------------------"
  const Equals: string := "========================================"

  /** Both rules are 40 characters of one kind. */
  lemma RuleWidths()
    ensures |Dashes| == 40 && forall i :: 0 <= i < 40 ==> Dashes[i] == '-'
    ensures |Equals| == 40 && forall i :: 0 <= i < 40 ==> Equals[i] == '='
  {
  }

  /** A file's header line: a blank line, the path, then 40 dashes. */
  function FileHeader(path: string): (r: string)
    ensures |r| == |path| + 48
    ensures r[..7] == "\nFile: " && r[7..|r| - 41] == path
    ensures r[|r| - 41] == '\n' && r[|r| - 40..] == Dashes
  {
    var r := "\nFile: " + path + "\n" + Dashes;
    assert r[..7] == "\nFile: " && r[7..|r| - 41] == path;
    assert r[|r| - 40..] == Dashes;
    r
  }

  /** A module's header line: a blank line, the name, then 40 `=`. */
  function ModuleHeader(name: string): (r: string)
    ensures |r| == |name| + 50
    ensures r[..9] == "\nModule: " && r[9..|r| - 41] == name
    ensures r[|r| - 41] == '\n' && r[|r| - 40..] == Equals
  {
    var r := "\nModule: " + name + "\n" + Equals;
    assert r[..9] == "\nModule: " && r[9..|r| - 41] == name;
    assert r[|r| - 40..] == Equals;
    r
  }

  /** `[arg['name'] for arg in func['args']]`. */
  function ArgNames(args: seq<ArgInfo>): (r: seq<string>)
    ensures |r| == |args| && forall i :: 0 <= i < |args| ==> r[i] == args[i].name
  {
    seq(|args|, i requires 0 <= i < |args| => args[i].name)
  }

  /** `func['returns'] or 'None'`: an absent or empty annotation shows as
      `None`, any other annotation as itself. */
  function ReturnsText(returnType: Option<string>): (r: string)
    ensures r != []
    ensures r == "None" <==> returnType.None? || returnType.value == "" || returnType.value == "None"
    ensures returnType.Some? && returnType.value != "" ==> r == returnType.value
  {
    match returnType
    case Some(t) => if t == "" then "None" else t
    case None => "None"
  }

  /** The five lines of one function: the name, the `repr` list of the
      argument names, the return annotation or `None`, the docstring and
      the rule. The `Returns:` line says `None` exactly when there is no
      annotation, an empty one, or one that reads `None`. */
  function FunctionBlock(f: FunctionRecord): (r: seq<string>)
    ensures |r| == 5 && r[4] == Dashes
    ensures |r[0]| == 11 + |f.name| && r[0][..11] == "\nFunction: " && r[0][11..] == f.name
    ensures |r[1]| >= 10 && r[1][..9] == "Inputs: [" && r[1][|r[1]| - 1] == ']'
    ensures r[1][..8] == "Inputs: " && r[1][8..] == PyListOfStrings(ArgNames(f.args))
    ensures |r[2]| >= 9 && r[2][..9] == "Returns: " && r[2][9..] == ReturnsText(f.returnType)
    ensures f.returnType.None? ==> r[2] == "Returns: None"
    ensures r[2] == "Returns: None" <==>
      f.returnType.None? || f.returnType.value == "" || f.returnType.value == "None"
    ensures |r[3]| == 13 + |f.docstring| && r[3][..13] == "Description: " && r[3][13..] == f.docstring
  {
    var inputs := PyListOfStrings(ArgNames(f.args));
    var rt := ReturnsText(f.returnType);
    PrefixSplit("\nFunction: ", f.name);
    PrefixSplit("Inputs: ", inputs);
    assert ("Inputs: " + inputs)[..9] == "Inputs: [" by {
      assert ("Inputs: " + inputs)[8] == inputs[0];
    }
    PrefixSplit("Returns: ", rt);
    PrefixSplit("Returns: ", "None");
    PrefixSplit("Description: ", f.docstring);
    [ "\nFunction: " + f.name,
      "Inputs: " + PyListOfStrings(ArgNames(f.args)),
      "Returns: " + ReturnsText(f.returnType),
      "Description: " + f.docstring,
      Dashes ]
  }

  /** Proof plumbing, not a property of the program: a prefix and the rest
      can be read back from their concatenation. */
  lemma PrefixSplit(p: string, x: string)
    ensures (p + x)[..|p|] == p && (p + x)[|p|..] == x
  {
  }

  /** A module: its header, then its functions. */
  function ModuleLines(m: (string, seq<FunctionRecord>)): seq<string> {
    [ModuleHeader(m.0)] + Flatten(m.1, FunctionBlock)
  }

  /** A file: its header, then its modules. */
  function FileLines(e: (string, FileData)): seq<string> {
    [FileHeader(e.0)] + Flatten(e.1.modules, ModuleLines)
  }

  /** The `lines` list, file after file in the mapping's order. */
  function ReportLines(data: ProjectData): seq<string> {
    Flatten(data, FileLines)
  }

  /** `generate_report(data)` in text mode: the text it writes. The
      triple loop is written as three methods of one loop each, each
      appending to the list it is given. */
  method RenderText(data: ProjectData) returns (text: string)
    ensures text == Join(ReportLines(data), "\n")
  {
    var lines: seq<string> := [];
    for i := 0 to |data|
      invariant lines == Flatten(data[..i], FileLines)
    {
      var filePath, modules := data[i].0, data[i].1.modules;
      ghost var before := lines;
      lines := lines + [FileHeader(filePath)];
      lines := AppendModuleLines(lines, modules);
      Regroup(before, [FileHeader(filePath)], Flatten(modules, ModuleLines));
      AppendStep([], data, i, FileLines, before, FileLines(data[i]));
    }
    assert data[..|data|] == data;
    text := Join(lines, "\n");
  }

  /** The middle loop: a header per module, then its functions, in the
      mapping's order. */
  method AppendModuleLines(lines: seq<string>, modules: AList<seq<FunctionRecord>>) returns (out: seq<string>)
    ensures out == lines + Flatten(modules, ModuleLines)
  {
    out := lines;
    for j := 0 to |modules|
      invariant out == lines + Flatten(modules[..j], ModuleLines)
    {
      var moduleName, functions := modules[j].0, modules[j].1;
      ghost var before := out;
      out := out + [ModuleHeader(moduleName)];
      out := AppendFunctionLines(out, functions);
      Regroup(before, [ModuleHeader(moduleName)], Flatten(functions, FunctionBlock));
      AppendStep(lines, modules, j, ModuleLines, before, ModuleLines(modules[j]));
    }
    assert modules[..|modules|] == modules;
  }

  /** The innermost loop: five lines per function, in the module's order. */
  method AppendFunctionLines(lines: seq<string>, functions: seq<FunctionRecord>) returns (out: seq<string>)
    ensures out == lines + Flatten(functions, FunctionBlock)
    ensures |out| == |lines| + 5 * |functions|
  {
    out := lines;
    for k := 0 to |functions|
      invariant out == lines + Flatten(functions[..k], FunctionBlock)
      invariant |out| == |lines| + 5 * k
    {
      var fn := functions[k];
      ghost var before := out;
      out := out + ["\nFunction: " + fn.name];
      out := out + ["Inputs: " + PyListOfStrings(ArgNames(fn.args))];
      out := out + ["Returns: " + ReturnsText(fn.returnType)];
      out := out + ["Description: " + fn.docstring];
      out := out + [Dashes];
      FiveAppends(before, FunctionBlock(fn));
      AppendStep(lines, functions, k, FunctionBlock, before, FunctionBlock(fn));
    }
    assert functions[..|functions|] == functions;
  }

  /** Proof plumbing, not a property of the program: five one-line appends
      add a five-line block as a whole. */
  lemma FiveAppends(s: seq<string>, block: seq<string>)
    requires |block| == 5
    ensures s + [block[0]] + [block[1]] + [block[2]] + [block[3]] + [block[4]] == s + block
  {
  }

  /** The number of lines a module list contributes: one header each, plus
      five per function. */
  function ModulesLineCount(ms: AList<seq<FunctionRecord>>): nat {
    if ms == [] then 0 else ModulesLineCount(ms[..|ms| - 1]) + 1 + 5 * |ms[|ms| - 1].1|
  }

  /** The number of lines of the whole report: one header per file, plus its
      modules' lines. */
  function LineCount(data: ProjectData): nat {
    if data == [] then 0 else LineCount(data[..|data| - 1]) + 1 + ModulesLineCount(data[|data| - 1].1.modules)
  }

  lemma {:induction false} ModulesLinesLength(ms: AList<seq<FunctionRecord>>)
    ensures |Flatten(ms, ModuleLines)| == ModulesLineCount(ms)
  {
    if ms != [] {
      var m := |ms| - 1;
      ModulesLinesLength(ms[..m]);
      FlattenLength(ms[m].1, FunctionBlock);
    }
  }

  /** The report has one line per file, one per module and five per
      function. */
  lemma {:induction false} ReportLineCount(data: ProjectData)
    ensures |ReportLines(data)| == LineCount(data)
  {
    if data != [] {
      var m := |data| - 1;
      ReportLineCount(data[..m]);
      ModulesLinesLength(data[m].1.modules);
    }
  }

  /** Where everything sits: the report is the lines of the files before
      file `i`, that file's lines, then the files after it; the file's lines
      are its header, its modules before module `j`, that module's lines and
      the modules after it; the module's lines are its header, five lines
      for each function before function `k`, the five lines of function `k`,
      and the functions after it. */
  lemma FunctionBlockAt(data: ProjectData, i: nat, j: nat, k: nat)
    requires i < |data| && j < |data[i].1.modules| && k < |data[i].1.modules[j].1|
    ensures ReportLines(data) ==
      Flatten(data[..i], FileLines) + FileLines(data[i]) + Flatten(data[i + 1..], FileLines)
    ensures
      var mods := data[i].1.modules;
      FileLines(data[i]) ==
        [FileHeader(data[i].0)] + Flatten(mods[..j], ModuleLines) + ModuleLines(mods[j])
        + Flatten(mods[j + 1..], ModuleLines)
    ensures
      var m := data[i].1.modules[j];
      && ModuleLines(m) ==
         [ModuleHeader(m.0)] + Flatten(m.1[..k], FunctionBlock) + FunctionBlock(m.1[k])
         + Flatten(m.1[k + 1..], FunctionBlock)
      && |Flatten(m.1[..k], FunctionBlock)| == 5 * k
  {
    var mods := data[i].1.modules;
    var fs := mods[j].1;
    FlattenAt(data, i, FileLines);
    FlattenAt(mods, j, ModuleLines);
    FlattenAt(fs, k, FunctionBlock);
    FlattenLength(fs[..k], FunctionBlock);
    var fh, mb, mm, ma := [FileHeader(data[i].0)], Flatten(mods[..j], ModuleLines), ModuleLines(mods[j]),
      Flatten(mods[j + 1..], ModuleLines);
    Regroup(fh, mb + mm, ma);
    Regroup(fh, mb, mm);
    var mh, fb, ff, fa := [ModuleHeader(mods[j].0)], Flatten(fs[..k], FunctionBlock), FunctionBlock(fs[k]),
      Flatten(fs[k + 1..], FunctionBlock);
    Regroup(mh, fb + ff, fa);
    Regroup(mh, fb, ff);
  }

  /** For names that are Python identifiers (no quotes, backslashes or
      control characters) the `Inputs:` line is the names, each in single
      quotes, separated by `, `, in brackets. */
  lemma InputsOfPlainNames(f: FunctionRecord)
    requires forall k :: 0 <= k < |f.args| ==> forall i :: 0 <= i < |f.args[k].name| ==> PlainChar(f.args[k].name[i])
    ensures FunctionBlock(f)[1] ==
      "Inputs: [" + Join(seq(|f.args|, i requires 0 <= i < |f.args| => "'" + f.args[i].name + "'"), ", ") + "]"
  {
    var names := ArgNames(f.args);
    var quoted := seq(|f.args|, i requires 0 <= i < |f.args| => "'" + f.args[i].name + "'");
    assert seq(|names|, k requires 0 <= k < |names| => "'" + names[k] + "'") == quoted;
    var list := Join(quoted, ", ");
    calc {
      FunctionBlock(f)[1];
      "Inputs: " + PyListOfStrings(names);
      { ListOfPlain(names); }
      "Inputs: " + ("[" + list + "]");
      { Regroup("Inputs: ", "[" + list, "]"); Regroup("Inputs: ", "[", list); }
      ("Inputs: " + "[") + list + "]";
      { assert "Inputs: " + "[" == "Inputs: ["; }
      "Inputs: [" + list + "]";
    }
  }
}
