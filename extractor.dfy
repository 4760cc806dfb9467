/** Per-file grouping: `process_file`. */
module Extractor {
  import opened Opt
  import opened Assoc
  import opened Text
  import opened Syntax
  import opened Analyzer

  /** `{'modules': {module name: [records]}}`. */
  datatype FileData = FileData(modules: AList<seq<FunctionRecord>>)

  /** `os.path.basename(path).replace('.py', '')`. */
  function ModuleName(path: string): (r: string)
    ensures '/' !in r && |r| <= |path|
  {
    DeletePy(Basename(path))
  }

  /** The records of the plain `FunctionDef` nodes, in walk order. */
  function Records(nodes: seq<Node>): seq<FunctionRecord> {
    if nodes == [] then []
    else
      var last := nodes[|nodes| - 1];
      Records(nodes[..|nodes| - 1]) + (if last.FunctionDef? then [RecordOf(last.def)] else [])
  }

  /** The `modules` mapping `process_file` builds: empty when parsing failed
      or no function was found, otherwise one key holding every record. */
  function ModulesOf(path: string, parsed: Option<seq<Node>>): AList<seq<FunctionRecord>> {
    match parsed
    case None => []
    case Some(nodes) =>
      var records := Records(nodes);
      if records == [] then [] else [(ModuleName(path), records)]
  }

  /** `process_file(file_path)`, given what parsing the file produced
      (`None` when reading or parsing the file failed). */
  method ProcessFile(filePath: string, parsed: Option<seq<Node>>) returns (result: FileData)
    ensures result.modules == ModulesOf(filePath, parsed)
    ensures |result.modules| <= 1
    ensures parsed.None? ==> result.modules == []
    ensures forall entry :: entry in result.modules ==> entry.0 == ModuleName(filePath) && entry.1 != []
  {
    var modules: AList<seq<FunctionRecord>> := [];
    if parsed.Some? {
      var nodes := parsed.value;
      for i := 0 to |nodes|
        invariant modules == ModulesOf(filePath, Some(nodes[..i]))
      {
        if nodes[i].FunctionDef? {
          var moduleName := ModuleName(filePath);
          var details := AnalyzeFunction(nodes[i].def);
          DefStep(filePath, nodes, i, modules, details);
          modules := SetDefaultAppend(modules, moduleName, details);
        } else {
          OtherStep(filePath, nodes, i);
        }
      }
      assert nodes[..|nodes|] == nodes;
    }
    result := FileData(modules);
    ModulesOfShape(filePath, parsed);
  }

  /** A plain definition appends its record under the module name. */
  lemma DefStep(path: string, nodes: seq<Node>, i: nat,
                modules: AList<seq<FunctionRecord>>, details: FunctionRecord)
    requires i < |nodes| && nodes[i].FunctionDef?
    requires modules == ModulesOf(path, Some(nodes[..i]))
    requires details == RecordOf(nodes[i].def)
    ensures SetDefaultAppend(modules, ModuleName(path), details) == ModulesOf(path, Some(nodes[..i + 1]))
  {
    ModulesStep(path, nodes, i);
    GroupStep(modules, ModuleName(path), Records(nodes[..i]), details);
  }

  /** Any other node leaves the mapping as it is. */
  lemma OtherStep(path: string, nodes: seq<Node>, i: nat)
    requires i < |nodes| && !nodes[i].FunctionDef?
    ensures ModulesOf(path, Some(nodes[..i + 1])) == ModulesOf(path, Some(nodes[..i]))
  {
    ModulesStep(path, nodes, i);
  }

  /** At most one key, the module name, holding a non-empty list. */
  lemma ModulesOfShape(path: string, parsed: Option<seq<Node>>)
    ensures |ModulesOf(path, parsed)| <= 1
    ensures forall entry :: entry in ModulesOf(path, parsed) ==> entry.0 == ModuleName(path) && entry.1 != []
  {
    if parsed.Some? {
      var records := Records(parsed.value);
      if records != [] {
        var m := [(ModuleName(path), records)];
        assert ModulesOf(path, parsed) == m;
        forall entry | entry in m ensures entry == (ModuleName(path), records) {
        }
      }
    }
  }

  /** What one more walked node does to the `modules` mapping. */
  lemma ModulesStep(path: string, nodes: seq<Node>, i: nat)
    requires i < |nodes|
    ensures ModulesOf(path, Some(nodes[..i + 1])) ==
      if nodes[i].FunctionDef? then [(ModuleName(path), Records(nodes[..i]) + [RecordOf(nodes[i].def)])]
      else ModulesOf(path, Some(nodes[..i]))
  {
    RecordsStep(nodes, i);
    var before, after := Records(nodes[..i]), Records(nodes[..i + 1]);
    if nodes[i].FunctionDef? {
      assert after[|before|] == RecordOf(nodes[i].def);
    } else {
      assert after == before;
    }
  }

  lemma RecordsStep(nodes: seq<Node>, i: nat)
    requires i < |nodes|
    ensures Records(nodes[..i + 1]) ==
      Records(nodes[..i]) + (if nodes[i].FunctionDef? then [RecordOf(nodes[i].def)] else [])
  {
    var prefix := nodes[..i + 1];
    assert prefix[..|prefix| - 1] == nodes[..i];
  }

  /** Appending under the one module key, in both states the loop can be in. */
  lemma GroupStep(modules: AList<seq<FunctionRecord>>, name: string,
                  before: seq<FunctionRecord>, details: FunctionRecord)
    requires modules == if before == [] then [] else [(name, before)]
    ensures SetDefaultAppend(modules, name, details) == [(name, before + [details])]
  {
    if before != [] {
      assert Lookup(modules, name) == Some(before);
    }
  }

  /** The walk indices of the plain `FunctionDef` nodes, increasing. */
  function DefIndices(nodes: seq<Node>): (idx: seq<nat>)
    ensures forall j :: 0 <= j < |idx| ==> idx[j] < |nodes| && nodes[idx[j]].FunctionDef?
    ensures forall j, k :: 0 <= j < k < |idx| ==> idx[j] < idx[k]
    ensures forall i :: 0 <= i < |nodes| && nodes[i].FunctionDef? ==> i in idx
  {
    if nodes == [] then []
    else
      var n := |nodes| - 1;
      DefIndices(nodes[..n]) + (if nodes[n].FunctionDef? then [n] else [])
  }

  /** One record per `FunctionDef` node, in walk order: the j-th record is
      that of the j-th `FunctionDef` node. */
  lemma {:induction false} RecordsInWalkOrder(nodes: seq<Node>)
    ensures |Records(nodes)| == |DefIndices(nodes)|
    ensures forall j :: 0 <= j < |Records(nodes)| ==>
      Records(nodes)[j] == RecordOf(nodes[DefIndices(nodes)[j]].def)
  {
    if nodes != [] {
      var n := |nodes| - 1;
      RecordsInWalkOrder(nodes[..n]);
    }
  }

  lemma {:induction false} RecordsAppend(a: seq<Node>, b: seq<Node>)
    ensures Records(a + b) == Records(a) + Records(b)
  {
    if b != [] {
      var n := |b| - 1;
      assert (a + b)[..|a + b| - 1] == a + b[..n];
      RecordsAppend(a, b[..n]);
    } else {
      assert a + b == a;
    }
  }

  /** `async def` definitions and all other nodes contribute nothing. */
  lemma OtherNodesIgnored(a: seq<Node>, n: Node, b: seq<Node>)
    requires !n.FunctionDef?
    ensures Records(a + [n] + b) == Records(a + b)
  {
    RecordsAppend(a + [n], b);
    RecordsAppend(a, [n]);
    assert Records([n]) == Records([]) + [];
    RecordsAppend(a, b);
  }

  /** A successfully parsed file yields a module entry exactly when some
      walked node is a plain `FunctionDef`. */
  lemma ModulesNonEmptyIff(path: string, nodes: seq<Node>)
    ensures ModulesOf(path, Some(nodes)) != [] <==>
      exists i :: 0 <= i < |nodes| && nodes[i].FunctionDef?
  {
    RecordsInWalkOrder(nodes);
    var idx := DefIndices(nodes);
    assert ModulesOf(path, Some(nodes)) != [] <==> |idx| > 0;
    if |idx| > 0 {
      assert nodes[idx[0]].FunctionDef?;
    }
  }

  /** The module name of `<dir>/<stem>.py` is the stem with every `.py`
      deleted: `a.py` gives `a`, `x.py.py` gives `x`. */
  lemma ModuleNameOfPyFile(dir: string, stem: string)
    requires '/' !in stem
    ensures ModuleName(JoinPath(dir, stem + ".py")) == DeletePy(stem)
  {
    assert '/' !in stem + ".py";
    BasenameOfJoin(dir, stem + ".py");
    DeletePySuffix(stem);
  }

  /** `a.py` gives `a`. */
  lemma ModuleNameSimple()
    ensures ModuleName("a.py") == "a"
  {
    assert "" + "a.py" == "a.py" && "a" + ".py" == "a.py";
    BasenameAfterSlash("", "a.py");
    DeletePySuffix("a");
  }

  /** `x.py.py` gives `x`: every occurrence goes, not just the suffix. */
  lemma ModuleNameDoubleSuffix()
    ensures ModuleName("x.py.py") == "x"
  {
    assert "" + "x.py.py" == "x.py.py" && "x.py" + ".py" == "x.py.py" && "x" + ".py" == "x.py";
    BasenameAfterSlash("", "x.py.py");
    DeletePySuffix("x.py");
    DeletePySuffix("x");
  }
}
