/** A worked example: a root `/r` holding `a.py`, which defines
    `def foo(x: int) -> bool` with docstring `desc`, and `b.py`, which
    defines nothing. */
module Scenario {
  import opened Opt
  import opened Text
  import opened Syntax
  import opened Analyzer
  import opened Extractor
  import opened Scanner
  import opened Report
  import opened Lines

  const Foo: FunctionNode :=
    FunctionNode("foo", Arguments([], [Param("x", Some("int"))], None, [], None), Some("bool"), Some("desc"))

  const Walk: seq<WalkEntry> := [WalkEntry("/r", ["a.py", "b.py"])]

  /** What the tree walk yields for each file: the module node first, then
      the definitions. */
  function SampleParse(path: string): Option<seq<Node>> {
    if path == "/r/a.py" then Some([OtherNode, FunctionDef(Foo)]) else Some([OtherNode])
  }

  lemma SampleJoins()
    ensures JoinPath("/r", "a.py") == "/r/a.py" && JoinPath("/r", "b.py") == "/r/b.py"
  {
    assert "/r" + "/" + "a.py" == "/r/a.py";
    assert "/r" + "/" + "b.py" == "/r/b.py";
  }

  lemma SampleEligible()
    ensures Eligible("a.py", "main.py") && Eligible("b.py", "main.py")
  {
    assert "a.py" == "a" + ".py" && "b.py" == "b" + ".py";
  }

  lemma SampleCandidates()
    ensures Candidates(Walk, "main.py") == ["/r/a.py", "/r/b.py"]
  {
    var files := ["a.py", "b.py"];
    SampleJoins();
    SampleEligible();
    assert files[..1] == ["a.py"] && files[..1][..0] == [];
    assert DirCandidates("/r", files[..1], "main.py") == ["/r/a.py"];
    assert Walk[..0] == [];
  }

  lemma SampleModuleName()
    ensures ModuleName("/r/a.py") == "a"
  {
    assert "/r/" + "a.py" == "/r/a.py" && "a" + ".py" == "a.py";
    BasenameAfterSlash("/r/", "a.py");
    DeletePySuffix("a");
  }

  lemma SampleRecords()
    ensures Records([OtherNode, FunctionDef(Foo)]) ==
      [FunctionRecord("foo", [ArgInfo("x", Some("int"))], Some("bool"), "desc")]
    ensures Records([OtherNode]) == []
  {
    assert [OtherNode, FunctionDef(Foo)][..1] == [OtherNode];
    assert [OtherNode][..0] == [];
    assert ArgsOf(Foo.args.args) == [ArgInfo("x", Some("int"))];
  }

  /** `b.py` yields nothing and is dropped; `a.py` keeps its one module. */
  lemma SampleProject()
    ensures ProjectOf(Walk, "main.py", SampleParse) ==
      [("/r/a.py", FileData([("a", [FunctionRecord("foo", [ArgInfo("x", Some("int"))], Some("bool"), "desc")])]))]
  {
    SampleCandidates();
    SampleModules();
    var paths := ["/r/a.py", "/r/b.py"];
    var records := [FunctionRecord("foo", [ArgInfo("x", Some("int"))], Some("bool"), "desc")];
    assert paths[..1] == ["/r/a.py"] && paths[..1][..0] == [];
    assert Collect(paths[..1], SampleParse) == [("/r/a.py", FileData([("a", records)]))];
    assert !Yields("/r/b.py", SampleParse);
  }

  lemma SampleModules()
    ensures ModulesOf("/r/a.py", SampleParse("/r/a.py")) ==
      [("a", [FunctionRecord("foo", [ArgInfo("x", Some("int"))], Some("bool"), "desc")])]
    ensures ModulesOf("/r/b.py", SampleParse("/r/b.py")) == []
  {
    SampleModuleName();
    SampleRecords();
  }

  lemma SampleInputs()
    ensures PyListOfStrings(ArgNames([ArgInfo("x", Some("int"))])) == "['x']"
  {
    assert ArgNames([ArgInfo("x", Some("int"))]) == ["x"];
    ReprOfPlain("x");
    assert "[" + "'x'" + "]" == "['x']";
  }

  lemma SampleBlock()
    ensures FunctionBlock(FunctionRecord("foo", [ArgInfo("x", Some("int"))], Some("bool"), "desc")) ==
      ["\nFunction: foo", "Inputs: ['x']", "Returns: bool", "Description: desc", Dashes]
  {
    var f := FunctionRecord("foo", [ArgInfo("x", Some("int"))], Some("bool"), "desc");
    calc {
      FunctionBlock(f);
      [ "\nFunction: " + "foo", "Inputs: " + PyListOfStrings(ArgNames(f.args)),
        "Returns: " + ReturnsText(Some("bool")), "Description: " + "desc", Dashes ];
      { SampleInputs(); }
      [ "\nFunction: " + "foo", "Inputs: " + "['x']", "Returns: " + "bool", "Description: " + "desc", Dashes ];
      { SampleLines(); }
      ["\nFunction: foo", "Inputs: ['x']", "Returns: bool", "Description: desc", Dashes];
    }
  }

  lemma SampleLines()
    ensures "\nFunction: " + "foo" == "\nFunction: foo"
    ensures "Inputs: " + "['x']" == "Inputs: ['x']"
    ensures "Returns: " + "bool" == "Returns: bool"
    ensures "Description: " + "desc" == "Description: desc"
  {
  }

  lemma SampleHeaders()
    ensures FileHeader("/r/a.py") == "\nFile: /r/a.py\n" + Dashes
    ensures ModuleHeader("a") == "\nModule: a\n" + Equals
  {
    assert "\nFile: " + "/r/a.py" + "\n" == "\nFile: /r/a.py\n";
    assert "\nModule: " + "a" + "\n" == "\nModule: a\n";
  }

  lemma SampleReport()
    ensures
      var foo := FunctionRecord("foo", [ArgInfo("x", Some("int"))], Some("bool"), "desc");
      ReportLines([("/r/a.py", FileData([("a", [foo])]))]) ==
        [FileHeader("/r/a.py"), ModuleHeader("a")] + FunctionBlock(foo)
  {
    var foo := FunctionRecord("foo", [ArgInfo("x", Some("int"))], Some("bool"), "desc");
    var data := FileData([("a", [foo])]);
    calc {
      ReportLines([("/r/a.py", data)]);
      { FlattenOne(("/r/a.py", data), FileLines); }
      [FileHeader("/r/a.py")] + Flatten(data.modules, ModuleLines);
      { FlattenOne(("a", [foo]), ModuleLines); }
      [FileHeader("/r/a.py")] + ([ModuleHeader("a")] + Flatten([foo], FunctionBlock));
      { FlattenOne(foo, FunctionBlock); }
      [FileHeader("/r/a.py")] + ([ModuleHeader("a")] + FunctionBlock(foo));
      [FileHeader("/r/a.py"), ModuleHeader("a")] + FunctionBlock(foo);
    }
  }

  /** One file section, one module section and one function block (five
      lines); `b.py` never appears. */
  lemma EndToEnd()
    ensures ReportLines(ProjectOf(Walk, "main.py", SampleParse)) ==
      [ "\nFile: /r/a.py\n" + Dashes,
        "\nModule: a\n" + Equals ] +
      [ "\nFunction: foo",
        "Inputs: ['x']",
        "Returns: bool",
        "Description: desc",
        Dashes ]
  {
    var foo := FunctionRecord("foo", [ArgInfo("x", Some("int"))], Some("bool"), "desc");
    var block := ["\nFunction: foo", "Inputs: ['x']", "Returns: bool", "Description: desc", Dashes];
    var project := [("/r/a.py", FileData([("a", [foo])]))];
    SampleProject();
    assert ProjectOf(Walk, "main.py", SampleParse) == project;
    SampleReport();
    assert ReportLines(project) == [FileHeader("/r/a.py"), ModuleHeader("a")] + FunctionBlock(foo);
    SampleBlock();
    assert FunctionBlock(foo) == block;
    SampleHeaders();
    assert [FileHeader("/r/a.py"), ModuleHeader("a")] == ["\nFile: /r/a.py\n" + Dashes, "\nModule: a\n" + Equals];
  }

  /** `def f(a: int, b) -> str` without a docstring: `a` carries its type,
      `b` has none, and the description line is left empty. */
  lemma AnnotatedParameters()
    ensures
      var r := RecordOf(FunctionNode("f", Arguments([], [Param("a", Some("int")), Param("b", None)], None, [], None),
                                     Some("str"), None));
      && r == FunctionRecord("f", [ArgInfo("a", Some("int")), ArgInfo("b", None)], Some("str"), "")
      && FunctionBlock(r)[3] == "Description: "
  {
    var ps := [Param("a", Some("int")), Param("b", None)];
    assert ps[..1] == [Param("a", Some("int"))] && ps[..1][..0] == [];
    assert "Description: " + "" == "Description: ";
  }
}
