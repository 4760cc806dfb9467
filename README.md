# Code report template creator: a Dafny model

`main.py` documents a Python project. It takes four steps:

1. It walks the project directory and picks every `.py` file except any file named like the script, in any directory (names are compared, not paths).
2. It parses each file and records every plain `def` in the syntax tree: its name, its simple positional parameters and their annotations, its return annotation, and its docstring.
3. It groups those records under a module name derived from the file name. Files with no functions are dropped.
4. It writes a plain-text report: file, then module, then function.

This project models those four steps and proves what each one promises:

- `analyze_function` (`Analyzer`)
- `process_file` (`Extractor`)
- `scan_project` (`Scanner`)
- the text branch of `generate_report` (`Report`, with the line-list folds in `Lines`)

Python dictionaries keep insertion order. They are modelled as ordered association lists (`Assoc`), because the order of files, modules and functions in the report depends on that order. The string built-ins the program uses are in `Text`:

- `str.endswith`
- `str.replace('.py', '')`
- `os.path.basename`
- POSIX `os.path.join`
- `repr` of a string and `str` of a list of strings
- `str.join`

`Scenario` works through two concrete inputs:

- the full pipeline on a root holding `a.py` (one function) and `b.py` (none)
- the record of `def f(a: int, b) -> str`

The code does everything step by step, so the model does too. Each loop of the source is a `method` with a loop, proved equal to a function that specifies it:

- `AnalyzeFunction` is proved equal to `RecordOf`.
- `ProcessFile` is proved equal to `ModulesOf`.
- `ScanProject` is proved equal to `ProjectOf`.
- `RenderText` is proved equal to `Join(ReportLines(data), "\n")`.

The properties the program promises are proved about those functions as lemmas.

Parsing, the tree walk and the directory walk are inputs:

- A file arrives as what `ast.walk` yields: a sequence of `Node`s in walk order, or `None` when reading or parsing it failed (a decoding error from `f.read()` or a syntax error from `ast.parse`, both inside the `try`).
- The directory arrives as the `(dirpath, filenames)` pairs `os.walk` yields.
- Reading and parsing a path is the function parameter `parse`.
- The script's own basename is the parameter `scriptName`.

Two behaviours of the code are easy to misread; the model follows the code:

- The module name comes from `.replace('.py', '')`, which deletes every `.py` in the basename (`x.py.py` gives `x`, `my.pyfile.py` gives `myfile`). It does not strip only the suffix.
- The `Returns:` line shows `None` both for a missing annotation and for an empty one (`func['returns'] or 'None'`).

## Model

| member | source | states |
|---|---|---|
| `Analyzer.AnalyzeFunction` | main.py:14-34 | the record has the node's name; one argument entry per element of `args.args`, in order, with that parameter's name; a `type` exactly when the parameter is annotated, equal to the annotation; `returns` absent exactly when there is no return annotation, otherwise equal to it; the docstring, or `''` when there is none; and it equals `RecordOf(node)` |
| `Analyzer.ArgsOf` | main.py:24-28 | one entry per positional parameter, same length and order, each with the parameter's name and exactly its annotation |
| `Analyzer.RecordIgnoresOtherParameters` | main.py:24 | positional-only, `*args`, keyword-only and `**kwargs` parameters never affect the record; every argument entry names a parameter of `args.args` |
| `Extractor.ProcessFile` | main.py:36-50 | the `modules` mapping is `ModulesOf(path, parsed)`; it has at most one key; it is empty when parsing failed; its only key is the module name and holds a non-empty list |
| `Extractor.ModulesOfShape` | main.py:43-47 | every mapping `process_file` can build has at most one key, namely the module name, holding a non-empty list |
| `Extractor.ModulesStep` | main.py:42-47 | a walked `FunctionDef` makes the mapping the single key holding the records so far plus this node's record; any other node leaves the mapping unchanged |
| `Extractor.DefStep` | main.py:43-47 | appending a `FunctionDef`'s record with `setdefault(...).append(...)` gives the mapping of the walk one node longer |
| `Extractor.OtherStep` | main.py:43 | a node that is not a plain `FunctionDef` leaves the mapping unchanged |
| `Extractor.GroupStep` | main.py:45-47 | `setdefault(name, []).append(r)` on the empty mapping or on the one-key mapping gives the single key with `r` appended to its list |
| `Extractor.DefIndices` | main.py:42-43 | the walk positions of the plain `FunctionDef` nodes: all of them, each one a `FunctionDef`, strictly increasing |
| `Extractor.RecordsInWalkOrder` | main.py:42-47 | exactly one record per `FunctionDef` node, and the j-th record is that of the j-th `FunctionDef` node in walk order |
| `Extractor.RecordsAppend` | main.py:42-47 | the records of two consecutive stretches of the walk are the records of the first followed by those of the second |
| `Extractor.OtherNodesIgnored` | main.py:43 | inserting an `AsyncFunctionDef` or any other non-`FunctionDef` node anywhere in the walk changes nothing |
| `Extractor.ModulesNonEmptyIff` | main.py:42-47 | a parsed file yields a module entry if and only if some walked node is a plain `FunctionDef` |
| `Extractor.ModuleName` | main.py:44 | the module name contains no `/` and is never longer than the path |
| `Extractor.ModuleNameOfPyFile` | main.py:44 | the module name of `<dir>/<stem>.py` is `<stem>` with every `.py` deleted |
| `Extractor.ModuleNameSimple` | main.py:44 | `a.py` gives module `a` |
| `Extractor.ModuleNameDoubleSuffix` | main.py:44 | `x.py.py` gives module `x`: every occurrence of `.py` is deleted, not only the suffix |
| `Text.DeletePy` | main.py:44 | `.replace('.py', '')` never makes a name longer, adds no character, and leaves a name without `.py` unchanged |
| `Text.DeletePyInfix` | main.py:44 | every `.py` is deleted wherever it sits: deleting from `a + ".py" + b` gives the result for `a` followed by the result for `b` |
| `Text.SinglePass` | main.py:44 | the deletion is a single pass: `.p.pyy` gives `.py`, which is not deleted again |
| `Text.DeletePySuffix` | main.py:44 | deleting `.py` from `stem + ".py"` gives the same result as deleting it from `stem` |
| `Text.Basename` | main.py:44 | the basename contains no `/`, is a suffix of the path, and is preceded by a `/` when shorter than the path |
| `Text.BasenameOfJoin` | main.py:57-58 | the basename of `os.path.join(dir, name)` is `name` for a plain file name, so comparing `filename` with the script's basename is comparing basenames |
| `Text.BasenameAfterSlash` | main.py:44 | the basename of a path that ends in `/` followed by a name without `/` is that name |
| `Text.ReprOfPlain` | main.py:92 | `repr` of a name made of plain characters (printable ASCII other than quotes and backslash, as in every ASCII identifier) is the name in single quotes |
| `Text.ListOfPlain` | main.py:92 | `str` of a list of plain names is the names in single quotes, separated by `, `, inside brackets |
| `Text.PyListOfStrings` | main.py:92 | `str` of a list of strings starts with `[` and ends with `]`; the empty list gives `[]`; a one-element list gives that element's `repr` in brackets |
| `Text.PyRepr` | main.py:92 | `repr` of a string is at least two characters longer than it, and opens and closes with the same quote; that quote is `"` exactly when the string holds a `'` and no `"`, otherwise `'` |
| `Text.Join` | main.py:102 | `'\n'.join(lines)` of no lines is empty and of one line is that line; otherwise it starts with the first line and ends with the last |
| `Text.JoinPath` | main.py:58 | `os.path.join(dir, name)` ends with `name`; an absolute `name` replaces `dir`; otherwise the result starts with `dir` and has a `/` right before `name` whenever it is longer than `name` |
| `Text.EndsWith` | main.py:57 | `s.endswith(suffix)` holds exactly when `s` is some stem followed by `suffix` |
| `Assoc.Lookup` | main.py:45 | a key is absent from the mapping exactly when it is not among its keys |
| `Assoc.Put` | main.py:61 | assigning to a key keeps the existing key order and appends a new key at the end; the key then maps to the new value; every other key keeps its value |
| `Assoc.PutKeepsDistinct` | main.py:61 | assignment never duplicates a key |
| `Assoc.SetDefaultAppend` | main.py:45-47 | `setdefault(k, []).append(x)` keeps the key order, adds `k` at the end if it is new, extends `k`'s list (or `[]`) by `x`, and leaves every other key alone |
| `Scanner.ScanProject` | main.py:52-62 | `scan_project` builds exactly `ProjectOf(walk, scriptName, parse)`, and no entry has an empty `modules` mapping |
| `Scanner.Collect` | main.py:58-61 | the project's keys are distinct; a path is a key if and only if it is a candidate whose file yields at least one function; each entry holds that file's `process_file` result, and that result is non-empty |
| `Scanner.FileStep` | main.py:56-61 | one more file of the walk either adds its entry (an eligible file with functions) or leaves the mapping as it is |
| `Scanner.PutEntries` | main.py:61 | after an assignment, every entry is the new one or was there before |
| `Scanner.CollectKeysInOrder` | main.py:55-61 | for distinct paths, the keys are the function-yielding candidates in walk order, so there are exactly as many entries as such files |
| `Scanner.Eligible` | main.py:57 | a file is looked at exactly when its name is some stem followed by `.py` and differs from the script's name |
| `Scanner.DirCandidatesExactly` | main.py:56-58 | a directory contributes exactly the joined paths of its file names that end in `.py` and are not the script's name |
| `Scanner.CandidatesSound` | main.py:55-58 | every candidate path is the join of some walked directory and one of its eligible file names |
| `Scanner.CandidatesComplete` | main.py:55-58 | every eligible file of every walked directory is a candidate |
| `Scanner.CandidatesExactly` | main.py:55-58 | the candidates are exactly the joined paths of the eligible files of the walk |
| `Scanner.ProjectKeysExactly` | main.py:55-61 | a path is a key of the project if and only if it is the path of an eligible walked file that yields at least one function |
| `Scanner.ScriptNeverScanned` | main.py:57 | no key of the project has the script's basename, and every key's basename ends in `.py` |
| `Report.RenderText` | main.py:64-103 | the text written is the report lines joined by `'\n'`, so rendering the same data twice gives the same text |
| `Report.AppendModuleLines` | main.py:78-95 | the module loop appends, for each module in order, its header and then its functions' lines |
| `Report.AppendFunctionLines` | main.py:84-95 | the function loop appends, for each function in order, its five lines, so exactly five lines per function |
| `Report.RuleWidths` | main.py:76-95 | the file rule is 40 `-` and the module rule 40 `=` |
| `Report.FileHeader` | main.py:76 | a file's header line is `\nFile: `, the path, a line break and the 40-dash rule, so 48 characters longer than the path |
| `Report.ModuleHeader` | main.py:82 | a module's header line is `\nModule: `, the name, a line break and the 40-`=` rule, so 50 characters longer than the name |
| `Report.ArgNames` | main.py:92 | the list of argument names has one name per argument entry, in order |
| `Report.ReturnsText` | main.py:93 | `func['returns'] or 'None'` is never empty; it reads `None` exactly when the annotation is absent, empty or itself `None`; any other annotation is shown as it is |
| `Report.FunctionBlock` | main.py:91-95 | a function's block is five lines: `\nFunction: ` and the name; `Inputs: ` and `str` of the list of argument names (so it opens with `Inputs: [` and ends with `]`); `Returns: ` and `func['returns'] or 'None'`, which reads `Returns: None` exactly when the annotation is absent, empty or `None`; `Description: ` and the docstring; the 40-dash rule |
| `Report.ModulesLinesLength` | main.py:78-95 | a file's modules contribute one header line per module plus five lines per function |
| `Report.ReportLineCount` | main.py:72-95 | the report has one line per file, plus one per module, plus five per function |
| `Report.FunctionBlockAt` | main.py:72-95 | the report is the files before file i, then file i's lines, then the rest. File i's lines are its header (`File:` and 40 `-`), its modules before module j, module j's lines, then the rest. Module j's lines are its header (`Module:` and 40 `=`), five lines for each function before function k, function k's five lines, then the rest |
| `Report.InputsOfPlainNames` | main.py:92 | for plain parameter names the `Inputs:` line is the names in single quotes, separated by `, `, inside brackets |
| `Lines.FlattenStep` | main.py:72-95 | one more iteration appends the next item's block |
| `Lines.FlattenAppend` | main.py:72-95 | iterating over two consecutive lists appends the lines of the first and then those of the second |
| `Lines.FlattenAt` | main.py:72-95 | an item's block sits right after the blocks of the items before it and right before those after it |
| `Lines.FlattenLength` | main.py:84-95 | five-line blocks give exactly five lines per item |
| `Lines.FlattenOne` | main.py:72-95 | iterating over a single item appends exactly its block |
| `Lines.AppendStep` | main.py:72-95 | appending the next item's block to the lines so far gives the lines of one more iteration |
| `Scenario.SampleCandidates` | main.py:55-58 | in `/r` with `a.py` and `b.py`, both files are candidates, in order |
| `Scenario.SampleProject` | main.py:52-62 | the project holds `/r/a.py` only, with module `a` and the record of `foo`; `b.py`, which has no function, is dropped |
| `Scenario.SampleBlock` | main.py:91-95 | `foo`'s block is `Function: foo`, `Inputs: ['x']`, `Returns: bool`, `Description: desc` and 40 dashes |
| `Scenario.EndToEnd` | main.py:52-103 | the report for that root is one file section, one module section and `foo`'s five lines, and `b.py` never appears |
| `Scenario.AnnotatedParameters` | main.py:14-34 | `def f(a: int, b) -> str` gives arguments `a` with type `int` and `b` without a type, returns `str`, an empty docstring, and an empty `Description:` line |

## Left out

- Reading files, the directory walk and writing `project_documentation.txt` are left out. The walk and the parser are inputs, and the model ends with the text that would be written.
- `os.walk`'s order is not modelled. It is the order of the `walk` input. The sub-directory lists it yields play no part in `scan_project` and are dropped.
- `ast.parse`, `ast.walk`, `ast.unparse` and `ast.get_docstring` are left out. A file is given as the nodes of its walk, an annotation as its unparsed text, and a docstring as already extracted and cleaned. The breadth-first order of `ast.walk` is therefore the order of that input and is not derived.
- Only the three node kinds `process_file` distinguishes are modelled: `FunctionDef`, `AsyncFunctionDef` and any other node.
- `process_file` catches every exception raised inside its `try`. `None` stands for any failure of reading or parsing, which leaves the mapping empty. An exception raised later in the walk is not modelled: for example, `ast.unparse` can hit the recursion limit on a deeply nested annotation. The records found before such an exception stay in the result, so `process_file` returns a partial mapping, while `ModulesOf` and `ProcessFile` treat a parsed file as all or nothing.
- An `open` error, which `process_file` does not catch, is not modelled. The `print` diagnostics are left out.
- The `docx` branch of `generate_report` is left out, along with the `Document` capability check and the `__main__` block, because it calls into the python-docx library. This includes its defect: asking for `docx` when the library is missing reaches `doc.add_heading` with `doc` unbound.
- `Text.PyRepr` models `repr`'s choice of quote and its escapes of backslash, the quote, `\n`, `\r`, `\t` and the other ASCII control characters. It does not model the `\x`/`\u` escapes of non-printable characters beyond ASCII.
- `Text.JoinPath` models POSIX `os.path.join` only.
- `Text.BasenameOfJoin`, `Extractor.ModuleNameOfPyFile` and `Scanner.ScriptNeverScanned` assume file names without `/`. `os.walk` never yields such a name.
- `Scanner.CollectKeysInOrder` assumes the candidate paths are distinct. `os.walk` visits each directory once, so they are.
- The three nested loops of `generate_report` are written as three methods, one loop each: `RenderText`, `AppendModuleLines` and `AppendFunctionLines`. Each appends to the list it is given, which is the same list the single Python function appends to.
