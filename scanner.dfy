/** Project aggregation: `scan_project`. The directory walk is an input:
    the `(dirpath, filenames)` pairs `os.walk` yields, in the order it
    yields them; reading and parsing a file is the function `parse`. */
module Scanner {
  import opened Opt
  import opened Assoc
  import opened Text
  import opened Syntax
  import opened Extractor

  /** One step of `os.walk` (its sub-directory list plays no part). */
  datatype WalkEntry = WalkEntry(dirpath: string, filenames: seq<string>)

  /** `project_data`: full path to the file's data, in insertion order. */
  type ProjectData = AList<FileData>

  /** A file is looked at when it ends in `.py` and is not the script
      itself (compared by basename). */
  predicate Eligible(filename: string, scriptName: string)
    ensures Eligible(filename, scriptName) <==>
      (exists stem :: filename == stem + ".py") && filename != scriptName
  {
    EndsWith(filename, ".py") && filename != scriptName
  }

  /** The full paths of the eligible files of one directory, in order. */
  function DirCandidates(dir: string, files: seq<string>, scriptName: string): seq<string> {
    if files == [] then []
    else
      var f := files[|files| - 1];
      DirCandidates(dir, files[..|files| - 1], scriptName)
        + (if Eligible(f, scriptName) then [JoinPath(dir, f)] else [])
  }

  /** The full paths of all eligible files, in walk order. */
  function Candidates(walk: seq<WalkEntry>, scriptName: string): seq<string> {
    if walk == [] then []
    else
      var e := walk[|walk| - 1];
      Candidates(walk[..|walk| - 1], scriptName) + DirCandidates(e.dirpath, e.filenames, scriptName)
  }

  /** A file that yields at least one function. */
  predicate Yields(path: string, parse: string -> Option<seq<Node>>) {
    ModulesOf(path, parse(path)) != []
  }

  /** The project mapping built from the candidate paths in order: a path
      is assigned its data only when that data is non-empty. */
  function Collect(paths: seq<string>, parse: string -> Option<seq<Node>>): (project: ProjectData)
    ensures DistinctKeys(project)
    ensures forall p :: p in Keys(project) <==> p in paths && Yields(p, parse)
    ensures forall e :: e in project ==> e.1.modules == ModulesOf(e.0, parse(e.0)) && e.1.modules != []
  {
    if paths == [] then []
    else
      var before := Collect(paths[..|paths| - 1], parse);
      var p := paths[|paths| - 1];
      assert paths == paths[..|paths| - 1] + [p];
      if Yields(p, parse) then
        PutKeepsDistinct(before, p, FileData(ModulesOf(p, parse(p))));
        var r := Put(before, p, FileData(ModulesOf(p, parse(p))));
        PutEntries(before, p, FileData(ModulesOf(p, parse(p))));
        r
      else before
  }

  /** Every entry of `Put(m, k, v)` is `(k, v)` or an entry of `m`. */
  lemma {:induction false} PutEntries<V>(m: AList<V>, k: string, v: V)
    ensures forall e :: e in Put(m, k, v) ==> e == (k, v) || e in m
  {
    if m != [] && m[0].0 != k {
      PutEntries(m[1..], k, v);
      assert Put(m, k, v) == [m[0]] + Put(m[1..], k, v);
      forall e | e in m[1..] ensures e in m {
        var i :| 0 <= i < |m[1..]| && m[1..][i] == e;
        assert m[i + 1] == e;
      }
    }
  }

  function ProjectOf(walk: seq<WalkEntry>, scriptName: string, parse: string -> Option<seq<Node>>): ProjectData {
    Collect(Candidates(walk, scriptName), parse)
  }

  /** `scan_project(root_dir)`, with `os.path.basename(__file__)` as
      `scriptName`. */
  method ScanProject(walk: seq<WalkEntry>, scriptName: string, parse: string -> Option<seq<Node>>)
    returns (project: ProjectData)
    ensures project == ProjectOf(walk, scriptName, parse)
    ensures forall e :: e in project ==> e.1.modules != []
  {
    project := [];
    for i := 0 to |walk|
      invariant project == Collect(Candidates(walk[..i], scriptName), parse)
    {
      var dirpath, filenames := walk[i].dirpath, walk[i].filenames;
      ghost var done := Candidates(walk[..i], scriptName);
      assert done + DirCandidates(dirpath, filenames[..0], scriptName) == done;
      for j := 0 to |filenames|
        invariant project == Collect(done + DirCandidates(dirpath, filenames[..j], scriptName), parse)
      {
        var filename := filenames[j];
        FileStep(done, dirpath, filenames, j, scriptName, parse);
        if EndsWith(filename, ".py") && filename != scriptName {
          var fullPath := JoinPath(dirpath, filename);
          var data := ProcessFile(fullPath, parse(fullPath));
          if data.modules != [] {
            project := Put(project, fullPath, data);
          }
        }
      }
      WalkStep(walk, i, scriptName);
      assert filenames[..|filenames|] == filenames;
    }
    assert walk[..|walk|] == walk;
  }

  lemma DirStep(dir: string, files: seq<string>, j: nat, scriptName: string)
    requires j < |files|
    ensures DirCandidates(dir, files[..j + 1], scriptName) ==
      DirCandidates(dir, files[..j], scriptName)
        + (if Eligible(files[j], scriptName) then [JoinPath(dir, files[j])] else [])
  {
    assert files[..j + 1][..j] == files[..j];
  }

  lemma WalkStep(walk: seq<WalkEntry>, i: nat, scriptName: string)
    requires i < |walk|
    ensures Candidates(walk[..i + 1], scriptName) ==
      Candidates(walk[..i], scriptName) + DirCandidates(walk[i].dirpath, walk[i].filenames, scriptName)
  {
    assert walk[..i + 1][..i] == walk[..i];
  }

  /** What one more file name does to the project mapping. */
  lemma FileStep(done: seq<string>, dir: string, files: seq<string>, j: nat, scriptName: string,
                 parse: string -> Option<seq<Node>>)
    requires j < |files|
    ensures var p := JoinPath(dir, files[j]);
      Collect(done + DirCandidates(dir, files[..j + 1], scriptName), parse) ==
      if Eligible(files[j], scriptName) && Yields(p, parse)
      then Put(Collect(done + DirCandidates(dir, files[..j], scriptName), parse), p, FileData(ModulesOf(p, parse(p))))
      else Collect(done + DirCandidates(dir, files[..j], scriptName), parse)
  {
    var p := JoinPath(dir, files[j]);
    var seen := done + DirCandidates(dir, files[..j], scriptName);
    DirStep(dir, files, j, scriptName);
    if Eligible(files[j], scriptName) {
      assert done + DirCandidates(dir, files[..j + 1], scriptName) == seen + [p];
      CollectStep(seen, p, parse);
    } else {
      assert done + DirCandidates(dir, files[..j + 1], scriptName) == seen;
    }
  }

  lemma CollectStep(paths: seq<string>, p: string, parse: string -> Option<seq<Node>>)
    ensures Collect(paths + [p], parse) ==
      if Yields(p, parse) then Put(Collect(paths, parse), p, FileData(ModulesOf(p, parse(p))))
      else Collect(paths, parse)
  {
    assert (paths + [p])[..|paths|] == paths;
  }

  /** The paths whose files yield at least one function, in order. */
  function Yielding(paths: seq<string>, parse: string -> Option<seq<Node>>): seq<string> {
    if paths == [] then []
    else
      var p := paths[|paths| - 1];
      Yielding(paths[..|paths| - 1], parse) + (if Yields(p, parse) then [p] else [])
  }

  /** With distinct paths (as a directory walk produces) the project's keys
      are exactly the paths that yield a function, in walk order; so of N
      eligible files, the M that contain a function give M entries. */
  lemma {:induction false} CollectKeysInOrder(paths: seq<string>, parse: string -> Option<seq<Node>>)
    requires forall i, j :: 0 <= i < j < |paths| ==> paths[i] != paths[j]
    ensures Keys(Collect(paths, parse)) == Yielding(paths, parse)
    ensures |Collect(paths, parse)| == |Yielding(paths, parse)|
  {
    if paths != [] {
      var n := |paths| - 1;
      var p := paths[n];
      CollectKeysInOrder(paths[..n], parse);
      assert paths == paths[..n] + [p];
      if Yields(p, parse) {
        assert p !in paths[..n];
        assert p !in Keys(Collect(paths[..n], parse));
      }
    }
  }

  /** The eligible files of one directory, each joined to the directory. */
  lemma {:induction false} DirCandidatesExactly(dir: string, files: seq<string>, scriptName: string)
    ensures forall p :: p in DirCandidates(dir, files, scriptName) <==>
      exists j :: 0 <= j < |files| && Eligible(files[j], scriptName) && p == JoinPath(dir, files[j])
  {
    if files != [] {
      var n := |files| - 1;
      DirCandidatesExactly(dir, files[..n], scriptName);
      forall p | p in DirCandidates(dir, files, scriptName)
        ensures exists j :: 0 <= j < |files| && Eligible(files[j], scriptName) && p == JoinPath(dir, files[j])
      {
        if p in DirCandidates(dir, files[..n], scriptName) {
          var j :| 0 <= j < n && Eligible(files[..n][j], scriptName) && p == JoinPath(dir, files[..n][j]);
          assert files[..n][j] == files[j];
        }
      }
      forall j | 0 <= j < |files| && Eligible(files[j], scriptName)
        ensures JoinPath(dir, files[j]) in DirCandidates(dir, files, scriptName)
      {
        if j < n {
          assert files[..n][j] == files[j];
        }
      }
    }
  }

  /** Entry `i` of the walk lists, at position `j`, a file that is looked at. */
  predicate EligibleAt(walk: seq<WalkEntry>, scriptName: string, i: int, j: int) {
    0 <= i < |walk| && 0 <= j < |walk[i].filenames| && Eligible(walk[i].filenames[j], scriptName)
  }

  /** The full path of that file. */
  function PathAt(walk: seq<WalkEntry>, i: int, j: int): string
    requires 0 <= i < |walk| && 0 <= j < |walk[i].filenames|
  {
    JoinPath(walk[i].dirpath, walk[i].filenames[j])
  }

  /** Every candidate is an eligible file of the walk ... */
  lemma {:induction false} CandidatesSound(walk: seq<WalkEntry>, scriptName: string, p: string)
    requires p in Candidates(walk, scriptName)
    ensures exists i, j :: EligibleAt(walk, scriptName, i, j) && p == PathAt(walk, i, j)
  {
    var n := |walk| - 1;
    var e := walk[n];
    assert Candidates(walk, scriptName) == Candidates(walk[..n], scriptName) + DirCandidates(e.dirpath, e.filenames, scriptName);
    if p in Candidates(walk[..n], scriptName) {
      CandidatesSound(walk[..n], scriptName, p);
      var i, j :| EligibleAt(walk[..n], scriptName, i, j) && p == PathAt(walk[..n], i, j);
      assert walk[..n][i] == walk[i];
      assert EligibleAt(walk, scriptName, i, j) && p == PathAt(walk, i, j);
    } else {
      DirCandidatesExactly(e.dirpath, e.filenames, scriptName);
      var j :| 0 <= j < |e.filenames| && Eligible(e.filenames[j], scriptName) && p == JoinPath(e.dirpath, e.filenames[j]);
      assert EligibleAt(walk, scriptName, n, j) && p == PathAt(walk, n, j);
    }
  }

  /** ... and every eligible file of the walk is a candidate. */
  lemma {:induction false} CandidatesComplete(walk: seq<WalkEntry>, scriptName: string, i: int, j: int)
    requires EligibleAt(walk, scriptName, i, j)
    ensures PathAt(walk, i, j) in Candidates(walk, scriptName)
  {
    var n := |walk| - 1;
    var e := walk[n];
    assert Candidates(walk, scriptName) == Candidates(walk[..n], scriptName) + DirCandidates(e.dirpath, e.filenames, scriptName);
    if i < n {
      assert walk[..n][i] == walk[i];
      CandidatesComplete(walk[..n], scriptName, i, j);
    } else {
      DirCandidatesExactly(e.dirpath, e.filenames, scriptName);
    }
  }

  /** A path is a candidate exactly when some walked directory holds an
      eligible file that joins to it. */
  lemma CandidatesExactly(walk: seq<WalkEntry>, scriptName: string)
    ensures forall p :: p in Candidates(walk, scriptName) <==>
      exists i, j :: EligibleAt(walk, scriptName, i, j) && p == PathAt(walk, i, j)
  {
    forall p | p in Candidates(walk, scriptName)
      ensures exists i, j :: EligibleAt(walk, scriptName, i, j) && p == PathAt(walk, i, j)
    {
      CandidatesSound(walk, scriptName, p);
    }
    forall i, j | EligibleAt(walk, scriptName, i, j)
      ensures PathAt(walk, i, j) in Candidates(walk, scriptName)
    {
      CandidatesComplete(walk, scriptName, i, j);
    }
  }

  /** The project has an entry for a path exactly when that path is an
      eligible file of the walk and its file yields at least one function. */
  lemma ProjectKeysExactly(walk: seq<WalkEntry>, scriptName: string, parse: string -> Option<seq<Node>>)
    ensures forall p :: p in Keys(ProjectOf(walk, scriptName, parse)) <==>
      Yields(p, parse) && exists i, j :: EligibleAt(walk, scriptName, i, j) && p == PathAt(walk, i, j)
  {
    CandidatesExactly(walk, scriptName);
  }

  /** With plain file names (as `os.walk` gives), no key of the project is
      the script itself, and every key names a `.py` file. */
  lemma ScriptNeverScanned(walk: seq<WalkEntry>, scriptName: string, parse: string -> Option<seq<Node>>)
    requires forall i, j :: 0 <= i < |walk| && 0 <= j < |walk[i].filenames| ==> '/' !in walk[i].filenames[j]
    ensures forall p :: p in Keys(ProjectOf(walk, scriptName, parse)) ==>
      Basename(p) != scriptName && EndsWith(Basename(p), ".py")
  {
    ProjectKeysExactly(walk, scriptName, parse);
    forall p | p in Keys(ProjectOf(walk, scriptName, parse))
      ensures Basename(p) != scriptName && EndsWith(Basename(p), ".py")
    {
      var i, j :| EligibleAt(walk, scriptName, i, j) && p == PathAt(walk, i, j);
      BasenameOfJoin(walk[i].dirpath, walk[i].filenames[j]);
    }
  }
}
