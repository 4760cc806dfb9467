/** The string builtins the program relies on: `str.endswith`,
    `str.replace('.py', '')`, `os.path.basename`, `os.path.join` (POSIX),
    `repr` of a string, `str` of a list of strings and `str.join`. */
module Text {

  /** `s.endswith(suffix)`. */
  predicate EndsWith(s: string, suffix: string)
    ensures EndsWith(s, suffix) <==> exists stem :: s == stem + suffix
  {
    assert forall stem :: s == stem + suffix ==> s[|stem|..] == suffix;
    assert |suffix| <= |s| ==> s == s[..|s| - |suffix|] + s[|s| - |suffix|..];
    |suffix| <= |s| && s[|s| - |suffix|..] == suffix
  }

  /** `".py"` starts at index `i` of `s`. */
  predicate PyAt(s: string, i: int) {
    0 <= i && i + 3 <= |s| && s[i..i + 3] == ".py"
  }

  /** `s.replace(".py", "")`: one left-to-right pass that deletes each
      non-overlapping occurrence of `".py"`; text that only forms `".py"`
      once an occurrence is gone stays. */
  function DeletePy(s: string): (r: string)
    ensures |r| <= |s|
    ensures forall c :: c in r ==> c in s
    ensures (forall i :: !PyAt(s, i)) ==> r == s
    decreases |s|
  {
    if |s| < 3 then s
    else if s[..3] == ".py" then
      assert PyAt(s, 0);
      assert forall c :: c in s[3..] ==> c in s;
      DeletePy(s[3..])
    else
      assert forall c :: c in s[1..] ==> c in s;
      assert forall i :: PyAt(s[1..], i) ==> PyAt(s, i + 1) by {
        forall i | PyAt(s[1..], i) ensures PyAt(s, i + 1) {
          assert s[1..][i..i + 3] == s[i + 1..i + 4];
        }
      }
      [s[0]] + DeletePy(s[1..])
  }

  /** Every `".py"` goes wherever it sits: no occurrence can start before
      an inserted `".py"` and run into it, so the text on either side is
      processed as on its own. */
  lemma {:induction false} DeletePyInfix(a: string, b: string)
    ensures DeletePy(a + ".py" + b) == DeletePy(a) + DeletePy(b)
    decreases |a|
  {
    var s := a + ".py" + b;
    if |a| == 0 {
      PyFirst(b);
      assert s == ".py" + b;
    } else if |a| < 3 {
      ShortStep(a, b);
    } else if a[..3] == ".py" {
      assert DeletePy(s) == DeletePy(a[3..] + ".py" + b) by {
        assert s[..3] == a[..3];
        assert s[3..] == a[3..] + ".py" + b;
      }
      DeletePyInfix(a[3..], b);
    } else {
      assert DeletePy(s) == [a[0]] + DeletePy(a[1..] + ".py" + b) by {
        assert s[..3] == a[..3];
        assert s[1..] == a[1..] + ".py" + b;
      }
      DeletePyInfix(a[1..], b);
      assert [a[0]] + (DeletePy(a[1..]) + DeletePy(b))
          == ([a[0]] + DeletePy(a[1..])) + DeletePy(b);
    }
  }

  /** A leading `".py"` goes. */
  lemma {:induction false} PyFirst(b: string)
    ensures DeletePy(".py" + b) == DeletePy(b)
  {
    var s := ".py" + b;
    assert s[..3] == ".py";
    assert s[3..] == b;
  }

  /** The case of a `".py"` right after one or two characters: neither can
      start an occurrence, since no `".py"` begins with `"."` or `".p."`. */
  lemma {:induction false} ShortStep(a: string, b: string)
    requires 1 <= |a| < 3
    ensures DeletePy(a + ".py" + b) == DeletePy(a) + DeletePy(b)
  {
    assert DeletePy(a) == a;
    if |a| == 1 {
      OneBefore(a[0], b);
      assert [a[0]] == a;
    } else {
      var s := a + ".py" + b;
      assert s[..3] != ".py" by { assert s[2] == '.'; }
      assert s[1..] == [a[1]] + ".py" + b;
      calc {
        DeletePy(s);
        [a[0]] + DeletePy([a[1]] + ".py" + b);
        { OneBefore(a[1], b); }
        [a[0]] + ([a[1]] + DeletePy(b));
        { assert [a[0]] + [a[1]] == a; }
        a + DeletePy(b);
      }
    }
  }

  /** One character before a `".py"` stays, and the `".py"` goes. */
  lemma {:induction false} OneBefore(c: char, b: string)
    ensures DeletePy([c] + ".py" + b) == [c] + DeletePy(b)
  {
    var s := [c] + ".py" + b;
    assert s[..3] != ".py" by { assert s[2] == 'p'; }
    assert s[1..] == ".py" + b;
    PyFirst(b);
  }

  /** A final `".py"` simply disappears. */
  lemma DeletePySuffix(stem: string)
    ensures DeletePy(stem + ".py") == DeletePy(stem)
  {
    DeletePyInfix(stem, []);
    assert stem + ".py" + [] == stem + ".py";
  }

  /** The pass is not repeated: text that forms `".py"` only once an
      occurrence is gone stays, so deleting again changes the result. */
  lemma SinglePass()
    ensures DeletePy(".p.pyy") == ".py"
    ensures DeletePy(DeletePy(".p.pyy")) == ""
  {
    assert ".p" + ".py" + "y" == ".p.pyy";
    DeletePyInfix(".p", "y");
    assert ".p" + "y" == ".py";
    assert [] + ".py" + [] == ".py";
    DeletePyInfix([], []);
  }

  /** `os.path.basename(p)`: the text after the last `/`. */
  function Basename(p: string): (r: string)
    ensures '/' !in r
    ensures |r| <= |p| && p[|p| - |r|..] == r
    ensures |r| < |p| ==> p[|p| - |r| - 1] == '/'
  {
    if p == [] then []
    else if p[|p| - 1] == '/' then []
    else
      var r := Basename(p[..|p| - 1]) + [p[|p| - 1]];
      assert p[..|p| - 1][|p| - |r|..] + [p[|p| - 1]] == p[|p| - |r|..];
      r
  }

  /** `os.path.join(dir, name)` on POSIX: an absolute `name` wins, otherwise
      a `/` is inserted unless `dir` is empty or already ends in one. */
  function JoinPath(dir: string, name: string): (r: string)
    ensures |name| <= |r| && r[|r| - |name|..] == name
    ensures name != [] && name[0] == '/' ==> r == name
    ensures (name == [] || name[0] != '/') ==> |dir| <= |r| && r[..|dir|] == dir
    ensures |name| < |r| ==> r[|r| - |name| - 1] == '/'
  {
    if name != [] && name[0] == '/' then name
    else if dir == [] || dir[|dir| - 1] == '/' then dir + name
    else dir + "/" + name
  }

  /** The basename of a joined path is the plain file name joined on. */
  lemma {:induction false} BasenameOfJoin(dir: string, name: string)
    requires '/' !in name
    ensures Basename(JoinPath(dir, name)) == name
  {
    var p := JoinPath(dir, name);
    var prefix := p[..|p| - |name|];
    assert p == prefix + name;
    assert prefix == [] || prefix[|prefix| - 1] == '/';
    BasenameAfterSlash(prefix, name);
  }

  lemma {:induction false} BasenameAfterSlash(prefix: string, name: string)
    requires '/' !in name
    requires prefix == [] || prefix[|prefix| - 1] == '/'
    ensures Basename(prefix + name) == name
    decreases |name|
  {
    if name == [] {
      assert prefix + name == prefix;
    } else {
      var n := |name| - 1;
      assert name[n] in name;
      assert '/' !in name[..n] by {
        assert forall c :: c in name[..n] ==> c in name;
      }
      assert prefix + name == (prefix + name[..n]) + [name[n]];
      BasenameSnoc(prefix + name[..n], name[n]);
      BasenameAfterSlash(prefix, name[..n]);
      assert name[..n] + [name[n]] == name;
    }
  }

  /** A character other than `/` added at the end joins the basename. */
  lemma BasenameSnoc(s: string, c: char)
    requires c != '/'
    ensures Basename(s + [c]) == Basename(s) + [c]
  {
    assert (s + [c])[..|s|] == s;
  }

  /** Lower-case hexadecimal digit, as `repr` writes in `\xNN`. */
  function HexDigit(d: nat): char
    requires d < 16
  {
    "0123456789abcdef"[d]
  }

  /** How `repr` writes one character inside quotes `q`: backslash, the
      quote, `\n`, `\r`, `\t` and the other ASCII control characters are
      escaped. */
  function EscapeChar(c: char, q: char): (r: string)
    ensures 1 <= |r|
  {
    if c == '\\' then "\\\\"
    else if c == q then ['\\', q]
    else if c == '\n' then "\\n"
    else if c == '\r' then "\\r"
    else if c == '\t' then "\\t"
    else if c < ' ' || c as int == 0x7F then
      ['\\', 'x', HexDigit(c as nat / 16), HexDigit(c as nat % 16)]
    else [c]
  }

  function EscapeAll(s: string, q: char): (r: string)
    ensures |s| <= |r|
  {
    if s == [] then [] else EscapeAll(s[..|s| - 1], q) + EscapeChar(s[|s| - 1], q)
  }

  /** `repr(s)`: single quotes, unless `s` holds a single quote and no double
      quote. */
  function PyRepr(s: string): (r: string)
    ensures |s| + 2 <= |r|
    ensures r[0] == r[|r| - 1] && (r[0] == '\'' || r[0] == '"')
    ensures r[0] == '"' <==> '\'' in s && '"' !in s
  {
    var q := if '\'' in s && '"' !in s then '"' else '\'';
    [q] + EscapeAll(s, q) + [q]
  }

  /** A printable ASCII character `repr` writes as itself, whichever quote
      it picks. */
  predicate PlainChar(c: char) {
    ' ' <= c <= '~' && c != '\\' && c != '\'' && c != '"'
  }

  /** Names made of plain characters (every ASCII identifier is one) appear
      in single quotes, unchanged. */
  lemma {:induction false} ReprOfPlain(s: string)
    requires forall i :: 0 <= i < |s| ==> PlainChar(s[i])
    ensures PyRepr(s) == "'" + s + "'"
  {
    assert '\'' !in s;
    EscapePlain(s, '\'');
  }

  lemma {:induction false} EscapePlain(s: string, q: char)
    requires q == '\'' || q == '"'
    requires forall i :: 0 <= i < |s| ==> PlainChar(s[i])
    ensures EscapeAll(s, q) == s
  {
    if s != [] {
      var n := |s| - 1;
      assert forall i :: 0 <= i < n ==> s[..n][i] == s[i];
      EscapePlain(s[..n], q);
      PlainEscape(s[n], q);
      LastSplit(s);
    }
  }

  lemma LastSplit(s: string)
    requires s != []
    ensures s[..|s| - 1] + [s[|s| - 1]] == s
  {
  }

  lemma PlainEscape(c: char, q: char)
    requires q == '\'' || q == '"'
    requires PlainChar(c)
    ensures EscapeChar(c, q) == [c]
  {
  }

  /** `sep.join(parts)`. */
  function Join(parts: seq<string>, sep: string): (r: string)
    ensures parts == [] ==> r == []
    ensures |parts| == 1 ==> r == parts[0]
    ensures parts != [] ==> |parts[0]| <= |r| && r[..|parts[0]|] == parts[0]
    ensures parts != [] ==> |parts[|parts| - 1]| <= |r| && r[|r| - |parts[|parts| - 1]|..] == parts[|parts| - 1]
  {
    if parts == [] then []
    else if |parts| == 1 then parts[0]
    else Join(parts[..|parts| - 1], sep) + sep + parts[|parts| - 1]
  }

  /** `str(names)` for a list of strings: `[` + the reprs joined by `, ` + `]`. */
  function PyListOfStrings(names: seq<string>): (r: string)
    ensures 2 <= |r| && r[0] == '[' && r[|r| - 1] == ']'
    ensures names == [] ==> r == "[]"
    ensures |names| == 1 ==> r == "[" + PyRepr(names[0]) + "]"
  {
    var reprs := seq(|names|, i requires 0 <= i < |names| => PyRepr(names[i]));
    assert |names| == 1 ==> reprs == [PyRepr(names[0])];
    "[" + Join(reprs, ", ") + "]"
  }
  /** For plain names, the list shows each name in single quotes. */
  lemma ListOfPlain(names: seq<string>)
    requires forall k :: 0 <= k < |names| ==> forall i :: 0 <= i < |names[k]| ==> PlainChar(names[k][i])
    ensures PyListOfStrings(names) ==
      "[" + Join(seq(|names|, k requires 0 <= k < |names| => "'" + names[k] + "'"), ", ") + "]"
  {
    var reprs := seq(|names|, k requires 0 <= k < |names| => PyRepr(names[k]));
    var quoted := seq(|names|, k requires 0 <= k < |names| => "'" + names[k] + "'");
    forall k | 0 <= k < |names| ensures reprs[k] == quoted[k] {
      ReprOfPlain(names[k]);
    }
    assert reprs == quoted;
  }

}
