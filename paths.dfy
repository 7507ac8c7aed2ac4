/**
 * The POSIX `os.path` functions the scripts use to name job directories and
 * arguments: `join`, `basename`, `dirname` and the root half of `splitext`.
 */
module Paths {
  import opened Text

  /** `s.rfind(c)`: the last index holding `c`, or -1. */
  function LastIndexOf(s: string, c: char): (i: int)
    ensures -1 <= i < |s|
    ensures i >= 0 ==> s[i] == c
    ensures forall k :: i < k < |s| ==> s[k] != c
  {
    if s == [] then -1
    else if s[|s| - 1] == c then |s| - 1
    else LastIndexOf(s[..|s| - 1], c)
  }

  predicate AllChar(s: string, c: char)
  {
    forall i :: 0 <= i < |s| ==> s[i] == c
  }

  /** `s.rstrip('/')` */
  function StripTrailingSlashes(s: string): (r: string)
    ensures |r| <= |s| && r == s[..|r|]
    ensures r == [] || r[|r| - 1] != '/'
    ensures forall k :: |r| <= k < |s| ==> s[k] == '/'
  {
    if s != [] && s[|s| - 1] == '/' then StripTrailingSlashes(s[..|s| - 1]) else s
  }

  /** `os.path.join(a, b)` */
  function PathJoin(a: string, b: string): string
  {
    if StartsWith(b, "/") then b
    else if a == [] || EndsWith(a, "/") then a + b
    else a + "/" + b
  }

  /** `os.path.basename(p)` */
  function BaseName(p: string): string
  {
    p[LastIndexOf(p, '/') + 1..]
  }

  /** `os.path.dirname(p)` */
  function DirName(p: string): string
  {
    var head := p[..LastIndexOf(p, '/') + 1];
    if head != [] && !AllChar(head, '/') then StripTrailingSlashes(head) else head
  }

  /** `os.path.splitext(name)[0]` for a name without '/': the text before the
      last dot, unless only dots precede that dot (a hidden file has no extension). */
  function SplitExtRoot(name: string): string
  {
    var dot := LastIndexOf(name, '.');
    if dot < 0 || AllChar(name[..dot], '.') then name else name[..dot]
  }

  /** Appending text without `c` does not move the last `c`. */
  lemma {:induction false} LastIndexOfAppend(s: string, t: string, c: char)
    requires c !in t
    ensures LastIndexOf(s + t, c) == LastIndexOf(s, c)
  {
    if t == [] {
      assert s + t == s;
    } else {
      assert (s + t)[..|s + t| - 1] == s + t[..|t| - 1];
      assert t[|t| - 1] in t;
      assert forall x :: x in t[..|t| - 1] ==> x in t;
      LastIndexOfAppend(s, t[..|t| - 1], c);
    }
  }

  /** A joined path is the directory, a separating slash unless the directory is
      empty or already ends in one, and the file name. */
  lemma JoinShape(dir: string, file: string)
    requires '/' !in file
    ensures dir == [] ==> PathJoin(dir, file) == file
    ensures dir != [] ==>
      var prefix := if EndsWith(dir, "/") then dir else dir + "/";
      PathJoin(dir, file) == prefix + file
      && LastIndexOf(PathJoin(dir, file), '/') == |prefix| - 1
    ensures dir == [] ==> LastIndexOf(PathJoin(dir, file), '/') == -1
  {
    if file != [] { assert file[0] in file; }
    assert !StartsWith(file, "/");
    LastIndexOfAppend([], file, '/');
    assert [] + file == file;
    if dir != [] {
      var prefix := if EndsWith(dir, "/") then dir else dir + "/";
      assert prefix[|prefix| - 1] == '/';
      LastIndexOfAppend(prefix, file, '/');
    }
  }

  /** The base name of a joined path is the file name that was joined. */
  lemma BaseNameOfJoin(dir: string, file: string)
    requires '/' !in file
    ensures BaseName(PathJoin(dir, file)) == file
  {
    JoinShape(dir, file);
  }

  /** The directory of a joined path is the directory that was joined, without
      its trailing slashes (kept as they are when it has nothing else). */
  lemma DirNameOfJoin(dir: string, file: string)
    requires '/' !in file
    ensures DirName(PathJoin(dir, file))
            == if AllChar(dir, '/') then dir else StripTrailingSlashes(dir)
  {
    JoinShape(dir, file);
    var p := PathJoin(dir, file);
    if dir != [] {
      var prefix := if EndsWith(dir, "/") then dir else dir + "/";
      var head := p[..LastIndexOf(p, '/') + 1];
      assert head == prefix;
      if !EndsWith(dir, "/") {
        assert dir[|dir| - 1] != '/';
        assert head[|dir| - 1] == dir[|dir| - 1];
        assert head[..|head| - 1] == dir;
      }
    }
  }

  /** A `<stem>.json` file name loses exactly its `.json` suffix, as long as
      the stem is not made of dots only. */
  lemma SplitExtJson(stem: string)
    requires !AllChar(stem, '.')
    ensures SplitExtRoot(stem + ".json") == stem
  {
    assert stem + ".json" == (stem + ".") + "json";
    LastIndexOfAppend(stem + ".", "json", '.');
    assert (stem + ".json")[..|stem|] == stem;
  }
}
