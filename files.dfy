/**
 * The file browser's path sandbox and directory listing.
 *
 * Paths are handled lexically, as Go's `path/filepath` does on a system
 * whose separator is `/`: an absolute clean path is the sequence of its
 * components, none of them empty, `.` or `..`, and none holding `/`.
 * `filepath.Abs` on a relative path needs the working directory, which is a
 * parameter here.
 */
module Files {
  import opened Wrappers
  import opened Text

  /** The components of an absolute path: `/a/b` is `["a", "b"]` and `/` is `[]`. */
  type Path = seq<string>

  predicate IsName(c: string) {
    c != "" && c != "." && c != ".." && '/' !in c
  }

  predicate IsClean(p: Path) {
    forall i :: 0 <= i < |p| ==> IsName(p[i])
  }

  predicate NoSlash(parts: seq<string>) {
    forall i :: 0 <= i < |parts| ==> '/' !in parts[i]
  }

  /**
   * Lexical resolution of the pieces of a path from directory `dir`, as
   * `filepath.Clean` does it: empty pieces and `.` are dropped, `..` removes
   * the last component and is dropped at the root.
   */
  function Resolve(dir: Path, parts: seq<string>): (r: Path)
    requires IsClean(dir) && NoSlash(parts)
    ensures IsClean(r)
    decreases |parts|
  {
    if parts == [] then dir
    else
      var c := parts[0];
      var next := if c == "" || c == "." then dir
                  else if c == ".." then (if dir == [] then [] else dir[..|dir| - 1])
                  else dir + [c];
      Resolve(next, parts[1..])
  }

  /** `filepath.Clean` of a rooted path. */
  function CleanAbs(s: string): (p: Path)
    requires HasPrefix(s, "/")
    ensures IsClean(p)
  {
    Resolve([], Split(s, '/'))
  }

  /** The text of an absolute path. */
  function Render(p: Path): (s: string)
    ensures HasPrefix(s, "/")
  {
    "/" + JoinWith(p, '/')
  }

  /** `filepath.Abs`: a rooted path is cleaned, any other is resolved from the working directory. */
  function Abs(cwd: Path, s: string): (p: Path)
    requires IsClean(cwd)
    ensures IsClean(p)
  {
    if HasPrefix(s, "/") then CleanAbs(s) else Resolve(cwd, Split(s, '/'))
  }

  /** `filepath.Join(dir, elem)` for a rooted `dir` and a non-empty `elem`: the two glued with `/`, cleaned. */
  function Join(dir: string, elem: string): (s: string)
    requires HasPrefix(dir, "/")
    ensures HasPrefix(s, "/")
  {
    assert HasPrefix(dir + "/" + elem, "/") by {
      assert (dir + "/" + elem)[..1] == dir[..1];
    }
    Render(CleanAbs(dir + "/" + elem))
  }

  // ---------------------------------------------------------------------
  // Lemmas about lexical paths
  // ---------------------------------------------------------------------

  /** Resolving plain names appends them. */
  lemma {:induction false} ResolveNames(dir: Path, names: Path)
    requires IsClean(dir) && IsClean(names)
    ensures Resolve(dir, names) == dir + names
    decreases |names|
  {
    if names == [] {
      assert dir + names == dir;
    } else {
      ResolveNames(dir + [names[0]], names[1..]);
      assert dir + [names[0]] + names[1..] == dir + names;
    }
  }

  /** Resolving a concatenation resolves its two parts one after the other. */
  lemma {:induction false} ResolveAppend(dir: Path, a: seq<string>, b: seq<string>)
    requires IsClean(dir) && NoSlash(a) && NoSlash(b)
    ensures NoSlash(a + b)
    ensures Resolve(dir, a + b) == Resolve(Resolve(dir, a), b)
    decreases |a|
  {
    assert NoSlash(a + b) by {
      forall i | 0 <= i < |a + b| ensures '/' !in (a + b)[i] {
        if i < |a| { assert (a + b)[i] == a[i]; } else { assert (a + b)[i] == b[i - |a|]; }
      }
    }
    if a == [] {
      assert a + b == b;
    } else {
      var c := a[0];
      var next := if c == "" || c == "." then dir
                  else if c == ".." then (if dir == [] then [] else dir[..|dir| - 1])
                  else dir + [c];
      assert (a + b)[0] == c && (a + b)[1..] == a[1..] + b;
      ResolveAppend(next, a[1..], b);
    }
  }

  /** Resolution adds at most one component per piece. */
  lemma {:induction false} ResolveKeepsRoot(dir: Path, parts: seq<string>)
    requires IsClean(dir) && NoSlash(parts)
    ensures |Resolve(dir, parts)| <= |dir| + |parts|
    decreases |parts|
  {
    if parts != [] {
      var c := parts[0];
      var next := if c == "" || c == "." then dir
                  else if c == ".." then (if dir == [] then [] else dir[..|dir| - 1])
                  else dir + [c];
      ResolveKeepsRoot(next, parts[1..]);
    }
  }

  /**
   * Resolution never climbs above the root: once at least as many `..` as
   * `dir` has components have been resolved, the rest resolves as from `/`.
   */
  lemma {:induction false} ResolveClimb(dir: Path, n: nat, parts: seq<string>)
    requires IsClean(dir) && NoSlash(parts) && |dir| <= n
    ensures NoSlash(Repeat("..", n) + parts)
    ensures Resolve(dir, Repeat("..", n) + parts) == Resolve([], parts)
    decreases n
  {
    var ps := Repeat("..", n) + parts;
    assert NoSlash(ps) by {
      forall i | 0 <= i < |ps| ensures '/' !in ps[i] {
        if i < n { assert ps[i] == ".."; } else { assert ps[i] == parts[i - n]; }
      }
    }
    if n == 0 {
      assert ps == parts;
    } else {
      var up := if dir == [] then [] else dir[..|dir| - 1];
      ResolveClimb(up, n - 1, parts);
      assert ps[0] == ".." && ps[1..] == Repeat("..", n - 1) + parts;
    }
  }

  /** Cleaning the text of a clean path gives back the path. */
  lemma CleanRender(p: Path)
    requires IsClean(p)
    ensures CleanAbs(Render(p)) == p
  {
    if p == [] {
      assert Render(p) == "/";
      assert Split("/", '/') == ["", ""] by {
        assert "/"[1..] == "";
      }
    } else {
      assert NoSlash(p);
      SplitAfter("", '/', JoinWith(p, '/'));
      assert "" + ['/'] + JoinWith(p, '/') == Render(p);
      SplitJoin(p, '/');
      ResolveNames([], p);
      assert ([""] + p)[1..] == p;
    }
  }

  /** Joining a relative text under an absolute path and cleaning resolves the text from there. */
  lemma JoinClean(base: Path, path: string)
    requires IsClean(base)
    ensures HasPrefix(Render(base) + "/" + path, "/")
    ensures CleanAbs(Render(base) + "/" + path) == Resolve(base, Split(path, '/'))
  {
    assert (Render(base) + "/" + path)[..1] == "/";
    if base == [] {
      var rest := Split(path, '/');
      assert JoinWith(base, '/') == "";
      assert Render(base) + "/" + path == "/" + "/" + path;
      JoinCleanRoot(path);
      var parts := ["", ""] + rest;
      assert parts[0] == "" && parts[1..] == [""] + rest;
      assert ([""] + rest)[0] == "" && ([""] + rest)[1..] == rest;
      assert Resolve([], parts) == Resolve([], [""] + rest) == Resolve([], rest);
    } else {
      JoinCleanBelow(base, path);
    }
  }

  lemma JoinCleanRoot(path: string)
    ensures HasPrefix("/" + "/" + path, "/")
    ensures Split("/" + "/" + path, '/') == ["", ""] + Split(path, '/')
  {
    var s := "/" + "/" + path;
    assert s[..1] == "/";
    assert s[1..] == "/" + path;
    assert ("/" + path)[1..] == path;
  }

  lemma JoinCleanBelow(base: Path, path: string)
    requires IsClean(base) && base != []
    ensures HasPrefix(Render(base) + "/" + path, "/")
    ensures CleanAbs(Render(base) + "/" + path) == Resolve(base, Split(path, '/'))
  {
    var s := Render(base) + "/" + path;
    assert s[..1] == "/";
    var rest := Split(path, '/');
    var head := [""] + base;
    JoinSplitBelow(base, path);
    RootedHead(base);
    ResolveAppend([], head, rest);
    assert CleanAbs(s) == Resolve([], head + rest);
  }

  /** The pieces of `/a/b/path` are `""`, then `a` and `b`, then the pieces of `path`. */
  lemma JoinSplitBelow(base: Path, path: string)
    requires IsClean(base) && base != []
    ensures Split(Render(base) + "/" + path, '/') == ([""] + base) + Split(path, '/')
  {
    var s := Render(base) + "/" + path;
    var j := JoinWith(base, '/');
    assert NoSlash(base);
    assert s == "" + ['/'] + (j + ['/'] + path);
    SplitAfter("", '/', j + ['/'] + path);
    SplitJoinThen(base, '/', path);
  }

  /** The pieces `""`, `a`, `b` of `/a/b` hold no `/` and resolve to `a`, `b`. */
  lemma RootedHead(base: Path)
    requires IsClean(base)
    ensures NoSlash([""] + base) && Resolve([], [""] + base) == base
  {
    var head := [""] + base;
    assert NoSlash(head) by {
      forall i | 0 <= i < |head| ensures '/' !in head[i] {
        if i > 0 { assert head[i] == base[i - 1]; }
      }
    }
    assert head[0] == "" && head[1..] == base;
    ResolveNames([], base);
  }

  // ---------------------------------------------------------------------
  // filepath.Rel
  // ---------------------------------------------------------------------

  /** The length of the longest common prefix of two paths. */
  function CommonPrefix(a: Path, b: Path): (k: nat)
    ensures k <= |a| && k <= |b|
    ensures a[..k] == b[..k]
    ensures k < |a| && k < |b| ==> a[k] != b[k]
  {
    if a == [] || b == [] || a[0] != b[0] then 0
    else
      var k := 1 + CommonPrefix(a[1..], b[1..]);
      assert a[..k] == [a[0]] + a[1..][..k - 1];
      assert b[..k] == [b[0]] + b[1..][..k - 1];
      k
  }

  function Repeat(x: string, n: nat): (r: seq<string>)
    ensures |r| == n && forall i :: 0 <= i < n ==> r[i] == x
  {
    if n == 0 then [] else [x] + Repeat(x, n - 1)
  }

  /**
   * `filepath.Rel` between two absolute clean paths: one `..` for each
   * component of `base` below the common prefix, then the rest of `target`;
   * `.` when the two are equal.
   */
  function Rel(base: Path, target: Path): string {
    var k := CommonPrefix(base, target);
    var parts := Repeat("..", |base| - k) + target[k..];
    if parts == [] then "." else JoinWith(parts, '/')
  }

  /** From a directory to one of its descendants, `Rel` is the path below it. */
  lemma RelBelow(base: Path, below: Path)
    requires below != []
    ensures Rel(base, base + below) == JoinWith(below, '/')
  {
    var k := CommonPrefix(base, base + below);
    assert (base + below)[..|base|] == base;
    if k < |base| {
      assert false;
    }
    assert Repeat("..", 0) + (base + below)[|base|..] == below;
  }

  /**
   * The relative path starts with `..` exactly when `target` is not `base`
   * or below it, or when it is below it and its first component below
   * `base` itself starts with `..`.
   */
  lemma RelDotDot(base: Path, target: Path)
    requires IsClean(base) && IsClean(target)
    ensures HasPrefix(Rel(base, target), "..") <==>
              !(base <= target) || (|target| > |base| && HasPrefix(target[|base|], ".."))
  {
    var k := CommonPrefix(base, target);
    var parts := Repeat("..", |base| - k) + target[k..];
    if base <= target {
      assert target[..|base|] == base;
      if k < |base| {
        assert false;
      }
      assert parts == target[|base|..];
      if parts != [] {
        JoinWithHead(parts, '/');
        var head := parts[0];
        assert head == target[|base|] && IsName(head);
        var j := JoinWith(parts, '/');
        if |head| == 1 {
          assert !HasPrefix(head, "..");
          assert !HasPrefix(j, "..") by {
            if |parts| > 1 {
              assert j[1] == '/';
            } else {
              assert j == head;
            }
          }
        } else {
          assert j[..2] == head[..2];
        }
      }
    } else {
      if k == |base| {
        assert false;
      }
      assert parts[0] == "..";
      JoinWithHead(parts, '/');
      var j := JoinWith(parts, '/');
      assert j[..2] == "..";
    }
  }

  // ---------------------------------------------------------------------
  // sanitizePath
  // ---------------------------------------------------------------------

  /** The one error `sanitizePath` makes itself: `os.ErrPermission`. */
  datatype FsError = ErrPermission

  /**
   * `sanitizePath(baseDir, path)`: the base made absolute; the root-like
   * paths `""`, `"/"` and `"."` standing for the base, any other path joined
   * under it; the outcome cleaned; and a refusal when the outcome's path
   * relative to the base starts with `..`.
   */
  function SanitizePath(cwd: Path, baseDir: string, path: string): (r: Result<Path, FsError>)
    requires IsClean(cwd)
    ensures r.Success? ==> IsClean(r.value)
  {
    var absBase := Abs(cwd, baseDir);
    var targetPath := if path == "" || path == "/" || path == "." then Render(absBase) else Join(Render(absBase), path);
    var absPath := CleanAbs(targetPath);
    var relPath := Rel(absBase, absPath);
    if HasPrefix(relPath, "..") then Failure(ErrPermission) else Success(absPath)
  }

  /** Where a path lands before the check, whatever the check says. */
  function Landing(cwd: Path, baseDir: string, path: string): (p: Path)
    requires IsClean(cwd)
  {
    var absBase := Abs(cwd, baseDir);
    if path == "" || path == "/" || path == "." then absBase else Resolve(absBase, Split(path, '/'))
  }

  lemma LandingIsTarget(cwd: Path, baseDir: string, path: string)
    requires IsClean(cwd)
    ensures var absBase := Abs(cwd, baseDir);
            var t := if path == "" || path == "/" || path == "." then Render(absBase) else Join(Render(absBase), path);
            CleanAbs(t) == Landing(cwd, baseDir, path)
  {
    var absBase := Abs(cwd, baseDir);
    CleanRender(absBase);
    if !(path == "" || path == "/" || path == ".") {
      JoinClean(absBase, path);
      CleanRender(Resolve(absBase, Split(path, '/')));
    }
  }

  /** `""`, `"/"` and `"."` give the base directory itself. */
  lemma SanitizeRoot(cwd: Path, baseDir: string, path: string)
    requires IsClean(cwd)
    requires path == "" || path == "/" || path == "."
    ensures SanitizePath(cwd, baseDir, path) == Success(Abs(cwd, baseDir))
  {
    LandingIsTarget(cwd, baseDir, path);
    var absBase := Abs(cwd, baseDir);
    assert Rel(absBase, absBase) == "." by {
      RelDotDot(absBase, absBase);
      var k := CommonPrefix(absBase, absBase);
      if k < |absBase| { assert false; }
    }
  }

  /**
   * `sanitizePath` succeeds exactly when the landing place is the base or
   * below it with a first component below the base not starting with `..`,
   * and then it yields the landing place.
   */
  lemma SanitizeIff(cwd: Path, baseDir: string, path: string)
    requires IsClean(cwd)
    ensures var base, t := Abs(cwd, baseDir), Landing(cwd, baseDir, path);
            && (SanitizePath(cwd, baseDir, path).Success? <==>
                  base <= t && (|t| == |base| || !HasPrefix(t[|base|], "..")))
            && (SanitizePath(cwd, baseDir, path).Success? ==> SanitizePath(cwd, baseDir, path).value == t)
  {
    LandingIsTarget(cwd, baseDir, path);
    RelDotDot(Abs(cwd, baseDir), Landing(cwd, baseDir, path));
  }

  /** Whatever is let through is the base directory or lies below it. */
  lemma SanitizeInside(cwd: Path, baseDir: string, path: string)
    requires IsClean(cwd)
    requires SanitizePath(cwd, baseDir, path).Success?
    ensures Abs(cwd, baseDir) <= SanitizePath(cwd, baseDir, path).value
  {
    SanitizeIff(cwd, baseDir, path);
  }

  /** An absolute request path is taken as relative to the base: `/etc` is the base's own `etc`. */
  lemma SanitizeAbsolute(cwd: Path, baseDir: string, name: string)
    requires IsClean(cwd) && IsName(name) && !HasPrefix(name, "..")
    ensures SanitizePath(cwd, baseDir, "/" + name) == Success(Abs(cwd, baseDir) + [name])
  {
    var base := Abs(cwd, baseDir);
    SplitAfter("", '/', name);
    assert "" + ['/'] + name == "/" + name;
    SplitNone(name, '/');
    assert Split("/" + name, '/') == ["", name];
    assert Resolve(base, ["", name]) == Resolve(base, [name]);
    ResolveNames(base, [name]);
    assert "/" + name != "" && "/" + name != "/" && "/" + name != "." by {
      assert |"/" + name| >= 2;
    }
    SanitizeIff(cwd, baseDir, "/" + name);
    assert (base + [name])[|base|] == name;
  }

  /** Climbing out of a base below the root is refused. */
  lemma SanitizeEscape(cwd: Path, baseDir: string)
    requires IsClean(cwd) && Abs(cwd, baseDir) != []
    ensures SanitizePath(cwd, baseDir, "..") == Failure(ErrPermission)
  {
    var base := Abs(cwd, baseDir);
    assert Split("..", '/') == [".."] by {
      SplitNone("..", '/');
    }
    assert ".." != "" && ".." != "/" && ".." != "." by {
      assert |".."| == 2;
    }
    assert Resolve(base, [".."]) == Resolve(base[..|base| - 1], []);
    assert Landing(cwd, baseDir, "..") == base[..|base| - 1];
    SanitizeIff(cwd, baseDir, "..");
  }

  /**
   * The `..` test is on text: a first component such as `..cfg` is refused
   * although it names an entry inside the base.
   */
  lemma SanitizeDotDotName(cwd: Path, baseDir: string, name: string)
    requires IsClean(cwd) && IsName(name) && HasPrefix(name, "..")
    ensures Landing(cwd, baseDir, name) == Abs(cwd, baseDir) + [name]
    ensures SanitizePath(cwd, baseDir, name) == Failure(ErrPermission)
  {
    var base := Abs(cwd, baseDir);
    SplitNone(name, '/');
    ResolveNames(base, [name]);
    SanitizeIff(cwd, baseDir, name);
    assert (base + [name])[|base|] == name;
  }

  // ---------------------------------------------------------------------
  // ListFiles
  // ---------------------------------------------------------------------

  /** What `Readdir` reports of one entry; the modification time comes already formatted. */
  datatype DirEntry = DirEntry(name: string, isDir: bool, size: int, modified: string)

  /** `FileInfo` as the listing returns it. */
  datatype FileInfo = FileInfo(name: string, path: string, kind: string, size: int, modified: string, isHidden: bool)

  /**
   * The `path` of a listed entry: the entry joined under the listed
   * directory, made relative to the base as given.  `filepath.Rel` fails
   * for a base that is not absolute, the error is dropped, and the path is
   * then empty.
   */
  function EntryPath(baseDir: string, dir: Path, name: string): string
    requires IsClean(dir)
  {
    if HasPrefix(baseDir, "/") then Rel(CleanAbs(baseDir), Resolve(dir, Split(name, '/'))) else ""
  }

  /** The classification of one entry of directory `dir`. */
  function Classify(baseDir: string, dir: Path, e: DirEntry): (f: FileInfo)
    requires IsClean(dir)
    ensures f.kind == "directory" <==> e.isDir
    ensures f.kind == "file" <==> !e.isDir
    ensures f.isHidden <==> HasPrefix(e.name, ".")
    ensures f.name == e.name && f.size == e.size && f.modified == e.modified
    ensures f.path == EntryPath(baseDir, dir, e.name)
  {
    FileInfo(e.name, EntryPath(baseDir, dir, e.name), if e.isDir then "directory" else "file",
             e.size, e.modified, HasPrefix(e.name, "."))
  }

  /**
   * For an absolute base, an entry with a plain name in a directory below
   * the base is listed under its path below the base.
   */
  lemma EntryPathBelow(baseDir: string, below: Path, name: string)
    requires HasPrefix(baseDir, "/") && IsClean(below) && IsName(name)
    ensures IsClean(CleanAbs(baseDir) + below)
    ensures EntryPath(baseDir, CleanAbs(baseDir) + below, name) == JoinWith(below + [name], '/')
  {
    var base := CleanAbs(baseDir);
    assert IsClean(base + below) by {
      forall i | 0 <= i < |base + below| ensures IsName((base + below)[i]) {
        if i < |base| { assert (base + below)[i] == base[i]; } else { assert (base + below)[i] == below[i - |base|]; }
      }
    }
    SplitNone(name, '/');
    ResolveNames(base + below, [name]);
    assert base + below + [name] == base + (below + [name]);
    RelBelow(base, below + [name]);
  }

  /** The loop of `ListFiles` over the directory's entries, in `Readdir` order. */
  method ListEntries(baseDir: string, dir: Path, entries: seq<DirEntry>) returns (result: seq<FileInfo>)
    requires IsClean(dir)
    ensures |result| == |entries|
    ensures forall i :: 0 <= i < |entries| ==> result[i] == Classify(baseDir, dir, entries[i])
  {
    result := [];
    for i := 0 to |entries|
      invariant |result| == i
      invariant forall j :: 0 <= j < i ==> result[j] == Classify(baseDir, dir, entries[j])
    {
      var f := entries[i];
      var fileType := "file";
      if f.isDir {
        fileType := "directory";
      }
      var relPath := EntryPath(baseDir, dir, f.name);
      result := result + [FileInfo(f.name, relPath, fileType, f.size, f.modified, HasPrefix(f.name, "."))];
    }
  }

  // ---------------------------------------------------------------------
  // The handlers' checks before any filesystem access
  // ---------------------------------------------------------------------

  /** The five file handlers. */
  datatype FileOp = List | Read | Write | Delete | Mkdir

  const StatusBadRequest := 400
  const StatusMethodNotAllowed := 405

  /**
   * What a handler checks before it touches the filesystem, in its order:
   * the method (PUT for writing, POST for creating a directory), a non-empty
   * `path` (all but the listing), a decodable body (writing), and the
   * sandbox.  A success is the sanitized path the handler goes on with.
   */
  function Admission(op: FileOp, verb: string, path: string, bodyOk: bool,
                     cwd: Path, baseDir: string): (r: Result<Path, HttpError>)
    requires IsClean(cwd)
  {
    if op == Write && verb != "PUT" then Failure(HttpError(StatusMethodNotAllowed, "Method not allowed"))
    else if op == Mkdir && verb != "POST" then Failure(HttpError(StatusMethodNotAllowed, "Method not allowed"))
    else if op != List && path == "" then Failure(HttpError(StatusBadRequest, "Path is required"))
    else if op == Write && !bodyOk then Failure(HttpError(StatusBadRequest, "Invalid request body"))
    else
      match SanitizePath(cwd, baseDir, path)
      case Failure(_) => Failure(HttpError(StatusBadRequest, "Invalid path"))
      case Success(p) => Success(p)
  }

  /** The method is checked first: a wrong one is refused whatever the path and body. */
  lemma AdmissionMethodFirst(op: FileOp, verb: string, path: string, bodyOk: bool, cwd: Path, baseDir: string)
    requires IsClean(cwd)
    requires (op == Write && verb != "PUT") || (op == Mkdir && verb != "POST")
    ensures Admission(op, verb, path, bodyOk, cwd, baseDir) == Failure(HttpError(StatusMethodNotAllowed, "Method not allowed"))
  {
  }

  /** Reading, writing, deleting and creating refuse an empty path; listing takes it as the base. */
  lemma AdmissionEmptyPath(op: FileOp, verb: string, bodyOk: bool, cwd: Path, baseDir: string)
    requires IsClean(cwd)
    requires op == Write ==> verb == "PUT"
    requires op == Mkdir ==> verb == "POST"
    ensures op != List ==> Admission(op, verb, "", bodyOk, cwd, baseDir) == Failure(HttpError(StatusBadRequest, "Path is required"))
    ensures op == List ==> Admission(op, verb, "", bodyOk, cwd, baseDir) == Success(Abs(cwd, baseDir))
  {
    if op == List {
      SanitizeRoot(cwd, baseDir, "");
    }
  }

  /**
   * Every handler that gets past its checks works on the base directory or
   * something below it, and only on a sanitized path.
   */
  lemma AdmissionInside(op: FileOp, verb: string, path: string, bodyOk: bool, cwd: Path, baseDir: string)
    requires IsClean(cwd)
    requires Admission(op, verb, path, bodyOk, cwd, baseDir).Success?
    ensures SanitizePath(cwd, baseDir, path) == Success(Admission(op, verb, path, bodyOk, cwd, baseDir).value)
    ensures Abs(cwd, baseDir) <= Admission(op, verb, path, bodyOk, cwd, baseDir).value
  {
    SanitizeInside(cwd, baseDir, path);
  }
}
