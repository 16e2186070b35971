/** Module-path resolution: the imported-module prefix shortcut, the
    segment-by-segment walk through the search path with `imp.find_module`,
    the final "package directory to its `__init__` script" step, and
    relative resolution from the active file. */
module Resolver {
  import opened Wrappers
  import opened Paths
  import opened FileSystem
  import opened ModulePathSyntax
  import opened SearchPath

  /** What resolution sees of the machine: the filesystem, `imp`'s own list
      of module suffixes, the working directory and `os.path.normpath`,
      which `os.path.abspath` uses. */
  datatype Host = Host(fs: FS, suffixes: seq<string>, cwd: Path, normpath: Path -> Path)

  /** `os.path.abspath(p)`. */
  function Abspath(h: Host, p: Path): Path
  {
    h.normpath(if IsAbs(p) then p else Join(h.cwd, p))
  }

  /** The `__init__` files that make a directory a package for `imp`:
      source or bytecode only, whatever the other module suffixes are. */
  const InitSuffixes: seq<string> := [".py", ".pyc"]

  /** A directory that `imp` treats as a package: it holds `__init__.py`
      or `__init__.pyc` as a regular file. */
  predicate IsPackageDir(fs: FS, dir: Path)
  {
    IsDir(fs, dir) && exists s | s in InitSuffixes :: IsFile(fs, Join(dir, "__init__" + s))
  }

  /** The first `name + suffix` file in `entry`, trying suffixes in order. */
  function FirstModuleFile(fs: FS, entry: Path, name: string, sfx: seq<string>): Option<Path>
  {
    FirstHit(s => ModuleFileWithSuffix(fs, entry, name, s), sfx)
  }

  /** One try: `name + suffix` in `entry`, when it is a regular file. */
  function ModuleFileWithSuffix(fs: FS, entry: Path, name: string, suffix: string): Option<Path>
  {
    var filename := Join(entry, name + suffix);
    if IsFile(fs, filename) then Some(filename) else None
  }

  /** A module file found is `name + sfx[i]` for the first suffix `sfx[i]`
      that gives a regular file: earlier suffixes win. */
  lemma FirstModuleFileFirst(fs: FS, entry: Path, name: string, sfx: seq<string>) returns (i: nat)
    requires FirstModuleFile(fs, entry, name, sfx).Some?
    ensures i < |sfx| && IsFile(fs, Join(entry, name + sfx[i]))
    ensures FirstModuleFile(fs, entry, name, sfx).value == Join(entry, name + sfx[i])
    ensures forall j | 0 <= j < i :: !IsFile(fs, Join(entry, name + sfx[j]))
  {
    i := FirstHitWitness(s => ModuleFileWithSuffix(fs, entry, name, s), sfx);
    forall j | 0 <= j < i ensures !IsFile(fs, Join(entry, name + sfx[j])) {
      assert ModuleFileWithSuffix(fs, entry, name, sfx[j]).None?;
    }
  }

  /** No module file is found exactly when no suffix gives a regular file. */
  lemma FirstModuleFileNone(fs: FS, entry: Path, name: string, sfx: seq<string>)
    ensures FirstModuleFile(fs, entry, name, sfx).None? <==>
      forall s | s in sfx :: !IsFile(fs, Join(entry, name + s))
  {
    FirstHitNone(s => ModuleFileWithSuffix(fs, entry, name, s), sfx);
    assert forall s | s in sfx :: ModuleFileWithSuffix(fs, entry, name, s).None? <==> !IsFile(fs, Join(entry, name + s));
  }

  /** What `imp.find_module(name, [entry])` finds in one search-path entry:
      a package directory before a module file. */
  function FindInEntry(fs: FS, sfx: seq<string>, entry: Path, name: string): Option<Path>
  {
    if IsPackageDir(fs, Join(entry, name)) then Some(Join(entry, name))
    else FirstModuleFile(fs, entry, name, sfx)
  }

  /** One entry yields the package directory `name` when it is one, and
      otherwise a module file `name + suffix`; it yields nothing exactly
      when there is neither. */
  lemma FindInEntryFinds(fs: FS, sfx: seq<string>, entry: Path, name: string)
    ensures var r := FindInEntry(fs, sfx, entry, name);
      && (IsPackageDir(fs, Join(entry, name)) ==> r == Some(Join(entry, name)))
      && (!IsPackageDir(fs, Join(entry, name)) ==> r == FirstModuleFile(fs, entry, name, sfx))
      && (r.Some? && r.value != Join(entry, name) ==>
            IsFile(fs, r.value) && exists s | s in sfx :: r.value == Join(entry, name + s))
      && (r.None? <==> !IsPackageDir(fs, Join(entry, name)) &&
                       forall s | s in sfx :: !IsFile(fs, Join(entry, name + s)))
  {
    FirstModuleFileNone(fs, entry, name, sfx);
    var r := FirstModuleFile(fs, entry, name, sfx);
    if r.Some? {
      var i := FirstModuleFileFirst(fs, entry, name, sfx);
      assert sfx[i] in sfx;
    }
  }

  /** The first of two lookups that finds anything. */
  function OrElse(first: Option<Path>, second: Option<Path>): Option<Path>
  {
    if first.Some? then first else second
  }

  /** The search through `dirs` in order: what `look` finds in the first
      entry where it finds anything. */
  function FirstHit(look: Path -> Option<Path>, dirs: seq<Path>): Option<Path>
  {
    if dirs == [] then None
    else if look(dirs[0]).Some? then look(dirs[0])
    else FirstHit(look, dirs[1..])
  }

  /** The entry a successful search stopped at: every entry before it
      has nothing. */
  lemma {:induction false} FirstHitWitness(look: Path -> Option<Path>, dirs: seq<Path>) returns (i: nat)
    requires FirstHit(look, dirs).Some?
    ensures i < |dirs| && look(dirs[i]) == FirstHit(look, dirs)
    ensures forall j | 0 <= j < i :: look(dirs[j]).None?
  {
    if look(dirs[0]).Some? {
      i := 0;
    } else {
      var k := FirstHitWitness(look, dirs[1..]);
      i := k + 1;
      forall j | 0 <= j < i ensures look(dirs[j]).None? {
        if j > 0 { assert dirs[j] == dirs[1..][j - 1]; }
      }
    }
  }

  /** A search fails exactly when no entry has anything. */
  lemma {:induction false} FirstHitNone(look: Path -> Option<Path>, dirs: seq<Path>)
    ensures FirstHit(look, dirs).None? <==> forall i | 0 <= i < |dirs| :: look(dirs[i]).None?
  {
    if dirs != [] {
      FirstHitNone(look, dirs[1..]);
      assert forall i | 0 < i < |dirs| :: dirs[i] == dirs[1..][i - 1];
    }
  }

  /** Searching `a + b` finds what `a` has, and only otherwise what `b`
      has. */
  lemma {:induction false} FirstHitAppend(look: Path -> Option<Path>, a: seq<Path>, b: seq<Path>)
    ensures FirstHit(look, a + b) == OrElse(FirstHit(look, a), FirstHit(look, b))
  {
    if a != [] {
      assert (a + b)[0] == a[0];
      assert (a + b)[1..] == a[1..] + b;
      FirstHitAppend(look, a[1..], b);
    } else {
      assert a + b == b;
    }
  }

  /** `imp.find_module(name, dirs)[1]`, `None` for `ImportError`: the
      first entry of `dirs` that holds the module wins. */
  function FindModule(fs: FS, sfx: seq<string>, name: string, dirs: seq<Path>): Option<Path>
  {
    FirstHit(e => FindInEntry(fs, sfx, e, name), dirs)
  }

  /** The entry `FindModule` found the module in; no entry before it holds
      the module. */
  lemma FindModuleWitness(fs: FS, sfx: seq<string>, name: string, dirs: seq<Path>) returns (i: nat)
    requires FindModule(fs, sfx, name, dirs).Some?
    ensures i < |dirs| && FindInEntry(fs, sfx, dirs[i], name) == FindModule(fs, sfx, name, dirs)
    ensures forall j | 0 <= j < i :: FindInEntry(fs, sfx, dirs[j], name).None?
  {
    i := FirstHitWitness(e => FindInEntry(fs, sfx, e, name), dirs);
  }

  /** The first entry of `dirs` that holds the module wins; nothing is
      found exactly when no entry holds it. */
  lemma FindModuleFirstMatch(fs: FS, sfx: seq<string>, name: string, dirs: seq<Path>)
    ensures var r := FindModule(fs, sfx, name, dirs);
      r.Some? ==> exists i | 0 <= i < |dirs| ::
        FindInEntry(fs, sfx, dirs[i], name) == r &&
        forall j | 0 <= j < i :: FindInEntry(fs, sfx, dirs[j], name).None?
    ensures FindModule(fs, sfx, name, dirs).None? <==>
      forall i | 0 <= i < |dirs| :: FindInEntry(fs, sfx, dirs[i], name).None?
  {
    if FindModule(fs, sfx, name, dirs).Some? {
      var i := FindModuleWitness(fs, sfx, name, dirs);
    }
    FirstHitNone(e => FindInEntry(fs, sfx, e, name), dirs);
  }

  /** Searching `a + b` finds what `a` has, and only otherwise what `b`
      has: earlier search-path entries take precedence. */
  lemma FindModuleAppend(fs: FS, sfx: seq<string>, name: string, a: seq<Path>, b: seq<Path>)
    ensures FindModule(fs, sfx, name, a + b) ==
            OrElse(FindModule(fs, sfx, name, a), FindModule(fs, sfx, name, b))
  {
    FirstHitAppend(e => FindInEntry(fs, sfx, e, name), a, b);
  }

  /** On the composed search path a module is looked up in `prepend`, then
      in the base path, then in `append`, then among the project package
      roots, and the first group that has it wins. */
  lemma SearchOrder(fs: FS, sfx: seq<string>, name: string,
                    s: PathSettings, q: Query, fallback: seq<Path>, packages: seq<Path>)
    ensures FindModule(fs, sfx, name, GetSysPath(s, q, fallback, packages).dirs) ==
      OrElse(FindModule(fs, sfx, name, s.prepend),
        OrElse(FindModule(fs, sfx, name, BaseSpace(s, q, fallback).dirs),
          OrElse(FindModule(fs, sfx, name, s.append), FindModule(fs, sfx, name, packages))))
  {
    var base := BaseSpace(s, q, fallback).dirs;
    var tail := s.append + packages;
    assert GetSysPath(s, q, fallback, packages).dirs == s.prepend + (base + tail);
    FindModuleAppend(fs, sfx, name, s.append, packages);
    FindModuleAppend(fs, sfx, name, base, tail);
    FindModuleAppend(fs, sfx, name, s.prepend, base + tail);
  }

  /** `_get_python_script(dirpath, script)`: the absolute path of the first
      `script + ext` that exists in `dirpath`, extensions tried in the
      configured order. */
  function PythonScript(h: Host, exts: seq<string>, dirpath: Path, script: string): Option<Path>
  {
    FirstHit(e => ScriptWithExt(h, dirpath, script, e), exts)
  }

  /** One try of `_get_python_script`: `script + ext` in `dirpath`, as an
      absolute path, when it exists. */
  function ScriptWithExt(h: Host, dirpath: Path, script: string, ext: string): Option<Path>
  {
    var filename := Join(dirpath, script + ext);
    if Exists(h.fs, filename) then Some(Abspath(h, filename)) else None
  }

  /** A script found is the absolute path of `script + exts[i]` for the
      first extension `exts[i]` whose file exists. */
  lemma PythonScriptFirst(h: Host, exts: seq<string>, dirpath: Path, script: string)
    returns (i: nat)
    requires PythonScript(h, exts, dirpath, script).Some?
    ensures i < |exts| && Exists(h.fs, Join(dirpath, script + exts[i]))
    ensures PythonScript(h, exts, dirpath, script).value == Abspath(h, Join(dirpath, script + exts[i]))
    ensures forall j | 0 <= j < i :: !Exists(h.fs, Join(dirpath, script + exts[j]))
  {
    i := FirstHitWitness(e => ScriptWithExt(h, dirpath, script, e), exts);
    forall j | 0 <= j < i ensures !Exists(h.fs, Join(dirpath, script + exts[j])) {
      assert ScriptWithExt(h, dirpath, script, exts[j]).None?;
    }
  }

  /** No script is found exactly when no extension gives an existing file. */
  lemma PythonScriptNone(h: Host, exts: seq<string>, dirpath: Path, script: string)
    ensures PythonScript(h, exts, dirpath, script).None? <==>
      forall e | e in exts :: !Exists(h.fs, Join(dirpath, script + e))
  {
    FirstHitNone(e => ScriptWithExt(h, dirpath, script, e), exts);
    assert forall e | e in exts :: ScriptWithExt(h, dirpath, script, e).None? <==> !Exists(h.fs, Join(dirpath, script + e));
  }

  function FinishModule(h: Host, exts: seq<string>, p: Path): Path
  {
    if IsDir(h.fs, p) then PythonScript(h, exts, p, "__init__").GetOr(p) else p
  }

  /** The module path made of the first `n` segments. */
  function DottedPrefix(parts: seq<string>, n: nat): string
    requires n <= |parts|
  {
    JoinWith(parts[..n], '.')
  }

  /** Search for a dotted prefix of at most `m` segments in the module map,
      longest first; 0 when none is there. */
  function PrefixSearch(parts: seq<string>, imported: map<string, Path>, m: nat): (n: nat)
    requires m <= |parts|
    ensures n <= m
    ensures n > 0 ==> DottedPrefix(parts, n) in imported
    ensures forall k | n < k <= m :: DottedPrefix(parts, k) !in imported
  {
    if m == 0 then 0
    else if DottedPrefix(parts, m) in imported then m
    else PrefixSearch(parts, imported, m - 1)
  }

  /** The number of leading segments the imported-module map accounts for:
      the longest dotted prefix that is a key of the map, or 0. */
  function LongestImportedPrefix(parts: seq<string>, imported: map<string, Path>): (n: nat)
    ensures n <= |parts|
    ensures n > 0 ==> DottedPrefix(parts, n) in imported
    ensures forall k | n < k <= |parts| :: DottedPrefix(parts, k) !in imported
    ensures imported == map[] ==> n == 0
  {
    PrefixSearch(parts, imported, |parts|)
  }

  /** The properties above pin the prefix down: any `n` that is in the map
      with no longer prefix in it is the one chosen. */
  lemma LongestImportedPrefixUnique(parts: seq<string>, imported: map<string, Path>, n: nat)
    requires n <= |parts|
    requires n > 0 ==> DottedPrefix(parts, n) in imported
    requires forall k | n < k <= |parts| :: DottedPrefix(parts, k) !in imported
    ensures LongestImportedPrefix(parts, imported) == n
  {
  }

  /** The segment walk: each segment is looked up in the current search
      path, which then narrows to the one entry found; with no segment
      left, the first entry of the search path is the result. */
  function WalkSegments(fs: FS, sfx: seq<string>, dirs: seq<Path>, parts: seq<string>): Option<Path>
    decreases |parts|
  {
    if parts == [] then (if dirs == [] then None else Some(dirs[0]))
    else match FindModule(fs, sfx, parts[0], dirs)
      case None => None
      case Some(p) => WalkSegments(fs, sfx, [p], parts[1..])
  }

  /** One step of the walk at segment `i`. */
  lemma WalkSegmentsStep(fs: FS, sfx: seq<string>, dirs: seq<Path>, parts: seq<string>, i: nat)
    requires i < |parts|
    ensures WalkSegments(fs, sfx, dirs, parts[i..]) ==
      match FindModule(fs, sfx, parts[i], dirs)
      case None => None
      case Some(p) => WalkSegments(fs, sfx, [p], parts[i + 1..])
  {
    assert parts[i..][0] == parts[i] && parts[i..][1..] == parts[i + 1..];
  }

  /** The search path the walk starts from: the mapped directory of the
      longest imported prefix, or the whole search path. */
  function StartDirs(parts: seq<string>, space: SearchSpace): seq<Path>
  {
    var n := LongestImportedPrefix(parts, space.imported);
    if n > 0 then [space.imported[DottedPrefix(parts, n)]] else space.dirs
  }

  /** `_get_absolute_module_filename`, as a specification. */
  function ResolveAbsolute(h: Host, exts: seq<string>, parts: seq<string>, space: SearchSpace): Option<Path>
  {
    var n := LongestImportedPrefix(parts, space.imported);
    match WalkSegments(h.fs, h.suffixes, StartDirs(parts, space), parts[n..])
    case None => None
    case Some(p) => Some(FinishModule(h, exts, p))
  }

  /** Walking `xs + ys` is walking `xs` and then walking `ys` from the one
      entry found: resolution narrows segment by segment, and fails as a
      whole when any segment is missing. */
  lemma {:induction false} WalkSegmentsAppend(fs: FS, sfx: seq<string>, dirs: seq<Path>, xs: seq<string>, ys: seq<string>)
    requires xs != []
    decreases |xs|
    ensures WalkSegments(fs, sfx, dirs, xs + ys) ==
      match WalkSegments(fs, sfx, dirs, xs)
      case None => None
      case Some(p) => WalkSegments(fs, sfx, [p], ys)
  {
    assert (xs + ys)[0] == xs[0];
    assert (xs + ys)[1..] == xs[1..] + ys;
    match FindModule(fs, sfx, xs[0], dirs)
    case None =>
    case Some(p) =>
      if xs[1..] == [] {
        assert xs[1..] + ys == ys;
      } else {
        WalkSegmentsAppend(fs, sfx, [p], xs[1..], ys);
      }
  }

  /** One step of the walk: `next` is the package directory `name` or a
      module file `name + suffix` inside `dir`. */
  ghost predicate IsStep(dir: Path, name: string, next: Path, sfx: seq<string>)
  {
    next == Join(dir, name) || exists s | s in sfx :: next == Join(dir, name + s)
  }

  /** `p` is reached from `root` by following the segments one step each. */
  ghost predicate ReachedBy(root: Path, parts: seq<string>, p: Path, sfx: seq<string>)
    decreases |parts|
  {
    if parts == [] then p == root
    else exists next | IsStep(root, parts[0], next, sfx) :: ReachedBy(next, parts[1..], p, sfx)
  }

  /** What the walk finds lies at the exact segment chain under one entry
      of the search path. */
  lemma {:induction false} WalkFollowsSegments(fs: FS, sfx: seq<string>, dirs: seq<Path>, parts: seq<string>, p: Path)
    requires WalkSegments(fs, sfx, dirs, parts) == Some(p)
    decreases |parts|
    ensures exists i | 0 <= i < |dirs| :: ReachedBy(dirs[i], parts, p, sfx)
  {
    if parts == [] {
      assert ReachedBy(dirs[0], parts, p, sfx);
    } else {
      var q := FindModule(fs, sfx, parts[0], dirs).value;
      var i := FindModuleWitness(fs, sfx, parts[0], dirs);
      FindInEntryFinds(fs, sfx, dirs[i], parts[0]);
      assert IsStep(dirs[i], parts[0], q, sfx);
      WalkFollowsSegments(fs, sfx, [q], parts[1..], p);
      assert ReachedBy(q, parts[1..], p, sfx);
      assert ReachedBy(dirs[i], parts, p, sfx);
    }
  }

  /** The active view: none, or one whose file name may be missing (an
      unsaved buffer). */
  datatype ActiveView = NoView | View(fileName: Option<Path>)

  /** Where relative resolution starts, as the code computes it. */
  datatype StartPoint = NoContext | Raises | StartAt(dir: Path)

  /** The start of `_get_relative_module_filename` as written: no view gives
      no result, and a view without a file name reaches
      `os.path.dirname(None)`, which raises out of the command. */
  function RelativeStartAsWritten(view: ActiveView, dots: nat): (r: StartPoint)
    requires dots > 0
    ensures r.Raises? <==> view == View(None)
    ensures r.StartAt? <==> view.View? && view.fileName.Some?
    ensures r.StartAt? ==> r.dir == Ascend(view.fileName.value, dots)
  {
    match view
    case NoView => NoContext
    case View(None) => Raises
    case View(Some(f)) => StartAt(Ascend(f, dots))
  }

  /** An unsaved buffer and a relative path: the code as written raises
      instead of reporting that the module was not found. */
  lemma UnsavedViewRaises(dots: nat)
    requires dots > 0
    ensures RelativeStartAsWritten(View(None), dots) == Raises
  {
  }

  /** The imported-module shortcut of `_get_absolute_module_filename`: the
      longest dotted prefix of `parts` that is an imported module replaces
      the search path by that module's directory and is dropped from
      `parts`. */
  method ImportedStart(parts: seq<string>, space: SearchSpace) returns (sysPath: seq<Path>, rest: seq<string>)
    ensures sysPath == StartDirs(parts, space)
    ensures rest == parts[LongestImportedPrefix(parts, space.imported)..]
  {
    sysPath := space.dirs;
    rest := parts;
    var numParts := |parts|;
    while numParts > 0
      invariant numParts <= |parts| && rest == parts && sysPath == space.dirs
      invariant forall k: nat | numParts < k <= |parts| :: DottedPrefix(parts, k) !in space.imported
    {
      var prefix := JoinWith(parts[..numParts], '.');
      if prefix in space.imported {
        sysPath := [space.imported[prefix]];
        rest := parts[numParts..];
        LongestImportedPrefixUnique(parts, space.imported, numParts);
        return;
      }
      assert DottedPrefix(parts, numParts) !in space.imported;
      numParts := numParts - 1;
    }
    LongestImportedPrefixUnique(parts, space.imported, 0);
  }

  /** The `imp.find_module` loop of `_get_absolute_module_filename`: each
      segment is looked up in the directory the previous one was found in,
      and the first entry of the final search path is the module; `None`
      for an `ImportError` or an empty search path. */
  method FindSegments(fs: FS, sfx: seq<string>, dirs: seq<Path>, parts: seq<string>) returns (r: Option<Path>)
    ensures r == WalkSegments(fs, sfx, dirs, parts)
  {
    var sysPath := dirs;
    var i := 0;
    while i < |parts|
      invariant 0 <= i <= |parts|
      invariant WalkSegments(fs, sfx, dirs, parts) == WalkSegments(fs, sfx, sysPath, parts[i..])
    {
      var found := FindModule(fs, sfx, parts[i], sysPath);
      WalkSegmentsStep(fs, sfx, sysPath, parts, i);
      if found.None? {
        return None;
      }
      sysPath := [found.value];
      i := i + 1;
    }
    assert parts[i..] == [];
    if sysPath == [] {
      return None;
    }
    r := Some(sysPath[0]);
  }

  /** `_get_absolute_module_filename(absolute_path, start_path)`: `space` is
      `_get_sys_path()` when no start path is given, and the start path
      with an empty module map otherwise. */
  method AbsoluteModuleFilename(h: Host, exts: seq<string>, absolutePath: string, space: SearchSpace)
    returns (r: Option<Path>)
    ensures r == ResolveAbsolute(h, exts, Segments(absolutePath), space)
  {
    var parts := Segments(absolutePath);
    var sysPath, rest := ImportedStart(parts, space);
    var found := FindSegments(h.fs, h.suffixes, sysPath, rest);
    if found.None? {
      return None;
    }
    var pythonFilename := found.value;
    if IsDir(h.fs, pythonFilename) {
      r := Some(PythonScript(h, exts, pythonFilename, "__init__").GetOr(pythonFilename));
    } else {
      r := Some(pythonFilename);
    }
  }

  /** Relative resolution, as a specification: `dots` times up from the
      active file, then the absolute walk from that one directory. */
  function ResolveRelative(h: Host, exts: seq<string>, view: ActiveView, dots: nat, path: string): Option<Path>
  {
    if view.NoView? || view.fileName.None? then None
    else ResolveAbsolute(h, exts, Segments(path), SearchSpace([Ascend(view.fileName.value, dots)], map[]))
  }

  /** `_get_relative_module_filename`: from the active file, one `dirname`
      per dot, then absolute resolution from that single directory with an
      empty module map. A view without a file name yields no result (the
      code as written raises there; see `RelativeStartAsWritten`). */
  method RelativeModuleFilename(h: Host, exts: seq<string>, view: ActiveView, dots: nat, absolutePath: string)
    returns (r: Option<Path>)
    ensures r == ResolveRelative(h, exts, view, dots, absolutePath)
    ensures view.NoView? || view.fileName.None? ==> r == None
    ensures view.View? && view.fileName.Some? ==>
      r == ResolveAbsolute(h, exts, Segments(absolutePath),
                           SearchSpace([Ascend(view.fileName.value, dots)], map[]))
    ensures view.View? && view.fileName.Some? && absolutePath == "" ==>
      r == Some(FinishModule(h, exts, Ascend(view.fileName.value, dots)))
  {
    if view.NoView? || view.fileName.None? {
      return None;
    }
    var startPath := view.fileName.value;
    // move up in directory structure for each dot
    for k := 0 to dots
      invariant startPath == Ascend(view.fileName.value, k)
    {
      startPath := Dirname(startPath);
    }
    r := AbsoluteModuleFilename(h, exts, absolutePath, SearchSpace([startPath], map[]));
  }
}
