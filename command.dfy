/** The window command: parsing the typed module path and dispatching it to
    relative or absolute resolution, the project-containment test that
    chooses how a found file is opened, and the directory a new window is
    opened on. */
module Command {
  import opened Wrappers
  import opened Paths
  import opened ModulePathSyntax
  import opened SearchPath
  import opened Resolver
  import opened ProjectPackages

  /** `filename` lies in the project folder `root` as the code tests it:
      equal to it, or starting with it and one separator appended. */
  predicate InsideRootAsWritten(root: Path, filename: Path)
  {
    root == filename || root + [Sep] <= filename
  }

  /** `root` with a separator at the end, added only when it has none. */
  function WithSep(root: Path): (r: Path)
    ensures EndsWithSep(r) && root <= r
    ensures |r| <= |root| + 1
  {
    if EndsWithSep(root) then root else root + [Sep]
  }

  /** `filename` lies in the project folder `root`: equal to it, or below
      it. */
  predicate InsideRoot(root: Path, filename: Path)
  {
    root == filename || WithSep(root) <= filename
  }

  /** The project folder `/` as written: `/` followed by a separator is
      `//`, which no canonical path starts with, so nothing below the
      root folder counts as inside the project. */
  lemma RootFolderAsWritten()
    ensures !InsideRootAsWritten("/", "/a")
    ensures InsideRoot("/", "/a")
  {
    assert ("/" + [Sep])[1] == '/' && "/a"[1] == 'a';
  }

  /** The correction changes nothing for a folder not ending with a
      separator, which is every canonical folder except the root. */
  lemma InsideRootAgreesAwayFromRoot(root: Path, filename: Path)
    requires !EndsWithSep(root)
    ensures InsideRoot(root, filename) <==> InsideRootAsWritten(root, filename)
  {
  }

  /** An entry joined to a folder is inside it, the root folder included. */
  lemma ChildIsInsideRoot(root: Path, n: string)
    requires root != "" && IsName(n)
    ensures InsideRoot(root, Join(root, n))
  {
    var p := Join(root, n);
    if EndsWithSep(root) {
      assert p == root + n;
    } else {
      assert p == root + [Sep] + n;
      assert (root + [Sep] + n)[..|root| + 1] == root + [Sep];
    }
  }

  /** A sibling whose name merely starts with the folder's name is not
      inside it: the test is by whole path components. */
  lemma PrefixAloneIsNotInside(root: Path, s: string)
    requires !EndsWithSep(root) && s != "" && s[0] != Sep
    ensures !InsideRoot(root, root + s)
  {
    assert (root + s)[|root|] == s[0];
    assert |root + s| > |root|;
  }

  /** The file is inside one of the project folders, both sides taken
      through `canon` (`os.path.realpath` then `os.path.normcase`). */
  predicate InsideProject(canon: Path -> Path, folders: seq<Path>, filename: Path)
  {
    exists folder | folder in folders :: InsideRoot(canon(folder), canon(filename))
  }

  /** `_is_inside_project`: the loop over the project folders, with the
      separator appended only when missing (see `InsideRootAsWritten`). */
  method IsInsideProject(canon: Path -> Path, folders: seq<Path>, filename: Path) returns (r: bool)
    ensures r <==> InsideProject(canon, folders, filename)
  {
    var file := canon(filename);
    for i := 0 to |folders|
      invariant forall j | 0 <= j < i :: !InsideRoot(canon(folders[j]), file)
    {
      var folder := canon(folders[i]);
      if folder == file {
        return true;
      }
      folder := WithSep(folder);
      if folder <= file {
        return true;
      }
    }
    return false;
  }

  /** The directory `_open_new_window` passes along with the file: the
      package directory for an `__init__` script, else nothing. */
  function NewWindowDir(filename: Path): Path
  {
    if Stem(Basename(filename)) == "__init__" then Dirname(filename) else ""
  }

  /** A package's `__init__` script opens the package directory in the new
      window. */
  lemma InitScriptOpensItsPackage(d: Path, ext: string)
    requires IsCleanDir(d)
    requires |ext| > 0 && ext[0] == '.' && '.' !in ext[1..] && Sep !in ext
    ensures NewWindowDir(Join(d, "__init__" + ext)) == d
  {
    var n := "__init__" + ext;
    assert Sep !in n by {
      forall i | 0 <= i < |n| ensures n[i] != Sep {
        if i >= 8 { assert n[i] == ext[i - 8]; }
      }
    }
    BasenameOfJoin(d, n);
    InitStem(ext);
    DirnameOfJoin(d, n);
  }

  /** A standalone module, any script whose stem is not `__init__`, opens
      alone: no directory goes to the new window. */
  lemma ModuleScriptOpensAlone(d: Path, name: string, ext: string)
    requires IsCleanDir(d) && IsWord(name) && name != "__init__"
    requires |ext| > 0 && ext[0] == '.' && '.' !in ext[1..] && Sep !in ext
    ensures NewWindowDir(Join(d, name + ext)) == ""
  {
    var n := name + ext;
    var k := |name|;
    assert Sep !in n by {
      forall i | 0 <= i < |n| ensures n[i] != Sep {
        if i < k { assert n[i] == name[i]; } else { assert n[i] == ext[i - k]; }
      }
    }
    assert LastDot(n) == k by {
      assert n[k] == '.';
      forall j | k < j < |n| ensures n[j] != '.' {
        assert n[j] == ext[1..][j - k - 1];
      }
    }
    assert IsWordChar(name[0]);
    assert n[0] == name[0] && n[0] != '.';
    assert n[..k] == name;
    assert Stem(n) == name;
    BasenameOfJoin(d, n);
  }

  /** How a found module is opened. */
  datatype OpenAction =
    | NewWindow(dir: Path)   // a new editor window on `dir` (may be empty) and the file
    | Pinned                 // a regular tab, revealed in the side bar
    | Transient              // a preview tab

  /** What the command does with the typed text. */
  datatype Outcome =
    | InvalidPath(text: string)
    | NoAction
    | NotFound(shown: string)
    | Found(shown: string, filename: Path, action: OpenAction)

  /** What the command sees of the editor and the machine: the resolution
      host, the active view, the project folders and path canonicalisation,
      the `path` setting, the interpreter's answer and the editor's own
      `sys.path`, and the `python_extensions` setting when present. */
  datatype Env = Env(host: Host, view: ActiveView, folders: seq<Path>, canon: Path -> Path,
                     pathSettings: PathSettings, query: Query, fallback: seq<Path>,
                     pythonExtensions: Option<seq<string>>)

  /** The configured extensions, `.py` when the setting is missing. */
  function Extensions(env: Env): (r: seq<string>)
    ensures env.pythonExtensions.None? ==> r == [".py"]
    ensures env.pythonExtensions.Some? ==> r == env.pythonExtensions.value
  {
    env.pythonExtensions.GetOr([".py"])
  }

  /** The module file a parsed request names: relative resolution when
      there are dots, else absolute resolution on the full search path. */
  function Lookup(env: Env, p: Parsed, packages: seq<Path>): Option<Path>
  {
    if p.dots > 0 then ResolveRelative(env.host, Extensions(env), env.view, p.dots, p.path)
    else ResolveAbsolute(env.host, Extensions(env), Segments(p.path),
                         GetSysPath(env.pathSettings, env.query, env.fallback, packages))
  }

  /** `on_done`, as a specification. */
  function Dispatch(text: string, env: Env, packages: seq<Path>): (r: Outcome)
    ensures r.InvalidPath? <==> Parse(text).None?
    ensures r.NoAction? <==> Parse(text).Some? && Parse(text).value.dots == 0 && Parse(text).value.path == ""
    ensures r.Found? && r.action.NewWindow? ==> Parse(text).Some? && Parse(text).value.newWindow
    ensures Parse(text).Some? && !r.NoAction? ==>
      var p := Parse(text).value;
      && (r.Found? <==> Lookup(env, p, packages).Some?)
      && (r.Found? ==> Some(r.filename) == Lookup(env, p, packages) && r.shown == Dots(p.dots) + p.path)
      && (r.Found? && p.newWindow ==> r.action == NewWindow(NewWindowDir(r.filename)))
      && (r.Found? && !p.newWindow ==>
            (r.action == Pinned <==> InsideProject(env.canon, env.folders, r.filename)) &&
            (r.action == Transient <==> !InsideProject(env.canon, env.folders, r.filename)))
  {
    match Parse(text)
    case None => InvalidPath(text)
    case Some(p) =>
      if p.dots == 0 && p.path == "" then NoAction
      else
        var shown := Dots(p.dots) + p.path;
        match Lookup(env, p, packages)
        case None => NotFound(shown)
        case Some(f) =>
          Found(shown, f,
                if p.newWindow then NewWindow(NewWindowDir(f))
                else if InsideProject(env.canon, env.folders, f) then Pinned
                else Transient)
  }

  /** Dispatch on every well-formed request: a `+`, some dots and a dotted
      path, with any blanks around them. Dots mean relative resolution,
      no dots and a path mean absolute resolution on the full search path,
      neither means nothing happens; the module is reported as the dots and
      the path, and a `+` opens it in a new window. */
  lemma DispatchOfRequest(w1: string, plus: bool, w2: string, k: nat, path: string, w3: string,
                          env: Env, packages: seq<Path>)
    requires AllSpaces(w1) && AllSpaces(w2) && AllSpaces(w3) && IsDottedPath(path)
    ensures var o := Dispatch(Compose(w1, plus, w2, k, path, w3), env, packages);
      && (o.NoAction? <==> k == 0 && path == "")
      && (k > 0 ==> (o.Found? <==> ResolveRelative(env.host, Extensions(env), env.view, k, path).Some?))
      && (k == 0 && path != "" ==>
            (o.Found? <==> ResolveAbsolute(env.host, Extensions(env), Segments(path),
                             GetSysPath(env.pathSettings, env.query, env.fallback, packages)).Some?))
      && (o.NotFound? ==> o.shown == Dots(k) + path)
      && (o.Found? ==> o.shown == Dots(k) + path && (o.action.NewWindow? <==> plus))
      && (o.Found? ==> Some(o.filename) == Lookup(env, Parsed(plus, k, path), packages))
      && (o.Found? && plus ==> o.action == NewWindow(NewWindowDir(o.filename)))
      && (o.Found? && !plus ==> (o.action == Pinned <==> InsideProject(env.canon, env.folders, o.filename)))
  {
    ParseComplete(w1, plus, w2, k, path, w3);
  }

  /** Text outside the grammar is reported as invalid and nothing is
      resolved; text inside it is always taken apart as a request. */
  lemma InvalidIffNotARequest(text: string, env: Env, packages: seq<Path>)
    ensures Dispatch(text, env, packages).InvalidPath? <==>
      !exists w1, plus, w2, k, path, w3 | AllSpaces(w1) && AllSpaces(w2) && AllSpaces(w3) && IsDottedPath(path) ::
        text == Compose(w1, plus, w2, k, path, w3)
  {
    if w1, plus, w2, k, path, w3 :|
         AllSpaces(w1) && AllSpaces(w2) && AllSpaces(w3) && IsDottedPath(path) &&
         text == Compose(w1, plus, w2, k, path, w3) {
      ParseComplete(w1, plus, w2, k, path, w3);
    }
    ParseSound(text);
  }

  /** The command: the package list it keeps between invocations. */
  class PythonOpenModuleNewCommand {
    var projectPackages: ProjectPackagesManager

    constructor ()
      ensures fresh(projectPackages)
      ensures projectPackages.packages == [] && !projectPackages.running && projectPackages.lastRun == 0.0
    {
      projectPackages := new ProjectPackagesManager();
    }

    /** `run`: the package refresh; the input panel is not modelled. */
    method Run(now: real) returns (started: bool)
      modifies projectPackages
      ensures started <==> !old(projectPackages.running) && now - old(projectPackages.lastRun) >= RefreshInterval
      ensures started ==> projectPackages.running && projectPackages.lastRun == now
      ensures !started ==> projectPackages.running == old(projectPackages.running) &&
                           projectPackages.lastRun == old(projectPackages.lastRun)
      ensures projectPackages.packages == old(projectPackages.packages)
    {
      started := projectPackages.Refresh(now);
    }

    /** `on_done`: parse, resolve, and decide how to open the module. */
    method OnDone(text: string, env: Env) returns (o: Outcome)
      ensures o == Dispatch(text, env, projectPackages.packages)
    {
      var parsed := Parse(text);
      if parsed.None? {
        return InvalidPath(text);
      }
      var p := parsed.value;
      var filename: Option<Path>;
      if p.dots > 0 {
        filename := RelativeModuleFilename(env.host, Extensions(env), env.view, p.dots, p.path);
      } else if p.path != "" {
        var space := GetSysPath(env.pathSettings, env.query, env.fallback, projectPackages.packages);
        filename := AbsoluteModuleFilename(env.host, Extensions(env), p.path, space);
      } else {
        return NoAction;
      }
      var shown := Dots(p.dots) + p.path;
      if filename.None? {
        return NotFound(shown);
      }
      var f := filename.value;
      if p.newWindow {
        o := Found(shown, f, NewWindow(NewWindowDir(f)));
      } else {
        var inside := IsInsideProject(env.canon, env.folders, f);
        o := Found(shown, f, if inside then Pinned else Transient);
      }
    }
  }
}
