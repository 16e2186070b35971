/** Composition of the search path (`_get_sys_path`): the configured
    `prepend` list, then either the configured `replace` list or the search
    path an external interpreter reports, then `append`, then the
    discovered project package roots. The interpreter query itself is not
    modelled: its answer (or its failure) is an input. */
module SearchPath {
  import opened Paths

  /** The `path` setting; a missing key reads as an empty list. */
  datatype PathSettings = PathSettings(prepend: seq<Path>, append: seq<Path>, replace: seq<Path>)

  /** The interpreter's answer: its `sys.path` and the map from loaded
      package names to their first `__path__` entry; or a failure (spawn
      error, output that does not evaluate to the two values). */
  datatype Query = QueryFailed | Answered(sysPath: seq<Path>, modules: map<string, Path>)

  /** The ordered directories to search and the imported-module map. */
  datatype SearchSpace = SearchSpace(dirs: seq<Path>, imported: map<string, Path>)

  /** The base of the search path, before prepend/append/packages: the
      `replace` list when it is non-empty (and then no module map), else
      the interpreter's answer, else the host's own `sys.path`. */
  function BaseSpace(s: PathSettings, q: Query, fallback: seq<Path>): SearchSpace
  {
    if s.replace != [] then SearchSpace(s.replace, map[])
    else match q
      case QueryFailed => SearchSpace(fallback, map[])
      case Answered(p, m) => SearchSpace(p, m)
  }

  /** `_get_sys_path()`. */
  function GetSysPath(s: PathSettings, q: Query, fallback: seq<Path>, packages: seq<Path>): (r: SearchSpace)
    ensures |r.dirs| >= |s.prepend| + |s.append| + |packages|
    ensures r.dirs[..|s.prepend|] == s.prepend
    ensures r.dirs[|r.dirs| - |packages| - |s.append|..|r.dirs| - |packages|] == s.append
    ensures r.dirs[|r.dirs| - |packages|..] == packages
    ensures s.replace != [] ==> r.imported == map[]
    ensures s.replace == [] && q.Answered? ==> r.imported == q.modules
  {
    var base := BaseSpace(s, q, fallback);
    SearchSpace(s.prepend + base.dirs + s.append + packages, base.imported)
  }

  /** With a non-empty `replace` list the interpreter is not consulted: its
      answer, and the host's fallback, make no difference. */
  lemma ReplaceIgnoresQuery(s: PathSettings, q1: Query, q2: Query, f1: seq<Path>, f2: seq<Path>, packages: seq<Path>)
    requires s.replace != []
    ensures GetSysPath(s, q1, f1, packages) == GetSysPath(s, q2, f2, packages)
    ensures GetSysPath(s, q1, f1, packages).dirs == s.prepend + s.replace + s.append + packages
  {
  }

  /** Without a `replace` list, the interpreter's answer is the base of
      the search path and supplies the imported-module map. */
  lemma AnsweredQueryIsUsed(s: PathSettings, sysPath: seq<Path>, modules: map<string, Path>,
                            fallback: seq<Path>, packages: seq<Path>)
    requires s.replace == []
    ensures GetSysPath(s, Answered(sysPath, modules), fallback, packages)
         == SearchSpace(s.prepend + sysPath + s.append + packages, modules)
  {
  }

  /** A failed query degrades to the host's own search path and an empty
      module map; it never surfaces as an error. */
  lemma FailedQueryFallsBack(s: PathSettings, fallback: seq<Path>, packages: seq<Path>)
    requires s.replace == []
    ensures GetSysPath(s, QueryFailed, fallback, packages)
         == SearchSpace(s.prepend + fallback + s.append + packages, map[])
  {
  }
}
