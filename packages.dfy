/** Discovery of the project's top-level Python packages and the
    rate-limited refresh that starts it (`ProjectPackagesManager`). The
    directory walk is `os.walk` top-down over the abstract filesystem, with
    the caller pruning the children it is about to visit. */
module ProjectPackages {
  import opened Paths
  import opened FileSystem
  import opened Glob

  /** What a scan is given: the editor's `folder_exclude_patterns` and the
      configured Python extensions. */
  datatype ScanConfig = ScanConfig(excludePatterns: seq<string>, extensions: seq<string>)

  /** The alternatives of the `__init__(...)` pattern: the extensions, or a
      single empty alternative when there are none (the pattern is then
      `__init__()`). */
  function Alternatives(exts: seq<string>): (r: seq<string>)
    ensures |r| > 0
    ensures exts != [] ==> r == exts
    ensures exts == [] ==> r == [""]
  {
    if exts == [] then [""] else exts
  }

  /** The `__init__` pattern matched at the start of a file name: the name
      begins with `__init__` and one of the extensions, and may go on. */
  predicate IsInitFileName(name: string, exts: seq<string>)
  {
    exists e | e in Alternatives(exts) :: "__init__" + e <= name
  }

  /** `is_package(filenames)`. */
  predicate IsPackage(filenames: seq<string>, exts: seq<string>)
  {
    exists f | f in filenames :: IsInitFileName(f, exts)
  }

  /** `is_ok(dirpath)`: the path matches no exclude pattern prefixed
      with a wildcard and a separator. */
  predicate IsOk(p: Path, excludePatterns: seq<string>)
  {
    forall pattern | pattern in excludePatterns :: !Excluded(p, pattern)
  }

  /** The directory's own files, as `os.walk` reports them. */
  function FileNames(fs: FS, d: Path): seq<string>
  {
    NonDirNames(fs, d, Listing(fs, d))
  }

  /** A directory the scan reports: it holds an `__init__` file. */
  predicate IsPackageHere(fs: FS, cfg: ScanConfig, d: Path)
  {
    IsPackage(FileNames(fs, d), cfg.extensions)
  }

  /** The child directory names of `d` that survive the exclusion filter,
      in listing order. */
  function KeepOk(d: Path, names: seq<string>, excludePatterns: seq<string>): (r: seq<string>)
    ensures forall n :: n in r <==> n in names && IsOk(Join(d, n), excludePatterns)
  {
    if names == [] then []
    else (if IsOk(Join(d, names[0]), excludePatterns) then [names[0]] else [])
         + KeepOk(d, names[1..], excludePatterns)
  }

  /** The children the walk descends into from a directory that is not a
      package. */
  function KeptDirNames(fs: FS, cfg: ScanConfig, d: Path): (r: seq<string>)
    requires WellFormed(fs)
    ensures forall n | n in r :: IsName(n)
    ensures forall n :: n in r <==>
      n in Listing(fs, d) && IsDir(fs, Join(d, n)) && IsOk(Join(d, n), cfg.excludePatterns)
  {
    KeepOk(d, SubdirNames(fs, d, Listing(fs, d)), cfg.excludePatterns)
  }

  /** The entries of the filesystem at least as long as `d`: the walk only
      goes to longer paths, so this shrinks on every step down. */
  function Deeper(fs: FS, d: Path): set<Path>
  {
    set p | p in fs && |p| >= |d|
  }

  lemma DeeperShrinks(fs: FS, d: Path, c: Path)
    requires d in fs && |c| > |d|
    ensures Deeper(fs, c) < Deeper(fs, d)
  {
    assert d in Deeper(fs, d) && d !in Deeper(fs, c);
  }

  lemma ChildDeeper(fs: FS, d: Path, n: string)
    requires IsDir(fs, d) && IsName(n)
    ensures Deeper(fs, Join(d, n)) < Deeper(fs, d)
  {
    DeeperShrinks(fs, d, Join(d, n));
  }

  /** The packages' parent directories that the walk from `d` reports. */
  function WalkFrom(fs: FS, cfg: ScanConfig, d: Path): set<Path>
    requires WellFormed(fs)
    decreases Deeper(fs, d), 1
  {
    if !IsDir(fs, d) then {}
    else if IsPackageHere(fs, cfg, d) then {Dirname(d)}
    else WalkChildren(fs, cfg, d, KeptDirNames(fs, cfg, d))
  }

  /** What the walks from the children `names` of `d` report. */
  function WalkChildren(fs: FS, cfg: ScanConfig, d: Path, names: seq<string>): set<Path>
    requires WellFormed(fs) && IsDir(fs, d)
    requires forall n | n in names :: IsName(n)
    decreases Deeper(fs, d), 0, |names|
  {
    if names == [] then {}
    else
      var n := names[|names| - 1];
      ChildDeeper(fs, d, n);
      WalkChildren(fs, cfg, d, names[..|names| - 1]) + WalkFrom(fs, cfg, Join(d, n))
  }

  /** The children's results are the union of the walks from each child. */
  lemma {:induction false} WalkChildrenIff(fs: FS, cfg: ScanConfig, d: Path, names: seq<string>, p: Path)
    requires WellFormed(fs) && IsDir(fs, d)
    requires forall n | n in names :: IsName(n)
    ensures p in WalkChildren(fs, cfg, d, names) <==>
      exists n | n in names :: p in WalkFrom(fs, cfg, Join(d, n))
  {
    if names != [] {
      var init := names[..|names| - 1];
      var last := names[|names| - 1];
      assert names == init + [last];
      assert WalkChildren(fs, cfg, d, names) == WalkChildren(fs, cfg, d, init) + WalkFrom(fs, cfg, Join(d, last));
      WalkChildrenIff(fs, cfg, d, init, p);
      if p in WalkChildren(fs, cfg, d, init) {
        var n :| n in init && p in WalkFrom(fs, cfg, Join(d, n));
        assert n in names;
      }
      if n :| n in names && p in WalkFrom(fs, cfg, Join(d, n)) {
        if n != last {
          assert n in init;
        }
      }
    }
  }

  /** Walking the first `i + 1` children is walking the first `i` and then
      child `i`. */
  lemma WalkChildrenStep(fs: FS, cfg: ScanConfig, d: Path, names: seq<string>, i: nat)
    requires WellFormed(fs) && IsDir(fs, d)
    requires forall n | n in names :: IsName(n)
    requires i < |names|
    ensures WalkChildren(fs, cfg, d, names[..i + 1]) ==
      WalkChildren(fs, cfg, d, names[..i]) + WalkFrom(fs, cfg, Join(d, names[i]))
  {
    assert names[..i + 1][..i] == names[..i] && names[..i + 1][i] == names[i];
  }

  /** The walk as a whole: `chain` runs from a directory the walk enters,
      through directories that are not packages, each one a kept child of
      the one before, to a package directory. */
  ghost predicate Leads(fs: FS, cfg: ScanConfig, chain: seq<Path>)
    requires WellFormed(fs)
    decreases |chain|
  {
    |chain| > 0 && IsDir(fs, chain[0]) &&
    if |chain| == 1 then IsPackageHere(fs, cfg, chain[0])
    else !IsPackageHere(fs, cfg, chain[0]) &&
         (exists n | n in KeptDirNames(fs, cfg, chain[0]) :: chain[1] == Join(chain[0], n)) &&
         Leads(fs, cfg, chain[1..])
  }

  /** A chain extended at its head by a non-package directory that keeps
      the chain's first directory as a child is again a chain. */
  lemma LeadsCons(fs: FS, cfg: ScanConfig, d: Path, n: string, c: seq<Path>)
    requires WellFormed(fs)
    ensures (IsDir(fs, d) && !IsPackageHere(fs, cfg, d) && n in KeptDirNames(fs, cfg, d) &&
             Leads(fs, cfg, c) && c[0] == Join(d, n)) ==> Leads(fs, cfg, [d] + c)
  {
    assert ([d] + c)[1..] == c;
  }

  /** Everything the walk reports is the parent of a package directory
      reached by such a chain; `chain` is one. */
  lemma {:induction false} WalkFromSound(fs: FS, cfg: ScanConfig, d: Path, p: Path) returns (chain: seq<Path>)
    requires WellFormed(fs)
    ensures p in WalkFrom(fs, cfg, d) ==>
      Leads(fs, cfg, chain) && chain[0] == d && p == Dirname(chain[|chain| - 1])
    decreases Deeper(fs, d)
  {
    chain := [d];
    if p in WalkFrom(fs, cfg, d) && !IsPackageHere(fs, cfg, d) {
      assert IsDir(fs, d);
      var kept := KeptDirNames(fs, cfg, d);
      WalkChildrenIff(fs, cfg, d, kept, p);
      var n :| n in kept && p in WalkFrom(fs, cfg, Join(d, n));
      ChildDeeper(fs, d, n);
      var c := WalkFromSound(fs, cfg, Join(d, n), p);
      LeadsCons(fs, cfg, d, n, c);
      chain := [d] + c;
      assert chain[|chain| - 1] == c[|c| - 1];
    }
  }

  /** Every package directory reached by such a chain has its parent
      reported. */
  lemma {:induction false} WalkFromComplete(fs: FS, cfg: ScanConfig, chain: seq<Path>)
    requires WellFormed(fs)
    ensures Leads(fs, cfg, chain) ==> Dirname(chain[|chain| - 1]) in WalkFrom(fs, cfg, chain[0])
    decreases |chain|
  {
    if Leads(fs, cfg, chain) && |chain| > 1 {
      var d := chain[0];
      var n :| n in KeptDirNames(fs, cfg, d) && chain[1] == Join(d, n);
      WalkFromComplete(fs, cfg, chain[1..]);
      WalkChildrenIff(fs, cfg, d, KeptDirNames(fs, cfg, d), Dirname(chain[|chain| - 1]));
    }
  }

  /** A package directory reports its parent and the walk stops there:
      nothing below it is looked at. */
  lemma PackageStopsDescent(fs: FS, cfg: ScanConfig, d: Path)
    requires WellFormed(fs) && IsDir(fs, d) && IsPackageHere(fs, cfg, d)
    ensures forall p :: p in WalkFrom(fs, cfg, d) <==> p == Dirname(d)
  {
  }

  /** A child directory whose name is a plain exclude pattern (such as
      `.git`) is never entered. */
  lemma ExcludedChildSkipped(fs: FS, cfg: ScanConfig, d: Path, pattern: string)
    requires WellFormed(fs) && d != ""
    requires pattern in cfg.excludePatterns && IsName(pattern) && IsLiteral(pattern)
    ensures pattern !in KeptDirNames(fs, cfg, d)
  {
    ExcludedByName(d, pattern, pattern);
  }

  /** The scan over all project folders, in order. */
  function Discovered(fs: FS, cfg: ScanConfig, roots: seq<Path>): set<Path>
    requires WellFormed(fs)
  {
    if roots == [] then {}
    else Discovered(fs, cfg, roots[..|roots| - 1]) + WalkFrom(fs, cfg, roots[|roots| - 1])
  }

  /** The scan reports exactly the parents of package directories reached
      from some project folder. */
  lemma {:induction false} DiscoveredIff(fs: FS, cfg: ScanConfig, roots: seq<Path>, p: Path)
    requires WellFormed(fs)
    ensures p in Discovered(fs, cfg, roots) <==>
      exists chain | Leads(fs, cfg, chain) :: chain[0] in roots && p == Dirname(chain[|chain| - 1])
  {
    if roots != [] {
      var init := roots[..|roots| - 1];
      var last := roots[|roots| - 1];
      DiscoveredIff(fs, cfg, init, p);
      assert roots == init + [last];
      if p in WalkFrom(fs, cfg, last) {
        var chain := WalkFromSound(fs, cfg, last, p);
        assert chain[0] in roots;
      }
      if chain :| Leads(fs, cfg, chain) && chain[0] in roots && p == Dirname(chain[|chain| - 1]) {
        if chain[0] == last {
          WalkFromComplete(fs, cfg, chain);
        }
      }
    }
  }

  /** One `os.walk` step at the directory `top` and the loop body that
      sees it: is `top` a package, and which children stay in `dirnames`
      after pruning. */
  method VisitStep(fs: FS, cfg: ScanConfig, top: Path) returns (isPackage: bool, dirnames: seq<string>)
    requires WellFormed(fs) && IsDir(fs, top)
    ensures isPackage == IsPackageHere(fs, cfg, top)
    ensures dirnames == if isPackage then [] else KeptDirNames(fs, cfg, top)
  {
    dirnames := SubdirNames(fs, top, fs[top].entries);
    var filenames := NonDirNames(fs, top, fs[top].entries);
    isPackage := IsPackage(filenames, cfg.extensions);
    if isPackage {
      dirnames := [];
    } else {
      dirnames := KeepOk(top, dirnames, cfg.excludePatterns);
    }
  }

  /** The walk from `top`, adding to `found` what it reports: the step at
      `top`, then the walks from the children it keeps. */
  method Walk(fs: FS, cfg: ScanConfig, top: Path, found: set<Path>) returns (r: set<Path>)
    requires WellFormed(fs)
    ensures r == found + WalkFrom(fs, cfg, top)
    decreases Deeper(fs, top), 1
  {
    if !IsDir(fs, top) {
      return found;
    }
    var isPackage, dirnames := VisitStep(fs, cfg, top);
    r := found;
    if isPackage {
      r := r + {Dirname(top)};
    }
    r := WalkDirNames(fs, cfg, top, dirnames, r);
  }

  /** The walks from the children `dirnames` of `top`, one after the
      other, each adding to what the ones before found. */
  method WalkDirNames(fs: FS, cfg: ScanConfig, top: Path, dirnames: seq<string>, found: set<Path>)
    returns (r: set<Path>)
    requires WellFormed(fs) && IsDir(fs, top)
    requires forall n | n in dirnames :: IsName(n)
    ensures r == found + WalkChildren(fs, cfg, top, dirnames)
    decreases Deeper(fs, top), 0
  {
    r := found;
    for i := 0 to |dirnames|
      invariant r == found + WalkChildren(fs, cfg, top, dirnames[..i])
    {
      WalkChildrenStep(fs, cfg, top, dirnames, i);
      ChildDeeper(fs, top, dirnames[i]);
      r := Walk(fs, cfg, Join(top, dirnames[i]), r);
    }
    assert dirnames[..|dirnames|] == dirnames;
  }

  /** The scan loop over the project folders. */
  method Scan(fs: FS, cfg: ScanConfig, roots: seq<Path>) returns (r: set<Path>)
    requires WellFormed(fs)
    ensures r == Discovered(fs, cfg, roots)
  {
    r := {};
    for i := 0 to |roots|
      invariant r == Discovered(fs, cfg, roots[..i])
    {
      assert roots[..i + 1][..i] == roots[..i];
      r := Walk(fs, cfg, roots[i], r);
    }
    assert roots[..|roots|] == roots;
  }

  /** `list(project_packages)`: every element once, in whatever order the
      set yields them. */
  method SetToList(s: set<Path>) returns (r: seq<Path>)
    ensures forall p :: p in r <==> p in s
    ensures |r| == |s|
  {
    r := [];
    var rest := s;
    while rest != {}
      invariant rest <= s
      invariant forall p :: p in r <==> p in s && p !in rest
      invariant |r| + |rest| == |s|
      decreases |rest|
    {
      var p :| p in rest;
      r := r + [p];
      rest := rest - {p};
    }
  }

  /** The minimum time between two scans, in seconds. */
  const RefreshInterval: real := 60.0

  /** The list of project package roots and the state of its refresh. */
  class ProjectPackagesManager {
    var packages: seq<Path>
    var running: bool
    var lastRun: real

    constructor ()
      ensures packages == [] && !running && lastRun == 0.0
    {
      packages := [];
      running := false;
      lastRun := 0.0;
    }

    /** `refresh`: starts a scan when none is running and the last one
        started at least a minute before `now`; the scan itself is
        `DiscoverProjectPackages`, run by the caller when `started`. */
    method Refresh(now: real) returns (started: bool)
      modifies this
      ensures started <==> !old(running) && now - old(lastRun) >= RefreshInterval
      ensures started ==> running && lastRun == now && packages == old(packages)
      ensures !started ==> running == old(running) && lastRun == old(lastRun) && packages == old(packages)
    {
      started := !running && now - lastRun >= RefreshInterval;
      if started {
        running := true;
        lastRun := now;
      }
    }

    /** `_discover_project_packages`: the scan result replaces the list,
        and the refresh may start again. */
    method DiscoverProjectPackages(fs: FS, cfg: ScanConfig, roots: seq<Path>)
      requires WellFormed(fs)
      modifies this
      ensures forall p :: p in packages <==> p in Discovered(fs, cfg, roots)
      ensures |packages| == |Discovered(fs, cfg, roots)|
      ensures !running && lastRun == old(lastRun)
    {
      var found := Scan(fs, cfg, roots);
      packages := SetToList(found);
      running := false;
    }
  }

  /** Two refreshes within a minute start at most one scan, even once the
      first scan is over. */
  method RefreshTwiceWithinAMinute(fs: FS, cfg: ScanConfig, roots: seq<Path>, t: real, dt: real)
    requires WellFormed(fs) && t >= 60.0 && 0.0 <= dt < 60.0
  {
    var m := new ProjectPackagesManager();
    var first := m.Refresh(t);
    assert first;
    m.DiscoverProjectPackages(fs, cfg, roots);
    var second := m.Refresh(t + dt);
    assert !second;
  }
}
