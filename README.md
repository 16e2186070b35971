# Python Open Module (New) — a verified model of module lookup

This project models the core of the Sublime Text plugin command that opens
a Python module by its dotted name (`python_open_module_new.py`). It covers
the following:

* **Parsing the typed text.** An optional `+` asks for a new window.
  Leading dots make the path relative. Then comes a dotted path of word
  segments. Blanks are allowed only before the `+`, after the `+` and after
  the path. None are allowed between the dots and the path or around a
  segment's dot, so `. a` is invalid.
* **Dispatch.** Text with leading dots goes to relative resolution, even
  when no path follows the dots. Text with a path and no dots goes to
  absolute resolution. Text with neither does nothing.
* **The search path.** It is the `prepend` setting, then the `replace`
  setting or the interpreter's `sys.path`, then the `append` setting, then
  the project's packages. The interpreter also reports its imported package
  directories.
* **Absolute resolution.** The longest dotted prefix that is an imported
  package is shortcut to that package's directory. Each remaining segment is
  looked up with `imp.find_module` in the directory where the previous
  segment was found. A package directory found at the end becomes its
  `__init__` script, or stays the directory itself when no `__init__`
  script with a configured extension exists.
* **Relative resolution.** It starts from the active file, takes
  `dirname` once per dot, and runs absolute resolution from there with no
  imported modules. Dots alone give the climbed directory's `__init__`
  script, or the directory itself.
* **Opening the result.** The file opens in a new window when `+` was
  given; in a pinned tab when it lies inside a project folder; otherwise in
  a preview tab. A new window on an `__init__` script also opens the
  package directory.
* **The project-package manager.** It rescans at most once a minute. A scan
  walks each project folder top-down and records the parent of every
  directory that holds an `__init__` file. It does not descend into a
  package or into an excluded folder.

Modules:

| Module | File | Contents |
|---|---|---|
| `Wrappers` | `wrappers.dfy` | `Option` |
| `Paths` | `paths.dfy` | POSIX `os.path`: `join`, `dirname`, `basename`, `splitext` stem, repeated `dirname` |
| `FileSystem` | `filesystem.dfy` | the filesystem as a map from paths to files and directories; the `os.walk` split of a listing |
| `Glob` | `glob.dfy` | `fnmatch` with `*`, `?` and literal characters; the `*/name` exclusion patterns |
| `ModulePathSyntax` | `syntax.dfy` | the `on_done` grammar, its parser, and the dotted-path split and join |
| `SearchPath` | `searchpath.dfy` | `_get_sys_path` |
| `Resolver` | `resolver.dfy` | `imp.find_module`, `_get_python_script`, absolute and relative resolution |
| `ProjectPackages` | `packages.dfy` | the package walk and the `ProjectPackagesManager` class |
| `Command` | `command.dfy` | dispatch, the project-containment test, the new-window directory, and the command class |

Each looping algorithm of the code is given twice:

* a recursive specification function (`ResolveAbsolute`, `WalkFrom`,
  `Discovered`, `Dispatch`, …);
* a method that follows the code's loops and is proved equal to that
  function.

The other operations are functions only, each with lemmas stating what it
computes. These are `Parse`, `GetSysPath`, `PythonScript` and
`NewWindowDir`. The loop in `_get_python_script` is such a function: a
first-hit search over the extensions.

Lemmas state what the functions mean. Examples:

* which search-path entry wins;
* the chain of directories that leads to a discovered package;
* that the parser accepts exactly the grammar.

## Model

| member | source | states |
|---|---|---|
| `Paths.Join` | python_open_module_new.py:183 | `os.path.join`: an absolute second part replaces the first; otherwise the result starts with the first part and ends with the second |
| `Paths.Dirname` | python_open_module_new.py:231 | `os.path.dirname` is a prefix of its argument, and strictly shorter unless the path is all separators (the root is its own parent) |
| `Paths.Basename` | python_open_module_new.py:149 | `os.path.basename` is the separator-free tail of the path, and it is the whole path or follows a separator |
| `Paths.Ascend` | python_open_module_new.py:230-231 | repeated `dirname` is a prefix of the starting path |
| `Paths.AscendStopsAtRoot` | python_open_module_new.py:230-231 | climbing from the root stays at the root, however many dots are given |
| `Paths.DirnameOfJoin` | python_open_module_new.py:150 | the directory of an entry joined to a clean directory is that directory |
| `Paths.BasenameOfJoin` | python_open_module_new.py:149 | the base name of an entry joined to a clean directory is the entry |
| `Paths.InitStem` | python_open_module_new.py:149 | `splitext` of `__init__` plus a one-dot extension gives the stem `__init__` |
| `FileSystem.SubdirNames` | python_open_module_new.py:77 | the `dirnames` of an `os.walk` step are exactly the listed entries that are directories |
| `FileSystem.NonDirNames` | python_open_module_new.py:77 | the `filenames` of an `os.walk` step are exactly the other listed entries |
| `Glob.Match` | python_open_module_new.py:71 | `fnmatch` on `*`, `?` and literal characters; its meaning is stated by `Glob.LiteralMatch`, `Glob.StarMatch` and `Glob.ExcludedIffSuffix` |
| `Glob.LiteralMatch` | python_open_module_new.py:71 | an `fnmatch` pattern without wildcards matches only itself |
| `Glob.StarMatch` | python_open_module_new.py:71 | a leading `*` matches any prefix |
| `Glob.ExcludedIffSuffix` | python_open_module_new.py:66-71 | the pattern `*/name` matches a path exactly when the path ends with a separator and `name` |
| `Glob.ExcludedByName` | python_open_module_new.py:66-71 | a child `d/n` is excluded by `*/name` exactly when `n` is `name` |
| `ModulePathSyntax.Dots` | python_open_module_new.py:119 | the dots shown in the status message are that many `.` characters |
| `ModulePathSyntax.JoinSplit` | python_open_module_new.py:198-201 | joining the split of a string with the same separator gives the string back |
| `ModulePathSyntax.SplitJoin` | python_open_module_new.py:198-201 | splitting the join of separator-free parts gives the parts back |
| `ModulePathSyntax.DottedPathEnds` | python_open_module_new.py:109 | a non-empty dotted path starts and ends with a word character, so it cannot absorb the `+`, the dots or the blanks around it |
| `ModulePathSyntax.Parse` | python_open_module_new.py:107-118 | the path the parser returns is always a well-formed dotted path |
| `ModulePathSyntax.ParseComplete` | python_open_module_new.py:107-118 | every text of the form blanks, optional `+`, blanks, k dots, dotted path, blanks is accepted, with exactly those groups |
| `ModulePathSyntax.ParseSound` | python_open_module_new.py:107-118 | every accepted text has that form, with the groups the parser returned |
| `SearchPath.GetSysPath` | python_open_module_new.py:235-279 | the search path starts with `prepend` and ends with `append` followed by the project packages; a non-empty `replace` gives no imported modules, and otherwise an answered query supplies them |
| `SearchPath.AnsweredQueryIsUsed` | python_open_module_new.py:257-279 | without `replace`, the interpreter's answer is the base of the search path, between prepend and append, and its module map is the imported-module map |
| `SearchPath.BaseSpace` | python_open_module_new.py:254-270 | the middle of the search path: `replace`, else the interpreter's answer, else the editor's `sys.path`; stated by `SearchPath.ReplaceIgnoresQuery`, `SearchPath.AnsweredQueryIsUsed` and `SearchPath.FailedQueryFallsBack` |
| `SearchPath.ReplaceIgnoresQuery` | python_open_module_new.py:254-279 | with `replace` set, the interpreter's answer does not matter, and the path is prepend, replace, append and packages |
| `SearchPath.FailedQueryFallsBack` | python_open_module_new.py:257-279 | when the interpreter query fails, the editor's own `sys.path` is used and no imported modules are known |
| `Resolver.FirstModuleFile` | python_open_module_new.py:208-209 | the module file `imp.find_module` takes in one entry, suffixes tried in order; its meaning is stated by `Resolver.FirstModuleFileFirst` and `Resolver.FirstModuleFileNone` |
| `Resolver.FirstModuleFileFirst` | python_open_module_new.py:208-209 | a module file found is `name` plus the first suffix, in the suffix list's order, that gives a regular file |
| `Resolver.FirstModuleFileNone` | python_open_module_new.py:208-209 | no module file is found exactly when no suffix gives a regular file |
| `Resolver.FindInEntryFinds` | python_open_module_new.py:208-209 | in one search-path entry, a package directory wins over module files, and otherwise the first module file in suffix order is taken; nothing is found exactly when there is neither |
| `Resolver.FindModuleFirstMatch` | python_open_module_new.py:208-209 | `imp.find_module` answers from the first entry that holds the module; it fails exactly when no entry does |
| `Resolver.FindModule` | python_open_module_new.py:208-209 | `imp.find_module(name, dirs)`, with `None` for `ImportError`; its meaning is stated by `Resolver.FindModuleFirstMatch`, `Resolver.FindModuleAppend` and `Resolver.SearchOrder` |
| `Resolver.FindModuleAppend` | python_open_module_new.py:208-209 | on a concatenated search path the earlier part takes precedence |
| `Resolver.SearchOrder` | python_open_module_new.py:272-279 | a module is looked up in `prepend`, then in `replace` or `sys.path`, then in `append`, then in the project packages |
| `Resolver.PythonScript` | python_open_module_new.py:175-185 | `_get_python_script`; its meaning is stated by `Resolver.PythonScriptFirst` and `Resolver.PythonScriptNone` |
| `Resolver.PythonScriptFirst` | python_open_module_new.py:175-185 | a script found is the absolute path of the script name plus the first configured extension whose file exists |
| `Resolver.PythonScriptNone` | python_open_module_new.py:175-185 | no script is found exactly when no extension gives an existing file |
| `Resolver.PrefixSearch` | python_open_module_new.py:200-205 | the prefix count is the largest one, not above the bound, whose dotted prefix is an imported module |
| `Resolver.LongestImportedPrefix` | python_open_module_new.py:200-205 | the shortcut takes the longest dotted prefix that is an imported module, or none |
| `Resolver.LongestImportedPrefixUnique` | python_open_module_new.py:200-205 | any count with those two properties is the longest imported prefix |
| `Resolver.WalkSegmentsStep` | python_open_module_new.py:208-209 | one step of the walk: the next segment is found in the current search path and becomes the only directory searched |
| `Resolver.WalkSegmentsAppend` | python_open_module_new.py:208-209 | walking `xs + ys` walks `xs` and then walks `ys` from where `xs` ended |
| `Resolver.WalkFollowsSegments` | python_open_module_new.py:208-209 | a module found is reached from some search-path entry by one `find_module` step per segment |
| `Resolver.RelativeStartAsWritten` | python_open_module_new.py:224-231 | as written: no view gives no result, an unsaved view raises, and otherwise the start is the file climbed once per dot |
| `Resolver.UnsavedViewRaises` | python_open_module_new.py:228-231 | a view without a file name reaches `dirname(None)` and raises |
| `Resolver.FinishModule` | python_open_module_new.py:210-214 | the last step of absolute resolution: a directory becomes its `__init__` script when one exists and stays the directory otherwise, and a file stays as it is; `Resolver.AbsoluteModuleFilename` is proved to compute it |
| `Resolver.ResolveAbsolute` | python_open_module_new.py:187-216 | absolute resolution as a specification; its meaning is stated by `Resolver.LongestImportedPrefix`, `Resolver.WalkFollowsSegments`, `Resolver.SearchOrder` and `Resolver.AbsoluteModuleFilename` |
| `Resolver.ResolveRelative` | python_open_module_new.py:218-233 | relative resolution as a specification; its meaning is stated by `Resolver.RelativeModuleFilename` |
| `Resolver.ImportedStart` | python_open_module_new.py:198-205 | the prefix loop leaves the imported package's directory as the search path, or the original one, and drops the longest imported prefix from the segments |
| `Resolver.FindSegments` | python_open_module_new.py:207-216 | the `find_module` loop computes the walk; a failed lookup or an empty search path gives no module |
| `Resolver.AbsoluteModuleFilename` | python_open_module_new.py:187-216 | the method computes absolute resolution: the shortcut, the walk, and a package directory becoming its `__init__` script or staying as it is |
| `Resolver.RelativeModuleFilename` | python_open_module_new.py:218-233 | relative resolution: nothing without an active file; otherwise absolute resolution from the file's directory climbed once per dot; with no path, that directory's `__init__` script or the directory |
| `ProjectPackages.IsOk` | python_open_module_new.py:70-71 | `is_ok`: no exclusion pattern matches the path; stated by `ProjectPackages.KeepOk` and `ProjectPackages.ExcludedChildSkipped` |
| `ProjectPackages.IsPackage` | python_open_module_new.py:73-75 | `is_package`: some file name starts with `__init__` followed by one of the alternatives; used by `ProjectPackages.VisitStep` and stated by `ProjectPackages.PackageStopsDescent` |
| `ProjectPackages.WalkFrom` | python_open_module_new.py:77-83 | the walk from one folder as a specification; its meaning is stated by `ProjectPackages.WalkFromSound`, `ProjectPackages.WalkFromComplete` and `ProjectPackages.PackageStopsDescent` |
| `ProjectPackages.Discovered` | python_open_module_new.py:76-83 | the scan over all project folders as a specification; its meaning is stated by `ProjectPackages.DiscoveredIff` |
| `ProjectPackages.Alternatives` | python_open_module_new.py:67 | the regex alternatives are the extensions, or the empty alternative when there are none |
| `ProjectPackages.KeepOk` | python_open_module_new.py:70-83 | the kept names are exactly the listed ones whose joined path matches no exclusion pattern |
| `ProjectPackages.KeptDirNames` | python_open_module_new.py:77-83 | the directories descended into are exactly the listed subdirectories that are not excluded |
| `ProjectPackages.WalkChildrenIff` | python_open_module_new.py:77-83 | a package is found below a directory exactly when it is found below one of the kept subdirectories |
| `ProjectPackages.WalkFromSound` | python_open_module_new.py:76-83 | every discovered package comes from a chain of non-package, non-excluded directories ending in a directory with an `__init__` file; what is recorded is that directory's parent |
| `ProjectPackages.WalkFromComplete` | python_open_module_new.py:76-83 | every such chain leads to a discovered package |
| `ProjectPackages.PackageStopsDescent` | python_open_module_new.py:78-80 | a directory with an `__init__` file contributes exactly its parent and is not descended into |
| `ProjectPackages.ExcludedChildSkipped` | python_open_module_new.py:66-83 | a folder named by an exclusion pattern is never descended into |
| `ProjectPackages.DiscoveredIff` | python_open_module_new.py:76-83 | a path is discovered exactly when some such chain starts at a project folder and ends at a package whose parent is that path |
| `ProjectPackages.VisitStep` | python_open_module_new.py:73-83 | one `os.walk` step: the directory is a package exactly when a file name matches the `__init__` pattern; a package's subdirectories are pruned, and otherwise the kept ones remain |
| `ProjectPackages.Walk` | python_open_module_new.py:77-83 | the top-down walk from a folder adds exactly that folder's discoveries |
| `ProjectPackages.WalkDirNames` | python_open_module_new.py:77-83 | walking the remaining subdirectories adds exactly their discoveries |
| `ProjectPackages.Scan` | python_open_module_new.py:76-83 | the scan over all project folders computes the discovered set |
| `ProjectPackages.SetToList` | python_open_module_new.py:85 | `list(set)` has exactly the set's members, each once |
| `ProjectPackages.ProjectPackagesManager.constructor` | python_open_module_new.py:49-52 | a new manager knows no packages, is idle and last ran at time 0 |
| `ProjectPackages.ProjectPackagesManager.Refresh` | python_open_module_new.py:54-63 | a scan starts exactly when none is running and the last start is at least 60 seconds ago; starting marks it running at `now`; otherwise nothing changes |
| `ProjectPackages.ProjectPackagesManager.DiscoverProjectPackages` | python_open_module_new.py:65-86 | after a scan the package list holds exactly the discovered packages, each once, and the manager is idle |
| `Command.InsideRootAsWritten` | python_open_module_new.py:166-170 | the containment test as written, with the separator always appended; stated by `Command.RootFolderAsWritten` and `Command.InsideRootAgreesAwayFromRoot` |
| `Command.WithSep` | python_open_module_new.py:169 | the folder ends with a separator and still starts with the original folder |
| `Command.RootFolderAsWritten` | python_open_module_new.py:169-170 | as written, `/a` is not inside the project folder `/`; with the separator added only when missing, it is |
| `Command.InsideRootAgreesAwayFromRoot` | python_open_module_new.py:166-171 | for a folder that does not end with a separator, the corrected test agrees with the code |
| `Command.ChildIsInsideRoot` | python_open_module_new.py:166-171 | an entry of a folder is inside that folder, the root folder included |
| `Command.PrefixAloneIsNotInside` | python_open_module_new.py:169-170 | a sibling whose name only starts with the folder's name is not inside it |
| `Command.IsInsideProject` | python_open_module_new.py:162-173 | the loop answers true exactly when the canonical file equals, or lies below, one of the canonical project folders |
| `Command.NewWindowDir` | python_open_module_new.py:148-153 | the directory passed to the new window: the file's directory for an `__init__` script, else empty; stated by `Command.InitScriptOpensItsPackage` and `Command.ModuleScriptOpensAlone` |
| `Command.InitScriptOpensItsPackage` | python_open_module_new.py:148-153 | a new window on a package's `__init__` script is opened on the package directory |
| `Command.ModuleScriptOpensAlone` | python_open_module_new.py:148-153 | a new window on a standalone module, a script whose stem is not `__init__`, is given the empty directory, so only the file opens |
| `Command.Extensions` | python_open_module_new.py:182 | the configured `python_extensions` list when the setting is present; only `.py` without it |
| `Command.Dispatch` | python_open_module_new.py:106-139 | text outside the grammar is reported invalid; nothing happens exactly when there are neither dots nor a path; otherwise the module is found exactly when resolution finds it, the file shown is the one resolution returns, `+` opens a new window on `NewWindowDir` of it, and without `+` it is pinned exactly when it lies inside the project and a preview tab otherwise |
| `Command.DispatchOfRequest` | python_open_module_new.py:106-139 | for every well-formed request: dots mean relative resolution and a bare path absolute resolution; the module is reported as the dots and the path; the file opened is the one resolution returns; `+` opens a new window on `NewWindowDir` of it, and without `+` the tab is pinned exactly when the file lies inside the project |
| `Command.InvalidIffNotARequest` | python_open_module_new.py:107-114 | the text is reported invalid exactly when it is not of the request form |
| `Command.PythonOpenModuleNewCommand.constructor` | python_open_module_new.py:90-92 | a new command owns a fresh, idle package manager with no packages |
| `Command.PythonOpenModuleNewCommand.Run` | python_open_module_new.py:94-95 | `run` refreshes the package list under the once-a-minute rule: a started scan marks the manager running at `now`, otherwise the manager's state is unchanged; the list itself is not changed |
| `Command.PythonOpenModuleNewCommand.OnDone` | python_open_module_new.py:106-139 | `on_done` does what `Dispatch` specifies, using the packages the manager holds at that moment |

## Left out

* **The editor user interface.** This covers the input panel and its
  selection, syntax and colour scheme; status messages; `open_file`; and
  `reveal_in_side_bar`. They are represented by the `Outcome` and
  `OpenAction` values.
* **The interpreter subprocess in `_get_sys_path`.** It is an input: the
  `Query` value is either its answer or a failure. The editor's own
  `sys.path` is the `fallback` parameter.
* **The settings and preferences files.** They are inputs to the model:
  `PathSettings`, `python_extensions` and `folder_exclude_patterns`.
* **The background thread and the clock.** `Refresh` takes `now` as a
  parameter. The scan the thread performs is the separate method
  `DiscoverProjectPackages`, so the model has no concurrency between the
  scan and later commands.
* **Launching the editor in `_open_new_window`.** The Popen call, the
  `subl`/`sublime_text` choice and the `OSError` message are left out. Only
  the directory choice is modelled.
* **`debug`.** It writes a log file and nothing in the core calls it.
* **`os.path.realpath`, `os.path.normcase` and `os.path.normpath`.** They
  are function parameters (`canon`, `Host.normpath`), because they depend
  on symbolic links and on the platform. Paths are POSIX paths.
* **Symbolic links.** `os.walk` does not follow them and the filesystem
  model has none. Unreadable directories are also not modelled.
* **`imp.find_module` built-in, frozen and zip-archive modules.** Only
  package directories and files with one of the suffixes are modelled.
  The suffix list is a parameter. A directory is a package when it holds
  `__init__.py` or `__init__.pyc`; the `__init__.pyo` that an optimising
  interpreter accepts instead of `__init__.pyc` is not modelled.
* **`fnmatch` bracket classes `[...]`.** Only `*`, `?` and literal
  characters are modelled.
* **`__init__` pattern escaping.** Extensions are compared literally. Only
  `.` is escaped in the code, so other regex metacharacters in an extension
  behave differently there. With no extensions the pattern is `__init__()`,
  which the model keeps: any name starting with `__init__` matches.
* **`\w` and `\s`** are taken as in a non-Unicode pattern: ASCII letters,
  digits and underscore, and the six ASCII whitespace characters. Unicode
  letters and spaces that a Unicode pattern would accept are rejected.
* ProjectPackages.ProjectPackagesManager.DiscoverProjectPackages:
  states the members and the length of the package list but not its order,
  since the order of `list(set)` is unspecified.
* **Well-formed directory listings.** The scan requires every directory
  listing to hold proper names without separators, as `os.listdir`
  guarantees.
* **The other plugin files.** `python_path_to_file.py` and
  `module_finder.py` are not part of this model.
* **Climbing from the root.** The model follows the code: relative
  resolution runs absolute resolution from the climbed directory, and
  climbing above the root stays at the root.

## Findings

| source | as written | input that shows it | evidently intended | confidence | as-written member | corrected member |
|---|---|---|---|---|---|---|
| python_open_module_new.py:169-170 | a separator is always appended to the canonical project folder before the prefix test | project folder `/`, file `/a`: the folder becomes `//`, which is not a prefix of `/a`, so the file opens as a preview tab | append the separator only when the folder does not already end with one | high (not executed) | `Command.RootFolderAsWritten` (about `Command.InsideRootAsWritten`) | `Command.InsideRoot`, used by `Command.IsInsideProject`, with `Command.ChildIsInsideRoot` |
| python_open_module_new.py:228-231 | the active view's `file_name()` is passed to `path.dirname` even when it is `None` | a relative path such as `.mod` typed while the active view is unsaved: `dirname(None)` raises (an `AttributeError`; a `TypeError` from Python 3.6 on) and nothing is reported | report the module as not found | high (not executed) | `Resolver.UnsavedViewRaises` (about `Resolver.RelativeStartAsWritten`) | `Resolver.RelativeModuleFilename`, which yields no result there |
