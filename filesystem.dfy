/** The abstract filesystem the resolver and the scanner look at: a map from
    path strings to files and directories. A directory carries its listing,
    which is what `os.listdir` reports; `os.path.isdir`, `isfile` and
    `exists` are lookups in the map. */
module FileSystem {
  import opened Paths

  datatype Node = File | Dir(entries: seq<string>)

  type FS = map<Path, Node>

  predicate IsFile(fs: FS, p: Path) { p in fs && fs[p].File? }

  predicate IsDir(fs: FS, p: Path) { p in fs && fs[p].Dir? }

  predicate Exists(fs: FS, p: Path) { p in fs }

  /** Every listed entry is a proper name (non-empty, no separator), as
      `os.listdir` guarantees. */
  predicate WellFormed(fs: FS)
  {
    forall d | d in fs && fs[d].Dir? :: forall n | n in fs[d].entries :: IsName(n)
  }

  /** The listing of `d`; `os.walk` skips a top that cannot be listed. */
  function Listing(fs: FS, d: Path): seq<string>
  {
    if IsDir(fs, d) then fs[d].entries else []
  }

  /** The `dirnames` half of an `os.walk` step: listed entries that are
      directories, in listing order. */
  function SubdirNames(fs: FS, d: Path, names: seq<string>): (r: seq<string>)
    ensures forall n :: n in r <==> n in names && IsDir(fs, Join(d, n))
  {
    if names == [] then []
    else (if IsDir(fs, Join(d, names[0])) then [names[0]] else [])
         + SubdirNames(fs, d, names[1..])
  }

  /** The `filenames` half of an `os.walk` step: every other listed entry. */
  function NonDirNames(fs: FS, d: Path, names: seq<string>): (r: seq<string>)
    ensures forall n :: n in r <==> n in names && !IsDir(fs, Join(d, n))
  {
    if names == [] then []
    else (if IsDir(fs, Join(d, names[0])) then [] else [names[0]])
         + NonDirNames(fs, d, names[1..])
  }
}
