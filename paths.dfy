/** POSIX path strings and the handful of `os.path` operations the command
    uses: `join`, `dirname`, `basename` and `splitext`, written out as
    CPython's `posixpath` and `genericpath` define them. */
module Paths {

  type Path = string

  const Sep: char := '/'

  predicate IsAbs(p: Path) { |p| > 0 && p[0] == Sep }

  predicate EndsWithSep(p: Path) { |p| > 0 && p[|p| - 1] == Sep }

  predicate AllSeps(p: Path) { forall i | 0 <= i < |p| :: p[i] == Sep }

  /** A directory entry name as `os.listdir` reports it. */
  predicate IsName(n: string) { n != "" && Sep !in n }

  /** `os.path.join(a, b)`: an absolute `b` replaces `a`; otherwise a
      separator is inserted unless `a` is empty or already ends with one. */
  function Join(a: Path, b: string): (r: Path)
    ensures IsAbs(b) ==> r == b
    ensures !IsAbs(b) ==> a <= r && |b| <= |r| && r[|r| - |b|..] == b
    ensures !IsAbs(b) && b != "" ==> |r| > |a|
  {
    if IsAbs(b) then b
    else if a == "" || EndsWithSep(a) then a + b
    else a + [Sep] + b
  }

  /** Index of the last separator in `p`, or -1. */
  function LastSep(p: Path): (i: int)
    ensures -1 <= i < |p|
    ensures i >= 0 ==> p[i] == Sep
    ensures forall j | i < j < |p| :: p[j] != Sep
  {
    if p == [] then -1
    else if p[|p| - 1] == Sep then |p| - 1
    else LastSep(p[..|p| - 1])
  }

  /** `s.rstrip('/')`. */
  function RStripSeps(p: Path): (r: Path)
    ensures r <= p
    ensures r == "" || !EndsWithSep(r)
    ensures AllSeps(p[|r|..])
  {
    if EndsWithSep(p) then RStripSeps(p[..|p| - 1]) else p
  }

  /** `os.path.dirname(p)`: everything up to the last separator, with
      trailing separators removed unless nothing else is left. */
  function Dirname(p: Path): (r: Path)
    ensures r <= p
    ensures AllSeps(p) ==> r == p
    ensures !AllSeps(p) ==> |r| < |p|
  {
    var head := p[..LastSep(p) + 1];
    if head != "" && !AllSeps(head) then RStripSeps(head) else head
  }

  /** `os.path.basename(p)`: everything after the last separator. */
  function Basename(p: Path): (r: string)
    ensures Sep !in r
    ensures |r| <= |p| && p[|p| - |r|..] == r
    ensures |r| == |p| || p[|p| - |r| - 1] == Sep
  {
    p[LastSep(p) + 1..]
  }

  /** Index of the last '.' in `s`, or -1. */
  function LastDot(s: string): (i: int)
    ensures -1 <= i < |s|
    ensures i >= 0 ==> s[i] == '.'
    ensures forall j | i < j < |s| :: s[j] != '.'
  {
    if s == [] then -1
    else if s[|s| - 1] == '.' then |s| - 1
    else LastDot(s[..|s| - 1])
  }

  /** `os.path.splitext(name)[0]` for a name without separators: the text
      before the last dot, unless that dot is preceded only by dots. */
  function Stem(name: string): string
  {
    var dot := LastDot(name);
    if dot >= 0 && exists i | 0 <= i < dot :: name[i] != '.' then name[..dot] else name
  }

  /** Ascending with `dirname`, the loop step of relative resolution:
      `Ascend(p, n)` applies `Dirname` `n` times. */
  function Ascend(p: Path, n: nat): (r: Path)
    ensures r <= p
  {
    if n == 0 then p else Dirname(Ascend(p, n - 1))
  }

  /** A directory written without a trailing separator, or the root. */
  predicate IsCleanDir(d: Path)
  {
    d == [Sep] || (d != "" && !EndsWithSep(d))
  }

  /** The parent of a freshly joined entry is the directory it was joined to. */
  lemma DirnameOfJoin(d: Path, n: string)
    requires IsCleanDir(d) && IsName(n)
    ensures Dirname(Join(d, n)) == d
  {
    var p := Join(d, n);
    if d == [Sep] {
      assert p == [Sep] + n;
      assert LastSep(p) == 0;
      assert p[..1] == [Sep];
    } else {
      assert p == d + [Sep] + n;
      assert p[|d|] == Sep;
      assert forall j | |d| < j < |p| :: p[j] == n[j - |d| - 1];
      assert LastSep(p) == |d|;
      var head := p[..|d| + 1];
      assert head == d + [Sep];
      assert !AllSeps(head) by { assert head[|d| - 1] != Sep; }
      assert RStripSeps(head) == RStripSeps(d);
    }
  }

  /** The last name of a freshly joined entry is the entry's name. */
  lemma BasenameOfJoin(d: Path, n: string)
    requires IsCleanDir(d) && IsName(n)
    ensures Basename(Join(d, n)) == n
  {
    var p := Join(d, n);
    var k := if d == [Sep] then 0 else |d|;
    assert p == p[..k] + [Sep] + n;
    assert p[k] == Sep;
    assert forall j | k < j < |p| :: p[j] == n[j - k - 1];
    assert LastSep(p) == k;
    assert p[k + 1..] == n;
  }

  /** Once at a root (all separators), ascending stays there: leading dots
      beyond the root do not fail, they stop at the root. */
  lemma {:induction false} AscendStopsAtRoot(p: Path, n: nat)
    requires p != "" && AllSeps(p)
    ensures Ascend(p, n) == p
  {
    if n > 0 {
      AscendStopsAtRoot(p, n - 1);
    }
  }

  /** The stem of `__init__` followed by an extension such as ".py" is
      `__init__`. */
  lemma InitStem(ext: string)
    requires |ext| > 0 && ext[0] == '.' && '.' !in ext[1..]
    ensures Stem("__init__" + ext) == "__init__"
  {
    var name := "__init__" + ext;
    assert LastDot(name) == 8 by {
      assert name[8] == '.';
      forall j | 8 < j < |name| ensures name[j] != '.' {
        assert name[j] == ext[1..][j - 9];
      }
    }
    assert name[0] != '.';
    assert name[..8] == "__init__";
  }
}
