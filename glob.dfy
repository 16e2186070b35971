/** Shell-style pattern matching as `fnmatch.fnmatch` does it on POSIX
    (where `normcase` is the identity), for the wildcards `*` and `?`. */
module Glob {
  import opened Paths

  /** `fnmatch(s, pat)`: `*` matches any run of characters (separators
      included), `?` any one character, everything else itself. */
  function Match(s: string, pat: string): bool
    decreases |pat|, |s|
  {
    if pat == [] then s == []
    else if pat[0] == '*' then Match(s, pat[1..]) || (s != [] && Match(s[1..], pat))
    else s != [] && (pat[0] == '?' || pat[0] == s[0]) && Match(s[1..], pat[1..])
  }

  predicate IsLiteral(pat: string) { '*' !in pat && '?' !in pat && '[' !in pat }

  /** A pattern without wildcards matches exactly itself. */
  lemma {:induction false} LiteralMatch(s: string, pat: string)
    requires IsLiteral(pat)
    ensures Match(s, pat) <==> s == pat
  {
    if pat != [] && s != [] {
      LiteralMatch(s[1..], pat[1..]);
      if s == pat {
        assert s[1..] == pat[1..];
      } else if s[0] == pat[0] {
        assert s == [s[0]] + s[1..] && pat == [pat[0]] + pat[1..];
      }
    }
  }

  /** A leading `*` matches when some suffix matches the rest. */
  lemma {:induction false} StarMatch(s: string, pat: string)
    ensures Match(s, "*" + pat) <==> exists k | 0 <= k <= |s| :: Match(s[k..], pat)
  {
    assert ("*" + pat)[1..] == pat;
    assert s[0..] == s;
    if s != [] {
      StarMatch(s[1..], pat);
      forall k | 0 <= k <= |s| - 1 ensures s[1..][k..] == s[k + 1..] { }
      if Match(s, "*" + pat) && !Match(s, pat) {
        var k :| 0 <= k <= |s[1..]| && Match(s[1..][k..], pat);
        assert Match(s[k + 1..], pat);
      }
      if k :| 1 <= k <= |s| && Match(s[k..], pat) {
        assert Match(s[1..][k - 1..], pat);
        assert Match(s[1..], "*" + pat);
      }
    }
  }

  /** The scanner's exclusion test for one configured pattern:
      `fnmatch(p, os.path.join('*', pattern))`. */
  predicate Excluded(p: Path, pattern: string)
  {
    Match(p, Join("*", pattern))
  }

  /** Two ways of writing a path as something, a separator and a name agree
      on the name. */
  lemma LastNameUnique(a: string, n: string, b: string, m: string)
    requires Sep !in n && Sep !in m
    requires a + [Sep] + n == b + [Sep] + m
    ensures n == m
  {
    var s := a + [Sep] + n;
    assert s[|a|] == Sep && s[|b|] == Sep;
    assert forall j | |a| < j < |s| :: s[j] == n[j - |a| - 1];
    assert forall j | |b| < j < |s| :: s[j] == m[j - |b| - 1];
    assert |a| == |b|;
    assert n == s[|a| + 1..] == m;
  }

  /** The exclusion test holds exactly when the path ends with a separator
      followed by the (plain) pattern. */
  lemma ExcludedIffSuffix(s: Path, pattern: string)
    requires IsName(pattern) && IsLiteral(pattern)
    ensures Excluded(s, pattern) <==> exists k | 0 <= k <= |s| :: s[k..] == [Sep] + pattern
  {
    var tail := [Sep] + pattern;
    assert Join("*", pattern) == "*" + tail;
    StarMatch(s, tail);
    forall k | 0 <= k <= |s| ensures Match(s[k..], tail) <==> s[k..] == tail {
      LiteralMatch(s[k..], tail);
    }
  }

  /** A joined child path is its parent (minus one trailing separator),
      a separator and the child's name. */
  lemma JoinShape(d: Path, n: string)
    requires d != "" && IsName(n)
    ensures Join(d, n) == (if EndsWithSep(d) then d[..|d| - 1] else d) + [Sep] + n
  {
    if EndsWithSep(d) {
      assert d == d[..|d| - 1] + [Sep];
    }
  }

  /** A path whose last name is `n` ends with a separator and a name `m`
      only when `m` is `n`. */
  lemma SuffixIsLastName(pre: Path, n: string, pattern: string)
    requires Sep !in n && IsName(pattern)
    ensures (exists k | 0 <= k <= |pre + [Sep] + n| :: (pre + [Sep] + n)[k..] == [Sep] + pattern)
            <==> n == pattern
  {
    var s := pre + [Sep] + n;
    if k :| 0 <= k <= |s| && s[k..] == [Sep] + pattern {
      assert s == s[..k] + [Sep] + pattern by {
        assert s == s[..k] + s[k..];
      }
      LastNameUnique(pre, n, s[..k], pattern);
    }
    if n == pattern {
      assert s[|pre|..] == [Sep] + pattern;
    }
  }

  /** For a plain pattern such as ".git", a child directory is excluded
      exactly when its own name is the pattern, wherever it sits in the
      tree. */
  lemma ExcludedByName(d: Path, n: string, pattern: string)
    requires d != "" && IsName(n) && IsName(pattern) && IsLiteral(pattern)
    ensures Excluded(Join(d, n), pattern) <==> n == pattern
  {
    var pre := if EndsWithSep(d) then d[..|d| - 1] else d;
    JoinShape(d, n);
    ExcludedIffSuffix(Join(d, n), pattern);
    SuffixIsLastName(pre, n, pattern);
  }
}
