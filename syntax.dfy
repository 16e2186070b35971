/** The typed module path and its grammar: an optional `+` (open in a new
    window), leading dots (relative levels) and a dotted path of word
    segments, with whitespace allowed around the `+` and at both ends.
    `Parse` is a hand-written recogniser for the regular expression
      ^\s*(\+?)\s*(\.*)((?:\w+)?(?:\.\w+)*)\s*$
    and `ParseSound` / `ParseComplete` prove that it accepts exactly that
    language and returns its three groups. */
module ModulePathSyntax {
  import opened Wrappers

  /** `\s` of Python's `re` for byte strings: space, tab, newline,
      carriage return, vertical tab, form feed. */
  predicate IsSpace(c: char)
  {
    c == ' ' || c == '\t' || c == '\n' || c == '\r' || c == '\U{b}' || c == '\U{c}'
  }

  /** `\w` for byte strings: an ASCII letter, digit or underscore. */
  predicate IsWordChar(c: char)
  {
    'a' <= c <= 'z' || 'A' <= c <= 'Z' || '0' <= c <= '9' || c == '_'
  }

  predicate IsWord(w: string)
  {
    w != "" && forall i | 0 <= i < |w| :: IsWordChar(w[i])
  }

  predicate AllSpaces(s: string)
  {
    forall i | 0 <= i < |s| :: IsSpace(s[i])
  }

  function Dots(n: nat): (r: string)
    ensures |r| == n && forall i | 0 <= i < n :: r[i] == '.'
  {
    seq(n, _ => '.')
  }

  function LeadingSpaces(s: string): (n: nat)
    ensures n <= |s| && AllSpaces(s[..n])
    ensures n < |s| ==> !IsSpace(s[n])
  {
    if s != [] && IsSpace(s[0]) then 1 + LeadingSpaces(s[1..]) else 0
  }

  function TrailingSpaces(s: string): (n: nat)
    ensures n <= |s| && AllSpaces(s[|s| - n..])
    ensures n < |s| ==> !IsSpace(s[|s| - n - 1])
  {
    if s != [] && IsSpace(s[|s| - 1]) then 1 + TrailingSpaces(s[..|s| - 1]) else 0
  }

  function LeadingDots(s: string): (n: nat)
    ensures n <= |s| && s[..n] == Dots(n)
    ensures n < |s| ==> s[n] != '.'
  {
    if s != [] && s[0] == '.' then 1 + LeadingDots(s[1..]) else 0
  }

  /** Position of the first `c` in `s`. */
  function IndexOf(s: string, c: char): (i: nat)
    requires c in s
    ensures i < |s| && s[i] == c && c !in s[..i]
  {
    if s[0] == c then 0 else 1 + IndexOf(s[1..], c)
  }

  /** `s.split(sep)`: the pieces between separators, empty ones included. */
  function Split(s: string, sep: char): (parts: seq<string>)
    ensures |parts| >= 1
    ensures forall p | p in parts :: sep !in p
    decreases |s|
  {
    if sep in s then
      var i := IndexOf(s, sep);
      [s[..i]] + Split(s[i + 1..], sep)
    else [s]
  }

  /** `sep.join(parts)`. */
  function JoinWith(parts: seq<string>, sep: char): string
  {
    if parts == [] then ""
    else if |parts| == 1 then parts[0]
    else parts[0] + [sep] + JoinWith(parts[1..], sep)
  }

  /** Splitting and joining again gives back the string. */
  lemma {:induction false} JoinSplit(s: string, sep: char)
    ensures JoinWith(Split(s, sep), sep) == s
    decreases |s|
  {
    if sep in s {
      var i := IndexOf(s, sep);
      JoinSplit(s[i + 1..], sep);
      assert s == s[..i] + [sep] + s[i + 1..];
    }
  }

  /** The first separator of `u + [sep] + v` is the one after `u` when
      `u` has none. */
  lemma {:induction false} IndexOfAfter(u: string, sep: char, v: string)
    requires sep !in u
    ensures sep in u + [sep] + v && IndexOf(u + [sep] + v, sep) == |u|
  {
    var s := u + [sep] + v;
    assert s[|u|] == sep;
    if u != [] {
      assert s[1..] == u[1..] + [sep] + v;
      IndexOfAfter(u[1..], sep, v);
    }
  }

  /** Joining pieces free of the separator and splitting again gives back
      the pieces. */
  lemma {:induction false} SplitJoin(parts: seq<string>, sep: char)
    requires |parts| >= 1 && forall p | p in parts :: sep !in p
    ensures Split(JoinWith(parts, sep), sep) == parts
  {
    if |parts| > 1 {
      var head := parts[0];
      var tail := parts[1..];
      var rest := JoinWith(tail, sep);
      var s := JoinWith(parts, sep);
      assert s == head + [sep] + rest;
      assert forall p | p in tail :: sep !in p by {
        forall p | p in tail ensures sep !in p { assert p in parts; }
      }
      assert Split(rest, sep) == tail by { SplitJoin(tail, sep); }
      assert sep !in head by { assert head in parts; }
      IndexOfAfter(head, sep, rest);
      assert s[..|head|] == head && s[|head| + 1..] == rest;
      assert Split(s, sep) == [head] + Split(rest, sep);
      assert parts == [head] + tail;
    } else {
      assert parts[0] in parts;
    }
  }

  /** The third group of the grammar: empty, or word segments separated by
      single dots. */
  predicate IsDottedPath(path: string)
  {
    path == "" || forall p | p in Split(path, '.') :: IsWord(p)
  }

  /** The segments of a module path (`path.split('.') if path else []`). */
  function Segments(path: string): seq<string>
  {
    if path == "" then [] else Split(path, '.')
  }

  /** A word character is neither whitespace nor a dot. */
  lemma WordCharIsPlain(c: char)
    requires IsWordChar(c)
    ensures !IsSpace(c) && c != '.' && c != '+'
  {
  }

  /** A non-empty dotted path starts and ends with a word character. */
  lemma {:induction false} DottedPathEnds(path: string)
    requires path != "" && IsDottedPath(path)
    ensures IsWordChar(path[0]) && IsWordChar(path[|path| - 1])
    ensures !IsSpace(path[0]) && path[0] != '.' && path[0] != '+'
    ensures !IsSpace(path[|path| - 1])
    decreases |path|
  {
    DottedPathWordEnds(path);
    WordCharIsPlain(path[0]);
    WordCharIsPlain(path[|path| - 1]);
  }

  lemma {:induction false} DottedPathWordEnds(path: string)
    requires path != "" && IsDottedPath(path)
    ensures IsWordChar(path[0]) && IsWordChar(path[|path| - 1])
    decreases |path|
  {
    if '.' in path {
      var i := IndexOf(path, '.');
      var first := path[..i];
      var rest := path[i + 1..];
      assert Split(path, '.') == [first] + Split(rest, '.');
      assert IsWord(first);
      assert path[0] == first[0];
      assert Split(rest, '.')[0] in Split(path, '.');
      assert rest != "" by {
        assert IsWord(Split(rest, '.')[0]);
      }
      assert IsDottedPath(rest) by {
        forall p | p in Split(rest, '.') ensures IsWord(p) {
          assert p in Split(path, '.');
        }
      }
      DottedPathWordEnds(rest);
      assert path[|path| - 1] == rest[|rest| - 1];
    } else {
      assert Split(path, '.') == [path];
      assert path in Split(path, '.');
    }
  }

  /** The three groups of a successful match. */
  datatype Parsed = Parsed(newWindow: bool, dots: nat, path: string)

  /** `s` without its leading whitespace. */
  function TrimStart(s: string): (r: string)
    ensures r == [] || !IsSpace(r[0])
  {
    s[LeadingSpaces(s)..]
  }

  /** The part of the match that starts at the dots. */
  function ParseTail(plus: bool, c: string): Option<Parsed>
  {
    var k := LeadingDots(c);
    var d := c[k..];
    var body := d[..|d| - TrailingSpaces(d)];
    if IsDottedPath(body) then Some(Parsed(plus, k, body)) else None
  }

  /** The recogniser: skip whitespace, take an optional `+`, skip
      whitespace, count dots, and require the rest, less trailing
      whitespace, to be a dotted path. */
  function Parse(text: string): (r: Option<Parsed>)
    ensures r.Some? ==> IsDottedPath(r.value.path)
  {
    var a := TrimStart(text);
    var plus := a != [] && a[0] == '+';
    ParseTail(plus, TrimStart(if plus then a[1..] else a))
  }

  /** A string of the grammar, assembled from its parts. */
  function Compose(w1: string, plus: bool, w2: string, k: nat, path: string, w3: string): string
  {
    w1 + (if plus then "+" else "") + w2 + Dots(k) + path + w3
  }

  lemma {:induction false} LeadingSpacesAfter(w: string, x: string)
    requires AllSpaces(w)
    ensures LeadingSpaces(w + x) == |w| + LeadingSpaces(x)
  {
    if w != [] {
      assert (w + x)[1..] == w[1..] + x;
      LeadingSpacesAfter(w[1..], x);
    } else {
      assert w + x == x;
    }
  }

  lemma {:induction false} TrimStartAfter(w: string, x: string)
    requires AllSpaces(w)
    ensures TrimStart(w + x) == TrimStart(x)
  {
    LeadingSpacesAfter(w, x);
    assert (w + x)[|w|..] == x;
  }

  lemma {:induction false} TrimStartKeeps(x: string)
    requires x == [] || !IsSpace(x[0])
    ensures TrimStart(x) == x
  {
  }

  lemma {:induction false} TrailingSpacesBefore(x: string, w: string)
    requires AllSpaces(w)
    ensures TrailingSpaces(x + w) == TrailingSpaces(x) + |w|
  {
    if w != [] {
      assert (x + w)[..|x + w| - 1] == x + w[..|w| - 1];
      TrailingSpacesBefore(x, w[..|w| - 1]);
    } else {
      assert x + w == x;
    }
  }

  lemma {:induction false} LeadingDotsAfter(k: nat, x: string)
    ensures LeadingDots(Dots(k) + x) == k + LeadingDots(x)
  {
    if k > 0 {
      assert (Dots(k) + x)[1..] == Dots(k - 1) + x;
      LeadingDotsAfter(k - 1, x);
    } else {
      assert Dots(k) + x == x;
    }
  }

  lemma {:induction false} ParseTailComplete(plus: bool, k: nat, path: string, w3: string)
    requires AllSpaces(w3) && IsDottedPath(path) && (k > 0 || path != "")
    ensures ParseTail(plus, Dots(k) + path + w3) == Some(Parsed(plus, k, path))
  {
    var c := Dots(k) + path + w3;
    assert c == Dots(k) + (path + w3);
    LeadingDotsAfter(k, path + w3);
    if path != "" { DottedPathEnds(path); }
    assert LeadingDots(path + w3) == 0;
    assert c[k..] == path + w3;
    TrailingSpacesBefore(path, w3);
    assert TrailingSpaces(path) == 0;
    assert (path + w3)[..|path|] == path;
  }

  lemma {:induction false} ParseTailEmpty(plus: bool)
    ensures ParseTail(plus, "") == Some(Parsed(plus, 0, ""))
  {
  }

  /** Leading whitespace, the `+` and the whitespace after it are skipped;
      what follows is matched by `ParseTail`. */
  lemma {:induction false} ParseFrontComplete(w1: string, plus: bool, w2: string, x: string)
    requires AllSpaces(w1) && AllSpaces(w2) && (x == [] || (!IsSpace(x[0]) && x[0] != '+'))
    ensures Parse(w1 + (if plus then "+" else "") + w2 + x) == ParseTail(plus, x)
  {
    var text := w1 + (if plus then "+" else "") + w2 + x;
    assert TrimStart(x) == x by { TrimStartKeeps(x); }
    if plus {
      var y := "+" + (w2 + x);
      assert text == w1 + y by { Regroup(w1, "+", w2, x); }
      assert TrimStart(text) == y by { TrimStartAfter(w1, y); TrimStartKeeps(y); }
      assert y[1..] == w2 + x;
      assert TrimStart(w2 + x) == x by { TrimStartAfter(w2, x); }
    } else {
      assert text == (w1 + w2) + x;
      assert AllSpaces(w1 + w2);
      assert TrimStart(text) == x by { TrimStartAfter(w1 + w2, x); }
    }
  }

  /** Every string of the grammar is accepted, with its own groups. */
  lemma {:induction false} ParseComplete(w1: string, plus: bool, w2: string, k: nat, path: string, w3: string)
    requires AllSpaces(w1) && AllSpaces(w2) && AllSpaces(w3) && IsDottedPath(path)
    ensures Parse(Compose(w1, plus, w2, k, path, w3)) == Some(Parsed(plus, k, path))
  {
    var p := if plus then "+" else "";
    if k == 0 && path == "" {
      assert Compose(w1, plus, w2, k, path, w3) == w1 + p + (w2 + w3) + "";
      ParseFrontComplete(w1, plus, w2 + w3, "");
      ParseTailEmpty(plus);
    } else {
      var x := Dots(k) + path + w3;
      if k > 0 {
        assert x[0] == '.';
      } else {
        DottedPathEnds(path);
        assert x[0] == path[0];
      }
      assert Compose(w1, plus, w2, k, path, w3) == w1 + p + w2 + x;
      ParseFrontComplete(w1, plus, w2, x);
      ParseTailComplete(plus, k, path, w3);
    }
  }

  lemma {:induction false} ParseTailSound(plus: bool, c: string)
    requires ParseTail(plus, c).Some?
    ensures var p := ParseTail(plus, c).value;
      p.newWindow == plus &&
      exists w3 | AllSpaces(w3) :: c == Dots(p.dots) + p.path + w3
  {
    var p := ParseTail(plus, c).value;
    var d := c[p.dots..];
    var w3 := d[|d| - TrailingSpaces(d)..];
    assert d == p.path + w3;
    assert c == Dots(p.dots) + d;
  }

  /** A string is its leading whitespace followed by the rest. */
  lemma {:induction false} TrimStartSplit(text: string) returns (w: string, a: string)
    ensures AllSpaces(w) && text == w + a && a == TrimStart(text)
  {
    a := TrimStart(text);
    w := text[..LeadingSpaces(text)];
  }

  lemma {:induction false} PlusSplit(a: string, plus: bool)
    requires plus ==> a != [] && a[0] == '+'
    ensures a == (if plus then "+" else "") + (if plus then a[1..] else a)
  {
    if plus { assert a == [a[0]] + a[1..]; }
  }

  /** How `Parse` takes the front of a string apart. */
  lemma {:induction false} ParseFrontSound(text: string) returns (plus: bool, w1: string, w2: string, c: string)
    ensures AllSpaces(w1) && AllSpaces(w2)
    ensures text == w1 + (if plus then "+" else "") + w2 + c
    ensures Parse(text) == ParseTail(plus, c)
  {
    var a;
    w1, a := TrimStartSplit(text);
    plus := a != [] && a[0] == '+';
    var b := if plus then a[1..] else a;
    PlusSplit(a, plus);
    w2, c := TrimStartSplit(b);
    var p := if plus then "+" else "";
    assert text == w1 + (p + (w2 + c));
    Regroup(w1, p, w2, c);
  }

  lemma Regroup(a: string, b: string, c: string, d: string)
    ensures a + (b + (c + d)) == a + b + c + d
  {
  }

  lemma {:induction false} ComposeOf(w1: string, plus: bool, w2: string, c: string, k: nat, path: string, w3: string)
    requires c == Dots(k) + path + w3
    ensures w1 + (if plus then "+" else "") + w2 + c == Compose(w1, plus, w2, k, path, w3)
  {
  }

  /** Every accepted string is a string of the grammar, and the groups
      returned are the ones it was assembled from. */
  lemma {:induction false} ParseSound(text: string)
    ensures Parse(text).Some? ==>
      var p := Parse(text).value;
      exists w1, w2, w3 | AllSpaces(w1) && AllSpaces(w2) && AllSpaces(w3) ::
        text == Compose(w1, p.newWindow, w2, p.dots, p.path, w3)
  {
    if Parse(text).Some? {
      var p := Parse(text).value;
      var plus, w1, w2, c := ParseFrontSound(text);
      ParseTailSound(plus, c);
      var w3 :| AllSpaces(w3) && c == Dots(p.dots) + p.path + w3;
      ComposeOf(w1, plus, w2, c, p.dots, p.path, w3);
    }
  }
}
