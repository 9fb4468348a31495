/**
 * POSIX path handling as the program uses it: `os.path.dirname`, `basename`, `splitext`
 * and `join` on strings, and `pathlib.Path` values (root plus names) with their
 * `parts`, `name`, `suffix`, `stem`, `parent` and `/` operator, following CPython 3.12.
 */
module Paths {

  // ---------------------------------------------------------------- characters

  predicate NoChar(s: string, c: char) {
    forall k :: 0 <= k < |s| ==> s[k] != c
  }

  /** `s.rfind(c)`: the last position holding `c`, or -1. */
  function LastIndexOf(s: string, c: char): (r: int)
    ensures -1 <= r < |s|
    ensures r >= 0 ==> s[r] == c
    ensures forall j :: r < j < |s| ==> s[j] != c
  {
    if s == [] then -1
    else if s[|s| - 1] == c then |s| - 1
    else LastIndexOf(s[..|s| - 1], c)
  }

  /** `s.find(c)`, with "not found" written as `|s|`. */
  function FirstIndexOf(s: string, c: char): (r: nat)
    ensures r <= |s|
    ensures r < |s| ==> s[r] == c
    ensures forall j :: 0 <= j < r ==> s[j] != c
  {
    if s == [] then 0
    else if s[0] == c then 0
    else 1 + FirstIndexOf(s[1..], c)
  }

  lemma NoCharAppend(a: string, b: string, c: char)
    requires NoChar(a, c) && NoChar(b, c)
    ensures NoChar(a + b, c)
  {
    forall k | 0 <= k < |a + b|
      ensures (a + b)[k] != c
    {
      if k < |a| {
        assert (a + b)[k] == a[k];
      } else {
        assert (a + b)[k] == b[k - |a|];
      }
    }
  }

  /** The last `c` is at `at` when `s[at]` is one and none follows. */
  lemma LastIndexAt(s: string, c: char, at: nat)
    requires at < |s| && s[at] == c
    requires forall k :: at < k < |s| ==> s[k] != c
    ensures LastIndexOf(s, c) == at
  {
  }

  /** The first `c` is at `at` when `s[at]` is one and none precedes it. */
  lemma FirstIndexAt(s: string, c: char, at: nat)
    requires at < |s| && s[at] == c
    requires forall k :: 0 <= k < at ==> s[k] != c
    ensures FirstIndexOf(s, c) == at
  {
  }

  /** `s.rstrip(c)` for one character. */
  function RStripChar(s: string, c: char): (r: string)
    ensures |r| <= |s| && r == s[..|r|]
    ensures r == [] || r[|r| - 1] != c
    ensures forall k :: |r| <= k < |s| ==> s[k] == c
  {
    if s == [] || s[|s| - 1] != c then s else RStripChar(s[..|s| - 1], c)
  }

  predicate AllChar(s: string, c: char) {
    forall k :: 0 <= k < |s| ==> s[k] == c
  }

  lemma RStripCharOne(d: string, c: char)
    requires d != [] && d[|d| - 1] != c
    ensures RStripChar(d + [c], c) == d
  {
    assert (d + [c])[..|d|] == d;
  }

  // ---------------------------------------------------------------- os.path

  /** `os.path.basename`: everything after the last '/'. */
  function Basename(p: string): (r: string)
    ensures |r| <= |p| && r == p[|p| - |r|..]
    ensures NoChar(r, '/')
    ensures |r| < |p| ==> p[|p| - |r| - 1] == '/'
  {
    var i := LastIndexOf(p, '/');
    assert |p[i + 1..]| == |p| - i - 1;
    p[i + 1..]
  }

  /**
   * `os.path.dirname`: everything up to the last '/', with trailing slashes removed
   * unless the head consists of slashes only.
   */
  function Dirname(p: string): (r: string)
    ensures |r| <= |p| && r == p[..|r|]
    ensures r == [] <==> NoChar(p, '/')
    ensures r == [] || AllChar(r, '/') || r[|r| - 1] != '/'
  {
    var head := p[..LastIndexOf(p, '/') + 1];
    if head != [] && !AllChar(head, '/') then RStripChar(head, '/') else head
  }

  /** `os.path.join(a, b)`: an absolute `b` replaces `a`; otherwise one '/' separates them. */
  function Join(a: string, b: string): string {
    if |b| > 0 && b[0] == '/' then b
    else if a == [] || a[|a| - 1] == '/' then a + b
    else a + "/" + b
  }

  predicate HasNonDot(p: string, lo: int, hi: int)
    requires 0 <= lo && hi <= |p|
  {
    exists k :: lo <= k < hi && p[k] != '.'
  }

  /**
   * `os.path.splitext`: the extension starts at the last '.' after the last '/', unless
   * only dots precede it in the final component (so ".bashrc" has no extension).
   */
  function Splitext(p: string): (r: (string, string))
    ensures r.0 + r.1 == p
    ensures r.1 == [] || (r.1[0] == '.' && NoChar(r.1[1..], '.') && NoChar(r.1, '/'))
  {
    var sepIndex := LastIndexOf(p, '/');
    var dotIndex := LastIndexOf(p, '.');
    if dotIndex > sepIndex && HasNonDot(p, sepIndex + 1, dotIndex) then
      assert forall k :: 0 <= k < |p[dotIndex..]| ==> p[dotIndex..][k] == p[dotIndex + k];
      (p[..dotIndex], p[dotIndex..])
    else
      (p, [])
  }

  /** In `d + sep + name`, the last '/' is the one just before `name`. */
  lemma LastSlashBeforeName(front: string, name: string)
    requires front != [] && front[|front| - 1] == '/' && NoChar(name, '/')
    ensures LastIndexOf(front + name, '/') == |front| - 1
  {
    var j := front + name;
    forall k | |front| - 1 < k < |j|
      ensures j[k] != '/'
    {
      assert j[k] == name[k - |front|];
    }
    LastIndexAt(j, '/', |front| - 1);
  }

  /** A name `Join` puts in directory `d` is that path's basename. */
  lemma BasenameOfJoin(d: string, name: string)
    requires name != [] && NoChar(name, '/')
    ensures Basename(Join(d, name)) == name
  {
    var j := Join(d, name);
    if d == [] {
      assert j == name;
    } else if d[|d| - 1] == '/' {
      assert j == d + name;
      LastSlashBeforeName(d, name);
    } else {
      assert j == (d + "/") + name;
      LastSlashBeforeName(d + "/", name);
    }
  }

  /** A file `Join` puts in the directory of `p` has the same directory as `p`. */
  lemma DirnameOfJoin(p: string, name: string)
    requires name != [] && NoChar(name, '/')
    ensures Dirname(Join(Dirname(p), name)) == Dirname(p)
  {
    var d := Dirname(p);
    var j := Join(d, name);
    if d == [] {
      assert j == name;
    } else if d[|d| - 1] == '/' {
      assert j == d + name;
      LastSlashBeforeName(d, name);
      assert j[..|d|] == d;
      assert AllChar(d, '/');
    } else {
      assert j == (d + "/") + name;
      LastSlashBeforeName(d + "/", name);
      assert j[..|d| + 1] == d + "/";
      assert (d + "/")[|d| - 1] == d[|d| - 1];
      RStripCharOne(d, '/');
    }
  }

  // ---------------------------------------------------------------- pathlib

  /** A `PurePosixPath`: its root ("", "/" or "//") and its names. */
  datatype PurePath = PurePath(root: string, names: seq<string>)

  predicate IsName(n: string) {
    n != [] && n != "." && NoChar(n, '/')
  }

  predicate Valid(p: PurePath) {
    (p.root == "" || p.root == "/" || p.root == "//") &&
    forall i :: 0 <= i < |p.names| ==> IsName(p.names[i])
  }

  /** `s.split('/')`. */
  function SplitSlash(s: string): (parts: seq<string>)
    ensures |parts| >= 1
    ensures forall i :: 0 <= i < |parts| ==> NoChar(parts[i], '/')
    decreases |s|
  {
    var i := FirstIndexOf(s, '/');
    if i == |s| then [s] else [s[..i]] + SplitSlash(s[i + 1..])
  }

  /** `'/'.join(names)`. */
  function JoinSlash(names: seq<string>): string
    decreases |names|
  {
    if names == [] then ""
    else if |names| == 1 then names[0]
    else names[0] + "/" + JoinSlash(names[1..])
  }

  /** The names `pathlib` keeps: empty components and "." are dropped. */
  function KeepNames(parts: seq<string>): (r: seq<string>)
    ensures |r| <= |parts|
    ensures forall i :: 0 <= i < |r| ==> r[i] != [] && r[i] != "."
    ensures (forall i :: 0 <= i < |parts| ==> NoChar(parts[i], '/')) ==>
              forall i :: 0 <= i < |r| ==> IsName(r[i])
  {
    if parts == [] then []
    else if parts[0] == "" || parts[0] == "." then KeepNames(parts[1..])
    else [parts[0]] + KeepNames(parts[1..])
  }

  /** `posixpath.splitroot`: exactly two leading slashes are a root of their own. */
  function SplitRoot(s: string): (r: (string, string))
    ensures r.0 + r.1 == s
    ensures r.0 == "" || r.0 == "/" || r.0 == "//"
  {
    if |s| == 0 || s[0] != '/' then ("", s)
    else if |s| < 2 || s[1] != '/' || (|s| >= 3 && s[2] == '/') then ("/", s[1..])
    else ("//", s[2..])
  }

  /** `Path(s)`. */
  function Parse(s: string): (p: PurePath)
    ensures Valid(p)
  {
    var (root, rest) := SplitRoot(s);
    PurePath(root, KeepNames(SplitSlash(rest)))
  }

  /** `str(path)`: the root, then the names joined by '/', or "." for the empty path. */
  function Str(p: PurePath): string {
    if p.root + JoinSlash(p.names) == "" then "." else p.root + JoinSlash(p.names)
  }

  /** `path.parts`. */
  function Parts(p: PurePath): seq<string> {
    if p.root != "" then [p.root] + p.names else p.names
  }

  /** `path.name`: the final name, "" when there is none. */
  function Name(p: PurePath): string {
    if p.names == [] then "" else p.names[|p.names| - 1]
  }

  /** `path.parent`: the path without its final name. */
  function Parent(p: PurePath): PurePath {
    if p.names == [] then p else PurePath(p.root, p.names[..|p.names| - 1])
  }

  /** `path / s`, computed as CPython does: join the two strings, then parse. */
  function Div(p: PurePath, s: string): PurePath {
    Parse(Join(Str(p), s))
  }

  /**
   * `stem` and `suffix` of a name: the suffix starts at the last '.', which must be
   * neither the first nor the last character of the name.
   */
  function SplitSuffix(name: string): (r: (string, string))
    ensures r.0 + r.1 == name
    ensures r.1 == [] || (|r.1| >= 2 && r.1[0] == '.' && NoChar(r.1[1..], '.') && r.0 != [])
  {
    var i := LastIndexOf(name, '.');
    if 0 < i < |name| - 1 then
      var tail := name[i + 1..];
      assert forall k :: 0 <= k < |tail| ==> tail[k] == name[i + 1 + k];
      assert name[i..][1..] == tail;
      (name[..i], name[i..])
    else
      (name, [])
  }

  function Suffix(p: PurePath): string {
    SplitSuffix(Name(p)).1
  }

  function Stem(p: PurePath): string {
    SplitSuffix(Name(p)).0
  }

  // ---------------------------------------------------------------- pathlib lemmas

  lemma SplitSlashOfName(n: string)
    requires NoChar(n, '/')
    ensures SplitSlash(n) == [n]
  {
    assert FirstIndexOf(n, '/') == |n|;
  }

  lemma SplitSlashCons(n: string, t: string)
    requires NoChar(n, '/')
    ensures SplitSlash(n + "/" + t) == [n] + SplitSlash(t)
  {
    var s := n + "/" + t;
    assert s[|n|] == '/';
    forall k | 0 <= k < |n|
      ensures s[k] != '/'
    {
      assert s[k] == n[k];
    }
    FirstIndexAt(s, '/', |n|);
    assert s[..|n|] == n;
    assert s[|n| + 1..] == t;
  }

  lemma {:induction false} SplitJoin(names: seq<string>)
    requires names != []
    requires forall i :: 0 <= i < |names| ==> NoChar(names[i], '/')
    ensures SplitSlash(JoinSlash(names)) == names
    decreases |names|
  {
    if |names| == 1 {
      SplitSlashOfName(names[0]);
    } else {
      SplitJoin(names[1..]);
      SplitSlashCons(names[0], JoinSlash(names[1..]));
      assert names == [names[0]] + names[1..];
    }
  }

  lemma {:induction false} JoinSnoc(names: seq<string>, n: string)
    requires names != []
    ensures JoinSlash(names + [n]) == JoinSlash(names) + "/" + n
    decreases |names|
  {
    if |names| == 1 {
      assert (names + [n])[1..] == [n];
    } else {
      assert (names + [n])[1..] == names[1..] + [n];
      JoinSnoc(names[1..], n);
    }
  }

  lemma {:induction false} JoinHead(names: seq<string>)
    requires names != [] && names[0] != []
    ensures JoinSlash(names) != [] && JoinSlash(names)[0] == names[0][0]
    decreases |names|
  {
  }

  lemma {:induction false} KeepValidNames(names: seq<string>)
    requires forall i :: 0 <= i < |names| ==> IsName(names[i])
    ensures KeepNames(names) == names
    decreases |names|
  {
    if names != [] {
      KeepValidNames(names[1..]);
      assert names == [names[0]] + names[1..];
    }
  }

  /** Printing a path and parsing the text gives the same path back. */
  lemma ParseStr(p: PurePath)
    requires Valid(p)
    ensures Parse(Str(p)) == p
  {
    var j := JoinSlash(p.names);
    if p.names == [] {
      assert j == "";
      if p.root == "" {
        assert Str(p) == ".";
        assert SplitSlash(".") == ["."] by { SplitSlashOfName("."); }
      } else {
        assert Str(p) == p.root;
        assert SplitRoot(p.root) == (p.root, "");
        assert SplitSlash("") == [""];
      }
    } else {
      assert IsName(p.names[0]);
      JoinHead(p.names);
      SplitJoin(p.names);
      KeepValidNames(p.names);
      assert Str(p) == p.root + j;
      assert SplitRoot(p.root + j) == (p.root, j) by {
        var s := p.root + j;
        if p.root == "/" {
          assert s[0] == '/' && s[1] == j[0];
        } else if p.root == "//" {
          assert s[0] == '/' && s[1] == '/' && s[2] == j[0];
          assert s[2..] == j;
        } else {
          assert s == j;
        }
      }
    }
  }

  /** `path / name` for a plain name appends it to the path's names. */
  lemma DivName(p: PurePath, n: string)
    requires Valid(p) && IsName(n)
    ensures Div(p, n) == PurePath(p.root, p.names + [n])
    ensures Name(Div(p, n)) == n && Parent(Div(p, n)) == p
  {
    if p.names == [] {
      if p.root == "" {
        DivNameOfDot(p, n);
      } else {
        DivNameOfRoot(p, n);
      }
    } else {
      DivNameOfNames(p, n);
    }
    assert (p.names + [n])[..|p.names|] == p.names;
  }

  lemma DivNameOfDot(p: PurePath, n: string)
    requires Valid(p) && IsName(n) && p.names == [] && p.root == ""
    ensures Div(p, n) == PurePath(p.root, p.names + [n])
  {
    assert Str(p) == ".";
    assert Join(".", n) == "." + "/" + n;
    SplitSlashCons(".", n);
    SplitSlashOfName(n);
    assert KeepNames([n]) == [n];
    assert SplitRoot("." + "/" + n) == ("", "." + "/" + n);
  }

  lemma DivNameOfRoot(p: PurePath, n: string)
    requires Valid(p) && IsName(n) && p.names == [] && p.root != ""
    ensures Div(p, n) == PurePath(p.root, p.names + [n])
  {
    var q := PurePath(p.root, [n]);
    assert Valid(q);
    assert Str(p) == p.root;
    assert Join(p.root, n) == p.root + n;
    assert Str(q) == p.root + n by {
      assert JoinSlash([n]) == n;
    }
    ParseStr(q);
  }

  lemma DivNameOfNames(p: PurePath, n: string)
    requires Valid(p) && IsName(n) && p.names != []
    ensures Div(p, n) == PurePath(p.root, p.names + [n])
  {
    var q := PurePath(p.root, p.names + [n]);
    assert Valid(q);
    JoinSnoc(p.names, n);
    assert IsName(p.names[0]);
    JoinHead(p.names);
    var s := Str(p);
    assert s == p.root + JoinSlash(p.names);
    JoinLast(p.names);
    assert s[|s| - 1] == JoinSlash(p.names)[|JoinSlash(p.names)| - 1];
    assert Join(s, n) == p.root + JoinSlash(p.names + [n]);
    assert Str(q) == p.root + JoinSlash(p.names + [n]);
    ParseStr(q);
  }

  lemma {:induction false} JoinLast(names: seq<string>)
    requires names != []
    requires forall i :: 0 <= i < |names| ==> IsName(names[i])
    ensures JoinSlash(names) != [] && JoinSlash(names)[|JoinSlash(names)| - 1] != '/'
    decreases |names|
  {
    assert IsName(names[0]);
    if |names| > 1 {
      assert IsName(names[1..][0]);
      JoinLast(names[1..]);
    }
  }

  /** The suffix of `stem + mid + suffix` is `suffix` when `mid` holds no '.'. */
  lemma SuffixOfStamped(stem: string, mid: string, suffix: string)
    requires stem != [] && NoChar(mid, '.')
    requires |suffix| >= 2 && suffix[0] == '.' && NoChar(suffix[1..], '.')
    ensures SplitSuffix(stem + mid + suffix) == (stem + mid, suffix)
  {
    var name := stem + mid + suffix;
    var at := |stem| + |mid|;
    assert name[at] == '.';
    forall k | at < k < |name|
      ensures name[k] != '.'
    {
      assert name[k] == suffix[1..][k - at - 1];
    }
    LastIndexAt(name, '.', at);
    assert name[..at] == stem + mid;
    assert name[at..] == suffix;
  }
}
