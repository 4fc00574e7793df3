/**
 * File paths as sequences of components, and Node's `path.join` over them.
 * `path.join(base, s)` splits `s` at '/', drops empty and "." components and appends
 * the rest to `base`.
 */
module Paths {

  type Path = seq<string>

  /** `s.split("/")`. */
  function Split(s: string): (r: seq<string>)
    ensures |r| >= 1
  {
    if s == [] then [""]
    else
      var rest := Split(s[1..]);
      if s[0] == '/' then [""] + rest else [[s[0]] + rest[0]] + rest[1..]
  }

  /** The components `path.join` keeps: neither empty nor ".". */
  function Keep(parts: seq<string>): seq<string> {
    if parts == [] then []
    else (if parts[0] == "" || parts[0] == "." then [] else [parts[0]]) + Keep(parts[1..])
  }

  /** The components that `s` contributes to a `path.join`. */
  function Segments(s: string): Path {
    Keep(Split(s))
  }

  /** `path.join(base, rel)`. */
  function Join(base: Path, rel: string): Path {
    base + Segments(rel)
  }

  /** `p` is `q` or an ancestor directory of `q`. */
  predicate IsPrefix(p: Path, q: Path) {
    |p| <= |q| && q[..|p|] == p
  }

  /** A name a directory entry can have. */
  predicate ValidName(s: string) {
    s != "" && s != "." && '/' !in s
  }

  /** Every component is an entry name: what `path.join` produces. */
  predicate ValidPath(p: Path) {
    forall i :: 0 <= i < |p| ==> ValidName(p[i])
  }

  lemma {:induction false} SplitPlain(s: string)
    requires '/' !in s
    ensures Split(s) == [s]
  {
    if s != [] {
      SplitPlain(s[1..]);
      assert s == [s[0]] + s[1..];
    }
  }

  lemma {:induction false} SplitAtSlash(a: string, b: string)
    ensures Split(a + "/" + b) == Split(a) + Split(b)
  {
    if a == [] {
      assert (a + "/" + b)[0] == '/';
      assert (a + "/" + b)[1..] == b;
    } else {
      assert (a + "/" + b)[0] == a[0];
      assert (a + "/" + b)[1..] == a[1..] + "/" + b;
      SplitAtSlash(a[1..], b);
    }
  }

  lemma {:induction false} KeepAppend(x: seq<string>, y: seq<string>)
    ensures Keep(x + y) == Keep(x) + Keep(y)
  {
    if x == [] {
      assert x + y == y;
    } else {
      assert (x + y)[0] == x[0];
      assert (x + y)[1..] == x[1..] + y;
      KeepAppend(x[1..], y);
    }
  }

  /** A '/' between two strings separates their components. */
  lemma SegmentsAtSlash(a: string, b: string)
    ensures Segments(a + "/" + b) == Segments(a) + Segments(b)
  {
    SplitAtSlash(a, b);
    KeepAppend(Split(a), Split(b));
  }

  /** A leading '/' contributes nothing to a `path.join`. */
  lemma SegmentsLeadingSlash(s: string)
    ensures Segments("/" + s) == Segments(s)
  {
    SegmentsAtSlash("", s);
    assert "" + "/" + s == "/" + s;
  }

  /** A single file or directory name is one component. */
  lemma SegmentsName(s: string)
    requires '/' !in s && s != "" && s != "."
    ensures Segments(s) == [s]
  {
    SplitPlain(s);
    assert [s][1..] == [];
    assert Keep([s]) == [s] + Keep([]);
  }

  /** `path.join(base, name)` for an entry name appends that one component. */
  lemma JoinName(base: Path, name: string)
    requires ValidName(name)
    ensures Join(base, name) == base + [name]
  {
    SegmentsName(name);
  }

  lemma {:induction false} KeepValid(parts: seq<string>)
    requires forall i :: 0 <= i < |parts| ==> '/' !in parts[i]
    ensures ValidPath(Keep(parts))
  {
    if parts != [] {
      KeepValid(parts[1..]);
    }
  }

  lemma {:induction false} SplitNoSlash(s: string)
    ensures forall i :: 0 <= i < |Split(s)| ==> '/' !in Split(s)[i]
  {
    if s != [] {
      SplitNoSlash(s[1..]);
      var rest := Split(s[1..]);
      if s[0] != '/' {
        assert forall c :: c in [s[0]] + rest[0] ==> c == s[0] || c in rest[0];
        assert Split(s)[1..] == rest[1..];
      }
    }
  }

  /** Joining a valid path with any string gives a valid path. */
  lemma JoinValid(base: Path, rel: string)
    requires ValidPath(base)
    ensures ValidPath(Join(base, rel))
  {
    SplitNoSlash(rel);
    KeepValid(Split(rel));
    var r := Join(base, rel);
    assert forall i :: |base| <= i < |r| ==> r[i] == Segments(rel)[i - |base|];
  }

  /** `path.join(base, "a/b")` for two entry names. */
  lemma JoinTwo(base: Path, a: string, b: string)
    requires ValidName(a) && ValidName(b)
    ensures Join(base, a + "/" + b) == base + [a, b]
  {
    SegmentsAtSlash(a, b);
    SegmentsName(a);
    SegmentsName(b);
  }

  /** `path.join(base, "/a/b/c")`: an empty middle component is dropped. */
  lemma JoinRooted(base: Path, a: string, b: string, c: string)
    requires ValidName(a) && ValidName(c) && '/' !in b && b != "."
    ensures Join(base, "/" + a + "/" + b + "/" + c) == base + [a] + (if b == "" then [] else [b]) + [c]
  {
    var s := a + "/" + (b + "/" + c);
    assert "/" + a + "/" + b + "/" + c == "/" + s;
    var mid := if b == "" then [] else [b];
    calc {
      Segments("/" + s);
    == { SegmentsLeadingSlash(s); }
      Segments(s);
    == { SegmentsAtSlash(a, b + "/" + c); SegmentsName(a); }
      [a] + Segments(b + "/" + c);
    == { SegmentsAtSlash(b, c); SegmentsName(c); if b != "" { SegmentsName(b); } }
      [a] + mid + [c];
    }
  }
}
