/** The helpers of src/core/utils.ts: `slugify`, `walk` and `copyDir`. */
module Utils {
  import opened Wrappers
  import opened Text
  import opened Paths
  import opened Store

  // ---------------------------------------------------------------------------------
  // slugify(name) = name.toLowerCase().replace(/[^a-z0-9]+/g, "-").replace(/(^-|-$)/g, "")

  predicate IsSlugChar(c: char) {
    'a' <= c <= 'z' || '0' <= c <= '9'
  }

  /** Drops the run of characters outside [a-z0-9] at the front of `s`. */
  function DropRun(s: string): (r: string)
    ensures |r| <= |s| && r == s[|s| - |r|..]
    ensures forall k :: 0 <= k < |s| - |r| ==> !IsSlugChar(s[k])
    ensures r == [] || IsSlugChar(r[0])
  {
    if s != [] && !IsSlugChar(s[0]) then
      var r := DropRun(s[1..]);
      assert s[1..][|s| - 1 - |r|..] == s[|s| - |r|..];
      assert forall k :: 1 <= k < |s| - |r| ==> s[k] == s[1..][k - 1];
      r
    else s
  }

  /** Only slug characters and '-'. */
  predicate SlugAlphabet(s: string) {
    forall k :: 0 <= k < |s| ==> IsSlugChar(s[k]) || s[k] == '-'
  }

  predicate NoDoubleDash(s: string) {
    forall k :: 0 <= k < |s| - 1 ==> s[k] != '-' || s[k + 1] != '-'
  }

  /** What `slugify` produces: [a-z0-9] and single '-' separators, no '-' at either end. */
  predicate IsSlug(s: string) {
    && SlugAlphabet(s)
    && NoDoubleDash(s)
    && (s == [] || (s[0] != '-' && s[|s| - 1] != '-'))
  }

  /** `s.replace(/[^a-z0-9]+/g, "-")`: each maximal run outside [a-z0-9] becomes one '-'. */
  function Collapse(s: string): (r: string)
    ensures SlugAlphabet(r) && NoDoubleDash(r)
    ensures s != [] && IsSlugChar(s[0]) ==> r != [] && r[0] == s[0]
    decreases |s|
  {
    if s == [] then []
    else if IsSlugChar(s[0]) then [s[0]] + Collapse(s[1..])
    else "-" + Collapse(DropRun(s[1..]))
  }

  /** `s.replace(/(^-|-$)/g, "")`: one '-' off each end. */
  function TrimDashes(s: string): string {
    var t := if s != [] && s[0] == '-' then s[1..] else s;
    if t != [] && t[|t| - 1] == '-' then t[..|t| - 1] else t
  }

  /** A slice of a string keeps its slug alphabet and its single dashes. */
  lemma SliceSlug(s: string, i: nat, j: nat)
    requires i <= j <= |s| && SlugAlphabet(s) && NoDoubleDash(s)
    ensures SlugAlphabet(s[i..j]) && NoDoubleDash(s[i..j])
  {
    var t := s[i..j];
    forall k | 0 <= k < |t|
      ensures IsSlugChar(t[k]) || t[k] == '-'
    {
      assert t[k] == s[i + k];
    }
    forall k | 0 <= k < |t| - 1
      ensures t[k] != '-' || t[k + 1] != '-'
    {
      assert t[k] == s[i + k] && t[k + 1] == s[i + k + 1];
    }
  }

  /** With single dashes, trimming one '-' off each end leaves none at either end. */
  lemma TrimDashesSlug(c: string)
    requires SlugAlphabet(c) && NoDoubleDash(c)
    ensures IsSlug(TrimDashes(c))
  {
    var i := if c != [] && c[0] == '-' then 1 else 0;
    var j := if i < |c| && c[|c| - 1] == '-' then |c| - 1 else |c|;
    var t := if c != [] && c[0] == '-' then c[1..] else c;
    assert t == c[i..];
    if j < |c| {
      assert t[..|t| - 1] == c[i..j];
    } else {
      assert t == c[i..j];
    }
    assert TrimDashes(c) == c[i..j];
    SliceSlug(c, i, j);
    if i < j {
      assert c[i..j][0] == c[i] && c[i..j][j - i - 1] == c[j - 1];
      if i == 1 {
        assert c[0] == '-' && c[1] != '-';
      }
      if j == |c| - 1 {
        assert c[|c| - 2] != '-';
      }
    }
  }

  /** `slugify(name)` (src/core/utils.ts). */
  function Slugify(name: string): (r: string)
    ensures IsSlug(r)
  {
    var c := Collapse(Lower(name));
    TrimDashesSlug(c);
    TrimDashes(c)
  }

  /** A slug is its own slug. */
  lemma {:induction false} CollapseSlug(s: string)
    requires SlugAlphabet(s) && NoDoubleDash(s) && (s == [] || s[|s| - 1] != '-')
    ensures Collapse(s) == s
    decreases |s|
  {
    if s != [] {
      var t := s[1..];
      SliceSlug(s, 1, |s|);
      assert t == [] || t[|t| - 1] == s[|s| - 1];
      CollapseSlug(t);
      assert s == [s[0]] + t;
      if IsSlugChar(s[0]) {
        calc {
          Collapse(s);
          [s[0]] + Collapse(t);
          [s[0]] + t;
        }
      } else {
        assert s[0] == '-';
        assert t != [] && t[0] == s[1] && IsSlugChar(t[0]);
        assert DropRun(t) == t;
        calc {
          Collapse(s);
          "-" + Collapse(DropRun(t));
          "-" + t;
          [s[0]] + t;
        }
      }
    }
  }

  lemma {:induction false} LowerSlug(s: string)
    requires SlugAlphabet(s)
    ensures Lower(s) == s
  {
    if s != [] {
      LowerSlug(s[1..]);
      assert s == [s[0]] + s[1..];
    }
  }

  /** `slugify` leaves a slug unchanged. */
  lemma SlugifySlug(s: string)
    requires IsSlug(s)
    ensures Slugify(s) == s
  {
    LowerSlug(s);
    CollapseSlug(s);
  }

  /** `slugify` is idempotent. */
  lemma SlugifyIdempotent(s: string)
    ensures Slugify(Slugify(s)) == Slugify(s)
  {
    SlugifySlug(Slugify(s));
  }

  /** A name made of lowercase letters and digits is already a slug. */
  lemma SlugifyAlnum(s: string)
    requires forall k :: 0 <= k < |s| ==> IsSlugChar(s[k])
    ensures Slugify(s) == s
  {
    SlugifySlug(s);
  }

  // ---------------------------------------------------------------------------------
  // walk(dir)

  /** The files below the listing `es` of directory `dir`, in listing order, each
    * subdirectory's files in its place. */
  function FilesIn(es: seq<Entry>, dir: Path): seq<Path>
    decreases es
  {
    if es == [] then []
    else
      var here := dir + [es[0].name];
      (match es[0].node
       case File(_) => [here]
       case Dir(cs) => FilesIn(cs, here))
      + FilesIn(es[1..], dir)
  }

  /** What `walk(dir)` returns, or the exception it raises. */
  function Walked(n: Node, dir: Path): Result<seq<Path>> {
    match Lookup(n, dir)
    case None => Ok([])
    case Some(File(_)) => Err(NotADirectory(dir))
    case Some(Dir(es)) => Ok(FilesIn(es, dir))
  }

  lemma {:induction false} FilesInAppend(a: seq<Entry>, b: seq<Entry>, dir: Path)
    ensures FilesIn(a + b, dir) == FilesIn(a, dir) + FilesIn(b, dir)
  {
    if a == [] {
      assert a + b == b;
    } else {
      assert (a + b)[0] == a[0] && (a + b)[1..] == a[1..] + b;
      FilesInAppend(a[1..], b, dir);
    }
  }

  /** The files of one listing entry. */
  function EntryFiles(e: Entry, dir: Path): seq<Path> {
    FilesIn([e], dir)
  }

  /** `walk(dir)` (src/core/utils.ts): the recursion over one directory listing. */
  method WalkEntries(es: seq<Entry>, dir: Path) returns (res: seq<Path>)
    requires ValidPath(dir) && forall i :: 0 <= i < |es| ==> ValidName(es[i].name)
    requires Wf(Dir(es))
    ensures res == FilesIn(es, dir)
    decreases es
  {
    res := [];
    var i := 0;
    while i < |es|
      invariant 0 <= i <= |es|
      invariant res == FilesIn(es[..i], dir)
    {
      var e := es[i];
      var p := Join(dir, e.name);
      JoinName(dir, e.name);
      match e.node {
        case Dir(cs) =>
          var sub := WalkEntries(cs, p);
          res := res + sub;
        case File(_) =>
          res := res + [p];
      }
      assert [e][0] == e && [e][1..] == [];
      assert res == FilesIn(es[..i], dir) + EntryFiles(e, dir);
      FilesInAppend(es[..i], [e], dir);
      assert es[..i + 1] == es[..i] + [e];
      i := i + 1;
    }
    assert es[..i] == es;
  }

  /** `walk(dir)` (src/core/utils.ts). */
  method Walk(fs: FileStore, dir: Path) returns (r: Result<seq<Path>>)
    requires fs.Valid() && ValidPath(dir)
    ensures r == Walked(fs.root, dir)
    ensures !ExistsAt(fs.root, dir) ==> r == Ok([])
  {
    if !ExistsAt(fs.root, dir) {
      return Ok([]);
    }
    var listing := ReadDir(fs.root, dir);
    if listing.Err? {
      return Err(listing.error);
    }
    WfLookup(fs.root, dir);
    var files := WalkEntries(listing.value, dir);
    r := Ok(files);
  }

  /** Every path in `FilesIn(es, dir)` lies strictly below `dir`. */
  lemma {:induction false} FilesInUnder(es: seq<Entry>, dir: Path)
    ensures forall q :: q in FilesIn(es, dir) ==> |q| > |dir| && q[..|dir|] == dir
    decreases es
  {
    if es != [] {
      var here := dir + [es[0].name];
      match es[0].node {
        case File(_) =>
        case Dir(cs) =>
          FilesInUnder(cs, here);
          assert forall q :: q in FilesIn(cs, here) ==> q[..|dir|] == q[..|here|][..|dir|];
      }
      FilesInUnder(es[1..], dir);
    }
  }

  lemma FilesInCons(es: seq<Entry>, dir: Path)
    requires es != []
    ensures FilesIn(es, dir) == EntryFiles(es[0], dir) + FilesIn(es[1..], dir)
  {
    var e := es[0];
    assert [e][0] == e && [e][1..] == [];
    var sub := match e.node case File(_) => [dir + [e.name]] case Dir(cs) => FilesIn(cs, dir + [e.name]);
    assert FilesIn([e], dir) == sub + [];
    assert sub + [] == sub;
  }

  lemma EntryFilesUnfold(e: Entry, dir: Path)
    ensures EntryFiles(e, dir) ==
      match e.node case File(_) => [dir + [e.name]] case Dir(cs) => FilesIn(cs, dir + [e.name])
  {
    FilesInCons([e], dir);
    assert [e][0] == e && [e][1..] == [];
    var sub := match e.node case File(_) => [dir + [e.name]] case Dir(cs) => FilesIn(cs, dir + [e.name]);
    assert sub + [] == sub;
  }

  /** `dir + rel` is listed for entry `e` iff `rel` goes through `e` to a file, given that
    * this holds inside `e` when it is a directory. */
  lemma EntryFilesExact(e: Entry, dir: Path, rel: Path)
    requires rel != []
    requires e.node.Dir? ==>
      (dir + [e.name] + rel[1..] in FilesIn(e.node.entries, dir + [e.name]) <==> FileAt(e.node, rel[1..]).Some?)
    ensures dir + rel in EntryFiles(e, dir) <==> rel[0] == e.name && FileAt(e.node, rel[1..]).Some?
  {
    var here := dir + [e.name];
    EntryFilesUnfold(e, dir);
    assert (dir + rel)[|dir|] == rel[0] && here[|dir|] == e.name;
    if rel[0] == e.name {
      assert dir + rel == here + rel[1..];
      if e.node.File? {
        assert dir + rel == here <==> rel[1..] == [];
        assert FileAt(e.node, rel[1..]).Some? <==> rel[1..] == [];
      }
    } else if e.node.Dir? {
      FilesInUnder(e.node.entries, here);
      forall q | q in FilesIn(e.node.entries, here)
        ensures q != dir + rel
      {
        assert q[|dir|] == q[..|here|][|dir|];
      }
    }
  }

  /** `walk` finds exactly the files of the tree: `dir + rel` is listed iff a file is there. */
  lemma {:induction false} FilesInExact(es: seq<Entry>, dir: Path, rel: Path)
    requires Wf(Dir(es))
    ensures dir + rel in FilesIn(es, dir) <==> FileAt(Dir(es), rel).Some?
    decreases es
  {
    if es == [] {
      if rel != [] {
        assert Find(es, rel[0]) == None;
      }
    } else if rel == [] {
      FilesInUnder(es, dir);
    } else {
      var e := es[0];
      FilesInCons(es, dir);
      assert rel == [rel[0]] + rel[1..];
      FileAtCons(es, rel[0], rel[1..]);
      assert Wf(Dir(es[1..])) by {
        assert forall i :: 0 <= i < |es[1..]| ==> es[1..][i] == es[i + 1];
      }
      FilesInExact(es[1..], dir, rel);
      if e.node.Dir? {
        assert Wf(e.node);
        FilesInExact(e.node.entries, dir + [e.name], rel[1..]);
      }
      EntryFilesExact(e, dir, rel);
      if rel[0] == e.name {
        // The other entries have other names, so nothing of theirs is at `rel`.
        assert Find(es[1..], rel[0]).None? by {
          assert forall j :: 1 <= j < |es| ==> es[j].name != e.name;
        }
      }
    }
  }

  predicate NoDuplicates<T(==)>(s: seq<T>) {
    forall i, j :: 0 <= i < j < |s| ==> s[i] != s[j]
  }

  /** Every listed path names, right below `dir`, one of the entries. */
  lemma FilesInHead(es: seq<Entry>, dir: Path, q: Path)
    requires Wf(Dir(es)) && q in FilesIn(es, dir)
    ensures |q| > |dir| && Find(es, q[|dir|]).Some?
  {
    FilesInUnder(es, dir);
    var rel := q[|dir|..];
    assert q == dir + rel;
    FilesInExact(es, dir, rel);
  }

  lemma NoDuplicatesConcat<T>(a: seq<T>, b: seq<T>)
    requires NoDuplicates(a) && NoDuplicates(b)
    requires forall x :: x in a ==> x !in b
    ensures NoDuplicates(a + b)
  {
    var ab := a + b;
    forall i, j | 0 <= i < j < |ab|
      ensures ab[i] != ab[j]
    {
      if i < |a| && j >= |a| {
        assert ab[i] in a && ab[j] == b[j - |a|];
      }
    }
  }

  /** `walk` lists no file twice. */
  lemma {:induction false} FilesInNoDuplicates(es: seq<Entry>, dir: Path)
    requires Wf(Dir(es))
    ensures NoDuplicates(FilesIn(es, dir))
    decreases es
  {
    if es != [] {
      var e := es[0];
      var here := dir + [e.name];
      var sub := match e.node case File(_) => [here] case Dir(cs) => FilesIn(cs, here);
      var rest := FilesIn(es[1..], dir);
      assert Wf(Dir(es[1..])) by {
        assert forall i :: 0 <= i < |es[1..]| ==> es[1..][i] == es[i + 1];
      }
      FilesInNoDuplicates(es[1..], dir);
      match e.node {
        case File(_) =>
        case Dir(cs) =>
          FilesInNoDuplicates(cs, here);
          FilesInUnder(cs, here);
      }
      assert forall q :: q in sub ==> |q| > |dir| && q[|dir|] == e.name by {
        forall q | q in sub
          ensures |q| > |dir| && q[|dir|] == e.name
        {
          assert q[..|here|] == here;
          assert q[|dir|] == q[..|here|][|dir|];
        }
      }
      forall q | q in sub
        ensures q !in rest
      {
        if q in rest {
          FilesInHead(es[1..], dir, q);
        }
      }
      NoDuplicatesConcat(sub, rest);
    }
  }

  /** `walk(dir)` returns, each once, exactly the files at or below `dir`; a missing
    * `dir` gives none. */
  lemma WalkedExact(n: Node, dir: Path, rel: Path)
    requires Wf(n) && Walked(n, dir).Ok?
    ensures NoDuplicates(Walked(n, dir).value)
    ensures dir + rel in Walked(n, dir).value <==> FileAt(n, dir + rel).Some?
  {
    LookupConcat(n, dir, rel);
    match Lookup(n, dir) {
      case None =>
      case Some(m) =>
        WfLookup(n, dir);
        FilesInNoDuplicates(m.entries, dir);
        FilesInExact(m.entries, dir, rel);
    }
  }

  // ---------------------------------------------------------------------------------
  // copyDir(src, dst)

  /** Copies the listing `es` into the existing directory `dst`, entry by entry:
    * `copyFileSync` for a file, `copyDir` for a subdirectory. */
  function CopyEntries(n: Node, es: seq<Entry>, dst: Path): Result<Node>
    decreases es
  {
    if es == [] then Ok(n)
    else
      var d := dst + [es[0].name];
      var n1 :- match es[0].node
        case File(data) => Put(n, d, data)
        case Dir(cs) => (var m :- MakeDirs(n, d); CopyEntries(m, cs, d));
      CopyEntries(n1, es[1..], dst)
  }

  /** One entry of the listing copied into `dst`. */
  function CopyEntry(n: Node, e: Entry, dst: Path): Result<Node> {
    var d := dst + [e.name];
    match e.node
    case File(data) => Put(n, d, data)
    case Dir(cs) => (var m :- MakeDirs(n, d); CopyEntries(m, cs, d))
  }

  lemma CopyEntriesCons(n: Node, es: seq<Entry>, dst: Path)
    requires es != []
    ensures CopyEntries(n, es, dst) ==
      if CopyEntry(n, es[0], dst).Err? then Err(CopyEntry(n, es[0], dst).error)
      else CopyEntries(CopyEntry(n, es[0], dst).value, es[1..], dst)
  {
  }

  /** The tree after `copyDir(src, dst)` (src/core/utils.ts), or the exception it raises. */
  function CopyDirSpec(n: Node, src: Path, dst: Path): Result<Node> {
    if !ExistsAt(n, src) then Ok(n)
    else
      var m :- MakeDirs(n, dst);
      var es :- ReadDir(m, src);
      CopyEntries(m, es, dst)
  }

  /** How a copy of the listing `es` into `dst` looks at path `q`. */
  function Overlay(n: Node, es: seq<Entry>, dst: Path, q: Path): Option<string> {
    if IsPrefix(dst, q) && FileAt(Dir(es), q[|dst|..]).Some? then FileAt(Dir(es), q[|dst|..])
    else FileAt(n, q)
  }

  /** `q` is below `dst + [name]` exactly when it is below `dst` with `name` next. */
  lemma UnderName(dst: Path, name: string, q: Path)
    ensures (IsPrefix(dst, q) && |q| > |dst| && q[|dst|] == name) <==> IsPrefix(dst + [name], q)
  {
    var d := dst + [name];
    if IsPrefix(d, q) {
      assert q[..|dst|] == q[..|d|][..|dst|];
    }
    if IsPrefix(dst, q) && |q| > |dst| && q[|dst|] == name {
      assert q[..|d|] == q[..|dst|] + [q[|dst|]];
    }
  }

  /** Once the first entry of `es` is copied, copying the rest gives the overlay of all. */
  lemma OverlayCons(n: Node, n1: Node, es: seq<Entry>, dst: Path, q: Path)
    requires Wf(Dir(es)) && es != []
    requires var d := dst + [es[0].name];
      FileAt(n1, q) ==
        if IsPrefix(d, q) && FileAt(es[0].node, q[|d|..]).Some? then FileAt(es[0].node, q[|d|..]) else FileAt(n, q)
    ensures Overlay(n1, es[1..], dst, q) == Overlay(n, es, dst, q)
  {
    var e := es[0];
    var d := dst + [e.name];
    UnderName(dst, e.name, q);
    if IsPrefix(dst, q) && q[|dst|..] != [] {
      var rel := q[|dst|..];
      assert rel == [rel[0]] + rel[1..];
      FileAtCons(es, rel[0], rel[1..]);
      if rel[0] == e.name {
        assert q[|d|..] == rel[1..];
        assert FileAt(Dir(es[1..]), rel).None? by {
          assert Find(es[1..], rel[0]).None? by {
            assert forall j :: 1 <= j < |es| ==> es[j].name != e.name;
          }
        }
      }
    } else if IsPrefix(dst, q) {
      assert q[|dst|..] == [];
    }
  }

  lemma {:induction false} CopyEntriesFileAt(n: Node, es: seq<Entry>, dst: Path, q: Path)
    requires Wf(Dir(es)) && CopyEntries(n, es, dst).Ok?
    ensures FileAt(CopyEntries(n, es, dst).value, q) == Overlay(n, es, dst, q)
    decreases es
  {
    if es == [] {
      if IsPrefix(dst, q) && q[|dst|..] != [] {
        assert Find(es, q[|dst|..][0]) == None;
      }
    } else {
      var e := es[0];
      var d := dst + [e.name];
      var n1 := match e.node
        case File(data) => Put(n, d, data).value
        case Dir(cs) => CopyEntries(MakeDirs(n, d).value, cs, d).value;
      assert Wf(Dir(es[1..])) by {
        assert forall i :: 0 <= i < |es[1..]| ==> es[1..][i] == es[i + 1];
      }
      CopyEntriesFileAt(n1, es[1..], dst, q);
      // After the first entry, `n1` holds its files at `d` and is `n` everywhere else.
      match e.node {
        case File(data) =>
          PutFileAt(n, d, data, d, q);
          if q == d {
            assert q[|d|..] == [];
          } else if IsPrefix(d, q) {
            assert q[|d|..] != [];
          }
        case Dir(cs) =>
          var m := MakeDirs(n, d).value;
          MkdirFileAt(n, d, d, q);
          CopyEntriesFileAt(m, cs, d, q);
      }
      OverlayCons(n, n1, es, dst, q);
    }
  }

  /** After `copyDir(src, dst)`, every file of `src` is at the matching path under `dst`
    * with the same contents, and every other path is as it was. */
  lemma CopyDirFileAt(n: Node, src: Path, dst: Path, q: Path)
    requires Wf(n) && CopyDirSpec(n, src, dst).Ok? && !IsPrefix(src, dst)
    ensures FileAt(CopyDirSpec(n, src, dst).value, q) ==
      if IsPrefix(dst, q) && FileAt(n, src + q[|dst|..]).Some? then FileAt(n, src + q[|dst|..])
      else FileAt(n, q)
  {
    if ExistsAt(n, src) {
      var m := MakeDirs(n, dst).value;
      MkdirLookup(n, dst, dst, src);
      MkdirFileAt(n, dst, dst, q);
      var es := ReadDir(m, src).value;
      assert Lookup(n, src) == Some(Dir(es));
      WfLookup(n, src);
      assert CopyDirSpec(n, src, dst) == CopyEntries(m, es, dst);
      CopyEntriesFileAt(m, es, dst, q);
      if IsPrefix(dst, q) {
        LookupConcat(n, src, q[|dst|..]);
        assert FileAt(n, src + q[|dst|..]) == FileAt(Dir(es), q[|dst|..]);
      }
    } else if IsPrefix(dst, q) {
      LookupConcat(n, src, q[|dst|..]);
    }
  }

  /** `copyDir` with a missing source changes nothing. */
  lemma CopyDirMissing(n: Node, src: Path, dst: Path)
    requires !ExistsAt(n, src)
    ensures CopyDirSpec(n, src, dst) == Ok(n)
  {
  }

  lemma {:induction false} CopyEntriesWf(n: Node, es: seq<Entry>, dst: Path)
    requires Wf(n) && Wf(Dir(es)) && ValidPath(dst) && CopyEntries(n, es, dst).Ok?
    ensures Wf(CopyEntries(n, es, dst).value)
    decreases es
  {
    if es != [] {
      var e := es[0];
      var d := dst + [e.name];
      assert ValidPath(d);
      var n1 := match e.node
        case File(data) => Put(n, d, data).value
        case Dir(cs) => CopyEntries(MakeDirs(n, d).value, cs, d).value;
      match e.node {
        case File(data) =>
          PutWf(n, d, data, d);
        case Dir(cs) =>
          MkdirWf(n, d, d);
          CopyEntriesWf(MakeDirs(n, d).value, cs, d);
      }
      assert Wf(Dir(es[1..])) by {
        assert forall i :: 0 <= i < |es[1..]| ==> es[1..][i] == es[i + 1];
      }
      CopyEntriesWf(n1, es[1..], dst);
    }
  }

  /** Copies the listing `es` into the existing directory `dst`. */
  method CopyEntriesInto(fs: FileStore, es: seq<Entry>, dst: Path) returns (r: Result<()>)
    requires fs.Valid() && Wf(Dir(es)) && ValidPath(dst)
    modifies fs
    ensures fs.Valid()
    ensures r.Ok? <==> CopyEntries(old(fs.root), es, dst).Ok?
    ensures r.Ok? ==> fs.root == CopyEntries(old(fs.root), es, dst).value
    decreases es
  {
    ghost var n0 := fs.root;
    var i := 0;
    while i < |es|
      invariant 0 <= i <= |es| && fs.Valid()
      invariant CopyEntries(n0, es, dst) == CopyEntries(fs.root, es[i..], dst)
    {
      assert es[i..][0] == es[i] && es[i..][1..] == es[i + 1..];
      CopyEntriesCons(fs.root, es[i..], dst);
      var c := CopyEntryInto(fs, es[i], dst);
      if c.Err? {
        return Err(c.error);
      }
      i := i + 1;
    }
    r := Ok(());
  }

  /** One entry: `copyFileSync` for a file, `mkdirSync` and `copyDir` for a directory. */
  method CopyEntryInto(fs: FileStore, e: Entry, dst: Path) returns (r: Result<()>)
    requires fs.Valid() && Wf(e.node) && ValidName(e.name) && ValidPath(dst)
    modifies fs
    ensures fs.Valid()
    ensures r.Ok? <==> CopyEntry(old(fs.root), e, dst).Ok?
    ensures r.Ok? ==> fs.root == CopyEntry(old(fs.root), e, dst).value
    decreases e
  {
    var d := Join(dst, e.name);
    JoinName(dst, e.name);
    JoinValid(dst, e.name);
    match e.node {
      case File(data) =>
        r := fs.WriteFile(d, data);
      case Dir(cs) =>
        var mk := fs.Mkdir(d);
        if mk.Err? {
          return Err(mk.error);
        }
        r := CopyEntriesInto(fs, cs, d);
    }
  }

  /** `copyDir(src, dst)` (src/core/utils.ts). */
  method CopyDir(fs: FileStore, src: Path, dst: Path) returns (r: Result<()>)
    requires fs.Valid() && ValidPath(dst)
    modifies fs
    ensures fs.Valid()
    ensures r.Ok? <==> CopyDirSpec(old(fs.root), src, dst).Ok?
    ensures r.Ok? ==> fs.root == CopyDirSpec(old(fs.root), src, dst).value
    ensures !old(ExistsAt(fs.root, src)) ==> r.Ok? && fs.root == old(fs.root)
  {
    if !ExistsAt(fs.root, src) {
      return Ok(());
    }
    var mk := fs.Mkdir(dst);
    if mk.Err? {
      return Err(mk.error);
    }
    var listing := ReadDir(fs.root, src);
    if listing.Err? {
      return Err(listing.error);
    }
    WfLookup(fs.root, src);
    r := CopyEntriesInto(fs, listing.value, dst);
  }
}
