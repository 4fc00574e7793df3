/**
 * The file system the core reads and writes through Node's `fs` module: a tree whose
 * directories list their entries in `readdirSync` order. `FileAt` is its view as a map
 * from path to file contents.
 */
module Store {
  import opened Wrappers
  import opened Paths

  datatype Node = File(data: string) | Dir(entries: seq<Entry>)
  datatype Entry = Entry(name: string, node: Node)

  /** The index of the first entry called `name`. */
  function Find(es: seq<Entry>, name: string): (r: Option<nat>)
    ensures r.Some? ==> r.value < |es| && es[r.value].name == name
    ensures r.Some? ==> forall j :: 0 <= j < r.value ==> es[j].name != name
    ensures r.None? ==> forall j :: 0 <= j < |es| ==> es[j].name != name
  {
    if es == [] then None
    else if es[0].name == name then Some(0)
    else
      match Find(es[1..], name)
      case None => None
      case Some(i) => Some(i + 1)
  }

  /** The node at path `p` below `n`. */
  function Lookup(n: Node, p: Path): Option<Node>
    decreases |p|
  {
    if p == [] then Some(n)
    else
      match n
      case File(_) => None
      case Dir(es) =>
        match Find(es, p[0])
        case None => None
        case Some(i) => Lookup(es[i].node, p[1..])
  }

  /** The contents of the regular file at `p`, if there is one. */
  function FileAt(n: Node, p: Path): Option<string> {
    match Lookup(n, p)
    case Some(File(d)) => Some(d)
    case _ => None
  }

  /** `fs.existsSync(p)`. */
  predicate ExistsAt(n: Node, p: Path) {
    Lookup(n, p).Some?
  }

  predicate IsDirAt(n: Node, p: Path) {
    Lookup(n, p).Some? && Lookup(n, p).value.Dir?
  }

  /** `fs.readFileSync(p, "utf-8")`. */
  function ReadFile(n: Node, p: Path): (r: Result<string>)
    ensures r.Ok? <==> FileAt(n, p).Some?
    ensures r.Ok? ==> FileAt(n, p) == Some(r.value)
  {
    match Lookup(n, p)
    case None => Err(NotFound(p))
    case Some(File(d)) => Ok(d)
    case Some(Dir(_)) => Err(IsADirectory(p))
  }

  /** `fs.readdirSync(p)`, with the entries' types. */
  function ReadDir(n: Node, p: Path): (r: Result<seq<Entry>>)
    ensures r.Ok? <==> IsDirAt(n, p)
    ensures r.Ok? ==> Lookup(n, p) == Some(Dir(r.value))
  {
    match Lookup(n, p)
    case None => Err(NotFound(p))
    case Some(File(_)) => Err(NotADirectory(p))
    case Some(Dir(es)) => Ok(es)
  }

  predicate UniqueNames(es: seq<Entry>) {
    forall i, j :: 0 <= i < j < |es| ==> es[i].name != es[j].name
  }

  /** What every real directory tree satisfies: the names in a directory are distinct
    * entry names. */
  predicate Wf(n: Node) {
    match n
    case File(_) => true
    case Dir(es) =>
      && UniqueNames(es)
      && (forall i :: 0 <= i < |es| ==> ValidName(es[i].name))
      && (forall i :: 0 <= i < |es| ==> Wf(es[i].node))
  }

  /** The directories `mkdir -p` creates for a missing path `p`, ending in `leaf`. */
  function Chain(p: Path, leaf: Node): Node
    decreases |p|
  {
    if p == [] then leaf else Dir([Entry(p[0], Chain(p[1..], leaf))])
  }

  /** The tree after `writeFile(full, d)` (src/core/utils.ts): `mkdirSync(dirname, {recursive})`
    * creates the missing directories, `writeFileSync` creates or replaces the file.
    * `p` is what is left of `full` below `n`. */
  function PutAt(n: Node, p: Path, d: string, full: Path): Result<Node>
    decreases |p|
  {
    match n
    case File(_) => if p == [] then Ok(File(d)) else Err(NotADirectory(full))
    case Dir(es) =>
      if p == [] then Err(IsADirectory(full))
      else
        match Find(es, p[0])
        case None => Ok(Dir(es + [Entry(p[0], Chain(p[1..], File(d)))]))
        case Some(i) =>
          var c :- PutAt(es[i].node, p[1..], d, full);
          Ok(Dir(es[i := Entry(p[0], c)]))
  }

  function Put(n: Node, p: Path, d: string): Result<Node> {
    PutAt(n, p, d, p)
  }

  /** The tree after `fs.mkdirSync(full, {recursive: true})`. */
  function MkdirAt(n: Node, p: Path, full: Path): Result<Node>
    decreases |p|
  {
    match n
    case File(_) => Err(NotADirectory(full))
    case Dir(es) =>
      if p == [] then Ok(n)
      else
        match Find(es, p[0])
        case None => Ok(Dir(es + [Entry(p[0], Chain(p[1..], Dir([])))]))
        case Some(i) =>
          var c :- MkdirAt(es[i].node, p[1..], full);
          Ok(Dir(es[i := Entry(p[0], c)]))
  }

  function MakeDirs(n: Node, p: Path): Result<Node> {
    MkdirAt(n, p, p)
  }

  /** The tree after `fs.unlinkSync(full)`: only a regular file can be unlinked. */
  function UnlinkAt(n: Node, p: Path, full: Path): Result<Node>
    decreases |p|
  {
    match n
    case File(_) => Err(NotADirectory(full))
    case Dir(es) =>
      if p == [] then Err(IsADirectory(full))
      else
        match Find(es, p[0])
        case None => Err(NotFound(full))
        case Some(i) =>
          if |p| == 1 then
            if es[i].node.File? then Ok(Dir(es[..i] + es[i + 1..])) else Err(IsADirectory(full))
          else
            var c :- UnlinkAt(es[i].node, p[1..], full);
            Ok(Dir(es[i := Entry(p[0], c)]))
  }

  function UnlinkFile(n: Node, p: Path): Result<Node> {
    UnlinkAt(n, p, p)
  }

  /** The tree after `fs.rmSync(full, {recursive: true, force: true})`: a missing path is
    * no error; the root itself cannot be removed. */
  function RemoveTreeAt(n: Node, p: Path, full: Path): Result<Node>
    decreases |p|
  {
    match n
    case File(_) => if p == [] then Err(IsADirectory(full)) else Ok(n)
    case Dir(es) =>
      if p == [] then Err(IsADirectory(full))
      else
        match Find(es, p[0])
        case None => Ok(n)
        case Some(i) =>
          if |p| == 1 then Ok(Dir(es[..i] + es[i + 1..]))
          else
            var c :- RemoveTreeAt(es[i].node, p[1..], full);
            Ok(Dir(es[i := Entry(p[0], c)]))
  }

  function RemoveAll(n: Node, p: Path): Result<Node> {
    RemoveTreeAt(n, p, p)
  }

  // ---------------------------------------------------------------------------------
  // How the operations change the map from paths to file contents.

  lemma FindSnoc(es: seq<Entry>, e: Entry, x: string)
    ensures Find(es + [e], x) ==
      if Find(es, x).Some? then Find(es, x) else if e.name == x then Some(|es|) else None
  {
    var r := Find(es + [e], x);
    if Find(es, x).Some? {
      assert (es + [e])[Find(es, x).value] == es[Find(es, x).value];
    } else if e.name == x {
      assert (es + [e])[|es|] == e;
    }
  }

  lemma FindReplace(es: seq<Entry>, i: nat, c: Node, x: string)
    requires i < |es|
    ensures Find(es[i := Entry(es[i].name, c)], x) == Find(es, x)
  {
    var es' := es[i := Entry(es[i].name, c)];
    assert forall j :: 0 <= j < |es| ==> es'[j].name == es[j].name;
  }

  lemma {:induction false} ChainFileAt(p: Path, d: string, q: Path)
    ensures FileAt(Chain(p, File(d)), q) == if q == p then Some(d) else None
    decreases |p|
  {
    if p != [] && q != [] {
      var es := [Entry(p[0], Chain(p[1..], File(d)))];
      if q[0] == p[0] {
        assert Find(es, q[0]) == Some(0);
        ChainFileAt(p[1..], d, q[1..]);
        assert q == p <==> q[1..] == p[1..] by {
          if q[1..] == p[1..] { assert q == [q[0]] + q[1..] && p == [p[0]] + p[1..]; }
        }
      } else {
        assert Find(es, q[0]) == None;
      }
    } else if p == [] && q != [] {
      assert Lookup(File(d), q) == None;
    } else if p != [] && q == [] {
      assert Lookup(Chain(p, File(d)), q) == Some(Chain(p, File(d)));
    }
  }

  lemma {:induction false} ChainDirFileAt(p: Path, q: Path)
    ensures FileAt(Chain(p, Dir([])), q) == None
    decreases |p|
  {
    if q != [] {
      if p == [] {
        assert Find([], q[0]) == None;
      } else {
        var es := [Entry(p[0], Chain(p[1..], Dir([])))];
        if q[0] == p[0] {
          assert Find(es, q[0]) == Some(0);
          ChainDirFileAt(p[1..], q[1..]);
        } else {
          assert Find(es, q[0]) == None;
        }
      }
    }
  }

  /** Writing a file sets that one path and leaves every other path as it was. */
  lemma {:induction false} PutFileAt(n: Node, p: Path, d: string, full: Path, q: Path)
    requires PutAt(n, p, d, full).Ok?
    ensures FileAt(PutAt(n, p, d, full).value, q) == if q == p then Some(d) else FileAt(n, q)
    decreases |p|
  {
    var n' := PutAt(n, p, d, full).value;
    match n
    case File(_) =>
      if q != [] {
        assert Lookup(n', q) == None;
      }
    case Dir(es) =>
      if q != [] {
        var x := p[0];
        var same: bool := q[0] == x && q[1..] == p[1..];
        assert q == p <==> same by {
          if same { assert q == [q[0]] + q[1..] && p == [p[0]] + p[1..]; }
        }
        match Find(es, x)
        case None =>
          var e := Entry(x, Chain(p[1..], File(d)));
          FindSnoc(es, e, q[0]);
          if q[0] == x {
            ChainFileAt(p[1..], d, q[1..]);
          } else if Find(es, q[0]).Some? {
            assert (es + [e])[Find(es, q[0]).value] == es[Find(es, q[0]).value];
          }
        case Some(i) =>
          var c := PutAt(es[i].node, p[1..], d, full).value;
          FindReplace(es, i, c, q[0]);
          if q[0] == x {
            PutFileAt(es[i].node, p[1..], d, full, q[1..]);
          }
      }
  }

  lemma {:induction false} ChainWf(p: Path, leaf: Node)
    requires ValidPath(p) && Wf(leaf)
    ensures Wf(Chain(p, leaf))
    decreases |p|
  {
    if p != [] {
      ChainWf(p[1..], leaf);
    }
  }

  /** Writing a file keeps the names in every directory distinct. */
  lemma {:induction false} PutWf(n: Node, p: Path, d: string, full: Path)
    requires Wf(n) && ValidPath(p) && PutAt(n, p, d, full).Ok?
    ensures Wf(PutAt(n, p, d, full).value)
    decreases |p|
  {
    match n
    case File(_) =>
    case Dir(es) =>
      match Find(es, p[0])
      case None =>
        ChainWf(p[1..], File(d));
      case Some(i) =>
        PutWf(es[i].node, p[1..], d, full);
  }

  /** `mkdir -p` creates no file and changes none, and leaves a directory at `p`. */
  lemma {:induction false} MkdirFileAt(n: Node, p: Path, full: Path, q: Path)
    requires MkdirAt(n, p, full).Ok?
    ensures FileAt(MkdirAt(n, p, full).value, q) == FileAt(n, q)
    decreases |p|
  {
    match n
    case File(_) =>
    case Dir(es) =>
      if p != [] && q != [] {
        var x := p[0];
        match Find(es, x)
        case None =>
          var e := Entry(x, Chain(p[1..], Dir([])));
          FindSnoc(es, e, q[0]);
          if q[0] == x {
            ChainDirFileAt(p[1..], q[1..]);
          } else if Find(es, q[0]).Some? {
            assert (es + [e])[Find(es, q[0]).value] == es[Find(es, q[0]).value];
          }
        case Some(i) =>
          var c := MkdirAt(es[i].node, p[1..], full).value;
          FindReplace(es, i, c, q[0]);
          if q[0] == x {
            MkdirFileAt(es[i].node, p[1..], full, q[1..]);
          }
      }
  }

  lemma {:induction false} ChainDirIsDir(p: Path)
    ensures IsDirAt(Chain(p, Dir([])), p)
    decreases |p|
  {
    if p != [] {
      assert Find([Entry(p[0], Chain(p[1..], Dir([])))], p[0]) == Some(0);
      ChainDirIsDir(p[1..]);
    }
  }

  lemma {:induction false} MkdirIsDir(n: Node, p: Path, full: Path)
    requires MkdirAt(n, p, full).Ok?
    ensures IsDirAt(MkdirAt(n, p, full).value, p)
    decreases |p|
  {
    match n
    case File(_) =>
    case Dir(es) =>
      if p != [] {
        var x := p[0];
        match Find(es, x)
        case None =>
          var e := Entry(x, Chain(p[1..], Dir([])));
          FindSnoc(es, e, x);
          ChainDirIsDir(p[1..]);
        case Some(i) =>
          var c := MkdirAt(es[i].node, p[1..], full).value;
          FindReplace(es, i, c, x);
          MkdirIsDir(es[i].node, p[1..], full);
      }
  }

  lemma {:induction false} MkdirWf(n: Node, p: Path, full: Path)
    requires Wf(n) && ValidPath(p) && MkdirAt(n, p, full).Ok?
    ensures Wf(MkdirAt(n, p, full).value)
    decreases |p|
  {
    match n
    case File(_) =>
    case Dir(es) =>
      if p != [] {
        match Find(es, p[0])
        case None =>
          ChainWf(p[1..], Dir([]));
        case Some(i) =>
          MkdirWf(es[i].node, p[1..], full);
      }
  }

  /** Removing entry `i` of a directory with distinct names hides exactly that name. */
  lemma FindRemove(es: seq<Entry>, i: nat, x: string)
    requires UniqueNames(es) && i < |es|
    ensures var es' := es[..i] + es[i + 1..];
      && UniqueNames(es')
      && (Find(es', x).None? <==> (x == es[i].name || Find(es, x).None?))
      && (Find(es', x).Some? ==> es'[Find(es', x).value] == es[Find(es, x).value])
  {
    RemoveUnique(es, i);
    RemoveFind(es, i, x);
  }

  lemma RemoveUnique(es: seq<Entry>, i: nat)
    requires UniqueNames(es) && i < |es|
    ensures UniqueNames(es[..i] + es[i + 1..])
  {
    var es' := es[..i] + es[i + 1..];
    forall j, k | 0 <= j < k < |es'|
      ensures es'[j].name != es'[k].name
    {
      assert es'[j] == es[if j < i then j else j + 1];
      assert es'[k] == es[if k < i then k else k + 1];
    }
  }

  lemma RemoveFind(es: seq<Entry>, i: nat, x: string)
    requires UniqueNames(es) && i < |es|
    ensures var es' := es[..i] + es[i + 1..];
      && (Find(es', x).None? <==> (x == es[i].name || Find(es, x).None?))
      && (Find(es', x).Some? ==> es'[Find(es', x).value] == es[Find(es, x).value])
  {
    var es' := es[..i] + es[i + 1..];
    var r' := Find(es', x);
    if r'.Some? {
      var j := r'.value;
      assert es'[j] == es[if j < i then j else j + 1];
    }
    if x == es[i].name {
      forall j | 0 <= j < |es'|
        ensures es'[j].name != x
      {
        assert es'[j] == es[if j < i then j else j + 1];
      }
    }
    if Find(es, x).Some? && x != es[i].name {
      var k := Find(es, x).value;
      assert es'[if k < i then k else k - 1] == es[k];
    }
  }

  /** Unlinking a file clears that one path and leaves every other path as it was. */
  lemma {:induction false} UnlinkFileAt(n: Node, p: Path, full: Path, q: Path)
    requires Wf(n) && UnlinkAt(n, p, full).Ok?
    ensures FileAt(UnlinkAt(n, p, full).value, q) == if q == p then None else FileAt(n, q)
    decreases |p|
  {
    var es := n.entries;
    var x := p[0];
    var i := Find(es, x).value;
    assert q == p <==> q != [] && q[0] == x && q[1..] == p[1..] by {
      if q != [] && q[0] == x && q[1..] == p[1..] {
        assert q == [q[0]] + q[1..] && p == [p[0]] + p[1..];
      }
    }
    if |p| == 1 {
      RemoveEntryFileAt(es, i, q);
      if q != [] && q[0] == x {
        LookupEntry(es, i, q);
      }
    } else {
      var c := UnlinkAt(es[i].node, p[1..], full).value;
      ReplaceEntryFileAt(es, i, c, q);
      if q != [] && q[0] == x {
        LookupEntry(es, i, q);
        UnlinkFileAt(es[i].node, p[1..], full, q[1..]);
      }
    }
  }

  /** Below a directory, a path through entry `i` looks up inside that entry. */
  lemma LookupEntry(es: seq<Entry>, i: nat, q: Path)
    requires UniqueNames(es) && i < |es| && q != [] && q[0] == es[i].name
    ensures Lookup(Dir(es), q) == Lookup(es[i].node, q[1..])
  {
  }

  /** Dropping entry `i` clears exactly the paths through it. */
  lemma RemoveEntryFileAt(es: seq<Entry>, i: nat, q: Path)
    requires UniqueNames(es) && i < |es|
    ensures FileAt(Dir(es[..i] + es[i + 1..]), q) == if q != [] && q[0] == es[i].name then None else FileAt(Dir(es), q)
  {
    if q != [] {
      var es' := es[..i] + es[i + 1..];
      FindRemove(es, i, q[0]);
      match Find(es', q[0]) {
        case None =>
        case Some(j) =>
          assert Lookup(Dir(es'), q) == Lookup(es'[j].node, q[1..]);
          assert Lookup(Dir(es), q) == Lookup(es[Find(es, q[0]).value].node, q[1..]);
      }
    }
  }

  /** Replacing the node of entry `i` changes exactly the paths through it. */
  lemma ReplaceEntryFileAt(es: seq<Entry>, i: nat, c: Node, q: Path)
    requires UniqueNames(es) && i < |es|
    ensures FileAt(Dir(es[i := Entry(es[i].name, c)]), q) ==
      if q != [] && q[0] == es[i].name then FileAt(c, q[1..]) else FileAt(Dir(es), q)
  {
    if q != [] {
      var es' := es[i := Entry(es[i].name, c)];
      FindReplace(es, i, c, q[0]);
      if q[0] == es[i].name {
        LookupEntry(es, i, q);
      }
      match Find(es, q[0]) {
        case None =>
        case Some(j) =>
          assert Lookup(Dir(es'), q) == Lookup(es'[j].node, q[1..]);
      }
    }
  }

  /** A regular file can always be unlinked. */
  lemma {:induction false} UnlinkFileOk(n: Node, p: Path, full: Path)
    requires n.Dir? && FileAt(n, p).Some?
    ensures UnlinkAt(n, p, full).Ok?
    decreases |p|
  {
    var es := n.entries;
    var i := Find(es, p[0]).value;
    if |p| > 1 {
      assert FileAt(es[i].node, p[1..]).Some?;
      UnlinkFileOk(es[i].node, p[1..], full);
      } else {
        assert Lookup(es[i].node, p[1..]) == Some(es[i].node);
      }
  }

  /** A directory cannot be unlinked. */
  lemma {:induction false} UnlinkNotFile(n: Node, p: Path, full: Path)
    requires Lookup(n, p).Some? && Lookup(n, p).value.Dir?
    ensures UnlinkAt(n, p, full).Err?
    decreases |p|
  {
    match n
    case File(_) =>
    case Dir(es) =>
      if p != [] {
        var i := Find(es, p[0]).value;
        if |p| > 1 {
          UnlinkNotFile(es[i].node, p[1..], full);
        } else {
          assert Lookup(es[i].node, p[1..]) == Some(es[i].node);
        }
      }
  }

  /** After an unlink nothing at all is left at the path. */
  lemma {:induction false} UnlinkGone(n: Node, p: Path, full: Path)
    requires Wf(n) && UnlinkAt(n, p, full).Ok?
    ensures Lookup(UnlinkAt(n, p, full).value, p) == None
    decreases |p|
  {
    var es := n.entries;
    var i := Find(es, p[0]).value;
    if |p| == 1 {
      FindRemove(es, i, p[0]);
    } else {
      var c := UnlinkAt(es[i].node, p[1..], full).value;
      FindReplace(es, i, c, p[0]);
      UnlinkGone(es[i].node, p[1..], full);
    }
  }

  /** Dropping an entry keeps a directory well formed. */
  lemma RemoveEntryWf(es: seq<Entry>, i: nat)
    requires Wf(Dir(es)) && i < |es|
    ensures Wf(Dir(es[..i] + es[i + 1..]))
  {
    RemoveUnique(es, i);
    var es' := es[..i] + es[i + 1..];
    forall j | 0 <= j < |es'|
      ensures ValidName(es'[j].name) && Wf(es'[j].node)
    {
      assert es'[j] == es[if j < i then j else j + 1];
    }
  }

  /** Replacing the node of an entry by a well-formed one keeps a directory well formed. */
  lemma ReplaceEntryWf(es: seq<Entry>, i: nat, c: Node)
    requires Wf(Dir(es)) && i < |es| && Wf(c)
    ensures Wf(Dir(es[i := Entry(es[i].name, c)]))
  {
    var es' := es[i := Entry(es[i].name, c)];
    assert forall j :: 0 <= j < |es'| ==> es'[j].name == es[j].name;
  }

  lemma {:induction false} UnlinkWf(n: Node, p: Path, full: Path)
    requires Wf(n) && UnlinkAt(n, p, full).Ok?
    ensures Wf(UnlinkAt(n, p, full).value)
    decreases |p|
  {
    match n
    case File(_) =>
    case Dir(es) =>
      var i := Find(es, p[0]).value;
      if |p| == 1 {
        RemoveEntryWf(es, i);
      } else {
        UnlinkWf(es[i].node, p[1..], full);
        ReplaceEntryWf(es, i, UnlinkAt(es[i].node, p[1..], full).value);
      }
  }

  /** `rm -rf p` clears every path at or below `p` and leaves all others as they were. */
  lemma {:induction false} RemoveTreeFileAt(n: Node, p: Path, full: Path, q: Path)
    requires Wf(n) && RemoveTreeAt(n, p, full).Ok?
    ensures FileAt(RemoveTreeAt(n, p, full).value, q) == if IsPrefix(p, q) then None else FileAt(n, q)
    decreases |p|
  {
    var x := p[0];
    assert IsPrefix(p, q) <==> q != [] && q[0] == x && IsPrefix(p[1..], q[1..]) by {
      if q != [] && q[0] == x && IsPrefix(p[1..], q[1..]) {
        assert q[..|p|] == [q[0]] + q[1..][..|p| - 1];
        assert p == [p[0]] + p[1..];
      }
    }
    match n
    case File(_) =>
      if q != [] {
        assert Lookup(n, q) == None;
      }
    case Dir(es) =>
      match Find(es, x)
      case None =>
        if q != [] && q[0] == x {
          assert Lookup(n, q) == None;
        }
      case Some(i) =>
        if |p| == 1 {
          RemoveEntryFileAt(es, i, q);
          if q != [] && q[0] == x {
            assert IsPrefix(p, q);
          }
        } else {
          var c := RemoveTreeAt(es[i].node, p[1..], full).value;
          ReplaceEntryFileAt(es, i, c, q);
          if q != [] && q[0] == x {
            LookupEntry(es, i, q);
            RemoveTreeFileAt(es[i].node, p[1..], full, q[1..]);
          }
        }
  }

  lemma {:induction false} RemoveTreeWf(n: Node, p: Path, full: Path)
    requires Wf(n) && RemoveTreeAt(n, p, full).Ok?
    ensures Wf(RemoveTreeAt(n, p, full).value)
    decreases |p|
  {
    match n
    case File(_) =>
    case Dir(es) =>
      match Find(es, p[0])
      case None =>
      case Some(i) =>
        if |p| == 1 {
          RemoveEntryWf(es, i);
        } else {
          RemoveTreeWf(es[i].node, p[1..], full);
          ReplaceEntryWf(es, i, RemoveTreeAt(es[i].node, p[1..], full).value);
        }
  }

  // ---------------------------------------------------------------------------------
  // Looking up through directories.

  lemma {:induction false} LookupConcat(n: Node, p: Path, q: Path)
    ensures Lookup(n, p + q) == match Lookup(n, p) case None => None case Some(m) => Lookup(m, q)
    decreases |p|
  {
    if p == [] {
      assert p + q == q;
    } else {
      assert (p + q)[0] == p[0] && (p + q)[1..] == p[1..] + q;
      match n
      case File(_) =>
      case Dir(es) =>
        match Find(es, p[0])
        case None =>
        case Some(i) =>
          LookupConcat(es[i].node, p[1..], q);
    }
  }

  /** The first entry with the name decides, as in `Find`. */
  lemma FileAtCons(es: seq<Entry>, x: string, r: Path)
    requires es != []
    ensures FileAt(Dir(es), [x] + r) ==
      if es[0].name == x then FileAt(es[0].node, r) else FileAt(Dir(es[1..]), [x] + r)
  {
    assert ([x] + r)[0] == x && ([x] + r)[1..] == r;
    if es[0].name != x {
      match Find(es[1..], x)
      case None =>
      case Some(i) =>
        assert es[1..][i] == es[i + 1];
    }
  }

  lemma {:induction false} WfLookup(n: Node, p: Path)
    requires Wf(n) && Lookup(n, p).Some?
    ensures Wf(Lookup(n, p).value)
    decreases |p|
  {
    if p != [] {
      var i := Find(n.entries, p[0]).value;
      WfLookup(n.entries[i].node, p[1..]);
    }
  }

  /** `mkdir -p p` leaves alone every existing node that is not `p` or an ancestor of it. */
  lemma {:induction false} MkdirLookup(n: Node, p: Path, full: Path, s: Path)
    requires MkdirAt(n, p, full).Ok? && Lookup(n, s).Some? && !IsPrefix(s, p)
    ensures Lookup(MkdirAt(n, p, full).value, s) == Lookup(n, s)
    decreases |p|
  {
    var es := n.entries;
    if p != [] {
      var x := p[0];
      match Find(es, x)
      case None =>
        var e := Entry(x, Chain(p[1..], Dir([])));
        FindSnoc(es, e, s[0]);
        var j := Find(es, s[0]).value;
        assert (es + [e])[j] == es[j];
      case Some(i) =>
        var c := MkdirAt(es[i].node, p[1..], full).value;
        FindReplace(es, i, c, s[0]);
        if s[0] == x {
          assert !IsPrefix(s[1..], p[1..]);
          MkdirLookup(es[i].node, p[1..], full, s[1..]);
        }
    }
  }

  // ---------------------------------------------------------------------------------

  /** Node's `fs` module: the one mutable file system the core works on. */
  class FileStore {
    var root: Node

    ghost predicate Valid()
      reads this
    {
      Wf(root) && root.Dir?
    }

    constructor (root: Node)
      requires Wf(root) && root.Dir?
      ensures Valid() && this.root == root
    {
      this.root := root;
    }

    /** `writeFile(p, data)` (src/core/utils.ts). */
    method WriteFile(p: Path, data: string) returns (r: Result<()>)
      requires Valid() && ValidPath(p)
      modifies this
      ensures Valid()
      ensures r.Ok? <==> Put(old(root), p, data).Ok?
      ensures r.Ok? ==> root == Put(old(root), p, data).value
      ensures r.Ok? ==> forall q :: FileAt(root, q) == if q == p then Some(data) else old(FileAt(root, q))
      ensures r.Err? ==> root == old(root)
    {
      var t := Put(root, p, data);
      if t.Err? {
        return Err(t.error);
      }
      PutWf(root, p, data, p);
      forall q ensures FileAt(t.value, q) == if q == p then Some(data) else FileAt(root, q) {
        PutFileAt(root, p, data, p, q);
      }
      root := t.value;
      r := Ok(());
    }

    /** `fs.mkdirSync(p, {recursive: true})`. */
    method Mkdir(p: Path) returns (r: Result<()>)
      requires Valid() && ValidPath(p)
      modifies this
      ensures Valid()
      ensures r.Ok? <==> MakeDirs(old(root), p).Ok?
      ensures r.Ok? ==> root == MakeDirs(old(root), p).value && IsDirAt(root, p)
      ensures r.Ok? ==> forall q :: FileAt(root, q) == old(FileAt(root, q))
      ensures r.Err? ==> root == old(root)
    {
      var t := MakeDirs(root, p);
      if t.Err? {
        return Err(t.error);
      }
      MkdirWf(root, p, p);
      MkdirIsDir(root, p, p);
      forall q ensures FileAt(t.value, q) == FileAt(root, q) {
        MkdirFileAt(root, p, p, q);
      }
      root := t.value;
      r := Ok(());
    }

    /** `fs.unlinkSync(p)`. */
    method Unlink(p: Path) returns (r: Result<()>)
      requires Valid()
      modifies this
      ensures Valid()
      ensures r.Ok? <==> UnlinkFile(old(root), p).Ok?
      ensures old(FileAt(root, p)).Some? ==> r.Ok?
      ensures r.Ok? ==> root == UnlinkFile(old(root), p).value
      ensures r.Ok? ==> forall q :: FileAt(root, q) == if q == p then None else old(FileAt(root, q))
      ensures r.Ok? ==> !ExistsAt(root, p)
      ensures r.Err? ==> root == old(root)
    {
      if FileAt(root, p).Some? {
        UnlinkFileOk(root, p, p);
      }
      var t := UnlinkFile(root, p);
      if t.Err? {
        return Err(t.error);
      }
      UnlinkWf(root, p, p);
      UnlinkGone(root, p, p);
      forall q ensures FileAt(t.value, q) == if q == p then None else FileAt(root, q) {
        UnlinkFileAt(root, p, p, q);
      }
      root := t.value;
      r := Ok(());
    }

    /** `fs.rmSync(p, {recursive: true, force: true})`. */
    method RemoveTree(p: Path) returns (r: Result<()>)
      requires Valid()
      modifies this
      ensures Valid()
      ensures r.Ok? <==> RemoveAll(old(root), p).Ok?
      ensures r.Ok? ==> root == RemoveAll(old(root), p).value
      ensures r.Ok? ==> forall q :: FileAt(root, q) == if IsPrefix(p, q) then None else old(FileAt(root, q))
      ensures r.Err? ==> root == old(root)
    {
      var t := RemoveAll(root, p);
      if t.Err? {
        return Err(t.error);
      }
      RemoveTreeWf(root, p, p);
      forall q ensures FileAt(t.value, q) == if IsPrefix(p, q) then None else FileAt(root, q) {
        RemoveTreeFileAt(root, p, p, q);
      }
      root := t.value;
      r := Ok(());
    }
  }
}
