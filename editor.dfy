/**
 * The post operations of src/core/editor.ts over the file store: the defaults of a
 * collection, listing and reading its markdown files, and creating, updating and deleting
 * them. gray-matter is the uninterpreted `FrontMatter`.
 */
module Editor {
  import opened Wrappers
  import opened Text
  import opened Paths
  import opened Store
  import opened Schema
  import opened Sorting
  import Utils

  /** `ctx.config.collections[name]`: for a missing name `col` is `undefined`, and reading
    * `col.folder` throws. */
  function CollectionOf(ctx: BuildContext, name: string): (r: Result<Collection>)
    ensures r.Ok? <==> Get(ctx.config.collections, name).Some?
    ensures r.Ok? ==> Get(ctx.config.collections, name) == Some(r.value)
  {
    match Get(ctx.config.collections, name)
    case None => Err(UnknownCollection(name))
    case Some(col) => Ok(col)
  }

  // ---------------------------------------------------------------------------------
  // applyDefaults

  /** A default's value: a literal as it is, a generator called (on the clock it reads). */
  function Resolve(d: Default, clock: Clock): Value {
    match d
    case Literal(v) => v
    case Generator(gen) => gen(clock)
  }

  /** What `applyDefaults(col)` returns. */
  function Defaults(col: Collection, clock: Clock): Record {
    match col.defaults
    case None => map[]
    case Some(defs) => map k | k in defs :: Resolve(defs[k], clock)
  }

  /** `applyDefaults(col)`: fills `out` one entry of `col.defaults` at a time. */
  method ApplyDefaults(col: Collection, clock: Clock) returns (out: Record)
    ensures col.defaults.None? ==> out == map[]
    ensures col.defaults.Some? ==> out.Keys == col.defaults.value.Keys
    ensures col.defaults.Some? ==> forall k :: k in out ==> out[k] == Resolve(col.defaults.value[k], clock)
    ensures out == Defaults(col, clock)
  {
    out := map[];
    if col.defaults.None? {
      return;
    }
    var defs := col.defaults.value;
    var todo := defs.Keys;
    while todo != {}
      invariant todo <= defs.Keys
      invariant out.Keys == defs.Keys - todo
      invariant forall k :: k in out ==> out[k] == Resolve(defs[k], clock)
      decreases |todo|
    {
      var k :| k in todo;
      out := out[k := Resolve(defs[k], clock)];
      todo := todo - {k};
    }
  }

  // ---------------------------------------------------------------------------------
  // listPosts and readPost

  /** One entry of `listPosts`. */
  datatype Summary = Summary(slug: string, path: Path, data: Record, excerpt: string)

  /** `s` describes a top-level `.md` file of `dir`: its name minus `.md`, its front matter
    * and the first 200 characters of its content. */
  predicate Listed(fm: FrontMatter, n: Node, dir: Path, s: Summary) {
    && |s.path| == |dir| + 1 && s.path[..|dir|] == dir
    && s.slug + ".md" == s.path[|dir|]
    && FileAt(n, s.path).Some?
    && s.data == fm.parse(FileAt(n, s.path).value).data
    && s.excerpt == Take(fm.parse(FileAt(n, s.path).value).content, 200)
  }

  /** The paths of the `.md` entries of the listing `es` of `dir`, in listing order. */
  function MdPaths(dir: Path, es: seq<Entry>): seq<Path> {
    if es == [] then []
    else (if EndsWith(es[0].name, ".md") then [dir + [es[0].name]] else []) + MdPaths(dir, es[1..])
  }

  function SummaryPaths(ss: seq<Summary>): (r: seq<Path>)
    ensures |r| == |ss| && forall i :: 0 <= i < |ss| ==> r[i] == ss[i].path
  {
    if ss == [] then [] else [ss[0].path] + SummaryPaths(ss[1..])
  }

  /** The `.filter(...).map(...)` of `listPosts` over the listing `es` of `dir`; `matter.read`
    * of an entry that is not a regular file throws. `path.join(dir, f)` of a listed name is
    * `dir + [f]` (`Paths.JoinName`). */
  function Summaries(fm: FrontMatter, n: Node, dir: Path, es: seq<Entry>): (r: Result<seq<Summary>>)
    ensures r.Ok? <==> forall i :: 0 <= i < |es| && EndsWith(es[i].name, ".md") ==> FileAt(n, dir + [es[i].name]).Some?
    ensures r.Ok? ==> SummaryPaths(r.value) == MdPaths(dir, es)
    ensures r.Ok? ==> forall j :: 0 <= j < |r.value| ==> Listed(fm, n, dir, r.value[j])
  {
    if es == [] then Ok([])
    else if !EndsWith(es[0].name, ".md") then
      var r := Summaries(fm, n, dir, es[1..]);
      assert forall i :: 1 <= i < |es| ==> es[i] == es[1..][i - 1];
      r
    else
      var f := es[0].name;
      match ReadFile(n, dir + [f])
      case Err(e) => Err(e)
      case Ok(raw) =>
        var rest := Summaries(fm, n, dir, es[1..]);
        assert forall i :: 1 <= i < |es| ==> es[i] == es[1..][i - 1];
        if rest.Err? then Err(rest.error)
        else
          var gm := fm.parse(raw);
          var s := Summary(StripSuffix(f, ".md"), dir + [f], gm.data, Take(gm.content, 200));
          assert (dir + [f])[..|dir|] == dir && (dir + [f])[|dir|] == f;
          assert SummaryPaths([s] + rest.value) == [s.path] + SummaryPaths(rest.value);
          Ok([s] + rest.value)
  }

  /** `String(data.date || "")`, the sort key. */
  function SummaryDate(s: Summary): string {
    FieldText(s.data, "date")
  }

  /** `listPosts(ctx, name)`. */
  function ListPosts(fm: FrontMatter, n: Node, ctx: BuildContext, name: string): Result<seq<Summary>> {
    var col :- CollectionOf(ctx, name);
    var dir := Join(ctx.root, col.folder);
    if !ExistsAt(n, dir) then Ok([])
    else
      var es :- ReadDir(n, dir);
      var items :- Summaries(fm, n, dir, es);
      Ok(SortDesc(items, SummaryDate))
  }

  /** A missing folder lists nothing; otherwise the list holds exactly the folder's top-level
    * `.md` entries, each described by `Listed`, sorted by date, newest first. */
  lemma ListPostsFacts(fm: FrontMatter, n: Node, ctx: BuildContext, name: string, col: Collection)
    requires Get(ctx.config.collections, name) == Some(col)
    ensures var dir := Join(ctx.root, col.folder);
      && (!ExistsAt(n, dir) ==> ListPosts(fm, n, ctx, name) == Ok([]))
      && (ExistsAt(n, dir) && ListPosts(fm, n, ctx, name).Ok? ==>
            var es := ReadDir(n, dir).value;
            var r := ListPosts(fm, n, ctx, name).value;
            && SortedDesc(r, SummaryDate)
            && multiset(r) == multiset(Summaries(fm, n, dir, es).value)
            && |r| == |MdPaths(dir, es)|
            && (forall p :: p in MdPaths(dir, es) <==> exists j :: 0 <= j < |r| && r[j].path == p)
            && forall j :: 0 <= j < |r| ==> Listed(fm, n, dir, r[j]))
  {
    var dir := Join(ctx.root, col.folder);
    if ExistsAt(n, dir) && ListPosts(fm, n, ctx, name).Ok? {
      var items := Summaries(fm, n, dir, ReadDir(n, dir).value).value;
      SortDescSorted(items, SummaryDate);
      PermutedSummaries(fm, n, dir, items, SortDesc(items, SummaryDate));
    }
  }

  /** A permutation of described entries holds the same paths, each described. */
  lemma PermutedSummaries(fm: FrontMatter, n: Node, dir: Path, items: seq<Summary>, r: seq<Summary>)
    requires multiset(r) == multiset(items)
    requires forall i :: 0 <= i < |items| ==> Listed(fm, n, dir, items[i])
    ensures |r| == |items|
    ensures forall j :: 0 <= j < |r| ==> Listed(fm, n, dir, r[j])
    ensures forall p :: p in SummaryPaths(items) <==> exists j :: 0 <= j < |r| && r[j].path == p
  {
    var paths := SummaryPaths(items);
    assert |r| == |multiset(r)| == |items|;
    forall j | 0 <= j < |r|
      ensures Listed(fm, n, dir, r[j]) && r[j].path in paths
    {
      assert r[j] in multiset(items);
      var i :| 0 <= i < |items| && items[i] == r[j];
      assert paths[i] == r[j].path;
    }
    forall p | p in paths
      ensures exists j :: 0 <= j < |r| && r[j].path == p
    {
      var i :| 0 <= i < |paths| && paths[i] == p;
      assert items[i] in multiset(r);
      var j :| 0 <= j < |r| && r[j] == items[i];
    }
  }

  /** What `readPost` returns. */
  datatype Post = Post(slug: string, data: Record, body: string)

  /** `path.join(ctx.root, col.folder, `${slug}.md`)`. */
  function PostPath(ctx: BuildContext, col: Collection, slug: string): Path {
    Join(Join(ctx.root, col.folder), slug + ".md")
  }

  /** `readPost(ctx, slug, name)`: `None` for `null`. */
  function ReadPost(fm: FrontMatter, n: Node, ctx: BuildContext, slug: string, name: string): Result<Option<Post>> {
    var col :- CollectionOf(ctx, name);
    var file := PostPath(ctx, col, slug);
    if !ExistsAt(n, file) then Ok(None)
    else
      var raw :- ReadFile(n, file);
      var gm := fm.parse(raw);
      Ok(Some(Post(slug, gm.data, gm.content)))
  }

  /** `readPost` is `null` exactly when `<folder>/<slug>.md` does not exist, throws when it is a
    * directory, and otherwise returns the slug with the file's front matter and content. */
  lemma ReadPostFacts(fm: FrontMatter, n: Node, ctx: BuildContext, slug: string, name: string, col: Collection)
    requires Get(ctx.config.collections, name) == Some(col)
    ensures var file := PostPath(ctx, col, slug);
      var r := ReadPost(fm, n, ctx, slug, name);
      && (r.Ok? <==> !ExistsAt(n, file) || FileAt(n, file).Some?)
      && (r.Ok? ==> (r.value.None? <==> !ExistsAt(n, file)))
      && (r.Ok? && r.value.Some? ==>
            r.value.value == Post(slug, fm.parse(FileAt(n, file).value).data, fm.parse(FileAt(n, file).value).content))
  {
  }

  // ---------------------------------------------------------------------------------
  // createPost, updatePost and deletePost

  /** The optional fields of `createPost`'s `partial`. */
  datatype Draft = Draft(title: Option<string>, slug: Option<string>, date: Option<string>, body: Option<string>)

  /** `x || fallback` on an optional string: `undefined` and `""` both fall through. */
  function Or(x: Option<string>, fallback: string): (r: string)
    ensures x.Some? && x.value != "" ==> r == x.value
    ensures x.None? || x.value == "" ==> r == fallback
  {
    if x.Some? && x.value != "" then x.value else fallback
  }

  function DraftTitle(d: Draft): string {
    Or(d.title, "New Post")
  }

  /** `partial.slug || slugify(title) || `post-${Date.now()}``. */
  function NewSlug(d: Draft, clock: Clock): (r: string)
    ensures r != ""
    ensures d.slug.Some? && d.slug.value != "" ==> r == d.slug.value
    ensures (d.slug.None? || d.slug.value == "") && Utils.Slugify(DraftTitle(d)) != "" ==> r == Utils.Slugify(DraftTitle(d))
    ensures (d.slug.None? || d.slug.value == "") && Utils.Slugify(DraftTitle(d)) == "" ==>
      r == "post-" + IntToString(clock.epochMs)
  {
    Or(d.slug, Or(Some(Utils.Slugify(DraftTitle(d))), "post-" + IntToString(clock.epochMs)))
  }

  /** `partial.date || new Date().toISOString().split("T")[0]`. */
  function NewDate(d: Draft, clock: Clock): string {
    Or(d.date, BeforeFirst(clock.iso, 'T'))
  }

  /** `{ title, date, ...defaults }`: a default for `title` or `date` wins over the value given. */
  function PostData(title: string, date: string, defaults: Record): (r: Record)
    ensures r.Keys == {"title", "date"} + defaults.Keys
    ensures forall k :: k in defaults ==> r[k] == defaults[k]
    ensures "title" !in defaults ==> r["title"] == Str(title)
    ensures "date" !in defaults ==> r["date"] == Str(date)
  {
    map["title" := Str(title), "date" := Str(date)] + defaults
  }

  /** The `{ slug, file }` the write operations return. */
  datatype Created = Created(slug: string, file: Path)

  /** The file text `createPost` writes. */
  function DraftText(fm: FrontMatter, col: Collection, d: Draft, clock: Clock): string {
    fm.stringify(Or(d.body, ""), PostData(DraftTitle(d), NewDate(d, clock), Defaults(col, clock)))
  }

  /** The tree after `createPost(ctx, partial, name)` and its result. */
  function CreateSpec(fm: FrontMatter, n: Node, ctx: BuildContext, d: Draft, name: string, clock: Clock)
    : Result<(Node, Created)>
  {
    var col :- CollectionOf(ctx, name);
    var dir := Join(ctx.root, col.folder);
    var m :- MakeDirs(n, dir);
    var s := NewSlug(d, clock);
    var file := Join(dir, s + ".md");
    var t :- Put(m, file, DraftText(fm, col, d, clock));
    Ok((t, Created(s, file)))
  }

  /** `createPost(ctx, partial, name)`. */
  method CreatePost(fs: FileStore, fm: FrontMatter, ctx: BuildContext, d: Draft, name: string, clock: Clock)
    returns (r: Result<Created>)
    requires fs.Valid() && ValidContext(ctx)
    modifies fs
    ensures fs.Valid()
    ensures var spec := CreateSpec(fm, old(fs.root), ctx, d, name, clock);
      && (r.Ok? <==> spec.Ok?)
      && (r.Ok? ==> fs.root == spec.value.0 && r.value == spec.value.1)
  {
    var col :- CollectionOf(ctx, name);
    var dir := Join(ctx.root, col.folder);
    JoinValid(ctx.root, col.folder);
    var made := fs.Mkdir(dir);
    if made.Err? {
      return Err(made.error);
    }
    var title := DraftTitle(d);
    var s := NewSlug(d, clock);
    var date := NewDate(d, clock);
    var body := Or(d.body, "");
    var defaults := ApplyDefaults(col, clock);
    var data := PostData(title, date, defaults);
    var file := Join(dir, s + ".md");
    JoinValid(dir, s + ".md");
    var w := fs.WriteFile(file, fm.stringify(body, data));
    if w.Err? {
      return Err(w.error);
    }
    return Ok(Created(s, file));
  }

  /** A created post is written at `<folder>/<slug>.md` with a non-empty slug, every other file
    * is left as it was, and `readPost` of that slug returns what was written. */
  lemma CreateFacts(fm: FrontMatter, n: Node, ctx: BuildContext, d: Draft, name: string, clock: Clock, col: Collection)
    requires Wf(n) && n.Dir? && ValidContext(ctx) && Get(ctx.config.collections, name) == Some(col)
    requires CreateSpec(fm, n, ctx, d, name, clock).Ok?
    ensures var (t, c) := CreateSpec(fm, n, ctx, d, name, clock).value;
      var text := DraftText(fm, col, d, clock);
      && c.slug != "" && c.file == PostPath(ctx, col, c.slug)
      && (forall q :: FileAt(t, q) == if q == c.file then Some(text) else FileAt(n, q))
      && ReadPost(fm, t, ctx, c.slug, name) == Ok(Some(Post(c.slug, fm.parse(text).data, fm.parse(text).content)))
  {
    var dir := Join(ctx.root, col.folder);
    var m := MakeDirs(n, dir).value;
    var (t, c) := CreateSpec(fm, n, ctx, d, name, clock).value;
    var text := DraftText(fm, col, d, clock);
    forall q
      ensures FileAt(t, q) == if q == c.file then Some(text) else FileAt(n, q)
    {
      MkdirFileAt(n, dir, dir, q);
      PutFileAt(m, c.file, text, c.file, q);
    }
    assert FileAt(t, c.file) == Some(text);
  }

  /** The tree after `updatePost(ctx, slug, payload, name)` and its result. */
  function UpdateSpec(fm: FrontMatter, n: Node, ctx: BuildContext, slug: string, data: Record, body: string,
                      name: string): Result<(Node, Created)>
  {
    var col :- CollectionOf(ctx, name);
    var file := PostPath(ctx, col, slug);
    var t :- Put(n, file, fm.stringify(body, data));
    Ok((t, Created(slug, file)))
  }

  /** `updatePost(ctx, slug, payload, name)`. */
  method UpdatePost(fs: FileStore, fm: FrontMatter, ctx: BuildContext, slug: string, data: Record, body: string,
                    name: string) returns (r: Result<Created>)
    requires fs.Valid() && ValidContext(ctx)
    modifies fs
    ensures fs.Valid()
    ensures var spec := UpdateSpec(fm, old(fs.root), ctx, slug, data, body, name);
      && (r.Ok? <==> spec.Ok?)
      && (r.Ok? ==> fs.root == spec.value.0 && r.value == spec.value.1)
  {
    var col :- CollectionOf(ctx, name);
    var file := PostPath(ctx, col, slug);
    JoinValid(ctx.root, col.folder);
    JoinValid(Join(ctx.root, col.folder), slug + ".md");
    var w := fs.WriteFile(file, fm.stringify(body, data));
    if w.Err? {
      return Err(w.error);
    }
    return Ok(Created(slug, file));
  }

  /** `updatePost` writes `<folder>/<slug>.md` whether or not it existed, leaves every other
    * file as it was, and `readPost` then returns what was written. */
  lemma UpdateFacts(fm: FrontMatter, n: Node, ctx: BuildContext, slug: string, data: Record, body: string,
                    name: string, col: Collection)
    requires Wf(n) && Get(ctx.config.collections, name) == Some(col)
    requires UpdateSpec(fm, n, ctx, slug, data, body, name).Ok?
    ensures var (t, c) := UpdateSpec(fm, n, ctx, slug, data, body, name).value;
      var text := fm.stringify(body, data);
      && c == Created(slug, PostPath(ctx, col, slug))
      && (forall q :: FileAt(t, q) == if q == c.file then Some(text) else FileAt(n, q))
      && ReadPost(fm, t, ctx, slug, name) == Ok(Some(Post(slug, fm.parse(text).data, fm.parse(text).content)))
  {
    var (t, c) := UpdateSpec(fm, n, ctx, slug, data, body, name).value;
    var text := fm.stringify(body, data);
    forall q
      ensures FileAt(t, q) == if q == c.file then Some(text) else FileAt(n, q)
    {
      PutFileAt(n, c.file, text, c.file, q);
    }
    assert FileAt(t, c.file) == Some(text);
  }

  /** The tree after `deletePost(ctx, slug, name)` and its result. */
  function DeleteSpec(n: Node, ctx: BuildContext, slug: string, name: string): Result<(Node, Created)> {
    var col :- CollectionOf(ctx, name);
    var file := PostPath(ctx, col, slug);
    if !ExistsAt(n, file) then Ok((n, Created(slug, file)))
    else
      var t :- UnlinkFile(n, file);
      Ok((t, Created(slug, file)))
  }

  /** `deletePost(ctx, slug, name)`. */
  method DeletePost(fs: FileStore, ctx: BuildContext, slug: string, name: string) returns (r: Result<Created>)
    requires fs.Valid()
    modifies fs
    ensures fs.Valid()
    ensures var spec := DeleteSpec(old(fs.root), ctx, slug, name);
      && (r.Ok? <==> spec.Ok?)
      && (r.Ok? ==> fs.root == spec.value.0 && r.value == spec.value.1)
  {
    var col :- CollectionOf(ctx, name);
    var file := PostPath(ctx, col, slug);
    if ExistsAt(fs.root, file) {
      var u := fs.Unlink(file);
      if u.Err? {
        return Err(u.error);
      }
    }
    return Ok(Created(slug, file));
  }

  /** Deleting removes `<folder>/<slug>.md` and nothing else, after which `readPost` finds
    * nothing; a second delete changes nothing and returns the same `{ slug, file }`. */
  lemma DeleteFacts(fm: FrontMatter, n: Node, ctx: BuildContext, slug: string, name: string, col: Collection)
    requires Wf(n) && Get(ctx.config.collections, name) == Some(col)
    requires DeleteSpec(n, ctx, slug, name).Ok?
    ensures var (t, c) := DeleteSpec(n, ctx, slug, name).value;
      && c == Created(slug, PostPath(ctx, col, slug))
      && (forall q :: FileAt(t, q) == if q == c.file then None else FileAt(n, q))
      && ReadPost(fm, t, ctx, slug, name) == Ok(None)
      && DeleteSpec(t, ctx, slug, name) == Ok((t, c))
  {
    var file := PostPath(ctx, col, slug);
    if ExistsAt(n, file) {
      var t := UnlinkFile(n, file).value;
      UnlinkGone(n, file, file);
      forall q
        ensures FileAt(t, q) == if q == file then None else FileAt(n, q)
      {
        UnlinkFileAt(n, file, file, q);
      }
    }
  }

  /** A delete fails only when `<folder>/<slug>.md` is there but is not a regular file. */
  lemma DeleteOk(n: Node, ctx: BuildContext, slug: string, name: string, col: Collection)
    requires n.Dir? && Get(ctx.config.collections, name) == Some(col)
    ensures DeleteSpec(n, ctx, slug, name).Ok? <==>
      !ExistsAt(n, PostPath(ctx, col, slug)) || FileAt(n, PostPath(ctx, col, slug)).Some?
  {
    var file := PostPath(ctx, col, slug);
    if FileAt(n, file).Some? {
      UnlinkFileOk(n, file, file);
    } else if ExistsAt(n, file) {
      UnlinkNotFile(n, file, file);
    }
  }
}
