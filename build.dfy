/**
 * The static build of src/core/build.ts. `fullBuild` empties `dist`, copies the public
 * directory and the css/js assets, loads the template partials, renders every valid
 * markdown document of every collection through its layout, and renders the index pages.
 * Its effect is specified by functions over `State` (the file tree and the graph); the
 * methods below perform it step by step on a `FileStore` and a `Graph`.
 */
module Build {
  import opened Wrappers
  import opened Text
  import opened Paths
  import opened Store
  import opened Schema
  import opened Sorting
  import opened BuildGraph
  import Utils

  /** `schema.safeParse(input)`: the parsed record, or the issues that were logged. */
  datatype Validation = Valid(data: Record) | Invalid(issues: seq<string>)

  /** The libraries the build calls, kept uninterpreted. */
  datatype Env = Env(
    parse: string -> Matter,                              // gray-matter
    validate: (Shape, Record) -> Validation,              // z.object(col.schema).safeParse
    markdown: string -> string,                           // marked.parse
    render: (string, Context, map<string, string>) -> string,  // Mustache.render
    stripHtml: string -> string)                          // JSDOM body.textContent || ""

  /** `renderTemplate(partials[name], data, partials)`: Mustache throws on a missing template. */
  function RenderPartial(env: Env, partials: map<string, string>, name: string, data: Context): (r: Result<string>)
    ensures r.Ok? <==> name in partials
    ensures r.Ok? ==> r.value == env.render(partials[name], data, partials)
  {
    if name in partials then Ok(env.render(partials[name], data, partials)) else Err(MissingTemplate(name))
  }

  /** What the graph and the file tree hold between two steps of the build. */
  datatype State = State(tree: Node, edges: Edges, docs: map<Path, Doc>)

  // ---------------------------------------------------------------------------------
  // The template partials: loadPartials(ctx)

  /** The `.html` entries of the listing `es` of `dir`, read into `acc` under their names
    * without `.html`. */
  function PartialsFrom(n: Node, dir: Path, es: seq<Entry>, acc: map<string, string>): Result<map<string, string>>
    decreases |es|
  {
    if es == [] then Ok(acc)
    else
      var f := es[0].name;
      if EndsWith(f, ".html") then
        var text :- ReadFile(n, dir + [f]);
        PartialsFrom(n, dir, es[1..], acc[StripSuffix(f, ".html") := text])
      else PartialsFrom(n, dir, es[1..], acc)
  }

  function TemplatesDir(root: Path): Path {
    Join(root, "templates")
  }

  /** `loadPartials(ctx)`: every `<name>.html` of `<root>/templates` as partial `name`. */
  function Partials(n: Node, root: Path): Result<map<string, string>> {
    var dir := TemplatesDir(root);
    if !ExistsAt(n, dir) then Ok(map[])
    else
      var es :- ReadDir(n, dir);
      PartialsFrom(n, dir, es, map[])
  }

  // ---------------------------------------------------------------------------------
  // copyStaticAssets(ctx)

  /** `copyFileSync(srcDir/f, destDir/f)` for each name of the listing, in order. */
  function CopyFiles(n: Node, srcDir: Path, destDir: Path, es: seq<Entry>): Result<Node>
    decreases |es|
  {
    if es == [] then Ok(n)
    else
      var data :- ReadFile(n, srcDir + [es[0].name]);
      var n1 :- Put(n, destDir + [es[0].name], data);
      CopyFiles(n1, srcDir, destDir, es[1..])
  }

  /** One iteration of the loop over `["css", "js"]`. */
  function AssetDir(n: Node, srcDir: Path, destDir: Path): Result<Node> {
    if !ExistsAt(n, srcDir) then Ok(n)
    else
      var m :- MakeDirs(n, destDir);
      var es :- ReadDir(m, srcDir);
      CopyFiles(m, srcDir, destDir, es)
  }

  /** Some entry of the listing `es` has the name `name`. */
  ghost predicate Listed(es: seq<Entry>, name: string) {
    exists i :: 0 <= i < |es| && es[i].name == name
  }

  /** Two different directories never share a child path. */
  lemma ChildDistinct(a: Path, b: Path, x: string, y: string)
    requires a != b
    ensures a + [x] != b + [y]
  {
    if |a| == |b| {
      assert (a + [x])[..|a|] == a && (b + [y])[..|b|] == b;
    }
  }

  lemma ListedCons(es: seq<Entry>, x: string)
    requires es != []
    ensures Listed(es, x) <==> es[0].name == x || Listed(es[1..], x)
  {
    if Listed(es[1..], x) {
      var i :| 0 <= i < |es[1..]| && es[1..][i].name == x;
      assert es[i + 1].name == x;
    }
    if Listed(es, x) && es[0].name != x {
      var i :| 0 <= i < |es| && es[i].name == x;
      assert es[1..][i - 1].name == x;
    }
  }

  /** The copy succeeds only when every listed name is a file of `srcDir`. */
  lemma {:induction false} CopyFilesReads(n: Node, srcDir: Path, destDir: Path, es: seq<Entry>)
    requires CopyFiles(n, srcDir, destDir, es).Ok? && srcDir != destDir
    ensures forall i :: 0 <= i < |es| ==> FileAt(n, srcDir + [es[i].name]).Some?
    decreases |es|
  {
    if es != [] {
      var name := es[0].name;
      var data := FileAt(n, srcDir + [name]).value;
      var d := destDir + [name];
      var n1 := Put(n, d, data).value;
      CopyFilesReads(n1, srcDir, destDir, es[1..]);
      forall i | 0 < i < |es|
        ensures FileAt(n, srcDir + [es[i].name]).Some?
      {
        assert es[1..][i - 1] == es[i];
        ChildDistinct(srcDir, destDir, es[i].name, name);
        PutFileAt(n, d, data, d, srcDir + [es[i].name]);
      }
    }
  }

  /** A successful copy reads and writes the first name, then copies the rest. */
  lemma CopyFilesCons(n: Node, srcDir: Path, destDir: Path, es: seq<Entry>)
    requires es != [] && CopyFiles(n, srcDir, destDir, es).Ok?
    ensures var name := es[0].name;
      && FileAt(n, srcDir + [name]).Some?
      && Put(n, destDir + [name], FileAt(n, srcDir + [name]).value).Ok?
      && CopyFiles(n, srcDir, destDir, es) ==
         CopyFiles(Put(n, destDir + [name], FileAt(n, srcDir + [name]).value).value, srcDir, destDir, es[1..])
  {
  }

  /** After the copy of the listed names from `srcDir` into another directory `destDir`, each
    * listed name sits under `destDir` with the contents it has in `srcDir`; every other path is
    * as it was. */
  lemma {:induction false} CopyFilesFileAt(n: Node, srcDir: Path, destDir: Path, es: seq<Entry>, q: Path)
    requires CopyFiles(n, srcDir, destDir, es).Ok? && srcDir != destDir
    ensures FileAt(CopyFiles(n, srcDir, destDir, es).value, q) ==
      if |q| == |destDir| + 1 && q[..|destDir|] == destDir && Listed(es, q[|destDir|])
      then FileAt(n, srcDir + [q[|destDir|]]) else FileAt(n, q)
    decreases |es|
  {
    if es != [] {
      var name := es[0].name;
      var data := FileAt(n, srcDir + [name]).value;
      var d := destDir + [name];
      CopyFilesCons(n, srcDir, destDir, es);
      var n1 := Put(n, d, data).value;
      CopyFilesFileAt(n1, srcDir, destDir, es[1..], q);
      PutFileAt(n, d, data, d, q);
      if |q| == |destDir| + 1 && q[..|destDir|] == destDir {
        ChildDistinct(srcDir, destDir, q[|destDir|], name);
        PutFileAt(n, d, data, d, srcDir + [q[|destDir|]]);
      }
      CopiedAtCons(n, n1, srcDir, destDir, es, q, FileAt(CopyFiles(n1, srcDir, destDir, es[1..]).value, q));
    }
  }

  /** Copying the first name, then the rest, gives at `q` what copying all of them gives. */
  lemma CopiedAtCons(n: Node, n1: Node, srcDir: Path, destDir: Path, es: seq<Entry>, q: Path, v: Option<string>)
    requires es != []
    requires FileAt(n1, q) == if q == destDir + [es[0].name] then FileAt(n, srcDir + [es[0].name]) else FileAt(n, q)
    requires |q| == |destDir| + 1 && q[..|destDir|] == destDir ==>
      FileAt(n1, srcDir + [q[|destDir|]]) == FileAt(n, srcDir + [q[|destDir|]])
    requires v == if |q| == |destDir| + 1 && q[..|destDir|] == destDir && Listed(es[1..], q[|destDir|])
      then FileAt(n1, srcDir + [q[|destDir|]]) else FileAt(n1, q)
    ensures v == if |q| == |destDir| + 1 && q[..|destDir|] == destDir && Listed(es, q[|destDir|])
      then FileAt(n, srcDir + [q[|destDir|]]) else FileAt(n, q)
  {
    var d := destDir + [es[0].name];
    if |q| == |destDir| + 1 && q[..|destDir|] == destDir {
      assert q == destDir + [q[|destDir|]];
      ListedCons(es, q[|destDir|]);
    } else {
      assert |d| == |destDir| + 1 && d[..|destDir|] == destDir;
    }
  }

  /** After one iteration of the asset loop, the files directly in `srcDir` are under
    * `destDir` with the same contents, and every other path is as it was. */
  lemma AssetDirFileAt(n: Node, srcDir: Path, destDir: Path, q: Path)
    requires AssetDir(n, srcDir, destDir).Ok? && srcDir != destDir
    ensures FileAt(AssetDir(n, srcDir, destDir).value, q) ==
      if |q| == |destDir| + 1 && q[..|destDir|] == destDir && FileAt(n, srcDir + [q[|destDir|]]).Some?
      then FileAt(n, srcDir + [q[|destDir|]]) else FileAt(n, q)
  {
    if |q| == |destDir| + 1 && q[..|destDir|] == destDir {
      LookupConcat(n, srcDir, [q[|destDir|]]);
    }
    if ExistsAt(n, srcDir) {
      var m := MakeDirs(n, destDir).value;
      var es := ReadDir(m, srcDir).value;
      assert AssetDir(n, srcDir, destDir) == CopyFiles(m, srcDir, destDir, es);
      CopyFilesReads(m, srcDir, destDir, es);
      CopyFilesFileAt(m, srcDir, destDir, es, q);
      MkdirFileAt(n, destDir, destDir, q);
      if |q| == |destDir| + 1 && q[..|destDir|] == destDir {
        var x := q[|destDir|];
        MkdirFileAt(n, destDir, destDir, srcDir + [x]);
        LookupConcat(m, srcDir, [x]);
        if FileAt(m, srcDir + [x]).Some? {
          var i := Find(es, x).value;
          assert es[i].name == x;
        }
        if Listed(es, x) {
          var i :| 0 <= i < |es| && es[i].name == x;
        }
      }
    }
  }

  const AssetDirs: seq<string> := ["css", "js"]

  function AssetsFrom(n: Node, ctx: BuildContext, dirs: seq<string>): Result<Node>
    decreases |dirs|
  {
    if dirs == [] then Ok(n)
    else
      var n1 :- AssetDir(n, Join(TemplatesDir(ctx.root), dirs[0]), Join(ctx.dist, dirs[0]));
      AssetsFrom(n1, ctx, dirs[1..])
  }

  // ---------------------------------------------------------------------------------
  // One document: the body of the post loop

  function BaseName(file: Path): string {
    if file == [] then "" else file[|file| - 1]
  }

  /** `f.endsWith(".md")` on the joined path string. */
  predicate IsMarkdown(file: Path) {
    EndsWith(BaseName(file), ".md")
  }

  /** `walk(folder).filter(f => f.endsWith(".md"))`. */
  function MdFiles(files: seq<Path>): (r: seq<Path>)
    ensures forall f :: f in r <==> f in files && IsMarkdown(f)
    ensures |r| <= |files|
  {
    if files == [] then []
    else (if IsMarkdown(files[0]) then [files[0]] else []) + MdFiles(files[1..])
  }

  /** `slugify(path.basename(file).replace(/\.md$/, ""))`. */
  function SlugOf(file: Path): string {
    Utils.Slugify(StripSuffix(BaseName(file), ".md"))
  }

  /** `{ ...gm.data, body: gm.content.trim() }`: what is validated. */
  function ValidationInput(gm: Matter): Record {
    gm.data["body" := Str(Trim(gm.content))]
  }

  /** `doc.body || ""`. */
  function BodyOf(d: Doc): string {
    StrField(d, "body").GetOr("")
  }

  /** The document `col.url` sees: `{ ...parsed.data, _slug, _path }` with `body_html` and
    * `body_text` set. */
  function PreDoc(env: Env, data: Record, file: Path): Doc {
    var d := Doc(data - {"_slug", "_path"}, SlugOf(file), file);
    var html := env.markdown(BodyOf(d));
    Doc(d.fields["body_html" := Str(html)]["body_text" := Str(env.stripHtml(html))], d.slug, d.path)
  }

  /** `url.replace(/index\.html$/, "")`: the link to an output. */
  function LinkUrl(url: string): string {
    StripSuffix(url, "index.html")
  }

  function WithUrl(d: Doc, url: string): Doc {
    Doc(d.fields["url" := Str(LinkUrl(url))], d.slug, d.path)
  }

  /** `{ ...doc }` as template data. */
  function DocContext(d: Doc): Context {
    (map k | k in d.fields :: Scalar(d.fields[k]))["_slug" := Scalar(Str(d.slug))]["_path" := PathText(d.path)]
  }

  /** `{ ...doc, site: ctx.config }`. */
  function PostContext(d: Doc, site: SiteConfig): Context {
    DocContext(d)["site" := SiteData(site)]
  }

  /** `{ ...doc, site: ctx.config, content: postHtml }`. */
  function LayoutContext(d: Doc, site: SiteConfig, content: string): Context {
    PostContext(d, site)["content" := Scalar(Str(content))]
  }

  /** The output of a collection document: `path.join(ctx.dist, col.url(doc))`. */
  function OutPath(ctx: BuildContext, url: string): Path {
    Join(ctx.dist, url)
  }

  /** The document made from the validated front matter `data` of `file`, its link set from
    * what `col.url` returns for it. */
  function MakeDoc(env: Env, col: Collection, data: Record, file: Path): Doc {
    var pre := PreDoc(env, data, file);
    WithUrl(pre, col.url(pre))
  }

  /** Where that document's page is written. */
  function DocOut(env: Env, ctx: BuildContext, col: Collection, data: Record, file: Path): Path {
    OutPath(ctx, col.url(PreDoc(env, data, file)))
  }

  /** The page of `doc`, rendered in two stages: the `post` partial over the document, then the
    * collection's layout over the document with the result as `content`. A missing layout or
    * `post` partial is an exception. */
  function PostPage(env: Env, ctx: BuildContext, partials: map<string, string>, col: Collection,
                    tree: Node, doc: Doc): (r: Result<string>)
    ensures r.Ok? <==> FileAt(tree, Join(ctx.root, col.layout)).Some? && "post" in partials
    ensures r.Ok? ==>
      r.value == env.render(FileAt(tree, Join(ctx.root, col.layout)).value,
        LayoutContext(doc, ctx.config, env.render(partials["post"], PostContext(doc, ctx.config), partials)),
        partials)
  {
    var layout :- ReadFile(tree, Join(ctx.root, col.layout));
    var postHtml :- RenderPartial(env, partials, "post", PostContext(doc, ctx.config));
    Ok(env.render(layout, LayoutContext(doc, ctx.config, postHtml), partials))
  }

  /** The graph after a page: edges from the document and from its layout, and the document. */
  function Recorded(st: State, tree: Node, file: Path, layoutPath: Path, out: Path, doc: Doc): State {
    State(tree, WithEdge(WithEdge(st.edges, file, out), layoutPath, out), st.docs[file := doc])
  }

  /** One iteration of the post loop over `file`: the new state and the documents pushed
    * onto `colItems` (none when validation fails). */
  function FileStep(env: Env, ctx: BuildContext, partials: map<string, string>, col: Collection,
                    st: State, file: Path): Result<(State, seq<Doc>)>
  {
    var raw :- ReadFile(st.tree, file);
    match env.validate(col.schema, ValidationInput(env.parse(raw)))
    case Invalid(_) => Ok((st, []))
    case Valid(data) =>
      var doc := MakeDoc(env, col, data, file);
      var html :- PostPage(env, ctx, partials, col, st.tree, doc);
      var out := DocOut(env, ctx, col, data, file);
      var tree :- Put(st.tree, out, html);
      Ok((Recorded(st, tree, file, Join(ctx.root, col.layout), out, doc), [doc]))
  }

  /** The post loop over `files`, pushing onto `acc`. */
  function FilesPass(env: Env, ctx: BuildContext, partials: map<string, string>, col: Collection,
                     st: State, files: seq<Path>, acc: seq<Doc>): Result<(State, seq<Doc>)>
    decreases |files|
  {
    if files == [] then Ok((st, acc))
    else
      var r :- FileStep(env, ctx, partials, col, st, files[0]);
      FilesPass(env, ctx, partials, col, r.0, files[1..], acc + r.1)
  }

  /** The sort key `String(doc.date || "")`. */
  function DateKey(d: Doc): string {
    FieldText(d.fields, "date")
  }

  /** One iteration of the loop over `Object.entries(ctx.config.collections)`. */
  function CollectionStep(env: Env, ctx: BuildContext, partials: map<string, string>, st: State,
                          name: string, col: Collection, items: seq<(string, seq<Doc>)>)
    : Result<(State, seq<(string, seq<Doc>)>)>
  {
    var files :- Utils.Walked(st.tree, Join(ctx.root, col.folder));
    var r :- FilesPass(env, ctx, partials, col, st, MdFiles(files), []);
    Ok((r.0, Assign(items, name, SortDesc(r.1, DateKey))))
  }

  /** The loop over the collections, filling `itemsByCollection`. */
  function CollectionsPass(env: Env, ctx: BuildContext, partials: map<string, string>, st: State,
                           cols: seq<(string, Collection)>, items: seq<(string, seq<Doc>)>)
    : Result<(State, seq<(string, seq<Doc>)>)>
    decreases |cols|
  {
    if cols == [] then Ok((st, items))
    else
      var r :- CollectionStep(env, ctx, partials, st, cols[0].0, cols[0].1, items);
      CollectionsPass(env, ctx, partials, r.0, cols[1..], r.1)
  }

  // ---------------------------------------------------------------------------------
  // The index pages

  /** `idx.sources.flatMap(s => itemsByCollection[s] || [])`. */
  function Gather(items: seq<(string, seq<Doc>)>, sources: seq<string>): seq<Doc> {
    if sources == [] then [] else Get(items, sources[0]).GetOr([]) + Gather(items, sources[1..])
  }

  /** `Object.values(itemsByCollection)`, flattened. */
  function AllDocs(items: seq<(string, seq<Doc>)>): seq<Doc> {
    if items == [] then [] else items[0].1 + AllDocs(items[1..])
  }

  function DocPaths(docs: seq<Doc>): (r: seq<Path>)
    ensures |r| == |docs| && forall i :: 0 <= i < |docs| ==> r[i] == docs[i].path
  {
    if docs == [] then [] else [docs[0].path] + DocPaths(docs[1..])
  }

  /** `idx.partial || "index"`: an empty partial name also falls back. */
  function PartialName(idx: IndexDef): (r: string)
    ensures idx.partial.Some? && idx.partial.value != "" ==> r == idx.partial.value
    ensures idx.partial.None? || idx.partial.value == "" ==> r == "index"
  {
    if idx.partial.Some? && idx.partial.value != "" then idx.partial.value else "index"
  }

  /** `{ items, site: ctx.config }`. */
  function IndexContext(docs: seq<Doc>, site: SiteConfig): Context {
    map["items" := Items(docs), "site" := SiteData(site)]
  }

  /** `{ site: ctx.config, content: indexHtml }`: the index layout sees nothing else. */
  function PageContext(site: SiteConfig, content: string): (r: Context)
    ensures r.Keys == {"site", "content"}
    ensures r["site"] == SiteData(site) && r["content"] == Scalar(Str(content))
  {
    map["site" := SiteData(site), "content" := Scalar(Str(content))]
  }

  /** `path.join(ctx.dist, idx.path.replace(/^\//, ""))`. */
  function IndexOut(ctx: BuildContext, idx: IndexDef): Path {
    Join(ctx.dist, StripPrefix(idx.path, "/"))
  }

  /** The page of index `idx`, rendered in two stages with the partials read afresh: its partial
    * over the gathered items, then its layout with the result as `content`. A missing layout,
    * templates listing or partial is an exception. */
  function IndexPage(env: Env, ctx: BuildContext, items: seq<(string, seq<Doc>)>, tree: Node, idx: IndexDef)
    : (r: Result<string>)
    ensures r.Ok? <==>
      && FileAt(tree, Join(ctx.root, idx.layout)).Some?
      && Partials(tree, ctx.root).Ok? && PartialName(idx) in Partials(tree, ctx.root).value
    ensures r.Ok? ==>
      var partials2 := Partials(tree, ctx.root).value;
      r.value == env.render(FileAt(tree, Join(ctx.root, idx.layout)).value,
        PageContext(ctx.config,
          env.render(partials2[PartialName(idx)], IndexContext(Gather(items, idx.sources), ctx.config), partials2)),
        partials2)
  {
    var layout :- ReadFile(tree, Join(ctx.root, idx.layout));
    var partials2 :- Partials(tree, ctx.root);
    var indexHtml :- RenderPartial(env, partials2, PartialName(idx), IndexContext(Gather(items, idx.sources), ctx.config));
    Ok(env.render(layout, PageContext(ctx.config, indexHtml), partials2))
  }

  /** One iteration of the loop over `ctx.config.indexes || []`. */
  function IndexStep(env: Env, ctx: BuildContext, items: seq<(string, seq<Doc>)>, st: State, idx: IndexDef)
    : Result<State>
  {
    var html :- IndexPage(env, ctx, items, st.tree, idx);
    var out := IndexOut(ctx, idx);
    var tree :- Put(st.tree, out, html);
    var edges := WithEdges(WithEdge(st.edges, Join(ctx.root, idx.layout), out), DocPaths(AllDocs(items)), out);
    Ok(State(tree, edges, st.docs))
  }

  function IndexesPass(env: Env, ctx: BuildContext, items: seq<(string, seq<Doc>)>, st: State, idxs: seq<IndexDef>)
    : Result<State>
    decreases |idxs|
  {
    if idxs == [] then Ok(st)
    else
      var st1 :- IndexStep(env, ctx, items, st, idxs[0]);
      IndexesPass(env, ctx, items, st1, idxs[1..])
  }

  // ---------------------------------------------------------------------------------
  // fullBuild(ctx)

  /** The tree once `dist` is emptied and the public files and assets are copied. */
  function Prepared(n: Node, ctx: BuildContext): Result<Node> {
    var n1 :- RemoveAll(n, ctx.dist);
    var n2 :- MakeDirs(n1, ctx.dist);
    var n3 :- Utils.CopyDirSpec(n2, ctx.publicDir, ctx.dist);
    AssetsFrom(n3, ctx, AssetDirs)
  }

  /** The state and `itemsByCollection` after the post loop. */
  function Collected(env: Env, ctx: BuildContext, n: Node): Result<(State, seq<(string, seq<Doc>)>)> {
    var n4 :- Prepared(n, ctx);
    var partials :- Partials(n4, ctx.root);
    CollectionsPass(env, ctx, partials, State(n4, map[], map[]), ctx.config.collections, [])
  }

  /** `fullBuild(ctx)`: the file tree and the graph it leaves, or the exception it raises. */
  function FullBuildSpec(env: Env, ctx: BuildContext, n: Node): Result<State> {
    var r :- Collected(env, ctx, n);
    IndexesPass(env, ctx, r.1, r.0, ctx.config.indexes.GetOr([]))
  }

  // ---------------------------------------------------------------------------------
  // Properties of the build

  /** `body || ""` on a validated record. */
  function BodyText(data: Record): string {
    if "body" in data && data["body"].Str? then data["body"].s else ""
  }

  /** A rendered document carries its file's slug and path, the validated front matter, the
    * rendered body, and the link to its page. */
  lemma DocFields(env: Env, col: Collection, data: Record, file: Path)
    ensures var d := MakeDoc(env, col, data, file);
      var html := env.markdown(BodyText(data));
      && d.slug == SlugOf(file) && Utils.IsSlug(d.slug) && d.path == file
      && d.fields == (data - {"_slug", "_path"})["body_html" := Str(html)]["body_text" := Str(env.stripHtml(html))]
                       ["url" := Str(LinkUrl(col.url(PreDoc(env, data, file))))]
  {
    PreDocFields(env, data, file);
  }

  /** The document `col.url` sees: the validated front matter with the rendered body added. */
  lemma PreDocFields(env: Env, data: Record, file: Path)
    ensures var pre := PreDoc(env, data, file);
      var html := env.markdown(BodyText(data));
      && pre.slug == SlugOf(file) && pre.path == file
      && pre.fields == (data - {"_slug", "_path"})["body_html" := Str(html)]["body_text" := Str(env.stripHtml(html))]
  {
    BodyOfFrontMatter(data, SlugOf(file), file);
  }

  /** Dropping `_slug` and `_path` keeps the body. */
  lemma BodyOfFrontMatter(data: Record, slug: string, file: Path)
    ensures BodyOf(Doc(data - {"_slug", "_path"}, slug, file)) == BodyText(data)
  {
    var f := data - {"_slug", "_path"};
    assert "body" != "_slug" && "body" != "_path";
    assert ("body" in f <==> "body" in data) && ("body" in f ==> f["body"] == data["body"]);
  }

  /** A document that fails validation is skipped: nothing is written or recorded. */
  lemma FileStepInvalid(env: Env, ctx: BuildContext, partials: map<string, string>, col: Collection,
                        st: State, file: Path)
    requires FileAt(st.tree, file).Some?
    requires env.validate(col.schema, ValidationInput(env.parse(FileAt(st.tree, file).value))).Invalid?
    ensures FileStep(env, ctx, partials, col, st, file) == Ok((st, []))
  {
  }

  /** A valid document's page is the one file written, and the document is collected and
    * recorded under its path. */
  lemma FileStepPage(env: Env, ctx: BuildContext, partials: map<string, string>, col: Collection,
                     st: State, file: Path, data: Record)
    requires FileAt(st.tree, file).Some?
    requires env.validate(col.schema, ValidationInput(env.parse(FileAt(st.tree, file).value))) == Valid(data)
    requires FileStep(env, ctx, partials, col, st, file).Ok?
    ensures var r := FileStep(env, ctx, partials, col, st, file).value;
      var doc := MakeDoc(env, col, data, file);
      var page := PostPage(env, ctx, partials, col, st.tree, doc);
      && r.1 == [doc] && r.0.docs == st.docs[file := doc] && page.Ok?
      && forall q :: FileAt(r.0.tree, q) == if q == DocOut(env, ctx, col, data, file) then Some(page.value) else FileAt(st.tree, q)
  {
    var out := DocOut(env, ctx, col, data, file);
    FileStepValue(env, ctx, partials, col, st, file, data);
    var html := PostPage(env, ctx, partials, col, st.tree, MakeDoc(env, col, data, file)).value;
    forall q {
      PutFileAt(st.tree, out, html, out, q);
    }
  }

  /** A valid document and its layout each gain exactly the edge to the document's page. */
  lemma FileStepEdges(env: Env, ctx: BuildContext, partials: map<string, string>, col: Collection,
                      st: State, file: Path, data: Record)
    requires FileAt(st.tree, file).Some?
    requires env.validate(col.schema, ValidationInput(env.parse(FileAt(st.tree, file).value))) == Valid(data)
    requires FileStep(env, ctx, partials, col, st, file).Ok?
    ensures var r := FileStep(env, ctx, partials, col, st, file).value;
      forall k :: Targets(r.0.edges, k) ==
        Targets(st.edges, k) + (if k == file || k == Join(ctx.root, col.layout) then {DocOut(env, ctx, col, data, file)} else {})
  {
    FileStepValue(env, ctx, partials, col, st, file, data);
  }

  /** The step over a valid document whose page renders and is written. */
  lemma FileStepValue(env: Env, ctx: BuildContext, partials: map<string, string>, col: Collection,
                      st: State, file: Path, data: Record)
    requires FileAt(st.tree, file).Some?
    requires env.validate(col.schema, ValidationInput(env.parse(FileAt(st.tree, file).value))) == Valid(data)
    requires FileStep(env, ctx, partials, col, st, file).Ok?
    ensures var doc := MakeDoc(env, col, data, file);
      var page := PostPage(env, ctx, partials, col, st.tree, doc);
      var out := DocOut(env, ctx, col, data, file);
      && page.Ok? && Put(st.tree, out, page.value).Ok?
      && FileStep(env, ctx, partials, col, st, file)
         == Ok((Recorded(st, Put(st.tree, out, page.value).value, file, Join(ctx.root, col.layout), out, doc), [doc]))
  {
    var raw := FileAt(st.tree, file).value;
    var doc := MakeDoc(env, col, data, file);
    var page := PostPage(env, ctx, partials, col, st.tree, doc);
    var out := DocOut(env, ctx, col, data, file);
    assert ReadFile(st.tree, file) == Ok(raw);
    assert page.Ok? && Put(st.tree, out, page.value).Ok?;
    FileStepOk(env, ctx, partials, col, st, file, raw, data, page.value, Put(st.tree, out, page.value).value);
  }

  /** A valid document: its page is the one file written; the document and the layout each
    * gain exactly the edge to the page; the document is collected and recorded under its path. */
  lemma FileStepValid(env: Env, ctx: BuildContext, partials: map<string, string>, col: Collection,
                      st: State, file: Path, data: Record)
    requires FileAt(st.tree, file).Some?
    requires env.validate(col.schema, ValidationInput(env.parse(FileAt(st.tree, file).value))) == Valid(data)
    requires FileStep(env, ctx, partials, col, st, file).Ok?
    ensures var r := FileStep(env, ctx, partials, col, st, file).value;
      var doc := MakeDoc(env, col, data, file);
      var out := DocOut(env, ctx, col, data, file);
      var page := PostPage(env, ctx, partials, col, st.tree, doc);
      && r.1 == [doc]
      && r.0.docs == st.docs[file := doc]
      && page.Ok?
      && (forall q :: FileAt(r.0.tree, q) == if q == out then Some(page.value) else FileAt(st.tree, q))
      && (forall k :: Targets(r.0.edges, k) ==
            Targets(st.edges, k) + (if k == file || k == Join(ctx.root, col.layout) then {out} else {}))
  {
    FileStepPage(env, ctx, partials, col, st, file, data);
    FileStepEdges(env, ctx, partials, col, st, file, data);
  }

  /** One step of the post loop only adds; a collected document is the one made from the
    * front matter the file held, which the schema accepted, and it is recorded with both edges
    * to its page. */
  lemma FileStepGrows(env: Env, ctx: BuildContext, partials: map<string, string>, col: Collection,
                      st: State, file: Path)
    requires FileStep(env, ctx, partials, col, st, file).Ok?
    ensures FileAt(st.tree, file).Some?
    ensures var r := FileStep(env, ctx, partials, col, st, file).value;
      && Grows(st.edges, r.0.edges) && st.docs.Keys <= r.0.docs.Keys
      && |r.1| <= 1
      && (r.1 != [] ==> && r.1[0].path == file && InGraph(env, ctx, col, r.0, r.1[0])
                        && exists data :: Posted(env, ctx, col, r.0, r.1[0], FileAt(st.tree, file).value, data))
  {
    var raw := FileAt(st.tree, file).value;
    match env.validate(col.schema, ValidationInput(env.parse(raw))) {
      case Invalid(_) =>
        assert FileStep(env, ctx, partials, col, st, file) == Ok((st, []));
      case Valid(data) =>
        FileStepValue(env, ctx, partials, col, st, file, data);
        var doc := MakeDoc(env, col, data, file);
        var page := PostPage(env, ctx, partials, col, st.tree, doc).value;
        var out := DocOut(env, ctx, col, data, file);
        RecordedPosted(env, ctx, col, st, Put(st.tree, out, page).value, file, raw, data);
    }
  }

  /** A document keeps the path of its file and takes its slug from it. */
  lemma MakeDocOrigin(env: Env, col: Collection, data: Record, file: Path)
    ensures MakeDoc(env, col, data, file).path == file && MakeDoc(env, col, data, file).slug == SlugOf(file)
  {
  }

  /** Recording a valid document adds its two edges, so the document is posted and in the graph,
    * and the graph only grows. */
  lemma RecordedPosted(env: Env, ctx: BuildContext, col: Collection, st: State, tree: Node, file: Path,
                       raw: string, data: Record)
    requires env.validate(col.schema, ValidationInput(env.parse(raw))) == Valid(data)
    ensures var doc := MakeDoc(env, col, data, file);
      var s2 := Recorded(st, tree, file, Join(ctx.root, col.layout), DocOut(env, ctx, col, data, file), doc);
      && doc.path == file
      && Posted(env, ctx, col, s2, doc, raw, data) && InGraph(env, ctx, col, s2, doc)
      && Grows(st.edges, s2.edges) && st.docs.Keys <= s2.docs.Keys
  {
    var doc := MakeDoc(env, col, data, file);
    var layout := Join(ctx.root, col.layout);
    var out := DocOut(env, ctx, col, data, file);
    MakeDocOrigin(env, col, data, file);
    TwoEdges(st.edges, file, layout, out);
    var s2 := Recorded(st, tree, file, layout, out, doc);
    assert s2.edges == WithEdge(WithEdge(st.edges, file, out), layout, out) && s2.docs == st.docs[file := doc];
    assert Posted(env, ctx, col, s2, doc, raw, data);
  }

  /** The edges from a document and from its layout to the same page. */
  lemma TwoEdges(e: Edges, file: Path, layout: Path, out: Path)
    ensures var e2 := WithEdge(WithEdge(e, file, out), layout, out);
      out in Targets(e2, file) && out in Targets(e2, layout) && Grows(e, e2)
  {
    var e1 := WithEdge(e, file, out);
    var e2 := WithEdge(e1, layout, out);
    assert out in Targets(e1, file);
    forall k
      ensures Targets(e, k) <= Targets(e2, k)
    {
      assert Targets(e, k) <= Targets(e1, k);
    }
  }

  /** The document `d` is the one made from the front matter `data`, which the collection's
    * schema accepted for the file text `raw`; the document's file and the collection's layout
    * each have an edge to its page. */
  ghost predicate Posted(env: Env, ctx: BuildContext, col: Collection, st: State, d: Doc,
                         raw: string, data: Record) {
    && env.validate(col.schema, ValidationInput(env.parse(raw))) == Valid(data)
    && d == MakeDoc(env, col, data, d.path)
    && DocOut(env, ctx, col, data, d.path) in Targets(st.edges, d.path)
    && DocOut(env, ctx, col, data, d.path) in Targets(st.edges, Join(ctx.root, col.layout))
  }

  /** The document `d` of collection `col` carries its file's slug, is recorded in the graph of
    * `st`, and was posted from front matter that passed validation. */
  ghost predicate InGraph(env: Env, ctx: BuildContext, col: Collection, st: State, d: Doc) {
    && d.slug == SlugOf(d.path) && d.path in st.docs
    && exists raw, data :: Posted(env, ctx, col, st, d, raw, data)
  }

  /** Adding edges and recorded documents keeps a document in the graph. */
  lemma InGraphLater(env: Env, ctx: BuildContext, col: Collection, st: State, st2: State, d: Doc)
    requires InGraph(env, ctx, col, st, d)
    requires st.docs.Keys <= st2.docs.Keys && Grows(st.edges, st2.edges)
    ensures InGraph(env, ctx, col, st2, d)
  {
    var raw, data :| Posted(env, ctx, col, st, d, raw, data);
    var out := DocOut(env, ctx, col, data, d.path);
    assert out in Targets(st2.edges, d.path) && out in Targets(st2.edges, Join(ctx.root, col.layout));
    assert Posted(env, ctx, col, st2, d, raw, data);
  }

  /** The post loop only adds edges and recorded documents. */
  lemma {:induction false} FilesPassGrows(env: Env, ctx: BuildContext, partials: map<string, string>,
                                          col: Collection, st: State, files: seq<Path>, acc: seq<Doc>)
    requires FilesPass(env, ctx, partials, col, st, files, acc).Ok?
    ensures var r := FilesPass(env, ctx, partials, col, st, files, acc).value;
      Grows(st.edges, r.0.edges) && st.docs.Keys <= r.0.docs.Keys
    decreases |files|
  {
    if files != [] {
      var s := FileStep(env, ctx, partials, col, st, files[0]).value;
      FileStepGrows(env, ctx, partials, col, st, files[0]);
      FilesPassGrows(env, ctx, partials, col, s.0, files[1..], acc + s.1);
    }
  }

  /** A sequence that starts with `a + b` starts with `a`. */
  lemma PrefixOfPrefix(r: seq<Doc>, a: seq<Doc>, b: seq<Doc>)
    requires |a + b| <= |r| && r[..|a + b|] == a + b
    ensures |a| <= |r| && r[..|a|] == a
  {
    assert r[..|a|] == r[..|a + b|][..|a|] == (a + b)[..|a|];
  }

  /** The post loop keeps what was collected before it. */
  lemma {:induction false} FilesPassKeeps(env: Env, ctx: BuildContext, partials: map<string, string>,
                                          col: Collection, st: State, files: seq<Path>, acc: seq<Doc>)
    requires FilesPass(env, ctx, partials, col, st, files, acc).Ok?
    ensures var r := FilesPass(env, ctx, partials, col, st, files, acc).value;
      |acc| <= |r.1| && r.1[..|acc|] == acc
    decreases |files|
  {
    if files != [] {
      var s := FileStep(env, ctx, partials, col, st, files[0]).value;
      FilesPassKeeps(env, ctx, partials, col, s.0, files[1..], acc + s.1);
      var r := FilesPass(env, ctx, partials, col, s.0, files[1..], acc + s.1).value;
      assert FilesPass(env, ctx, partials, col, st, files, acc).value == r;
      PrefixOfPrefix(r.1, acc, s.1);
    }
  }

  /** The documents the post loop collects come from its files and are in the graph, each
    * posted from validated front matter with both edges to its page. */
  lemma {:induction false} FilesPassCollects(env: Env, ctx: BuildContext, partials: map<string, string>,
                                             col: Collection, st: State, files: seq<Path>, acc: seq<Doc>)
    requires FilesPass(env, ctx, partials, col, st, files, acc).Ok?
    ensures var r := FilesPass(env, ctx, partials, col, st, files, acc).value;
      && (forall i :: |acc| <= i < |r.1| ==> r.1[i].path in files)
      && (forall i :: |acc| <= i < |r.1| ==> InGraph(env, ctx, col, r.0, r.1[i]))
    decreases |files|
  {
    if files != [] {
      var s := FileStep(env, ctx, partials, col, st, files[0]).value;
      FileStepGrows(env, ctx, partials, col, st, files[0]);
      FilesPassGrows(env, ctx, partials, col, s.0, files[1..], acc + s.1);
      FilesPassKeeps(env, ctx, partials, col, s.0, files[1..], acc + s.1);
      FilesPassCollects(env, ctx, partials, col, s.0, files[1..], acc + s.1);
      var r := FilesPass(env, ctx, partials, col, s.0, files[1..], acc + s.1).value;
      assert FilesPass(env, ctx, partials, col, st, files, acc).value == r;
      if s.1 != [] {
        assert r.1[|acc|] == r.1[..|acc + s.1|][|acc|] == (acc + s.1)[|acc|];
      }
      CollectedPaths(files, acc, s.1, r.1);
      CollectedInGraph(env, ctx, col, acc, s.0, s.1, r.0, r.1);
    }
  }

  /** The files of the documents collected after the first file: that file, then the rest. */
  lemma CollectedPaths(files: seq<Path>, acc: seq<Doc>, s1: seq<Doc>, docs: seq<Doc>)
    requires files != [] && |s1| <= 1 && |acc| + |s1| <= |docs|
    requires s1 != [] ==> docs[|acc|] == s1[0] && s1[0].path == files[0]
    requires forall i :: |acc| + |s1| <= i < |docs| ==> docs[i].path in files[1..]
    ensures forall i :: |acc| <= i < |docs| ==> docs[i].path in files
  {
    assert forall q :: q in files[1..] ==> q in files;
  }

  /** The documents collected after the first file are in the final graph: the one from that
    * file because the rest of the loop only adds. */
  lemma CollectedInGraph(env: Env, ctx: BuildContext, col: Collection, acc: seq<Doc>,
                         st1: State, s1: seq<Doc>, st2: State, docs: seq<Doc>)
    requires |s1| <= 1 && |acc| + |s1| <= |docs|
    requires s1 != [] ==> docs[|acc|] == s1[0] && InGraph(env, ctx, col, st1, s1[0])
    requires st1.docs.Keys <= st2.docs.Keys && Grows(st1.edges, st2.edges)
    requires forall i :: |acc| + |s1| <= i < |docs| ==> InGraph(env, ctx, col, st2, docs[i])
    ensures forall i :: |acc| <= i < |docs| ==> InGraph(env, ctx, col, st2, docs[i])
  {
    forall i | |acc| <= i < |docs|
      ensures InGraph(env, ctx, col, st2, docs[i])
    {
      if i < |acc| + |s1| {
        assert i == |acc| && docs[i] == s1[0];
        InGraphLater(env, ctx, col, st1, st2, s1[0]);
      }
    }
  }

  /** The items of every collection are in descending date order. */
  ghost predicate AllSorted(items: seq<(string, seq<Doc>)>) {
    forall i :: 0 <= i < |items| ==> SortedDesc(items[i].1, DateKey)
  }

  /** A collection's items are stored under its name: the documents its post loop collected,
    * permuted into descending date order; every other name keeps its items. */
  lemma CollectionStepItems(env: Env, ctx: BuildContext, partials: map<string, string>, st: State,
                            name: string, col: Collection, items: seq<(string, seq<Doc>)>)
    requires CollectionStep(env, ctx, partials, st, name, col, items).Ok?
    ensures Utils.Walked(st.tree, Join(ctx.root, col.folder)).Ok?
    ensures var files := Utils.Walked(st.tree, Join(ctx.root, col.folder)).value;
      var pass := FilesPass(env, ctx, partials, col, st, MdFiles(files), []);
      var r := CollectionStep(env, ctx, partials, st, name, col, items).value;
      && pass.Ok? && r.0 == pass.value.0
      && Get(r.1, name).Some?
      && SortedDesc(Get(r.1, name).value, DateKey)
      && multiset(Get(r.1, name).value) == multiset(pass.value.1)
      && (forall k :: k != name ==> Get(r.1, k) == Get(items, k))
      && (AllSorted(items) ==> AllSorted(r.1))
  {
    var files := Utils.Walked(st.tree, Join(ctx.root, col.folder)).value;
    var pass := FilesPass(env, ctx, partials, col, st, MdFiles(files), []);
    var sorted := SortDesc(pass.value.1, DateKey);
    SortDescSorted(pass.value.1, DateKey);
    var r := Assign(items, name, sorted);
    if AllSorted(items) {
      forall i | 0 <= i < |r|
        ensures SortedDesc(r[i].1, DateKey)
      {
        if r[i] != (name, sorted) {
          var j :| 0 <= j < |items| && items[j] == r[i];
        }
      }
    }
  }

  /** The collections loop keeps every collection's items sorted, only adds edges, and leaves
    * items under the name of every collection. */
  lemma {:induction false} CollectionsPassFacts(env: Env, ctx: BuildContext, partials: map<string, string>,
                                                st: State, cols: seq<(string, Collection)>,
                                                items: seq<(string, seq<Doc>)>)
    requires CollectionsPass(env, ctx, partials, st, cols, items).Ok? && AllSorted(items)
    ensures var r := CollectionsPass(env, ctx, partials, st, cols, items).value;
      && AllSorted(r.1) && Grows(st.edges, r.0.edges) && st.docs.Keys <= r.0.docs.Keys
      && forall k :: Get(cols, k).Some? || Get(items, k).Some? ==> Get(r.1, k).Some?
    decreases |cols|
  {
    if cols != [] {
      var s := CollectionStep(env, ctx, partials, st, cols[0].0, cols[0].1, items).value;
      CollectionStepItems(env, ctx, partials, st, cols[0].0, cols[0].1, items);
      var files := Utils.Walked(st.tree, Join(ctx.root, cols[0].1.folder)).value;
      FilesPassGrows(env, ctx, partials, cols[0].1, st, MdFiles(files), []);
      CollectionsPassFacts(env, ctx, partials, s.0, cols[1..], s.1);
      var r := CollectionsPass(env, ctx, partials, st, cols, items).value;
      forall k | Get(cols, k).Some? || Get(items, k).Some?
        ensures Get(r.1, k).Some?
      {
        if k != cols[0].0 && Get(cols, k).Some? {
          var i :| 0 <= i < |cols| && cols[i].0 == k;
          assert cols[1..][i - 1].0 == k;
        }
      }
    }
  }

  /** `d` is a document of collection `col` in the graph of `st`: the source of a markdown file
    * below the collection's folder, in the graph with both edges to its page. */
  ghost predicate Collects(env: Env, ctx: BuildContext, col: Collection, st: State, d: Doc) {
    && IsMarkdown(d.path) && |d.path| > |Join(ctx.root, col.folder)|
    && d.path[..|Join(ctx.root, col.folder)|] == Join(ctx.root, col.folder)
    && InGraph(env, ctx, col, st, d)
  }

  /** The paths a walk of `dir` lists lie strictly below `dir`. */
  lemma WalkedUnder(n: Node, dir: Path)
    requires Utils.Walked(n, dir).Ok?
    ensures forall q :: q in Utils.Walked(n, dir).value ==> |q| > |dir| && q[..|dir|] == dir
  {
    if Lookup(n, dir).Some? && Lookup(n, dir).value.Dir? {
      Utils.FilesInUnder(Lookup(n, dir).value.entries, dir);
    }
  }

  /** Documents of the markdown files below a collection's folder that are in the graph are
    * documents of the collection. */
  lemma DocsCollected(env: Env, ctx: BuildContext, col: Collection, st: State, files: seq<Path>, docs: seq<Doc>)
    requires forall q :: q in files ==> |q| > |Join(ctx.root, col.folder)| && q[..|Join(ctx.root, col.folder)|] == Join(ctx.root, col.folder)
    requires forall i :: 0 <= i < |docs| ==> docs[i].path in MdFiles(files) && InGraph(env, ctx, col, st, docs[i])
    ensures forall d :: d in docs ==> Collects(env, ctx, col, st, d)
  {
  }

  /** Every item a collection step stores under the collection's name is a document of that
    * collection. */
  lemma CollectionStepCollects(env: Env, ctx: BuildContext, partials: map<string, string>, st: State,
                               name: string, col: Collection, items: seq<(string, seq<Doc>)>)
    requires CollectionStep(env, ctx, partials, st, name, col, items).Ok?
    ensures var r := CollectionStep(env, ctx, partials, st, name, col, items).value;
      && Get(r.1, name).Some?
      && forall d :: d in Get(r.1, name).value ==> Collects(env, ctx, col, r.0, d)
  {
    CollectionStepItems(env, ctx, partials, st, name, col, items);
    var files := Utils.Walked(st.tree, Join(ctx.root, col.folder)).value;
    var pass := FilesPass(env, ctx, partials, col, st, MdFiles(files), []).value;
    var r := CollectionStep(env, ctx, partials, st, name, col, items).value;
    WalkedUnder(st.tree, Join(ctx.root, col.folder));
    FilesPassCollects(env, ctx, partials, col, st, MdFiles(files), []);
    DocsCollected(env, ctx, col, r.0, files, pass.1);
    forall d | d in Get(r.1, name).value
      ensures d in pass.1
    {
      assert d in multiset(pass.1);
    }
  }

  /** The collections loop only adds edges and recorded documents. */
  lemma {:induction false} CollectionsPassGrows(env: Env, ctx: BuildContext, partials: map<string, string>,
                                                st: State, cols: seq<(string, Collection)>,
                                                items: seq<(string, seq<Doc>)>)
    requires CollectionsPass(env, ctx, partials, st, cols, items).Ok?
    ensures var r := CollectionsPass(env, ctx, partials, st, cols, items).value;
      Grows(st.edges, r.0.edges) && st.docs.Keys <= r.0.docs.Keys
    decreases |cols|
  {
    if cols != [] {
      var s := CollectionStep(env, ctx, partials, st, cols[0].0, cols[0].1, items).value;
      CollectionStepItems(env, ctx, partials, st, cols[0].0, cols[0].1, items);
      var files := Utils.Walked(st.tree, Join(ctx.root, cols[0].1.folder)).value;
      FilesPassGrows(env, ctx, partials, cols[0].1, st, MdFiles(files), []);
      CollectionsPassGrows(env, ctx, partials, s.0, cols[1..], s.1);
      var r := CollectionsPass(env, ctx, partials, st, cols, items).value;
      GrowsTrans(st.edges, s.0.edges, r.0.edges);
    }
  }

  /** Every item of `after` under a name was already in `before` under it, or is a document of
    * a collection of that name among `cols`, in the graph of `st`. */
  ghost predicate ItemsFrom(env: Env, ctx: BuildContext, cols: seq<(string, Collection)>, st: State,
                            before: seq<(string, seq<Doc>)>, after: seq<(string, seq<Doc>)>) {
    forall k, d :: Get(after, k).Some? && d in Get(after, k).value ==>
      || (Get(before, k).Some? && d in Get(before, k).value)
      || exists i :: 0 <= i < |cols| && cols[i].0 == k && Collects(env, ctx, cols[i].1, st, d)
  }

  /** The origins of the items after one more collection in front of the loop. */
  lemma ItemsFromCons(env: Env, ctx: BuildContext, cols: seq<(string, Collection)>, st: State, st2: State,
                      items: seq<(string, seq<Doc>)>, mid: seq<(string, seq<Doc>)>, after: seq<(string, seq<Doc>)>)
    requires cols != []
    requires Get(mid, cols[0].0).Some? && forall d :: d in Get(mid, cols[0].0).value ==> Collects(env, ctx, cols[0].1, st, d)
    requires forall k :: k != cols[0].0 ==> Get(mid, k) == Get(items, k)
    requires st.docs.Keys <= st2.docs.Keys && Grows(st.edges, st2.edges)
    requires ItemsFrom(env, ctx, cols[1..], st2, mid, after)
    ensures ItemsFrom(env, ctx, cols, st2, items, after)
  {
    forall k, d | Get(after, k).Some? && d in Get(after, k).value
      ensures || (Get(items, k).Some? && d in Get(items, k).value)
              || exists i :: 0 <= i < |cols| && cols[i].0 == k && Collects(env, ctx, cols[i].1, st2, d)
    {
      if Get(mid, k).Some? && d in Get(mid, k).value {
        if k == cols[0].0 {
          InGraphLater(env, ctx, cols[0].1, st, st2, d);
          assert Collects(env, ctx, cols[0].1, st2, d);
        }
      } else {
        var i :| 0 <= i < |cols[1..]| && cols[1..][i].0 == k && Collects(env, ctx, cols[1..][i].1, st2, d);
        assert cols[i + 1] == cols[1..][i];
      }
    }
  }

  /** Every item the collections loop leaves under a name was there before it, or is a document
    * of a collection of that name, in the graph the loop ends with. */
  lemma {:induction false} CollectionsPassOrigins(env: Env, ctx: BuildContext, partials: map<string, string>,
                                                  st: State, cols: seq<(string, Collection)>,
                                                  items: seq<(string, seq<Doc>)>)
    requires CollectionsPass(env, ctx, partials, st, cols, items).Ok?
    ensures ItemsFrom(env, ctx, cols, CollectionsPass(env, ctx, partials, st, cols, items).value.0,
                      items, CollectionsPass(env, ctx, partials, st, cols, items).value.1)
    decreases |cols|
  {
    var r := CollectionsPass(env, ctx, partials, st, cols, items).value;
    if cols != [] {
      var s := CollectionStep(env, ctx, partials, st, cols[0].0, cols[0].1, items).value;
      CollectionStepItems(env, ctx, partials, st, cols[0].0, cols[0].1, items);
      CollectionStepCollects(env, ctx, partials, st, cols[0].0, cols[0].1, items);
      CollectionsPassGrows(env, ctx, partials, s.0, cols[1..], s.1);
      CollectionsPassOrigins(env, ctx, partials, s.0, cols[1..], s.1);
      ItemsFromCons(env, ctx, cols, s.0, r.0, items, s.1, r.1);
    }
  }

  /** A document is gathered for an index exactly when it is among the items of one of the
    * index's sources; a source without items contributes nothing. */
  lemma {:induction false} GatherMembers(items: seq<(string, seq<Doc>)>, sources: seq<string>, d: Doc)
    ensures d in Gather(items, sources) <==>
      exists s :: s in sources && Get(items, s).Some? && d in Get(items, s).value
  {
    if sources != [] {
      GatherMembers(items, sources[1..], d);
      var first := Get(items, sources[0]).GetOr([]);
      assert Gather(items, sources) == first + Gather(items, sources[1..]);
      assert d in first <==> Get(items, sources[0]).Some? && d in Get(items, sources[0]).value;
      assert forall s :: s in sources <==> s == sources[0] || s in sources[1..];
    }
  }

  /** Removing a leading `/` from an index path changes nothing, since `path.join` already
    * ignores it. */
  lemma IndexOutJoin(ctx: BuildContext, idx: IndexDef)
    ensures IndexOut(ctx, idx) == Join(ctx.dist, idx.path)
  {
    if StartsWith(idx.path, "/") {
      SegmentsLeadingSlash(StripPrefix(idx.path, "/"));
    }
  }

  /** An index page is the one file written, and the documents stay as they were. */
  lemma IndexStepPage(env: Env, ctx: BuildContext, items: seq<(string, seq<Doc>)>, st: State, idx: IndexDef)
    requires IndexStep(env, ctx, items, st, idx).Ok?
    ensures var st1 := IndexStep(env, ctx, items, st, idx).value;
      var page := IndexPage(env, ctx, items, st.tree, idx);
      && page.Ok? && st1.docs == st.docs
      && forall q :: FileAt(st1.tree, q) == if q == IndexOut(ctx, idx) then Some(page.value) else FileAt(st.tree, q)
  {
    var out := IndexOut(ctx, idx);
    var html := IndexPage(env, ctx, items, st.tree, idx).value;
    forall q {
      PutFileAt(st.tree, out, html, out, q);
    }
  }

  /** An index page's layout and every collected document gain exactly the edge to it. */
  lemma IndexStepEdges(env: Env, ctx: BuildContext, items: seq<(string, seq<Doc>)>, st: State, idx: IndexDef)
    requires IndexStep(env, ctx, items, st, idx).Ok?
    ensures var st1 := IndexStep(env, ctx, items, st, idx).value;
      forall k :: Targets(st1.edges, k) ==
        Targets(st.edges, k) + (if k == Join(ctx.root, idx.layout) || k in DocPaths(AllDocs(items)) then {IndexOut(ctx, idx)} else {})
  {
    WithEdgesExact(WithEdge(st.edges, Join(ctx.root, idx.layout), IndexOut(ctx, idx)), DocPaths(AllDocs(items)), IndexOut(ctx, idx));
  }

  /** The page of `idx` has an edge from its layout and from every document of `docs`. */
  ghost predicate PageLinked(e: Edges, ctx: BuildContext, docs: seq<Doc>, idx: IndexDef) {
    && IndexOut(ctx, idx) in Targets(e, Join(ctx.root, idx.layout))
    && forall j :: 0 <= j < |docs| ==> IndexOut(ctx, idx) in Targets(e, docs[j].path)
  }

  lemma PageLinkedGrows(e: Edges, e2: Edges, ctx: BuildContext, docs: seq<Doc>, idx: IndexDef)
    requires PageLinked(e, ctx, docs, idx) && Grows(e, e2)
    ensures PageLinked(e2, ctx, docs, idx)
  {
  }

  /** One index step links its page and only adds edges. */
  lemma IndexStepLinked(env: Env, ctx: BuildContext, items: seq<(string, seq<Doc>)>, st: State, idx: IndexDef)
    requires IndexStep(env, ctx, items, st, idx).Ok?
    ensures var st1 := IndexStep(env, ctx, items, st, idx).value;
      Grows(st.edges, st1.edges) && st1.docs == st.docs && PageLinked(st1.edges, ctx, AllDocs(items), idx)
  {
    var st1 := IndexStep(env, ctx, items, st, idx).value;
    IndexStepPage(env, ctx, items, st, idx);
    IndexStepEdges(env, ctx, items, st, idx);
    forall j | 0 <= j < |AllDocs(items)|
      ensures IndexOut(ctx, idx) in Targets(st1.edges, AllDocs(items)[j].path)
    {
      assert DocPaths(AllDocs(items))[j] == AllDocs(items)[j].path;
    }
  }

  /** After the index loop every index page has an edge from its layout and from every
    * collected document; edges are only added and the documents stay as they were. */
  lemma {:induction false} IndexesPassEdges(env: Env, ctx: BuildContext, items: seq<(string, seq<Doc>)>,
                                            st: State, idxs: seq<IndexDef>)
    requires IndexesPass(env, ctx, items, st, idxs).Ok?
    ensures var st1 := IndexesPass(env, ctx, items, st, idxs).value;
      && Grows(st.edges, st1.edges) && st1.docs == st.docs
      && forall i :: 0 <= i < |idxs| ==> PageLinked(st1.edges, ctx, AllDocs(items), idxs[i])
    decreases |idxs|
  {
    if idxs != [] {
      var s := IndexStep(env, ctx, items, st, idxs[0]).value;
      IndexStepLinked(env, ctx, items, st, idxs[0]);
      IndexesPassEdges(env, ctx, items, s, idxs[1..]);
      var st1 := IndexesPass(env, ctx, items, s, idxs[1..]).value;
      PageLinkedGrows(s.edges, st1.edges, ctx, AllDocs(items), idxs[0]);
      forall i | 0 < i < |idxs|
        ensures PageLinked(st1.edges, ctx, AllDocs(items), idxs[i])
      {
        assert idxs[i] == idxs[1..][i - 1];
      }
    }
  }

  /** `k + ".html"` and `f` name the same partial exactly when `f` is `k + ".html"`. */
  lemma HtmlName(f: string, k: string)
    requires EndsWith(f, ".html")
    ensures StripSuffix(f, ".html") == k <==> f == k + ".html"
  {
    var key := StripSuffix(f, ".html");
    if f == k + ".html" {
      assert key == f[..|key|] == k;
    }
  }

  lemma {:induction false} PartialsFromFacts(n: Node, dir: Path, es: seq<Entry>, acc: map<string, string>, k: string)
    requires PartialsFrom(n, dir, es, acc).Ok?
    ensures var m := PartialsFrom(n, dir, es, acc).value;
      && (k in m <==> k in acc || Find(es, k + ".html").Some?)
      && (k in m && Find(es, k + ".html").Some? ==> FileAt(n, dir + [k + ".html"]) == Some(m[k]))
      && (k in m && Find(es, k + ".html").None? ==> m[k] == acc[k])
    decreases |es|
  {
    if es != [] {
      var f := es[0].name;
      assert (k + ".html")[|k|..] == ".html";
      if EndsWith(f, ".html") {
        HtmlName(f, k);
        var text := ReadFile(n, dir + [f]).value;
        PartialsFromFacts(n, dir, es[1..], acc[StripSuffix(f, ".html") := text], k);
      } else {
        PartialsFromFacts(n, dir, es[1..], acc, k);
      }
    }
  }

  /** `loadPartials`: partial `k` exists exactly when `templates/<k>.html` is a file, and it
    * holds that file's contents; with no templates directory there are no partials. */
  lemma PartialsExact(n: Node, root: Path, k: string)
    requires Partials(n, root).Ok?
    ensures var m := Partials(n, root).value;
      var file := TemplatesDir(root) + [k + ".html"];
      && (!ExistsAt(n, TemplatesDir(root)) ==> m == map[])
      && (k in m <==> FileAt(n, file).Some?)
      && (k in m ==> FileAt(n, file) == Some(m[k]))
  {
    var dir := TemplatesDir(root);
    LookupConcat(n, dir, [k + ".html"]);
    if ExistsAt(n, dir) {
      var es := ReadDir(n, dir).value;
      PartialsFromFacts(n, dir, es, map[], k);
    }
  }

  /** After `rmSync` and `mkdirSync`, `dist` is an empty directory and nothing outside it changed. */
  lemma CleanDist(n: Node, dist: Path)
    requires Wf(n) && RemoveAll(n, dist).Ok? && MakeDirs(RemoveAll(n, dist).value, dist).Ok?
    ensures var m := MakeDirs(RemoveAll(n, dist).value, dist).value;
      && IsDirAt(m, dist)
      && forall q :: FileAt(m, q) == if IsPrefix(dist, q) then None else FileAt(n, q)
  {
    var n1 := RemoveAll(n, dist).value;
    var m := MakeDirs(n1, dist).value;
    MkdirIsDir(n1, dist, dist);
    forall q
      ensures FileAt(m, q) == if IsPrefix(dist, q) then None else FileAt(n, q)
    {
      RemoveTreeFileAt(n, dist, dist, q);
      MkdirFileAt(n1, dist, dist, q);
    }
  }

  /** The built site: every collection's items are sorted, the index pass only adds edges, and
    * every index page has an edge from its layout and from every document of every collection. */
  lemma FullBuildEdges(env: Env, ctx: BuildContext, n: Node)
    requires FullBuildSpec(env, ctx, n).Ok?
    ensures Collected(env, ctx, n).Ok?
    ensures var c := Collected(env, ctx, n).value;
      var st := FullBuildSpec(env, ctx, n).value;
      var idxs := ctx.config.indexes.GetOr([]);
      && AllSorted(c.1)
      && (forall k :: Get(ctx.config.collections, k).Some? ==> Get(c.1, k).Some?)
      && Grows(c.0.edges, st.edges) && st.docs == c.0.docs
      && forall i :: 0 <= i < |idxs| ==> PageLinked(st.edges, ctx, AllDocs(c.1), idxs[i])
  {
    var n4 := Prepared(n, ctx).value;
    var partials := Partials(n4, ctx.root).value;
    CollectionsPassFacts(env, ctx, partials, State(n4, map[], map[]), ctx.config.collections, []);
    var c := Collected(env, ctx, n).value;
    IndexesPassEdges(env, ctx, c.1, c.0, ctx.config.indexes.GetOr([]));
  }

  /** The built site: every item of every collection is the document of a markdown file below
    * the folder of a configured collection of that name, whose front matter passed validation;
    * it is recorded in the final graph, and its file and that collection's layout each have an
    * edge to its page. */
  lemma FullBuildCollects(env: Env, ctx: BuildContext, n: Node)
    requires FullBuildSpec(env, ctx, n).Ok?
    ensures Collected(env, ctx, n).Ok?
    ensures var c := Collected(env, ctx, n).value;
      var st := FullBuildSpec(env, ctx, n).value;
      var cols := ctx.config.collections;
      forall k, d :: Get(c.1, k).Some? && d in Get(c.1, k).value ==>
        exists i :: 0 <= i < |cols| && cols[i].0 == k && Collects(env, ctx, cols[i].1, st, d)
  {
    FullBuildEdges(env, ctx, n);
    var n4 := Prepared(n, ctx).value;
    var partials := Partials(n4, ctx.root).value;
    var cols := ctx.config.collections;
    CollectionsPassOrigins(env, ctx, partials, State(n4, map[], map[]), cols, []);
    var c := Collected(env, ctx, n).value;
    var st := FullBuildSpec(env, ctx, n).value;
    forall k, d | Get(c.1, k).Some? && d in Get(c.1, k).value
      ensures exists i :: 0 <= i < |cols| && cols[i].0 == k && Collects(env, ctx, cols[i].1, st, d)
    {
      var i :| 0 <= i < |cols| && cols[i].0 == k && Collects(env, ctx, cols[i].1, c.0, d);
      InGraphLater(env, ctx, cols[i].1, c.0, st, d);
    }
  }

  lemma {:induction false} DocPathsAppend(a: seq<Doc>, b: seq<Doc>)
    ensures DocPaths(a + b) == DocPaths(a) + DocPaths(b)
  {
    if a == [] {
      assert a + b == b;
    } else {
      assert (a + b)[1..] == a[1..] + b;
      DocPathsAppend(a[1..], b);
    }
  }

  lemma {:induction false} AllDocsAppend(a: seq<(string, seq<Doc>)>, b: seq<(string, seq<Doc>)>)
    ensures AllDocs(a + b) == AllDocs(a) + AllDocs(b)
  {
    if a == [] {
      assert a + b == b;
    } else {
      assert (a + b)[1..] == a[1..] + b;
      AllDocsAppend(a[1..], b);
    }
  }

  // ---------------------------------------------------------------------------------
  // The build, step by step on the file system and the graph

  /** `loadPartials(ctx)`. */
  method LoadPartials(fs: FileStore, root: Path) returns (r: Result<map<string, string>>)
    ensures r == Partials(fs.root, root)
  {
    var dir := TemplatesDir(root);
    if !ExistsAt(fs.root, dir) {
      return Ok(map[]);
    }
    var es :- ReadDir(fs.root, dir);
    var partials: map<string, string> := map[];
    var i := 0;
    while i < |es|
      invariant 0 <= i <= |es|
      invariant Partials(fs.root, root) == PartialsFrom(fs.root, dir, es[i..], partials)
    {
      var f := es[i].name;
      assert es[i..][1..] == es[i + 1..];
      if EndsWith(f, ".html") {
        var text :- ReadFile(fs.root, dir + [f]);
        partials := partials[StripSuffix(f, ".html") := text];
      }
      i := i + 1;
    }
    return Ok(partials);
  }

  /** The entries of a listing in a well-formed tree have names `path.join` keeps whole. */
  lemma ListingNames(n: Node, dir: Path, es: seq<Entry>, destDir: Path)
    requires Wf(n) && Lookup(n, dir) == Some(Dir(es)) && ValidPath(destDir)
    ensures forall j :: 0 <= j < |es| ==> ValidPath(destDir + [es[j].name])
  {
    WfLookup(n, dir);
  }

  /** The inner loop of `copyStaticAssets`: each listed file copied from `srcDir` to
    * `destDir` in listing order. */
  method CopyEntries(fs: FileStore, srcDir: Path, destDir: Path, es: seq<Entry>) returns (r: Result<()>)
    requires fs.Valid() && forall j :: 0 <= j < |es| ==> ValidPath(destDir + [es[j].name])
    modifies fs
    ensures fs.Valid()
    ensures r.Ok? <==> CopyFiles(old(fs.root), srcDir, destDir, es).Ok?
    ensures r.Ok? ==> fs.root == CopyFiles(old(fs.root), srcDir, destDir, es).value
  {
    ghost var spec := CopyFiles(fs.root, srcDir, destDir, es);
    var j := 0;
    while j < |es|
      invariant 0 <= j <= |es| && fs.Valid()
      invariant spec == CopyFiles(fs.root, srcDir, destDir, es[j..])
    {
      assert es[j..][1..] == es[j + 1..];
      var data :- ReadFile(fs.root, srcDir + [es[j].name]);
      var w := fs.WriteFile(destDir + [es[j].name], data);
      if w.Err? {
        return Err(w.error);
      }
      j := j + 1;
    }
    return Ok(());
  }

  /** One iteration of the loop over the asset directories. */
  method CopyAssetDir(fs: FileStore, srcDir: Path, destDir: Path) returns (r: Result<()>)
    requires fs.Valid() && ValidPath(destDir)
    modifies fs
    ensures fs.Valid()
    ensures r.Ok? <==> AssetDir(old(fs.root), srcDir, destDir).Ok?
    ensures r.Ok? ==> fs.root == AssetDir(old(fs.root), srcDir, destDir).value
  {
    if ExistsAt(fs.root, srcDir) {
      var made := fs.Mkdir(destDir);
      if made.Err? {
        return Err(made.error);
      }
      var es :- ReadDir(fs.root, srcDir);
      ListingNames(fs.root, srcDir, es, destDir);
      r := CopyEntries(fs, srcDir, destDir, es);
    } else {
      r := Ok(());
    }
  }

  /** `copyStaticAssets(ctx)`. */
  method CopyStaticAssets(fs: FileStore, ctx: BuildContext) returns (r: Result<()>)
    requires fs.Valid() && ValidContext(ctx)
    modifies fs
    ensures fs.Valid()
    ensures r.Ok? <==> AssetsFrom(old(fs.root), ctx, AssetDirs).Ok?
    ensures r.Ok? ==> fs.root == AssetsFrom(old(fs.root), ctx, AssetDirs).value
  {
    var dirs := AssetDirs;
    ghost var spec := AssetsFrom(fs.root, ctx, dirs);
    var i := 0;
    while i < |dirs|
      invariant 0 <= i <= |dirs| && fs.Valid()
      invariant spec == AssetsFrom(fs.root, ctx, dirs[i..])
    {
      assert dirs[i..][1..] == dirs[i + 1..];
      JoinValid(ctx.dist, dirs[i]);
      var done := CopyAssetDir(fs, Join(TemplatesDir(ctx.root), dirs[i]), Join(ctx.dist, dirs[i]));
      if done.Err? {
        return Err(done.error);
      }
      i := i + 1;
    }
    return Ok(());
  }

  /** The value of a step whose every stage succeeds. */
  lemma FileStepOk(env: Env, ctx: BuildContext, partials: map<string, string>, col: Collection,
                   st: State, file: Path, raw: string, data: Record, html: string, tree: Node)
    requires ReadFile(st.tree, file) == Ok(raw)
    requires env.validate(col.schema, ValidationInput(env.parse(raw))) == Valid(data)
    requires PostPage(env, ctx, partials, col, st.tree, MakeDoc(env, col, data, file)) == Ok(html)
    requires Put(st.tree, DocOut(env, ctx, col, data, file), html) == Ok(tree)
    ensures FileStep(env, ctx, partials, col, st, file) == Ok((Recorded(st, tree, file, Join(ctx.root, col.layout),
      DocOut(env, ctx, col, data, file), MakeDoc(env, col, data, file)), [MakeDoc(env, col, data, file)]))
  {
  }

  /** Writes a post's page and records the document and its two edges. */
  method Record(fs: FileStore, g: Graph, file: Path, layoutPath: Path, out: Path, html: string, doc: Doc)
    returns (r: Result<()>)
    requires fs.Valid() && ValidPath(out)
    modifies fs, g
    ensures fs.Valid()
    ensures r.Ok? <==> Put(old(fs.root), out, html).Ok?
    ensures r.Ok? ==> State(fs.root, g.edges, g.docs) == Recorded(State(old(fs.root), old(g.edges), old(g.docs)),
      Put(old(fs.root), out, html).value, file, layoutPath, out, doc)
  {
    r := fs.WriteFile(out, html);
    if r.Err? {
      return;
    }
    AddEdge(g, file, out);
    AddEdge(g, layoutPath, out);
    g.docs := g.docs[file := doc];
  }

  /** The body of the post loop for `file`: read, validate, render, write and record. */
  method ProcessFile(fs: FileStore, g: Graph, env: Env, ctx: BuildContext, partials: map<string, string>,
                     col: Collection, file: Path) returns (r: Result<seq<Doc>>)
    requires fs.Valid() && ValidContext(ctx)
    modifies fs, g
    ensures fs.Valid()
    ensures var spec := FileStep(env, ctx, partials, col, State(old(fs.root), old(g.edges), old(g.docs)), file);
      && (r.Ok? <==> spec.Ok?)
      && (r.Ok? ==> State(fs.root, g.edges, g.docs) == spec.value.0 && r.value == spec.value.1)
  {
    ghost var st := State(fs.root, g.edges, g.docs);
    var raw :- ReadFile(fs.root, file);
    match env.validate(col.schema, ValidationInput(env.parse(raw)))
    case Invalid(_) =>
      // The issues go to the console.
      return Ok([]);
    case Valid(data) =>
      var doc := MakeDoc(env, col, data, file);
      var html :- PostPage(env, ctx, partials, col, fs.root, doc);
      var out := DocOut(env, ctx, col, data, file);
      JoinValid(ctx.dist, col.url(PreDoc(env, data, file)));
      ghost var tree := Put(fs.root, out, html);
      var w := Record(fs, g, file, Join(ctx.root, col.layout), out, html, doc);
      if w.Err? {
        return Err(w.error);
      }
      FileStepOk(env, ctx, partials, col, st, file, raw, data, html, tree.value);
      return Ok([doc]);
  }

  /** One iteration of the collections loop: the post loop over the collection's markdown files,
    * then its items sorted by date under its name. */
  method ProcessCollection(fs: FileStore, g: Graph, env: Env, ctx: BuildContext, partials: map<string, string>,
                           name: string, col: Collection, items: seq<(string, seq<Doc>)>)
    returns (r: Result<seq<(string, seq<Doc>)>>)
    requires fs.Valid() && ValidContext(ctx)
    modifies fs, g
    ensures fs.Valid()
    ensures var spec := CollectionStep(env, ctx, partials, State(old(fs.root), old(g.edges), old(g.docs)), name, col, items);
      && (r.Ok? <==> spec.Ok?)
      && (r.Ok? ==> State(fs.root, g.edges, g.docs) == spec.value.0 && r.value == spec.value.1)
  {
    JoinValid(ctx.root, col.folder);
    var walked :- Utils.Walk(fs, Join(ctx.root, col.folder));
    var files := MdFiles(walked);
    ghost var spec := FilesPass(env, ctx, partials, col, State(fs.root, g.edges, g.docs), files, []);
    var colItems: seq<Doc> := [];
    var i := 0;
    while i < |files|
      invariant 0 <= i <= |files| && fs.Valid()
      invariant spec == FilesPass(env, ctx, partials, col, State(fs.root, g.edges, g.docs), files[i..], colItems)
    {
      assert files[i..][1..] == files[i + 1..];
      var ds :- ProcessFile(fs, g, env, ctx, partials, col, files[i]);
      colItems := colItems + ds;
      i := i + 1;
    }
    return Ok(Assign(items, name, SortDesc(colItems, DateKey)));
  }

  /** One iteration of the index loop: render and write the page, then add its edges. */
  method ProcessIndex(fs: FileStore, g: Graph, env: Env, ctx: BuildContext, items: seq<(string, seq<Doc>)>,
                      idx: IndexDef) returns (r: Result<()>)
    requires fs.Valid() && ValidContext(ctx)
    modifies fs, g
    ensures fs.Valid()
    ensures var spec := IndexStep(env, ctx, items, State(old(fs.root), old(g.edges), old(g.docs)), idx);
      && (r.Ok? <==> spec.Ok?)
      && (r.Ok? ==> State(fs.root, g.edges, g.docs) == spec.value)
  {
    var docs := Gather(items, idx.sources);
    var layoutPath := Join(ctx.root, idx.layout);
    var layout :- ReadFile(fs.root, layoutPath);
    var partials2 :- LoadPartials(fs, ctx.root);
    var indexHtml :- RenderPartial(env, partials2, PartialName(idx), IndexContext(docs, ctx.config));
    var html := env.render(layout, PageContext(ctx.config, indexHtml), partials2);
    assert IndexPage(env, ctx, items, fs.root, idx) == Ok(html);
    var out := IndexOut(ctx, idx);
    JoinValid(ctx.dist, StripPrefix(idx.path, "/"));
    var w := fs.WriteFile(out, html);
    if w.Err? {
      return Err(w.error);
    }
    AddEdge(g, layoutPath, out);
    AddDocEdges(g, items, out);
    return Ok(());
  }

  /** `for (const d of docs) addEdge(g, d._path, out)`. */
  method AddEdges(g: Graph, docs: seq<Doc>, out: Path)
    modifies g
    ensures g.edges == WithEdges(old(g.edges), DocPaths(docs), out) && g.docs == old(g.docs)
  {
    ghost var e0 := g.edges;
    assert docs[..0] == [];
    var j := 0;
    while j < |docs|
      invariant 0 <= j <= |docs|
      invariant g.edges == WithEdges(e0, DocPaths(docs[..j]), out) && g.docs == old(g.docs)
    {
      ghost var before := DocPaths(docs[..j]);
      AddEdge(g, docs[j].path, out);
      assert docs[..j + 1] == docs[..j] + [docs[j]];
      DocPathsAppend(docs[..j], [docs[j]]);
      WithEdgesAppend(e0, before, [docs[j].path], out);
      assert DocPaths([docs[j]]) == [docs[j].path];
      assert WithEdges(WithEdges(e0, before, out), [docs[j].path], out)
        == WithEdge(WithEdges(e0, before, out), docs[j].path, out);
      j := j + 1;
    }
    assert docs[..j] == docs;
  }

  /** The edges from the documents of the first `i + 1` collections: those of the first `i`,
    * then those of collection `i`. */
  lemma AllDocsStep(e0: Edges, items: seq<(string, seq<Doc>)>, i: nat, out: Path)
    requires i < |items|
    ensures WithEdges(WithEdges(e0, DocPaths(AllDocs(items[..i])), out), DocPaths(items[i].1), out)
            == WithEdges(e0, DocPaths(AllDocs(items[..i + 1])), out)
  {
    assert items[..i + 1] == items[..i] + [items[i]];
    AllDocsAppend(items[..i], [items[i]]);
    assert AllDocs([items[i]]) == items[i].1;
    DocPathsAppend(AllDocs(items[..i]), items[i].1);
    WithEdgesAppend(e0, DocPaths(AllDocs(items[..i])), DocPaths(items[i].1), out);
  }

  /** The edges from every document of every collection to an index page. */
  method AddDocEdges(g: Graph, items: seq<(string, seq<Doc>)>, out: Path)
    modifies g
    ensures g.edges == WithEdges(old(g.edges), DocPaths(AllDocs(items)), out) && g.docs == old(g.docs)
  {
    ghost var e0 := g.edges;
    var i := 0;
    while i < |items|
      invariant 0 <= i <= |items|
      invariant g.edges == WithEdges(e0, DocPaths(AllDocs(items[..i])), out) && g.docs == old(g.docs)
    {
      AddEdges(g, items[i].1, out);
      AllDocsStep(e0, items, i, out);
      i := i + 1;
    }
    assert items[..i] == items;
  }

  /** The first steps of `fullBuild`: `dist` emptied and recreated, then the public files and
    * the assets copied into it. */
  method PrepareDist(fs: FileStore, ctx: BuildContext) returns (r: Result<()>)
    requires fs.Valid() && ValidContext(ctx)
    modifies fs
    ensures fs.Valid()
    ensures r.Ok? <==> Prepared(old(fs.root), ctx).Ok?
    ensures r.Ok? ==> fs.root == Prepared(old(fs.root), ctx).value
  {
    var removed := fs.RemoveTree(ctx.dist);
    if removed.Err? {
      return Err(removed.error);
    }
    var made := fs.Mkdir(ctx.dist);
    if made.Err? {
      return Err(made.error);
    }
    var copied := Utils.CopyDir(fs, ctx.publicDir, ctx.dist);
    if copied.Err? {
      return Err(copied.error);
    }
    r := CopyStaticAssets(fs, ctx);
  }

  /** `fullBuild(ctx)`: the graph it returns, with the file system left as the build leaves it. */
  method FullBuild(fs: FileStore, env: Env, ctx: BuildContext) returns (r: Result<Graph>)
    requires fs.Valid() && ValidContext(ctx)
    modifies fs
    ensures fs.Valid()
    ensures var spec := FullBuildSpec(env, ctx, old(fs.root));
      && (r.Ok? <==> spec.Ok?)
      && (r.Ok? ==> fresh(r.value) && State(fs.root, r.value.edges, r.value.docs) == spec.value)
  {
    var graph := new Graph();
    ghost var n0 := fs.root;
    var prepared := PrepareDist(fs, ctx);
    if prepared.Err? {
      return Err(prepared.error);
    }
    var partials :- LoadPartials(fs, ctx.root);

    var cols := ctx.config.collections;
    var items: seq<(string, seq<Doc>)> := [];
    ghost var collected := CollectionsPass(env, ctx, partials, State(fs.root, graph.edges, graph.docs), cols, []);
    assert collected == Collected(env, ctx, n0);
    var i := 0;
    while i < |cols|
      invariant 0 <= i <= |cols| && fs.Valid() && fresh(graph)
      invariant collected == CollectionsPass(env, ctx, partials, State(fs.root, graph.edges, graph.docs), cols[i..], items)
    {
      assert cols[i..][1..] == cols[i + 1..];
      items :- ProcessCollection(fs, graph, env, ctx, partials, cols[i].0, cols[i].1, items);
      i := i + 1;
    }

    var idxs := ctx.config.indexes.GetOr([]);
    ghost var built := IndexesPass(env, ctx, items, State(fs.root, graph.edges, graph.docs), idxs);
    assert built == FullBuildSpec(env, ctx, n0);
    var k := 0;
    while k < |idxs|
      invariant 0 <= k <= |idxs| && fs.Valid() && fresh(graph)
      invariant built == IndexesPass(env, ctx, items, State(fs.root, graph.edges, graph.docs), idxs[k..])
    {
      assert idxs[k..][1..] == idxs[k + 1..];
      var done :- ProcessIndex(fs, graph, env, ctx, items, idxs[k]);
      k := k + 1;
    }
    return Ok(graph);
  }

  /** The watcher `watchAndBuild` returns, with the graph of the latest build that completed. */
  class Watcher {
    var graph: Graph
    const env: Env
    const ctx: BuildContext

    constructor (env: Env, ctx: BuildContext, graph: Graph)
      ensures this.env == env && this.ctx == ctx && this.graph == graph
    {
      this.env := env;
      this.ctx := ctx;
      this.graph := graph;
    }

    /** The `"all"` handler: a full rebuild. A build that throws leaves the previous graph. */
    method OnChange(fs: FileStore) returns (r: Result<()>)
      requires fs.Valid() && ValidContext(ctx)
      modifies this, fs
      ensures fs.Valid()
      ensures var spec := FullBuildSpec(env, ctx, old(fs.root));
        && (r.Ok? <==> spec.Ok?)
        && (r.Ok? ==> fresh(graph) && State(fs.root, graph.edges, graph.docs) == spec.value)
        && (r.Err? ==> graph == old(graph))
    {
      var built := FullBuild(fs, env, ctx);
      if built.Err? {
        return Err(built.error);
      }
      graph := built.value;
      r := Ok(());
    }
  }

  /** `watchAndBuild(ctx)`: the initial build, then the watcher. */
  method WatchAndBuild(fs: FileStore, env: Env, ctx: BuildContext) returns (r: Result<Watcher>)
    requires fs.Valid() && ValidContext(ctx)
    modifies fs
    ensures fs.Valid()
    ensures var spec := FullBuildSpec(env, ctx, old(fs.root));
      && (r.Ok? <==> spec.Ok?)
      && (r.Ok? ==> fresh(r.value) && fresh(r.value.graph) && r.value.env == env && r.value.ctx == ctx
                    && State(fs.root, r.value.graph.edges, r.value.graph.docs) == spec.value)
  {
    var graph :- FullBuild(fs, env, ctx);
    var w := new Watcher(env, ctx, graph);
    return Ok(w);
  }
}
