/**
 * The configuration of site.config.ts: one collection, `posts`, published under
 * `/markdown/<slug>/`, and two index pages over it. The lemmas instantiate the build and
 * editor models with it.
 */
module Site {
  import opened Wrappers
  import opened Text
  import opened Paths
  import opened Schema
  import Utils
  import Build
  import Editor

  /** The front-matter schema of `posts`. */
  const PostsSchema: Shape := map[
    "title" := FieldType(StringType, false),
    "date" := FieldType(StringType, true),
    "description" := FieldType(StringType, true),
    "body" := FieldType(StringType, true),
    "_slug" := FieldType(StringType, true)]

  /** The `date` default: the part of the ISO timestamp before `T`. */
  function Today(clock: Clock): Value {
    Str(BeforeFirst(clock.iso, 'T'))
  }

  const PostsDefaults: map<string, Default> := map[
    "title" := Literal(Str("New Post")),
    "date" := Generator(Today),
    "description" := Literal(Str("")),
    "body" := Literal(Str(""))]

  /** The `url` of `posts`. */
  function PostUrl(d: Doc): string {
    "/markdown/" + d.slug + "/index.html"
  }

  const Posts: Collection :=
    DefineCollection(Collection("content/posts", PostsSchema, PostUrl, "templates/base.html", Some(PostsDefaults)))

  const Indexes: seq<IndexDef> := [
    IndexDef("home", ["posts"], "index.html", "templates/base.html", Some("index")),
    IndexDef("markdownIndex", ["posts"], "markdown/index.html", "templates/base.html", Some("index"))]

  const Config: SiteConfig :=
    DefineSite(SiteConfig("WGC Markdown Editor", None, Some(true), [("posts", Posts)], Some(Indexes)))

  /** Only `title` is required, and every field is a string. */
  lemma SchemaFields()
    ensures PostsSchema.Keys == {"title", "date", "description", "body", "_slug"}
    ensures forall k :: k in PostsSchema ==> PostsSchema[k].base == StringType
    ensures forall k :: k in PostsSchema ==> (PostsSchema[k].optional <==> k != "title")
  {
  }

  /** The link of a post, `url` with its trailing `index.html` dropped, is `/markdown/<slug>/`. */
  lemma PostLink(d: Doc)
    ensures Build.LinkUrl(PostUrl(d)) == "/markdown/" + d.slug + "/"
  {
    var a := "/markdown/" + d.slug + "/";
    assert PostUrl(d) == a + "index.html";
    assert PostUrl(d)[|PostUrl(d)| - 10..] == "index.html";
    assert PostUrl(d)[..|PostUrl(d)| - 10] == a;
  }

  /** A post with a non-empty slug is written to `dist/markdown/<slug>/index.html`. */
  lemma PostOutput(ctx: BuildContext, d: Doc)
    requires Utils.IsSlug(d.slug) && d.slug != ""
    ensures Build.OutPath(ctx, PostUrl(d)) == ctx.dist + ["markdown", d.slug, "index.html"]
  {
    assert '/' !in d.slug && d.slug != "." by {
      forall k | 0 <= k < |d.slug|
        ensures d.slug[k] != '/' && d.slug[k] != '.'
      {
        assert Utils.IsSlugChar(d.slug[k]) || d.slug[k] == '-';
      }
    }
    RootedPostUrl(ctx, d);
  }

  lemma RootedPostUrl(ctx: BuildContext, d: Doc)
    requires '/' !in d.slug && d.slug != "."
    ensures Build.OutPath(ctx, PostUrl(d))
      == ctx.dist + ["markdown"] + (if d.slug == "" then [] else [d.slug]) + ["index.html"]
  {
    assert PostUrl(d) == "/" + "markdown" + "/" + d.slug + "/" + "index.html";
    JoinRooted(ctx.dist, "markdown", d.slug, "index.html");
  }

  /** A post whose slug is empty is written where the `markdownIndex` page goes, so that page
    * replaces it. */
  lemma EmptySlugOutput(ctx: BuildContext, d: Doc)
    requires d.slug == ""
    ensures Build.OutPath(ctx, PostUrl(d)) == Build.IndexOut(ctx, Indexes[1])
  {
    RootedPostUrl(ctx, d);
    MarkdownIndexOut(ctx);
  }

  /** An index at `a/b`, for two entry names, is written to `dist/a/b`. */
  lemma NestedIndexOut(ctx: BuildContext, idx: IndexDef, a: string, b: string)
    requires idx.path == a + "/" + b && ValidName(a) && ValidName(b)
    ensures Build.IndexOut(ctx, idx) == ctx.dist + [a, b]
  {
    assert idx.path[0] == a[0];
    JoinTwo(ctx.dist, a, b);
  }

  /** An index at an entry name is written to `dist/<name>`. */
  lemma FlatIndexOut(ctx: BuildContext, idx: IndexDef)
    requires ValidName(idx.path)
    ensures Build.IndexOut(ctx, idx) == ctx.dist + [idx.path]
  {
    assert idx.path[0] != '/';
    JoinName(ctx.dist, idx.path);
  }

  /** The two index pages: both over `posts` alone, with partial `index` and the layout of
    * `posts`. */
  lemma IndexPages()
    ensures Config.indexes == Some(Indexes) && |Indexes| == 2
    ensures forall i :: 0 <= i < |Indexes| ==>
      && Indexes[i].sources == ["posts"]
      && Build.PartialName(Indexes[i]) == "index"
      && Indexes[i].layout == Posts.layout
  {
  }

  /** `home` is written to `dist/index.html`. */
  lemma HomeOut(ctx: BuildContext)
    ensures Build.IndexOut(ctx, Indexes[0]) == ctx.dist + ["index.html"]
  {
    FlatIndexOut(ctx, Indexes[0]);
  }

  /** `markdownIndex` is written to `dist/markdown/index.html`. */
  lemma MarkdownIndexOut(ctx: BuildContext)
    ensures Build.IndexOut(ctx, Indexes[1]) == ctx.dist + ["markdown", "index.html"]
  {
    NestedIndexOut(ctx, Indexes[1], "markdown", "index.html");
  }

  /** Each index page lists exactly the sorted `posts` items. */
  lemma IndexItems(items: seq<(string, seq<Doc>)>, i: int)
    requires 0 <= i < |Indexes|
    ensures Build.Gather(items, Indexes[i].sources) == Get(items, "posts").GetOr([])
  {
    assert Indexes[i].sources == ["posts"];
    assert ["posts"][1..] == [];
  }

  /** The defaults of `posts` resolve to a fixed title, description and body and to today's date. */
  lemma PostsDefaultValues(clock: Clock)
    ensures Editor.Defaults(Posts, clock) ==
      map["title" := Str("New Post"), "date" := Today(clock), "description" := Str(""), "body" := Str("")]
  {
  }

  /** With this configuration `createPost` always writes the title `New Post` and today's date:
    * the defaults override the title and date it is given. */
  lemma CreatedData(d: Editor.Draft, clock: Clock)
    ensures var data := Editor.PostData(Editor.DraftTitle(d), Editor.NewDate(d, clock), Editor.Defaults(Posts, clock));
      && data.Keys == {"title", "date", "description", "body"}
      && data["title"] == Str("New Post")
      && data["date"] == Today(clock)
  {
    PostsDefaultValues(clock);
  }
}
