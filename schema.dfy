/**
 * The data model of src/core/schema.ts: documents, collections, index pages, the site
 * configuration and the build context, plus the JavaScript values they carry.
 */
module Schema {
  import opened Wrappers
  import opened Text
  import opened Paths

  /** A front-matter or record value: a string, an integer or a boolean. */
  datatype Value = Str(s: string) | Num(n: int) | Bool(b: bool)

  /** A JavaScript object with string keys, such as a document's front matter. */
  type Record = map<string, Value>

  /** JavaScript truthiness of a value. */
  predicate Truthy(v: Value) {
    match v
    case Str(s) => s != ""
    case Num(n) => n != 0
    case Bool(b) => b
  }

  /** `String(v)`. */
  function ToText(v: Value): string {
    match v
    case Str(s) => s
    case Num(n) => IntToString(n)
    case Bool(b) => if b then "true" else "false"
  }

  /** `String(r[k] || "")`: the text of a field, "" when it is missing or falsy. */
  function FieldText(r: Record, k: string): (t: string)
    ensures k !in r ==> t == ""
    ensures k in r && r[k].Str? ==> t == r[k].s
  {
    if k in r && Truthy(r[k]) then ToText(r[k]) else ""
  }

  /** A parsed markdown document (`Doc`): `_slug` and `_path` are always present; `body`,
    * `body_html`, `body_text`, `url` and any front-matter keys live in `fields`. */
  datatype Doc = Doc(fields: Record, slug: string, path: Path)

  /** The optional string fields of a `Doc`. */
  function StrField(d: Doc, k: string): Option<string> {
    if k in d.fields && d.fields[k].Str? then Some(d.fields[k].s) else None
  }

  /** A zod field type of a collection's front-matter schema. */
  datatype BaseType = StringType | NumberType | BooleanType
  datatype FieldType = FieldType(base: BaseType, optional: bool)
  type Shape = map<string, FieldType>

  /** The clock a default generator reads: `Date.now()` and `new Date().toISOString()`. */
  datatype Clock = Clock(epochMs: int, iso: string)

  /** A collection default: a literal, or a zero-argument generator of one. */
  datatype Default = Literal(v: Value) | Generator(gen: Clock -> Value)

  datatype Collection = Collection(
    folder: string,
    schema: Shape,
    url: Doc -> string,
    layout: string,
    defaults: Option<map<string, Default>>)

  datatype IndexDef = IndexDef(
    name: string,
    sources: seq<string>,
    path: string,
    layout: string,
    partial: Option<string>)

  /** `collections` is a JavaScript object: its entries in insertion order. */
  datatype SiteConfig = SiteConfig(
    title: string,
    languages: Option<seq<string>>,
    editor: Option<bool>,
    collections: seq<(string, Collection)>,
    indexes: Option<seq<IndexDef>>)

  datatype BuildContext = BuildContext(
    root: Path,
    dist: Path,
    publicDir: Path,
    templatesDir: Path,
    config: SiteConfig)

  /** The paths of a context are component lists `path.join` can produce. */
  predicate ValidContext(ctx: BuildContext) {
    ValidPath(ctx.root) && ValidPath(ctx.dist) && ValidPath(ctx.publicDir) && ValidPath(ctx.templatesDir)
  }

  /** `defineSite(cfg)` (src/core/schema.ts). */
  function DefineSite(cfg: SiteConfig): (r: SiteConfig)
    ensures r == cfg
  {
    cfg
  }

  /** `defineCollection(col)` (src/core/schema.ts). */
  function DefineCollection(col: Collection): (r: Collection)
    ensures r == col
  {
    col
  }

  /** `record[name]` on a JavaScript object given as its entries: the first entry with the key. */
  function Get<V>(entries: seq<(string, V)>, name: string): (r: Option<V>)
    ensures r.Some? <==> exists i :: 0 <= i < |entries| && entries[i].0 == name
    ensures r.Some? ==> exists i :: 0 <= i < |entries| && entries[i] == (name, r.value)
  {
    if entries == [] then None
    else if entries[0].0 == name then Some(entries[0].1)
    else
      var r := Get(entries[1..], name);
      assert forall i :: 0 <= i < |entries[1..]| ==> entries[1..][i] == entries[i + 1];
      r
  }

  /** `record[name] = v`: replaces the entry with that key in place, or appends one. */
  function Assign<V>(entries: seq<(string, V)>, name: string, v: V): (r: seq<(string, V)>)
    ensures Get(r, name) == Some(v)
    ensures forall k :: k != name ==> Get(r, k) == Get(entries, k)
    ensures forall i :: 0 <= i < |r| ==> r[i] == (name, v) || r[i] in entries
  {
    if entries == [] then [(name, v)]
    else if entries[0].0 == name then [(name, v)] + entries[1..]
    else [entries[0]] + Assign(entries[1..], name, v)
  }

  /** A value in the data object passed to a Mustache template. */
  datatype Data = Scalar(v: Value) | PathText(p: Path) | SiteData(site: SiteConfig) | Items(docs: seq<Doc>)

  /** The data object of `renderTemplate(tpl, data, partials)`. */
  type Context = map<string, Data>

  // ---------------------------------------------------------------------------------
  // gray-matter, kept uninterpreted.

  /** `matter(raw)`: the front matter and the content after it. */
  datatype Matter = Matter(data: Record, content: string)

  datatype FrontMatter = FrontMatter(
    parse: string -> Matter,              // matter(raw)
    stringify: (string, Record) -> string)  // matter.stringify(body, data)
}
