# Nova static-site core, modelled in Dafny

Nova turns a folder of markdown posts into a static HTML site and has a small admin page for
editing those posts. This project models the core of Nova in Dafny and proves what the core
promises. The modelled parts are:

- the build engine (`src/core/build.ts`);
- its file helpers (`src/core/utils.ts`);
- the post editor (`src/core/editor.ts`);
- the configuration types (`src/core/schema.ts`);
- the site's configuration (`site.config.ts`);
- the text logic of the admin page (`templates/js/admin.js`).

The file system is a value `Store.Node`: a tree whose directories list their entries in
`readdirSync` order. `class Store.FileStore` holds the one mutable tree. Its methods
`WriteFile`, `Mkdir`, `Unlink` and `RemoveTree` are each proved against a pure function of
the old tree. Paths are lists of components. `path.join(base, s)` appends the components of
`s` and drops empty ones and `.`. Every exception the core's own code raises becomes an `Err`:

- a missing file read;
- a missing template or partial;
- writing where a directory stands;
- `unlinkSync` of a directory;
- an unknown collection name.

Exceptions thrown inside the libraries the core calls (gray-matter, Mustache, marked) are
not modelled; "## Left out" lists them.

The build is specified by pure, state-threading functions:

- `FileStep` and `FilesPass` for the post loop;
- `CollectionStep` and `CollectionsPass` for the collections loop;
- `IndexStep` and `IndexesPass` for the index loop;
- `FullBuildSpec` for the whole build.

`Build.FullBuild` runs the same steps with loops over a mutable `BuildGraph.Graph` and the
`FileStore`. Its contract says the tree and graph it leaves are exactly `FullBuildSpec`. The
lemmas then prove what the build does:

- an invalid post is skipped;
- a valid post writes exactly one page;
- the post and its layout each gain exactly the edge to that page;
- every collection's items are sorted by date, descending, stably, and are a permutation of
  the posts collected;
- every collected document is the one made from front matter that passed validation, and
  its file and its collection's layout each keep the edge to its page to the end of the build;
- every index page has an edge from its layout and from every collected document.

The editor operations are methods proved against `CreateSpec`, `UpdateSpec` and `DeleteSpec`.
Lemmas about these specs state which file changes, that nothing else changes, and what
`readPost` returns afterwards.

The site configuration gives two facts worth knowing:

- `createPost` always writes the title `New Post` and today's date (`Site.CreatedData`),
  because the collection's defaults are spread after the title and date it is given.
- A post whose file name slugifies to the empty string is written to `markdown/index.html`,
  and the `markdownIndex` page then overwrites it (`Site.EmptySlugOutput`).

The libraries the core calls are kept uninterpreted, as function-typed fields of `Build.Env`
and `Schema.FrontMatter`:

- gray-matter parsing and stringifying;
- zod validation;
- marked;
- Mustache;
- JSDOM text extraction.

The clock the default generators and `Date.now()` read is a `Schema.Clock` parameter.
JavaScript's `localeCompare` is modelled as ordinal (code point) order.

## Model

| member | source | states |
|---|---|---|
| `Admin.Filter` | templates/js/admin.js:36-46 | a post is kept iff it is in the list and the lowercased query occurs in its lowercased slug, title, description or body; the empty query keeps the list unchanged |
| `Admin.FilterAppend` | templates/js/admin.js:38-46 | filtering distributes over concatenation, so the kept posts stay in their list order |
| `Admin.FilterOne` | templates/js/admin.js:39-45 | a single post is kept exactly when it matches |
| `Admin.LowerEmpty` | templates/js/admin.js:36-41 | the lowercased search is empty only when the search box is, so only an empty box keeps every post |
| `Admin.Label` | templates/js/admin.js:49 | the label is the bare slug exactly when the title is empty; otherwise it starts with the title and ends with `)` |
| `Admin.LabelSlug` | templates/js/admin.js:49 | a titled label is exactly the title, then ` (`, then the slug, then `)` |
| `Admin.NewlinesToSpaces` | templates/js/admin.js:50 | same length, no newline left, each newline replaced by a space and every other character kept |
| `Admin.Snippet` | templates/js/admin.js:50 | at most 80 characters, the first min(80, body length) of the body, with no newline: each newline becomes a space |
| `Admin.PostList.constructor` | templates/js/admin.js:21 | the page starts with no posts and an empty search |
| `Admin.PostList.Load` | templates/js/admin.js:81 | `posts` becomes the fetched list; the search is untouched |
| `Admin.PostList.RenderList` | templates/js/admin.js:35-63 | one row per kept post, in filter order, each with that post's label, snippet and slug |
| `Admin.Splice` | templates/js/admin.js:157-171 | the text before the selection and after it is unchanged, the selection is replaced by the inserted text, and the caret ends right after the insertion |
| `Admin.SpliceParts` | templates/js/admin.js:169 | the new value is before + insertion + after |
| `Admin.WrapSplice` | templates/js/admin.js:154-164 | with `data-wrap`, the value is before + wrap + selection + closing + after, where the closing is `data-wrap-end` or else the wrap itself |
| `Admin.MdSplice` | templates/js/admin.js:162-169 | without `data-wrap`, the selection is replaced by `data-md`, or deleted when there is none, and the caret ends after the replacement |
| `Admin.TextArea.constructor` | templates/js/admin.js:157-158 | a textarea with the given value and selection |
| `Admin.TextArea.Click` | templates/js/admin.js:153-171 | the value and caret become those of `Splice` on the old value and selection, and the selection collapses to the caret |
| `Admin.InitialTheme` | templates/js/admin.js:28 | the saved theme when one is stored and non-empty, else `dark` |
| `Admin.NextTheme` | templates/js/admin.js:31 | `light` exactly when the page is not light, else `dark` |
| `Admin.Theme.constructor` | templates/js/admin.js:28-29 | the page starts in the initial theme, which is stored |
| `Admin.Theme.SetTheme` | templates/js/admin.js:23-27 | the `light` class is on exactly when the theme is `light`, and the theme is stored |
| `Admin.Theme.Toggle` | templates/js/admin.js:30-33 | the `light` class flips, and the stored theme is the new one, `light` or `dark` |
| `Build.RenderPartial` | src/core/build.ts:153-154 | rendering a partial fails exactly when that partial is missing, and otherwise renders it |
| `Build.MdFiles` | src/core/build.ts:124 | the files kept are exactly the walked paths ending in `.md` |
| `Build.PostPage` | src/core/build.ts:150-160 | a post's page renders exactly when its layout file and the `post` partial exist; it is the layout rendered over the document, the site and the rendered `post` partial |
| `Build.DocPaths` | src/core/build.ts:194 | the source paths of the documents, in order |
| `Build.PartialName` | src/core/build.ts:181 | the index's partial when it is given and non-empty, else `index` |
| `Build.PageContext` | src/core/build.ts:185-188 | the index layout sees exactly `site` and `content` |
| `Build.IndexPage` | src/core/build.ts:177-188 | an index page renders exactly when its layout and its partial (read afresh) exist; it is the layout over the partial rendered on the gathered items |
| `Build.DocFields` | src/core/build.ts:141-148 | a document carries its file's slug (a valid slug) and path, the validated data, `body_html`, `body_text` and the `url` with `index.html` cut off |
| `Build.FileStepInvalid` | src/core/build.ts:133-139 | a post that fails validation is skipped: no write, no edge, no document |
| `Build.FileStepPage` | src/core/build.ts:127-167 | a valid post writes its page at its output path and changes no other file; the document is recorded and pushed |
| `Build.FileStepEdges` | src/core/build.ts:164-165 | the post and its layout each gain exactly the edge to its output; no other edge changes |
| `Build.FileStepValue` | src/core/build.ts:127-167 | the step over a valid post is the page write followed by the two edges and the recorded document |
| `Build.FileStepValid` | src/core/build.ts:127-167 | a valid post: the one file written, the document recorded and pushed, and exactly the two new edges |
| `Build.FileStepGrows` | src/core/build.ts:127-167 | a step only adds edges and documents, and pushes at most one document: the one made from the front matter the file held, which the schema accepted, recorded, with the edges from the file and from the layout to its page |
| `Build.FilesPassGrows` | src/core/build.ts:127-168 | the post loop only adds edges and recorded documents |
| `Build.FilesPassKeeps` | src/core/build.ts:125-168 | the post loop keeps the items collected before it, in front |
| `Build.FilesPassCollects` | src/core/build.ts:127-168 | every document the loop collects comes from one of its files, carries that file's slug, is recorded, was made from front matter that passed validation, and still has the edges from its file and from its layout to its page at the end of the loop |
| `Build.CollectionStepCollects` | src/core/build.ts:122-172 | every item stored under a collection's name is a markdown file below the collection's folder, made from validated front matter, with both edges to its page |
| `Build.CollectionStepItems` | src/core/build.ts:122-172 | a collection's items are stored under its name, sorted by date descending and a permutation of what its post loop collected; other collections' items are unchanged |
| `Build.CollectionsPassFacts` | src/core/build.ts:122-173 | after the collections loop every collection has its items, each list is sorted, and edges and documents only grew |
| `Build.CollectionsPassGrows` | src/core/build.ts:122-173 | the collections loop only adds edges and recorded documents |
| `Build.CollectionsPassOrigins` | src/core/build.ts:122-173 | every item the loop leaves under a name was there before, or is a document of a collection of that name (markdown file below its folder, validated, both edges to its page) in the final graph |
| `Build.GatherMembers` | src/core/build.ts:177 | a document is gathered for an index iff it is among the items of one of its sources |
| `Build.IndexOutJoin` | src/core/build.ts:190 | stripping a leading `/` from an index path does not change where it is written |
| `Build.IndexStepPage` | src/core/build.ts:176-191 | an index page is the one file written and the documents are unchanged |
| `Build.IndexStepEdges` | src/core/build.ts:192-195 | the index's layout and every collected document, of every collection, gain exactly the edge to the page |
| `Build.IndexStepLinked` | src/core/build.ts:176-196 | one index step links its page from its layout and every document, and only adds edges |
| `Build.IndexesPassEdges` | src/core/build.ts:176-196 | after the index loop every index page has an edge from its layout and from every collected document, and edges only grew |
| `Build.HtmlName` | src/core/build.ts:56-57 | a file ending in `.html` gives partial `k` exactly when it is named `k.html` |
| `Build.PartialsFromFacts` | src/core/build.ts:55-60 | the loop over the listing adds a partial exactly for each `.html` entry, with that file's contents |
| `Build.PartialsExact` | src/core/build.ts:51-62 | no templates directory gives no partials; otherwise partial `k` exists exactly when `templates/k.html` is a file, and holds its contents |
| `Build.CleanDist` | src/core/build.ts:112-113 | after removing and recreating `dist` it is an empty directory and every file outside it is unchanged |
| `Build.FullBuildEdges` | src/core/build.ts:110-199 | after a build every collection's items are sorted, the index pass only adds edges, and every index page is linked from its layout and every document |
| `Build.FullBuildCollects` | src/core/build.ts:110-199 | after a build every item of every collection is a markdown file below the folder of a configured collection of that name, made from front matter that passed validation, recorded in the final graph, with the edges from its file and from that collection's layout to its page |
| `Build.LoadPartials` | src/core/build.ts:51-62 | the loop returns exactly the partials of the templates directory |
| `Build.CopyEntries` | src/core/build.ts:79-83 | the loop copies each listed file in order; it fails exactly when the copy does |
| `Build.CopyAssetDir` | src/core/build.ts:73-83 | one asset directory: skipped when missing, else the target is created and its files copied |
| `Build.CopyFilesReads` | src/core/build.ts:79-83 | the copy loop succeeds only when every listed name is a file of the source directory |
| `Build.CopyFilesFileAt` | src/core/build.ts:79-83 | after the copy loop each listed name is under the target directory with its source contents; every other path is unchanged |
| `Build.AssetDirFileAt` | src/core/build.ts:73-83 | after one asset directory (source and target distinct), each file directly in `templates/<d>` is at `dist/<d>/<name>` with the same contents, and every other path is unchanged |
| `Build.CopyStaticAssets` | src/core/build.ts:67-85 | `css` then `js` copied from the templates to `dist` |
| `Build.Record` | src/core/build.ts:162-167 | the page is written, then the two edges and the document are recorded |
| `Build.ProcessFile` | src/core/build.ts:127-167 | the loop body leaves exactly the tree, graph and pushed documents of `FileStep`, and fails exactly when that does |
| `Build.ProcessCollection` | src/core/build.ts:122-172 | one collection's iteration leaves exactly what `CollectionStep` gives |
| `Build.ProcessIndex` | src/core/build.ts:176-196 | one index iteration leaves exactly what `IndexStep` gives |
| `Build.AddEdges` | src/core/build.ts:194 | an edge from each document to the page is added; the documents map is unchanged |
| `Build.AddDocEdges` | src/core/build.ts:193-195 | an edge from every document of every collection to the page is added |
| `Build.PrepareDist` | src/core/build.ts:111-116 | `dist` is emptied and recreated, then the public files and the assets are copied |
| `Build.FullBuild` | src/core/build.ts:110-199 | the build leaves exactly the tree and returns exactly the new graph of `FullBuildSpec`, and throws exactly when that does |
| `Build.Watcher.constructor` | src/core/build.ts:92-98 | the watcher holds the context and the first build's graph |
| `Build.Watcher.OnChange` | src/core/build.ts:100-102 | a change rebuilds in full and replaces the graph with the new one; a failed build leaves the old graph |
| `Build.WatchAndBuild` | src/core/build.ts:91-105 | the first build's graph is held by a new watcher; a failing first build throws |
| `BuildGraph.WithEdge` | src/core/build.ts:35-38 | `addEdge` adds `out` to the targets of `src` (creating the set if needed) and changes nothing else |
| `BuildGraph.WithEdgeIdempotent` | src/core/build.ts:35-38 | adding an edge twice is adding it once |
| `BuildGraph.WithEdgesExact` | src/core/build.ts:194 | adding `out` from every source adds exactly those edges |
| `BuildGraph.WithEdgesAppend` | src/core/build.ts:193-195 | adding the edges of `a + b` is adding those of `a`, then those of `b` |
| `BuildGraph.Graph.constructor` | src/core/build.ts:31-33 | `createGraph` gives empty edges and documents |
| `BuildGraph.AddEdge` | src/core/build.ts:35-38 | the graph's edges become `WithEdge` of the old ones; the documents are unchanged |
| `Store.ReadFile` | src/core/utils.ts:6 | a read succeeds exactly when a regular file is there, and returns its contents |
| `Store.ReadDir` | src/core/utils.ts:14 | a listing succeeds exactly when a directory is there, and returns its entries |
| `Store.PutFileAt` | src/core/utils.ts:7-10 | writing a file sets that one path and leaves every other path as it was |
| `Store.PutWf` | src/core/utils.ts:7-10 | writing a file keeps the names in every directory distinct |
| `Store.MkdirFileAt` | src/core/utils.ts:8 | `mkdir -p` creates and changes no file |
| `Store.MkdirIsDir` | src/core/utils.ts:8 | after `mkdir -p` a directory is at the path |
| `Store.MkdirWf` | src/core/utils.ts:8 | `mkdir -p` keeps the tree well formed |
| `Store.MkdirLookup` | src/core/utils.ts:13 | `mkdir -p` leaves every node that is not the path or an ancestor of it |
| `Store.UnlinkFileAt` | src/core/editor.ts:126 | unlinking clears that one path and leaves every other path as it was |
| `Store.UnlinkFileOk` | src/core/editor.ts:126 | a regular file can always be unlinked |
| `Store.UnlinkNotFile` | src/core/editor.ts:126 | unlinking a directory throws |
| `Store.UnlinkGone` | src/core/editor.ts:126 | after an unlink nothing at all is at the path |
| `Store.UnlinkWf` | src/core/editor.ts:126 | unlinking keeps the tree well formed |
| `Store.RemoveTreeFileAt` | src/core/build.ts:112 | `rm -rf` clears every path at or below the target and leaves all others |
| `Store.RemoveTreeWf` | src/core/build.ts:112 | `rm -rf` keeps the tree well formed |
| `Store.FileStore.WriteFile` | src/core/utils.ts:7-10 | `writeFile` creates the parent directories and sets exactly that file; on failure the tree is unchanged |
| `Store.FileStore.Mkdir` | src/core/utils.ts:13 | `mkdirSync` with `recursive` leaves a directory at the path and changes no file |
| `Store.FileStore.Unlink` | src/core/editor.ts:126 | `unlinkSync` removes exactly that file, always succeeds on a regular file, and leaves nothing at the path |
| `Store.FileStore.RemoveTree` | src/core/build.ts:112 | `rmSync` with `recursive` and `force` clears exactly the subtree; a missing path is not an error |
| `Paths.JoinName` | src/core/utils.ts:15-16 | joining an entry name appends that one component |
| `Paths.JoinValid` | src/core/utils.ts:34 | the result of `path.join` is a valid path |
| `Paths.JoinTwo` | src/core/build.ts:190 | joining `a/b` appends the two components |
| `Paths.JoinRooted` | src/core/build.ts:162 | joining `/a/b/c` appends `a`, `b` and `c`, with an empty `b` dropped |
| `Paths.SegmentsLeadingSlash` | src/core/build.ts:190 | a leading `/` contributes nothing to a join |
| `Schema.FieldText` | src/core/build.ts:171 | a missing field reads as the empty string, and a string field as itself |
| `Schema.DefineSite` | src/core/schema.ts:65-67 | `defineSite` is the identity |
| `Schema.DefineCollection` | src/core/schema.ts:72-74 | `defineCollection` is the identity |
| `Schema.Get` | src/core/editor.ts:32 | reading an object key finds a value exactly when an entry has that key, and the value is that entry's |
| `Schema.Assign` | src/core/build.ts:170 | after the assignment the key reads the new value, every other key is unchanged, and no other entry is added |
| `Site.SchemaFields` | site.config.ts:20-26 | the schema has the five fields; all are strings and only `title` is required |
| `Site.PostLink` | site.config.ts:33 | a post's link is `/markdown/<slug>/` |
| `Site.PostOutput` | site.config.ts:33 | a post with a non-empty slug is written to `dist/markdown/<slug>/index.html` |
| `Site.RootedPostUrl` | site.config.ts:33 | a post's output is `dist/markdown/<slug>/index.html`, with an empty slug dropped |
| `Site.EmptySlugOutput` | site.config.ts:33-53 | a post with an empty slug is written where the `markdownIndex` page goes |
| `Site.NestedIndexOut` | src/core/build.ts:190 | an index at `a/b` is written to `dist/a/b` |
| `Site.FlatIndexOut` | src/core/build.ts:190 | an index at an entry name is written to `dist/<name>` |
| `Site.IndexPages` | site.config.ts:38-53 | two index pages, both over `posts` alone, with the `index` partial and the layout of `posts` |
| `Site.HomeOut` | site.config.ts:39-45 | `home` is written to `dist/index.html` |
| `Site.MarkdownIndexOut` | site.config.ts:46-52 | `markdownIndex` is written to `dist/markdown/index.html` |
| `Site.IndexItems` | site.config.ts:38-53 | each index page lists exactly the sorted `posts` items |
| `Site.PostsDefaultValues` | site.config.ts:27-32 | the defaults are `New Post`, the ISO date before `T`, and empty description and body |
| `Site.CreatedData` | site.config.ts:27-32 | a created post's data has title `New Post` and today's date, whatever title and date were given |
| `Sorting.InsertSorted` | src/core/build.ts:170-172 | inserting into a sorted list keeps it sorted and adds exactly that element |
| `Sorting.InsertStable` | src/core/build.ts:170-172 | insertion puts an element after the equal keys already there |
| `Sorting.SortDescSorted` | src/core/build.ts:170-172 | the sort's result is in descending date order and a permutation of its input |
| `Sorting.SortDescStable` | src/core/build.ts:170-172 | the sort is stable: the elements with any one key keep their input order |
| `Sorting.EmptyKeysLast` | src/core/build.ts:171 | items without a date come after all dated ones |
| `Text.StripPrefix` | src/core/build.ts:190 | removes the prefix exactly when it is there |
| `Text.StripSuffix` | src/core/build.ts:148 | removes the suffix exactly when it is there |
| `Text.Take` | src/core/editor.ts:46 | `slice(0, n)` is the prefix of length min(n, length) |
| `Text.LowerAppend` | src/core/utils.ts:28 | lowercasing distributes over concatenation |
| `Text.TrimStart` | src/core/build.ts:131 | a suffix of the input whose dropped part is white space and which starts with non-space |
| `Text.TrimEnd` | src/core/build.ts:131 | a prefix of the input whose dropped part is white space and which ends with non-space |
| `Text.Trim` | src/core/build.ts:131 | the slice between the leading and trailing white space, with no white space at either end |
| `Text.BeforeFirst` | site.config.ts:29 | `split(c)[0]` is the longest prefix without `c` |
| `Text.NatToString` | src/core/editor.ts:88 | a non-empty string of digits |
| `Text.LeRefl` | src/core/build.ts:171 | the string order is reflexive |
| `Text.LeTotal` | src/core/build.ts:171 | the string order is total |
| `Text.LeTrans` | src/core/build.ts:171 | the string order is transitive |
| `Text.LeAntisym` | src/core/build.ts:171 | the string order is antisymmetric |
| `Text.EmptyLeast` | src/core/build.ts:171 | the empty date sorts below every other |
| `Utils.DropRun` | src/core/utils.ts:28 | drops exactly the leading run of characters outside `[a-z0-9]` |
| `Utils.Collapse` | src/core/utils.ts:28 | the replacement leaves only `[a-z0-9]` and single dashes, and keeps a leading slug character |
| `Utils.TrimDashesSlug` | src/core/utils.ts:28 | trimming one dash off each end leaves a slug |
| `Utils.Slugify` | src/core/utils.ts:27-29 | the result is a slug: `[a-z0-9]` in dash-separated runs, no dash at either end |
| `Utils.CollapseSlug` | src/core/utils.ts:28 | the replacement leaves a slug unchanged |
| `Utils.LowerSlug` | src/core/utils.ts:28 | lowercasing leaves a slug unchanged |
| `Utils.SlugifySlug` | src/core/utils.ts:27-29 | `slugify` leaves a slug unchanged |
| `Utils.SlugifyIdempotent` | src/core/utils.ts:27-29 | `slugify` is idempotent |
| `Utils.SlugifyAlnum` | src/core/utils.ts:27-29 | a name of lowercase letters and digits is its own slug |
| `Utils.FilesInAppend` | src/core/utils.ts:33-37 | the files of two listings are those of each, in order |
| `Utils.WalkEntries` | src/core/utils.ts:30-39 | the recursion over one listing returns exactly its files in listing order |
| `Utils.Walk` | src/core/utils.ts:30-39 | `walk` returns the files below the directory, and nothing for a missing one |
| `Utils.FilesInUnder` | src/core/utils.ts:30-39 | every walked path lies strictly below the directory |
| `Utils.FilesInExact` | src/core/utils.ts:30-39 | a path is walked exactly when a regular file is there |
| `Utils.FilesInNoDuplicates` | src/core/utils.ts:30-39 | `walk` lists no file twice |
| `Utils.WalkedExact` | src/core/utils.ts:30-39 | `walk` returns, each once, exactly the files at or below the directory |
| `Utils.CopyEntriesFileAt` | src/core/utils.ts:14-19 | after copying a listing, each of its files is at the matching path, and every other path is unchanged |
| `Utils.CopyDirFileAt` | src/core/utils.ts:11-20 | after `copyDir`, every file of the source is at the matching path under the target, and every other path is unchanged |
| `Utils.CopyDirMissing` | src/core/utils.ts:12 | `copyDir` from a missing source changes nothing |
| `Utils.CopyEntriesWf` | src/core/utils.ts:14-19 | copying keeps the tree well formed |
| `Utils.CopyEntriesInto` | src/core/utils.ts:14-19 | the loop over the listing leaves exactly the tree of `CopyEntries` |
| `Utils.CopyEntryInto` | src/core/utils.ts:17-18 | one entry: a file copied, or a directory copied recursively |
| `Utils.CopyDir` | src/core/utils.ts:11-20 | `copyDir` leaves exactly the tree of `CopyDirSpec`, and changes nothing when the source is missing |
| `Editor.CollectionOf` | src/core/editor.ts:32 | an unknown collection name throws; a known one gives that collection |
| `Editor.ApplyDefaults` | src/core/editor.ts:19-26 | no defaults give `{}`; otherwise the keys of the defaults, each a literal as given or a generator's value |
| `Editor.Summaries` | src/core/editor.ts:36-48 | the listing succeeds exactly when every `.md` entry is a file; it lists exactly those entries in order, each with its slug, front matter and 200-character excerpt |
| `Editor.ListPostsFacts` | src/core/editor.ts:31-52 | a missing folder lists nothing; otherwise the list is sorted by date descending, is a permutation of the summaries, and holds exactly the top-level `.md` files |
| `Editor.PermutedSummaries` | src/core/editor.ts:49-51 | sorting keeps the listed paths and their summaries |
| `Editor.ReadPostFacts` | src/core/editor.ts:57-68 | `readPost` is `null` exactly when the file is missing, throws when it is not a file, and otherwise returns its slug, front matter and content |
| `Editor.Or` | src/core/editor.ts:87 | an absent or empty string falls back to the default value |
| `Editor.NewSlug` | src/core/editor.ts:88 | a non-empty slug: the given one, else the title's slug, else `post-<ms>` |
| `Editor.PostData` | src/core/editor.ts:93 | the keys are title, date and the defaults' keys; a default wins over the given title and date |
| `Editor.CreatePost` | src/core/editor.ts:73-99 | the tree and result are exactly those of `CreateSpec` |
| `Editor.CreateFacts` | src/core/editor.ts:73-99 | the post is written at `<folder>/<slug>.md` under a non-empty slug, no other file changes, and `readPost` then returns it |
| `Editor.UpdatePost` | src/core/editor.ts:104-118 | the tree and result are exactly those of `UpdateSpec` |
| `Editor.UpdateFacts` | src/core/editor.ts:104-118 | `<folder>/<slug>.md` is written whether or not it existed, no other file changes, and `readPost` then returns it |
| `Editor.DeletePost` | src/core/editor.ts:123-128 | the tree and result are exactly those of `DeleteSpec` |
| `Editor.DeleteFacts` | src/core/editor.ts:123-128 | exactly that file is removed, `readPost` then gives `null`, and deleting again changes nothing |
| `Editor.DeleteOk` | src/core/editor.ts:126 | a delete fails only when the path is there but is not a regular file |

## Left out

- Strings are sequences of Unicode code points. JavaScript's UTF-16 code units are not modelled, which matters for `slice(0, 80)`, `slice(0, 200)` and lengths beyond the Basic Multilingual Plane.
- `path.join` does not resolve `..`, and a trailing `/` is dropped. Absolute and relative roots are not told apart.
- `Text.Lower`: lowercases ASCII letters and the two non-ASCII characters whose lowercase form contains `a`–`z` (KELVIN SIGN, LATIN CAPITAL LETTER I WITH DOT ABOVE). This is exact for `slugify`. For the admin search it is not the full Unicode mapping on other non-ASCII text.
- `new Date().toISOString()` and `Date.now()` are the fields of an injected `Schema.Clock`. Their formatting is not modelled, and one clock value serves every call within an operation.
- `localeCompare` is modelled as ordinal code-point order. Locale collation is not modelled.
- JavaScript objects used as dictionaries (`collections`, `itemsByCollection`) are lists of entries in insertion order. Integer-like keys, which JavaScript enumerates first, are not treated specially.
- `Utils.CopyDir` copies the source subtree as it was when first listed. The source re-lists each subdirectory as it recurses, and the two differ only when the target lies inside the source. `Utils.CopyDirFileAt` assumes it does not.
- `Build.FullBuild`, `Editor.CreatePost` and the other state-changing methods say nothing about the tree left behind when they throw part-way. The source leaves the writes made so far.
- `rmSync` of the file system's root is refused (`Err`).
- The list of paths chokidar watches, and the concurrency of the event handler, are not modelled. A change event is a call of `Build.Watcher.OnChange`.
- Console logging of schema errors is not modelled.
- zod, gray-matter, marked, Mustache and JSDOM are uninterpreted functions. In particular, zod's stripping of unknown keys is whatever `Env.validate` returns.
- `Build.Env`: `parse`, `markdown` and `render` are total and never throw. In the source, gray-matter throws on malformed front matter (src/core/build.ts:129), marked throws on a non-string body (src/core/build.ts:144), and Mustache throws on a malformed template (src/core/build.ts:154, 156, 183, 185). Each such exception aborts `fullBuild`; the model goes on with whatever the function returns.
- `Build.BodyOf` and `Build.BodyText`: a truthy `body` that is not a string gives `""`. In the source, `marked.parse` throws on it.
- `Schema.FrontMatter`: `parse` is total. In the source `matter.read` throws on malformed front matter, which aborts `listPosts` (src/core/editor.ts:40) and `readPost` (src/core/editor.ts:62).
- `Schema.Value`: a value is a string, an integer or a boolean. js-yaml also yields `null`, non-integer numbers, arrays, objects and, for an unquoted `date: 2024-01-15`, a `Date`. For such a `Date`, `String(date)` begins with the weekday name, so the date order of `listPosts` (src/core/editor.ts:49-50) and of the collection items (src/core/build.ts:171) is then by that text. `Editor.ListPostsFacts` and `Build.DateKey` cover string, integer and boolean dates only.
- `Admin.AdminPost` fields are strings, `""` when absent. A non-string `title` or `description`, for which `toLowerCase` would throw, is not modelled.
- On the admin page, the DOM, `fetch`, `async`, `alert`/`confirm`/`prompt`, the marked preview, and the network-driven handlers are not modelled. Those handlers are `openSlug`, save, new and delete, which set `currentSlug`. The quotes the snippet is shown between are not modelled either.
- `src/core/server.ts`, `src/core/export.ts` and `src/cli.ts` are not part of this model.
