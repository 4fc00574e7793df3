/**
 * The text logic of the admin page, templates/js/admin.js: the search filter, label and
 * snippet of the post list, the markdown toolbar's edit of the body textarea, and the
 * light/dark theme switch. The DOM, `fetch` and `localStorage` are reduced to the values
 * the page reads and writes.
 */
module Admin {
  import opened Wrappers
  import opened Text

  /** A post as the page holds it after `loadList`: `data.title`, `data.description` and
    * `body` taken with `|| ""`. */
  datatype AdminPost = AdminPost(slug: string, title: string, description: string, body: string)

  // ---------------------------------------------------------------------------------
  // renderList: the search filter

  /** The filter predicate for the lowercased query `q`. */
  predicate Matches(p: AdminPost, q: string) {
    || q == ""
    || Contains(Lower(p.slug), q)
    || Contains(Lower(p.title), q)
    || Contains(Lower(p.description), q)
    || Contains(Lower(p.body), q)
  }

  /** `posts.filter(...)` for the lowercased query `q`. */
  function Filter(posts: seq<AdminPost>, q: string): (r: seq<AdminPost>)
    ensures q == "" ==> r == posts
    ensures forall p :: p in r <==> p in posts && Matches(p, q)
    ensures |r| <= |posts|
  {
    if posts == [] then []
    else
      var rest := Filter(posts[1..], q);
      assert posts == [posts[0]] + posts[1..];
      assert forall p :: p in posts <==> p == posts[0] || p in posts[1..];
      (if Matches(posts[0], q) then [posts[0]] else []) + rest
  }

  /** The filter keeps the posts in their order: it distributes over concatenation. */
  lemma {:induction false} FilterAppend(a: seq<AdminPost>, b: seq<AdminPost>, q: string)
    ensures Filter(a + b, q) == Filter(a, q) + Filter(b, q)
  {
    if a == [] {
      assert a + b == b;
    } else {
      assert (a + b)[0] == a[0] && (a + b)[1..] == a[1..] + b;
      FilterAppend(a[1..], b, q);
    }
  }

  /** A single post is kept exactly when it matches. */
  lemma FilterOne(p: AdminPost, q: string)
    ensures Filter([p], q) == if Matches(p, q) then [p] else []
  {
    assert [p][1..] == [];
  }

  /** `toLowerCase()` of a non-empty string is non-empty, so only an empty search box gives
    * the empty query. */
  lemma {:induction false} LowerEmpty(s: string)
    ensures Lower(s) == "" <==> s == ""
  {
    if s != [] {
      assert |LowerChar(s[0])| >= 1;
    }
  }

  // ---------------------------------------------------------------------------------
  // renderList: one list item

  /** `p.data.title ? `${p.data.title} (${p.slug})` : p.slug`. */
  function Label(p: AdminPost): (r: string)
    ensures r == p.slug <==> p.title == ""
    ensures p.title != "" ==> StartsWith(r, p.title) && EndsWith(r, ")")
  {
    if p.title != "" then p.title + " (" + p.slug + ")" else p.slug
  }

  /** A titled label still shows the slug, between the parentheses at its end. */
  lemma LabelSlug(p: AdminPost)
    requires p.title != ""
    ensures var r := Label(p);
      && |r| == |p.title| + |p.slug| + 3
      && r[..|p.title|] == p.title && r[|p.title|..|p.title| + 2] == " ("
      && r[|p.title| + 2..|r| - 1] == p.slug && r[|r| - 1] == ')'
  {
    var r := Label(p);
    assert r == p.title + " (" + p.slug + ")";
  }

  /** `s.replace(/\n/g, " ")`. */
  function NewlinesToSpaces(s: string): (r: string)
    ensures |r| == |s| && '\n' !in r
    ensures forall i :: 0 <= i < |s| ==> r[i] == if s[i] == '\n' then ' ' else s[i]
  {
    if s == [] then []
    else [if s[0] == '\n' then ' ' else s[0]] + NewlinesToSpaces(s[1..])
  }

  /** `(p.body || "").slice(0, 80).replace(/\n/g, " ")`. */
  function Snippet(body: string): (r: string)
    ensures |r| <= 80 && '\n' !in r
    ensures |r| == if |body| < 80 then |body| else 80
    ensures forall i :: 0 <= i < |r| ==> r[i] == if body[i] == '\n' then ' ' else body[i]
  {
    NewlinesToSpaces(Take(body, 80))
  }

  /** One `<li>` of the list: its title line, its snippet and the slug it opens. */
  datatype Row = Row(heading: string, snippet: string, slug: string)

  function RowOf(p: AdminPost): Row {
    Row(Label(p), Snippet(p.body), p.slug)
  }

  /** The list state of the page: the loaded `posts` and the text of the search box. */
  class PostList {
    var posts: seq<AdminPost>
    var search: string

    constructor()
      ensures posts == [] && search == ""
    {
      posts := [];
      search := "";
    }

    /** The end of `loadList`: `posts = fullPosts`. */
    method Load(fetched: seq<AdminPost>)
      modifies this
      ensures posts == fetched && search == old(search)
    {
      posts := fetched;
    }

    /** `renderList()`: one row per kept post, in order. */
    method RenderList() returns (rows: seq<Row>)
      ensures var kept := Filter(posts, Lower(search));
        |rows| == |kept| && forall i :: 0 <= i < |rows| ==> rows[i] == RowOf(kept[i])
    {
      var kept := Filter(posts, Lower(search));
      rows := [];
      var i := 0;
      while i < |kept|
        invariant 0 <= i <= |kept| && |rows| == i
        invariant forall j :: 0 <= j < i ==> rows[j] == RowOf(kept[j])
      {
        rows := rows + [RowOf(kept[i])];
        i := i + 1;
      }
    }
  }

  // ---------------------------------------------------------------------------------
  // The markdown toolbar

  /** A toolbar button's `data-wrap`, `data-wrap-end` and `data-md` attributes; `None` when
    * the attribute is absent. */
  datatype Button = Button(wrap: Option<string>, wrapEnd: Option<string>, md: Option<string>)

  /** JavaScript truthiness of an attribute value. */
  predicate Given(a: Option<string>) {
    a.Some? && a.value != ""
  }

  /** `btn.getAttribute("data-wrap-end") || wrap`. */
  function WrapEnd(b: Button): string {
    if Given(b.wrapEnd) then b.wrapEnd.value else b.wrap.GetOr("")
  }

  /** The text that replaces the selection. */
  function Insertion(b: Button, selected: string): string {
    if Given(b.wrap) then b.wrap.value + selected + WrapEnd(b)
    else if Given(b.md) then b.md.value
    else ""
  }

  /** The textarea's value and caret after a click. */
  datatype Edited = Edited(value: string, caret: nat)

  /** The click handler on `value` with the selection `[start, end)`: the selection is replaced
    * and the caret placed after the inserted text. */
  function Splice(value: string, start: nat, end: nat, b: Button): (r: Edited)
    requires start <= end <= |value|
    ensures r.caret == start + |Insertion(b, value[start..end])|
    ensures |r.value| == r.caret + (|value| - end)
    ensures r.value[..start] == value[..start] && r.value[r.caret..] == value[end..]
    ensures r.value[start..r.caret] == Insertion(b, value[start..end])
  {
    var ins := Insertion(b, value[start..end]);
    var v := value[..start] + ins + value[end..];
    assert v[..start] == value[..start];
    assert v[start..start + |ins|] == ins;
    assert v[start + |ins|..] == value[end..];
    Edited(v, start + |ins|)
  }

  /** An edited value is its three parts put back together. */
  lemma SpliceParts(value: string, start: nat, end: nat, b: Button)
    requires start <= end <= |value|
    ensures Splice(value, start, end, b).value ==
      value[..start] + Insertion(b, value[start..end]) + value[end..]
  {
    var r := Splice(value, start, end, b);
    assert r.value == r.value[..start] + r.value[start..r.caret] + r.value[r.caret..];
  }

  /** With `data-wrap` the selection is wrapped, closed by `data-wrap-end` or else by the
    * same string. */
  lemma WrapSplice(value: string, start: nat, end: nat, b: Button)
    requires start <= end <= |value| && Given(b.wrap)
    ensures var close := if Given(b.wrapEnd) then b.wrapEnd.value else b.wrap.value;
      Splice(value, start, end, b).value ==
        value[..start] + b.wrap.value + value[start..end] + close + value[end..]
  {
    SpliceParts(value, start, end, b);
  }

  /** Without `data-wrap` the selection is replaced by `data-md`, or deleted when there is none;
    * the caret ends after the replacement. */
  lemma MdSplice(value: string, start: nat, end: nat, b: Button)
    requires start <= end <= |value| && !Given(b.wrap)
    ensures var md := if Given(b.md) then b.md.value else "";
      && Splice(value, start, end, b).value == value[..start] + md + value[end..]
      && Splice(value, start, end, b).caret == start + |md|
  {
    SpliceParts(value, start, end, b);
  }

  /** The body `<textarea>`: its value and selection. */
  class TextArea {
    var value: string
    var selectionStart: nat
    var selectionEnd: nat

    ghost predicate Valid()
      reads this
    {
      selectionStart <= selectionEnd <= |value|
    }

    constructor(v: string, start: nat, end: nat)
      requires start <= end <= |v|
      ensures Valid() && value == v && selectionStart == start && selectionEnd == end
    {
      value := v;
      selectionStart := start;
      selectionEnd := end;
    }

    /** A toolbar click: the value spliced, then `selectionStart = selectionEnd` at the caret. */
    method Click(b: Button)
      requires Valid()
      modifies this
      ensures Valid()
      ensures Edited(value, selectionStart) == Splice(old(value), old(selectionStart), old(selectionEnd), b)
      ensures selectionEnd == selectionStart
    {
      var selected := value[selectionStart..selectionEnd];
      var before := value[..selectionStart];
      var after := value[selectionEnd..];
      var insert := "";
      if Given(b.wrap) {
        insert := b.wrap.value + selected + WrapEnd(b);
      } else if Given(b.md) {
        insert := b.md.value;
      }
      value := before + insert + after;
      selectionStart := |before| + |insert|;
      selectionEnd := selectionStart;
    }
  }

  // ---------------------------------------------------------------------------------
  // The theme

  /** `localStorage.getItem("nova-theme") || "dark"`. */
  function InitialTheme(saved: Option<string>): (r: string)
    ensures Given(saved) ==> r == saved.value
    ensures !Given(saved) ==> r == "dark"
    ensures r != ""
  {
    if Given(saved) then saved.value else "dark"
  }

  /** The theme the toggle switches to: the other one of `light` and `dark`. */
  function NextTheme(light: bool): (r: string)
    ensures r == "light" || r == "dark"
    ensures r == "light" <==> !light
  {
    if light then "dark" else "light"
  }

  /** The `light` class on the document element and the stored `nova-theme`. */
  class Theme {
    var light: bool
    var stored: Option<string>

    /** The page start: `setTheme(savedTheme)`. */
    constructor(saved: Option<string>)
      ensures stored == Some(InitialTheme(saved))
      ensures light <==> InitialTheme(saved) == "light"
    {
      var theme := InitialTheme(saved);
      light := theme == "light";
      stored := Some(theme);
    }

    /** `setTheme(theme)`. */
    method SetTheme(theme: string)
      modifies this
      ensures light <==> theme == "light"
      ensures stored == Some(theme)
    {
      light := theme == "light";
      stored := Some(theme);
    }

    /** The toggle's click handler. */
    method Toggle()
      modifies this
      ensures light == !old(light)
      ensures stored == Some(NextTheme(old(light)))
      ensures stored.value == "light" || stored.value == "dark"
    {
      var next := NextTheme(light);
      SetTheme(next);
    }
  }
}
