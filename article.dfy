/** The article concept of the express example: articles keyed by a
    caller-supplied id, each with a title, a body, an author and a slug
    made from the title; no two articles share a slug. */
module Article {
  import opened Wrappers
  import Chars
  import opened Maps

  datatype Action = Create

  function Name(a: Action): string {
    match a
    case Create => "create"
  }

  /** The final `throw` of `execute`. */
  function Dispatch(action: string): (r: Result<Action>)
    ensures r.Ok? ==> Name(r.value) == action
    ensures r.Err? ==> r.error == "Unknown action: " + action && forall a :: Name(a) != action
  {
    if action == "create" then Ok(Create)
    else Err("Unknown action: " + action)
  }

  // ---------------------------------------------------------------------
  // slugify

  /** `toLowerCase` on one character, for the ASCII letters. */
  function LowerChar(c: char): char {
    if 'A' <= c <= 'Z' then (c as int + 32) as char else c
  }

  function Lower(s: string): (r: string)
    ensures |r| == |s| && forall i :: 0 <= i < |s| ==> r[i] == LowerChar(s[i])
    decreases |s|
  {
    if s == [] then [] else [LowerChar(s[0])] + Lower(s[1..])
  }

  /** The string after its leading run of whitespace. */
  function SkipSpaces(s: string): (r: string)
    ensures |r| <= |s| && (r != [] ==> !Chars.IsSpace(r[0]))
    decreases |s|
  {
    if s != [] && Chars.IsSpace(s[0]) then SkipSpaces(s[1..]) else s
  }

  /** `replace(/\s+/g, '-')`: each maximal run of whitespace becomes one
      dash. */
  function Dash(s: string): (r: string)
    ensures forall i :: 0 <= i < |r| ==> !Chars.IsSpace(r[i])
    decreases |s|
  {
    if s == [] then []
    else if Chars.IsSpace(s[0]) then "-" + Dash(SkipSpaces(s))
    else [s[0]] + Dash(s[1..])
  }

  /** The characters a slug is made of: `[a-z0-9-]`. */
  predicate SlugChar(c: char) {
    ('a' <= c <= 'z') || ('0' <= c <= '9') || c == '-'
  }

  /** `replace(/[^a-z0-9-]/g, '')`. */
  function Keep(s: string): (r: string)
    ensures |r| <= |s|
    decreases |s|
  {
    if s == [] then [] else (if SlugChar(s[0]) then [s[0]] else []) + Keep(s[1..])
  }

  function Slugify(title: string): string {
    Keep(Dash(Lower(title)))
  }

  /** Whatever the title, its slug is made only of lower-case ASCII
      letters, digits and dashes. */
  lemma {:induction false} KeepChars(s: string)
    ensures forall i :: 0 <= i < |Keep(s)| ==> SlugChar(Keep(s)[i])
    decreases |s|
  {
    if s != [] {
      KeepChars(s[1..]);
    }
  }

  lemma SlugChars(title: string)
    ensures forall i :: 0 <= i < |Slugify(title)| ==> SlugChar(Slugify(title)[i])
  {
    KeepChars(Dash(Lower(title)));
  }

  /** Each step of the pipeline leaves a slug as it is. */
  lemma {:induction false} LowerSlug(s: string)
    requires forall i :: 0 <= i < |s| ==> SlugChar(s[i])
    ensures Lower(s) == s
  {
    assert forall i :: 0 <= i < |s| ==> LowerChar(s[i]) == s[i];
  }

  lemma {:induction false} DashSlug(s: string)
    requires forall i :: 0 <= i < |s| ==> SlugChar(s[i])
    ensures Dash(s) == s
    decreases |s|
  {
    if s != [] {
      assert !Chars.IsSpace(s[0]);
      assert forall i :: 0 <= i < |s[1..]| ==> s[1..][i] == s[i + 1];
      DashSlug(s[1..]);
      assert [s[0]] + s[1..] == s;
    }
  }

  lemma {:induction false} KeepSlug(s: string)
    requires forall i :: 0 <= i < |s| ==> SlugChar(s[i])
    ensures Keep(s) == s
    decreases |s|
  {
    if s != [] {
      assert forall i :: 0 <= i < |s[1..]| ==> s[1..][i] == s[i + 1];
      KeepSlug(s[1..]);
      assert [s[0]] + s[1..] == s;
    }
  }

  /** Slugifying a slug gives it back. */
  lemma SlugifyIdempotent(title: string)
    ensures Slugify(Slugify(title)) == Slugify(title)
  {
    var s := Slugify(title);
    SlugChars(title);
    LowerSlug(s);
    DashSlug(s);
    KeepSlug(s);
  }

  // ---------------------------------------------------------------------
  // The store

  class ArticleStore {
    var articles: set<string>
    var title: map<string, string>
    var body: map<string, string>
    var author: map<string, string>
    var slug: map<string, string>

    /** Every article has its four properties, and slugs are unique. */
    ghost predicate Valid()
      reads this
    {
      title.Keys == articles && body.Keys == articles && author.Keys == articles && slug.Keys == articles
      && Injective(slug)
    }

    constructor()
      ensures articles == {} && title == map[] && body == map[] && author == map[] && slug == map[] && Valid()
    {
      articles := {};
      title := map[];
      body := map[];
      author := map[];
      slug := map[];
    }

    /** `create`: an empty or missing title and a slug already in use are
        refused; otherwise the article is stored under its id, replacing
        one stored under the same id before. */
    method Create(article: string, t: string, b: string, a: string) returns (r: Result<(string, string)>)
      requires Valid()
      modifies this
      ensures Valid()
      ensures r.Err? <==> t == "" || Slugify(t) in old(slug).Values
      ensures r.Err? ==> r.error == (if t == "" then "Title required" else "Slug collision")
      ensures r.Err? ==> articles == old(articles) && title == old(title) && body == old(body) && author == old(author)
                         && slug == old(slug)
      ensures r.Ok? ==> r.value == (article, Slugify(t)) && articles == old(articles) + {article}
      ensures r.Ok? ==> title == old(title)[article := t] && body == old(body)[article := b]
                        && author == old(author)[article := a] && slug == old(slug)[article := Slugify(t)]
    {
      if t == "" {
        return Err("Title required");
      }
      var s := Slugify(t);
      if s in slug.Values {
        return Err("Slug collision");
      }
      FreshValueInjective(slug, article, s);
      articles := articles + {article};
      title := title[article := t];
      body := body[article := b];
      author := author[article := a];
      slug := slug[article := s];
      return Ok((article, s));
    }
  }

  /** A slug used as a title makes the same slug, so once an article is
      stored, creating another titled with its slug is refused. */
  method SlugAsTitle(store: ArticleStore, id1: string, id2: string, t: string, b: string, a: string)
    returns (second: Result<(string, string)>)
    requires store.Valid() && t != ""
    modifies store
    ensures second.Err?
    ensures second.error == (if Slugify(t) == "" then "Title required" else "Slug collision")
  {
    var first := store.Create(id1, t, b, a);
    SlugifyIdempotent(t);
    if first.Ok? {
      assert store.slug[id1] == Slugify(t);
    }
    second := store.Create(id2, Slugify(t), b, a);
  }
}
