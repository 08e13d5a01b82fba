/** The comment concept of the console example: a set of comment ids with an
    article, an author, a content and a creation time per id. Fresh ids and
    the clock are parameters. */
module ConsoleComment {
  import opened Wrappers

  datatype Action = Create | Get | ListByArticle

  function Name(a: Action): string {
    match a
    case Create => "create"
    case Get => "get"
    case ListByArticle => "listByArticle"
  }

  /** The final `throw` of `execute`. */
  function Dispatch(action: string): (r: Result<Action>)
    ensures r.Ok? ==> Name(r.value) == action
    ensures r.Err? ==> r.error == "Unknown action: " + action && forall a :: Name(a) != action
  {
    if action == "create" then Ok(Create)
    else if action == "get" then Ok(Get)
    else if action == "listByArticle" then Ok(ListByArticle)
    else Err("Unknown action: " + action)
  }

  /** A comment as `create` and `listByArticle` return it. */
  datatype Summary = Summary(articleId: string, authorId: string, content: string)

  /** A comment as `get` returns it. */
  datatype Detail = Detail(articleId: string, authorId: string, content: string, createdAt: int)

  class CommentStore {
    /** The comment ids in creation order, the order the set iterates in. */
    var comments: seq<string>
    var articleId: map<string, string>
    var authorId: map<string, string>
    var content: map<string, string>
    var createdAt: map<string, int>

    /** Each comment appears once and has all four properties. */
    ghost predicate Valid()
      reads this
    {
      (forall i, j :: 0 <= i < j < |comments| ==> comments[i] != comments[j])
      && (forall c :: c in comments <==> c in articleId)
      && articleId.Keys == authorId.Keys == content.Keys == createdAt.Keys
    }

    constructor()
      ensures comments == [] && articleId == map[] && authorId == map[] && content == map[] && createdAt == map[]
      ensures Valid()
    {
      comments := [];
      articleId := map[];
      authorId := map[];
      content := map[];
      createdAt := map[];
    }

    /** The comments of `article` among `ids`, in the order of `ids`. */
    function OnArticle(ids: seq<string>, article: string): (r: seq<Summary>)
      reads this
      requires forall i :: 0 <= i < |ids| ==> ids[i] in articleId && ids[i] in authorId && ids[i] in content
      ensures |r| <= |ids|
      ensures forall s :: s in r ==> s.articleId == article
      ensures forall i :: 0 <= i < |ids| && articleId[ids[i]] == article
                ==> Summary(article, authorId[ids[i]], content[ids[i]]) in r
      decreases |ids|
    {
      if ids == [] then []
      else
        var init := ids[..|ids| - 1];
        var c := ids[|ids| - 1];
        assert forall i :: 0 <= i < |init| ==> init[i] == ids[i];
        OnArticle(init, article)
        + (if articleId[c] == article then [Summary(article, authorId[c], content[c])] else [])
    }

    /** `create`: an empty or missing content is refused. */
    method Create(article: string, author: string, text: string, commentId: string, now: int)
      returns (r: Result<(string, Summary)>)
      requires Valid() && commentId !in articleId
      modifies this
      ensures Valid()
      ensures r.Err? <==> text == ""
      ensures r.Err? ==> r.error == "Comment content required"
      ensures r.Err? ==> comments == old(comments) && articleId == old(articleId) && authorId == old(authorId)
                         && content == old(content) && createdAt == old(createdAt)
      ensures r.Ok? ==> r.value == (commentId, Summary(article, author, text)) && comments == old(comments) + [commentId]
      ensures r.Ok? ==> articleId == old(articleId)[commentId := article] && authorId == old(authorId)[commentId := author]
      ensures r.Ok? ==> content == old(content)[commentId := text] && createdAt == old(createdAt)[commentId := now]
    {
      if text == "" {
        return Err("Comment content required");
      }
      comments := comments + [commentId];
      articleId := articleId[commentId := article];
      authorId := authorId[commentId := author];
      content := content[commentId := text];
      createdAt := createdAt[commentId := now];
      return Ok((commentId, Summary(article, author, text)));
    }

    method Get(commentId: string) returns (r: Result<Detail>)
      requires Valid()
      ensures r.Err? <==> commentId !in comments
      ensures r.Err? ==> r.error == "Comment not found"
      ensures r.Ok? ==> r.value == Detail(articleId[commentId], authorId[commentId], content[commentId], createdAt[commentId])
    {
      if commentId !in comments {
        return Err("Comment not found");
      }
      return Ok(Detail(articleId[commentId], authorId[commentId], content[commentId], createdAt[commentId]));
    }

    /** `listByArticle`: the article's comments in creation order. */
    method ListByArticle(article: string) returns (r: seq<Summary>)
      requires Valid()
      ensures r == OnArticle(comments, article)
    {
      var ids := comments;
      r := [];
      for i := 0 to |ids|
        invariant r == OnArticle(ids[..i], article)
      {
        OnArticleStep(ids, i, article);
        var c := ids[i];
        if articleId[c] == article {
          r := r + [Summary(article, authorId[c], content[c])];
        }
      }
      assert ids[..|ids|] == ids;
    }

    /** Listing one more id adds at most its own comment, at the end. */
    lemma OnArticleStep(ids: seq<string>, i: nat, article: string)
      requires Valid() && ids == comments && i < |ids|
      ensures var c := ids[i];
              OnArticle(ids[..i + 1], article)
              == OnArticle(ids[..i], article) + (if articleId[c] == article then [Summary(article, authorId[c], content[c])] else [])
    {
      assert ids[..i + 1][..i] == ids[..i];
    }
  }

  /** A comment created on an article shows up last in that article's list,
      and the lists of other articles stay as they were. */
  lemma CreatedIsListed(store: CommentStore, before: seq<string>, c: string, article: string, other: string)
    requires store.Valid() && |store.comments| > 0 && store.comments == before + [c]
    requires store.articleId[c] == article && other != article
    ensures var list := store.OnArticle(store.comments, article);
            |list| > 0 && list[|list| - 1] == Summary(article, store.authorId[c], store.content[c])
    ensures store.OnArticle(store.comments, other) == store.OnArticle(before, other)
  {
    assert store.comments[..|store.comments| - 1] == before;
  }
}
