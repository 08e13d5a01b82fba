/** The comment concept of the express example: comments keyed by a
    caller-supplied id, each with an article, an author, a body and a
    creation time. The clock is a parameter. */
module ExpressComment {
  import opened Wrappers

  datatype Action = Create

  function Name(a: Action): string {
    match a
    case Create => "create"
  }

  /** The final `throw` of `execute`. */
  function Dispatch(action: string): (r: Result<Action>)
    ensures r.Ok? ==> Name(r.value) == action
    ensures r.Err? ==> r.error == "Unknown action: " + action && forall a :: Name(a) != action
  {
    if action == "create" then Ok(Create)
    else Err("Unknown action: " + action)
  }

  class CommentStore {
    var comments: set<string>
    var article: map<string, string>
    var author: map<string, string>
    var body: map<string, string>
    var createdAt: map<string, int>

    /** Every comment has its four properties. */
    ghost predicate Valid()
      reads this
    {
      article.Keys == comments && author.Keys == comments && body.Keys == comments && createdAt.Keys == comments
    }

    constructor()
      ensures comments == {} && article == map[] && author == map[] && body == map[] && createdAt == map[] && Valid()
    {
      comments := {};
      article := map[];
      author := map[];
      body := map[];
      createdAt := map[];
    }

    /** `create`: an empty or missing body is refused; otherwise the comment
        is stored under the id given, replacing one stored there before. */
    method Create(comment: string, art: string, auth: string, text: string, now: int) returns (r: Result<string>)
      requires Valid()
      modifies this
      ensures Valid()
      ensures r.Err? <==> text == ""
      ensures r.Err? ==> r.error == "Comment body required"
      ensures r.Err? ==> comments == old(comments) && article == old(article) && author == old(author)
                         && body == old(body) && createdAt == old(createdAt)
      ensures r.Ok? ==> r.value == comment && comments == old(comments) + {comment}
      ensures r.Ok? ==> article == old(article)[comment := art] && author == old(author)[comment := auth]
                        && body == old(body)[comment := text] && createdAt == old(createdAt)[comment := now]
    {
      if text == "" {
        return Err("Comment body required");
      }
      comments := comments + {comment};
      article := article[comment := art];
      author := author[comment := auth];
      body := body[comment := text];
      createdAt := createdAt[comment := now];
      return Ok(comment);
    }
  }

  /** After a successful create, the comment's body reads back as given and
      every other comment is untouched. */
  method CreateThenRead(store: CommentStore, comment: string, other: string, art: string, auth: string, text: string,
                        now: int) returns (stored: string)
    requires store.Valid() && text != "" && other in store.comments && other != comment
    modifies store
    ensures stored == text
    ensures store.Valid() && other in store.body && store.body[other] == old(store.body[other])
  {
    var r := store.Create(comment, art, auth, text, now);
    stored := store.body[comment];
  }
}
