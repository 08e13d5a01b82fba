/** The favorite concept of the express example: for each article, the set
    of users who favorited it. */
module Favorite {
  import opened Wrappers

  datatype Action = Add | Remove

  function Name(a: Action): string {
    match a
    case Add => "add"
    case Remove => "remove"
  }

  /** The final `throw` of `execute`. */
  function Dispatch(action: string): (r: Result<Action>)
    ensures r.Ok? ==> Name(r.value) == action
    ensures r.Err? ==> r.error == "Unknown action: " + action && forall a :: Name(a) != action
  {
    if action == "add" then Ok(Add)
    else if action == "remove" then Ok(Remove)
    else Err("Unknown action: " + action)
  }

  /** The table after `add`: an unseen article gets a set first; the user
      joins the article's favoriters and every other article's set is as
      it was. */
  function Added(f: map<string, set<string>>, article: string, user: string): (r: map<string, set<string>>)
    ensures article in r && user in r[article]
    ensures forall u :: u != user ==> (u in r[article] <==> article in f && u in f[article])
    ensures forall a :: a != article ==> (a in r <==> a in f)
    ensures forall a :: a != article && a in f ==> r[a] == f[a]
  {
    f[article := (if article in f then f[article] else {}) + {user}]
  }

  /** The table after `remove`: the user leaves the article's favoriters,
      nobody else is affected, and an unknown article is left alone. */
  function Removed(f: map<string, set<string>>, article: string, user: string): (r: map<string, set<string>>)
    ensures article in r <==> article in f
    ensures article in f ==> user !in r[article]
    ensures article in f ==> forall u :: u != user ==> (u in r[article] <==> u in f[article])
    ensures forall a :: a != article ==> (a in r <==> a in f)
    ensures forall a :: a != article && a in f ==> r[a] == f[a]
  {
    if article in f then f[article := f[article] - {user}] else f
  }

  /** Adding twice is adding once. */
  lemma AddIdempotent(f: map<string, set<string>>, article: string, user: string)
    ensures Added(Added(f, article, user), article, user) == Added(f, article, user)
  {
    var once := Added(f, article, user);
    assert once[article] + {user} == once[article];
  }

  /** Removing what was just added restores the article's set when the user
      was not in it before. */
  lemma RemoveUndoesAdd(f: map<string, set<string>>, article: string, user: string)
    requires article in f && user !in f[article]
    ensures Removed(Added(f, article, user), article, user) == f
  {
    assert f[article] + {user} - {user} == f[article];
    assert f[article := f[article]] == f;
  }

  class FavoriteStore {
    var favorites: map<string, set<string>>

    constructor()
      ensures favorites == map[]
    {
      favorites := map[];
    }

    /** `add`; it answers `{article}`. */
    method Add(article: string, user: string) returns (r: string)
      modifies this
      ensures favorites == Added(old(favorites), article, user)
      ensures r == article
    {
      if article !in favorites {
        favorites := favorites[article := {}];
      }
      favorites := favorites[article := favorites[article] + {user}];
      r := article;
    }

    /** `remove`; it never fails and answers `{article}`. */
    method Remove(article: string, user: string) returns (r: string)
      modifies this
      ensures favorites == Removed(old(favorites), article, user)
      ensures r == article
    {
      if article in favorites {
        favorites := favorites[article := favorites[article] - {user}];
      }
      r := article;
    }
  }
}
