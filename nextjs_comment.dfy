/** The comment concept of the Next.js example: comments under a fresh id,
    each with a timestamp, an author name (`nombre`) and a text
    (`comentario`). Fresh ids and the ISO timestamp are parameters. */
module NextComment {
  import opened Wrappers

  datatype Action = Create

  function Name(a: Action): string {
    match a
    case Create => "create"
  }

  /** The final `throw` of `execute`. */
  function Dispatch(action: string): (r: Result<Action>)
    ensures r.Ok? ==> Name(r.value) == action
    ensures r.Err? ==> r.error == "Unknown action: " + action && forall a :: Name(a) != action
  {
    if action == "create" then Ok(Create)
    else Err("Unknown action: " + action)
  }

  /** What `create` returns. */
  datatype Created = Created(commentId: string, timestamp: string, nombre: string, comentario: string)

  class CommentStore {
    var comments: set<string>
    var timestamp: map<string, string>
    var nombre: map<string, string>
    var comentario: map<string, string>

    ghost predicate Valid()
      reads this
    {
      timestamp.Keys == comments && nombre.Keys == comments && comentario.Keys == comments
    }

    constructor()
      ensures comments == {} && timestamp == map[] && nombre == map[] && comentario == map[] && Valid()
    {
      comments := {};
      timestamp := map[];
      nombre := map[];
      comentario := map[];
    }

    /** `create`: both fields are required; the new comment gets the fresh
        id and the current time, so the set grows by exactly one. */
    method Create(name: string, text: string, commentId: string, now: string) returns (r: Result<Created>)
      requires Valid() && commentId !in comments
      modifies this
      ensures Valid()
      ensures r.Err? <==> name == "" || text == ""
      ensures r.Err? ==> r.error == "Nombre and comentario required"
      ensures r.Err? ==> comments == old(comments) && timestamp == old(timestamp) && nombre == old(nombre)
                         && comentario == old(comentario)
      ensures r.Ok? ==> r.value == Created(commentId, now, name, text)
      ensures r.Ok? ==> comments == old(comments) + {commentId} && |comments| == |old(comments)| + 1
      ensures r.Ok? ==> timestamp == old(timestamp)[commentId := now] && nombre == old(nombre)[commentId := name]
                        && comentario == old(comentario)[commentId := text]
    {
      if name == "" || text == "" {
        return Err("Nombre and comentario required");
      }
      comments := comments + {commentId};
      timestamp := timestamp[commentId := now];
      nombre := nombre[commentId := name];
      comentario := comentario[commentId := text];
      return Ok(Created(commentId, now, name, text));
    }
  }
}
