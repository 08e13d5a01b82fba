/** The user concept of the console example: a set of user ids with a
    username and an e-mail per id. Inputs are strings; an absent one reads
    as the empty string. */
module ConsoleUser {
  import opened Wrappers
  import Chars
  import opened Maps

  datatype Action = Register | GetByUsername

  function Name(a: Action): string {
    match a
    case Register => "register"
    case GetByUsername => "getByUsername"
  }

  /** The final `throw` of `execute`. */
  function Dispatch(action: string): (r: Result<Action>)
    ensures r.Ok? ==> Name(r.value) == action
    ensures r.Err? ==> r.error == "Unknown action: " + action && forall a :: Name(a) != action
  {
    if action == "register" then Ok(Register)
    else if action == "getByUsername" then Ok(GetByUsername)
    else Err("Unknown action: " + action)
  }

  /** `s.trim() === ''`: nothing but whitespace. */
  predicate Blank(s: string)
    decreases |s|
  {
    s == [] || (Chars.IsSpace(s[0]) && Blank(s[1..]))
  }

  /** What `getByUsername` returns. */
  datatype Found = Found(user: string, username: string, email: string)

  /** The checks of `register`, in order, against the set of ids and the
      usernames and e-mails in use; None when all pass. */
  function RegisterError(users: set<string>, usernames: set<string>, emails: set<string>, user: string,
                         username: string, email: string): (e: Option<string>)
    ensures e.None? <==> !Blank(username) && '@' in email && user !in users && username !in usernames
                         && email !in emails
  {
    if Blank(username) then Some("Username required")
    else if '@' !in email then Some("Valid email required")
    else if user in users then Some("User exists")
    else if username in usernames then Some("Username taken")
    else if email in emails then Some("Email taken")
    else None
  }

  /** Every user has one username and one e-mail, and no username or
      e-mail belongs to two users; `order` lists the users once each. */
  ghost predicate Consistent(users: set<string>, username: map<string, string>, email: map<string, string>,
                             order: seq<string>)
  {
    (forall i, j :: 0 <= i < j < |order| ==> order[i] != order[j])
    && (forall u :: u in users <==> u in order)
    && username.Keys == users && email.Keys == users
    && Injective(username) && Injective(email)
  }

  /** A registration that passes every check keeps usernames and e-mails
      unique. */
  lemma RegisterKeepsConsistent(users: set<string>, username: map<string, string>, email: map<string, string>,
                                order: seq<string>, user: string, name: string, mail: string)
    requires Consistent(users, username, email, order)
    requires user !in users && name !in username.Values && mail !in email.Values
    ensures Consistent(users + {user}, username[user := name], email[user := mail], order + [user])
  {
    var order' := order + [user];
    FreshValueInjective(username, user, name);
    FreshValueInjective(email, user, mail);
    forall i, j | 0 <= i < j < |order'|
      ensures order'[i] != order'[j]
    {
      assert order'[i] == order[i];
      if j < |order| {
        assert order'[j] == order[j];
      }
    }
    forall u
      ensures u in users + {user} <==> u in order'
    {
      assert u in order' <==> u in order || u == user;
    }
  }

  class UserStore {
    var users: set<string>
    var username: map<string, string>
    var email: map<string, string>
    /** The ids in registration order, the order the maps iterate in. */
    var order: seq<string>

    ghost predicate Valid()
      reads this
    {
      Consistent(users, username, email, order)
    }

    constructor()
      ensures users == {} && username == map[] && email == map[] && order == [] && Valid()
    {
      users := {};
      username := map[];
      email := map[];
      order := [];
    }

    /** `register`: the first failing check is reported and nothing changes;
        otherwise the user is added with its username and e-mail. */
    method Register(user: string, name: string, mail: string) returns (r: Result<string>)
      requires Valid()
      modifies this
      ensures Valid()
      ensures var e := old(RegisterError(users, username.Values, email.Values, user, name, mail));
              (r.Err? <==> e.Some?) && (r.Err? ==> r.error == e.value)
      ensures r.Err? ==> users == old(users) && username == old(username) && email == old(email) && order == old(order)
      ensures r.Ok? ==> r.value == user && users == old(users) + {user} && order == old(order) + [user]
      ensures r.Ok? ==> username == old(username)[user := name] && email == old(email)[user := mail]
    {
      var e := RegisterError(users, username.Values, email.Values, user, name, mail);
      if e.Some? {
        return Err(e.value);
      }
      RegisterKeepsConsistent(users, username, email, order, user, name, mail);
      users := users + {user};
      username := username[user := name];
      email := email[user := mail];
      order := order + [user];
      return Ok(user);
    }

    /** `getByUsername`: the first user, in registration order, with that
        username. */
    method GetByUsername(name: string) returns (r: Result<Found>)
      requires Valid()
      ensures r.Err? <==> name !in username.Values
      ensures r.Err? ==> r.error == "User not found"
      ensures r.Ok? ==> exists i :: 0 <= i < |order| && order[i] == r.value.user
                          && (forall j :: 0 <= j < i ==> username[order[j]] != name)
      ensures r.Ok? ==> r.value.user in users && username[r.value.user] == name && r.value.username == name
                        && r.value.email == email[r.value.user]
    {
      for i := 0 to |order|
        invariant forall j :: 0 <= j < i ==> username[order[j]] != name
      {
        var u := order[i];
        if username[u] == name {
          return Ok(Found(u, name, email[u]));
        }
      }
      assert forall u :: u in username ==> u in order;
      return Err("User not found");
    }
  }

  /** Two registrations with the same username: the second is refused, with
      the same error whatever its id and e-mail. */
  method UsernameTakenTwice(store: UserStore, u1: string, u2: string, name: string, m1: string, m2: string)
    returns (second: Result<string>)
    requires store.Valid() && store.users == {}
    requires !Blank(name) && '@' in m1 && '@' in m2 && u1 != u2
    modifies store
    ensures second == Err("Username taken")
  {
    var first := store.Register(u1, name, m1);
    assert store.username[u1] == name;
    second := store.Register(u2, name, m2);
  }
}
