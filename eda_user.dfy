/** The user registry of the event-driven example: users are plain objects
    keyed by id, with the sets of e-mails and usernames handed out at
    registration. Fresh ids and the clock are parameters. */
module EdaUser {
  import opened Wrappers
  import opened Json

  datatype Action = Register | GetUser | UpdateUser | Deactivate | Reset

  function Name(a: Action): string {
    match a
    case Register => "register"
    case GetUser => "get"
    case UpdateUser => "update"
    case Deactivate => "deactivate"
    case Reset => "reset"
  }

  /** The `switch` of `execute`. */
  function Dispatch(action: string): (r: Result<Action>)
    ensures r.Ok? ==> Name(r.value) == action
    ensures r.Err? ==> r.error == "Unknown action: " + action && forall a :: Name(a) != action
  {
    if action == "register" then Ok(Register)
    else if action == "get" then Ok(GetUser)
    else if action == "update" then Ok(UpdateUser)
    else if action == "deactivate" then Ok(Deactivate)
    else if action == "reset" then Ok(Reset)
    else Err("Unknown action: " + action)
  }

  /** The object `register` stores; the password is not kept. */
  function NewUser(id: string, username: string, email: string, now: int): (u: Object)
    ensures |u| == 5 && UniqueKeys(u)
  {
    [Field("id", Str(id)), Field("username", Str(username)), Field("email", Str(email)),
     Field("createdAt", Int(now)), Field("status", Str("active"))]
  }

  /** A registered user is active and carries the name and address given. */
  lemma NewUserFields(id: string, username: string, email: string, now: int)
    ensures var u := NewUser(id, username, email, now);
            Json.Get(u, "username") == Some(Str(username)) && Json.Get(u, "email") == Some(Str(email))
            && Json.Get(u, "status") == Some(Str("active"))
  {
    var u := NewUser(id, username, email, now);
    GetAt(u, 1);
    GetAt(u, 2);
    GetAt(u, 4);
  }

  class UserStore {
    var users: map<string, Object>
    var emails: set<string>
    var usernames: set<string>

    constructor()
      ensures users == map[] && emails == {} && usernames == {}
    {
      users := map[];
      emails := {};
      usernames := {};
    }

    /** `register`: a taken e-mail is reported before a taken username. */
    method Register(username: string, email: string, password: string, userId: string, now: int)
      returns (r: Result<Object>)
      requires userId !in users
      modifies this
      ensures r.Err? <==> username == "" || email == "" || password == "" || email in old(emails)
                          || username in old(usernames)
      ensures r.Err? ==> r.error == (if username == "" || email == "" || password == "" then "Username, email, and password are required"
                                     else if email in old(emails) then "Email already registered"
                                     else "Username already taken")
      ensures r.Err? ==> users == old(users) && emails == old(emails) && usernames == old(usernames)
      ensures r.Ok? ==> r.value == NewUser(userId, username, email, now) && users == old(users)[userId := r.value]
      ensures r.Ok? ==> emails == old(emails) + {email} && usernames == old(usernames) + {username}
    {
      if username == "" || email == "" || password == "" {
        return Err("Username, email, and password are required");
      }
      if email in emails {
        return Err("Email already registered");
      }
      if username in usernames {
        return Err("Username already taken");
      }
      var u := NewUser(userId, username, email, now);
      users := users[userId := u];
      emails := emails + {email};
      usernames := usernames + {username};
      return Ok(u);
    }

    method GetUser(userId: string) returns (r: Result<Object>)
      ensures r.Ok? <==> userId in users
      ensures r.Ok? ==> r.value == users[userId]
      ensures r.Err? ==> r.error == "User not found"
    {
      if userId !in users {
        return Err("User not found");
      }
      return Ok(users[userId]);
    }

    /** `update`: the updates overlay the user; the e-mail and username sets
        are left as they are. */
    method UpdateUser(userId: string, updates: Object, now: int) returns (r: Result<Object>)
      requires UniqueKeys(updates)
      modifies this`users
      ensures r.Ok? <==> userId in old(users)
      ensures r.Err? ==> r.error == "User not found" && users == old(users)
      ensures r.Ok? ==> r.value == Put(Merge(old(users)[userId], updates), "updatedAt", Int(now))
      ensures r.Ok? ==> users == old(users)[userId := r.value]
      ensures r.Ok? ==> forall k :: k != "updatedAt" ==>
        Json.Get(r.value, k) == if k in Keys(updates) then Json.Get(updates, k) else Json.Get(old(users)[userId], k)
    {
      if userId !in users {
        return Err("User not found");
      }
      var u := Put(Merge(users[userId], updates), "updatedAt", Int(now));
      forall k | k != "updatedAt"
        ensures Json.Get(u, k) == if k in Keys(updates) then Json.Get(updates, k) else Json.Get(users[userId], k)
      {
        PutGet(Merge(users[userId], updates), "updatedAt", Int(now), k);
        MergeGet(users[userId], updates, k);
      }
      users := users[userId := u];
      return Ok(u);
    }

    method DeactivateUser(userId: string, now: int) returns (r: Result<Object>)
      modifies this`users
      ensures r.Ok? <==> userId in old(users)
      ensures r.Err? ==> r.error == "User not found" && users == old(users)
      ensures r.Ok? ==> r.value == Put(Put(old(users)[userId], "status", Str("inactive")), "deactivatedAt", Int(now))
      ensures r.Ok? ==> Json.Get(r.value, "status") == Some(Str("inactive"))
      ensures r.Ok? ==> users == old(users)[userId := r.value]
    {
      if userId !in users {
        return Err("User not found");
      }
      var u := Put(Put(users[userId], "status", Str("inactive")), "deactivatedAt", Int(now));
      PutGet(Put(users[userId], "status", Str("inactive")), "deactivatedAt", Int(now), "status");
      PutGet(users[userId], "status", Str("inactive"), "status");
      users := users[userId := u];
      return Ok(u);
    }

    method Reset()
      modifies this
      ensures users == map[] && emails == {} && usernames == {}
    {
      users := map[];
      emails := {};
      usernames := {};
    }
  }
}
