/** The handlers of `/users` and `/users/<user_id>`. */
module Users {
  import opened Model
  import opened ObjectStore
  import Guard

  /** The attributes a PUT on a user may not touch: `email` and `password` stay updatable. */
  const Protected: set<string> := {"id", "created_at", "updated_at"}

  /** GET /users: every stored user. */
  function ListUsers(st: Storage): (r: Response)
    reads st
    ensures r.Ok? && r.body.Many?
    ensures forall rec :: rec in r.body.recs <==> exists id :: id in st.users && st.users[id] == rec
  {
    Ok(Many(st.users.Values))
  }

  /** POST /users: `email` is required first, then `password`. */
  method PostUser(st: Storage, req: Request, newId: Id, now: Value) returns (r: Response)
    requires st.Valid() && newId !in st.users
    modifies st`users
    ensures st.Valid()
    ensures !JsonObject(req) ==> r == BadRequest("Not a JSON")
    ensures JsonObject(req) && "email" !in Payload(req) ==> r == BadRequest("Missing email")
    ensures JsonObject(req) && "email" in Payload(req) && "password" !in Payload(req) ==> r == BadRequest("Missing password")
    ensures r.Created? <==> JsonObject(req) && "email" in Payload(req) && "password" in Payload(req)
    ensures r.Created? ==> st.users == old(st.users)[newId := NewRecord(Payload(req), newId, now)]
    ensures r.Created? ==> r.body == One(st.users[newId]) && |st.users| == |old(st.users)| + 1
    ensures !r.Created? ==> st.users == old(st.users)
  {
    if !req.isJson {
      return BadRequest("Not a JSON");
    }
    if !HasData(req) {
      return BadRequest("Not a JSON");
    }
    var data := Payload(req);
    if "email" !in data {
      return BadRequest("Missing email");
    }
    if "password" !in data {
      return BadRequest("Missing password");
    }
    var user := NewRecord(data, newId, now);
    st.users := st.users[newId := user];
    r := Created(One(user));
  }

  /** GET /users/<user_id>. */
  function GetUser(st: Storage, id: Id): (r: Response)
    reads st
    ensures r == NotFound <==> id !in st.users
    ensures id in st.users ==> r == Ok(One(st.users[id]))
  {
    if id !in st.users then NotFound else Ok(One(st.users[id]))
  }

  /**
   PUT /users/<user_id>: unlike the other PUT handlers there is no
   `is_json` test, only the test that the parsed body is a non-empty object.
   */
  method PutUser(st: Storage, id: Id, req: Request, now: Value) returns (r: Response)
    requires st.Valid()
    modifies st`users
    ensures st.Valid()
    ensures id !in old(st.users) ==> r == NotFound
    ensures id in old(st.users) && !HasData(req) ==> r == BadRequest("Not a JSON")
    ensures r.Ok? <==> id in old(st.users) && HasData(req)
    ensures r.Ok? ==> st.users == old(st.users)[id := Guard.Updated(old(st.users)[id], Payload(req), Protected, now)]
    ensures r.Ok? ==> r.body == One(st.users[id])
    ensures !r.Ok? ==> st.users == old(st.users)
  {
    if id !in st.users {
      return NotFound;
    }
    if !HasData(req) {
      return BadRequest("Not a JSON");
    }
    var user := Guard.ApplyPayload(st.users[id], Payload(req), Protected);
    user := user["updated_at" := now];
    st.users := st.users[id := user];
    r := Ok(One(user));
  }

  /** DELETE /users/<user_id>: removes that user and nothing else. */
  method DeleteUser(st: Storage, id: Id) returns (r: Response)
    requires st.Valid()
    modifies st`users
    ensures st.Valid()
    ensures r == if id in old(st.users) then Ok(EmptyObject) else NotFound
    ensures st.users == old(st.users) - {id}
  {
    if id !in st.users {
      return NotFound;
    }
    st.users := st.users - {id};
    r := Ok(EmptyObject);
  }
}
