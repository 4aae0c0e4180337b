/** The handlers of `/states` and `/states/<state_id>`. */
module States {
  import opened Model
  import opened ObjectStore
  import Guard

  /** The attributes a PUT on a state may not touch. */
  const Protected: set<string> := {"id", "created_at", "updated_at"}

  /** GET /states: every stored state. */
  function ListStates(st: Storage): (r: Response)
    reads st
    ensures r.Ok? && r.body.Many?
    ensures forall rec :: rec in r.body.recs <==> exists id :: id in st.states && st.states[id] == rec
  {
    Ok(Many(st.states.Values))
  }

  /** POST /states: a JSON object holding `name` is stored as a new state. */
  method PostState(st: Storage, req: Request, newId: Id, now: Value) returns (r: Response)
    requires st.Valid() && newId !in st.states
    modifies st`states
    ensures st.Valid()
    ensures !JsonObject(req) ==> r == BadRequest("Not a JSON")
    ensures JsonObject(req) && "name" !in Payload(req) ==> r == BadRequest("Missing name")
    ensures r.Created? <==> JsonObject(req) && "name" in Payload(req)
    ensures r.Created? ==> st.states == old(st.states)[newId := NewRecord(Payload(req), newId, now)]
    ensures r.Created? ==> r.body == One(st.states[newId]) && |st.states| == |old(st.states)| + 1
    ensures !r.Created? ==> st.states == old(st.states)
  {
    if !req.isJson {
      return BadRequest("Not a JSON");
    }
    if !HasData(req) {
      return BadRequest("Not a JSON");
    }
    var data := Payload(req);
    if "name" !in data {
      return BadRequest("Missing name");
    }
    var state := NewRecord(data, newId, now);
    st.states := st.states[newId := state];
    r := Created(One(state));
  }

  /** GET /states/<state_id>. */
  function GetState(st: Storage, id: Id): (r: Response)
    reads st
    ensures r == NotFound <==> id !in st.states
    ensures id in st.states ==> r == Ok(One(st.states[id]))
  {
    if id !in st.states then NotFound else Ok(One(st.states[id]))
  }

  /** PUT /states/<state_id>: every payload key but `id` and the timestamps is applied. */
  method PutState(st: Storage, id: Id, req: Request, now: Value) returns (r: Response)
    requires st.Valid()
    modifies st`states
    ensures st.Valid()
    ensures id !in old(st.states) ==> r == NotFound
    ensures id in old(st.states) && !JsonObject(req) ==> r == BadRequest("Not a JSON")
    ensures r.Ok? <==> id in old(st.states) && JsonObject(req)
    ensures r.Ok? ==> st.states == old(st.states)[id := Guard.Updated(old(st.states)[id], Payload(req), Protected, now)]
    ensures r.Ok? ==> r.body == One(st.states[id])
    ensures !r.Ok? ==> st.states == old(st.states)
  {
    if id !in st.states {
      return NotFound;
    }
    if !req.isJson || !HasData(req) {
      return BadRequest("Not a JSON");
    }
    var state := Guard.ApplyPayload(st.states[id], Payload(req), Protected);
    state := state["updated_at" := now];
    st.states := st.states[id := state];
    r := Ok(One(state));
  }

  /** DELETE /states/<state_id>: removes that state and nothing else. */
  method DeleteState(st: Storage, id: Id) returns (r: Response)
    requires st.Valid()
    modifies st`states
    ensures st.Valid()
    ensures r == if id in old(st.states) then Ok(EmptyObject) else NotFound
    ensures st.states == old(st.states) - {id}
  {
    if id !in st.states {
      return NotFound;
    }
    st.states := st.states - {id};
    r := Ok(EmptyObject);
  }
}
