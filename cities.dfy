/** The handlers of `/states/<state_id>/cities` and `/cities/<city_id>`. */
module Cities {
  import opened Model
  import opened ObjectStore
  import Guard

  /** The attributes a PUT on a city may not touch. */
  const Protected: set<string> := {"id", "state_id", "updated_at", "created_at"}

  /** GET /states/<state_id>/cities: the cities whose `state_id` is that state. */
  function ListCitiesOfState(st: Storage, stateId: Id): (r: Response)
    reads st
    ensures r == NotFound <==> stateId !in st.states
    ensures stateId in st.states ==> r.Ok? && r.body.Many?
    ensures stateId in st.states ==>
      forall rec :: rec in r.body.recs <==> rec in st.cities.Values && RefersTo(rec, "state_id", stateId)
  {
    if stateId !in st.states then NotFound else Ok(Many(Children(st.cities, "state_id", stateId)))
  }

  /** POST /states/<state_id>/cities: the state must exist, then the body must be JSON holding `name`. */
  method PostCity(st: Storage, stateId: Id, req: Request, newId: Id, now: Value) returns (r: Response)
    requires st.Valid() && newId !in st.cities
    modifies st`cities
    ensures st.Valid()
    ensures stateId !in st.states ==> r == NotFound
    ensures stateId in st.states && !JsonObject(req) ==> r == BadRequest("Not a JSON")
    ensures stateId in st.states && JsonObject(req) && "name" !in Payload(req) ==> r == BadRequest("Missing name")
    ensures r.Created? <==> stateId in st.states && JsonObject(req) && "name" in Payload(req)
    ensures r.Created? ==> st.cities == old(st.cities)[newId := NewChild(Payload(req), "state_id", stateId, newId, now)]
    ensures r.Created? ==> r.body == One(st.cities[newId])
    ensures !r.Created? ==> st.cities == old(st.cities)
  {
    if stateId !in st.states {
      return NotFound;
    }
    if !req.isJson {
      return BadRequest("Not a JSON");
    }
    if !HasData(req) {
      return BadRequest("Not a JSON");
    }
    var data := Payload(req);
    if "name" !in data {
      return BadRequest("Missing name");
    }
    var city := NewChild(data, "state_id", stateId, newId, now);
    st.cities := st.cities[newId := city];
    r := Created(One(city));
  }

  /** GET /cities/<city_id>. */
  function GetCity(st: Storage, id: Id): (r: Response)
    reads st
    ensures r == NotFound <==> id !in st.cities
    ensures id in st.cities ==> r == Ok(One(st.cities[id]))
  {
    if id !in st.cities then NotFound else Ok(One(st.cities[id]))
  }

  /** PUT /cities/<city_id>: every payload key but `id`, `state_id` and the timestamps is applied. */
  method PutCity(st: Storage, id: Id, req: Request, now: Value) returns (r: Response)
    requires st.Valid()
    modifies st`cities
    ensures st.Valid()
    ensures id !in old(st.cities) ==> r == NotFound
    ensures id in old(st.cities) && !JsonObject(req) ==> r == BadRequest("Not a JSON")
    ensures r.Ok? <==> id in old(st.cities) && JsonObject(req)
    ensures r.Ok? ==> st.cities == old(st.cities)[id := Guard.Updated(old(st.cities)[id], Payload(req), Protected, now)]
    ensures r.Ok? ==> r.body == One(st.cities[id])
    ensures !r.Ok? ==> st.cities == old(st.cities)
  {
    if id !in st.cities {
      return NotFound;
    }
    if !req.isJson || !HasData(req) {
      return BadRequest("Not a JSON");
    }
    var city := Guard.ApplyPayload(st.cities[id], Payload(req), Protected);
    city := city["updated_at" := now];
    st.cities := st.cities[id := city];
    r := Ok(One(city));
  }

  /** DELETE /cities/<city_id>: removes that city only; its places are left in place. */
  method DeleteCity(st: Storage, id: Id) returns (r: Response)
    requires st.Valid()
    modifies st`cities
    ensures st.Valid()
    ensures r == if id in old(st.cities) then Ok(EmptyObject) else NotFound
    ensures st.cities == old(st.cities) - {id}
  {
    if id !in st.cities {
      return NotFound;
    }
    st.cities := st.cities - {id};
    r := Ok(EmptyObject);
  }
}
