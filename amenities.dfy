/** The handlers of `/amenities` and `/amenities/<amenity_id>`. */
module Amenities {
  import opened Model
  import opened ObjectStore
  import Guard

  /** The attributes a PUT on an amenity may not touch. */
  const Protected: set<string> := {"id", "created_at", "updated_at"}

  /** GET /amenities: every stored amenity. */
  function ListAmenities(st: Storage): (r: Response)
    reads st
    ensures r.Ok? && r.body.Many?
    ensures forall rec :: rec in r.body.recs <==> exists id :: id in st.amenities && st.amenities[id] == rec
  {
    Ok(Many(st.amenities.Values))
  }

  /** POST /amenities: a JSON object holding `name` is stored as a new amenity. */
  method PostAmenity(st: Storage, req: Request, newId: Id, now: Value) returns (r: Response)
    requires st.Valid() && newId !in st.amenities
    modifies st`amenities
    ensures st.Valid()
    ensures !JsonObject(req) ==> r == BadRequest("Not a JSON")
    ensures JsonObject(req) && "name" !in Payload(req) ==> r == BadRequest("Missing name")
    ensures r.Created? <==> JsonObject(req) && "name" in Payload(req)
    ensures r.Created? ==> st.amenities == old(st.amenities)[newId := NewRecord(Payload(req), newId, now)]
    ensures r.Created? ==> r.body == One(st.amenities[newId]) && |st.amenities| == |old(st.amenities)| + 1
    ensures !r.Created? ==> st.amenities == old(st.amenities)
  {
    if !req.isJson {
      return BadRequest("Not a JSON");
    }
    if !HasData(req) {
      return BadRequest("Not a JSON");
    }
    var data := Payload(req);
    if "name" !in data {
      return BadRequest("Missing name");
    }
    var amenity := NewRecord(data, newId, now);
    st.amenities := st.amenities[newId := amenity];
    r := Created(One(amenity));
  }

  /** GET /amenities/<amenity_id>. */
  function GetAmenity(st: Storage, id: Id): (r: Response)
    reads st
    ensures r == NotFound <==> id !in st.amenities
    ensures id in st.amenities ==> r == Ok(One(st.amenities[id]))
  {
    if id !in st.amenities then NotFound else Ok(One(st.amenities[id]))
  }

  /** PUT /amenities/<amenity_id>: every payload key but `id` and the timestamps is applied. */
  method PutAmenity(st: Storage, id: Id, req: Request, now: Value) returns (r: Response)
    requires st.Valid()
    modifies st`amenities
    ensures st.Valid()
    ensures id !in old(st.amenities) ==> r == NotFound
    ensures id in old(st.amenities) && !JsonObject(req) ==> r == BadRequest("Not a JSON")
    ensures r.Ok? <==> id in old(st.amenities) && JsonObject(req)
    ensures r.Ok? ==> st.amenities == old(st.amenities)[id := Guard.Updated(old(st.amenities)[id], Payload(req), Protected, now)]
    ensures r.Ok? ==> r.body == One(st.amenities[id])
    ensures !r.Ok? ==> st.amenities == old(st.amenities)
  {
    if id !in st.amenities {
      return NotFound;
    }
    if !req.isJson || !HasData(req) {
      return BadRequest("Not a JSON");
    }
    var amenity := Guard.ApplyPayload(st.amenities[id], Payload(req), Protected);
    amenity := amenity["updated_at" := now];
    st.amenities := st.amenities[id := amenity];
    r := Ok(One(amenity));
  }

  /** DELETE /amenities/<amenity_id>: removes that amenity and nothing else. */
  method DeleteAmenity(st: Storage, id: Id) returns (r: Response)
    requires st.Valid()
    modifies st`amenities
    ensures st.Valid()
    ensures r == if id in old(st.amenities) then Ok(EmptyObject) else NotFound
    ensures st.amenities == old(st.amenities) - {id}
  {
    if id !in st.amenities {
      return NotFound;
    }
    st.amenities := st.amenities - {id};
    r := Ok(EmptyObject);
  }
}
