/**
 The handlers of `/cities/<city_id>/places`, `/places/<place_id>` and
 `/places_search`.
 */
module Places {
  import opened Model
  import opened ObjectStore
  import opened Search
  import Guard

  /** The attributes a PUT on a place may not touch. */
  const Protected: set<string> := {"id", "user_id", "city_id", "created_at", "updated_at"}

  /** The body names an owner: it holds `user_id`. */
  predicate OwnerGiven(req: Request)
  {
    "user_id" in Payload(req)
  }

  /** The `user_id` of the body names a stored user. */
  predicate OwnerKnown(st: Storage, req: Request)
    reads st
  {
    "user_id" in Payload(req) && Resolves(st.users, Payload(req)["user_id"])
  }

  /** GET /cities/<city_id>/places: the places whose `city_id` is that city. */
  function ListPlacesOfCity(st: Storage, cityId: Id): (r: Response)
    reads st
    ensures r == NotFound <==> cityId !in st.cities
    ensures cityId in st.cities ==> r.Ok? && r.body.Many?
    ensures cityId in st.cities ==>
      forall rec :: rec in r.body.recs <==> rec in st.places.Values && RefersTo(rec, "city_id", cityId)
  {
    if cityId !in st.cities then NotFound else Ok(Many(Children(st.places, "city_id", cityId)))
  }

  /**
   POST /cities/<city_id>/places. The checks run in this order: the city
   exists, the body is a JSON object, it holds `user_id`, that user exists,
   it holds `name`. So a body without `name` naming an unknown user is a 404.
   */
  method PostPlace(st: Storage, cityId: Id, req: Request, newId: Id, now: Value) returns (r: Response)
    requires st.Valid() && newId !in st.places
    modifies st`places, st`links
    ensures st.Valid()
    ensures cityId !in st.cities ==> r == NotFound
    ensures cityId in st.cities && !JsonObject(req) ==> r == BadRequest("Not a JSON")
    ensures cityId in st.cities && JsonObject(req) && !OwnerGiven(req) ==>
      r == BadRequest("Missing user_id")
    ensures cityId in st.cities && JsonObject(req) && OwnerGiven(req) && !OwnerKnown(st, req) ==> r == NotFound
    ensures cityId in st.cities && JsonObject(req) && OwnerGiven(req) && OwnerKnown(st, req) && "name" !in Payload(req) ==>
      r == BadRequest("Missing name")
    ensures r.Created? <==>
      cityId in st.cities && JsonObject(req) && OwnerGiven(req) && OwnerKnown(st, req) && "name" in Payload(req)
    ensures r.Created? ==> st.places == old(st.places)[newId := NewChild(Payload(req), "city_id", cityId, newId, now)]
    ensures r.Created? ==> st.links == old(st.links)[newId := []]
    ensures r.Created? ==> r.body == One(st.places[newId])
    ensures !r.Created? ==> st.places == old(st.places) && st.links == old(st.links)
  {
    if cityId !in st.cities {
      return NotFound;
    }
    if !req.isJson {
      return BadRequest("Not a JSON");
    }
    if !HasData(req) {
      return BadRequest("Not a JSON");
    }
    var data := Payload(req);
    if "user_id" !in data {
      return BadRequest("Missing user_id");
    }
    if !Resolves(st.users, data["user_id"]) {
      return NotFound;
    }
    if "name" !in data {
      return BadRequest("Missing name");
    }
    var place := NewChild(data, "city_id", cityId, newId, now);
    st.places := st.places[newId := place];
    st.links := st.links[newId := []];
    r := Created(One(place));
  }

  /** GET /places/<place_id>. */
  function GetPlace(st: Storage, id: Id): (r: Response)
    reads st
    ensures r == NotFound <==> id !in st.places
    ensures id in st.places ==> r == Ok(One(st.places[id]))
  {
    if id !in st.places then NotFound else Ok(One(st.places[id]))
  }

  /** PUT /places/<place_id>: every payload key but `id`, the owner, the city and the timestamps is applied. */
  method PutPlace(st: Storage, id: Id, req: Request, now: Value) returns (r: Response)
    requires st.Valid()
    modifies st`places
    ensures st.Valid()
    ensures id !in old(st.places) ==> r == NotFound
    ensures id in old(st.places) && !JsonObject(req) ==> r == BadRequest("Not a JSON")
    ensures r.Ok? <==> id in old(st.places) && JsonObject(req)
    ensures r.Ok? ==> st.places == old(st.places)[id := Guard.Updated(old(st.places)[id], Payload(req), Protected, now)]
    ensures r.Ok? ==> r.body == One(st.places[id])
    ensures !r.Ok? ==> st.places == old(st.places)
  {
    if id !in st.places {
      return NotFound;
    }
    if !req.isJson {
      return BadRequest("Not a JSON");
    }
    if !HasData(req) {
      return BadRequest("Not a JSON");
    }
    var place := Guard.ApplyPayload(st.places[id], Payload(req), Protected);
    place := place["updated_at" := now];
    st.places := st.places[id := place];
    r := Ok(One(place));
  }

  /**
   DELETE /places/<place_id>: removes the place, and with it its own
   amenity list; its reviews are left in place.
   */
  method DeletePlace(st: Storage, id: Id) returns (r: Response)
    requires st.Valid()
    modifies st`places, st`links
    ensures st.Valid()
    ensures r == if id in old(st.places) then Ok(EmptyObject) else NotFound
    ensures st.places == old(st.places) - {id}
    ensures st.links == old(st.links) - {id}
  {
    if id !in st.places {
      return NotFound;
    }
    st.places := st.places - {id};
    st.links := st.links - {id};
    r := Ok(EmptyObject);
  }

  /** The loop over the named states: the places of the cities of every stored one. */
  method CollectFromStates(st: Storage, sids: seq<Id>) returns (places: set<Id>)
    ensures places == ByStates(st, sids)
  {
    places := {};
    for i := 0 to |sids|
      invariant places == ByStates(st, sids[..i])
    {
      var s := sids[i];
      ByStatesStep(st, sids, i);
      if s in st.states {
        var todo := CitiesOf(st, s);
        while todo != {}
          invariant todo <= CitiesOf(st, s)
          invariant places == ByStates(st, sids[..i]) + ByCitySet(st, CitiesOf(st, s) - todo)
          decreases todo
        {
          var c :| c in todo;
          ByCitySetStep(st, CitiesOf(st, s) - todo, c);
          assert CitiesOf(st, s) - (todo - {c}) == (CitiesOf(st, s) - todo) + {c};
          places := places + PlacesOf(st, c);
          todo := todo - {c};
        }
      }
    }
    assert sids[..|sids|] == sids;
  }

  /** The loop over the named cities: adds the places of every stored one. */
  method AddFromCities(st: Storage, found: set<Id>, cids: seq<Id>) returns (places: set<Id>)
    ensures places == found + ByCities(st, cids)
  {
    places := found;
    for j := 0 to |cids|
      invariant places == found + ByCities(st, cids[..j])
    {
      var c := cids[j];
      ByCitiesStep(st, cids, j);
      if c in st.cities {
        places := places + PlacesOf(st, c);
      }
    }
    assert cids[..|cids|] == cids;
  }

  /** The amenity filter: keeps the places linked to every stored amenity named. */
  method FilterByAmenities(st: Storage, places: set<Id>, aids: seq<Id>) returns (filtered: set<Id>)
    ensures filtered == set p | p in places && CarriesAll(st, p, aids)
  {
    var objects := Resolved(st.amenities, aids);
    filtered := {};
    var todo := places;
    while todo != {}
      invariant todo <= places
      invariant filtered == set p | p in places - todo && CarriesAll(st, p, aids)
      decreases todo
    {
      var p :| p in todo;
      if forall a :: a in objects ==> a in LinksOf(st, p) {
        filtered := filtered + {p};
      }
      todo := todo - {p};
    }
  }

  /** The last step of the search: the filtered candidates are the search's result. */
  lemma SearchOutcome(st: Storage, req: Request, candidates: set<Id>, places: set<Id>)
    requires HasData(req)
    requires candidates == Candidates(st, Payload(req))
    requires var amenities := Param(Payload(req), "amenities");
      places == if Truthy(amenities) then set p | p in candidates && CarriesAll(st, p, IdsIn(amenities)) else candidates
    ensures places == Result(st, req.body)
  {
  }

  /**
   POST /places_search: the union of the places of the named states and
   cities (or all places when neither is named), filtered by the amenities.
   */
  method PlacesSearch(st: Storage, req: Request) returns (r: Response)
    requires st.Valid()
    ensures !req.isJson ==> r == BadRequest("Not a JSON")
    ensures req.isJson ==> r == Ok(Many(RecordsOf(st.places, Result(st, req.body))))
  {
    if !req.isJson {
      return BadRequest("Not a JSON");
    }
    if !HasData(req) {
      return Ok(Many(RecordsOf(st.places, st.places.Keys)));
    }
    var data := Payload(req);
    var states, cities, amenities := Param(data, "states"), Param(data, "cities"), Param(data, "amenities");

    var places: set<Id> := {};
    if Truthy(states) {
      places := CollectFromStates(st, IdsIn(states));
    }
    assert places == ByStates(st, IdsIn(states));
    if Truthy(cities) {
      places := AddFromCities(st, places, IdsIn(cities));
    }
    assert places == ByStates(st, IdsIn(states)) + ByCities(st, IdsIn(cities));
    if !Truthy(states) && !Truthy(cities) {
      places := st.places.Keys;
    }
    assert places == Candidates(st, data);

    ghost var candidates := places;
    if Truthy(amenities) {
      places := FilterByAmenities(st, places, IdsIn(amenities));
    }
    SearchOutcome(st, req, candidates, places);
    r := Ok(Many(RecordsOf(st.places, places)));
  }
}
