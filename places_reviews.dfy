/** The handlers of `/places/<place_id>/reviews` and `/reviews/<review_id>`. */
module PlacesReviews {
  import opened Model
  import opened ObjectStore
  import Guard

  /** The attributes a PUT on a review may not touch. */
  const Protected: set<string> := {"id", "user_id", "place_id", "created_at", "updated_at"}

  /** The body names an author: it holds `user_id`. */
  predicate AuthorGiven(req: Request)
  {
    "user_id" in Payload(req)
  }

  /** The `user_id` of the body names a stored user. */
  predicate AuthorKnown(st: Storage, req: Request)
    reads st
  {
    "user_id" in Payload(req) && Resolves(st.users, Payload(req)["user_id"])
  }

  /** GET /places/<place_id>/reviews: the reviews whose `place_id` is that place. */
  function ListReviewsOfPlace(st: Storage, placeId: Id): (r: Response)
    reads st
    ensures r == NotFound <==> placeId !in st.places
    ensures placeId in st.places ==> r.Ok? && r.body.Many?
    ensures placeId in st.places ==>
      forall rec :: rec in r.body.recs <==> rec in st.reviews.Values && RefersTo(rec, "place_id", placeId)
  {
    if placeId !in st.places then NotFound else Ok(Many(Children(st.reviews, "place_id", placeId)))
  }

  /**
   POST /places/<place_id>/reviews. The checks run in this order: the place
   exists, the body is a JSON object, it holds `user_id`, that user exists,
   it holds `text`. Nothing is stored unless all pass.
   */
  method PostReview(st: Storage, placeId: Id, req: Request, newId: Id, now: Value) returns (r: Response)
    requires st.Valid() && newId !in st.reviews
    modifies st`reviews
    ensures st.Valid()
    ensures placeId !in st.places ==> r == NotFound
    ensures placeId in st.places && !JsonObject(req) ==> r == BadRequest("Not a JSON")
    ensures placeId in st.places && JsonObject(req) && !AuthorGiven(req) ==>
      r == BadRequest("Missing user_id")
    ensures placeId in st.places && JsonObject(req) && AuthorGiven(req) && !AuthorKnown(st, req) ==> r == NotFound
    ensures placeId in st.places && JsonObject(req) && AuthorGiven(req) && AuthorKnown(st, req) && "text" !in Payload(req) ==>
      r == BadRequest("Missing text")
    ensures r.Created? <==>
      placeId in st.places && JsonObject(req) && AuthorGiven(req) && AuthorKnown(st, req) && "text" in Payload(req)
    ensures r.Created? ==> st.reviews == old(st.reviews)[newId := NewChild(Payload(req), "place_id", placeId, newId, now)]
    ensures r.Created? ==> r.body == One(st.reviews[newId])
    ensures !r.Created? ==> st.reviews == old(st.reviews)
  {
    if placeId !in st.places {
      return NotFound;
    }
    if !req.isJson {
      return BadRequest("Not a JSON");
    }
    if !HasData(req) {
      return BadRequest("Not a JSON");
    }
    var data := Payload(req);
    if "user_id" !in data {
      return BadRequest("Missing user_id");
    }
    if !Resolves(st.users, data["user_id"]) {
      return NotFound;
    }
    if "text" !in data {
      return BadRequest("Missing text");
    }
    var review := NewChild(data, "place_id", placeId, newId, now);
    st.reviews := st.reviews[newId := review];
    r := Created(One(review));
  }

  /** GET /reviews/<review_id>. */
  function GetReview(st: Storage, id: Id): (r: Response)
    reads st
    ensures r == NotFound <==> id !in st.reviews
    ensures id in st.reviews ==> r == Ok(One(st.reviews[id]))
  {
    if id !in st.reviews then NotFound else Ok(One(st.reviews[id]))
  }

  /** PUT /reviews/<review_id>: every payload key but `id`, the author, the place and the timestamps is applied. */
  method PutReview(st: Storage, id: Id, req: Request, now: Value) returns (r: Response)
    requires st.Valid()
    modifies st`reviews
    ensures st.Valid()
    ensures id !in old(st.reviews) ==> r == NotFound
    ensures id in old(st.reviews) && !JsonObject(req) ==> r == BadRequest("Not a JSON")
    ensures r.Ok? <==> id in old(st.reviews) && JsonObject(req)
    ensures r.Ok? ==> st.reviews == old(st.reviews)[id := Guard.Updated(old(st.reviews)[id], Payload(req), Protected, now)]
    ensures r.Ok? ==> r.body == One(st.reviews[id])
    ensures !r.Ok? ==> st.reviews == old(st.reviews)
  {
    if id !in st.reviews {
      return NotFound;
    }
    if !req.isJson {
      return BadRequest("Not a JSON");
    }
    if !HasData(req) {
      return BadRequest("Not a JSON");
    }
    var review := Guard.ApplyPayload(st.reviews[id], Payload(req), Protected);
    review := review["updated_at" := now];
    st.reviews := st.reviews[id := review];
    r := Ok(One(review));
  }

  /** DELETE /reviews/<review_id>: removes exactly that review. */
  method DeleteReview(st: Storage, id: Id) returns (r: Response)
    requires st.Valid()
    modifies st`reviews
    ensures st.Valid()
    ensures r == if id in old(st.reviews) then Ok(EmptyObject) else NotFound
    ensures st.reviews == old(st.reviews) - {id}
  {
    if id !in st.reviews {
      return NotFound;
    }
    st.reviews := st.reviews - {id};
    r := Ok(EmptyObject);
  }
}
